/** Sequential uses of a ThreadsafeObject by one producer and one consumer,
    with each wait split into its baseline capture and its post-wake check.
    Each states what the consumer observes. */
module Scenarios {
  import opened Counters
  import opened ThreadsafeObjects

  /** A consumer that captured its baseline before one `set(index, datum)`
      is told `index` by the any-field wait and then reads `datum`. */
  method SetIsReported<T(0)>(o: ThreadsafeObject<T>, index: nat, datum: T) returns (r: Result<int>, got: T)
    requires o.Valid() && index < o.size
    modifies o, o.counts
    ensures o.Valid() && o.counts == old(o.counts)
    ensures o.values == old(o.values)[index := datum]
    ensures o.Current() == Snapshot(Bumped(old(o.counts[..]), index), old(o.total) + 1)
    ensures r == Ok(index) && got == datum
  {
    var baseline := o.Capture();
    o.Set(index, datum);
    OneSetReported(baseline, index);
    r := o.CheckAnyUpdate(baseline);
    got := o.Get(index);
  }

  /** Two fields, position (0) and current (1). The producer sets position
      and then current; a consumer waiting for any update sees field 0 and
      reads the position, then sees field 1 and reads the current. Setting
      the current leaves the position as it was, and each count is 1. */
  method PositionThenCurrent(position: int, current: int)
    returns (first: Result<int>, seenPosition: int, second: Result<int>, seenCurrent: int,
             finalPosition: int, finalCounts: seq<nat>, finalTotal: nat)
    ensures first == Ok(0) && seenPosition == position
    ensures second == Ok(1) && seenCurrent == current
    ensures finalPosition == position
    ensures finalCounts == [1, 1] && finalTotal == 2
  {
    var o := new ThreadsafeObject<int>(2);
    first, seenPosition := SetIsReported(o, 0, position);
    second, seenCurrent := SetIsReported(o, 1, current);
    finalPosition := o.Get(0);
    var now := o.Capture();
    finalCounts, finalTotal := now.counts, now.total;
  }

  /** A consumer of any field that sleeps through two `set`s, of the same
      field or of different ones, is stopped by the check on the total (a
      missed message) before the per-field scan runs. */
  method AnyTwoSetsMissed<T(0)>(o: ThreadsafeObject<T>, a: nat, x: T, b: nat, y: T) returns (r: Result<int>)
    requires o.Valid() && a < o.size && b < o.size
    modifies o, o.counts
    ensures o.Valid() && o.counts == old(o.counts)
    ensures o.values == old(o.values)[a := x][b := y]
    ensures o.total == old(o.total) + 2
    ensures r == Err(MissedMessage(old(o.total), old(o.total) + 2))
  {
    var baseline := o.Capture();
    o.Set(a, x);
    o.Set(b, y);
    r := o.CheckAnyUpdate(baseline);
  }

  /** A consumer of field `index` that sleeps through two `set`s of that
      field detects the missed message. */
  method TwoSetsMissed<T(0)>(o: ThreadsafeObject<T>, index: nat, a: T, b: T) returns (r: Result<()>)
    requires o.Valid() && index < o.size
    modifies o, o.counts
    ensures o.Valid() && o.counts == old(o.counts)
    ensures o.values == old(o.values)[index := b]
    ensures o.Current() == Snapshot(old(o.counts[..])[index := old(o.counts[index]) + 2], old(o.total) + 2)
    ensures r == Err(MissedMessage(old(o.counts[index]), old(o.counts[index]) + 2))
  {
    var initial := o.CaptureDatum(index);
    o.Set(index, a);
    o.Set(index, b);
    r := o.CheckDatum(index, initial);
  }

  /** A consumer waiting on field `index` is not woken by a `set` of a
      different field: the count it compares against has not moved. */
  method OtherFieldKeepsWaiting<T(0)>(o: ThreadsafeObject<T>, index: nat, other: nat, datum: T) returns (woken: bool)
    requires o.Valid() && index < o.size && other < o.size && other != index
    modifies o, o.counts
    ensures o.Valid() && o.counts == old(o.counts)
    ensures o.values == old(o.values)[other := datum]
    ensures o.Current() == Snapshot(Bumped(old(o.counts[..]), other), old(o.total) + 1)
    ensures !woken
  {
    var initial := o.CaptureDatum(index);
    o.Set(other, datum);
    woken := o.counts[index] != initial;
  }

  /** Number of entries of `s` equal to `x`. */
  function CountOf(s: seq<nat>, x: nat): nat
  {
    if |s| == 0 then 0 else CountOf(s[..|s| - 1], x) + (if s[|s| - 1] == x then 1 else 0)
  }

  /** What a per-field waiter experiences: it stays blocked, or it wakes
      and its check gives a result. */
  datatype Wait = StillBlocked | Woke(check: Result<()>)

  /** A consumer of field `index` captures its baseline, then the producer
      makes any sequence of `set`s. The consumer stays blocked when none of
      them was on `index`; it passes its check when exactly one was; it
      detects a missed message when n > 1 were, the count having moved from
      its baseline to baseline + n. */
  method DatumAfterSets<T(0)>(o: ThreadsafeObject<T>, index: nat, fields: seq<nat>, datum: T) returns (w: Wait)
    requires o.Valid() && index < o.size
    requires forall j :: 0 <= j < |fields| ==> fields[j] < o.size
    modifies o, o.counts
    ensures o.Valid() && o.counts == old(o.counts)
    ensures o.total == old(o.total) + |fields|
    ensures var n := CountOf(fields, index);
            w == if n == 0 then StillBlocked
                 else if n == 1 then Woke(Ok(()))
                 else Woke(Err(MissedMessage(old(o.counts[index]), old(o.counts[index]) + n)))
  {
    var initial := o.CaptureDatum(index);
    var i := 0;
    while i < |fields|
      invariant 0 <= i <= |fields|
      invariant o.Valid() && o.counts == old(o.counts)
      invariant o.total == old(o.total) + i
      invariant o.counts[index] == initial + CountOf(fields[..i], index)
    {
      o.Set(fields[i], datum);
      assert fields[..i + 1][..i] == fields[..i];
      i := i + 1;
    }
    assert fields[..|fields|] == fields;
    if o.counts[index] == initial {
      w := StillBlocked;
    } else {
      var r := o.CheckDatum(index, initial);
      w := Woke(r);
    }
  }

  /** A single-field object: every `set` is reported as field 0. */
  method SingleField(data: seq<int>) returns (reports: seq<Result<int>>)
    ensures |reports| == |data|
    ensures forall j :: 0 <= j < |data| ==> reports[j] == Ok(0)
  {
    var o := new ThreadsafeObject<int>(1);
    reports := [];
    var i := 0;
    while i < |data|
      invariant 0 <= i <= |data|
      invariant o.Valid() && o.size == 1 && fresh(o.counts)
      invariant |reports| == i
      invariant forall j :: 0 <= j < i ==> reports[j] == Ok(0)
    {
      var r, _ := SetIsReported(o, 0, data[i]);
      reports := reports + [r];
      i := i + 1;
    }
  }

  /** After K `set` calls on a fresh object, in any order and on any
      fields, the total and the sum of the per-field counts are both K. */
  method CountSets(size: nat, fields: seq<nat>, datum: int) returns (total: nat, sum: nat)
    requires forall j :: 0 <= j < |fields| ==> fields[j] < size
    ensures total == |fields| && sum == |fields|
  {
    var o := new ThreadsafeObject<int>(size);
    var i := 0;
    while i < |fields|
      invariant 0 <= i <= |fields|
      invariant o.Valid() && o.size == size && fresh(o.counts)
      invariant o.total == i
    {
      o.Set(fields[i], datum);
      i := i + 1;
    }
    total := o.total;
    sum := Sum(o.counts[..]);
  }
}
