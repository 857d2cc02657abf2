/** The counter bookkeeping of a ThreadsafeObject, on values: the sum of the
    per-field modification counts, the effect of one `set` on them, and the
    two checks a waiter makes after it wakes up, each over a baseline taken
    before waiting and the counters seen after waking. */
module Counters {

  /** What a waiter observes of the change tracker: one count per field and
      the total number of `set` calls. */
  datatype Snapshot = Snapshot(counts: seq<nat>, total: nat)

  /** The two fatal outcomes of a wait. `MissedMessage` is the "we missed a
      message" abort (a counter moved by more than one); `Corrupt` is the
      "went horribly wrong" abort of the any-field scan. */
  datatype WaitError = MissedMessage(initial: nat, current: nat) | Corrupt

  datatype Result<T> = Ok(value: T) | Err(error: WaitError)

  /** Sum of all per-field counts. */
  function Sum(s: seq<nat>): nat
  {
    if |s| == 0 then 0 else s[0] + Sum(s[1..])
  }

  /** The counts after one `set` of field `k`: that count one higher. */
  function Bumped(s: seq<nat>, k: nat): (r: seq<nat>)
    requires k < |s|
    ensures |r| == |s| && r[k] == s[k] + 1
    ensures forall j :: 0 <= j < |s| && j != k ==> r[j] == s[j]
  {
    s[k := s[k] + 1]
  }

  /** True when each count of `now` is at least the matching count of `base`. */
  predicate NoneDecreased(base: seq<nat>, now: seq<nat>)
  {
    |base| == |now| && forall j :: 0 <= j < |base| ==> base[j] <= now[j]
  }

  /** The invariant of the change tracker: the total equals the sum of the
      per-field counts. */
  predicate Consistent(s: Snapshot)
  {
    s.total == Sum(s.counts)
  }

  // ---------------------------------------------------------------------
  // Sum

  lemma {:induction false} SumZero(s: seq<nat>)
    requires forall j :: 0 <= j < |s| ==> s[j] == 0
    ensures Sum(s) == 0
  {
    if |s| > 0 {
      SumZero(s[1..]);
    }
  }

  /** One `set` raises the sum of the counts by exactly one. */
  lemma {:induction false} SumBumped(s: seq<nat>, k: nat)
    requires k < |s|
    ensures Sum(Bumped(s, k)) == Sum(s) + 1
  {
    var b := Bumped(s, k);
    if k == 0 {
      assert b[1..] == s[1..];
    } else {
      assert b[1..] == Bumped(s[1..], k - 1);
      SumBumped(s[1..], k - 1);
    }
  }

  /** Counts that never went down have a sum at least as large, and the sums
      are equal only when no count moved. */
  lemma {:induction false} SumGrows(base: seq<nat>, now: seq<nat>)
    requires NoneDecreased(base, now)
    ensures Sum(base) <= Sum(now)
    ensures Sum(base) == Sum(now) ==> base == now
  {
    if |base| > 0 {
      assert NoneDecreased(base[1..], now[1..]);
      SumGrows(base[1..], now[1..]);
      if Sum(base) == Sum(now) {
        assert base == [base[0]] + base[1..] && now == [now[0]] + now[1..];
      }
    }
  }

  /** When no count went down and the sum rose by exactly one, exactly one
      count rose, and by one. */
  lemma {:induction false} SingleStep(base: seq<nat>, now: seq<nat>) returns (k: nat)
    requires NoneDecreased(base, now)
    requires Sum(now) == Sum(base) + 1
    ensures k < |base| && now == Bumped(base, k)
  {
    assert |base| > 0;
    assert NoneDecreased(base[1..], now[1..]);
    SumGrows(base[1..], now[1..]);
    if now[0] == base[0] {
      var k' := SingleStep(base[1..], now[1..]);
      k := k' + 1;
      assert now == [now[0]] + now[1..];
      assert Bumped(base, k) == [base[0]] + Bumped(base[1..], k');
    } else {
      k := 0;
      assert now[1..] == base[1..];
      assert now == [now[0]] + now[1..];
      assert Bumped(base, 0) == [base[0] + 1] + base[1..];
    }
  }

  /** A bump changes the counts, and different fields give different bumps. */
  lemma BumpedDistinct(s: seq<nat>, k: nat, k': nat)
    requires k < |s| && k' < |s|
    ensures Bumped(s, k) != s
    ensures Bumped(s, k) == Bumped(s, k') ==> k == k'
  {
    assert Bumped(s, k)[k] != s[k];
    if k != k' {
      assert Bumped(s, k)[k] != Bumped(s, k')[k];
    }
  }

  // ---------------------------------------------------------------------
  // Per-field wait: `wait_for_datum(index)`

  /** The check `wait_for_datum(index)` makes once the count of `index` has
      moved away from the value `initial` it had when the wait began. */
  function DatumOutcome(initial: nat, current: nat): (r: Result<()>)
    requires current != initial
    ensures r.Ok? <==> current == initial + 1
    ensures r.Err? ==> r.error == MissedMessage(initial, current)
  {
    if initial + 1 != current then Err(MissedMessage(initial, current)) else Ok(())
  }

  // ---------------------------------------------------------------------
  // Any-field wait: `wait_for_datum()`

  /** What `wait_for_datum()` reports once the total has moved away from the
      baseline's: the total must have moved by exactly one (else a missed
      message); then the field whose count rose by one is reported provided
      no other count moved (else corruption); if no count moved at all, the
      scan ends with its initial sentinel -1. */
  ghost function AnyUpdateOutcome(base: Snapshot, now: Snapshot): Result<int>
    requires |base.counts| == |now.counts|
  {
    if base.total + 1 != now.total then
      Err(MissedMessage(base.total, now.total))
    else if now.counts == base.counts then
      Ok(-1)
    else if exists k: nat :: k < |base.counts| && now.counts == Bumped(base.counts, k) then
      var k: nat :| k < |base.counts| && now.counts == Bumped(base.counts, k);
      Ok(k)
    else
      Err(Corrupt)
  }

  /** The any-field wait reports field `k` exactly when the total rose by one
      and `k` is the only field whose count moved, by one. */
  lemma AnyUpdateReports(base: Snapshot, now: Snapshot, k: nat)
    requires |base.counts| == |now.counts| && k < |base.counts|
    ensures AnyUpdateOutcome(base, now) == Ok(k) <==>
              base.total + 1 == now.total && now.counts == Bumped(base.counts, k)
  {
    BumpedDistinct(base.counts, k, k);
    if base.total + 1 == now.total && now.counts == Bumped(base.counts, k) {
      var k': nat :| k' < |base.counts| && now.counts == Bumped(base.counts, k');
      BumpedDistinct(base.counts, k, k');
    }
  }

  /** The any-field wait returns the sentinel -1 exactly when the total rose
      by one while no per-field count moved. */
  lemma AnyUpdateSentinel(base: Snapshot, now: Snapshot)
    requires |base.counts| == |now.counts|
    ensures AnyUpdateOutcome(base, now) == Ok(-1) <==>
              base.total + 1 == now.total && now.counts == base.counts
  {
    if base.total + 1 == now.total && now.counts != base.counts
       && exists k: nat :: k < |base.counts| && now.counts == Bumped(base.counts, k)
    {
      var k: nat :| k < |base.counts| && now.counts == Bumped(base.counts, k);
      assert AnyUpdateOutcome(base, now).value >= 0;
    }
  }

  /** The any-field wait aborts as corrupt exactly when the total rose by one
      and the counts moved in any way other than one field by one. */
  lemma AnyUpdateCorrupt(base: Snapshot, now: Snapshot)
    requires |base.counts| == |now.counts|
    ensures AnyUpdateOutcome(base, now) == Err(Corrupt) <==>
              base.total + 1 == now.total && now.counts != base.counts &&
              forall k: nat :: k < |base.counts| ==> now.counts != Bumped(base.counts, k)
  {
  }

  /** Two fields that moved, or one field that moved by other than one,
      rule out every single-field bump: the any-field scan may abort as
      soon as it sees either. */
  lemma NotOneBump(base: seq<nat>, now: seq<nat>, p: nat, q: nat)
    requires |base| == |now| && p < |base| && q < |base|
    requires now[p] != base[p]
    requires p == q ==> now[p] != base[p] + 1
    requires p != q ==> now[q] != base[q]
    ensures now != base
    ensures forall k: nat :: k < |base| ==> now != Bumped(base, k)
  {
  }

  /** One `set` of field `k` after any baseline is reported by the
      any-field wait as field `k`: neither abort nor the sentinel is
      possible. */
  lemma OneSetReported(base: Snapshot, k: nat)
    requires k < |base.counts|
    ensures AnyUpdateOutcome(base, Snapshot(Bumped(base.counts, k), base.total + 1)) == Ok(k)
  {
    AnyUpdateReports(base, Snapshot(Bumped(base.counts, k), base.total + 1), k);
  }

  /** The key property: if both snapshots are consistent, no count went down
      and the total rose by exactly one, then the any-field wait reports a
      field index in range, never an abort and never the sentinel -1. */
  lemma AnyUpdateAfterOneSet(base: Snapshot, now: Snapshot) returns (k: nat)
    requires Consistent(base) && Consistent(now)
    requires NoneDecreased(base.counts, now.counts)
    requires now.total == base.total + 1
    ensures k < |now.counts| && now.counts == Bumped(base.counts, k)
    ensures AnyUpdateOutcome(base, now) == Ok(k)
  {
    k := SingleStep(base.counts, now.counts);
    AnyUpdateReports(base, now, k);
  }
}
