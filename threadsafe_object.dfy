/** The ThreadsafeObject record: `size` fields of one value type, one
    modification count per field and a total modification count. Locks,
    condition variables and blocking are not modelled; each wait is split
    into capturing a baseline and checking the counters after wake-up. */
module ThreadsafeObjects {
  import opened Counters

  class ThreadsafeObject<T(0)> {
    /** Number of fields (SIZE). */
    const size: nat
    /** The field values (the data tuple). */
    var values: seq<T>
    /** One modification count per field. */
    var counts: array<nat>
    /** Number of `set` calls on any field. */
    var total: nat

    ghost predicate Valid()
      reads this, counts
    {
      |values| == size && counts.Length == size && Consistent(Current())
    }

    /** The counters as a waiter sees them. */
    function Current(): (s: Snapshot)
      reads this, counts
      ensures |s.counts| == counts.Length
    {
      Snapshot(counts[..], total)
    }

    /** A fresh object: default field values, every count 0, total 0. */
    constructor (size: nat)
      ensures Valid() && fresh(counts)
      ensures this.size == size
      ensures Current() == Snapshot(seq(size, _ => 0), 0)
    {
      this.size := size;
      var blank: T := *;
      values := seq(size, _ => blank);
      var c := new nat[size];
      var i := 0;
      while i < size
        invariant 0 <= i <= size
        invariant forall j :: 0 <= j < i ==> c[j] == 0
      {
        c[i] := 0;
        i := i + 1;
      }
      counts := c;
      total := 0;
      SumZero(c[..]);
    }

    /** `get<INDEX>`: a copy of one field. */
    method Get(index: nat) returns (datum: T)
      requires Valid() && index < size
      ensures datum == values[index]
    {
      datum := values[index];
    }

    /** `set<INDEX>`: overwrite one field, then count the update for that
        field and in the total. */
    method Set(index: nat, datum: T)
      requires Valid() && index < size
      modifies this, counts
      ensures Valid() && counts == old(counts)
      ensures values == old(values)[index := datum]
      ensures Current() == Snapshot(Bumped(old(counts[..]), index), old(total) + 1)
    {
      values := values[index := datum];
      counts[index] := counts[index] + 1;
      total := total + 1;
      SumBumped(old(counts[..]), index);
    }

    /** Start of `wait_for_datum(index)`: the count the wait compares against. */
    method CaptureDatum(index: nat) returns (initial: nat)
      requires Valid() && index < size
      ensures initial == Current().counts[index]
    {
      initial := counts[index];
    }

    /** Start of `wait_for_datum()`: a copy of every count and of the total. */
    method Capture() returns (baseline: Snapshot)
      requires Valid()
      ensures baseline == Current() && Consistent(baseline)
    {
      baseline := Snapshot(counts[..], total);
    }

    /** End of `wait_for_datum(index)`, once the count of `index` differs
        from `initial`: passes only if it rose by exactly one. */
    method CheckDatum(index: nat, initial: nat) returns (r: Result<()>)
      requires Valid() && index < size && counts[index] != initial
      ensures r == DatumOutcome(initial, Current().counts[index])
      ensures r.Ok? <==> counts[index] == initial + 1
    {
      if initial + 1 != counts[index] {
        return Err(MissedMessage(initial, counts[index]));
      }
      return Ok(());
    }

    /** End of `wait_for_datum()`, once the total differs from the
        baseline's: check the total moved by one, then scan every field for
        the one whose count rose by one. */
    method CheckAnyUpdate(baseline: Snapshot) returns (r: Result<int>)
      requires Valid() && |baseline.counts| == size && total != baseline.total
      ensures r == AnyUpdateOutcome(baseline, Current())
    {
      var base := baseline.counts;
      if baseline.total + 1 != total {
        return Err(MissedMessage(baseline.total, total));
      }
      var modified := -1;
      var i := 0;
      while i < size
        invariant 0 <= i <= size
        invariant -1 <= modified < i
        invariant modified == -1 ==> forall j :: 0 <= j < i ==> counts[j] == base[j]
        invariant modified >= 0 ==> counts[modified] == base[modified] + 1
        invariant modified >= 0 ==> forall j :: 0 <= j < i && j != modified ==> counts[j] == base[j]
      {
        if base[i] + 1 == counts[i] {
          if modified != -1 {
            NotOneBump(base, counts[..], i, modified);
            AnyUpdateCorrupt(baseline, Current());
            return Err(Corrupt);
          }
          modified := i;
        } else if base[i] != counts[i] {
          NotOneBump(base, counts[..], i, i);
          AnyUpdateCorrupt(baseline, Current());
          return Err(Corrupt);
        }
        i := i + 1;
      }
      if modified == -1 {
        assert counts[..] == base;
        AnyUpdateSentinel(baseline, Current());
      } else {
        assert counts[..] == Bumped(base, modified);
        AnyUpdateReports(baseline, Current(), modified);
      }
      return Ok(modified);
    }
  }
}
