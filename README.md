# ThreadsafeObject counter bookkeeping

A model of the sequential core of `ThreadsafeObject` from the blmc_drivers
repository (`new_api/threadsafe_object.hpp`). The object is a fixed-size record
shared between a real-time producer and its consumers. It holds `SIZE` field
values, one modification count per field, and a total modification count. It
offers four operations:

- `set` overwrites a field and counts the update;
- `get` copies a field;
- `wait_for_datum(index)` blocks until that field is updated and aborts if
  more than one update happened meanwhile;
- `wait_for_datum()` blocks until any field is updated, aborts unless exactly
  one field moved by exactly one, and returns that field's index.

Files:

- `counters.dfy` (module `Counters`): the counters as values. A `Snapshot` is
  a sequence of per-field counts plus a total. `Bumped` is the effect of one
  `set` on the counts. `DatumOutcome` and `AnyUpdateOutcome` are the checks the
  two waits make after they wake up. The lemmas cover the sum invariant and the
  outcomes of the checks. The main one, `AnyUpdateAfterOneSet`, says that on a
  consistent tracker whose counts never decrease, a total that rose by one
  always points to exactly one field, so the any-field wait reports it.
- `threadsafe_object.dfy` (module `ThreadsafeObjects`): the class
  `ThreadsafeObject<T>`. It holds the values as a `seq<T>`, the per-field counts
  as an `array<nat>` and the total as a `nat`. Its invariant `Valid()` says the
  total equals the sum of the counts. Each wait is split in two: a capture
  method that copies the baseline, and a check method that runs after wake-up.
  `CheckAnyUpdate` keeps the source's scan loop and is proved equal to
  `AnyUpdateOutcome`.
- `scenarios.dfy` (module `Scenarios`): sequential uses by one producer and one
  consumer. These are the two-field position/current example, a per-field
  waiter facing any sequence of `set`s, two `set`s caught by the any-field
  wait's total check, a missed message on a per-field wait, a `set` of another
  field that does not wake a per-field waiter, a single-field object, and K
  sets giving a total of K.

The blocking loops (`while (initial == current) rt_cond_wait(...)`) become
preconditions of the check methods: the check runs only when the wake predicate
already holds. The `exit(-1)` aborts become error results. `MissedMessage`
stands for the "we missed a message" aborts of both waits. `Corrupt` stands
for the "went horribly wrong" aborts of the any-field scan.

The scan has no abort for zero advanced fields. The code checks the total
first (line 232). If the total rose by one but no per-field count moved, the
loop ends with `modified_index == -1` and returns it (lines 242-263). The model
returns `Ok(-1)` (`AnyUpdateSentinel`), and `AnyUpdateAfterOneSet` proves this
cannot happen while the total equals the sum of the counts.

## Model

| member | source | states |
|---|---|---|
| `ThreadsafeObjects.ThreadsafeObject.constructor` | new_api/threadsafe_object.hpp:135-162 | a new object has `size` fields, every per-field count 0 and total 0, and satisfies the sum invariant |
| `ThreadsafeObjects.ThreadsafeObject.Get` | new_api/threadsafe_object.hpp:164-175 | returns the current value of the requested field and changes nothing |
| `ThreadsafeObjects.ThreadsafeObject.Set` | new_api/threadsafe_object.hpp:177-193 | the field takes the new value and the other fields keep theirs; that field's count and the total each rise by exactly one and the other counts are unchanged; the sum invariant is preserved |
| `ThreadsafeObjects.ThreadsafeObject.CaptureDatum` | new_api/threadsafe_object.hpp:197-198 | the baseline of a per-field wait is the field's current count |
| `ThreadsafeObjects.ThreadsafeObject.Capture` | new_api/threadsafe_object.hpp:222-225 | the baseline of an any-field wait is a copy of every count and the total, and is itself consistent |
| `ThreadsafeObjects.ThreadsafeObject.CheckDatum` | new_api/threadsafe_object.hpp:205-215 | once the field's count differs from the baseline, the wait succeeds exactly when the count is baseline + 1, and otherwise reports a missed message with both counts |
| `ThreadsafeObjects.ThreadsafeObject.CheckAnyUpdate` | new_api/threadsafe_object.hpp:232-263 | the total check followed by the scan loop gives exactly `AnyUpdateOutcome` of the baseline and the current counters |
| `Counters.Bumped` | new_api/threadsafe_object.hpp:189 | one `set` of field k raises count k by one and leaves every other count as it was |
| `Counters.SumZero` | new_api/threadsafe_object.hpp:152-156 | all-zero counts sum to 0, so a new object satisfies total == sum of counts |
| `Counters.SumBumped` | new_api/threadsafe_object.hpp:189-190 | one `set` raises the sum of the counts by exactly one, matching the total's increment, so `set` preserves the invariant |
| `Counters.SumGrows` | new_api/threadsafe_object.hpp:189-190 | counts that never decreased have a sum at least as large, and an equal sum only if no count moved |
| `Counters.SingleStep` | new_api/threadsafe_object.hpp:242-260 | if no count decreased and the sum rose by exactly one, then exactly one count rose, by exactly one |
| `Counters.DatumOutcome` | new_api/threadsafe_object.hpp:205-215 | after waking, the per-field check passes iff the count is the baseline + 1; any other count is a missed message |
| `Counters.AnyUpdateReports` | new_api/threadsafe_object.hpp:232-263 | the any-field wait returns index k iff the total rose by exactly one and the counts are the baseline with only count k raised by one |
| `Counters.AnyUpdateSentinel` | new_api/threadsafe_object.hpp:242-263 | the any-field wait returns -1 iff the total rose by one and no per-field count moved |
| `Counters.AnyUpdateCorrupt` | new_api/threadsafe_object.hpp:242-260 | the scan aborts as corrupt iff the total rose by one and the counts moved in some way other than one field by one |
| `Counters.NotOneBump` | new_api/threadsafe_object.hpp:245-258 | a second field rising by one, or any field moving by other than 0 or 1, rules out every single-field bump, so the scan may abort at that field |
| `Counters.OneSetReported` | new_api/threadsafe_object.hpp:189-190 | on any baseline, exactly one `set(k)` afterwards makes the any-field wait return k |
| `Counters.AnyUpdateAfterOneSet` | new_api/threadsafe_object.hpp:232-263 | with both snapshots consistent, counts not decreasing and the total up by exactly one, the any-field wait returns some index in [0, SIZE): never an abort and never -1 |
| `Scenarios.SetIsReported` | new_api/threadsafe_object.hpp:220-264 | a consumer whose baseline precedes one `set(index, v)` is told `index` and then reads `v`; the object afterwards holds `v` at `index`, the other values unchanged, count `index` and the total each one higher |
| `Scenarios.PositionThenCurrent` | new_api/threadsafe_object.hpp:177-193 | with two fields, setting position then current makes two any-field waits return 0 then 1, the reads after them give the values set, the position is still the value set after the current is set, and both counts end at 1 with total 2 |
| `Scenarios.AnyTwoSetsMissed` | new_api/threadsafe_object.hpp:232-240 | two `set`s between an any-field baseline and its check, on the same field or on different ones, are caught by the total check as a missed message from total t to t + 2, not by the scan |
| `Scenarios.TwoSetsMissed` | new_api/threadsafe_object.hpp:195-218 | a per-field waiter that sleeps through two sets of its field reports a missed message from baseline to baseline + 2; the field holds the second value, its count is two higher and so is the total |
| `Scenarios.DatumAfterSets` | new_api/threadsafe_object.hpp:195-218 | after any sequence of `set`s following the baseline, a per-field waiter stays blocked if none was on its field, passes if exactly one was, and reports a missed message from baseline to baseline + n if n > 1 were |
| `Scenarios.OtherFieldKeepsWaiting` | new_api/threadsafe_object.hpp:200-203 | a `set` of another field leaves the waited field's count unchanged, so the per-field waiter is not woken; only the other field's value and count and the total change |
| `Scenarios.SingleField` | new_api/threadsafe_object.hpp:242-263 | on a one-field object every `set` is reported as field 0 and never as corruption |
| `Scenarios.CountSets` | new_api/threadsafe_object.hpp:189-190 | after K sets on a fresh object, in any order and on any fields, the total and the sum of the counts are both K |

## Left out

- Locks and condition variables. This covers the per-field mutexes, the shared
  condition mutex and condition variable (`rt_mutex_*`, `rt_cond_*`), and the
  `xenomai::mutex` and `xenomai::condition_variable` wrappers. The model is
  sequential. Blocking and broadcasting are concurrency concerns, and these are
  foreign real-time OS calls.
- The wait loops themselves. Each check method instead requires that its wake
  predicate already holds. A wait that would block forever therefore has no
  counterpart in the model.
- `rt_printf` diagnostics and `exit(-1)`. They become `Err` results; the message
  text is not modelled.
- `InputOutputObject`: a pure-virtual interface with no behaviour.
- `shared_ptr` ownership and the heterogeneous `std::tuple` of field types.
  One generic value type `T` stands for all fields. The default-constructed
  initial field values are arbitrary values of `T`.
- Compile-time `INDEX` checking. `get`, `set` and `wait_for_datum(unsigned)`
  require the index to be below `size`. The source does not check the runtime
  index of `wait_for_datum(unsigned)` either.
- Counter width. The counts are unbounded `nat`s, not 64-bit `long unsigned`,
  so wrap-around after 2^64 updates is not modelled. The any-field wait returns
  the signed `int` -1 where the source converts it to `long unsigned`.
- `demos/demo_leg.cpp`: thread spawning, CAN bus and device setup, current
  scaling and console output, with no logic of this core.
