# Dining philosophers monitor, modelled in Dafny

This project models the synchronisation monitor of a dining-philosophers
program (`src/Monitor.java`) and the thread-identifier and turn utilities of
its thread base class (`common/BaseThread.java`), and proves what they
guarantee.

**The monitor** (module `TableMonitor`, file `table_monitor.dfy`) keeps one
state per seat (`Eating`, `Hungry`, `Thinking`, `Talking`) and the TID of the
philosopher holding the floor (0 for nobody). Philosopher `tid` sits at index
`tid - 1`. It offers four procedures: `pickUp`, `putDown`, `requestTalk` and
`endTalk`. Each procedure runs atomically under the object lock, so it is
modelled as one atomic step:

- A `while (guard) wait();` loop becomes a step that re-tests the guard.
- If the guard still blocks, the step makes the change the source makes
  before `wait()` (pickUp marks the seat `Hungry`) and returns `Blocked`.
- Otherwise the step completes the transition.
- A retry is simply another step.

The steps are functions on a value `Table` (`PickUpStep`, `PutDownStep`,
`RequestTalkStep`, `EndTalkStep`). The class `Monitor` keeps the seats in an
`array` and the holder in a field. Its constructor fills the array with a
loop. Each of its methods changes the array in place and is proved equal to
the matching step function.

The source's exceptions are modelled too. A TID outside `1..N` makes an
array access go out of bounds. With `N = 0`, pickUp's `% N` divides by zero.
Both end the step with `Failed`, after any assignment the source made first.
So `requestTalk` and `endTalk` have already written the floor holder when
their array store fails. Every index expression is evaluated with Java `int`
arithmetic (module `JavaInt`: 32-bit wrap-around, `Math.abs` of the most
negative int, and `%` truncating toward zero). On that basis the model proves
that every array access of every procedure is in bounds exactly when
`1 <= tid <= N`.

Proved about the monitor:

- A pickUp step completes exactly when neither neighbour seat it reads is
  `Eating`, and then sets the caller's seat to `Eating`. Otherwise it sets
  the seat to `Hungry`. No other seat changes, and the floor holder does not
  change.
- Only pickUp ever writes `Eating`. putDown and endTalk write only
  `Thinking`, and requestTalk writes only `Talking`.
- putDown is idempotent.
- requestTalk blocks, changing nothing, as long as anybody holds the floor.
  This includes the caller itself, so the floor is not re-entrant.
- endTalk releases the floor without checking who holds it.
- No two neighbours `i`, `i+1` ever eat at the same time. This holds for any
  sequence of calls.
- When every call has a valid TID, the floor holder is always 0 or a seat
  at the table, over any sequence of calls.
- When every call has a valid TID and every endTalk comes from the holder,
  only the holder's seat is ever `Talking`.
- The wrap-around pair (seat `N-1`, seat 0) is not protected; see Findings.

**Thread identifiers and turns** (module `BaseThreads`, file
`base_thread.dfy`):

- The statics `siNextTID` and `siTurn` are the fields of a `Globals` object.
- Automatic construction takes the counter's value as the TID and increments
  the counter.
- The private `setTID` is called only by the constructors, so its
  assignment is part of the automatic constructor, and the TID is a constant
  field that nothing changes after construction.
- Constructing threads one after another hands out the TIDs that the
  function `Issue` lists.
- Consecutive automatic TIDs are strictly increasing and distinct, until the
  counter wraps around.
- `turnTestAndSet` succeeds exactly when the turn equals the caller's TID.
  On success it moves the turn one step up or down; on failure it leaves the
  turn as it was.
- Starting from the ascending initial turn, turns are granted in TID order,
  however the attempts interleave. The descending order is the mirror image.

Where the source's own comments and its code part ways, the model follows the
code:

- The loop of requestTalk is commented "Check to see if anyone else is
  talking" (src/Monitor.java:73), but it waits while anybody at all holds the
  floor, the caller included (`RequestTalkStep`).
- endTalk (src/Monitor.java:83-88) clears the floor holder without checking
  that the caller is the holder; `EndTalkByOtherAllowsTwoSpeakers` shows the
  two `Talking` seats this allows.
- The comment on pickUp's check speaks of the "left or right philosophers"
  (src/Monitor.java:45), but line 47 reads seat 1, not seat `N - 1`, as the
  left neighbour of seat 0; see Findings.

## Model

| member | source | states |
|---|---|---|
| `JavaInt.WrapIsCongruentInt` | src/Monitor.java:46-48 | Java `int` `+`/`-` keep the low-order 32 bits: `Wrap(x)` is the one 32-bit `int` that differs from `x` by a multiple of 2^32 |
| `JavaInt.Abs` | src/Monitor.java:47 | `Math.abs`: the magnitude, except that the most negative int is returned unchanged |
| `JavaInt.Rem` | src/Monitor.java:47-48 | Java `%` by a positive N: strictly between -N and N, negative only for a negative dividend, the dividend itself below N, 0 for N |
| `JavaInt.RemDivision` | src/Monitor.java:47-48 | `%` satisfies Java's identity `(a / n) * n + a % n == a`, with the quotient truncated toward zero |
| `TableMonitor.Monitor.constructor` | src/Monitor.java:22-30 | the array has N seats, all `Thinking`, and the floor holder is 0 |
| `TableMonitor.InitialKeepsInvariants` | src/Monitor.java:15-30 | the initial table satisfies the ring exclusion and the single-speaker invariant |
| `TableMonitor.SeatIndex` | src/Monitor.java:46 | `tid - 1` is the seat index for a valid TID, and off the array for every other TID, the most negative one included |
| `TableMonitor.NeighbourIndices` | src/Monitor.java:47-48 | for seat k, the source's left neighbour is k-1, except that for seat 0 it is 1 % N; the right neighbour is k+1, or 0 for the last seat |
| `TableMonitor.PickUpStep` | src/Monitor.java:43-54 | fails exactly for a TID outside 1..N, changing nothing; otherwise completes exactly when neither neighbour read is `Eating`, and sets only the caller's seat, to `Eating` if it completes and to `Hungry` if it blocks; the floor holder is unchanged |
| `TableMonitor.Monitor.PickUp` | src/Monitor.java:43-54 | the in-place step on the array yields `PickUpStep`'s table and step |
| `TableMonitor.PickUpKeepsChainExclusion` | src/Monitor.java:38-53 | a pickUp step never leaves seats i and i+1 both `Eating` |
| `TableMonitor.PickUpKeepsRingForTwoSeats` | src/Monitor.java:47-48 | with at most two seats, pickUp keeps the full ring exclusion |
| `TableMonitor.PickUpBreaksRingExclusion` | src/Monitor.java:47 | for every N >= 3, from a fresh monitor, pickUp(N) and then pickUp(1) both complete, leaving seats N-1 and 0, which share a chopstick, both `Eating` |
| `TableMonitor.PickUpStepCorrected` | src/Monitor.java:43-54 | as `PickUpStep`, but seat 0's left neighbour is seat N-1 |
| `TableMonitor.PickUpCorrectedKeepsRingExclusion` | src/Monitor.java:38-53 | the corrected pickUp never leaves two neighbours round the ring both `Eating` |
| `TableMonitor.PickUpWritesEatingOrHungry` | src/Monitor.java:50-53 | pickUp changes seats only to `Eating` or `Hungry` |
| `TableMonitor.PutDownStep` | src/Monitor.java:60-64 | fails exactly for a TID outside 1..N, changing nothing; otherwise only the caller's seat becomes `Thinking`, and the floor holder is unchanged |
| `TableMonitor.Monitor.PutDown` | src/Monitor.java:60-64 | the in-place store yields `PutDownStep`'s table and step |
| `TableMonitor.PutDownIdempotent` | src/Monitor.java:60-64 | putting down twice equals putting down once |
| `TableMonitor.RequestTalkStep` | src/Monitor.java:71-77 | blocks, changing nothing, while the holder is not 0, whoever the caller is; otherwise the caller becomes the holder and, for a valid TID, its seat becomes `Talking`, while an invalid TID fails with the seats unchanged |
| `TableMonitor.Monitor.RequestTalk` | src/Monitor.java:71-77 | the in-place step yields `RequestTalkStep`'s table and step |
| `TableMonitor.EndTalkStep` | src/Monitor.java:83-88 | the holder becomes 0 whoever calls; for a valid TID only the caller's seat becomes `Thinking`, and an invalid TID fails with the seats unchanged |
| `TableMonitor.Monitor.EndTalk` | src/Monitor.java:83-88 | the in-place step yields `EndTalkStep`'s table and step |
| `TableMonitor.OtherStepsNeverStartEating` | src/Monitor.java:60-88 | putDown and endTalk change seats only to `Thinking`, and requestTalk only to `Talking`, so none of them makes a seat `Eating` |
| `TableMonitor.ApplyKeepsExclusion` | src/Monitor.java:43-88 | each of the four procedures keeps the chain exclusion, and the ring exclusion when pickUp is corrected |
| `TableMonitor.RunKeepsExclusion` | src/Monitor.java:43-88 | any sequence of calls, with any TIDs, keeps that exclusion |
| `TableMonitor.ApplyKeepsTalkerInRange` | src/Monitor.java:71-88 | with a valid TID, every procedure keeps the holder 0 or a TID in 1..N |
| `TableMonitor.RunKeepsTalkerInRange` | src/Monitor.java:71-88 | over any sequence of calls whose TIDs are all in 1..N, the holder stays 0 or a TID in 1..N |
| `TableMonitor.AtMostOneTalkingSeat` | src/Monitor.java:66-68 | under the single-speaker invariant, two `Talking` seats are the same seat |
| `TableMonitor.ApplyKeepsSingleSpeaker` | src/Monitor.java:71-88 | with valid TIDs and endTalk only by the holder, every procedure keeps only the holder's seat `Talking` |
| `TableMonitor.RunKeepsSingleSpeaker` | src/Monitor.java:71-88 | the same for any such sequence of calls |
| `TableMonitor.EndTalkByOtherAllowsTwoSpeakers` | src/Monitor.java:83-88 | because endTalk does not check the holder, requestTalk(1), endTalk(2), requestTalk(2) leaves seats 0 and 1 both `Talking` |
| `BaseThreads.Globals.constructor` | common/BaseThread.java:29-39 | the next TID and the turn both start at 1 |
| `BaseThreads.Globals.SetInitialTurn` | common/BaseThread.java:171-174 | the turn becomes the given value, and the counter is unchanged |
| `BaseThreads.Globals.SetInitialTurnAscending` | common/BaseThread.java:179-182 | the turn becomes 1 |
| `BaseThreads.Globals.SetInitialTurnDescending` | common/BaseThread.java:187-190 | the turn becomes the counter minus 1, the last TID issued automatically |
| `BaseThreads.BaseThread.Automatic` | common/BaseThread.java:50-53 | as setTID (lines 87-90) does for it, the thread gets the counter's value as its TID, the counter moves up by one (wrapping), and the turn is unchanged |
| `BaseThreads.BaseThread.WithTid` | common/BaseThread.java:70-73 | the thread gets the given TID, and neither static is touched |
| `BaseThreads.BaseThread.GetTid` | common/BaseThread.java:79-82 | returns the TID the thread was given at construction, which nothing can change afterwards (`tid` is a constant field, as setTID is private to the constructors) |
| `BaseThreads.TestAndSet` | common/BaseThread.java:142-157 | granted exactly when the turn equals the TID; a refusal leaves the turn, and a grant moves it up or down by one, wrapping from the largest int to the smallest going up and from the smallest to the largest going down |
| `BaseThreads.BaseThread.TurnTestAndSet` | common/BaseThread.java:142-157 | grants and moves the turn as `TestAndSet`, without touching the TID counter |
| `BaseThreads.BaseThread.TurnTestAndSetIncreasing` | common/BaseThread.java:162-165 | behaves exactly as the test-and-set in increasing order |
| `BaseThreads.ConstructThreads` | common/BaseThread.java:87-90 | k automatic constructions in a row give the threads the TIDs `Issue` lists, in order, and leave the counter where `Issue` says |
| `BaseThreads.IssueConsecutive` | common/BaseThread.java:87-90 | k successive automatic constructions from counter c get TIDs c, c+1, ..., c+k-1 and leave the counter at c+k, when no wrap occurs |
| `BaseThreads.IssueStrictlyIncreasing` | common/BaseThread.java:50-65 | those TIDs are strictly increasing, hence distinct |
| `BaseThreads.DescendingStartsAtLastTid` | common/BaseThread.java:187-190 | after k threads from a fresh counter, the descending initial turn is the k-th TID |
| `BaseThreads.AscendingGrantsInTidOrder` | common/BaseThread.java:132-153 | with TIDs among 1..k and the turn starting in 1..k+1, the grants go to turn, turn+1, ... in that order, whatever the interleaving, and the turn ends one past the last grant |
| `BaseThreads.DescendingGrantsInReverseTidOrder` | common/BaseThread.java:142-153 | in decreasing order the grants go to turn, turn-1, ... and the turn never drops below 0 |

## Findings

| source | as written | input that shows it | evidently intended | confidence | as-written member | corrected member |
|---|---|---|---|---|---|---|
| src/Monitor.java:47 | the left neighbour of seat `index` is `Math.abs(index - 1) % N`, which is seat `1 % N` for seat 0 | N = 3, from a fresh monitor: `pickUp(3)` completes, then `pickUp(1)` completes, and seats 2 and 0, which share a chopstick, eat together | seat `N - 1` as seat 0's left neighbour (`Math.floorMod(index - 1, N)`), as the comment on line 45 says | high; not executed | `TableMonitor.PickUpBreaksRingExclusion` | `TableMonitor.PickUpCorrectedKeepsRingExclusion` |

The model carries both versions of pickUp. The `Variant` parameter of `Apply`
and `Run` selects one of them. The corrected variant keeps the full ring
exclusion over any sequence of calls (`RunKeepsExclusion`). The source as
written keeps the exclusion only for the pairs that do not wrap around. The
`Monitor` class models the code as written.

## Left out

- Blocking and waking (`wait()`, `notifyAll()`), the object lock, thread interleaving, liveness and starvation: each procedure is one atomic step, and a blocked caller's retry is another step.
- `InterruptedException` from `wait()`: an interrupted wait is not modelled.
- `src/Philosopher.java` is not part of this model. Its call order (pickUp, putDown, requestTalk, endTalk when holding the floor) appears only in the client method `TableMonitor.FiveSeatRound`. Its unsynchronised read of the floor holder is a race, so it is not modelled.
- `Monitor.constructor`: a negative seat count raises `NegativeArraySizeException` in the source; the model requires a count of at least 0.
- The unused field `numberOfChopSticks` is not modelled. The field `piNumberOfPhilosophers` always equals the array's length, so the model uses the length.
- `BaseThread(ThreadGroup, String)`: the group and the name belong to `java.lang.Thread`. Its effect on the TID is the same as the default constructor's, so `BaseThreads.BaseThread.Automatic` models both.
- `phase1`, `phase2` (they only print) and `randomYield` (random count of `yield()` calls) are not modelled.
- `BaseThreads.BaseThread.GetTid`: `iTID` is a `protected`, non-`final` field, so a subclass could assign it. No class of this program does (`Philosopher` only reads it), so the model makes the TID a constant field.
- `turnTestAndSet` is `synchronized` on the instance while it updates a static, which two threads can race on; the model treats each call as atomic.
