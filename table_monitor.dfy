// The dining-philosophers monitor (src/Monitor.java).
//
// Each synchronized procedure is one atomic step of a state machine over
// the seat states and the floor holder.  A `while (...) wait();` loop is a
// step that re-tests its guard: if the guard still blocks, the step records
// what the source records before waiting and reports `Blocked`; a retry is
// another step.  An array index out of range or a remainder by zero, which
// raise an exception in the source, end the step with `Failed`, after the
// assignments the source has already made.
//
// The first half states the steps as functions on a value `Table` and
// proves what they keep; the class `Monitor` at the end works in place on
// an array and is proved to agree with those functions.

module TableMonitor {
  import opened JavaInt

  datatype SeatState = Eating | Hungry | Thinking | Talking

  /** The exceptions a monitor procedure can raise. */
  datatype Fault = IndexOutOfBounds | DivisionByZero

  /** How one atomic step of a procedure ends. */
  datatype Step = Completed | Blocked | Failed(fault: Fault)

  /** The monitor's state as a value: one state per seat, and the TID of
    * the philosopher who holds the floor, 0 when nobody does. */
  datatype Table = Table(seats: seq<SeatState>, talker: Int32)

  datatype Outcome = Outcome(table: Table, step: Step)

  /** A Java array never has more than MaxInt32 elements. */
  predicate Sized(t: Table)
  {
    |t.seats| <= MaxInt32
  }

  /** TIDs that name a seat: philosopher `tid` sits at index `tid - 1`. */
  predicate ValidTid(t: Table, tid: Int32)
  {
    1 <= tid as int <= |t.seats|
  }

  /** The state right after `new Monitor(n)`. */
  function Initial(n: nat): Table
  {
    Table(seq(n, _ => Thinking), 0)
  }

  // ---------------------------------------------------------------
  // Invariants
  // ---------------------------------------------------------------

  /** Seats i and i+1 are never both Eating (the pairs that do not wrap). */
  ghost predicate ChainExclusion(s: seq<SeatState>)
  {
    forall i :: 0 <= i < |s| - 1 ==> !(s[i] == Eating && s[i + 1] == Eating)
  }

  /** No two seats that share a chopstick around the round table are both
    * Eating: the chain pairs and, with three seats or more, the pair
    * made of the last seat and seat 0. */
  ghost predicate RingExclusion(s: seq<SeatState>)
  {
    ChainExclusion(s) && (|s| >= 3 ==> !(s[|s| - 1] == Eating && s[0] == Eating))
  }

  /** The floor holder is nobody or a philosopher at the table. */
  ghost predicate TalkerInRange(t: Table)
  {
    t.talker == 0 || ValidTid(t, t.talker)
  }

  /** Only the floor holder's seat can be Talking, so at most one seat is. */
  ghost predicate SingleSpeaker(t: Table)
  {
    TalkerInRange(t) &&
    forall i :: 0 <= i < |t.seats| && t.seats[i] == Talking ==> t.talker as int == i + 1
  }

  lemma AtMostOneTalkingSeat(t: Table, i: int, j: int)
    requires SingleSpeaker(t)
    requires 0 <= i < |t.seats| && 0 <= j < |t.seats|
    requires t.seats[i] == Talking && t.seats[j] == Talking
    ensures i == j
  {
  }

  lemma InitialKeepsInvariants(n: nat)
    ensures RingExclusion(Initial(n).seats) && SingleSpeaker(Initial(n))
  {
  }

  // ---------------------------------------------------------------
  // The four procedures as steps
  // ---------------------------------------------------------------

  /** Array store `seats[index] = v`; an index out of range raises, and
    * the step then ends with the table as it was. */
  function Store(t: Table, index: Int32, v: SeatState, step: Step): Outcome
  {
    if 0 <= index as int < |t.seats| then Outcome(t.(seats := t.seats[index as int := v]), step)
    else Outcome(t, Failed(IndexOutOfBounds))
  }

  /** Which left-neighbour computation a pickUp step uses. */
  datatype Variant =
    | AsWritten   // Math.abs(index - 1) % N, as the source has it
    | Corrected   // Math.floorMod(index - 1, N): seat N-1 is the left neighbour of seat 0

  /** Left neighbour of seat `index` as the source computes it. */
  function LeftAsWritten(index: Int32, n: int): (r: int)
    requires n > 0
    ensures -n < r < n
  {
    Rem(Abs(Wrap(index as int - 1)) as int, n)
  }

  /** Left neighbour of seat `index` counted round the table. */
  function LeftCorrected(index: Int32, n: int): (r: int)
    requires n > 0
    ensures 0 <= r < n
  {
    FloorMod(Wrap(index as int - 1) as int, n)
  }

  /** Right neighbour of seat `index`: (index + 1) % N. */
  function Right(index: Int32, n: int): (r: int)
    requires n > 0
    ensures -n < r < n
  {
    Rem(Wrap(index as int + 1) as int, n)
  }

  /** One pass of pickUp's loop once the neighbour indices are computed:
    * test the guard left to right (Java's `||` skips the right seat when
    * the left one is Eating); if a neighbour is Eating mark the seat Hungry
    * and wait, otherwise mark it Eating and return.  A negative neighbour
    * index raises when the seat is read. */
  function PickUpGuard(t: Table, index: Int32, left: int, right: int): Outcome
    requires -|t.seats| < left < |t.seats| && -|t.seats| < right < |t.seats|
  {
    if left < 0 then Outcome(t, Failed(IndexOutOfBounds))
    else if t.seats[left] == Eating then Store(t, index, Hungry, Blocked)
    else if right < 0 then Outcome(t, Failed(IndexOutOfBounds))
    else if t.seats[right] == Eating then Store(t, index, Hungry, Blocked)
    else Store(t, index, Eating, Completed)
  }

  /** One pass of pickUp's loop for philosopher `tid`, with `index - 1`
    * taken to the left neighbour as the variant says. */
  function PickUpWith(v: Variant, t: Table, tid: Int32): Outcome
    requires Sized(t)
  {
    var n := |t.seats|;
    var index := Wrap(tid as int - 1);
    if n == 0 then Outcome(t, Failed(DivisionByZero))
    else
      var left := if v == AsWritten then LeftAsWritten(index, n) else LeftCorrected(index, n);
      PickUpGuard(t, index, left, Right(index, n))
  }

  lemma PickUpGuardAtSeat(t: Table, index: Int32, left: int, right: int)
    requires 0 <= index as int < |t.seats| && 0 <= left < |t.seats| && 0 <= right < |t.seats|
    ensures PickUpGuard(t, index, left, right) ==
            if t.seats[left] != Eating && t.seats[right] != Eating
            then Outcome(t.(seats := t.seats[index as int := Eating]), Completed)
            else Outcome(t.(seats := t.seats[index as int := Hungry]), Blocked)
  {
  }

  lemma PickUpGuardOffTable(t: Table, index: Int32, left: int, right: int)
    requires -|t.seats| < left < |t.seats| && -|t.seats| < right < |t.seats|
    requires !(0 <= index as int < |t.seats|)
    ensures PickUpGuard(t, index, left, right) == Outcome(t, Failed(IndexOutOfBounds))
  {
  }

  /** For a valid TID the seat index `tid - 1` does not wrap; for any other
    * TID it is outside the array. */
  lemma SeatIndex(t: Table, tid: Int32)
    requires Sized(t)
    ensures ValidTid(t, tid) ==> Wrap(tid as int - 1) as int == tid as int - 1
    ensures !ValidTid(t, tid) ==> !(0 <= Wrap(tid as int - 1) as int < |t.seats|)
  {
  }

  /** The neighbours both variants compute for a seat at the table. */
  lemma NeighbourIndices(index: Int32, n: int)
    requires 0 <= index as int < n <= MaxInt32
    ensures LeftAsWritten(index, n) == LeftSeat(AsWritten, n, index as int)
    ensures LeftCorrected(index, n) == LeftSeat(Corrected, n, index as int)
    ensures Right(index, n) == RightSeat(n, index as int)
  {
  }

  /** The seat a variant reads as the left neighbour of seat `k`, once
    * the arithmetic is done. */
  function LeftSeat(v: Variant, n: int, k: int): int
  {
    if k != 0 then k - 1
    else if v == Corrected then n - 1
    else if n == 1 then 0
    else 1
  }

  /** The seat read as the right neighbour of seat `k`. */
  function RightSeat(n: int, k: int): int
  {
    if k == n - 1 then 0 else k + 1
  }

  /** A pickUp pass by a philosopher at the table. */
  lemma PickUpAtSeat(v: Variant, t: Table, tid: Int32)
    requires Sized(t) && ValidTid(t, tid)
    ensures var n, k := |t.seats|, tid as int - 1;
            var left, right := LeftSeat(v, n, k), RightSeat(n, k);
            0 <= left < n && 0 <= right < n &&
            PickUpWith(v, t, tid) ==
              if t.seats[left] != Eating && t.seats[right] != Eating
              then Outcome(t.(seats := t.seats[k := Eating]), Completed)
              else Outcome(t.(seats := t.seats[k := Hungry]), Blocked)
  {
    var n, index := |t.seats|, Wrap(tid as int - 1);
    var left := if v == AsWritten then LeftAsWritten(index, n) else LeftCorrected(index, n);
    var right := Right(index, n);
    ReadsAtSeat(v, t, tid);
    PickUpWithGuard(v, t, tid);
    PickUpGuardAtSeat(t, index, left, right);
  }

  /** The indices a pickUp pass computes for a philosopher at the table. */
  lemma ReadsAtSeat(v: Variant, t: Table, tid: Int32)
    requires Sized(t) && ValidTid(t, tid)
    ensures var n, k, index := |t.seats|, tid as int - 1, Wrap(tid as int - 1);
            var left := if v == AsWritten then LeftAsWritten(index, n) else LeftCorrected(index, n);
            index as int == k && left == LeftSeat(v, n, k) && Right(index, n) == RightSeat(n, k)
  {
    SeatIndex(t, tid);
    NeighbourIndices(Wrap(tid as int - 1), |t.seats|);
  }

  lemma PickUpWithGuard(v: Variant, t: Table, tid: Int32)
    requires Sized(t) && |t.seats| > 0
    ensures var n, index := |t.seats|, Wrap(tid as int - 1);
            var left := if v == AsWritten then LeftAsWritten(index, n) else LeftCorrected(index, n);
            PickUpWith(v, t, tid) == PickUpGuard(t, index, left, Right(index, n))
  {
  }

  /** On a non-empty table, pickUp as written is one pass of the guard. */
  lemma PickUpStepIsGuard(t: Table, tid: Int32)
    requires Sized(t) && |t.seats| > 0
    ensures var n, index := |t.seats|, Wrap(tid as int - 1);
            PickUpStep(t, tid) == PickUpGuard(t, index, LeftAsWritten(index, n), Right(index, n))
  {
    PickUpWithGuard(AsWritten, t, tid);
  }

  /** A pickUp pass by any other TID raises and changes nothing. */
  lemma PickUpOffTable(v: Variant, t: Table, tid: Int32)
    requires Sized(t) && !ValidTid(t, tid)
    ensures PickUpWith(v, t, tid).table == t && PickUpWith(v, t, tid).step.Failed?
  {
    var n, index := |t.seats|, Wrap(tid as int - 1);
    SeatIndex(t, tid);
    if n > 0 {
      var left := if v == AsWritten then LeftAsWritten(index, n) else LeftCorrected(index, n);
      PickUpGuardOffTable(t, index, left, Right(index, n));
    }
  }

  /** pickUp(tid) as written.  For a valid TID at seat k = tid - 1 it reads
    * seats k - 1 and (k + 1) % N, except that for seat 0 it reads seat 1 % N
    * on both sides. */
  function PickUpStep(t: Table, tid: Int32): (o: Outcome)
    requires Sized(t)
    ensures o.table.talker == t.talker && |o.table.seats| == |t.seats|
    ensures o.step.Failed? <==> !ValidTid(t, tid)
    ensures o.step.Failed? ==> o.table == t
    ensures ValidTid(t, tid) ==>
              var n, k := |t.seats|, tid as int - 1;
              var left, right := LeftSeat(AsWritten, n, k), RightSeat(n, k);
              (o.step == Completed <==> t.seats[left] != Eating && t.seats[right] != Eating)
    ensures !o.step.Failed? ==>
              o.table.seats == t.seats[tid as int - 1 := if o.step == Completed then Eating else Hungry]
  {
    if ValidTid(t, tid) then
      PickUpAtSeat(AsWritten, t, tid);
      PickUpWith(AsWritten, t, tid)
    else
      PickUpOffTable(AsWritten, t, tid);
      PickUpWith(AsWritten, t, tid)
  }

  /** pickUp(tid) with the left neighbour taken round the table. */
  function PickUpStepCorrected(t: Table, tid: Int32): (o: Outcome)
    requires Sized(t)
    ensures o.table.talker == t.talker && |o.table.seats| == |t.seats|
    ensures o.step.Failed? <==> !ValidTid(t, tid)
    ensures o.step.Failed? ==> o.table == t
    ensures ValidTid(t, tid) ==>
              var n, k := |t.seats|, tid as int - 1;
              var left, right := LeftSeat(Corrected, n, k), RightSeat(n, k);
              (o.step == Completed <==> t.seats[left] != Eating && t.seats[right] != Eating)
    ensures !o.step.Failed? ==>
              o.table.seats == t.seats[tid as int - 1 := if o.step == Completed then Eating else Hungry]
  {
    if ValidTid(t, tid) then
      PickUpAtSeat(Corrected, t, tid);
      PickUpWith(Corrected, t, tid)
    else
      PickUpOffTable(Corrected, t, tid);
      PickUpWith(Corrected, t, tid)
  }

  /** putDown(tid): back to Thinking. */
  function PutDownStep(t: Table, tid: Int32): (o: Outcome)
    requires Sized(t)
    ensures o.table.talker == t.talker
    ensures o.step.Failed? <==> !ValidTid(t, tid)
    ensures o.step.Failed? ==> o.table == t
    ensures ValidTid(t, tid) ==> o.step == Completed && o.table.seats == t.seats[tid as int - 1 := Thinking]
  {
    Store(t, Wrap(tid as int - 1), Thinking, Completed)
  }

  /** One pass of requestTalk's loop: wait while anybody, the caller
    * included, holds the floor; otherwise take it and mark the seat
    * Talking.  The holder is assigned before the seat is stored, so an
    * invalid TID is left holding the floor when the store raises. */
  function RequestTalkStep(t: Table, tid: Int32): (o: Outcome)
    requires Sized(t)
    ensures t.talker != 0 ==> o == Outcome(t, Blocked)
    ensures t.talker == 0 ==> o.table.talker == tid
    ensures t.talker == 0 && ValidTid(t, tid) ==>
              o.step == Completed && o.table.seats == t.seats[tid as int - 1 := Talking]
    ensures t.talker == 0 && !ValidTid(t, tid) ==>
              o.step == Failed(IndexOutOfBounds) && o.table.seats == t.seats
  {
    if t.talker != 0 then Outcome(t, Blocked)
    else Store(t.(talker := tid), Wrap(tid as int - 1), Talking, Completed)
  }

  /** endTalk(tid): releases the floor whoever holds it, then sets the
    * caller's seat to Thinking. */
  function EndTalkStep(t: Table, tid: Int32): (o: Outcome)
    requires Sized(t)
    ensures o.table.talker == 0
    ensures o.step.Failed? <==> !ValidTid(t, tid)
    ensures o.step.Failed? ==> o.table.seats == t.seats
    ensures ValidTid(t, tid) ==> o.step == Completed && o.table.seats == t.seats[tid as int - 1 := Thinking]
  {
    Store(t.(talker := 0), Wrap(tid as int - 1), Thinking, Completed)
  }

  // ---------------------------------------------------------------
  // Properties of single steps
  // ---------------------------------------------------------------

  lemma PickUpKeepsChainExclusion(t: Table, tid: Int32)
    requires Sized(t) && ChainExclusion(t.seats)
    ensures ChainExclusion(PickUpStep(t, tid).table.seats)
  {
    var o := PickUpStep(t, tid);
    if o.step == Completed {
      var n, k := |t.seats|, tid as int - 1;
      forall i | 0 <= i < n - 1
        ensures !(o.table.seats[i] == Eating && o.table.seats[i + 1] == Eating)
      {
        if i == k - 1 {
          assert t.seats[k - 1] != Eating;
        } else if i == k {
          assert t.seats[k + 1] != Eating;
        }
      }
    }
  }

  /** For two seats the chain is the whole ring, so the source keeps
    * the ring exclusion there. */
  lemma PickUpKeepsRingForTwoSeats(t: Table, tid: Int32)
    requires Sized(t) && |t.seats| <= 2 && RingExclusion(t.seats)
    ensures RingExclusion(PickUpStep(t, tid).table.seats)
  {
    PickUpKeepsChainExclusion(t, tid);
  }

  /** With three seats or more, philosopher 1 can start eating while the
    * philosopher at seat N-1, its left neighbour, is eating: the source
    * checks seat 1 % N on both sides of seat 0.  Starting from a fresh
    * monitor, pickUp(N) and then pickUp(1) both complete. */
  lemma PickUpBreaksRingExclusion(n: nat)
    requires 3 <= n <= MaxInt32
    ensures var t0 := Initial(n);
            var o1 := PickUpStep(t0, n as Int32);
            var o2 := PickUpStep(o1.table, 1);
            o1.step == Completed && RingExclusion(o1.table.seats) &&
            o2.step == Completed && o2.table.seats[0] == Eating && o2.table.seats[n - 1] == Eating &&
            !RingExclusion(o2.table.seats) &&
            Run(AsWritten, t0, [PickUp(n as Int32), PickUp(1)]) == o2.table
  {
    var t0 := Initial(n);
    var o1 := PickUpStep(t0, n as Int32);
    assert o1.table.seats == t0.seats[n - 1 := Eating];
    assert o1.table.seats[1] == Thinking && o1.table.seats[n - 2] == Thinking;
    var o2 := PickUpStep(o1.table, 1);
    assert Run(AsWritten, o2.table, []) == o2.table;
    assert Run(AsWritten, o1.table, [PickUp(1)]) == o2.table;
  }

  lemma PickUpCorrectedKeepsRingExclusion(t: Table, tid: Int32)
    requires Sized(t) && RingExclusion(t.seats)
    ensures RingExclusion(PickUpStepCorrected(t, tid).table.seats)
  {
    var o := PickUpStepCorrected(t, tid);
    if o.step == Completed {
      var n, k := |t.seats|, tid as int - 1;
      forall i | 0 <= i < n - 1
        ensures !(o.table.seats[i] == Eating && o.table.seats[i + 1] == Eating)
      {
        if i == k - 1 {
          assert t.seats[k - 1] != Eating;
        } else if i == k {
          assert t.seats[k + 1] != Eating;
        }
      }
    }
  }

  /** A seat whose state a step changes, and the value it now has. */
  ghost predicate OnlyWrites(s: seq<SeatState>, s': seq<SeatState>, allowed: set<SeatState>)
  {
    |s'| == |s| && forall i :: 0 <= i < |s| && s'[i] != s[i] ==> s'[i] in allowed
  }

  /** putDown, requestTalk and endTalk only ever store Thinking or Talking,
    * so none of them starts anybody eating. */
  lemma OtherStepsNeverStartEating(t: Table, tid: Int32)
    requires Sized(t)
    ensures OnlyWrites(t.seats, PutDownStep(t, tid).table.seats, {Thinking})
    ensures OnlyWrites(t.seats, RequestTalkStep(t, tid).table.seats, {Talking})
    ensures OnlyWrites(t.seats, EndTalkStep(t, tid).table.seats, {Thinking})
  {
  }

  /** pickUp only ever stores Eating or Hungry. */
  lemma PickUpWritesEatingOrHungry(t: Table, tid: Int32)
    requires Sized(t)
    ensures OnlyWrites(t.seats, PickUpStep(t, tid).table.seats, {Eating, Hungry})
    ensures OnlyWrites(t.seats, PickUpStepCorrected(t, tid).table.seats, {Eating, Hungry})
  {
  }

  lemma PutDownIdempotent(t: Table, tid: Int32)
    requires Sized(t)
    ensures PutDownStep(PutDownStep(t, tid).table, tid) == PutDownStep(t, tid)
  {
  }

  // ---------------------------------------------------------------
  // Sequences of calls
  // ---------------------------------------------------------------

  datatype Call = PickUp(tid: Int32) | PutDown(tid: Int32) | RequestTalk(tid: Int32) | EndTalk(tid: Int32)

  function Apply(v: Variant, t: Table, c: Call): (o: Outcome)
    requires Sized(t)
    ensures |o.table.seats| == |t.seats|
  {
    match c
    case PickUp(tid) => if v == AsWritten then PickUpStep(t, tid) else PickUpStepCorrected(t, tid)
    case PutDown(tid) => PutDownStep(t, tid)
    case RequestTalk(tid) => RequestTalkStep(t, tid)
    case EndTalk(tid) => EndTalkStep(t, tid)
  }

  /** The table after the calls, each one step, in order. */
  function Run(v: Variant, t: Table, calls: seq<Call>): (r: Table)
    requires Sized(t)
    ensures |r.seats| == |t.seats|
    decreases |calls|
  {
    if calls == [] then t else Run(v, Apply(v, t, calls[0]).table, calls[1..])
  }

  /** The exclusion each variant keeps: the chain for the source as
    * written, the whole ring for the corrected pickUp. */
  ghost predicate Exclusion(v: Variant, s: seq<SeatState>)
  {
    if v == AsWritten then ChainExclusion(s) else RingExclusion(s)
  }

  /** A step that makes no seat Eating keeps either exclusion. */
  lemma NoNewEaterKeepsExclusion(v: Variant, s: seq<SeatState>, s': seq<SeatState>)
    requires Exclusion(v, s) && |s'| == |s|
    requires forall i :: 0 <= i < |s| && s'[i] == Eating ==> s[i] == Eating
    ensures Exclusion(v, s')
  {
  }

  lemma ApplyKeepsExclusion(v: Variant, t: Table, c: Call)
    requires Sized(t) && Exclusion(v, t.seats)
    ensures Exclusion(v, Apply(v, t, c).table.seats)
  {
    match c
    case PickUp(tid) =>
      if v == AsWritten { PickUpKeepsChainExclusion(t, tid); }
      else { PickUpCorrectedKeepsRingExclusion(t, tid); }
    case PutDown(tid) =>
      OtherStepsNeverStartEating(t, tid);
      NoNewEaterKeepsExclusion(v, t.seats, PutDownStep(t, tid).table.seats);
    case RequestTalk(tid) =>
      OtherStepsNeverStartEating(t, tid);
      NoNewEaterKeepsExclusion(v, t.seats, RequestTalkStep(t, tid).table.seats);
    case EndTalk(tid) =>
      OtherStepsNeverStartEating(t, tid);
      NoNewEaterKeepsExclusion(v, t.seats, EndTalkStep(t, tid).table.seats);
  }

  /** Whatever the calls and their TIDs, no two neighbours eat at once
    * (neighbours in the chain as written, round the ring when corrected). */
  lemma {:induction false} RunKeepsExclusion(v: Variant, t: Table, calls: seq<Call>)
    requires Sized(t) && Exclusion(v, t.seats)
    ensures Exclusion(v, Run(v, t, calls).seats)
    decreases |calls|
  {
    if calls != [] {
      ApplyKeepsExclusion(v, t, calls[0]);
      RunKeepsExclusion(v, Apply(v, t, calls[0]).table, calls[1..]);
    }
  }

  /** With a valid TID every step keeps the floor holder nobody or a
    * philosopher at the table. */
  lemma ApplyKeepsTalkerInRange(v: Variant, t: Table, c: Call)
    requires Sized(t) && TalkerInRange(t) && ValidTid(t, c.tid)
    ensures TalkerInRange(Apply(v, t, c).table)
  {
  }

  /** Whatever the calls, as long as each names a philosopher at the table,
    * the floor holder stays nobody or a philosopher at the table. */
  lemma {:induction false} RunKeepsTalkerInRange(v: Variant, t: Table, calls: seq<Call>)
    requires Sized(t) && TalkerInRange(t)
    requires forall i :: 0 <= i < |calls| ==> ValidTid(t, calls[i].tid)
    ensures TalkerInRange(Run(v, t, calls))
    decreases |calls|
  {
    if calls != [] {
      ApplyKeepsTalkerInRange(v, t, calls[0]);
      var t' := Apply(v, t, calls[0]).table;
      assert forall i :: 0 <= i < |calls[1..]| ==> ValidTid(t', calls[1..][i].tid) by {
        forall i | 0 <= i < |calls[1..]|
          ensures ValidTid(t', calls[1..][i].tid)
        {
          assert calls[1..][i] == calls[i + 1];
        }
      }
      RunKeepsTalkerInRange(v, t', calls[1..]);
    }
  }

  /** A call the source's philosophers make: a valid TID, and endTalk
    * only by the philosopher who holds the floor. */
  ghost predicate Cooperative(t: Table, c: Call)
  {
    ValidTid(t, c.tid) && (c.EndTalk? ==> t.talker == c.tid)
  }

  ghost predicate AllCooperative(v: Variant, t: Table, calls: seq<Call>)
    requires Sized(t)
    decreases |calls|
  {
    calls == [] ||
    (Cooperative(t, calls[0]) && AllCooperative(v, Apply(v, t, calls[0]).table, calls[1..]))
  }

  /** A step that keeps the holder and makes no seat Talking keeps the
    * single-speaker invariant. */
  lemma NoNewTalkerKeepsSingleSpeaker(t: Table, t': Table)
    requires SingleSpeaker(t) && |t'.seats| == |t.seats| && t'.talker == t.talker
    requires forall i :: 0 <= i < |t.seats| && t'.seats[i] == Talking ==> t.seats[i] == Talking
    ensures SingleSpeaker(t')
  {
  }

  lemma PickUpKeepsSingleSpeaker(v: Variant, t: Table, tid: Int32)
    requires Sized(t) && SingleSpeaker(t)
    ensures SingleSpeaker(Apply(v, t, PickUp(tid)).table)
  {
    PickUpWritesEatingOrHungry(t, tid);
    NoNewTalkerKeepsSingleSpeaker(t, Apply(v, t, PickUp(tid)).table);
  }

  /** requestTalk either blocks or makes the caller both the holder and
    * the only new Talking seat. */
  lemma RequestTalkKeepsSingleSpeaker(t: Table, tid: Int32)
    requires Sized(t) && SingleSpeaker(t) && ValidTid(t, tid)
    ensures SingleSpeaker(RequestTalkStep(t, tid).table)
  {
  }

  /** endTalk by the holder clears the holder and its seat, which was the
    * only Talking one. */
  lemma EndTalkKeepsSingleSpeaker(t: Table, tid: Int32)
    requires Sized(t) && SingleSpeaker(t) && ValidTid(t, tid) && t.talker == tid
    ensures SingleSpeaker(EndTalkStep(t, tid).table)
  {
  }

  lemma ApplyKeepsSingleSpeaker(v: Variant, t: Table, c: Call)
    requires Sized(t) && SingleSpeaker(t) && Cooperative(t, c)
    ensures SingleSpeaker(Apply(v, t, c).table)
  {
    match c
    case PickUp(tid) =>
      PickUpKeepsSingleSpeaker(v, t, tid);
    case PutDown(tid) =>
      NoNewTalkerKeepsSingleSpeaker(t, PutDownStep(t, tid).table);
    case RequestTalk(tid) =>
      RequestTalkKeepsSingleSpeaker(t, tid);
    case EndTalk(tid) =>
      EndTalkKeepsSingleSpeaker(t, tid);
  }

  /** When every endTalk comes from the floor holder, only the holder's
    * seat is ever Talking: at most one philosopher talks. */
  lemma {:induction false} RunKeepsSingleSpeaker(v: Variant, t: Table, calls: seq<Call>)
    requires Sized(t) && SingleSpeaker(t) && AllCooperative(v, t, calls)
    ensures SingleSpeaker(Run(v, t, calls))
    decreases |calls|
  {
    if calls != [] {
      ApplyKeepsSingleSpeaker(v, t, calls[0]);
      RunKeepsSingleSpeaker(v, Apply(v, t, calls[0]).table, calls[1..]);
    }
  }

  /** endTalk does not check who holds the floor: philosopher 2 ending
    * philosopher 1's talk lets philosopher 2 talk while seat 0 still is
    * Talking. */
  lemma EndTalkByOtherAllowsTwoSpeakers(n: nat)
    requires 2 <= n <= MaxInt32
    ensures var r := Run(AsWritten, Initial(n), [RequestTalk(1), EndTalk(2), RequestTalk(2)]);
            r.talker == 2 && r.seats[0] == Talking && r.seats[1] == Talking
  {
    var t0 := Initial(n);
    var t1 := RequestTalkStep(t0, 1).table;
    var t2 := EndTalkStep(t1, 2).table;
    var t3 := RequestTalkStep(t2, 2).table;
    assert Run(AsWritten, t3, []) == t3;
    assert Run(AsWritten, t2, [RequestTalk(2)]) == t3;
    assert Run(AsWritten, t1, [EndTalk(2), RequestTalk(2)]) == t3;
  }

  // ---------------------------------------------------------------
  // The monitor object
  // ---------------------------------------------------------------

  class Monitor {
    /** philosophereSates: the state of each seat. */
    var seats: array<SeatState>
    /** philosophereTalkingId: who holds the floor, 0 for nobody. */
    var talkingId: Int32

    ghost predicate Valid()
      reads this
    {
      seats.Length <= MaxInt32
    }

    ghost function Abstract(): Table
      reads this, seats
    {
      Table(seats[..], talkingId)
    }

    constructor (n: Int32)
      requires n >= 0
      ensures Valid() && fresh(seats)
      ensures seats.Length == n as int && talkingId == 0
      ensures forall i :: 0 <= i < seats.Length ==> seats[i] == Thinking
      ensures Abstract() == Initial(n as nat)
    {
      talkingId := 0;
      var a := new SeatState[n];
      var i := 0;
      while i < n
        invariant 0 <= i <= n
        invariant forall j :: 0 <= j < i ==> a[j] == Thinking
      {
        a[i] := Thinking;
        i := i + 1;
      }
      seats := a;
    }

    method PickUp(tid: Int32) returns (step: Step)
      requires Valid()
      modifies seats
      ensures Valid()
      ensures Abstract() == PickUpStep(old(Abstract()), tid).table
      ensures step == PickUpStep(old(Abstract()), tid).step
    {
      var n := seats.Length;
      var index := Wrap(tid as int - 1);
      if n == 0 {
        return Failed(DivisionByZero);
      }
      PickUpStepIsGuard(Abstract(), tid);
      var left := LeftAsWritten(index, n);
      if left < 0 {
        return Failed(IndexOutOfBounds);
      }
      var blocked := seats[left] == Eating;
      if !blocked {
        var right := Right(index, n);
        if right < 0 {
          return Failed(IndexOutOfBounds);
        }
        blocked := seats[right] == Eating;
      }
      if !(0 <= index as int < n) {
        return Failed(IndexOutOfBounds);
      }
      if blocked {
        seats[index] := Hungry;
        step := Blocked;
      } else {
        seats[index] := Eating;
        step := Completed;
      }
    }

    method PutDown(tid: Int32) returns (step: Step)
      requires Valid()
      modifies seats
      ensures Valid()
      ensures Abstract() == PutDownStep(old(Abstract()), tid).table
      ensures step == PutDownStep(old(Abstract()), tid).step
    {
      var index := Wrap(tid as int - 1);
      if !(0 <= index as int < seats.Length) {
        return Failed(IndexOutOfBounds);
      }
      seats[index] := Thinking;
      step := Completed;
    }

    method RequestTalk(tid: Int32) returns (step: Step)
      requires Valid()
      modifies this, seats
      ensures Valid() && seats == old(seats)
      ensures Abstract() == RequestTalkStep(old(Abstract()), tid).table
      ensures step == RequestTalkStep(old(Abstract()), tid).step
    {
      if talkingId != 0 {
        return Blocked;
      }
      talkingId := tid;
      var index := Wrap(tid as int - 1);
      if !(0 <= index as int < seats.Length) {
        return Failed(IndexOutOfBounds);
      }
      seats[index] := Talking;
      step := Completed;
    }

    method EndTalk(tid: Int32) returns (step: Step)
      requires Valid()
      modifies this, seats
      ensures Valid() && seats == old(seats)
      ensures Abstract() == EndTalkStep(old(Abstract()), tid).table
      ensures step == EndTalkStep(old(Abstract()), tid).step
    {
      talkingId := 0;
      var index := Wrap(tid as int - 1);
      if !(0 <= index as int < seats.Length) {
        return Failed(IndexOutOfBounds);
      }
      seats[index] := Thinking;
      step := Completed;
    }
  }

  /** One round of the philosophers' loop (pickUp, putDown, requestTalk,
    * endTalk when holding the floor) for two neighbours at a table of five. */
  method FiveSeatRound()
  {
    var m := new Monitor(5);
    var s := m.PickUp(1);
    assert s == Completed;
    s := m.PickUp(2);
    assert s == Blocked && m.seats[1] == Hungry;
    s := m.PutDown(1);
    s := m.PickUp(2);
    assert s == Completed && m.seats[1] == Eating;
    s := m.RequestTalk(1);
    assert s == Completed && m.talkingId == 1;
    s := m.PutDown(2);
    s := m.RequestTalk(2);
    assert s == Blocked;
    s := m.EndTalk(1);
    s := m.RequestTalk(2);
    assert s == Completed && m.talkingId == 2 && m.seats[1] == Talking;
  }
}
