// Thread identifiers and the ordered-turn test-and-set of
// common/BaseThread.java.
//
// The class's two statics, the next automatic TID and the turn, are the
// fields of one `Globals` object that every thread is handed; each thread
// keeps its own TID.  Both statics are Java `int`s and wrap around.

module BaseThreads {
  import opened JavaInt

  /** The statics siNextTID and siTurn, both 1 when the class is loaded. */
  class Globals {
    var nextTid: Int32
    var turn: Int32

    constructor ()
      ensures nextTid == 1 && turn == 1
    {
      nextTid := 1;
      turn := 1;
    }

    /** setInitialTurn: any turn, meant to be set before threads start. */
    method SetInitialTurn(t: Int32)
      modifies this
      ensures turn == t && nextTid == old(nextTid)
    {
      turn := t;
    }

    /** setInitialTurnAscending: the thread with TID 1 goes first. */
    method SetInitialTurnAscending()
      modifies this
      ensures turn == 1 && nextTid == old(nextTid)
    {
      SetInitialTurn(1);
    }

    /** setInitialTurnDescending: the most recently issued automatic TID
      * goes first. */
    method SetInitialTurnDescending()
      modifies this
      ensures turn == Wrap(nextTid as int - 1) && nextTid == old(nextTid)
      ensures nextTid as int > MinInt32 ==> turn as int == nextTid as int - 1
    {
      SetInitialTurn(Wrap(nextTid as int - 1));
    }
  }

  /** What one turnTestAndSet does to the turn. */
  datatype TurnResult = TurnResult(granted: bool, turn: Int32)

  /** turnTestAndSet as a function of the turn: granted exactly when the
    * turn is the caller's TID, and then the turn moves one step up (or
    * down), wrapping as a Java `int` does; refused, it stays. */
  function TestAndSet(turn: Int32, tid: Int32, increasing: bool): (r: TurnResult)
    ensures r.granted <==> turn == tid
    ensures !r.granted ==> r.turn == turn
    ensures r.granted && increasing && turn as int < MaxInt32 ==> r.turn as int == turn as int + 1
    ensures r.granted && !increasing && turn as int > MinInt32 ==> r.turn as int == turn as int - 1
    ensures r.granted && increasing && turn as int == MaxInt32 ==> r.turn as int == MinInt32
    ensures r.granted && !increasing && turn as int == MinInt32 ==> r.turn as int == MaxInt32
  {
    if turn == tid then
      TurnResult(true, if increasing then Wrap(turn as int + 1) else Wrap(turn as int - 1))
    else
      TurnResult(false, turn)
  }

  class BaseThread {
    /** iTID: set once by a constructor and never changed afterwards. */
    const tid: Int32

    /** BaseThread(): takes the next automatic TID, as the private setTID
      * does (`iTID = siNextTID++`), which only the constructors call.  The
      * constructor that also names the thread and places it in a group
      * does the same. */
    constructor Automatic(g: Globals)
      modifies g
      ensures tid == old(g.nextTid)
      ensures g.nextTid == Wrap(old(g.nextTid) as int + 1) && g.turn == old(g.turn)
    {
      tid := g.nextTid;
      new;
      g.nextTid := Wrap(g.nextTid as int + 1);
    }

    /** BaseThread(piTID): a TID of the caller's choosing; the automatic
      * counter is not touched. */
    constructor WithTid(piTid: Int32)
      ensures tid == piTid
    {
      tid := piTid;
    }

    method GetTid() returns (r: Int32)
      ensures r == tid
    {
      r := tid;
    }

    /** turnTestAndSet(pcIncreasingOrder). */
    method TurnTestAndSet(g: Globals, increasing: bool) returns (granted: bool)
      modifies g
      ensures TurnResult(granted, g.turn) == TestAndSet(old(g.turn), tid, increasing)
      ensures g.nextTid == old(g.nextTid)
    {
      if g.turn == tid {
        if increasing {
          g.turn := Wrap(g.turn as int + 1);
        } else {
          g.turn := Wrap(g.turn as int - 1);
        }
        return true;
      }
      return false;
    }

    /** turnTestAndSet(): always the increasing order. */
    method TurnTestAndSetIncreasing(g: Globals) returns (granted: bool)
      modifies g
      ensures TurnResult(granted, g.turn) == TestAndSet(old(g.turn), tid, true)
      ensures g.nextTid == old(g.nextTid)
    {
      granted := TurnTestAndSet(g, true);
    }
  }

  // ---------------------------------------------------------------
  // Successive automatic TIDs
  // ---------------------------------------------------------------

  /** The TIDs that `k` successive automatic constructions receive when
    * the counter stands at `next`, and where the counter ends. */
  function Issue(next: Int32, k: nat): (r: (seq<Int32>, Int32))
    ensures |r.0| == k
    decreases k
  {
    if k == 0 then ([], next)
    else
      var rest := Issue(Wrap(next as int + 1), k - 1);
      ([next] + rest.0, rest.1)
  }

  /** Issuing one more TID appends the counter's current value. */
  lemma {:induction false} IssueOneMore(next: Int32, k: nat)
    ensures Issue(next, k + 1).0 == Issue(next, k).0 + [Issue(next, k).1]
    ensures Issue(next, k + 1).1 == Wrap(Issue(next, k).1 as int + 1)
    decreases k
  {
    if k > 0 {
      IssueOneMore(Wrap(next as int + 1), k - 1);
    }
  }

  /** Constructs `k` threads automatically, one after the other: they get
    * the TIDs `Issue` predicts, and the counter ends where it says. */
  method ConstructThreads(g: Globals, k: nat) returns (threads: seq<BaseThread>)
    modifies g
    ensures |threads| == k
    ensures forall i :: 0 <= i < k ==> threads[i].tid == Issue(old(g.nextTid), k).0[i]
    ensures g.nextTid == Issue(old(g.nextTid), k).1 && g.turn == old(g.turn)
  {
    threads := [];
    var i := 0;
    while i < k
      invariant 0 <= i <= k && |threads| == i
      invariant forall j :: 0 <= j < i ==> threads[j].tid == Issue(old(g.nextTid), i).0[j]
      invariant g.nextTid == Issue(old(g.nextTid), i).1 && g.turn == old(g.turn)
    {
      IssueOneMore(old(g.nextTid), i);
      var t := new BaseThread.Automatic(g);
      threads := threads + [t];
      i := i + 1;
    }
  }

  /** Without wrap-around, successive threads get consecutive, hence
    * strictly increasing and distinct, TIDs, and the counter ends just
    * past the last one. */
  lemma {:induction false} IssueConsecutive(next: Int32, k: nat)
    requires next as int + k <= MaxInt32
    ensures forall i :: 0 <= i < k ==> Issue(next, k).0[i] as int == next as int + i
    ensures Issue(next, k).1 as int == next as int + k
    decreases k
  {
    if k > 0 {
      IssueConsecutive(Wrap(next as int + 1), k - 1);
    }
  }

  lemma IssueStrictlyIncreasing(next: Int32, k: nat)
    requires next as int + k <= MaxInt32
    ensures forall i, j :: 0 <= i < j < k ==> Issue(next, k).0[i] < Issue(next, k).0[j]
  {
    IssueConsecutive(next, k);
  }

  /** After threads are constructed from a fresh counter, the descending
    * order starts at the last TID issued. */
  lemma DescendingStartsAtLastTid(k: nat)
    requires 1 <= k < MaxInt32
    ensures Wrap(Issue(1, k).1 as int - 1) == Issue(1, k).0[k - 1]
  {
    IssueConsecutive(1, k);
  }

  // ---------------------------------------------------------------
  // Order of successful test-and-sets
  // ---------------------------------------------------------------

  /** Threads with the given TIDs call turnTestAndSet one after the other:
    * the TIDs granted, in order, and the final turn. */
  function Attempts(turn: Int32, tids: seq<Int32>, increasing: bool): (r: (seq<Int32>, Int32))
    ensures |r.0| <= |tids|
    decreases |tids|
  {
    if tids == [] then ([], turn)
    else
      var s := TestAndSet(turn, tids[0], increasing);
      var rest := Attempts(s.turn, tids[1..], increasing);
      (if s.granted then [tids[0]] + rest.0 else rest.0, rest.1)
  }

  /** With TIDs among 1..k and the turn starting at most k + 1, however the
    * attempts interleave the turns are granted to turn, turn + 1, ... in
    * that order; from setInitialTurnAscending that is TID order 1, 2, .... */
  lemma {:induction false} AscendingGrantsInTidOrder(turn: Int32, tids: seq<Int32>, k: nat)
    requires 1 <= turn as int <= k + 1 && k < MaxInt32
    requires forall i :: 0 <= i < |tids| ==> 1 <= tids[i] as int <= k
    ensures var r := Attempts(turn, tids, true);
            (forall i :: 0 <= i < |r.0| ==> r.0[i] as int == turn as int + i) &&
            r.1 as int == turn as int + |r.0| <= k + 1
    decreases |tids|
  {
    if tids != [] {
      var s := TestAndSet(turn, tids[0], true);
      AscendingGrantsInTidOrder(s.turn, tids[1..], k);
    }
  }

  /** The mirror image for setInitialTurnDescending: turns go to turn,
    * turn - 1, ... down to 1 at the least. */
  lemma {:induction false} DescendingGrantsInReverseTidOrder(turn: Int32, tids: seq<Int32>, k: nat)
    requires 0 <= turn as int <= k && k <= MaxInt32
    requires forall i :: 0 <= i < |tids| ==> 1 <= tids[i] as int <= k
    ensures var r := Attempts(turn, tids, false);
            (forall i :: 0 <= i < |r.0| ==> r.0[i] as int == turn as int - i) &&
            0 <= r.1 as int == turn as int - |r.0|
    decreases |tids|
  {
    if tids != [] {
      var s := TestAndSet(turn, tids[0], false);
      DescendingGrantsInReverseTidOrder(s.turn, tids[1..], k);
    }
  }

  /** Three automatically numbered threads pass the turn in TID order. */
  method ThreeThreadsAscending()
  {
    var g := new Globals();
    var a := new BaseThread.Automatic(g);
    var b := new BaseThread.Automatic(g);
    var c := new BaseThread.Automatic(g);
    assert a.tid == 1 && b.tid == 2 && c.tid == 3;
    g.SetInitialTurnAscending();
    var ok := b.TurnTestAndSetIncreasing(g);
    assert !ok;
    ok := a.TurnTestAndSetIncreasing(g);
    assert ok && g.turn == 2;
    ok := b.TurnTestAndSetIncreasing(g);
    assert ok;
    ok := c.TurnTestAndSet(g, true);
    assert ok && g.turn == 4;
  }
}
