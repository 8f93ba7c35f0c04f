/**
 The guard around a capture handle (internal/apptunnel/apptunnel_windows.go, divHandle) as a transition
 system: any number of threads run send, close and finish, in any interleaving their lock permits.
 */
module DivHandle {
  import opened Basics

  type Tid = nat

  /** Where a thread stands; the comments name the call that is under way. */
  datatype Pc =
    | Idle
    | SendEntered    // send holds the read lock
    | Sending        // Send has been issued on the handle
    | SendLeaving
    | CloseEntered   // close holds the write lock
    | Unlocked       // close has marked the handle draining and released the lock
    | ShuttingDown   // Shutdown has been issued on the handle
    | FinishWanted   // Shutdown failed
    | FinishEntered  // finish holds the write lock
    | Closing        // Close has been issued on the handle
    | FinishLeaving

  datatype State = State(pcs: map<Tid, Pc>, readers: set<Tid>, writer: Option<Tid>, closed: bool, draining: bool, closes: nat) {
    function At(t: Tid): Pc {
      if t in pcs then pcs[t] else Idle
    }

    function Move(t: Tid, pc: Pc): State {
      this.(pcs := pcs[t := pc])
    }

    predicate Free() {
      writer == None && readers == {}
    }
  }

  const INITIAL := State(map[], {}, None, false, false, 0)

  datatype Step =
    | EnterSend(t: Tid)
    | CheckSend(t: Tid)
    | SendReturns(t: Tid)
    | LeaveSend(t: Tid)
    | EnterClose(t: Tid)
    | MarkClose(t: Tid)
    | IssueShutdown(t: Tid)
    | ShutdownReturns(t: Tid, ok: bool)
    | EnterFinish(t: Tid)
    | CheckFinish(t: Tid)
    | CloseReturns(t: Tid)
    | LeaveFinish(t: Tid)

  /** finish may be called by anyone at any time: the packet loop, the panic handler, the grace timer, a failed shutdown. */
  predicate Enabled(s: State, e: Step) {
    match e
    case EnterSend(t) => s.At(t) == Idle && s.writer == None
    case CheckSend(t) => s.At(t) == SendEntered
    case SendReturns(t) => s.At(t) == Sending
    case LeaveSend(t) => s.At(t) == SendLeaving
    case EnterClose(t) => s.At(t) == Idle && s.Free()
    case MarkClose(t) => s.At(t) == CloseEntered
    case IssueShutdown(t) => s.At(t) == Unlocked
    case ShutdownReturns(t, _) => s.At(t) == ShuttingDown
    case EnterFinish(t) => (s.At(t) == Idle || s.At(t) == FinishWanted) && s.Free()
    case CheckFinish(t) => s.At(t) == FinishEntered
    case CloseReturns(t) => s.At(t) == Closing
    case LeaveFinish(t) => s.At(t) == FinishLeaving
  }

  function Apply(s: State, e: Step): State {
    match e
    case EnterSend(t) => s.(readers := s.readers + {t}).Move(t, SendEntered)
    case CheckSend(t) => s.Move(t, if s.closed then SendLeaving else Sending)
    case SendReturns(t) => s.Move(t, SendLeaving)
    case LeaveSend(t) => s.(readers := s.readers - {t}).Move(t, Idle)
    case EnterClose(t) => s.(writer := Some(t)).Move(t, CloseEntered)
    case MarkClose(t) =>
      if s.closed || s.draining then s.(writer := None).Move(t, Idle)
      else s.(writer := None, draining := true).Move(t, Unlocked)
    case IssueShutdown(t) => s.Move(t, ShuttingDown)
    case ShutdownReturns(t, ok) => s.Move(t, if ok then Idle else FinishWanted)
    case EnterFinish(t) => s.(writer := Some(t)).Move(t, FinishEntered)
    case CheckFinish(t) =>
      if s.closed then s.Move(t, FinishLeaving)
      else s.(closed := true, closes := s.closes + 1).Move(t, Closing)
    case CloseReturns(t) => s.Move(t, FinishLeaving)
    case LeaveFinish(t) => s.(writer := None).Move(t, Idle)
  }

  predicate Reading(pc: Pc) {
    pc == SendEntered || pc == Sending || pc == SendLeaving
  }

  predicate Writing(pc: Pc) {
    pc == CloseEntered || pc == FinishEntered || pc == Closing || pc == FinishLeaving
  }

  ghost predicate Inv(s: State) {
    && (forall t: Tid :: t in s.readers <==> Reading(s.At(t)))
    && (forall t: Tid :: s.writer == Some(t) <==> Writing(s.At(t)))
    && (s.writer.Some? ==> s.readers == {})
    && (forall t: Tid :: s.At(t) == Sending ==> !s.closed)
    && s.closes == (if s.closed then 1 else 0)
  }

  lemma StepKeepsInv(s: State, e: Step)
    requires Inv(s) && Enabled(s, e)
    ensures Inv(Apply(s, e))
  {
    var s' := Apply(s, e);
    forall t: Tid ensures (t in s'.readers <==> Reading(s'.At(t))) && (s'.writer == Some(t) <==> Writing(s'.At(t)))
    {
      assert t in s.readers <==> Reading(s.At(t));
      assert s.writer == Some(t) <==> Writing(s.At(t));
      assert s.writer == Some(e.t) <==> Writing(s.At(e.t));
      assert e.t in s.readers <==> Reading(s.At(e.t));
    }
  }

  ghost predicate ValidRun(ss: seq<State>, es: seq<Step>) {
    && |ss| == |es| + 1 && ss[0] == INITIAL
    && forall i :: 0 <= i < |es| ==> Enabled(ss[i], es[i]) && ss[i + 1] == Apply(ss[i], es[i])
  }

  lemma {:induction false} RunKeepsInv(ss: seq<State>, es: seq<Step>, i: nat)
    requires ValidRun(ss, es) && i <= |es|
    ensures Inv(ss[i])
  {
    if i > 0 {
      RunKeepsInv(ss, es, i - 1);
      StepKeepsInv(ss[i - 1], es[i - 1]);
    }
  }

  /** The step issues Close on the handle. */
  predicate IssuesClose(s: State, e: Step) {
    e.CheckFinish? && !s.closed
  }

  /** The step issues Send on the handle. */
  predicate IssuesSend(s: State, e: Step) {
    e.CheckSend? && !s.closed
  }

  lemma {:induction false} ClosedStays(ss: seq<State>, es: seq<Step>, i: nat, j: nat)
    requires ValidRun(ss, es) && i <= j <= |es| && ss[i].closed
    ensures ss[j].closed
  {
    if i < j {
      ClosedStays(ss, es, i, j - 1);
    }
  }

  /**
   Once Close is issued, in whatever interleaving, no Send is under way, none is ever issued again, and
   neither is a second Close.
   */
  lemma CloseIsFinal(ss: seq<State>, es: seq<Step>, i: nat, j: nat, t: Tid)
    requires ValidRun(ss, es) && i < j <= |es| && IssuesClose(ss[i], es[i])
    ensures ss[i].At(t) != Sending && ss[j].At(t) != Sending
    ensures j < |es| ==> !IssuesSend(ss[j], es[j]) && !IssuesClose(ss[j], es[j])
  {
    RunKeepsInv(ss, es, i);
    RunKeepsInv(ss, es, i + 1);
    RunKeepsInv(ss, es, j);
    assert ss[i + 1] == Apply(ss[i], es[i]);
    ClosedStays(ss, es, i + 1, j);
    assert ss[i].writer == Some(es[i].t);
    assert t in ss[i].readers <==> Reading(ss[i].At(t));
  }

  /** At most one Close is ever issued. */
  lemma ClosedAtMostOnce(ss: seq<State>, es: seq<Step>, i: nat)
    requires ValidRun(ss, es) && i <= |es|
    ensures ss[i].closes <= 1
  {
    RunKeepsInv(ss, es, i);
  }

  // ---- Shutdown ----

  /** The step is the one by which close takes it upon itself to retire the handle. */
  predicate BeginsDraining(s: State, e: Step) {
    e.MarkClose? && !s.closed && !s.draining
  }

  lemma {:induction false} ClosedBetween(ss: seq<State>, es: seq<Step>, i: nat, j: nat)
    requires ValidRun(ss, es) && i <= j <= |es| && !ss[i].closed
    ensures ss[j].closed <==> exists k :: i <= k < j && IssuesClose(ss[k], es[k])
  {
    if i < j {
      ClosedBetween(ss, es, i, j - 1);
      if ss[j].closed && !ss[j - 1].closed {
        assert IssuesClose(ss[j - 1], es[j - 1]);
      }
      if k :| i <= k < j && IssuesClose(ss[k], es[k]) {
        ClosedStays(ss, es, k + 1, j);
      }
    }
  }

  /**
   Shutdown is not under the lock's protection. Issued at step j by the close that began draining at step i, it reaches
   a handle that is already closed if and only if a Close was issued in between.
   */
  lemma ShutdownReachesClosedIff(ss: seq<State>, es: seq<Step>, i: nat, j: nat)
    requires ValidRun(ss, es) && i < j < |es| && BeginsDraining(ss[i], es[i]) && es[j] == IssueShutdown(es[i].t)
    ensures ss[j].closed <==> exists k :: i < k < j && IssuesClose(ss[k], es[k])
  {
    assert !ss[i + 1].closed;
    ClosedBetween(ss, es, i + 1, j);
  }

  /** The check that would do: Shutdown finds the handle not yet closed if and only if the closed flag is unset. */
  lemma ShutdownIsSafeIffUnclosed(ss: seq<State>, es: seq<Step>, j: nat)
    requires ValidRun(ss, es) && j < |es| && es[j].IssueShutdown?
    ensures (forall k :: 0 <= k < j ==> !IssuesClose(ss[k], es[k])) <==> !ss[j].closed
    ensures ss[j].closes == 0 <==> !ss[j].closed
  {
    RunKeepsInv(ss, es, j);
    ClosedBetween(ss, es, 0, j);
  }

  /** And the flag checked under the lock stays as it is for as long as the lock is held: nobody else can close the handle. */
  lemma {:induction false} LockKeepsUnclosed(ss: seq<State>, es: seq<Step>, i: nat, j: nat, t: Tid)
    requires ValidRun(ss, es) && i <= j <= |es| && ss[i].writer == Some(t)
    requires forall k :: i <= k < j ==> es[k].t != t
    ensures ss[j].writer == Some(t) && ss[j].At(t) == ss[i].At(t) && ss[j].closed == ss[i].closed
  {
    if i < j {
      LockKeepsUnclosed(ss, es, i, j - 1, t);
      RunKeepsInv(ss, es, j - 1);
      OthersLeaveLock(ss[j - 1], es[j - 1], t);
    }
  }

  lemma OthersLeaveLock(s: State, e: Step, t: Tid)
    requires Inv(s) && Enabled(s, e) && s.writer == Some(t) && e.t != t
    ensures var r := Apply(s, e); r.writer == Some(t) && r.At(t) == s.At(t) && r.closed == s.closed
  {
    assert s.writer == Some(e.t) <==> Writing(s.At(e.t));
  }

  // ---- Each handle is shut down once, and closed in the end ----

  /** The thread has marked the handle draining and is about to issue Shutdown. */
  predicate Drains(s: State, t: Tid) {
    s.At(t) == Unlocked
  }

  /** While no close has begun draining nobody is about to issue Shutdown, and afterwards one thread at most is. */
  ghost predicate OneDrainer(s: State) {
    && (forall t: Tid :: Drains(s, t) ==> s.draining)
    && (forall t: Tid, u: Tid :: Drains(s, t) && Drains(s, u) ==> t == u)
  }

  ghost predicate Drained(s: State) {
    s.draining && forall t: Tid :: !Drains(s, t)
  }

  lemma DrainsStep(s: State, e: Step, t: Tid)
    requires Enabled(s, e)
    ensures Drains(Apply(s, e), t) ==> if t == e.t then BeginsDraining(s, e) else Drains(s, t)
    ensures s.draining || BeginsDraining(s, e) <==> Apply(s, e).draining
  {
  }

  lemma StepKeepsOneDrainer(s: State, e: Step)
    requires OneDrainer(s) && Enabled(s, e)
    ensures OneDrainer(Apply(s, e)) && (Drained(s) || e.IssueShutdown? ==> Drained(Apply(s, e)))
  {
    var s' := Apply(s, e);
    forall t: Tid ensures Drains(s', t) ==> if t == e.t then BeginsDraining(s, e) else Drains(s, t) {
      DrainsStep(s, e, t);
    }
    DrainsStep(s, e, e.t);
    assert e.IssueShutdown? ==> Drains(s, e.t);
  }

  lemma {:induction false} RunKeepsOneDrainer(ss: seq<State>, es: seq<Step>, i: nat)
    requires ValidRun(ss, es) && i <= |es|
    ensures OneDrainer(ss[i])
  {
    if i > 0 {
      RunKeepsOneDrainer(ss, es, i - 1);
      StepKeepsOneDrainer(ss[i - 1], es[i - 1]);
    }
  }

  lemma {:induction false} DrainedAfterShutdown(ss: seq<State>, es: seq<Step>, i: nat, j: nat)
    requires ValidRun(ss, es) && i < j <= |es| && es[i].IssueShutdown?
    ensures Drained(ss[j])
  {
    RunKeepsOneDrainer(ss, es, j - 1);
    StepKeepsOneDrainer(ss[j - 1], es[j - 1]);
    if i < j - 1 {
      DrainedAfterShutdown(ss, es, i, j - 1);
    }
  }

  /** However often close is called, Shutdown is issued at most once. */
  lemma ShutdownAtMostOnce(ss: seq<State>, es: seq<Step>, i: nat, j: nat)
    requires ValidRun(ss, es) && i < j < |es| && es[i].IssueShutdown?
    ensures !es[j].IssueShutdown?
  {
    DrainedAfterShutdown(ss, es, i, j);
    assert es[j].IssueShutdown? ==> Drains(ss[j], es[j].t);
  }

  /** On the way into finish, which cannot be left but by closing. */
  predicate MustFinish(s: State, t: Tid) {
    s.closed || s.At(t) == FinishWanted || s.At(t) == FinishEntered
  }

  lemma FinishStep(s: State, e: Step, t: Tid)
    requires Enabled(s, e) && MustFinish(s, t)
    ensures MustFinish(Apply(s, e), t)
  {
  }

  lemma {:induction false} FinishIsReached(ss: seq<State>, es: seq<Step>, i: nat, j: nat, t: Tid)
    requires ValidRun(ss, es) && i <= j <= |es| && MustFinish(ss[i], t)
    ensures MustFinish(ss[j], t)
  {
    if i < j {
      FinishIsReached(ss, es, i, j - 1, t);
      FinishStep(ss[j - 1], es[j - 1], t);
    }
  }

  /** A handle is not left open: when a failed Shutdown's thread, or anyone in finish, is done, the handle is closed. */
  lemma FailedShutdownCloses(ss: seq<State>, es: seq<Step>, i: nat, j: nat, t: Tid)
    requires ValidRun(ss, es) && i < j <= |es| && (es[i] == ShutdownReturns(t, false) || es[i] == EnterFinish(t))
    requires ss[j].At(t) == Idle
    ensures ss[j].closed
  {
    assert MustFinish(ss[i + 1], t);
    FinishIsReached(ss, es, i + 1, j, t);
  }

  ghost predicate Reachable(s: State) {
    exists ss, es :: ValidRun(ss, es) && ss[|es|] == s
  }

  lemma ReachStep(s: State, e: Step) returns (s': State)
    requires Reachable(s) && Enabled(s, e)
    ensures s' == Apply(s, e) && Reachable(s')
  {
    s' := Apply(s, e);
    var ss, es :| ValidRun(ss, es) && ss[|es|] == s;
    assert ValidRun(ss + [s'], es + [e]) && (ss + [s'])[|es + [e]|] == s';
  }

  lemma ReachUnlocked(t: Tid) returns (s: State)
    ensures Reachable(s) && s.pcs == map[t := Unlocked] && s.Free() && !s.closed
  {
    assert ValidRun([INITIAL], []) && [INITIAL][0] == INITIAL;
    s := ReachStep(INITIAL, EnterClose(t));
    s := ReachStep(s, MarkClose(t));
  }

  lemma ReachClosing(s: State, t: Tid) returns (s': State)
    requires Reachable(s) && s.At(t) == Idle && s.Free() && !s.closed
    ensures Reachable(s') && s' == s.(writer := Some(t), closed := true, closes := s.closes + 1).Move(t, Closing)
  {
    s' := ReachStep(s, EnterFinish(t));
    s' := ReachStep(s', CheckFinish(t));
    assert s'.pcs == s.pcs[t := Closing];
  }

  lemma ReachClosed(s: State, t: Tid) returns (s': State)
    requires Reachable(s) && s.At(t) == Idle && s.Free() && !s.closed
    ensures Reachable(s') && s'.pcs == s.pcs[t := Idle] && s'.Free() && s'.closed
  {
    s' := ReachClosing(s, t);
    s' := ReachStep(s', CloseReturns(t));
    s' := ReachStep(s', LeaveFinish(t));
  }

  /** As it is, the grace timer's or the loop's finish can come first: here Shutdown is issued on a closed handle. */
  lemma ShutdownCanBeOvertaken(closer: Tid, finisher: Tid)
    requires closer != finisher
    ensures exists s :: Reachable(s) && Enabled(s, IssueShutdown(closer)) && s.closed && s.writer == None
  {
    var s := ReachUnlocked(closer);
    s := ReachClosed(s, finisher);
    assert s.At(closer) == Unlocked;
  }
}
