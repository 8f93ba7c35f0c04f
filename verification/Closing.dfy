/**
 Closing the daemon while a reconcile is under way (internal/daemon/daemon.go, Close and reconcile) as a transition
 system. Any number of threads reconcile, one at a time past applyMu; Close does not take that lock. An operation of the
 engine is one step, as its own lock makes it.
 */
module Closing {
  import opened Basics
  import Selection
  import Supervisor

  type Tid = nat

  /** Where a reconcile stands. */
  datatype Pc =
    | Idle
    | Passed                            // it has found closing unset, and waits for applyMu
    | Locked                            // it holds applyMu
    | Applying(names: set<string>)      // it is about to call SetApps
    | Pausing                           // it is about to call Suspend

  datatype State = State(pcs: map<Tid, Pc>, holder: Option<Tid>, closing: bool, engine: Selection.Sel) {
    function At(t: Tid): Pc {
      if t in pcs then pcs[t] else Idle
    }

    function Move(t: Tid, pc: Pc): State {
      this.(pcs := pcs[t := pc])
    }

    function Asked(t: Tid, op: Selection.Op): State {
      this.(engine := Selection.Apply(engine, op), holder := None).Move(t, Idle)
    }
  }

  const INITIAL := State(map[], None, false, Selection.INITIAL)

  datatype Step =
    | Check(t: Tid)
    | Lock(t: Tid)
    | Read(t: Tid, selected: set<string>, tunnel: Supervisor.Tunnel)
    | Ask(t: Tid, start: Selection.Start)
    | SetClosing
    | StopEngine

  predicate Enabled(s: State, e: Step) {
    match e
    case Check(t) => s.At(t) == Idle
    case Lock(t) => s.At(t) == Passed && s.holder == None
    case Read(t, _, _) => s.At(t) == Locked
    case Ask(t, _) => s.At(t).Applying? || s.At(t).Pausing?
    case SetClosing => true
    case StopEngine => s.closing
  }

  function Apply(s: State, e: Step): State {
    match e
    case Check(t) => if s.closing then s else s.Move(t, Passed)
    case Lock(t) => s.(holder := Some(t)).Move(t, Locked)
    case Read(t, selected, tunnel) =>
      (match Supervisor.Wanted(selected, s.engine.running, tunnel, Selection.Started)
       case Some(SetApps(names, _)) => s.Move(t, Applying(names))
       case Some(_) => s.Move(t, Pausing)
       case None => s.(holder := None).Move(t, Idle))
    case Ask(t, start) =>
      s.Asked(t, if s.At(t).Applying? then Selection.SetApps(s.At(t).names, start) else Selection.Suspend)
    case SetClosing => s.(closing := true)
    case StopEngine => s.(engine := Selection.Apply(s.engine, Selection.Stop))
  }

  ghost predicate RunFrom(s: State, ss: seq<State>, es: seq<Step>) {
    && |ss| == |es| + 1 && ss[0] == s
    && forall i :: 0 <= i < |es| ==> Enabled(ss[i], es[i]) && ss[i + 1] == Apply(ss[i], es[i])
  }

  ghost predicate ValidRun(ss: seq<State>, es: seq<Step>) {
    RunFrom(INITIAL, ss, es)
  }

  predicate Holding(pc: Pc) {
    pc.Locked? || pc.Applying? || pc.Pausing?
  }

  ghost predicate Inv(s: State) {
    forall t: Tid :: s.holder == Some(t) <==> Holding(s.At(t))
  }

  lemma StepKeepsInv(s: State, e: Step)
    requires Inv(s) && Enabled(s, e)
    ensures Inv(Apply(s, e))
  {
    var s' := Apply(s, e);
    forall t: Tid ensures s'.holder == Some(t) <==> Holding(s'.At(t)) {
      assert s.holder == Some(t) <==> Holding(s.At(t));
      if !e.SetClosing? && !e.StopEngine? {
        assert s.holder == Some(e.t) <==> Holding(s.At(e.t));
      }
    }
  }

  /** At most one reconcile at a time is past the lock. */
  lemma {:induction false} OneHolder(ss: seq<State>, es: seq<Step>, i: nat)
    requires ValidRun(ss, es) && i <= |es|
    ensures Inv(ss[i])
  {
    if i > 0 {
      OneHolder(ss, es, i - 1);
      StepKeepsInv(ss[i - 1], es[i - 1]);
    }
  }

  lemma {:induction false} ClosingStays(ss: seq<State>, es: seq<Step>, i: nat, j: nat)
    requires ValidRun(ss, es) && i <= j <= |es| && ss[i].closing
    ensures ss[j].closing
  {
    if i < j {
      ClosingStays(ss, es, i, j - 1);
    }
  }

  // ---- Interception after Close ----

  /** The thread passed its check while closing was unset, and has been under way since. */
  ghost predicate PassedAt(ss: seq<State>, es: seq<Step>, c: nat, k: nat, t: Tid)
    requires |ss| == |es| + 1 && k <= |es|
  {
    c < k && es[c] == Check(t) && !ss[c].closing && forall m :: c < m <= k ==> ss[m].At(t) != Idle
  }

  /** A reconcile that asks anything of the engine passed its check before Close had set the flag. */
  lemma {:induction false} AskersPassed(ss: seq<State>, es: seq<Step>, k: nat, t: Tid)
    requires ValidRun(ss, es) && k <= |es| && ss[k].At(t) != Idle
    ensures exists c: nat :: PassedAt(ss, es, c, k, t)
  {
    if ss[k - 1].At(t) != Idle {
      AskersPassed(ss, es, k - 1, t);
      var c: nat :| PassedAt(ss, es, c, k - 1, t);
      assert PassedAt(ss, es, c, k, t);
    } else {
      assert PassedAt(ss, es, k - 1, k, t);
    }
  }

  /** The thread has a reconcile under way that may still start interception. */
  predicate MayStart(pc: Pc) {
    pc.Passed? || pc.Locked? || (pc.Applying? && pc.names != {})
  }

  /** A step that turns interception on. */
  predicate TurnsOn(s: State, e: Step) {
    !s.engine.running && Apply(s, e).engine.running
  }

  lemma StarterMayStart(s: State, e: Step)
    requires Enabled(s, e) && TurnsOn(s, e)
    ensures e.Ask? && e.start == Selection.Started && MayStart(s.At(e.t))
  {
  }

  /** Once the flag is set, whoever is not on the way to a start stays off it. */
  lemma {:induction false} NoLateStarters(ss: seq<State>, es: seq<Step>, i: nat, j: nat, t: Tid)
    requires ValidRun(ss, es) && i <= j <= |es| && ss[i].closing && !MayStart(ss[i].At(t))
    ensures !MayStart(ss[j].At(t))
  {
    if i < j {
      NoLateStarters(ss, es, i, j - 1, t);
      ClosingStays(ss, es, i, j - 1);
    }
  }

  /** The run goes on from s and ends with interception running. */
  ghost predicate CanStillRun(s: State) {
    exists ss: seq<State>, es: seq<Step> :: RunFrom(s, ss, es) && ss[|es|].engine.running
  }

  lemma RunFirst(s: State, e: Step)
    requires Enabled(s, e) && CanStillRun(Apply(s, e))
    ensures CanStillRun(s)
  {
    var s' := Apply(s, e);
    var ss: seq<State>, es: seq<Step> :| RunFrom(s', ss, es) && ss[|es|].engine.running;
    var ss', es' := [s] + ss, [e] + es;
    forall i | 0 <= i < |es'| ensures Enabled(ss'[i], es'[i]) && ss'[i + 1] == Apply(ss'[i], es'[i]) {
      if i > 0 {
        assert Enabled(ss[i - 1], es[i - 1]) && ss[i] == Apply(ss[i - 1], es[i - 1]);
      }
    }
    assert RunFrom(s, ss', es') && ss'[|es'|] == ss[|es|];
  }

  lemma RunningRuns(s: State)
    requires s.engine.running
    ensures CanStillRun(s)
  {
    assert RunFrom(s, [s], []) && [s][0].engine.running;
  }

  lemma ApplierCanRun(s: State, t: Tid)
    requires s.At(t).Applying? && s.At(t).names != {}
    ensures CanStillRun(s)
  {
    var e := Ask(t, Selection.Started);
    RunningRuns(Apply(s, e));
    RunFirst(s, e);
  }

  lemma LockedCanRun(s: State, t: Tid)
    requires s.At(t).Locked?
    ensures CanStillRun(s)
  {
    var e := Read(t, {"app.exe"}, Supervisor.Connected);
    var s' := Apply(s, e);
    assert "app.exe" in s'.At(t).names;
    ApplierCanRun(s', t);
    RunFirst(s, e);
  }

  lemma PassedCanRun(s: State, t: Tid)
    requires s.At(t).Passed? && s.holder == None
    ensures CanStillRun(s)
  {
    var e := Lock(t);
    LockedCanRun(Apply(s, e), t);
    RunFirst(s, e);
  }

  lemma StartersCanRun(s: State, t: Tid)
    requires Inv(s) && MayStart(s.At(t))
    ensures CanStillRun(s)
  {
    match s.holder
    case None => PassedCanRun(s, t);
    case Some(h) =>
      assert Holding(s.At(h));
      if s.At(h).Locked? {
        LockedCanRun(s, h);
      } else if MayStart(s.At(h)) {
        ApplierCanRun(s, h);
      } else {
        assert s.holder == Some(t) <==> Holding(s.At(t));
        var e := Ask(h, Selection.NoListener);
        var s' := Apply(s, e);
        assert s'.At(t) == s.At(t);
        PassedCanRun(s', t);
        RunFirst(s, e);
      }
  }

  /**
   The exact condition under which Close is final. With the flag set and interception stopped, it can come on again if and
   only if a reconcile that passed its check earlier is still on the way; no new one can join.
   */
  lemma OutlivesCloseIff(ss: seq<State>, es: seq<Step>, i: nat)
    requires ValidRun(ss, es) && i <= |es| && ss[i].closing && !ss[i].engine.running
    ensures CanStillRun(ss[i]) <==> exists t: Tid :: MayStart(ss[i].At(t))
  {
    OneHolder(ss, es, i);
    if t: Tid :| MayStart(ss[i].At(t)) {
      StartersCanRun(ss[i], t);
    } else if CanStillRun(ss[i]) {
      var rest: seq<State>, fs: seq<Step> :| RunFrom(ss[i], rest, fs) && rest[|fs|].engine.running;
      StaysOff(rest, fs, |fs|);
    }
  }

  lemma {:induction false} StaysOff(ss: seq<State>, es: seq<Step>, j: nat)
    requires |ss| == |es| + 1 && RunFrom(ss[0], ss, es) && j <= |es|
    requires ss[0].closing && !ss[0].engine.running && forall t: Tid :: !MayStart(ss[0].At(t))
    ensures ss[j].closing && !ss[j].engine.running && forall t: Tid :: !MayStart(ss[j].At(t))
  {
    if j > 0 {
      StaysOff(ss, es, j - 1);
      assert Enabled(ss[j - 1], es[j - 1]) && ss[j] == Apply(ss[j - 1], es[j - 1]);
      forall t: Tid ensures !MayStart(ss[j].At(t)) {
        assert !MayStart(ss[j - 1].At(t));
      }
      if TurnsOn(ss[j - 1], es[j - 1]) {
        StarterMayStart(ss[j - 1], es[j - 1]);
      }
    }
  }

  // ---- What the tunnel was when interception came on ----

  /** The reconcile of t read at step r what it is about to apply at step k. */
  ghost predicate ReadAt(ss: seq<State>, es: seq<Step>, r: nat, k: nat, t: Tid, names: set<string>)
    requires |ss| == |es| + 1 && k <= |es|
  {
    && r < k && es[r].Read? && es[r].t == t && es[r].selected == names
    && (forall m :: r < m <= k ==> ss[m].At(t) == Applying(names))
    && (names != {} && es[r].tunnel != Supervisor.Connected ==> ss[r].engine.running && es[r].tunnel == Supervisor.Connecting)
    && ((exists m :: r < m < k && es[m] == StopEngine) || ss[k].engine.running == ss[r].engine.running)
  }

  lemma {:induction false} AppliesWhatItRead(ss: seq<State>, es: seq<Step>, k: nat, t: Tid)
    requires ValidRun(ss, es) && k <= |es| && ss[k].At(t).Applying?
    ensures exists r: nat :: ReadAt(ss, es, r, k, t, ss[k].At(t).names)
  {
    var names := ss[k].At(t).names;
    if ss[k - 1].At(t) == ss[k].At(t) {
      AppliesWhatItRead(ss, es, k - 1, t);
      var r: nat :| ReadAt(ss, es, r, k - 1, t, names);
      OneHolder(ss, es, k - 1);
      OthersLeaveEngine(ss[k - 1], es[k - 1], t);
      if es[k - 1] == StopEngine {
        assert r < k - 1;
      } else if m :| r < m < k - 1 && es[m] == StopEngine {
        assert r < m < k;
      }
      assert ReadAt(ss, es, r, k, t, names);
    } else {
      assert ReadAt(ss, es, k - 1, k, t, names);
    }
  }

  /** While a reconcile holds the lock, only Close changes the engine. */
  lemma OthersLeaveEngine(s: State, e: Step, t: Tid)
    requires Inv(s) && Enabled(s, e) && Holding(s.At(t)) && Apply(s, e).At(t) == s.At(t)
    ensures e == StopEngine || Apply(s, e).engine == s.engine
  {
    assert s.holder == Some(t);
    assert e.Ask? ==> (s.holder == Some(e.t) <==> Holding(s.At(e.t)));
  }

  /** Step r is the reading by t that its call at step k follows, and what it read allows that call. */
  ghost predicate CameOnAfter(ss: seq<State>, es: seq<Step>, r: nat, k: nat, t: Tid)
    requires |ss| == |es| + 1 && k <= |es|
  {
    && r < k && es[r].Read? && es[r].t == t
    && (forall m :: r < m <= k ==> ss[m].At(t) == Applying(es[r].selected))
    && (|| es[r].tunnel == Supervisor.Connected
        || (es[r].tunnel == Supervisor.Connecting && ss[r].engine.running && exists m :: r < m < k && es[m] == StopEngine))
  }

  /**
   Interception comes on only for a reconcile that read the tunnel as connected; or as connecting, with interception then
   running, when Close stopped the engine between that reading and the call.
   */
  lemma ComesOnOnlyConnected(ss: seq<State>, es: seq<Step>, k: nat)
    requires ValidRun(ss, es) && k < |es| && TurnsOn(ss[k], es[k])
    ensures es[k].Ask?
    ensures exists r: nat :: CameOnAfter(ss, es, r, k, es[k].t)
  {
    StarterMayStart(ss[k], es[k]);
    var t := es[k].t;
    AppliesWhatItRead(ss, es, k, t);
    var r: nat :| ReadAt(ss, es, r, k, t, ss[k].At(t).names);
    assert CameOnAfter(ss, es, r, k, t);
  }

  // ---- It does outlive Close ----

  ghost predicate Leads(a: State, b: State) {
    exists ss: seq<State>, es: seq<Step> :: RunFrom(a, ss, es) && ss[|es|] == b
  }

  lemma LeadsNowhere(a: State)
    ensures Leads(a, a)
  {
    assert RunFrom(a, [a], []) && [a][0] == a;
  }

  lemma LeadsOn(a: State, s: State, e: Step) returns (s': State)
    requires Leads(a, s) && Enabled(s, e)
    ensures s' == Apply(s, e) && Leads(a, s')
  {
    s' := Apply(s, e);
    var ss: seq<State>, es: seq<Step> :| RunFrom(a, ss, es) && ss[|es|] == s;
    assert RunFrom(a, ss + [s'], es + [e]) && (ss + [s'])[|es + [e]|] == s';
  }

  /** From a pass of the check to the call of SetApps, with the tunnel connected. */
  lemma LeadsThroughApply(a: State, s: State, t: Tid, names: set<string>) returns (s': State)
    requires Leads(a, s) && s.At(t) == Passed && s.holder == None && names != {}
    ensures Leads(a, s') && s'.At(t) == Idle && s'.holder == None && s'.closing == s.closing
    ensures s'.engine == Selection.Apply(s.engine, Selection.SetApps(names, Selection.Started))
  {
    s' := LeadsOn(a, s, Lock(t));
    s' := LeadsOn(a, s', Read(t, names, Supervisor.Connected));
    s' := LeadsOn(a, s', Ask(t, Selection.Started));
  }

  /** Closing and stopped in s; in s' interception runs again for these applications, and none of them was reset. */
  predicate RestartedQuietly(s: State, s': State, names: set<string>) {
    var op := Selection.SetApps(names, Selection.Started);
    && s.closing && !s.engine.running && s'.closing && s'.engine.running && s'.engine.apps == names
    && s'.engine == Selection.Apply(s.engine, op) && Selection.Resets(s.engine, op) == {}
  }

  /**
   A reconcile that passes its check just before Close starts interception again after the engine was stopped, and
   pulls nobody in: the stop has forgotten that these applications were running.
   */
  lemma ReconcileOutlivesClose(t: Tid, names: set<string>)
    requires names != {}
    ensures exists s, s' :: Leads(INITIAL, s) && Leads(s, s') && RestartedQuietly(s, s', names)
  {
    LeadsNowhere(INITIAL);
    var s := LeadsOn(INITIAL, INITIAL, Check(t));
    s := LeadsThroughApply(INITIAL, s, t, names);
    s := LeadsOn(INITIAL, s, Check(t));
    s := LeadsOn(INITIAL, s, SetClosing);
    s := LeadsOn(INITIAL, s, StopEngine);
    LeadsNowhere(s);
    var s' := LeadsThroughApply(s, s, t, names);
    assert Leads(INITIAL, s) && Leads(s, s') && RestartedQuietly(s, s', names);
  }
}
