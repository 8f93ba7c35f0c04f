/**
 The selection the engine keeps (internal/apptunnel/apptunnel_windows.go, SetApps and Suspend):
 which applications are routed, what the last selection was, and whose connections still have to be
 reset once interception runs again.
 */
module Selection {
  datatype Sel = Sel(apps: set<string>, lastSel: set<string>, pendingReset: set<string>, running: bool)

  const INITIAL := Sel({}, {}, {}, false)

  /** How far start() gets: the listener is busy, a capture handle cannot be opened, or all is up. */
  datatype Start = NoListener | NoCapture | Started

  datatype Op = SetApps(names: set<string>, start: Start) | Suspend | Stop

  function RunningAfter(s: Sel, names: set<string>, start: Start): bool {
    if names == {} then false else s.running || start == Started
  }

  function Apply(s: Sel, op: Op): Sel {
    match op
    case SetApps(names, start) =>
      var active := RunningAfter(s, names, start);
      Sel(names, names, if active || names == {} then {} else names, active)
    case Suspend =>
      Sel({}, s.lastSel, if s.apps != {} then s.apps else s.pendingReset, false)
    case Stop => s.(running := false)
  }

  /** The applications whose established connections the operation resets. */
  function Resets(s: Sel, op: Op): set<string> {
    match op
    case SetApps(names, start) =>
      if RunningAfter(s, names, start) then (names - s.lastSel) + (s.pendingReset * names) else {}
    case _ => {}
  }

  ghost predicate Consistent(s: Sel) {
    && (s.running ==> s.pendingReset == {} && s.lastSel == s.apps && s.apps != {})
    && (!s.running ==> s.lastSel <= s.pendingReset)
    && (s.apps != {} ==> s.lastSel == s.apps)
  }

  /** The state a run reaches. */
  ghost function After(ops: seq<Op>): Sel {
    if ops == [] then INITIAL else Apply(After(ops[..|ops| - 1]), ops[|ops| - 1])
  }

  /** Stop ends a run: the daemon calls it only while closing. */
  ghost predicate StopIsTerminal(ops: seq<Op>) {
    forall i :: 0 <= i < |ops| - 1 ==> ops[i] != Stop
  }

  ghost predicate Intercepted(ops: seq<Op>, k: nat, app: string)
    requires k <= |ops|
  {
    After(ops[..k]).running && app in After(ops[..k]).apps
  }

  ghost predicate ResetAt(ops: seq<Op>, k: nat, app: string)
    requires k < |ops|
  {
    app in Resets(After(ops[..k]), ops[k])
  }

  lemma AfterStep(ops: seq<Op>, k: nat)
    requires k < |ops|
    ensures After(ops[..k + 1]) == Apply(After(ops[..k]), ops[k])
  {
    assert ops[..k + 1][..k] == ops[..k];
  }

  /** SetApps and Suspend keep the tables consistent, whether or not interception starts. */
  lemma StepKeepsConsistent(s: Sel, op: Op)
    requires Consistent(s) && op != Stop
    ensures Consistent(Apply(s, op))
  {
  }

  lemma {:induction false} RunIsConsistent(ops: seq<Op>, k: nat)
    requires StopIsTerminal(ops) && k <= |ops|
    requires k == |ops| ==> k == 0 || ops[k - 1] != Stop
    ensures Consistent(After(ops[..k]))
  {
    if k > 0 {
      RunIsConsistent(ops, k - 1);
      AfterStep(ops, k - 1);
    }
  }

  /** Connections are reset exactly when an application passes from not intercepted to intercepted. */
  lemma ResetExactlyOnEntry(ops: seq<Op>, k: nat, app: string)
    requires StopIsTerminal(ops) && k < |ops|
    ensures ResetAt(ops, k, app) <==> !Intercepted(ops, k, app) && Intercepted(ops, k + 1, app)
  {
    RunIsConsistent(ops, k);
    AfterStep(ops, k);
  }

  /**
   The pull-in guarantee: an application that is intercepted now has had its connections reset, and has
   been intercepted ever since that reset.
   */
  lemma {:induction false} PulledIn(ops: seq<Op>, k: nat, app: string)
    requires StopIsTerminal(ops) && k <= |ops| && Intercepted(ops, k, app)
    ensures exists j :: 0 <= j < k && ResetAt(ops, j, app) && forall i :: j < i <= k ==> Intercepted(ops, i, app)
  {
    assert ops[..0] == [];
    ResetExactlyOnEntry(ops, k - 1, app);
    if Intercepted(ops, k - 1, app) {
      PulledIn(ops, k - 1, app);
    }
  }

  /** Re-applying the current selection while interception runs changes nothing and resets nobody. */
  lemma ReapplyIsQuiet(ops: seq<Op>, start: Start)
    requires StopIsTerminal(ops) && After(ops).running
    ensures var s := After(ops);
            Apply(s, SetApps(s.apps, start)) == s && Resets(s, SetApps(s.apps, start)) == {}
  {
    assert ops[..|ops|] == ops;
    RunIsConsistent(ops, |ops|);
  }

  /**
   Resuming from a state where interception does not run pulls every selected application in if and only
   if each of them that was selected last time is still waiting for its reset.
   */
  lemma ResumePullsAllIn(s: Sel, names: set<string>)
    requires !s.running && names != {}
    ensures Resets(s, SetApps(names, Started)) == names <==> names * s.lastSel <= s.pendingReset
  {
    if names * s.lastSel <= s.pendingReset {
      forall n | n in names ensures n in Resets(s, SetApps(names, Started)) {
      }
    } else {
      var n :| n in names * s.lastSel && n !in s.pendingReset;
      assert n !in Resets(s, SetApps(names, Started));
    }
  }

  /** Stop is not a pause: after it, exactly the applications it cut off would be resumed without a reset. */
  lemma StopForgets(ops: seq<Op>, names: set<string>)
    requires StopIsTerminal(ops) && After(ops).running && names != {}
    ensures Resets(Apply(After(ops), Stop), SetApps(names, Started)) == names - After(ops).apps
  {
    assert ops[..|ops|] == ops;
    RunIsConsistent(ops, |ops|);
  }

  /** A pause is: after it, every application is pulled in again, whatever is selected next. */
  lemma SuspendRemembers(ops: seq<Op>, names: set<string>)
    requires StopIsTerminal(ops) && (ops == [] || ops[|ops| - 1] != Stop) && names != {}
    ensures Resets(Apply(After(ops), Suspend), SetApps(names, Started)) == names
  {
    assert ops[..|ops|] == ops;
    RunIsConsistent(ops, |ops|);
    StepKeepsConsistent(After(ops), Suspend);
    ResumePullsAllIn(Apply(After(ops), Suspend), names);
  }

  // ---- The selection and the interception, by what was asked ----

  /** The operation replaces the selection. */
  predicate Selects(op: Op) {
    op.SetApps? || op.Suspend?
  }

  /** Operation j is the last before k to replace the selection. */
  ghost predicate LastSelection(ops: seq<Op>, j: nat, k: nat)
    requires k <= |ops|
  {
    j < k && Selects(ops[j]) && forall i: nat :: j < i < k ==> !Selects(ops[i])
  }

  /** Selected are the applications last asked for, and none while interception is paused. */
  lemma {:induction false} SelectedIsLastAsked(ops: seq<Op>, j: nat, k: nat)
    requires k <= |ops| && LastSelection(ops, j, k)
    ensures After(ops[..k]).apps == if ops[j].SetApps? then ops[j].names else {}
  {
    AfterStep(ops, k - 1);
    if j < k - 1 {
      SelectedIsLastAsked(ops, j, k - 1);
    }
  }

  predicate TurnsOn(op: Op) {
    op.SetApps? && op.names != {} && op.start == Started
  }

  predicate TurnsOff(op: Op) {
    op.Suspend? || op.Stop? || (op.SetApps? && op.names == {})
  }

  /** A start succeeded at operation j, and nothing has turned interception off since. */
  ghost predicate OnSince(ops: seq<Op>, j: nat, k: nat)
    requires k <= |ops|
  {
    j < k && TurnsOn(ops[j]) && forall i: nat :: j < i < k ==> !TurnsOff(ops[i])
  }

  /** Interception runs if and only if a start has succeeded that nothing has turned off since. */
  lemma {:induction false} RunningIffOn(ops: seq<Op>, k: nat)
    requires k <= |ops|
    ensures After(ops[..k]).running <==> exists j: nat :: OnSince(ops, j, k)
  {
    if k == 0 {
      assert ops[..0] == [];
    } else {
      AfterStep(ops, k - 1);
      RunningIffOn(ops, k - 1);
      OnExtends(ops, k - 1, k);
    }
  }

  lemma OnExtends(ops: seq<Op>, k: nat, next: nat)
    requires k < |ops| && next == k + 1
    ensures (exists j: nat :: OnSince(ops, j, next)) <==> TurnsOn(ops[k]) || ((exists j: nat :: OnSince(ops, j, k)) && !TurnsOff(ops[k]))
  {
    if TurnsOn(ops[k]) {
      assert OnSince(ops, k, next);
    } else if exists j: nat :: OnSince(ops, j, next) {
      var j: nat :| OnSince(ops, j, next);
      assert OnSince(ops, j, k);
    } else if j: nat :| OnSince(ops, j, k) {
      assert !TurnsOff(ops[k]) ==> OnSince(ops, j, next);
    }
  }
}
