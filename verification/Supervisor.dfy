/**
 The daemon's once-a-second tick (internal/daemon/daemon.go): it rebuilds a tunnel that stays down, gives up
 after a bounded number of attempts, and switches interception on and off with the tunnel.
 Times are nanoseconds. A tick or a command is one step; Closing takes the steps of reconcile apart.
 */
module Supervisor {
  import opened Basics
  import Selection

  const RECONNECT_AFTER := 15_000_000_000
  const MAX_REBUILDS := 6
  const START_RETRY := 10_000_000_000
  const MAX_STARTS := 6

  datatype Tunnel = Disconnected | Connecting | Connected

  /** engine is the interception engine's selection, and ops the transitions asked of it so far. */
  datatype Daemon = Daemon(wanted: bool, fails: nat, downSince: Option<int>, selected: set<string>,
                           lastState: Option<Tunnel>, tries: nat, lastTry: Option<int>, closing: bool,
                           engine: Selection.Sel, ops: seq<Selection.Op>)

  function Fresh(wanted: bool, selected: set<string>): Daemon {
    Daemon(wanted, 0, None, selected, None, 0, None, false, Selection.INITIAL, [])
  }

  function Ask(d: Daemon, op: Selection.Op): Daemon {
    d.(engine := Selection.Apply(d.engine, op), ops := d.ops + [op])
  }

  /** What the tick does about the tunnel. */
  datatype Action = Nothing | Rebuild | GiveUp

  /**
   seen is the tunnel state a tick or command reads, reconciled what reconcile reads; config says whether a
   configuration can be loaded, ok whether connecting succeeds, and start how a start of interception ends.
   */
  datatype Event =
    | Tick(now: int, seen: Tunnel, reconciled: Tunnel, config: bool, start: Selection.Start)
    | Connect(ok: bool)
    | Import(ok: bool)
    | Disconnect(start: Selection.Start)
    | SetApps(names: set<string>, reconciled: Tunnel, start: Selection.Start)
    | Close

  // ---- Reconcile ----

  /** The transition reconcile asks for, if any. */
  function Wanted(selected: set<string>, active: bool, state: Tunnel, start: Selection.Start): Option<Selection.Op> {
    if selected == {} then Some(Selection.SetApps({}, start))
    else if state == Disconnected then Some(Selection.Suspend)
    else if state == Connected || active then Some(Selection.SetApps(selected, start))
    else None
  }

  function Reconcile(d: Daemon, state: Tunnel, start: Selection.Start): Daemon {
    if d.closing then d
    else match Wanted(d.selected, d.engine.running, state, start)
      case Some(op) => Ask(d, op)
      case None => d
  }

  // ---- Supervision ----

  predicate Attempts(d: Daemon, seen: Tunnel, now: int, config: bool) {
    && d.wanted && seen != Connected && d.fails < MAX_REBUILDS
    && d.downSince.Some? && now - d.downSince.value >= RECONNECT_AFTER && config
  }

  function Decide(d: Daemon, seen: Tunnel, now: int, config: bool): Action {
    if !Attempts(d, seen, now, config) then Nothing
    else if d.fails + 1 >= MAX_REBUILDS then GiveUp
    else Rebuild
  }

  function Supervise(d: Daemon, seen: Tunnel, now: int, config: bool, start: Selection.Start): Daemon {
    if !d.wanted || seen == Connected then d.(downSince := None, fails := 0)
    else if d.fails >= MAX_REBUILDS then d
    else if d.downSince.None? then d.(downSince := Some(now))
    else if now - d.downSince.value < RECONNECT_AFTER then d
    else
      var d1 := d.(downSince := Some(now));
      match Decide(d, seen, now, config)
      case Nothing => d1
      case Rebuild => d1.(fails := d.fails + 1)
      case GiveUp => Reconcile(d1.(fails := d.fails + 1), Disconnected, start)
  }

  // ---- The tick ----

  /** A failed start of interception is tried again. */
  predicate Retries(d: Daemon, ev: Event) {
    && ev.Tick? && d.lastState == Some(ev.seen) && ev.seen == Connected && !d.engine.running
    && d.selected != {} && d.tries < MAX_STARTS && (d.lastTry.None? || ev.now - d.lastTry.value >= START_RETRY)
  }

  function Follow(d: Daemon, ev: Event): Daemon
    requires ev.Tick?
  {
    if d.lastState != Some(ev.seen) then
      Reconcile(d.(lastState := Some(ev.seen), tries := 0, lastTry := None), ev.reconciled, ev.start)
    else if Retries(d, ev) then
      Reconcile(d.(tries := d.tries + 1, lastTry := Some(ev.now)), ev.reconciled, ev.start)
    else d
  }

  function Apply(d: Daemon, ev: Event): Daemon {
    match ev
    case Tick(now, seen, _, config, start) => Supervise(Follow(d, ev), seen, now, config, start)
    case Connect(ok) => if ok then d.(wanted := true, fails := 0) else d
    case Import(ok) => if ok then d.(wanted := true, fails := 0) else d
    case Disconnect(start) => Reconcile(d.(wanted := false), Disconnected, start)
    case SetApps(names, state, start) => Reconcile(d.(selected := names), state, start)
    case Close => if d.closing then d else Ask(d, Selection.Stop).(closing := true)
  }

  /** What a step does about the tunnel. */
  function ActionOf(d: Daemon, ev: Event): Action {
    if ev.Tick? then Decide(d, ev.seen, ev.now, ev.config) else Nothing
  }

  /** The events after which the supervisor starts counting again. */
  predicate Resets(d: Daemon, ev: Event) {
    match ev
    case Tick(_, seen, _, _, _) => !d.wanted || seen == Connected
    case Connect(ok) => ok
    case Import(ok) => ok
    case _ => false
  }

  /** Reading the clock never goes back. */
  ghost predicate ValidRun(ds: seq<Daemon>, es: seq<Event>) {
    && |ds| == |es| + 1 && ds[0] == Fresh(ds[0].wanted, ds[0].selected)
    && (forall i :: 0 <= i < |es| ==> ds[i + 1] == Apply(ds[i], es[i]))
    && (forall i, j :: 0 <= i < j < |es| && es[i].Tick? && es[j].Tick? ==> es[i].now <= es[j].now)
  }

  /** Following the tunnel does not touch what supervision counts. */
  lemma FollowKeepsCounters(d: Daemon, ev: Event)
    requires ev.Tick?
    ensures var f := Follow(d, ev); f.wanted == d.wanted && f.fails == d.fails && f.downSince == d.downSince
  {
  }

  /** One step, as the supervisor's counters see it. */
  lemma CountersStep(d: Daemon, ev: Event)
    requires d.fails <= MAX_REBUILDS
    ensures Apply(d, ev).fails ==
              if Resets(d, ev) then 0 else if ActionOf(d, ev) != Nothing then d.fails + 1 else d.fails
    ensures Apply(d, ev).fails <= MAX_REBUILDS
    ensures Apply(d, ev).downSince ==
              if !ev.Tick? then d.downSince
              else if Resets(d, ev) then None
              else if d.fails < MAX_REBUILDS
                      && (d.downSince.None? || ev.now - d.downSince.value >= RECONNECT_AFTER) then Some(ev.now)
              else d.downSince
  {
    if ev.Tick? {
      FollowKeepsCounters(d, ev);
    }
  }

  lemma {:induction false} FailsBounded(ds: seq<Daemon>, es: seq<Event>, i: nat)
    requires ValidRun(ds, es) && i <= |es|
    ensures ds[i].fails <= MAX_REBUILDS
  {
    if i > 0 {
      FailsBounded(ds, es, i - 1);
      CountersStep(ds[i - 1], es[i - 1]);
    }
  }

  ghost function CountOf(ds: seq<Daemon>, es: seq<Event>, i: nat, j: nat, a: Action): nat
    requires |ds| == |es| + 1 && i <= j <= |es|
  {
    if i == j then 0 else CountOf(ds, es, i, j - 1, a) + if ActionOf(ds[j - 1], es[j - 1]) == a then 1 else 0
  }

  ghost predicate NoReset(ds: seq<Daemon>, es: seq<Event>, i: nat, j: nat)
    requires |ds| == |es| + 1 && i <= j <= |es|
  {
    forall k :: i <= k < j ==> !Resets(ds[k], es[k])
  }

  lemma {:induction false} FailsCountAttempts(ds: seq<Daemon>, es: seq<Event>, i: nat, j: nat)
    requires ValidRun(ds, es) && i <= j <= |es| && NoReset(ds, es, i, j)
    ensures ds[j].fails == ds[i].fails + CountOf(ds, es, i, j, Rebuild) + CountOf(ds, es, i, j, GiveUp)
    ensures CountOf(ds, es, i, j, GiveUp) == if ds[i].fails < MAX_REBUILDS && ds[j].fails == MAX_REBUILDS then 1 else 0
  {
    if i < j {
      FailsCountAttempts(ds, es, i, j - 1);
      FailsBounded(ds, es, j - 1);
      CountersStep(ds[j - 1], es[j - 1]);
    }
  }

  /**
   Between resets the supervisor rebuilds the tunnel at most five times and gives it up at most once, and
   it gives up only after all five rebuilds since the counters were last at zero.
   */
  lemma BoundedRebuilds(ds: seq<Daemon>, es: seq<Event>, i: nat, j: nat)
    requires ValidRun(ds, es) && i <= j <= |es| && NoReset(ds, es, i, j)
    ensures CountOf(ds, es, i, j, Rebuild) <= MAX_REBUILDS - 1
    ensures CountOf(ds, es, i, j, GiveUp) <= 1
    ensures ds[i].fails == 0 && CountOf(ds, es, i, j, GiveUp) == 1 ==> CountOf(ds, es, i, j, Rebuild) == MAX_REBUILDS - 1
  {
    FailsBounded(ds, es, j);
    FailsCountAttempts(ds, es, i, j);
  }

  /** Having given up, it stays quiet until a reset. */
  lemma {:induction false} QuietAfterGivingUp(ds: seq<Daemon>, es: seq<Event>, i: nat, j: nat)
    requires ValidRun(ds, es) && i < j <= |es| && ActionOf(ds[i], es[i]) == GiveUp && NoReset(ds, es, i, j)
    ensures ds[j].fails == MAX_REBUILDS
    ensures j < |es| ==> ActionOf(ds[j], es[j]) == Nothing
  {
    if i + 1 < j {
      QuietAfterGivingUp(ds, es, i, j - 1);
    }
    FailsBounded(ds, es, j - 1);
    CountersStep(ds[j - 1], es[j - 1]);
  }

  lemma {:induction false} DeadlineAfterAttempt(ds: seq<Daemon>, es: seq<Event>, i: nat, j: nat)
    requires ValidRun(ds, es) && i < j <= |es| && ActionOf(ds[i], es[i]) != Nothing
    ensures ds[j].downSince.Some? ==> ds[j].downSince.value >= es[i].now
  {
    if i + 1 < j {
      DeadlineAfterAttempt(ds, es, i, j - 1);
    }
    FailsBounded(ds, es, j - 1);
    CountersStep(ds[j - 1], es[j - 1]);
  }

  /** Any two attempts, resets or not, are at least fifteen seconds apart. */
  lemma AttemptsAreSpaced(ds: seq<Daemon>, es: seq<Event>, i: nat, j: nat)
    requires ValidRun(ds, es) && i < j < |es|
    requires ActionOf(ds[i], es[i]) != Nothing && ActionOf(ds[j], es[j]) != Nothing
    ensures es[j].now - es[i].now >= RECONNECT_AFTER
  {
    DeadlineAfterAttempt(ds, es, i, j);
  }

  /**
   Pressing Connect restarts the count but not the clock: the first tick after it already rebuilds the
   tunnel just connected if and only if the deadline left over from before has passed.
   */
  lemma ConnectKeepsDeadline(d: Daemon, now: int, seen: Tunnel, reconciled: Tunnel, config: bool, start: Selection.Start)
    requires seen != Connected
    ensures ActionOf(Apply(d, Connect(true)), Tick(now, seen, reconciled, config, start)) == Rebuild
       <==> config && d.downSince.Some? && now - d.downSince.value >= RECONNECT_AFTER
  {
  }

  lemma {:induction false} GivingUpLeavesDeadline(ds: seq<Daemon>, es: seq<Event>, i: nat, j: nat)
    requires ValidRun(ds, es) && i < j <= |es| && ActionOf(ds[i], es[i]) == GiveUp && NoReset(ds, es, i, j)
    ensures ds[j].downSince == Some(es[i].now)
  {
    if i + 1 < j {
      GivingUpLeavesDeadline(ds, es, i, j - 1);
      QuietAfterGivingUp(ds, es, i, j - 1);
      DeadlineStays(ds[j - 1], es[j - 1]);
    } else {
      FailsBounded(ds, es, i);
      CountersStep(ds[i], es[i]);
    }
  }

  lemma DeadlineStays(d: Daemon, ev: Event)
    requires d.fails == MAX_REBUILDS && !Resets(d, ev)
    ensures Apply(d, ev).downSince == d.downSince
  {
    CountersStep(d, ev);
  }

  /** So a Connect pressed fifteen seconds or more after giving up has its tunnel rebuilt on the very next tick. */
  lemma ConnectAfterGivingUpRebuildsAtOnce(ds: seq<Daemon>, es: seq<Event>, i: nat, j: nat)
    requires ValidRun(ds, es) && i < j < |es| - 1 && ActionOf(ds[i], es[i]) == GiveUp && NoReset(ds, es, i, j)
    requires es[j] == Connect(true) && es[j + 1].Tick? && es[j + 1].seen != Connected && es[j + 1].config
    requires es[j + 1].now - es[i].now >= RECONNECT_AFTER
    ensures ActionOf(ds[j + 1], es[j + 1]) == Rebuild
  {
    GivingUpLeavesDeadline(ds, es, i, j);
    assert ds[j + 1] == Apply(ds[j], es[j]);
  }

  // ---- Retrying a failed start ----

  ghost function RetryCount(ds: seq<Daemon>, es: seq<Event>, i: nat, j: nat): nat
    requires |ds| == |es| + 1 && i <= j <= |es|
  {
    if i == j then 0 else RetryCount(ds, es, i, j - 1) + if Retries(ds[j - 1], es[j - 1]) then 1 else 0
  }

  predicate StateChanges(d: Daemon, ev: Event) {
    ev.Tick? && d.lastState != Some(ev.seen)
  }

  lemma TriesStep(d: Daemon, ev: Event)
    ensures var d' := Apply(d, ev);
            if StateChanges(d, ev) then d'.tries == 0 && d'.lastTry == None
            else if Retries(d, ev) then d'.tries == d.tries + 1 <= MAX_STARTS && d'.lastTry == Some(ev.now)
            else d'.tries == d.tries && d'.lastTry == d.lastTry
  {
  }

  lemma {:induction false} TriesCountRetries(ds: seq<Daemon>, es: seq<Event>, i: nat, j: nat)
    requires ValidRun(ds, es) && i <= j <= |es| && forall k :: i <= k < j ==> !StateChanges(ds[k], es[k])
    ensures ds[j].tries == ds[i].tries + RetryCount(ds, es, i, j)
    ensures RetryCount(ds, es, i, j) > 0 ==> ds[j].tries <= MAX_STARTS
  {
    if i < j {
      TriesCountRetries(ds, es, i, j - 1);
      TriesStep(ds[j - 1], es[j - 1]);
    }
  }

  lemma {:induction false} LastTryRecent(ds: seq<Daemon>, es: seq<Event>, i: nat, j: nat)
    requires ValidRun(ds, es) && i < j <= |es| && Retries(ds[i], es[i])
    requires forall k :: i <= k < j ==> !StateChanges(ds[k], es[k])
    ensures ds[j].lastTry.Some? && ds[j].lastTry.value >= es[i].now
  {
    TriesStep(ds[j - 1], es[j - 1]);
    if i + 1 < j {
      LastTryRecent(ds, es, i, j - 1);
    }
  }

  /** While the tunnel state stays the same, a failed start is retried at most six times, ten seconds apart. */
  lemma BoundedStartRetries(ds: seq<Daemon>, es: seq<Event>, i: nat, j: nat)
    requires ValidRun(ds, es) && i <= j <= |es| && forall k :: i <= k < j ==> !StateChanges(ds[k], es[k])
    ensures RetryCount(ds, es, i, j) <= MAX_STARTS
    ensures forall k, l :: i <= k < l < j && Retries(ds[k], es[k]) && Retries(ds[l], es[l]) ==>
                             es[l].now - es[k].now >= START_RETRY
  {
    TriesCountRetries(ds, es, i, j);
    forall k, l | i <= k < l < j && Retries(ds[k], es[k]) && Retries(ds[l], es[l])
      ensures es[l].now - es[k].now >= START_RETRY
    {
      LastTryRecent(ds, es, k, l);
    }
  }

  // ---- Interception follows the tunnel ----

  /** The tunnel state the step's reconcile acts on, before a possible giving up. */
  function Reconciled(ev: Event): Tunnel {
    match ev
    case Tick(_, _, state, _, _) => state
    case SetApps(_, state, _) => state
    case _ => Disconnected
  }

  lemma ReconcileGates(d: Daemon, state: Tunnel, start: Selection.Start)
    ensures var r := Reconcile(d, state, start).engine;
            && (r.running && !d.engine.running ==> state == Connected && !d.closing)
            && (state == Disconnected && !d.closing ==> !r.running)
            && (r.running && !d.closing ==> r.apps == d.selected)
  {
  }

  /** Interception comes on only in a step whose reconcile sees the tunnel connected. */
  lemma ComesOnOnlyConnected(d: Daemon, ev: Event)
    requires !d.engine.running && Apply(d, ev).engine.running
    ensures (ev.Tick? || ev.SetApps?) && Reconciled(ev) == Connected && !d.closing
  {
    match ev
    case Tick(now, seen, state, config, start) =>
      var f := Follow(d, ev);
      FollowGates(d, ev);
      SuperviseGates(f, seen, now, config, start);
    case Disconnect(start) => ReconcileGates(d.(wanted := false), Disconnected, start);
    case SetApps(names, state, start) => ReconcileGates(d.(selected := names), state, start);
    case _ =>
  }

  lemma FollowGates(d: Daemon, ev: Event)
    requires ev.Tick?
    ensures !d.engine.running && Follow(d, ev).engine.running ==> ev.reconciled == Connected && !d.closing
    ensures StateChanges(d, ev) && ev.reconciled == Disconnected && !d.closing ==> !Follow(d, ev).engine.running
  {
    if StateChanges(d, ev) {
      ReconcileGates(d.(lastState := Some(ev.seen), tries := 0, lastTry := None), ev.reconciled, ev.start);
    } else if Retries(d, ev) {
      ReconcileGates(d.(tries := d.tries + 1, lastTry := Some(ev.now)), ev.reconciled, ev.start);
    }
  }

  lemma SuperviseGates(d: Daemon, seen: Tunnel, now: int, config: bool, start: Selection.Start)
    ensures Supervise(d, seen, now, config, start).engine.running ==> d.engine.running
    ensures Decide(d, seen, now, config) == GiveUp && !d.closing ==> !Supervise(d, seen, now, config, start).engine.running
  {
    ReconcileGates(d.(downSince := Some(now), fails := d.fails + 1), Disconnected, start);
  }

  /** The steps in which the daemon finds the tunnel down, or takes it down: they leave interception off. */
  lemma GoesOffWhenDown(d: Daemon, ev: Event)
    requires !d.closing
    requires || ev.Disconnect?
             || (ev.SetApps? && ev.reconciled == Disconnected)
             || (ev.Tick? && StateChanges(d, ev) && ev.reconciled == Disconnected)
             || ActionOf(d, ev) == GiveUp
    ensures !Apply(d, ev).engine.running
  {
    match ev
    case Tick(now, seen, state, config, start) =>
      FollowKeepsCounters(d, ev);
      FollowGates(d, ev);
      SuperviseGates(Follow(d, ev), seen, now, config, start);
      assert !Follow(d, ev).closing;
    case Disconnect(start) => ReconcileGates(d.(wanted := false), Disconnected, start);
    case SetApps(names, state, start) => ReconcileGates(d.(selected := names), state, start);
  }

  /** The engine is where its transitions took it; closing is final, and until then it is never stopped for good. */
  ghost predicate StopsOnlyToClose(d: Daemon) {
    && d.engine == Selection.After(d.ops)
    && Selection.StopIsTerminal(d.ops)
    && (!d.closing ==> forall i :: 0 <= i < |d.ops| ==> d.ops[i] != Selection.Stop)
  }

  lemma StepStopsOnlyToClose(d: Daemon, ev: Event)
    requires StopsOnlyToClose(d)
    ensures StopsOnlyToClose(Apply(d, ev))
    ensures d.closing ==> Apply(d, ev).ops == d.ops && Apply(d, ev).closing
  {
    match ev
    case Tick(now, seen, state, config, start) =>
      FollowStops(d, ev);
      SuperviseStops(Follow(d, ev), seen, now, config, start);
    case Disconnect(start) => ReconcileStops(d.(wanted := false), Disconnected, start);
    case SetApps(names, state, start) => ReconcileStops(d.(selected := names), state, start);
    case Close => AskAppends(d, Selection.Stop);
    case _ =>
  }

  lemma FollowStops(d: Daemon, ev: Event)
    requires StopsOnlyToClose(d) && ev.Tick?
    ensures StopsOnlyToClose(Follow(d, ev))
    ensures Follow(d, ev).closing == d.closing && (d.closing ==> Follow(d, ev).ops == d.ops)
  {
    ReconcileStops(d.(lastState := Some(ev.seen), tries := 0, lastTry := None), ev.reconciled, ev.start);
    ReconcileStops(d.(tries := d.tries + 1, lastTry := Some(ev.now)), ev.reconciled, ev.start);
  }

  lemma SuperviseStops(d: Daemon, seen: Tunnel, now: int, config: bool, start: Selection.Start)
    requires StopsOnlyToClose(d)
    ensures var r := Supervise(d, seen, now, config, start);
            StopsOnlyToClose(r) && r.closing == d.closing && (d.closing ==> r.ops == d.ops)
  {
    var r := Supervise(d, seen, now, config, start);
    SuperviseAsks(d, seen, now, config, start);
    if SameEngine(d, r) {
      SameEngineStops(d, r);
    } else {
      var d1 := d.(downSince := Some(now), fails := d.fails + 1);
      SameEngineStops(d, d1);
      ReconcileStops(d1, Disconnected, start);
    }
  }

  predicate SameEngine(d: Daemon, r: Daemon) {
    r.engine == d.engine && r.ops == d.ops && r.closing == d.closing
  }

  lemma SameEngineStops(d: Daemon, r: Daemon)
    requires StopsOnlyToClose(d) && SameEngine(d, r)
    ensures StopsOnlyToClose(r)
  {
  }

  /** Supervision asks something of the engine only when it gives up. */
  lemma SuperviseAsks(d: Daemon, seen: Tunnel, now: int, config: bool, start: Selection.Start)
    ensures var r := Supervise(d, seen, now, config, start);
            SameEngine(d, r) || r == Reconcile(d.(downSince := Some(now), fails := d.fails + 1), Disconnected, start)
  {
  }

  lemma AskAppends(d: Daemon, op: Selection.Op)
    requires d.engine == Selection.After(d.ops)
    ensures Ask(d, op).engine == Selection.After(Ask(d, op).ops)
  {
    assert (d.ops + [op])[..|d.ops|] == d.ops;
  }

  lemma ReconcileStops(d: Daemon, state: Tunnel, start: Selection.Start)
    requires StopsOnlyToClose(d)
    ensures var r := Reconcile(d, state, start);
            StopsOnlyToClose(r) && r.closing == d.closing && (d.closing ==> r.ops == d.ops)
  {
    var op := Wanted(d.selected, d.engine.running, state, start);
    if op.Some? {
      AskAppends(d, op.value);
    }
  }

  lemma {:induction false} RunStopsOnlyToClose(ds: seq<Daemon>, es: seq<Event>, i: nat)
    requires ValidRun(ds, es) && i <= |es|
    ensures StopsOnlyToClose(ds[i])
  {
    if i > 0 {
      RunStopsOnlyToClose(ds, es, i - 1);
      StepStopsOnlyToClose(ds[i - 1], es[i - 1]);
    }
  }

  /**
   The daemon and the engine together: over every run of ticks and commands, an application that is
   intercepted has had its connections reset since it was last not intercepted.
   */
  lemma DaemonPullsIn(ds: seq<Daemon>, es: seq<Event>, i: nat, app: string)
    requires ValidRun(ds, es) && i <= |es| && ds[i].engine.running && app in ds[i].engine.apps
    ensures var ops := ds[i].ops;
            exists j :: 0 <= j < |ops| && Selection.ResetAt(ops, j, app)
                        && forall k :: j < k <= |ops| ==> Selection.Intercepted(ops, k, app)
  {
    RunStopsOnlyToClose(ds, es, i);
    var ops := ds[i].ops;
    assert ops[..|ops|] == ops;
    Selection.PulledIn(ops, |ops|, app);
  }

  /** What is intercepted is what the user selected, until the daemon closes. */
  lemma {:induction false} InterceptsSelection(ds: seq<Daemon>, es: seq<Event>, i: nat)
    requires ValidRun(ds, es) && i <= |es| && ds[i].engine.running && !ds[i].closing
    ensures ds[i].engine.apps == ds[i].selected
  {
    if i > 0 {
      if ds[i - 1].engine.running && !ds[i - 1].closing {
        InterceptsSelection(ds, es, i - 1);
      }
      StepInterceptsSelection(ds[i - 1], es[i - 1]);
    }
  }

  lemma StepInterceptsSelection(d: Daemon, ev: Event)
    requires d.engine.running && !d.closing ==> d.engine.apps == d.selected
    ensures var r := Apply(d, ev); r.engine.running && !r.closing ==> r.engine.apps == r.selected
  {
    match ev
    case Tick(now, seen, state, config, start) =>
      var f := Follow(d, ev);
      ReconcileGates(d.(lastState := Some(seen), tries := 0, lastTry := None), state, start);
      ReconcileGates(d.(tries := d.tries + 1, lastTry := Some(now)), state, start);
      ReconcileGates(f.(downSince := Some(now), fails := f.fails + 1), Disconnected, start);
    case Disconnect(start) => ReconcileGates(d.(wanted := false), Disconnected, start);
    case SetApps(names, state, start) => ReconcileGates(d.(selected := names), state, start);
    case _ =>
  }

  /** A tunnel that merely reconnects, without being found down, resets nobody and keeps interception as it is. */
  lemma ReconnectIsQuiet(ds: seq<Daemon>, es: seq<Event>, i: nat, state: Tunnel, start: Selection.Start)
    requires ValidRun(ds, es) && i <= |es| && !ds[i].closing && ds[i].engine.running
    requires state != Disconnected
    ensures Reconcile(ds[i], state, start).engine == ds[i].engine
    ensures Wanted(ds[i].selected, true, state, start).Some?
    ensures Selection.Resets(ds[i].engine, Wanted(ds[i].selected, true, state, start).value) == {}
  {
    RunStopsOnlyToClose(ds, es, i);
    var ops := ds[i].ops;
    assert ops[..|ops|] == ops;
    Selection.RunIsConsistent(ops, |ops|);
    InterceptsSelection(ds, es, i);
    Selection.ReapplyIsQuiet(ops, start);
  }

  // ---- The daemon's fields ----

  class Service {
    var tunnelWanted: bool
    var rebuildFails: nat
    var downSince: Option<int>
    var selApps: set<string>
    var lastState: Option<Tunnel>
    var startTries: nat
    var lastStartTry: Option<int>
    var closing: bool
    var engine: Selection.Sel
    ghost var ops: seq<Selection.Op>

    ghost function View(): Daemon
      reads this
    {
      Daemon(tunnelWanted, rebuildFails, downSince, selApps, lastState, startTries, lastStartTry, closing, engine, ops)
    }

    constructor (wanted: bool, selected: set<string>)
      ensures View() == Fresh(wanted, selected)
    {
      tunnelWanted, rebuildFails, downSince, selApps := wanted, 0, None, selected;
      lastState, startTries, lastStartTry, closing := None, 0, None, false;
      engine, ops := Selection.INITIAL, [];
    }

    method DoAsk(op: Selection.Op)
      modifies this`engine, this`ops
      ensures View() == Ask(old(View()), op)
    {
      engine := Selection.Apply(engine, op);
      ops := ops + [op];
    }

    method DoReconcile(state: Tunnel, start: Selection.Start)
      modifies this`engine, this`ops
      ensures View() == Reconcile(old(View()), state, start)
    {
      if closing {
        return;
      }
      if selApps == {} {
        DoAsk(Selection.SetApps({}, start));
      } else if state == Disconnected {
        DoAsk(Selection.Suspend);
      } else if state == Connected || engine.running {
        DoAsk(Selection.SetApps(selApps, start));
      }
    }

    method SuperviseTunnel(seen: Tunnel, now: int, config: bool, start: Selection.Start) returns (action: Action)
      modifies this`rebuildFails, this`downSince, this`engine, this`ops
      ensures View() == Supervise(old(View()), seen, now, config, start)
      ensures action == Decide(old(View()), seen, now, config)
    {
      action := Nothing;
      if !tunnelWanted || seen == Connected {
        downSince := None;
        rebuildFails := 0;
        return;
      }
      if rebuildFails >= MAX_REBUILDS {
        return;
      }
      if downSince.None? {
        downSince := Some(now);
        return;
      }
      if now - downSince.value < RECONNECT_AFTER {
        return;
      }
      downSince := Some(now);
      if !config {
        return;
      }
      rebuildFails := rebuildFails + 1;
      if rebuildFails >= MAX_REBUILDS {
        action := GiveUp;
        DoReconcile(Disconnected, start);
        return;
      }
      action := Rebuild;
    }

    method DoTick(now: int, seen: Tunnel, reconciled: Tunnel, config: bool, start: Selection.Start) returns (action: Action)
      modifies this
      ensures View() == Apply(old(View()), Tick(now, seen, reconciled, config, start))
      ensures action == ActionOf(old(View()), Tick(now, seen, reconciled, config, start))
    {
      DoFollow(now, seen, reconciled, config, start);
      action := SuperviseTunnel(seen, now, config, start);
    }

    /** The half of the tick that switches interception with the tunnel, and retries a failed start. */
    method DoFollow(now: int, seen: Tunnel, reconciled: Tunnel, ghost config: bool, start: Selection.Start)
      modifies this`lastState, this`startTries, this`lastStartTry, this`engine, this`ops
      ensures View() == Follow(old(View()), Tick(now, seen, reconciled, config, start))
    {
      var changed := lastState != Some(seen);
      lastState := Some(seen);
      if !changed && seen == Connected && !engine.running {
        var due := selApps != {} && startTries < MAX_STARTS
                   && (lastStartTry.None? || now - lastStartTry.value >= START_RETRY);
        if due {
          startTries := startTries + 1;
          lastStartTry := Some(now);
          DoReconcile(reconciled, start);
        }
      }
      if changed {
        startTries, lastStartTry := 0, None;
        DoReconcile(reconciled, start);
      }
    }

    /** Connect and Import: both take effect only once the tunnel accepted the configuration. */
    method DoConnect(ok: bool)
      modifies this`tunnelWanted, this`rebuildFails
      ensures View() == Apply(old(View()), Connect(ok)) == Apply(old(View()), Import(ok))
    {
      if !ok {
        return;
      }
      tunnelWanted := true;
      rebuildFails := 0;
    }

    method DoDisconnect(start: Selection.Start)
      modifies this`tunnelWanted, this`engine, this`ops
      ensures View() == Apply(old(View()), Disconnect(start))
    {
      tunnelWanted := false;
      DoReconcile(Disconnected, start);
    }

    method DoSetApps(names: set<string>, state: Tunnel, start: Selection.Start)
      modifies this`selApps, this`engine, this`ops
      ensures View() == Apply(old(View()), SetApps(names, state, start))
    {
      selApps := names;
      DoReconcile(state, start);
    }

    method DoClose()
      modifies this`closing, this`engine, this`ops
      ensures View() == Apply(old(View()), Close)
    {
      if closing {
        return;
      }
      closing := true;
      DoAsk(Selection.Stop);
    }
  }
}
