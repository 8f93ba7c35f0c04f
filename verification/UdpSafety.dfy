/** What the UDP tables guarantee over every run: nothing in the clear, no socket lost, no flow retired without evidence. */
module UdpSafety {
  import opened Basics
  import opened UdpTable
  import Selection
  import Wire

  // ---- Fail closed ----

  ghost predicate TruthfulEvent(ev: Event, truth: Names) {
    ev.Datagram? ==> Truthful(ev.env.names, truth)
  }

  /** No cached direct decision names a selected application. */
  ghost predicate DirectIsUnselected(w: World, truth: Names) {
    forall k :: k in w.udp.direct ==>
                  var pid := w.udp.direct[k].pid;
                  || pid == w.self || pid == SYSTEM_PID
                  || (NameOf(truth, pid) != "" && NameOf(truth, pid) !in w.sel.apps)
  }

  lemma SelectingClearsDecisions(w: World, ev: Event, truth: Names)
    requires ev.SetApps?
    ensures DirectIsUnselected(Apply(w, ev), truth)
  {
  }

  /** A datagram caches at most its own key, and only for this process, System, or an unselected name. */
  lemma HandleCachesUnselected(w: World, key: Key, srcIP: Ip, env: Env, k: Key)
    requires k in Handle(w, key, srcIP, env).0.direct
    ensures var dec := Handle(w, key, srcIP, env).0.direct[k];
            || (k in w.udp.direct && dec == w.udp.direct[k])
            || dec.pid == w.self || dec.pid == SYSTEM_PID
            || (NameOf(env.names, dec.pid) != "" && NameOf(env.names, dec.pid) !in w.sel.apps)
  {
  }

  lemma StepKeepsDirectUnselected(w: World, ev: Event, truth: Names)
    requires DirectIsUnselected(w, truth) && TruthfulEvent(ev, truth) && !ev.SetApps?
    ensures DirectIsUnselected(Apply(w, ev), truth)
  {
    if ev.Datagram? {
      var u := Handle(w, ev.key, ev.srcIP, ev.env).0;
      forall k | k in u.direct
        ensures var pid := u.direct[k].pid;
                pid == w.self || pid == SYSTEM_PID || (NameOf(truth, pid) != "" && NameOf(truth, pid) !in w.sel.apps)
      {
        HandleCachesUnselected(w, ev.key, ev.srcIP, ev.env, k);
      }
    } else {
      OtherStepsCacheNothing(w, ev);
    }
  }

  lemma OtherStepsCacheNothing(w: World, ev: Event)
    requires !ev.Datagram? && !ev.SetApps?
    ensures forall k :: k in Apply(w, ev).udp.direct ==> k in w.udp.direct && Apply(w, ev).udp.direct[k] == w.udp.direct[k]
    ensures Apply(w, ev).sel.apps <= w.sel.apps && Apply(w, ev).self == w.self
  {
  }

  /** The port belongs to a process whose name can be read, other than this one and System. */
  predicate OwnerReadable(w: World, env: Env) {
    env.owner != 0 && env.owner != w.self && env.owner != SYSTEM_PID && NameOf(env.names, env.owner) != ""
  }

  predicate OwnerSelected(w: World, env: Env) {
    OwnerReadable(w, env) && NameOf(env.names, env.owner) in w.sel.apps
  }

  /**
   Exactly when a selected application's datagram is reinjected: only once UDP handling has been stopped,
   and then only if it would have been tunnelled but for that.
   */
  lemma SelectedPassesIffStopped(w: World, key: Key, srcIP: Ip, env: Env, truth: Names)
    requires DirectIsUnselected(w, truth) && Truthful(env.names, truth)
    requires !IsLocalDst(key.dstIP) && OwnerSelected(w, env)
    ensures Handle(w, key, srcIP, env).1
       <==> w.udp.stopped && key !in w.udp.flows && env.ready && !DialPaused(w.udp, env) && env.dial.Dialled?
  {
  }

  ghost predicate SameSelection(es: seq<Event>, s: nat, i: nat)
    requires s <= i <= |es|
  {
    forall k :: s <= k < i ==> !es[k].SetApps?
  }

  lemma {:induction false} DirectUnselectedSince(ws: seq<World>, es: seq<Event>, s: nat, i: nat, truth: Names)
    requires ValidRun(ws, es) && s < i <= |es| && es[s].SetApps? && SameSelection(es, s + 1, i)
    requires forall k :: s < k < i ==> TruthfulEvent(es[k], truth)
    ensures DirectIsUnselected(ws[i], truth)
  {
    if i == s + 1 {
      SelectingClearsDecisions(ws[s], es[s], truth);
    } else {
      DirectUnselectedSince(ws, es, s, i - 1, truth);
      StepKeepsDirectUnselected(ws[i - 1], es[i - 1], truth);
    }
  }

  /**
   UDP fails closed over every run: from any state on, once applications have been selected, no datagram
   of a selected application to a non-local address is reinjected while UDP handling is not stopped.
   */
  lemma FailClosed(ws: seq<World>, es: seq<Event>, s: nat, i: nat, truth: Names)
    requires ValidRun(ws, es) && s < i < |es| && es[s].SetApps? && SameSelection(es, s + 1, i)
    requires forall k :: s < k <= i ==> TruthfulEvent(es[k], truth)
    requires es[i].Datagram? && !IsLocalDst(es[i].key.dstIP) && OwnerSelected(ws[i], es[i].env)
    requires !ws[i].udp.stopped
    ensures !Handle(ws[i], es[i].key, es[i].srcIP, es[i].env).1
  {
    DirectUnselectedSince(ws, es, s, i, truth);
    SelectedPassesIffStopped(ws[i], es[i].key, es[i].srcIP, es[i].env, truth);
  }

  /** Everyone else is left alone: a readable owner that is not selected, with no flow under the key, passes. */
  lemma UnselectedPasses(w: World, key: Key, srcIP: Ip, env: Env)
    requires OwnerReadable(w, env) && !OwnerSelected(w, env) && key !in w.udp.flows
    ensures Handle(w, key, srcIP, env).1
    ensures Handle(w, key, srcIP, env).0.flows == w.udp.flows
  {
  }

  // ---- Tunnel sockets ----

  /** Every dialled socket is the connection of exactly one flow, or has been closed. */
  ghost predicate Accounted(u: Udp) {
    && u.closed <= u.dialled
    && ConnsOf(u.flows) == u.dialled - u.closed
    && forall k, q :: k in u.flows && q in u.flows && u.flows[k].conn == u.flows[q].conn ==> k == q
  }

  ghost predicate LowStrikes(fl: Flow) {
    fl.stalls < STALL_LIMIT && fl.misses < 2 && fl.ownerMiss < 2
  }

  ghost predicate Bounded(u: Udp) {
    |u.flows| <= MAX_FLOWS && forall k :: k in u.flows ==> LowStrikes(u.flows[k])
  }

  ghost predicate SocketsSafe(u: Udp) {
    Accounted(u) && Bounded(u)
  }

  /** The step starts interception and gets past its listener. */
  predicate PassesListener(w: World, ev: Event) {
    ev.SetApps? && ev.names != {} && !w.sel.running && ev.start != Selection.NoListener
  }

  /** A start that gets past its listener finds no flow left over. */
  predicate StartsClean(w: World, ev: Event) {
    PassesListener(w, ev) ==> w.udp.flows == map[]
  }

  lemma CloseKeepsAccounted(u: Udp, keys: set<Key>)
    requires Accounted(u)
    ensures Accounted(Close(u, keys))
  {
    var v := Close(u, keys);
    forall k | k in u.flows ensures u.flows[k].conn in u.dialled {
      assert u.flows[k].conn in ConnsOf(u.flows);
    }
    forall c | c in v.dialled - v.closed ensures c in ConnsOf(v.flows) {
      assert c in ConnsOf(u.flows);
      var k :| k in u.flows && u.flows[k].conn == c;
      assert k !in keys;
      assert k in v.flows && v.flows[k].conn == c;
    }
    forall c | c in ConnsOf(v.flows) ensures c in v.dialled - v.closed {
      var k :| k in v.flows && v.flows[k].conn == c;
      assert c in ConnsOf(u.flows);
    }
  }

  lemma UpdateKeepsAccounted(u: Udp, v: Udp)
    requires Accounted(u) && v.dialled == u.dialled && v.closed == u.closed && v.flows.Keys == u.flows.Keys
    requires forall k :: k in u.flows ==> v.flows[k].conn == u.flows[k].conn
    ensures Accounted(v)
  {
    assert ConnsOf(v.flows) == ConnsOf(u.flows) by {
      forall c | c in ConnsOf(u.flows) ensures c in ConnsOf(v.flows) {
        var k :| k in u.flows && u.flows[k].conn == c;
        assert k in v.flows && v.flows[k].conn == c;
      }
      forall c | c in ConnsOf(v.flows) ensures c in ConnsOf(u.flows) {
        var k :| k in v.flows && v.flows[k].conn == c;
        assert k in u.flows && u.flows[k].conn == c;
      }
    }
  }

  lemma AdmitKeepsAccounted(u: Udp, key: Key, fl: Flow, evict: set<Key>)
    requires Accounted(u) && key !in u.flows && fl.conn !in u.dialled
    ensures Accounted(Admit(u, key, fl, evict))
  {
    var v := u.(flows := u.flows[key := fl], dialled := u.dialled + {fl.conn});
    forall c | c in v.dialled - v.closed ensures c in ConnsOf(v.flows) {
      if c == fl.conn {
        assert key in v.flows && v.flows[key].conn == c;
      } else {
        assert c in ConnsOf(u.flows);
        var k :| k in u.flows && u.flows[k].conn == c;
        assert k in v.flows && v.flows[k].conn == c;
      }
    }
    forall k | k in u.flows ensures u.flows[k].conn != fl.conn {
      assert u.flows[k].conn in ConnsOf(u.flows);
    }
    forall c | c in ConnsOf(v.flows) ensures c in v.dialled - v.closed {
      var k :| k in v.flows && v.flows[k].conn == c;
      if k != key {
        assert c in ConnsOf(u.flows);
      }
    }
    CloseKeepsAccounted(v, evict);
  }

  lemma FeedKeepsAccounted(u: Udp, key: Key, env: Env)
    requires Accounted(u) && key in u.flows
    ensures Accounted(Feed(u, key, env))
  {
    CloseKeepsAccounted(u, {key});
    if key in Feed(u, key, env).flows {
      UpdateKeepsAccounted(u, Feed(u, key, env));
    }
  }

  lemma HandleKeepsAccounted(w: World, key: Key, srcIP: Ip, env: Env)
    requires Accounted(w.udp) && Enabled(w, Datagram(key, srcIP, env))
    ensures Accounted(Handle(w, key, srcIP, env).0)
  {
    var u := Retiring(w, key, env);
    UpdateKeepsAccounted(w.udp, u);
    if IsLocalDst(key.dstIP) {
    } else if key in w.udp.flows {
      FeedKeepsAccounted(u, key, env);
    } else if Admits(w, Datagram(key, srcIP, env)) {
      AdmittingHandle(w, key, srcIP, env);
      AdmitKeepsAccounted(u, key, NewFlow(srcIP, env), env.evict);
    } else {
      OtherwiseNoFlowChanges(w, key, srcIP, env);
      UpdateKeepsAccounted(w.udp, w.udp.(direct := Handle(w, key, srcIP, env).0.direct));
    }
  }

  /** A datagram that neither feeds a flow nor makes one leaves the flows alone, and closes what it dials. */
  lemma OtherwiseNoFlowChanges(w: World, key: Key, srcIP: Ip, env: Env)
    requires key !in w.udp.flows && !IsLocalDst(key.dstIP) && !Admits(w, Datagram(key, srcIP, env))
    ensures var u := Handle(w, key, srcIP, env).0;
            && u.flows == w.udp.flows
            && ((u.dialled == w.udp.dialled && u.closed == w.udp.closed)
                || (env.dial.Dialled? && u.dialled == w.udp.dialled + {env.dial.conn} && u.closed == w.udp.closed + {env.dial.conn}))
  {
  }

  lemma StopKeepsAccounted(u: Udp)
    requires Accounted(u)
    ensures Accounted(StopUdp(u)) && StopUdp(u).flows == map[]
  {
    CloseKeepsAccounted(u, u.flows.Keys);
  }

  /** Starting resets the tables without closing anything, so it loses sockets exactly when flows are left over. */
  lemma StartLosesSocketsIffFlowsLeft(u: Udp, start: Selection.Start)
    requires Accounted(u) && start != Selection.NoListener
    ensures Accounted(StartUdp(u, start)) <==> u.flows == map[]
  {
    var v := StartUdp(u, start);
    assert ConnsOf(v.flows) == {};
    if u.flows == map[] {
      assert ConnsOf(u.flows) == {};
    } else {
      var k :| k in u.flows;
      assert u.flows[k].conn in ConnsOf(u.flows);
    }
  }

  lemma SelectKeepsAccounted(w: World, names: set<string>, start: Selection.Start, known: Names)
    requires Accounted(w.udp) && StartsClean(w, SetApps(names, start, known))
    ensures Accounted(Select(w, names, start, known))
  {
    if names != {} && !w.sel.running && start != Selection.NoListener {
      StartLosesSocketsIffFlowsLeft(w.udp, start);
    }
    StopKeepsAccounted(w.udp);
    var u :=
      if names != {} && !w.sel.running then StartUdp(w.udp, start)
      else if names == {} && w.sel.running then StopUdp(w.udp)
      else w.udp;
    UpdateKeepsAccounted(u, u.(direct := map[]));
    CloseKeepsAccounted(u.(direct := map[]), Deselected(u, names, known));
  }

  lemma UncleanStartLosesSockets(w: World, names: set<string>, start: Selection.Start, known: Names)
    requires Accounted(w.udp) && !StartsClean(w, SetApps(names, start, known))
    ensures !Accounted(Select(w, names, start, known))
  {
    StartLosesSocketsIffFlowsLeft(w.udp, start);
    var u := StartUdp(w.udp, start);
    assert Deselected(u, names, known) == {};
    assert ConnsOf(u.flows) == {};
    assert Select(w, names, start, known).flows == map[] && Select(w, names, start, known).closed == u.closed;
  }

  lemma SweepKeepsAccounted(u: Udp, now: int, v4: Table, v6: Table)
    requires Accounted(u)
    ensures Accounted(SweepOnce(u, now, v4, v6))
  {
    var judged := map k | k in u.flows :: Judged(u.flows[k], k.appPort, v4, v6);
    var kept := Unexpired(u, now);
    var v := u.(flows := judged, direct := if |kept| > MAX_DIRECT then map[] else kept);
    UpdateKeepsAccounted(u, v);
    CloseKeepsAccounted(v, Dead(u, now, v4, v6));
  }

  lemma ReaderEndsKeepsAccounted(w: World, key: Key, conn: Conn)
    requires Accounted(w.udp) && Enabled(w, ReaderEnds(key, conn))
    ensures Accounted(Apply(w, ReaderEnds(key, conn)).udp)
  {
    if Registered(w.udp, key, conn) {
      CloseKeepsAccounted(w.udp, {key});
    } else {
      if conn !in w.udp.closed {
        assert conn in ConnsOf(w.udp.flows);
        var k :| k in w.udp.flows && w.udp.flows[k].conn == conn;
        assert Registered(w.udp, k, conn);
      }
      assert w.udp.closed + {conn} == w.udp.closed;
    }
  }

  /** One step keeps every dialled socket accounted for, if and only if it is not a start that finds flows left over. */
  lemma StepKeepsAccountedIff(w: World, ev: Event)
    requires Accounted(w.udp) && Enabled(w, ev)
    ensures Accounted(Apply(w, ev).udp) <==> StartsClean(w, ev)
  {
    match ev
    case Datagram(key, srcIP, env) => HandleKeepsAccounted(w, key, srcIP, env);
    case Reply(key, conn, at) => UpdateKeepsAccounted(w.udp, Apply(w, ev).udp);
    case ReaderEnds(key, conn) => ReaderEndsKeepsAccounted(w, key, conn);
    case Sweep(now, v4, v6) => SweepKeepsAccounted(w.udp, now, v4, v6);
    case SetApps(names, start, known) =>
      if StartsClean(w, ev) {
        SelectKeepsAccounted(w, names, start, known);
      } else {
        UncleanStartLosesSockets(w, names, start, known);
      }
    case Suspend => StopKeepsAccounted(w.udp);
    case Stop => StopKeepsAccounted(w.udp);
    case LoopPanic => StopKeepsAccounted(w.udp);
  }

  lemma FewerFlows(f: map<Key, Flow>, g: map<Key, Flow>)
    requires g.Keys <= f.Keys
    ensures |g| <= |f|
  {
    var extra := f.Keys - g.Keys;
    assert f.Keys == g.Keys + extra;
  }

  lemma AdmitIsCapped(w: World, ev: Event)
    requires |w.udp.flows| <= MAX_FLOWS && Enabled(w, ev) && Admits(w, ev)
    ensures |Apply(w, ev).udp.flows| <= MAX_FLOWS
  {
    AdmittingHandle(w, ev.key, ev.srcIP, ev.env);
    EvictionCaps(w.udp.flows, ev.key, NewFlow(ev.srcIP, ev.env), ev.env.evict);
  }

  lemma AdmittingHandle(w: World, key: Key, srcIP: Ip, env: Env)
    requires Admits(w, Datagram(key, srcIP, env))
    ensures Handle(w, key, srcIP, env) == (Admit(Retiring(w, key, env), key, NewFlow(srcIP, env), env.evict), false)
  {
  }

  lemma EvictionCaps(flows: map<Key, Flow>, key: Key, fl: Flow, evict: set<Key>)
    requires |flows| <= MAX_FLOWS && LegalEviction(flows[key := fl], evict)
    ensures |flows[key := fl] - evict| <= MAX_FLOWS
  {
    var more := flows[key := fl];
    assert more.Keys == flows.Keys + {key};
    assert (more - evict).Keys == more.Keys - evict;
    assert |more.Keys - evict| == |more.Keys| - |evict|;
  }

  /** A surviving flow is new, unchanged but for its time stamp and strikes, and its strikes stay below their limits. */
  lemma HandleKeepsStrikesLow(w: World, key: Key, srcIP: Ip, env: Env, k: Key)
    requires Bounded(w.udp) && k in Handle(w, key, srcIP, env).0.flows
    ensures LowStrikes(Handle(w, key, srcIP, env).0.flows[k])
  {
    HandleTouchesOneFlow(w, key, srcIP, env, k);
    if k == key && key in w.udp.flows && !IsLocalDst(key.dstIP) {
      FeedKeepsStrikesLow(Retiring(w, key, env), key, env);
    }
  }

  lemma FeedKeepsStrikesLow(u: Udp, key: Key, env: Env)
    requires key in u.flows && LowStrikes(u.flows[key]) && key in Feed(u, key, env).flows
    ensures LowStrikes(Feed(u, key, env).flows[key])
  {
  }

  /** Every flow a datagram leaves is as it was, is fed, or is the new one. */
  lemma HandleTouchesOneFlow(w: World, key: Key, srcIP: Ip, env: Env, k: Key)
    requires k in Handle(w, key, srcIP, env).0.flows
    ensures var fl := Handle(w, key, srcIP, env).0.flows[k];
            if k in w.udp.flows && (k != key || IsLocalDst(key.dstIP)) then fl == w.udp.flows[k]
            else if k in w.udp.flows then
              k == key && key in Feed(Retiring(w, key, env), key, env).flows && fl == Feed(Retiring(w, key, env), key, env).flows[key]
            else k == key && env.dial.Dialled? && fl == NewFlow(srcIP, env)
  {
    if !IsLocalDst(key.dstIP) && key in w.udp.flows {
      FeedLeavesOthers(Retiring(w, key, env), key, env, k);
    }
  }

  lemma FeedLeavesOthers(u: Udp, key: Key, env: Env, k: Key)
    requires key in u.flows && k in Feed(u, key, env).flows
    ensures k in u.flows && (k != key ==> Feed(u, key, env).flows[k] == u.flows[k])
  {
  }

  lemma OtherStepsKeepStrikesLow(w: World, ev: Event, k: Key)
    requires Bounded(w.udp) && !ev.Datagram? && k in Apply(w, ev).udp.flows
    ensures k in w.udp.flows
    ensures LowStrikes(Apply(w, ev).udp.flows[k])
  {
  }

  lemma OnlyAdmitsAddFlows(w: World, ev: Event)
    requires !Admits(w, ev)
    ensures Apply(w, ev).udp.flows.Keys <= w.udp.flows.Keys
  {
  }

  lemma StepKeepsBounded(w: World, ev: Event)
    requires Bounded(w.udp) && Enabled(w, ev)
    ensures Bounded(Apply(w, ev).udp)
  {
    var flows := Apply(w, ev).udp.flows;
    forall k | k in flows ensures LowStrikes(flows[k]) {
      if ev.Datagram? {
        HandleKeepsStrikesLow(w, ev.key, ev.srcIP, ev.env, k);
      } else {
        OtherStepsKeepStrikesLow(w, ev, k);
      }
    }
    if Admits(w, ev) {
      AdmitIsCapped(w, ev);
    } else {
      OnlyAdmitsAddFlows(w, ev);
      FewerFlows(w.udp.flows, flows);
    }
  }

  lemma StepKeepsSocketsSafe(w: World, ev: Event)
    requires SocketsSafe(w.udp) && Enabled(w, ev)
    ensures SocketsSafe(Apply(w, ev).udp) <==> StartsClean(w, ev)
  {
    StepKeepsAccountedIff(w, ev);
    StepKeepsBounded(w, ev);
  }

  ghost predicate RunsFromStart(ws: seq<World>, es: seq<Event>) {
    ValidRun(ws, es) && ws[0] == Initial(ws[0].self)
  }

  /**
   Conservation of tunnel sockets: over every run, whatever mix of writes, wedged sockets, caps, sweeps, selections,
   pauses and restarts it is, each dialled socket belongs to exactly one flow or has been closed in every state of the
   run, if and only if every start of the run that gets past its listener finds no flow left over.
   */
  lemma {:induction false} SocketsConserved(ws: seq<World>, es: seq<Event>, n: nat)
    requires RunsFromStart(ws, es) && n <= |es|
    ensures (forall i :: 0 <= i <= n ==> Accounted(ws[i].udp)) <==> (forall i :: 0 <= i < n ==> StartsClean(ws[i], es[i]))
  {
    if n == 0 {
      assert ConnsOf(ws[0].udp.flows) == {};
    } else {
      SocketsConserved(ws, es, n - 1);
      if Accounted(ws[n - 1].udp) {
        StepKeepsAccountedIff(ws[n - 1], es[n - 1]);
      }
      assert ws[n] == Apply(ws[n - 1], es[n - 1]);
      if forall i :: 0 <= i < n ==> StartsClean(ws[i], es[i]) {
        assert Accounted(ws[n - 1].udp);
      } else if forall i :: 0 <= i <= n ==> Accounted(ws[i].udp) {
        assert StartsClean(ws[n - 1], es[n - 1]);
      }
    }
  }

  /** In every state of every run there are at most 1024 flows, none wedged and none with two strikes. */
  lemma {:induction false} FlowsBounded(ws: seq<World>, es: seq<Event>, i: nat)
    requires RunsFromStart(ws, es) && i <= |es|
    ensures Bounded(ws[i].udp)
  {
    if i > 0 {
      FlowsBounded(ws, es, i - 1);
      StepKeepsBounded(ws[i - 1], es[i - 1]);
    }
  }

  /** The flow is registered while interception runs. */
  predicate AdmitsWhileRunning(w: World, ev: Event) {
    Admits(w, ev) ==> w.sel.running
  }

  /** Starts find no flow left over as long as flows are registered only while interception runs. */
  lemma {:induction false} StartsAreClean(ws: seq<World>, es: seq<Event>, i: nat)
    requires RunsFromStart(ws, es) && i <= |es|
    requires forall k :: 0 <= k < i ==> AdmitsWhileRunning(ws[k], es[k])
    ensures EmptyAtRest(ws[i])
    ensures forall k :: 0 <= k < i ==> StartsClean(ws[k], es[k])
  {
    if i > 0 {
      StartsAreClean(ws, es, i - 1);
      StepKeepsFlowsWhileRunning(ws[i - 1], es[i - 1]);
    }
  }

  /** There are flows only while interception runs. */
  predicate EmptyAtRest(w: World) {
    !w.sel.running ==> w.udp.flows == map[]
  }

  lemma StepKeepsFlowsWhileRunning(w: World, ev: Event)
    requires EmptyAtRest(w) && AdmitsWhileRunning(w, ev)
    ensures EmptyAtRest(Apply(w, ev)) && StartsClean(w, ev)
  {
    if !Admits(w, ev) && !ev.SetApps? {
      OnlyAdmitsAddFlows(w, ev);
    }
  }

  /** What a flow evicted by the cap has in common: it was seen no later than every flow kept. */
  lemma CapEvictsOldest(w: World, ev: Event, k: Key, q: Key)
    requires Enabled(w, ev) && Admits(w, ev)
    requires k in w.udp.flows && k !in Apply(w, ev).udp.flows && q in w.udp.flows && q in Apply(w, ev).udp.flows
    ensures w.udp.flows[k].lastSeen <= w.udp.flows[q].lastSeen
    ensures |w.udp.flows| >= MAX_FLOWS
  {
    var flows := w.udp.flows[ev.key := NewFlow(ev.srcIP, ev.env)];
    assert flows.Keys == w.udp.flows.Keys + {ev.key};
  }

  // ---- The handler switch ----

  /** A start re-enables a stopped handler if and only if it gets past its listener, even if it then fails. */
  lemma FailedStartEnablesHandler(w: World, names: set<string>, start: Selection.Start, known: Names)
    requires w.udp.stopped && !w.sel.running && names != {}
    ensures var w' := Apply(w, SetApps(names, start, known));
            && (!w'.udp.stopped <==> start != Selection.NoListener)
            && (w'.sel.running <==> start == Selection.Started)
  {
  }

  /** Interception runs with its handler stopped. */
  predicate Open(w: World) {
    w.sel.running && w.udp.stopped
  }

  /** A teardown at step k stopped the handler, and interception has run on without it ever since. */
  ghost predicate TornDownAt(ws: seq<World>, es: seq<Event>, k: nat, i: nat)
    requires |ws| == |es| + 1 && i <= |es|
  {
    k < i && es[k] == LoopPanic && forall m :: k < m <= i ==> Open(ws[m])
  }

  /** While interception runs its handler is stopped only by the teardown after a panic of the packet loop. */
  lemma StoppedByTeardown(ws: seq<World>, es: seq<Event>, i: nat)
    requires RunsFromStart(ws, es) && i <= |es| && Open(ws[i])
    ensures exists k: nat :: TornDownAt(ws, es, k, i)
  {
    forall m | 0 <= m < i ensures OpensByPanic(ws, es, m) {
      OpenStep(ws[m], es[m]);
    }
    LastPanic(ws, es, i);
  }

  ghost predicate OpensByPanic(ws: seq<World>, es: seq<Event>, m: nat)
    requires |ws| == |es| + 1 && m < |es|
  {
    Open(ws[m + 1]) && es[m] != LoopPanic ==> Open(ws[m])
  }

  lemma {:induction false} LastPanic(ws: seq<World>, es: seq<Event>, i: nat)
    requires |ws| == |es| + 1 && i <= |es| && !Open(ws[0]) && Open(ws[i])
    requires forall m :: 0 <= m < i ==> OpensByPanic(ws, es, m)
    ensures exists k: nat :: TornDownAt(ws, es, k, i)
  {
    assert OpensByPanic(ws, es, i - 1);
    if es[i - 1] == LoopPanic {
      assert TornDownAt(ws, es, i - 1, i);
    } else {
      LastPanic(ws, es, i - 1);
      var k: nat :| TornDownAt(ws, es, k, i - 1);
      assert TornDownAt(ws, es, k, i);
    }
  }

  lemma OpenStep(w: World, ev: Event)
    ensures Open(Apply(w, ev)) && ev != LoopPanic ==> Open(w)
  {
    if ev.Datagram? {
      HandleKeepsStopped(w, ev.key, ev.srcIP, ev.env);
    }
  }

  lemma HandleKeepsStopped(w: World, key: Key, srcIP: Ip, env: Env)
    ensures Handle(w, key, srcIP, env).0.stopped == w.udp.stopped
  {
  }

  /** Interception has been down, and so started again, since every teardown before step i. */
  ghost predicate RestartedSinceTeardown(ws: seq<World>, es: seq<Event>, i: nat)
    requires |ws| == |es| + 1 && i <= |es|
  {
    forall k :: 0 <= k < i && es[k] == LoopPanic ==> exists m :: k < m <= i && !ws[m].sel.running
  }

  /** UDP fails closed for as long as interception runs, until its packet loop dies. */
  lemma FailClosedWhileRunning(ws: seq<World>, es: seq<Event>, s: nat, i: nat, truth: Names)
    requires RunsFromStart(ws, es) && s < i < |es| && es[s].SetApps? && SameSelection(es, s + 1, i)
    requires forall k :: s < k <= i ==> TruthfulEvent(es[k], truth)
    requires es[i].Datagram? && !IsLocalDst(es[i].key.dstIP) && OwnerSelected(ws[i], es[i].env)
    requires ws[i].sel.running && RestartedSinceTeardown(ws, es, i)
    ensures !Handle(ws[i], es[i].key, es[i].srcIP, es[i].env).1
  {
    if ws[i].udp.stopped {
      StoppedByTeardown(ws, es, i);
    }
    FailClosed(ws, es, s, i, truth);
  }

  /**
   After the teardown it is open, for as long as the run lasts: a selected application's datagram is reinjected if and
   only if it would otherwise have been tunnelled.
   */
  lemma OpenAfterTeardown(w: World, key: Key, srcIP: Ip, env: Env, truth: Names)
    requires DirectIsUnselected(w, truth) && Truthful(env.names, truth)
    requires !IsLocalDst(key.dstIP) && OwnerSelected(w, env)
    ensures var w' := Apply(w, LoopPanic);
            Handle(w', key, srcIP, env).1 <==> env.ready && !DialPaused(w.udp, env) && env.dial.Dialled?
  {
    var w' := Apply(w, LoopPanic);
    assert w'.udp.flows == map[];
    SelectedPassesIffStopped(w', key, srcIP, env, truth);
  }

  // ---- How a socket can be lost ----

  /** A flow registered while interception is down is forgotten, its socket still open, by the next start. */
  lemma StartForgetsFlow(w: World, ev: Event, names: set<string>, known: Names)
    requires w.udp.flows == map[] && !w.sel.running && Enabled(w, ev) && Admits(w, ev) && names != {}
    requires w.udp.closed <= w.udp.dialled
    ensures var u := Apply(Apply(w, ev), SetApps(names, Selection.Started, known)).udp;
            ev.env.dial.conn in u.dialled - u.closed && u.flows == map[]
  {
    var conn := ev.env.dial.conn;
    var flows := w.udp.flows[ev.key := NewFlow(ev.srcIP, ev.env)];
    assert flows.Keys == {ev.key};
    assert ev.env.evict == {};
    var w1 := Apply(w, ev);
    assert w1.udp.dialled == w.udp.dialled + {conn} && w1.udp.closed == w.udp.closed;
    assert !w1.sel.running;
    var u := StartUdp(w1.udp, Selection.Started).(direct := map[]);
    assert Deselected(u, names, known) == {};
  }

  /**
   Datagrams come from the loop of a capture handle, and there is none before interception has run; but a loop that has
   looked whether interception still runs can be delayed for any time before its handler does anything.
   */
  ghost predicate Captured(ws: seq<World>, es: seq<Event>)
    requires |ws| == |es| + 1
  {
    forall i :: 0 <= i < |es| && es[i].Datagram? ==> exists c :: 0 <= c <= i && ws[c].sel.running
  }

  lemma OneMoreStep(ws: seq<World>, es: seq<Event>, ev: Event) returns (ws': seq<World>)
    requires RunsFromStart(ws, es) && Captured(ws, es) && Enabled(ws[|es|], ev)
    requires ev.Datagram? ==> exists c :: 0 <= c <= |es| && ws[c].sel.running
    ensures ws' == ws + [Apply(ws[|es|], ev)] && RunsFromStart(ws', es + [ev]) && Captured(ws', es + [ev])
  {
    ws' := ws + [Apply(ws[|es|], ev)];
    var es' := es + [ev];
    forall i | 0 <= i < |es'| && es'[i].Datagram? ensures exists c :: 0 <= c <= i && ws'[c].sel.running {
      var c :| 0 <= c <= i && ws[c].sel.running;
      assert ws'[c].sel.running;
    }
  }

  /** Interception has run, was paused, and could not be started again: the handler is enabled all the same. */
  lemma EnabledWhileDown(self: Pid, app: string) returns (ws: seq<World>, es: seq<Event>)
    ensures RunsFromStart(ws, es) && Captured(ws, es) && |es| == 3 && ws[1].sel.running
    ensures ws[3] == Initial(self).(sel := Selection.Sel({app}, {app}, {app}, false))
  {
    ws, es := [Initial(self)], [];
    var first, failing := SetApps({app}, Selection.Started, map[]), SetApps({app}, Selection.NoCapture, map[]);
    var w1 := Apply(Initial(self), first);
    NothingDeselected(Initial(self).udp, {app});
    var w2 := Apply(w1, Suspend);
    assert w2.udp == Initial(self).udp.(stopped := true);
    var w3 := Apply(w2, failing);
    NothingDeselected(Initial(self).udp, {app});
    ws := OneMoreStep(ws, es, first);
    ws := OneMoreStep(ws, [first], Suspend);
    ws := OneMoreStep(ws, [first] + [Suspend], failing);
    es := [first] + [Suspend] + [failing];
  }

  lemma NothingDeselected(u: Udp, names: set<string>)
    requires u.flows == map[]
    ensures Close(u, Deselected(u, names, map[])) == u
  {
    assert Deselected(u, names, map[]) == {};
    assert Close(u, {}).closed == u.closed;
  }

  /**
   So a start that fails past its listener is not harmless: with one between a pause and the next start, the handler of
   a delayed packet loop can register a flow, and the next start forgets it with its socket still open.
   */
  lemma HandlingWhileDownLosesSocket(self: Pid, key: Key, srcIP: Ip, pid: Pid, app: string, conn: Conn)
    requires !IsLocalDst(key.dstIP) && app != "" && pid != 0 && pid != self && pid != SYSTEM_PID
    ensures exists ws: seq<World>, es: seq<Event> ::
              && RunsFromStart(ws, es) && Captured(ws, es) && |es| == 5
              && conn in ws[5].udp.dialled - ws[5].udp.closed && ws[5].udp.flows == map[]
  {
    var ws, es := EnabledWhileDown(self, app);
    var env := Env(1, pid, map[pid := app], true, 0, true, 1, Dialled(conn), Sent, {});
    DownAdmits(ws[3], key, srcIP, env, app);
    var lost, events := DatagramThenStart(ws, es, key, srcIP, env, app);
  }

  lemma DatagramThenStart(ws: seq<World>, es: seq<Event>, key: Key, srcIP: Ip, env: Env, app: string)
    returns (ws': seq<World>, es': seq<Event>)
    requires RunsFromStart(ws, es) && Captured(ws, es) && |es| == 3 && ws[1].sel.running
    requires ws[3].udp.flows == map[] && ws[3].udp.closed <= ws[3].udp.dialled && !ws[3].sel.running
    requires Enabled(ws[3], Datagram(key, srcIP, env)) && Admits(ws[3], Datagram(key, srcIP, env))
    ensures RunsFromStart(ws', es') && Captured(ws', es') && |es'| == 5
    ensures env.dial.conn in ws'[5].udp.dialled - ws'[5].udp.closed && ws'[5].udp.flows == map[]
  {
    var datagram, again := Datagram(key, srcIP, env), SetApps({app}, Selection.Started, map[]);
    StartForgetsFlow(ws[3], datagram, {app}, map[]);
    var ws4 := OneMoreStep(ws, es, datagram);
    assert ws4[1].sel.running;
    ws' := OneMoreStep(ws4, es + [datagram], again);
    es' := es + [datagram] + [again];
  }

  lemma DownAdmits(w: World, key: Key, srcIP: Ip, env: Env, app: string)
    requires w == Initial(w.self).(sel := Selection.Sel({app}, {app}, {app}, false))
    requires !IsLocalDst(key.dstIP) && app != "" && env.owner != 0 && env.owner != w.self && env.owner != SYSTEM_PID
    requires env.names == map[env.owner := app] && env.ready && env.dial.Dialled? && env.evict == {}
    ensures Admits(w, Datagram(key, srcIP, env)) && Enabled(w, Datagram(key, srcIP, env))
  {
    assert env.Name() == app;
    assert w.udp.flows[key := NewFlow(srcIP, env)].Keys == {key};
  }

  // ---- Evidence ----

  /** The time at which the step hears from the flow, in either direction. */
  ghost function Touch(w: World, ev: Event, key: Key, conn: Conn): Option<int> {
    match ev
    case Datagram(k, _, env) =>
      if k != key || IsLocalDst(key.dstIP) then None
      else if Registered(w.udp, key, conn) then Some(env.now)
      else if Admits(w, ev) && env.dial.conn == conn then Some(env.later)
      else None
    case Reply(k, c, at) => if k == key && c == conn && Registered(w.udp, key, conn) then Some(at) else None
    case _ => None
  }

  ghost predicate LastTouch(ws: seq<World>, es: seq<Event>, j: nat, i: nat, key: Key, conn: Conn, at: int)
    requires |ws| == |es| + 1
  {
    && j < i <= |es| && Touch(ws[j], es[j], key, conn) == Some(at)
    && forall k :: j < k < i ==> Touch(ws[k], es[k], key, conn) == None
  }

  /** The step writes a datagram into the flow's socket, with this outcome. */
  ghost predicate WritesTo(w: World, ev: Event, key: Key, conn: Conn, outcome: Write) {
    ev.Datagram? && ev.key == key && !IsLocalDst(key.dstIP) && Registered(w.udp, key, conn) && ev.env.write == outcome
  }

  /** What one step does to a flow it leaves registered. */
  ghost predicate FlowStep(w: World, ev: Event, w': World, key: Key, conn: Conn) {
    && Registered(w'.udp, key, conn)
    && var fl := w'.udp.flows[key];
       var touch := Touch(w, ev, key, conn);
       if Registered(w.udp, key, conn) then
         var was := w.udp.flows[key];
         && fl.lastSeen == (if touch.Some? then touch.value else was.lastSeen)
         && fl.pid == was.pid && fl.appIP == was.appIP
         && fl.stalls == (if WritesTo(w, ev, key, conn, Dropped) then was.stalls + 1
                          else if WritesTo(w, ev, key, conn, Sent) then 0 else was.stalls)
         && (ev.Sweep? ==> fl == Judged(was, key.appPort, ev.v4, ev.v6))
         && (!ev.Sweep? ==> fl.misses == was.misses && fl.ownerMiss == was.ownerMiss)
       else
         touch == Some(fl.lastSeen) && fl.misses == fl.ownerMiss == fl.stalls == 0 && !ev.Sweep?
  }

  lemma DatagramFlowStep(w: World, key: Key, srcIP: Ip, env: Env, k: Key, conn: Conn)
    requires Enabled(w, Datagram(key, srcIP, env)) && Registered(Handle(w, key, srcIP, env).0, k, conn)
    ensures var ev := Datagram(key, srcIP, env); FlowStep(w, ev, Apply(w, ev), k, conn)
  {
    HandleTouchesOneFlow(w, key, srcIP, env, k);
    if k in w.udp.flows {
      if k == key && !IsLocalDst(key.dstIP) {
        FeedStamps(Retiring(w, key, env), key, env);
      }
    } else {
      assert Admits(w, Datagram(key, srcIP, env));
    }
  }

  lemma FeedStamps(u: Udp, key: Key, env: Env)
    requires key in u.flows && key in Feed(u, key, env).flows
    ensures var fl := Feed(u, key, env).flows[key];
            && fl == u.flows[key].(lastSeen := env.now, stalls := fl.stalls)
            && fl.stalls == (if env.write == Dropped then u.flows[key].stalls + 1 else 0) && env.write != Broken
  {
  }

  lemma SweepFlowStep(w: World, now: int, v4: Table, v6: Table, k: Key, conn: Conn)
    requires Registered(SweepOnce(w.udp, now, v4, v6), k, conn)
    ensures var ev := Sweep(now, v4, v6); FlowStep(w, ev, Apply(w, ev), k, conn)
  {
  }

  lemma SelectFlowStep(w: World, ev: Event, k: Key, conn: Conn)
    requires ev.SetApps? && Registered(Apply(w, ev).udp, k, conn)
    ensures FlowStep(w, ev, Apply(w, ev), k, conn)
  {
  }

  lemma EveryFlowStep(w: World, ev: Event, key: Key, conn: Conn)
    requires Enabled(w, ev) && Registered(Apply(w, ev).udp, key, conn)
    ensures FlowStep(w, ev, Apply(w, ev), key, conn)
  {
    match ev
    case Datagram(k, srcIP, env) => DatagramFlowStep(w, k, srcIP, env, key, conn);
    case Sweep(now, v4, v6) => SweepFlowStep(w, now, v4, v6, key, conn);
    case SetApps(_, _, _) => SelectFlowStep(w, ev, key, conn);
    case _ =>
  }

  /** A run, as one flow sees it. */
  ghost predicate FlowRun(ws: seq<World>, es: seq<Event>, key: Key, conn: Conn) {
    && |ws| == |es| + 1
    && !Registered(ws[0].udp, key, conn)
    && forall i :: 0 <= i < |es| && Registered(ws[i + 1].udp, key, conn) ==> FlowStep(ws[i], es[i], ws[i + 1], key, conn)
  }

  lemma RunIsFlowRun(ws: seq<World>, es: seq<Event>, key: Key, conn: Conn)
    requires RunsFromStart(ws, es)
    ensures FlowRun(ws, es, key, conn)
  {
    forall i | 0 <= i < |es| && Registered(ws[i + 1].udp, key, conn)
      ensures FlowStep(ws[i], es[i], ws[i + 1], key, conn)
    {
      EveryFlowStep(ws[i], es[i], key, conn);
    }
  }

  /** A flow's time stamp is that of the last datagram or reply it carried. */
  lemma {:induction false} StampIsLastTouch(ws: seq<World>, es: seq<Event>, i: nat, key: Key, conn: Conn)
    requires FlowRun(ws, es, key, conn) && i <= |es| && Registered(ws[i].udp, key, conn)
    ensures exists j :: 0 <= j < i && LastTouch(ws, es, j, i, key, conn, ws[i].udp.flows[key].lastSeen)
  {
    var at := ws[i].udp.flows[key].lastSeen;
    if Touch(ws[i - 1], es[i - 1], key, conn) == None {
      StampIsLastTouch(ws, es, i - 1, key, conn);
      var j :| 0 <= j < i - 1 && LastTouch(ws, es, j, i - 1, key, conn, at);
      assert LastTouch(ws, es, j, i, key, conn, at);
    } else {
      assert LastTouch(ws, es, i - 1, i, key, conn, at);
    }
  }

  /** At step j a sweep missed the flow's port, and since then no sweep listed it. */
  ghost predicate AbsentSince(ws: seq<World>, es: seq<Event>, j: nat, i: nat, key: Key, conn: Conn)
    requires |ws| == |es| + 1
  {
    && j < i <= |es| && es[j].Sweep? && Absent(es[j].v4, es[j].v6, key.appPort)
    && (forall k :: j < k < i && es[k].Sweep? ==> !Listed(es[k].v4, es[k].v6, key.appPort))
    && (forall k :: j <= k <= i ==> Registered(ws[k].udp, key, conn))
  }

  ghost predicate SeesForeign(w: World, ev: Event, key: Key) {
    ev.Sweep? && key in w.udp.flows && Foreign(w.udp.flows[key], key.appPort, ev.v4, ev.v6)
  }

  /** At step j a sweep saw the flow's port with another owner, and no sweep has run since. */
  ghost predicate ForeignSince(ws: seq<World>, es: seq<Event>, j: nat, i: nat, key: Key, conn: Conn)
    requires |ws| == |es| + 1
  {
    && j < i <= |es| && SeesForeign(ws[j], es[j], key)
    && (forall k :: j < k < i ==> !es[k].Sweep?)
    && (forall k :: j <= k <= i ==> Registered(ws[k].udp, key, conn))
  }

  lemma {:induction false} AbsenceHasEvidence(ws: seq<World>, es: seq<Event>, i: nat, key: Key, conn: Conn)
    requires FlowRun(ws, es, key, conn) && i <= |es| && Registered(ws[i].udp, key, conn) && ws[i].udp.flows[key].misses > 0
    ensures exists j :: 0 <= j < i && AbsentSince(ws, es, j, i, key, conn)
  {
    if es[i - 1].Sweep? && Absent(es[i - 1].v4, es[i - 1].v6, key.appPort) {
      assert AbsentSince(ws, es, i - 1, i, key, conn);
    } else {
      AbsenceHasEvidence(ws, es, i - 1, key, conn);
      var j :| 0 <= j < i - 1 && AbsentSince(ws, es, j, i - 1, key, conn);
      assert AbsentSince(ws, es, j, i, key, conn);
    }
  }

  lemma {:induction false} ForeignHasEvidence(ws: seq<World>, es: seq<Event>, i: nat, key: Key, conn: Conn)
    requires FlowRun(ws, es, key, conn) && i <= |es| && Registered(ws[i].udp, key, conn) && ws[i].udp.flows[key].ownerMiss > 0
    ensures exists j :: 0 <= j < i && ForeignSince(ws, es, j, i, key, conn)
  {
    if es[i - 1].Sweep? {
      assert ForeignSince(ws, es, i - 1, i, key, conn);
    } else {
      ForeignHasEvidence(ws, es, i - 1, key, conn);
      var j :| 0 <= j < i - 1 && ForeignSince(ws, es, j, i - 1, key, conn);
      assert ForeignSince(ws, es, j, i, key, conn);
    }
  }

  /**
   A sweep retires a flow only if nothing was heard from it for two minutes, its port was absent for the
   second time with no listing in between, or two sweeps in a row saw its port with another owner.
   */
  lemma FlowSweptOnlyOnEvidence(ws: seq<World>, es: seq<Event>, i: nat, key: Key, conn: Conn)
    requires RunsFromStart(ws, es) && i < |es| && es[i].Sweep? && Registered(ws[i].udp, key, conn)
    requires !Registered(ws[i + 1].udp, key, conn)
    ensures || (exists j, at :: 0 <= j < i && LastTouch(ws, es, j, i, key, conn, at) && at < es[i].now - IDLE_TIMEOUT)
            || (Absent(es[i].v4, es[i].v6, key.appPort) && exists j :: 0 <= j < i && AbsentSince(ws, es, j, i, key, conn))
            || (SeesForeign(ws[i], es[i], key) && exists j :: 0 <= j < i && ForeignSince(ws, es, j, i, key, conn))
  {
    var fl := ws[i].udp.flows[key];
    RunIsFlowRun(ws, es, key, conn);
    if Idle(fl, es[i].now) {
      StampIsLastTouch(ws, es, i, key, conn);
    } else if Absent(es[i].v4, es[i].v6, key.appPort) && fl.misses > 0 {
      AbsenceHasEvidence(ws, es, i, key, conn);
    } else {
      assert key in Dead(ws[i].udp, es[i].now, es[i].v4, es[i].v6);
      ForeignHasEvidence(ws, es, i, key, conn);
    }
  }

  lemma {:induction false} EvidenceLeavesStrike(ws: seq<World>, es: seq<Event>, j: nat, i: nat, key: Key, conn: Conn)
    requires FlowRun(ws, es, key, conn) && j < i <= |es|
    ensures AbsentSince(ws, es, j, i, key, conn) ==> ws[i].udp.flows[key].misses > 0
    ensures ForeignSince(ws, es, j, i, key, conn) ==> ws[i].udp.flows[key].ownerMiss > 0
  {
    if AbsentSince(ws, es, j, i, key, conn) || ForeignSince(ws, es, j, i, key, conn) {
      if j < i - 1 {
        EvidenceLeavesStrike(ws, es, j, i - 1, key, conn);
        assert Registered(ws[i - 1].udp, key, conn);
      }
    }
  }

  /** And the evidence is enough: a flow whose port is gone, or now another process's, does not survive its second strike. */
  lemma EvidenceRetiresFlow(ws: seq<World>, es: seq<Event>, j: nat, i: nat, key: Key, conn: Conn)
    requires RunsFromStart(ws, es) && j < i < |es| && es[i].Sweep?
    requires || (AbsentSince(ws, es, j, i, key, conn) && Absent(es[i].v4, es[i].v6, key.appPort))
             || (ForeignSince(ws, es, j, i, key, conn) && SeesForeign(ws[i], es[i], key))
    ensures !Registered(ws[i + 1].udp, key, conn)
    ensures conn in ws[i + 1].udp.closed
  {
    RunIsFlowRun(ws, es, key, conn);
    EvidenceLeavesStrike(ws, es, j, i, key, conn);
    assert Registered(ws[i].udp, key, conn);
    assert key in Dead(ws[i].udp, es[i].now, es[i].v4, es[i].v6);
    assert ws[i + 1] == Apply(ws[i], es[i]);
  }

  /** Step j wrote to the flow successfully or registered it, and up to step i no write has succeeded. */
  ghost predicate ClearedLast(ws: seq<World>, es: seq<Event>, j: nat, i: nat, key: Key, conn: Conn)
    requires |ws| == |es| + 1
  {
    && j < i <= |es| && (WritesTo(ws[j], es[j], key, conn, Sent) || !Registered(ws[j].udp, key, conn))
    && (forall k :: j < k < i ==> !WritesTo(ws[k], es[k], key, conn, Sent))
    && (forall k :: j < k <= i ==> Registered(ws[k].udp, key, conn))
  }

  /** How many writes to the flow were dropped from step j to before step i. */
  ghost function DroppedWrites(ws: seq<World>, es: seq<Event>, j: nat, i: nat, key: Key, conn: Conn): nat
    requires |ws| == |es| + 1 && j <= i <= |es|
  {
    if j == i then 0
    else DroppedWrites(ws, es, j, i - 1, key, conn) + (if WritesTo(ws[i - 1], es[i - 1], key, conn, Dropped) then 1 else 0)
  }

  lemma {:induction false} StallsCountDrops(ws: seq<World>, es: seq<Event>, j: nat, i: nat, key: Key, conn: Conn)
    requires FlowRun(ws, es, key, conn) && ClearedLast(ws, es, j, i, key, conn)
    ensures ws[i].udp.flows[key].stalls == DroppedWrites(ws, es, j + 1, i, key, conn)
  {
    assert FlowStep(ws[i - 1], es[i - 1], ws[i], key, conn);
    if j < i - 1 {
      StallsCountDrops(ws, es, j, i - 1, key, conn);
    }
  }

  lemma {:induction false} WasCleared(ws: seq<World>, es: seq<Event>, i: nat, key: Key, conn: Conn)
    requires FlowRun(ws, es, key, conn) && i <= |es| && Registered(ws[i].udp, key, conn)
    ensures exists j :: 0 <= j < i && ClearedLast(ws, es, j, i, key, conn)
  {
    if !Registered(ws[i - 1].udp, key, conn) || WritesTo(ws[i - 1], es[i - 1], key, conn, Sent) {
      assert ClearedLast(ws, es, i - 1, i, key, conn);
    } else {
      WasCleared(ws, es, i - 1, key, conn);
      var j :| 0 <= j < i - 1 && ClearedLast(ws, es, j, i - 1, key, conn);
      assert ClearedLast(ws, es, j, i, key, conn);
    }
  }

  lemma FedStep(w: World, key: Key, srcIP: Ip, env: Env, conn: Conn)
    requires Registered(w.udp, key, conn) && LowStrikes(w.udp.flows[key])
    ensures var ev, u := Datagram(key, srcIP, env), Handle(w, key, srcIP, env).0;
            && (!Registered(u, key, conn) <==>
                  || WritesTo(w, ev, key, conn, Broken)
                  || (WritesTo(w, ev, key, conn, Dropped) && w.udp.flows[key].stalls + 1 == STALL_LIMIT))
            && (!Registered(u, key, conn) ==> conn in u.closed)
  {
  }

  /** At step i the flow's writes were dropped nineteen times since one succeeded or the flow began. */
  ghost predicate Wedged(ws: seq<World>, es: seq<Event>, i: nat, key: Key, conn: Conn)
    requires |ws| == |es| + 1 && i <= |es|
  {
    exists j :: 0 <= j < i && ClearedLast(ws, es, j, i, key, conn)
                && DroppedWrites(ws, es, j + 1, i, key, conn) + 1 == STALL_LIMIT
  }

  /** A flow's own datagram ends it, and closes its socket, if and only if the write breaks or is the twentieth dropped in a row. */
  lemma DatagramEndsFlowIffWedged(ws: seq<World>, es: seq<Event>, i: nat, key: Key, conn: Conn)
    requires RunsFromStart(ws, es) && i < |es| && Registered(ws[i].udp, key, conn) && es[i].Datagram? && es[i].key == key
    ensures !Registered(ws[i + 1].udp, key, conn) <==>
              || WritesTo(ws[i], es[i], key, conn, Broken)
              || (WritesTo(ws[i], es[i], key, conn, Dropped) && Wedged(ws, es, i, key, conn))
    ensures !Registered(ws[i + 1].udp, key, conn) ==> conn in ws[i + 1].udp.closed
  {
    FlowsBounded(ws, es, i);
    FedStep(ws[i], key, es[i].srcIP, es[i].env, conn);
    RunIsFlowRun(ws, es, key, conn);
    WedgedIffStalled(ws, es, i, key, conn);
    assert ws[i + 1] == Apply(ws[i], es[i]);
  }

  lemma WedgedIffStalled(ws: seq<World>, es: seq<Event>, i: nat, key: Key, conn: Conn)
    requires FlowRun(ws, es, key, conn) && i <= |es| && Registered(ws[i].udp, key, conn)
    ensures Wedged(ws, es, i, key, conn) <==> ws[i].udp.flows[key].stalls + 1 == STALL_LIMIT
  {
    WasCleared(ws, es, i, key, conn);
    forall j: nat | j < i && ClearedLast(ws, es, j, i, key, conn)
      ensures ws[i].udp.flows[key].stalls == DroppedWrites(ws, es, j + 1, i, key, conn)
    {
      StallsCountDrops(ws, es, j, i, key, conn);
    }
  }

  // ---- Replies ----

  /** A flow's replies come back from its peer's address to the address and port its first datagram came from. */
  lemma RepliesMirrorFirstDatagram(w: World, ev: Event)
    requires Enabled(w, ev) && Admits(w, ev) && ev.key in Apply(w, ev).udp.flows
    ensures var fl := Apply(w, ev).udp.flows[ev.key];
            ReplyEnds(ev.key, fl) == Wire.Endpoints(ev.srcIP, ev.key.appPort, ev.key.dstIP, ev.key.dstPort).Swapped()
  {
  }

  function ReplyEnds(key: Key, fl: Flow): Wire.Endpoints {
    Wire.Endpoints(key.dstIP, key.dstPort, fl.appIP, key.appPort)
  }
}
