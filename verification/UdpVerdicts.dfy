/**
 Which datagrams may leave in the clear, exactly, and what becomes of the others (internal/apptunnel/apptunnel_windows.go,
 handleUDP): the verdict by its reasons, how long each reason stands, and the same over whole runs.
 */
module UdpVerdicts {
  import opened Basics
  import opened UdpTable
  import opened UdpSafety
  import Selection

  // ---- One datagram ----

  /** The second look at the port tables still leaves the datagram without an owner whose name can be read. */
  predicate Unidentified(w: World, env: Env) {
    || env.owner == 0
    || (env.owner != w.self && env.owner != SYSTEM_PID && NameOf(env.names, env.owner) == ""
        && (env.relook == 0 || env.relook == env.owner || NameOf(env.names, env.relook) == ""))
  }

  /** The tunnel's own datagram, or the System process's. */
  predicate Ours(w: World, env: Env) {
    env.owner != 0 && (env.owner == w.self || env.owner == SYSTEM_PID)
  }

  /** The name the tables give for the owner, at once or on the second look, is not selected. */
  predicate NamedUnselected(w: World, env: Env) {
    !Ours(w, env) && !Unidentified(w, env) && env.Name() !in w.sel.apps
  }

  predicate NamedSelected(w: World, env: Env) {
    !Ours(w, env) && !Unidentified(w, env) && env.Name() in w.sel.apps
  }

  /** A decision is cached for the key, and the port is not now seen with another, selected owner. */
  predicate DecisionStands(w: World, key: Key, env: Env) {
    key in w.udp.direct && !(OwnerSelected(w, env) && env.owner != w.udp.direct[key].pid)
  }

  /** A tunnel socket can be had for the datagram. */
  predicate DialSucceeds(w: World, env: Env) {
    env.ready && !DialPaused(w.udp, env) && env.dial.Dialled?
  }

  /** Everything that lets a non-local datagram without a flow out in the clear. */
  predicate MayPass(w: World, key: Key, env: Env) {
    || DecisionStands(w, key, env)
    || (Unidentified(w, env) && !env.live)
    || Ours(w, env)
    || NamedUnselected(w, env)
    || (NamedSelected(w, env) && w.udp.stopped && DialSucceeds(w, env))
  }

  /**
   A non-local datagram is reinjected if and only if it has no flow and one of these holds: its key has a decision that
   stands; its port is not live and its owner cannot be identified; its owner is this process, System, or a readable name
   that is not selected; or the handler was stopped under it.
   */
  lemma PassesIff(w: World, key: Key, srcIP: Ip, env: Env)
    requires !IsLocalDst(key.dstIP)
    ensures Handle(w, key, srcIP, env).1 <==> key !in w.udp.flows && MayPass(w, key, env)
  {
  }

  /** A local datagram is none of the tunnel's business. */
  lemma LocalPasses(w: World, key: Key, srcIP: Ip, env: Env)
    requires IsLocalDst(key.dstIP)
    ensures Handle(w, key, srcIP, env) == (w.udp, true)
  {
  }

  /** A live port whose owner lags behind in the tables is dropped, whoever it may be; it leaves no trace. */
  lemma UnidentifiedIsDropped(w: World, key: Key, srcIP: Ip, env: Env)
    requires !IsLocalDst(key.dstIP) && Unidentified(w, env) && key !in w.udp.flows && key !in w.udp.direct
    ensures Handle(w, key, srcIP, env) == (w.udp, !env.live)
  {
    assert Retiring(w, key, env) == w.udp;
  }

  /**
   A selected application's datagram without a flow is tunnelled exactly when a socket can be had and the handler is not
   stopped: then the table gains a flow through that socket, for that owner and address, and otherwise it gains none.
   */
  lemma TunnelledIff(w: World, key: Key, srcIP: Ip, env: Env)
    requires !IsLocalDst(key.dstIP) && NamedSelected(w, env) && key !in w.udp.flows && !DecisionStands(w, key, env)
    ensures var u := Handle(w, key, srcIP, env).0;
            if DialSucceeds(w, env) && !w.udp.stopped then
              && u.flows == w.udp.flows[key := Flow(env.dial.conn, env.ResolvedPid(), srcIP, env.later, 0, 0, 0)] - env.evict
              && u.dialled == w.udp.dialled + {env.dial.conn}
            else u.flows == w.udp.flows
  {
  }

  // ---- How long a decision stands ----

  /** The datagram is decided direct: the owner is named and not to be tunnelled, and nothing stands for its key yet. */
  predicate Decides(w: World, ev: Event, key: Key) {
    && ev.Datagram? && ev.key == key && !IsLocalDst(key.dstIP) && key !in w.udp.flows
    && key !in w.udp.direct && (Ours(w, ev.env) || NamedUnselected(w, ev.env))
  }

  /** Two minutes old, or one too many. */
  predicate Expires(w: World, ev: Event, key: Key)
    requires key in w.udp.direct
  {
    ev.Sweep? && (w.udp.direct[key].at < ev.now - IDLE_TIMEOUT || |Unexpired(w.udp, ev.now)| > MAX_DIRECT)
  }

  /** What ends a decision: any selection, its expiry, or a datagram that shows the port in selected hands. */
  predicate Ends(w: World, ev: Event, key: Key)
    requires key in w.udp.direct
  {
    || ev.SetApps?
    || Expires(w, ev, key)
    || (ev.Datagram? && ev.key == key && !IsLocalDst(key.dstIP) && !DecisionStands(w, key, ev.env))
  }

  lemma DecisionStep(w: World, ev: Event, key: Key)
    ensures var after := Apply(w, ev).udp.direct;
            && (key in after <==> Decides(w, ev, key) || (key in w.udp.direct && !Ends(w, ev, key)))
            && (key in after && key in w.udp.direct ==> after[key] == w.udp.direct[key])
            && (key in after && key !in w.udp.direct ==>
                  after[key] == Decision(ev.env.now, DecidedPid(w, ev.env)))
  {
    match ev {
      case Datagram(k, srcIP, env) => DatagramDecides(w, k, srcIP, env, key);
      case Sweep(now, v4, v6) => SweepExpires(w, now, v4, v6, key);
      case SetApps(names, start, known) =>
      case _ =>
    }
  }

  lemma DatagramDecides(w: World, k: Key, srcIP: Ip, env: Env, key: Key)
    ensures var ev, after := Datagram(k, srcIP, env), Handle(w, k, srcIP, env).0.direct;
            && (key in after <==> Decides(w, ev, key) || (key in w.udp.direct && !Ends(w, ev, key)))
            && (key in after && key in w.udp.direct ==> after[key] == w.udp.direct[key])
            && (key in after && key !in w.udp.direct ==>
                  after[key] == Decision(env.now, DecidedPid(w, env)))
  {
    if k != key {
      OtherKeysStay(w, k, srcIP, env, key);
    } else if key in w.udp.direct {
      DecisionHolds(w, key, srcIP, env);
    }
  }

  lemma OtherKeysStay(w: World, k: Key, srcIP: Ip, env: Env, key: Key)
    requires k != key
    ensures var after := Handle(w, k, srcIP, env).0.direct;
            (key in after <==> key in w.udp.direct) && (key in after ==> after[key] == w.udp.direct[key])
  {
  }

  lemma DecisionHolds(w: World, key: Key, srcIP: Ip, env: Env)
    requires key in w.udp.direct
    ensures var after := Handle(w, key, srcIP, env).0.direct;
            && (key in after <==> IsLocalDst(key.dstIP) || DecisionStands(w, key, env))
            && (key in after ==> after[key] == w.udp.direct[key])
  {
  }

  lemma SweepExpires(w: World, now: int, v4: Table, v6: Table, key: Key)
    ensures var ev, after := Sweep(now, v4, v6), SweepOnce(w.udp, now, v4, v6).direct;
            && (key in after <==> key in w.udp.direct && !Ends(w, ev, key))
            && (key in after ==> after[key] == w.udp.direct[key])
  {
  }

  /** The key was decided at step j, and nothing has ended the decision since. */
  ghost predicate DecidedAt(ws: seq<World>, es: seq<Event>, j: nat, i: nat, key: Key)
    requires |ws| == |es| + 1 && i <= |es|
  {
    j < i && Decides(ws[j], es[j], key) && forall k: nat :: j < k < i ==> Undisturbed(ws[k], es[k], key)
  }

  predicate Undisturbed(w: World, ev: Event, key: Key) {
    key in w.udp.direct && !Ends(w, ev, key)
  }

  /** What one step of a run does to the decision for a key. */
  ghost predicate DecisionLink(ws: seq<World>, es: seq<Event>, k: nat, key: Key)
    requires |ws| == |es| + 1 && k < |es|
  {
    && (key in ws[k + 1].udp.direct <==> Decides(ws[k], es[k], key) || Undisturbed(ws[k], es[k], key))
    && (Undisturbed(ws[k], es[k], key) ==> ws[k + 1].udp.direct[key] == ws[k].udp.direct[key])
    && (Decides(ws[k], es[k], key) ==>
          ws[k + 1].udp.direct[key] == Decision(es[k].env.now, DecidedPid(ws[k], es[k].env)))
  }

  function DecidedPid(w: World, env: Env): Pid {
    if Ours(w, env) then env.owner else env.ResolvedPid()
  }

  lemma LinksOf(ws: seq<World>, es: seq<Event>, key: Key)
    requires ValidRun(ws, es)
    ensures forall k: nat :: k < |es| ==> DecisionLink(ws, es, k, key)
  {
    forall k: nat | k < |es| ensures DecisionLink(ws, es, k, key) {
      DecisionStep(ws[k], es[k], key);
    }
  }

  lemma {:induction false} DecisionStays(ws: seq<World>, es: seq<Event>, j: nat, i: nat, key: Key)
    requires |ws| == |es| + 1 && i <= |es| && DecidedAt(ws, es, j, i, key)
    requires forall k: nat :: k < |es| ==> DecisionLink(ws, es, k, key)
    ensures key in ws[i].udp.direct
    ensures ws[i].udp.direct[key] == Decision(es[j].env.now, DecidedPid(ws[j], es[j].env))
  {
    assert DecisionLink(ws, es, i - 1, key);
    if j < i - 1 {
      assert Undisturbed(ws[i - 1], es[i - 1], key);
      DecisionStays(ws, es, j, i - 1, key);
    }
  }

  lemma {:induction false} DecisionWasTaken(ws: seq<World>, es: seq<Event>, i: nat, key: Key)
    requires |ws| == |es| + 1 && i <= |es| && key !in ws[0].udp.direct && key in ws[i].udp.direct
    requires forall k: nat :: k < |es| ==> DecisionLink(ws, es, k, key)
    ensures exists j :: 0 <= j < i && DecidedAt(ws, es, j, i, key)
  {
    assert DecisionLink(ws, es, i - 1, key);
    if Decides(ws[i - 1], es[i - 1], key) {
      assert DecidedAt(ws, es, i - 1, i, key);
    } else {
      DecisionWasTaken(ws, es, i - 1, key);
      var j :| 0 <= j < i - 1 && DecidedAt(ws, es, j, i - 1, key);
      assert DecidedAt(ws, es, j, i, key);
    }
  }

  /** Over every run: a key has a cached decision if and only if some datagram took it and nothing has ended it since. */
  lemma DecidedIff(ws: seq<World>, es: seq<Event>, i: nat, key: Key)
    requires RunsFromStart(ws, es) && i <= |es|
    ensures key in ws[i].udp.direct <==> exists j :: 0 <= j < i && DecidedAt(ws, es, j, i, key)
    ensures forall j :: 0 <= j < i && DecidedAt(ws, es, j, i, key) ==>
              key in ws[i].udp.direct && ws[i].udp.direct[key].pid == DecidedPid(ws[j], es[j].env)
  {
    LinksOf(ws, es, key);
    if key in ws[i].udp.direct {
      DecisionWasTaken(ws, es, i, key);
    }
    forall j | 0 <= j < i && DecidedAt(ws, es, j, i, key)
      ensures key in ws[i].udp.direct && ws[i].udp.direct[key].pid == DecidedPid(ws[j], es[j].env)
    {
      DecisionStays(ws, es, j, i, key);
    }
  }

  // ---- Over runs ----

  /** The process the datagram's decision names, or the tables name now, is this process, System, or one that is not selected. */
  predicate Harmless(w: World, pid: Pid, truth: Names) {
    pid == w.self || pid == SYSTEM_PID || (NameOf(truth, pid) != "" && NameOf(truth, pid) !in w.sel.apps)
  }

  /** At step i the datagram passes for the sake of the process pid: the tables name it now, or named it when it was decided. */
  ghost predicate PassesFor(ws: seq<World>, es: seq<Event>, i: nat, pid: Pid)
    requires |ws| == |es| + 1 && i < |es| && es[i].Datagram?
  {
    || pid == DecidedPid(ws[i], es[i].env)
    || exists j :: 0 <= j < i && DecidedAt(ws, es, j, i, es[i].key) && DecidedPid(ws[j], es[j].env) == pid
  }

  /**
   UDP fails closed over every run, for every datagram: on a live port, while the handler is not stopped, whatever is
   reinjected passes for the sake of a process that is not selected. In particular a datagram whose owner nobody can
   identify never is, unless its key was decided for such a process since the selection was last changed.
   */
  lemma OnlyHarmlessPass(ws: seq<World>, es: seq<Event>, s: nat, i: nat, truth: Names)
    requires RunsFromStart(ws, es) && s < i < |es| && es[s].SetApps? && SameSelection(es, s + 1, i)
    requires forall k :: s < k <= i ==> TruthfulEvent(es[k], truth)
    requires es[i].Datagram? && !IsLocalDst(es[i].key.dstIP) && es[i].env.live && !ws[i].udp.stopped
    requires Handle(ws[i], es[i].key, es[i].srcIP, es[i].env).1
    ensures exists pid :: Harmless(ws[i], pid, truth) && PassesFor(ws, es, i, pid)
    ensures Unidentified(ws[i], es[i].env) ==> exists j :: s < j < i && DecidedAt(ws, es, j, i, es[i].key)
  {
    var w, env, key := ws[i], es[i].env, es[i].key;
    PassesIff(w, key, es[i].srcIP, env);
    DirectUnselectedSince(ws, es, s, i, truth);
    if DecisionStands(w, key, env) {
      DecidedIff(ws, es, i, key);
      var j :| 0 <= j < i && DecidedAt(ws, es, j, i, key);
      DecidedSinceSelection(ws, es, s, j, i, key);
      assert Harmless(w, DecidedPid(ws[j], es[j].env), truth) && PassesFor(ws, es, i, DecidedPid(ws[j], es[j].env));
    } else {
      assert Harmless(w, DecidedPid(w, env), truth) && PassesFor(ws, es, i, DecidedPid(w, env));
    }
  }

  lemma DecidedSinceSelection(ws: seq<World>, es: seq<Event>, s: nat, j: nat, i: nat, key: Key)
    requires |ws| == |es| + 1 && s < i <= |es| && es[s].SetApps? && DecidedAt(ws, es, j, i, key)
    ensures s < j
  {
    assert j < s ==> Undisturbed(ws[s], es[s], key);
  }

  // ---- Dialling ----

  /** The datagram's dial is made, and fails at this time. */
  predicate DialFails(w: World, ev: Event, at: int) {
    && ev.Datagram? && !IsLocalDst(ev.key.dstIP) && ev.key !in w.udp.flows && NamedSelected(w, ev.env)
    && !DecisionStands(w, ev.key, ev.env) && ev.env.ready && !DialPaused(w.udp, ev.env) && ev.env.dial == NoDial(at)
  }

  ghost predicate SomeDialFails(w: World, ev: Event) {
    exists at :: DialFails(w, ev, at)
  }

  lemma DialFailStep(w: World, ev: Event)
    ensures forall at :: DialFails(w, ev, at) ==> Apply(w, ev).udp.dialFail == at
    ensures !SomeDialFails(w, ev) ==> Apply(w, ev).udp.dialFail == w.udp.dialFail
  {
    if ev.Datagram? {
      DatagramDialFails(w, ev.key, ev.srcIP, ev.env);
    }
  }

  lemma DatagramDialFails(w: World, key: Key, srcIP: Ip, env: Env)
    ensures var ev, u := Datagram(key, srcIP, env), Handle(w, key, srcIP, env).0;
            if env.dial.NoDial? && DialFails(w, ev, env.dial.at) then u.dialFail == env.dial.at else u.dialFail == w.udp.dialFail
  {
    assert env.dial.NoDial? && DialFails(w, Datagram(key, srcIP, env), env.dial.at) ==> SomeDialFails(w, Datagram(key, srcIP, env));
  }

  /** The last dial to fail before step i failed at step j, at this time. */
  ghost predicate LastFailure(ws: seq<World>, es: seq<Event>, j: nat, i: nat, at: int)
    requires |ws| == |es| + 1 && i <= |es|
  {
    j < i && DialFails(ws[j], es[j], at) && forall k: nat :: j < k < i ==> !SomeDialFails(ws[k], es[k])
  }

  ghost predicate DialLink(ws: seq<World>, es: seq<Event>, k: nat)
    requires |ws| == |es| + 1 && k < |es|
  {
    && (forall at :: DialFails(ws[k], es[k], at) ==> ws[k + 1].udp.dialFail == at)
    && (!SomeDialFails(ws[k], es[k]) ==> ws[k + 1].udp.dialFail == ws[k].udp.dialFail)
  }

  lemma {:induction false} FailureIsNoted(ws: seq<World>, es: seq<Event>, j: nat, i: nat, at: int)
    requires |ws| == |es| + 1 && i <= |es| && LastFailure(ws, es, j, i, at)
    requires forall k: nat :: k < |es| ==> DialLink(ws, es, k)
    ensures ws[i].udp.dialFail == at
  {
    assert DialLink(ws, es, i - 1);
    if j < i - 1 {
      FailureIsNoted(ws, es, j, i - 1, at);
    }
  }

  lemma {:induction false} FailureHasOrigin(ws: seq<World>, es: seq<Event>, i: nat)
    requires |ws| == |es| + 1 && i <= |es| && ws[0].udp.dialFail == 0 && ws[i].udp.dialFail != 0
    requires forall k: nat :: k < |es| ==> DialLink(ws, es, k)
    ensures exists j :: 0 <= j < i && LastFailure(ws, es, j, i, ws[i].udp.dialFail)
  {
    var at := ws[i].udp.dialFail;
    assert DialLink(ws, es, i - 1);
    if SomeDialFails(ws[i - 1], es[i - 1]) {
      var a :| DialFails(ws[i - 1], es[i - 1], a);
      assert LastFailure(ws, es, i - 1, i, at);
    } else {
      FailureHasOrigin(ws, es, i - 1);
      var j :| 0 <= j < i - 1 && LastFailure(ws, es, j, i - 1, at);
      assert LastFailure(ws, es, j, i, at);
    }
  }

  /**
   Over every run, dialling is paused for a datagram if and only if the last dial to fail did so less than a second before
   it. (The clock's zero stands for no failure.)
   */
  lemma PausedIffJustFailed(ws: seq<World>, es: seq<Event>, i: nat)
    requires RunsFromStart(ws, es) && i < |es| && es[i].Datagram?
    ensures DialPaused(ws[i].udp, es[i].env) <==>
              exists j, at :: 0 <= j < i && LastFailure(ws, es, j, i, at) && at != 0 && es[i].env.later - at < DIAL_PAUSE
  {
    forall k: nat | k < |es| ensures DialLink(ws, es, k) {
      DialFailStep(ws[k], es[k]);
    }
    if DialPaused(ws[i].udp, es[i].env) {
      FailureHasOrigin(ws, es, i);
    }
    forall j: nat, at | j < i && LastFailure(ws, es, j, i, at) ensures ws[i].udp.dialFail == at {
      FailureIsNoted(ws, es, j, i, at);
    }
  }

  // ---- Ends of flows ----

  /** A reader that ends closes its socket and takes its own flow with it, and no other. */
  lemma ReaderEndsOnlyItsOwn(w: World, key: Key, conn: Conn)
    requires Accounted(w.udp) && Enabled(w, ReaderEnds(key, conn))
    ensures var u := Apply(w, ReaderEnds(key, conn)).udp;
            && conn in u.closed
            && forall k :: k in u.flows <==> k in w.udp.flows && w.udp.flows[k].conn != conn
    ensures var u := Apply(w, ReaderEnds(key, conn)).udp; forall k :: k in u.flows ==> u.flows[k] == w.udp.flows[k]
  {
    forall k | k in w.udp.flows && w.udp.flows[k].conn == conn ensures k == key {
      assert Registered(w.udp, k, conn);
    }
  }

  /** Stopping, pausing, deselecting everything and the teardown after a panic leave no flow and no open socket. */
  lemma StoppingClosesEverySocket(w: World, ev: Event)
    requires Accounted(w.udp)
    requires ev.LoopPanic? || (w.sel.running && (ev.Stop? || ev.Suspend? || (ev.SetApps? && ev.names == {})))
    ensures var u := Apply(w, ev).udp; u.flows == map[] && u.closed == u.dialled == w.udp.dialled && u.stopped
  {
    StopKeepsAccounted(w.udp);
    var v := StopUdp(w.udp);
    assert ConnsOf(v.flows) == {};
    assert v.dialled == v.closed + (v.dialled - v.closed);
    if ev.SetApps? {
      assert Deselected(v.(direct := map[]), ev.names, ev.known) == {};
    }
  }

  /** A change among running selections ends exactly the flows whose owner is known and no longer selected. */
  lemma SelectionEndsFlowIff(w: World, ev: Event, key: Key)
    requires ev.SetApps? && ev.names != {} && w.sel.running && key in w.udp.flows
    ensures var u, name := Apply(w, ev).udp, NameOf(ev.known, w.udp.flows[key].pid);
            && (key !in u.flows <==> name != "" && name !in ev.names)
            && (key in u.flows ==> u.flows[key] == w.udp.flows[key])
            && (key !in u.flows ==> w.udp.flows[key].conn in u.closed)
  {
  }

  /** A flow that has carried nothing for two minutes does not survive a sweep. */
  lemma IdleFlowIsSwept(ws: seq<World>, es: seq<Event>, j: nat, i: nat, key: Key, conn: Conn, at: int)
    requires RunsFromStart(ws, es) && i < |es| && es[i].Sweep? && Registered(ws[i].udp, key, conn)
    requires LastTouch(ws, es, j, i, key, conn, at) && at < es[i].now - IDLE_TIMEOUT
    ensures !Registered(ws[i + 1].udp, key, conn) && conn in ws[i + 1].udp.closed
  {
    RunIsFlowRun(ws, es, key, conn);
    TouchIsStamp(ws, es, j, i, key, conn, at);
    assert key in Dead(ws[i].udp, es[i].now, es[i].v4, es[i].v6);
    assert ws[i + 1] == Apply(ws[i], es[i]);
  }

  lemma TouchIsStamp(ws: seq<World>, es: seq<Event>, j: nat, i: nat, key: Key, conn: Conn, at: int)
    requires FlowRun(ws, es, key, conn) && i <= |es| && Registered(ws[i].udp, key, conn) && LastTouch(ws, es, j, i, key, conn, at)
    ensures ws[i].udp.flows[key].lastSeen == at
  {
    StampIsLastTouch(ws, es, i, key, conn);
    var k :| 0 <= k < i && LastTouch(ws, es, k, i, key, conn, ws[i].udp.flows[key].lastSeen);
    assert j == k;
  }

  // ---- Only selected applications are tunnelled ----

  /** Every flow belongs to a process whose name is selected. */
  ghost predicate FlowsSelected(w: World, truth: Names) {
    forall k :: k in w.udp.flows ==> NameOf(truth, w.udp.flows[k].pid) in w.sel.apps
  }

  lemma StepKeepsFlowsSelected(w: World, ev: Event, truth: Names)
    requires FlowsSelected(w, truth) && TruthfulEvent(ev, truth) && !ev.SetApps? && !ev.Suspend?
    ensures FlowsSelected(Apply(w, ev), truth)
  {
    forall k | k in Apply(w, ev).udp.flows ensures NameOf(truth, Apply(w, ev).udp.flows[k].pid) in w.sel.apps {
      if ev.Datagram? {
        HandleTouchesOneFlow(w, ev.key, ev.srcIP, ev.env, k);
        DatagramFlowOwner(w, ev.key, ev.srcIP, ev.env, k);
      }
    }
  }

  lemma DatagramFlowOwner(w: World, key: Key, srcIP: Ip, env: Env, k: Key)
    requires k in Handle(w, key, srcIP, env).0.flows
    ensures var fl := Handle(w, key, srcIP, env).0.flows[k];
            if k in w.udp.flows then fl.pid == w.udp.flows[k].pid
            else NamedSelected(w, env) && fl.pid == env.ResolvedPid()
  {
    HandleTouchesOneFlow(w, key, srcIP, env, k);
  }

  lemma SelectingKeepsOnlySelected(w: World, ev: Event, truth: Names)
    requires ev.SetApps? && forall k :: k in w.udp.flows ==> NameOf(ev.known, w.udp.flows[k].pid) == NameOf(truth, w.udp.flows[k].pid) != ""
    ensures FlowsSelected(Apply(w, ev), truth)
  {
  }

  ghost predicate SelectionStands(es: seq<Event>, s: nat, i: nat)
    requires s <= i <= |es|
  {
    forall k: nat :: s <= k < i ==> !es[k].SetApps? && !es[k].Suspend?
  }

  /**
   The other direction of failing closed, over every run: since a selection that could read the names of the owners there
   were, no application that is not selected has its datagrams tunnelled.
   */
  lemma {:induction false} OnlySelectedAreTunnelled(ws: seq<World>, es: seq<Event>, s: nat, i: nat, truth: Names)
    requires ValidRun(ws, es) && s < i <= |es| && es[s].SetApps? && SelectionStands(es, s + 1, i)
    requires forall k :: k in ws[s].udp.flows ==>
               NameOf(es[s].known, ws[s].udp.flows[k].pid) == NameOf(truth, ws[s].udp.flows[k].pid) != ""
    requires forall k: nat :: s < k < i ==> TruthfulEvent(es[k], truth)
    ensures FlowsSelected(ws[i], truth)
  {
    if i == s + 1 {
      SelectingKeepsOnlySelected(ws[s], es[s], truth);
    } else {
      OnlySelectedAreTunnelled(ws, es, s, i - 1, truth);
      StepKeepsFlowsSelected(ws[i - 1], es[i - 1], truth);
    }
  }
}
