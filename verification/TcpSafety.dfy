/**
 TCP under a changing selection (internal/apptunnel/apptunnel_windows.go, handleTCP with SetApps and start): a change of
 selection empties no TCP table, so what was decided under the old one is still there.
 */
module TcpSafety {
  import opened Basics
  import opened Wire
  import opened TcpTable
  import Selection

  datatype World = World(sel: Selection.Sel, tcp: Tcp)

  datatype Change = Segments(ev: TcpTable.Event) | Selects(op: Selection.Op)

  const INITIAL := World(Selection.INITIAL, EMPTY)

  /** The operation starts interception and gets past its listener: only this empties the tables. */
  predicate Restarts(s: Selection.Sel, op: Selection.Op) {
    op.SetApps? && op.names != {} && !s.running && op.start != Selection.NoListener
  }

  function Apply(w: World, c: Change): World {
    match c
    case Segments(ev) => w.(tcp := TcpTable.Apply(w.tcp, ev))
    case Selects(op) => World(Selection.Apply(w.sel, op), if Restarts(w.sel, op) then EMPTY else w.tcp)
  }

  /** Segments are judged by the selection of the moment, and restarts happen only by an operation. */
  predicate Enabled(w: World, c: Change) {
    c.Segments? ==> c.ev != Restart && (c.ev.Packet? ==> c.ev.env.apps == w.sel.apps)
  }

  ghost predicate ValidRun(ws: seq<World>, cs: seq<Change>) {
    && |ws| == |cs| + 1 && ws[0] == INITIAL
    && forall i :: 0 <= i < |cs| ==> Enabled(ws[i], cs[i]) && ws[i + 1] == Apply(ws[i], cs[i])
  }

  lemma {:induction false} RunKeepsInv(ws: seq<World>, cs: seq<Change>, i: nat)
    requires ValidRun(ws, cs) && i <= |cs|
    ensures Inv(ws[i].tcp)
  {
    if i > 0 {
      RunKeepsInv(ws, cs, i - 1);
      if cs[i - 1].Segments? {
        ApplyKeepsInv(ws[i - 1].tcp, cs[i - 1].ev);
      }
    }
  }

  /** The port was decided direct, and the tables do not show that it has changed hands since. */
  predicate HeldDirect(t: Tcp, port: Port, owner: Pid) {
    port in t.seen && port !in t.tracked && (owner == 0 || owner == t.seen[port])
  }

  /**
   A selected application's fresh SYN to a non-local address goes out in the clear if and only if a direct decision is
   held for its port.
   */
  lemma SelectedSynPassesIff(t: Tcp, seg: Segment, env: Env)
    requires Inv(t) && Concerns(seg) && seg.Fresh() && env.Selected()
    ensures Handle(t, seg, env).1 == Untouched <==> HeldDirect(t, seg.ends.srcPort, env.owner)
  {
  }

  /** No direct decision is held for a process of a selected application. */
  ghost predicate DirectIsUnselected(t: Tcp, apps: set<string>, truth: Names) {
    forall p :: p in t.seen && p !in t.tracked ==> NameOf(truth, t.seen[p]) != "" && NameOf(truth, t.seen[p]) !in apps
  }

  ghost predicate TruthfulChange(c: Change, truth: Names) {
    c.Segments? && c.ev.Packet? ==> Truthful(c.ev.env.names, truth)
  }

  lemma StepKeepsDirectUnselected(w: World, c: Change, truth: Names)
    requires Inv(w.tcp) && Enabled(w, c) && TruthfulChange(c, truth) && DirectIsUnselected(w.tcp, w.sel.apps, truth)
    requires Apply(w, c).sel.apps <= w.sel.apps
    ensures DirectIsUnselected(Apply(w, c).tcp, Apply(w, c).sel.apps, truth)
  {
    if c.Segments? && c.ev.Packet? {
      var t := Handle(w.tcp, c.ev.seg, c.ev.env).0;
      forall p | p in t.seen && p !in t.tracked ensures NameOf(truth, t.seen[p]) != "" && NameOf(truth, t.seen[p]) !in w.sel.apps {
        if p != c.ev.seg.ends.srcPort {
          OtherPortsUntouched(w.tcp, c.ev.seg, c.ev.env, p);
        } else {
          DecidedDirectIsUnselected(w.tcp, c.ev.seg, c.ev.env);
        }
      }
    }
  }

  /** A segment leaves a direct decision for its port only if it found it there or took it for an unselected name. */
  lemma DecidedDirectIsUnselected(t: Tcp, seg: Segment, env: Env)
    requires Inv(t)
    ensures var p, t' := seg.ends.srcPort, Handle(t, seg, env).0;
            p in t'.seen && p !in t'.tracked ==>
              || (p in t.seen && p !in t.tracked && t'.seen[p] == t.seen[p])
              || (t'.seen[p] == env.pid && NameOf(env.names, env.pid) != "" && NameOf(env.names, env.pid) !in env.apps)
  {
  }

  predicate Shrinks(ws: seq<World>, k: nat)
    requires k + 1 < |ws|
  {
    ws[k + 1].sel.apps <= ws[k].sel.apps
  }

  /** From a restart at step s, no operation before step i has added an application to the selection. */
  ghost predicate NothingAdded(ws: seq<World>, cs: seq<Change>, s: nat, i: nat)
    requires |ws| == |cs| + 1 && s < i <= |cs|
  {
    forall k: nat :: s < k < i ==> Shrinks(ws, k)
  }

  ghost predicate KeepsDirectUnselected(ws: seq<World>, k: nat, truth: Names)
    requires k + 1 < |ws|
  {
    DirectIsUnselected(ws[k].tcp, ws[k].sel.apps, truth) ==> DirectIsUnselected(ws[k + 1].tcp, ws[k + 1].sel.apps, truth)
  }

  lemma {:induction false} StaysUnselected(ws: seq<World>, s: nat, i: nat, truth: Names)
    requires s < i < |ws| && DirectIsUnselected(ws[s + 1].tcp, ws[s + 1].sel.apps, truth)
    requires forall k: nat :: s < k < i ==> KeepsDirectUnselected(ws, k, truth)
    ensures DirectIsUnselected(ws[i].tcp, ws[i].sel.apps, truth)
  {
    if i > s + 1 {
      assert KeepsDirectUnselected(ws, i - 1, truth);
      StaysUnselected(ws, s, i - 1, truth);
    }
  }

  /** Since a restart, as long as no application is added, no direct decision is held for a selected process. */
  lemma DirectUnselectedSince(ws: seq<World>, cs: seq<Change>, s: nat, i: nat, truth: Names)
    requires ValidRun(ws, cs) && s < i <= |cs| && cs[s].Selects? && Restarts(ws[s].sel, cs[s].op) && NothingAdded(ws, cs, s, i)
    requires forall k :: s < k < i ==> TruthfulChange(cs[k], truth)
    ensures DirectIsUnselected(ws[i].tcp, ws[i].sel.apps, truth)
  {
    forall k: nat | s < k < i ensures KeepsDirectUnselected(ws, k, truth) {
      RunKeepsInv(ws, cs, k);
      assert Shrinks(ws, k);
      if DirectIsUnselected(ws[k].tcp, ws[k].sel.apps, truth) {
        StepKeepsDirectUnselected(ws[k], cs[k], truth);
      }
    }
    assert ws[s + 1].tcp == EMPTY;
    StaysUnselected(ws, s, i, truth);
  }

  /** The segment makes its port a direct one: a fresh SYN of an owner whose readable name is not selected. */
  predicate TakesDirect(c: Change, p: Port) {
    && c.Segments? && c.ev.Packet? && Concerns(c.ev.seg) && c.ev.seg.Fresh() && c.ev.seg.ends.srcPort == p
    && c.ev.env.DecidedName() != "" && !c.ev.env.Selected()
  }

  predicate DirectFor(t: Tcp, p: Port, pid: Pid) {
    p in t.seen && p !in t.tracked && t.seen[p] == pid
  }

  /** Step j took port p as a direct one, and up to step i nothing has changed that. */
  ghost predicate DirectFrom(ws: seq<World>, cs: seq<Change>, j: nat, i: nat, p: Port)
    requires |ws| == |cs| + 1 && i <= |cs|
  {
    j < i && TakesDirect(cs[j], p) && forall k :: j < k <= i ==> DirectFor(ws[k].tcp, p, cs[j].ev.env.pid)
  }

  lemma DirectStep(w: World, c: Change, p: Port, pid: Pid)
    requires Inv(w.tcp) && Enabled(w, c) && DirectFor(Apply(w, c).tcp, p, pid)
    ensures DirectFor(w.tcp, p, pid) || (TakesDirect(c, p) && c.ev.env.pid == pid)
  {
    if c.Segments? && c.ev.Packet? {
      if c.ev.seg.ends.srcPort == p {
        DirectSegment(w.tcp, c.ev.seg, c.ev.env, pid);
      } else {
        OtherPortsUntouched(w.tcp, c.ev.seg, c.ev.env, p);
      }
    }
  }

  lemma DirectSegment(t: Tcp, seg: Segment, env: Env, pid: Pid)
    requires Inv(t) && DirectFor(Handle(t, seg, env).0, seg.ends.srcPort, pid)
    ensures DirectFor(t, seg.ends.srcPort, pid) || (TakesDirect(Segments(Packet(seg, env)), seg.ends.srcPort) && env.pid == pid)
  {
  }

  /** A direct decision held after step k was held before it, or taken by it. */
  ghost predicate DirectLink(ws: seq<World>, cs: seq<Change>, k: nat, p: Port, pid: Pid)
    requires |ws| == |cs| + 1 && k < |cs|
  {
    DirectFor(ws[k + 1].tcp, p, pid) ==> DirectFor(ws[k].tcp, p, pid) || (TakesDirect(cs[k], p) && cs[k].ev.env.pid == pid)
  }

  lemma {:induction false} LastTaken(ws: seq<World>, cs: seq<Change>, s: nat, i: nat, p: Port, pid: Pid)
    requires |ws| == |cs| + 1 && s < i <= |cs| && !DirectFor(ws[s + 1].tcp, p, pid) && DirectFor(ws[i].tcp, p, pid)
    requires forall k: nat :: s < k < i ==> DirectLink(ws, cs, k, p, pid)
    ensures exists j :: s < j < i && DirectFrom(ws, cs, j, i, p) && cs[j].ev.env.pid == pid
  {
    assert DirectLink(ws, cs, i - 1, p, pid);
    if DirectFor(ws[i - 1].tcp, p, pid) {
      LastTaken(ws, cs, s, i - 1, p, pid);
      var j :| s < j < i - 1 && DirectFrom(ws, cs, j, i - 1, p) && cs[j].ev.env.pid == pid;
      assert DirectFrom(ws, cs, j, i, p);
    } else {
      assert DirectFrom(ws, cs, i - 1, i, p);
    }
  }

  /** A direct decision goes back to the segment that took it, since the last restart. */
  lemma DirectGoesBack(ws: seq<World>, cs: seq<Change>, s: nat, i: nat, p: Port, pid: Pid)
    requires ValidRun(ws, cs) && s < i <= |cs| && cs[s].Selects? && Restarts(ws[s].sel, cs[s].op)
    requires DirectFor(ws[i].tcp, p, pid)
    ensures exists j :: s < j < i && DirectFrom(ws, cs, j, i, p) && cs[j].ev.env.pid == pid
  {
    forall k: nat | s < k < i ensures DirectLink(ws, cs, k, p, pid) {
      RunKeepsInv(ws, cs, k);
      if DirectFor(ws[k + 1].tcp, p, pid) {
        DirectStep(ws[k], cs[k], p, pid);
      }
    }
    assert ws[s + 1].tcp == EMPTY;
    LastTaken(ws, cs, s, i, p, pid);
  }

  /** A step of a selected application's fresh SYN to a non-local address. */
  predicate SelectedSyn(c: Change) {
    c.Segments? && c.ev.Packet? && Concerns(c.ev.seg) && c.ev.seg.Fresh() && c.ev.env.Selected()
  }

  /** The port was taken direct for another process whose name is not selected, and the tables do not show a change of hands. */
  ghost predicate ReusedUnnoticed(ws: seq<World>, cs: seq<Change>, j: nat, i: nat, truth: Names)
    requires |ws| == |cs| + 1 && i < |cs| && SelectedSyn(cs[i])
  {
    var env := cs[i].ev.env;
    && DirectFrom(ws, cs, j, i, cs[i].ev.seg.ends.srcPort)
    && var other := cs[j].ev.env.pid;
       other != env.pid && NameOf(truth, other) !in ws[i].sel.apps && (env.owner == 0 || env.owner == other)
  }

  /**
   Since a restart, and until the selection grows, over every run: a selected application's fresh SYN goes out in the clear
   if and only if its port was taken direct for another, unselected process since then, has been direct ever since, and the
   sampled tables either do not list the port or still name that process.
   */
  lemma PassesIffReused(ws: seq<World>, cs: seq<Change>, s: nat, i: nat, truth: Names)
    requires ValidRun(ws, cs) && s < i < |cs| && cs[s].Selects? && Restarts(ws[s].sel, cs[s].op) && NothingAdded(ws, cs, s, i)
    requires forall k :: s < k <= i ==> TruthfulChange(cs[k], truth)
    requires SelectedSyn(cs[i])
    ensures Handle(ws[i].tcp, cs[i].ev.seg, cs[i].ev.env).1 == Untouched
            <==> exists j :: s < j < i && ReusedUnnoticed(ws, cs, j, i, truth)
  {
    var t, port, env := ws[i].tcp, cs[i].ev.seg.ends.srcPort, cs[i].ev.env;
    DirectUnselectedSince(ws, cs, s, i, truth);
    RunKeepsInv(ws, cs, i);
    SelectedSynPassesIff(t, cs[i].ev.seg, env);
    if HeldDirect(t, port, env.owner) {
      DirectGoesBack(ws, cs, s, i, port, t.seen[port]);
      var j :| s < j < i && DirectFrom(ws, cs, j, i, port) && cs[j].ev.env.pid == t.seen[port];
      assert ReusedUnnoticed(ws, cs, j, i, truth);
    }
    assert forall j :: s < j < i && ReusedUnnoticed(ws, cs, j, i, truth) ==> DirectFor(t, port, cs[j].ev.env.pid);
  }

  /**
   So TCP fails closed over every such stretch for an owner the tables know: no SYN of a selected application whose port
   they list under its process goes out in the clear.
   */
  lemma FailClosed(ws: seq<World>, cs: seq<Change>, s: nat, i: nat, truth: Names)
    requires ValidRun(ws, cs) && s < i < |cs| && cs[s].Selects? && Restarts(ws[s].sel, cs[s].op) && NothingAdded(ws, cs, s, i)
    requires forall k :: s < k <= i ==> TruthfulChange(cs[k], truth)
    requires SelectedSyn(cs[i]) && cs[i].ev.env.owner == cs[i].ev.env.pid
    ensures Handle(ws[i].tcp, cs[i].ev.seg, cs[i].ev.env).1.Inbound?
  {
    PassesIffReused(ws, cs, s, i, truth);
  }

  // ---- Two ways a new connection can pass ----

  /** Two fresh segments open connections from one port to different peers. */
  predicate SamePortNewEnds(first: Segment, second: Segment) {
    && Concerns(first) && first.Fresh() && Concerns(second) && second.Fresh()
    && first.ends.srcPort == second.ends.srcPort
    && (first.ends.dstIP != second.ends.dstIP || first.ends.dstPort != second.ends.dstPort)
  }

  /** A segment with what the tables say while it is handled. */
  datatype Arrival = Arrival(seg: Segment, env: Env)

  predicate StartsSelecting(c: Change, env: Env) {
    c == Selects(Selection.SetApps(env.apps, Selection.Started))
  }

  /**
   In the run, step 0 starts interception, step 1 handles first, step i handles second, and second goes out in the clear
   although app is intercepted.
   */
  ghost predicate Passes(ws: seq<World>, cs: seq<Change>, i: nat, first: Arrival, second: Arrival, app: string) {
    && ValidRun(ws, cs) && 1 < i < |cs| && StartsSelecting(cs[0], first.env) && cs[1] == Segments(Packet(first.seg, first.env))
    && cs[i] == Segments(Packet(second.seg, second.env)) && SelectedSyn(cs[i])
    && ws[i].sel.running && second.env.DecidedName() == app && app in ws[i].sel.apps
    && Handle(ws[i].tcp, second.seg, second.env).1 == Untouched
  }

  lemma TakenDirect(first: Arrival)
    requires Concerns(first.seg) && first.seg.Fresh() && first.env.DecidedName() != "" && !first.env.Selected()
    ensures Handle(EMPTY, first.seg, first.env).0 == Tcp(map[], map[first.seg.ends.srcPort := first.env.pid], map[])
  {
  }

  /**
   When the selection grows: a port decided direct before its application was selected stays direct, and a new connection
   the same process opens from it, to another peer, goes out in the clear although all tables name its owner.
   */
  lemma NewlySelectedCanPass(first: Segment, second: Segment, pid: Pid, app: string, other: string)
    requires SamePortNewEnds(first, second) && pid != 0 && pid != SYSTEM_PID && app != "" && other != "" && app != other
    ensures exists ws: seq<World>, cs: seq<Change> ::
              Passes(ws, cs, 3, Arrival(first, Env(pid, pid, map[pid := app], {other})),
                     Arrival(second, Env(pid, pid, map[pid := app], {other, app})), app)
  {
    var before, after := Env(pid, pid, map[pid := app], {other}), Env(pid, pid, map[pid := app], {other, app});
    var cs := [Selects(Selection.SetApps({other}, Selection.Started)), Segments(Packet(first, before)),
               Selects(Selection.SetApps({other, app}, Selection.Started)), Segments(Packet(second, after))];
    var w1 := Apply(INITIAL, cs[0]);
    TakenDirect(Arrival(first, before));
    var w2 := Apply(w1, cs[1]);
    var w3 := Apply(w2, cs[2]);
    var ws := [INITIAL, w1, w2, w3, Apply(w3, cs[3])];
    forall i | 0 <= i < |cs| ensures Enabled(ws[i], cs[i]) && ws[i + 1] == Apply(ws[i], cs[i]) {
      assert i == 0 || i == 1 || i == 2 || i == 3;
    }
    assert ValidRun(ws, cs) && ws[3] == w3;
    assert Passes(ws, cs, 3, Arrival(first, before), Arrival(second, after), app);
  }

  /**
   And without that: a selected application that takes over a port decided direct for another process passes as long as
   the sampled tables do not list the port, although its name is known.
   */
  lemma ReusedPortCanPass(first: Segment, second: Segment, pid: Pid, gone: Pid, app: string, other: string)
    requires SamePortNewEnds(first, second) && pid != 0 && pid != SYSTEM_PID && gone != 0 && gone != SYSTEM_PID && gone != pid
    requires app != "" && other != "" && app != other
    ensures exists ws: seq<World>, cs: seq<Change> ::
              && Passes(ws, cs, 2, Arrival(first, Env(gone, gone, map[gone := other], {app})),
                        Arrival(second, Env(0, pid, map[pid := app], {app})), app)
  {
    var before, after := Env(gone, gone, map[gone := other], {app}), Env(0, pid, map[pid := app], {app});
    var cs := [Selects(Selection.SetApps({app}, Selection.Started)), Segments(Packet(first, before)),
               Segments(Packet(second, after))];
    var w1 := Apply(INITIAL, cs[0]);
    TakenDirect(Arrival(first, before));
    var w2 := Apply(w1, cs[1]);
    var ws := [INITIAL, w1, w2, Apply(w2, cs[2])];
    forall i | 0 <= i < |cs| ensures Enabled(ws[i], cs[i]) && ws[i + 1] == Apply(ws[i], cs[i]) {
      assert i == 0 || i == 1 || i == 2;
    }
    assert ValidRun(ws, cs) && ws[2] == w2;
    assert Passes(ws, cs, 2, Arrival(first, before), Arrival(second, after), app);
  }
}
