/**
 The TCP side of interception (internal/apptunnel/apptunnel_windows.go, handleTCP and sweepTracked):
 which local ports are redirected, which were decided direct, and what evidence retires a decision.
 */
module TcpTable {
  import opened Basics
  import opened Wire

  datatype Mapping = Mapping(appIP: Ip, dstIP: Ip, dstPort: Port, pid: Pid)

  /** Redirected ports, every decided port with its owner at decision time, and sweep strikes. */
  datatype Tcp = Tcp(tracked: map<Port, Mapping>, seen: map<Port, Pid>, miss: map<Port, nat>)

  const EMPTY := Tcp(map[], map[], map[])

  datatype Segment = Segment(ends: Endpoints, syn: bool, ack: bool) {
    predicate Fresh() { syn && !ack }
    predicate SynAck() { syn && ack }
  }

  /**
   What the port tables and the name lookup say while one segment is handled: the owner of an already
   decided port, the owner resolved for an undecided one, and the names of processes.
   */
  datatype Env = Env(owner: Pid, pid: Pid, names: Names, apps: set<string>) {
    predicate OtherOwner(pid: Pid) {
      owner != 0 && owner != pid
    }

    function DecidedName(): string {
      if pid == 0 || pid == SYSTEM_PID then "" else NameOf(names, pid)
    }

    predicate Selected() {
      DecidedName() != "" && DecidedName() in apps
    }
  }

  /** Reinjected as it came, or reinjected inbound with these endpoints. */
  datatype Out = Untouched | Inbound(ends: Endpoints)

  datatype Event =
    | Packet(seg: Segment, env: Env)
    | Sweep(v4: Table, v6: Table)
    | Restart

  /** Ports whose decisions handleTCP may consult or change. */
  predicate Concerns(seg: Segment) {
    seg.ends.srcPort != REDIR_PORT && !IsLocalDst(seg.ends.dstIP)
  }

  /** The decision held for the segment's port belongs to an earlier connection. */
  predicate Stale(t: Tcp, seg: Segment, env: Env) {
    var e := seg.ends;
    if e.srcPort in t.tracked then
      var m := t.tracked[e.srcPort];
      || (seg.Fresh() && (m.dstIP != e.dstIP || m.dstPort != e.dstPort || env.OtherOwner(m.pid)))
      || (seg.SynAck() && env.OtherOwner(m.pid))
    else
      e.srcPort in t.seen && seg.Fresh() && env.OtherOwner(t.seen[e.srcPort])
  }

  function Forget(t: Tcp, port: Port): Tcp {
    Tcp(t.tracked - {port}, t.seen - {port}, t.miss - {port})
  }

  /** The decision a fresh SYN on an undecided port takes. */
  function Decide(t: Tcp, seg: Segment, env: Env): Tcp {
    var e := seg.ends;
    var named := env.DecidedName() != "";
    Tcp(if env.Selected() then t.tracked[e.srcPort := Mapping(e.srcIP, e.dstIP, e.dstPort, env.pid)] else t.tracked,
        if named then t.seen[e.srcPort := env.pid] else t.seen,
        t.miss - {e.srcPort})
  }

  function ToListener(m: Mapping, port: Port): Endpoints {
    Endpoints(m.dstIP, port, m.appIP, REDIR_PORT)
  }

  function Handle(t: Tcp, seg: Segment, env: Env): (r: (Tcp, Out)) {
    var e := seg.ends;
    if e.srcPort == REDIR_PORT then
      if e.dstPort in t.tracked && e.dstIP == t.tracked[e.dstPort].dstIP then
        var m := t.tracked[e.dstPort];
        (t, Inbound(Endpoints(m.dstIP, m.dstPort, m.appIP, e.dstPort)))
      else
        (t, Untouched)
    else if IsLocalDst(e.dstIP) then
      (t, Untouched)
    else
      var t1 := if Stale(t, seg, env) then Forget(t, e.srcPort) else t;
      if e.srcPort in t1.tracked then
        (t1, Inbound(ToListener(t1.tracked[e.srcPort], e.srcPort)))
      else if e.srcPort in t1.seen || !seg.Fresh() then
        (t1, Untouched)
      else
        var t2 := Decide(t1, seg, env);
        (t2, if env.Selected() then Inbound(ToListener(t2.tracked[e.srcPort], e.srcPort)) else Untouched)
  }

  function Strikes(t: Tcp, port: Port): nat {
    if port in t.miss then t.miss[port] else 0
  }

  /** The ports one sweep retires. */
  function Retired(t: Tcp, v4: Table, v6: Table): set<Port> {
    set p | p in t.seen && Absent(v4, v6, p) && Strikes(t, p) + 1 >= 2
  }

  /** One sweep strikes every decided port its tables do not list, and clears those they do. */
  function SweepOnce(t: Tcp, v4: Table, v6: Table): Tcp {
    var gone := Retired(t, v4, v6);
    var struck := set p | p in t.seen && Absent(v4, v6, p) && p !in gone;
    var cleared := set p | p in t.seen && Known(v4, v6) && Listed(v4, v6, p);
    Tcp(t.tracked - gone,
        t.seen - gone,
        map p | p in t.miss.Keys + struck && p !in gone && p !in cleared ::
          if p in struck then Strikes(t, p) + 1 else t.miss[p])
  }

  function Apply(t: Tcp, ev: Event): Tcp {
    match ev
    case Packet(seg, env) => Handle(t, seg, env).0
    case Sweep(v4, v6) => SweepOnce(t, v4, v6)
    case Restart => EMPTY
  }

  /** What holds between any two steps. */
  ghost predicate Inv(t: Tcp) {
    && (forall p :: p in t.tracked ==> p in t.seen && t.tracked[p].pid == t.seen[p])
    && (forall p :: p in t.miss ==> p in t.seen && t.miss[p] == 1)
    && (forall p :: p in t.tracked ==> !IsLocalDst(t.tracked[p].dstIP))
    && (forall p :: p in t.seen ==> p != REDIR_PORT && t.seen[p] != 0 && t.seen[p] != SYSTEM_PID)
  }

  lemma HandleKeepsInv(t: Tcp, seg: Segment, env: Env)
    requires Inv(t)
    ensures Inv(Handle(t, seg, env).0)
  {
    if Concerns(seg) {
      var t1 := if Stale(t, seg, env) then Forget(t, seg.ends.srcPort) else t;
      assert Inv(t1);
      DecideKeepsInv(t1, seg, env);
    }
  }

  lemma DecideKeepsInv(t: Tcp, seg: Segment, env: Env)
    requires Inv(t) && Concerns(seg)
    ensures seg.ends.srcPort !in t.seen ==> Inv(Decide(t, seg, env))
  {
  }

  lemma ApplyKeepsInv(t: Tcp, ev: Event)
    requires Inv(t)
    ensures Inv(Apply(t, ev))
  {
    if ev.Packet? {
      HandleKeepsInv(t, ev.seg, ev.env);
    }
  }

  /**
   What a segment to a non-local address leaves as is decided by the table after it: if its port is
   redirected then, it goes to the listener under the mapping's addresses, and otherwise it is untouched.
   */
  lemma SegmentFollowsTable(t: Tcp, seg: Segment, env: Env)
    requires Concerns(seg)
    ensures var (t', out) := Handle(t, seg, env);
            var p := seg.ends.srcPort;
            out == if p in t'.tracked then Inbound(ToListener(t'.tracked[p], p)) else Untouched
  {
  }

  /** A SYN that opens a connection is redirected if and only if its owner is a selected application. */
  lemma SynIsRoutedIffSelected(t: Tcp, seg: Segment, env: Env)
    requires Inv(t) && Concerns(seg) && seg.Fresh()
    requires seg.ends.srcPort !in t.seen || Stale(t, seg, env)
    ensures var t' := Handle(t, seg, env).0;
            var e := seg.ends;
            && (e.srcPort in t'.tracked <==> env.Selected())
            && (env.Selected() ==> t'.tracked[e.srcPort] == Mapping(e.srcIP, e.dstIP, e.dstPort, env.pid))
            && (e.srcPort in t'.seen <==> env.DecidedName() != "")
  {
  }

  /** A segment changes at most the decision held for its own source port. */
  lemma OtherPortsUntouched(t: Tcp, seg: Segment, env: Env, q: Port)
    requires q != seg.ends.srcPort || !Concerns(seg)
    ensures var t' := Handle(t, seg, env).0;
            && (q in t'.tracked <==> q in t.tracked) && (q in t.tracked ==> t'.tracked[q] == t.tracked[q])
            && (q in t'.seen <==> q in t.seen) && (q in t.seen ==> t'.seen[q] == t.seen[q])
            && (q in t'.miss <==> q in t.miss) && (q in t.miss ==> t'.miss[q] == t.miss[q])
  {
  }

  /**
   The redirect mirrors a connection at the level of the table: while a mapping stands, the listener's
   answer to a redirected segment reaches the application with the original endpoints swapped.
   */
  lemma AnswerMirrors(t: Tcp, p: Port, answer: Segment, env: Env)
    requires Inv(t) && p in t.tracked && answer.ends == ToListener(t.tracked[p], p).Swapped()
    ensures var m := t.tracked[p];
            Handle(t, answer, env) == (t, Inbound(Endpoints(m.appIP, p, m.dstIP, m.dstPort).Swapped()))
  {
  }

  /**
   The listener's segments are returned only to the peer their mapping names, since anyone may connect to the listener:
   any other leaves as it came, and none of them changes a table.
   */
  lemma ReturnedIffPeers(t: Tcp, seg: Segment, env: Env)
    requires seg.ends.srcPort == REDIR_PORT
    ensures var (t', out), e := Handle(t, seg, env), seg.ends;
            && t' == t
            && (out.Inbound? <==> exists m :: m in t.tracked.Items && m.0 == e.dstPort && m.1.dstIP == e.dstIP)
  {
    var e := seg.ends;
    if e.dstPort in t.tracked {
      assert (e.dstPort, t.tracked[e.dstPort]) in t.tracked.Items;
    }
  }

  /** What an application sends to a local address is left alone, whatever is held for its port. */
  lemma LocalIsLeftAlone(t: Tcp, seg: Segment, env: Env)
    requires seg.ends.srcPort != REDIR_PORT && IsLocalDst(seg.ends.dstIP)
    ensures Handle(t, seg, env) == (t, Untouched)
  {
  }

  /** The only evidence that ends a mapping. */
  ghost predicate Ends(t: Tcp, ev: Event, p: Port)
    requires p in t.tracked
  {
    var m := t.tracked[p];
    match ev
    case Packet(seg, env) =>
      && Concerns(seg) && seg.ends.srcPort == p
      && (|| (seg.Fresh() && (seg.ends.dstIP != m.dstIP || seg.ends.dstPort != m.dstPort))
          || (seg.syn && env.OtherOwner(m.pid)))
    case Sweep(v4, v6) => Absent(v4, v6, p) && p in t.miss
    case Restart => true
  }

  /** Without that evidence a mapping stands; with it, only the very segment that ended it can renew it. */
  lemma MappingStandsUntilEnded(t: Tcp, ev: Event, p: Port)
    requires Inv(t) && p in t.tracked
    ensures !Ends(t, ev, p) ==> p in Apply(t, ev).tracked && Apply(t, ev).tracked[p] == t.tracked[p]
    ensures Ends(t, ev, p) ==>
              (p in Apply(t, ev).tracked <==> ev.Packet? && ev.seg.Fresh() && ev.env.Selected())
  {
  }

  ghost predicate ValidRun(ts: seq<Tcp>, es: seq<Event>) {
    && |ts| == |es| + 1
    && ts[0] == EMPTY
    && forall i :: 0 <= i < |es| ==> ts[i + 1] == Apply(ts[i], es[i])
  }

  lemma {:induction false} RunInv(ts: seq<Tcp>, es: seq<Event>, i: nat)
    requires ValidRun(ts, es) && i <= |es|
    ensures Inv(ts[i])
  {
    if i > 0 {
      RunInv(ts, es, i - 1);
      ApplyKeepsInv(ts[i - 1], es[i - 1]);
    }
  }

  ghost predicate NeverEnded(ts: seq<Tcp>, es: seq<Event>, i: nat, j: nat, p: Port)
    requires |ts| == |es| + 1 && i <= j <= |es|
  {
    forall k :: i <= k < j && p in ts[k].tracked ==> !Ends(ts[k], es[k], p)
  }

  /**
   The lifetime of a mapping: from the step after which port p is redirected, for as long as no step
   brings evidence against it, the mapping is the same one and every segment from p to a non-local
   address leaves for the listener under the mapping's addresses.
   */
  lemma {:induction false} MappingLifetime(ts: seq<Tcp>, es: seq<Event>, i: nat, j: nat, p: Port)
    requires ValidRun(ts, es) && i <= j <= |es| && p in ts[i].tracked && NeverEnded(ts, es, i, j, p)
    ensures forall k :: i <= k <= j ==> p in ts[k].tracked && ts[k].tracked[p] == ts[i].tracked[p]
    ensures forall k :: i <= k < j && es[k].Packet? && Concerns(es[k].seg) && es[k].seg.ends.srcPort == p ==>
                          Handle(ts[k], es[k].seg, es[k].env).1 == Inbound(ToListener(ts[i].tracked[p], p))
  {
    if i < j {
      MappingLifetime(ts, es, i, j - 1, p);
      RunInv(ts, es, j - 1);
      MappingStandsUntilEnded(ts[j - 1], es[j - 1], p);
      if es[j - 1].Packet? && Concerns(es[j - 1].seg) && es[j - 1].seg.ends.srcPort == p {
        SegmentFollowsTable(ts[j - 1], es[j - 1].seg, es[j - 1].env);
      }
    }
  }

  /** The step decides port p anew. */
  ghost predicate Decides(t: Tcp, ev: Event, p: Port) {
    && ev.Packet? && Concerns(ev.seg) && ev.seg.Fresh() && ev.seg.ends.srcPort == p
    && (p !in t.seen || Stale(t, ev.seg, ev.env))
  }

  ghost predicate Lists(ev: Event, p: Port) {
    ev.Sweep? && Listed(ev.v4, ev.v6, p)
  }

  /** At step j a sweep missed p, and up to step i p stayed decided, unlisted and undisturbed. */
  ghost predicate StruckSince(ts: seq<Tcp>, es: seq<Event>, j: nat, i: nat, p: Port)
    requires |ts| == |es| + 1
  {
    && j < i <= |es|
    && es[j].Sweep? && Absent(es[j].v4, es[j].v6, p)
    && forall k :: j < k < i ==> Undisturbed(ts[k], es[k], p)
  }

  ghost predicate Undisturbed(t: Tcp, ev: Event, p: Port) {
    !Lists(ev, p) && !Decides(t, ev, p) && ev != Restart
  }

  lemma StrikeHasEvidence(ts: seq<Tcp>, es: seq<Event>, i: nat, p: Port)
    requires ValidRun(ts, es) && i <= |es| && p in ts[i].miss
    ensures exists j :: 0 <= j < i && StruckSince(ts, es, j, i, p)
  {
    forall k: nat | k < i ensures StrikeLink(ts, es, k, p) {
      RunInv(ts, es, k);
      if p in ts[k + 1].miss {
        StrikeStep(ts[k], es[k], p);
      }
    }
    LastStrike(ts, es, i, p);
  }

  /** A strike that stands after step k either stood undisturbed before it or comes from it. */
  ghost predicate StrikeLink(ts: seq<Tcp>, es: seq<Event>, k: nat, p: Port)
    requires |ts| == |es| + 1 && k < |es|
  {
    p in ts[k + 1].miss ==>
      if p in ts[k].miss then Undisturbed(ts[k], es[k], p) else es[k].Sweep? && Absent(es[k].v4, es[k].v6, p)
  }

  lemma {:induction false} LastStrike(ts: seq<Tcp>, es: seq<Event>, i: nat, p: Port)
    requires |ts| == |es| + 1 && i <= |es| && p !in ts[0].miss && p in ts[i].miss
    requires forall k: nat :: k < i ==> StrikeLink(ts, es, k, p)
    ensures exists j :: 0 <= j < i && StruckSince(ts, es, j, i, p)
  {
    assert StrikeLink(ts, es, i - 1, p);
    if p in ts[i - 1].miss {
      LastStrike(ts, es, i - 1, p);
      var j :| 0 <= j < i - 1 && StruckSince(ts, es, j, i - 1, p);
      assert StruckSince(ts, es, j, i, p);
    } else {
      assert StruckSince(ts, es, i - 1, i, p);
    }
  }

  lemma StrikeStep(t: Tcp, ev: Event, p: Port)
    requires Inv(t) && p in Apply(t, ev).miss
    ensures p in t.miss ==> Undisturbed(t, ev, p)
    ensures p !in t.miss ==> ev.Sweep? && Absent(ev.v4, ev.v6, p)
  {
  }

  /**
   A sweep retires a decision only on its second table-backed absence, with no listing of the port and
   no new decision for it in between.
   */
  lemma SweptOnlyOnEvidence(ts: seq<Tcp>, es: seq<Event>, i: nat, p: Port)
    requires ValidRun(ts, es) && i < |es| && es[i].Sweep? && p in ts[i].seen && p !in ts[i + 1].seen
    ensures Absent(es[i].v4, es[i].v6, p)
    ensures exists j :: 0 <= j < i && StruckSince(ts, es, j, i, p)
  {
    SweptWereAbsent(ts, es, i, p);
    StrikeHasEvidence(ts, es, i, p);
  }

  lemma SweptWereAbsent(ts: seq<Tcp>, es: seq<Event>, i: nat, p: Port)
    requires ValidRun(ts, es) && i < |es| && es[i].Sweep? && p in ts[i].seen && p !in ts[i + 1].seen
    ensures Absent(es[i].v4, es[i].v6, p) && p in ts[i].miss
  {
    RunInv(ts, es, i);
  }

  lemma StrikeStands(t: Tcp, ev: Event, p: Port)
    requires p !in t.seen || p in t.miss
    requires !Lists(ev, p) && (ev.Packet? ==> ev.seg.ends.srcPort != p)
    ensures p !in Apply(t, ev).seen || p in Apply(t, ev).miss
  {
    if ev.Packet? {
      OtherPortsUntouched(t, ev.seg, ev.env, p);
    }
  }

  lemma SecondStrikeRetires(t: Tcp, v4: Table, v6: Table, p: Port)
    requires Inv(t) && Absent(v4, v6, p) && (p !in t.seen || p in t.miss)
    ensures p !in SweepOnce(t, v4, v6).seen
  {
  }

  lemma {:induction false} StrikeStandsSince(ts: seq<Tcp>, es: seq<Event>, j: nat, i: nat, p: Port)
    requires ValidRun(ts, es) && StruckSince(ts, es, j, i, p)
    requires forall k :: j < k < i ==> !es[k].Packet? || es[k].seg.ends.srcPort != p
    ensures p !in ts[i].seen || p in ts[i].miss
  {
    if j < i - 1 {
      StrikeStandsSince(ts, es, j, i - 1, p);
      StrikeStands(ts[i - 1], es[i - 1], p);
    }
  }

  /** And two such absences are enough: a gone port does not keep its decision. */
  lemma GonePortIsSwept(ts: seq<Tcp>, es: seq<Event>, j: nat, i: nat, p: Port)
    requires ValidRun(ts, es) && i < |es| && StruckSince(ts, es, j, i, p)
    requires es[i].Sweep? && Absent(es[i].v4, es[i].v6, p)
    requires forall k :: j < k < i ==> !es[k].Packet? || es[k].seg.ends.srcPort != p
    ensures p !in ts[i + 1].seen
  {
    RunInv(ts, es, i);
    StrikeStandsSince(ts, es, j, i, p);
    SecondStrikeRetires(ts[i], es[i].v4, es[i].v6, p);
  }
}
