/**
 The interception engine (internal/apptunnel/apptunnel_windows.go) as one object: every handler, sweep and
 transition updates the tables in place and is proved to take exactly the step the table modules specify.
 */
module Engine {
  import opened Basics
  import opened Wire
  import Selection
  import Sorting
  import TcpTable
  import Text
  import UdpSafety
  import U = UdpTable

  /** A selected name as it is stored: trimmed and lower-cased. */
  function Folded(name: string): string {
    Text.Lower(Text.TrimSpace(name))
  }

  function Selected(names: seq<string>): set<string> {
    set i | 0 <= i < |names| && Folded(names[i]) != "" :: Folded(names[i])
  }

  /**
   What a list of names selects: a name is selected if and only if it is not empty, lower-case, and some entry of the list
   is that name but for letter case and white space around it.
   */
  lemma SelectedMeans(names: seq<string>, n: string)
    ensures n in Selected(names) <==> n != "" && Text.NoUpper(n) && exists i, a, t, b :: Names(names, n, i, a, t, b)
  {
    forall i | 0 <= i < |names| ensures Folded(names[i]) == n <==> Text.NoUpper(n) && exists a, t, b :: Names(names, n, i, a, t, b)
    {
      FoldedMeans(names, n, i);
    }
  }

  predicate Names(names: seq<string>, n: string, i: int, a: string, t: string, b: string) {
    0 <= i < |names| && Text.Pads(names[i], a, t, b) && Text.SameLetters(t, n)
  }

  lemma FoldedMeans(names: seq<string>, n: string, i: nat)
    requires i < |names|
    ensures Folded(names[i]) == n <==> Text.NoUpper(n) && exists a, t, b :: Names(names, n, i, a, t, b)
  {
    var t := Text.TrimSpace(names[i]);
    Text.LowerForgetsCase(t, n);
    Text.LowerForgetsCase(n, t);
    Text.TrimIsTheMiddle(names[i], t);
    var a, b :| Text.Pads(names[i], a, t, b);
    if Folded(names[i]) == n {
      assert Names(names, n, i, a, t, b);
    }
    forall a, t', b | Names(names, n, i, a, t', b) ensures t' == t {
      Text.TrimIsTheMiddle(names[i], t');
    }
  }

  /** How a captured packet is dispatched. */
  datatype Kind = Foreign | V6 | Tcp(ihl: nat) | Udp(ihl: nat)

  function Classify(p: seq<byte>): (k: Kind)
    ensures k.Tcp? || k.Udp? ==> 20 <= k.ihl <= 60 && k.ihl + 8 <= |p|
    ensures k.V6? ==> |p| >= 20
  {
    if |p| < 20 then Foreign
    else if p[0] / 16 == 6 then V6
    else if p[0] / 16 != 4 || (p[9] != 6 && p[9] != 17) then Foreign
    else
      var ihl := p[0] % 16 * 4;
      if ihl < 20 || |p| < ihl + 8 then Foreign
      else if p[9] == 17 then Udp(ihl) else Tcp(ihl)
  }

  function SegmentOf(p: seq<byte>, ihl: nat): TcpTable.Segment
    requires TcpSized(p, ihl)
  {
    TcpTable.Segment(EndpointsOf(p, ihl), p[ihl + 13] / 2 % 2 == 1, p[ihl + 13] / 16 % 2 == 1)
  }

  /** A packet that shows exactly these endpoints and is otherwise the same outside the address and port fields. */
  ghost predicate Rewritten(p: seq<byte>, q: seq<byte>, ihl: nat, e: Endpoints)
    requires TcpSized(p, ihl)
  {
    && |q| == |p| && EndpointsOf(q, ihl) == e
    && forall i :: 0 <= i < |p| && !InAddresses(i) && !(ihl <= i < ihl + 4) ==> q[i] == p[i]
  }

  /** The segment p takes the table from t to t' and leaves as q, inbound or as it came. */
  ghost predicate TcpStep(t: TcpTable.Tcp, t': TcpTable.Tcp, seg: TcpTable.Segment, env: TcpTable.Env,
                          p: seq<byte>, q: seq<byte>, ihl: nat, inbound: bool)
    requires TcpSized(p, ihl)
  {
    var (after, out) := TcpTable.Handle(t, seg, env);
    && t' == after && inbound == out.Inbound?
    && (out.Untouched? ==> q == p)
    && (out.Inbound? ==> Rewritten(p, q, ihl, out.ends))
  }

  /** The bytes of a connection's first segment, from a port nothing is decided for: the SYN bit alone, to a non-local peer. */
  predicate OpensAt(p: seq<byte>, ihl: nat, t: TcpTable.Tcp) {
    && TcpSized(p, ihl) && p[ihl + 13] == 0x02 && !IsLocalDst(IpAt(p, DST_IP))
    && U16(p, ihl) != REDIR_PORT && U16(p, ihl) !in t.seen
  }

  /** In q the packet p is addressed to the listener, under the mapping its port now has in t. */
  predicate RedirectedBy(t: TcpTable.Tcp, p: seq<byte>, q: seq<byte>, ihl: nat) {
    && TcpSized(p, ihl) && TcpSized(q, ihl) && U16(p, ihl) in t.tracked
    && EndpointsOf(q, ihl) == TcpTable.ToListener(t.tracked[U16(p, ihl)], U16(p, ihl))
  }

  /** What the control bits alone decide: a bare SYN opens, a bare ACK changes no table. */
  lemma BytesDecide(t: TcpTable.Tcp, t': TcpTable.Tcp, env: TcpTable.Env, p: seq<byte>, q: seq<byte>, ihl: nat, inbound: bool)
    requires TcpTable.Inv(t) && TcpSized(p, ihl) && TcpStep(t, t', SegmentOf(p, ihl), env, p, q, ihl, inbound)
    ensures OpensAt(p, ihl, t) && env.Selected() ==> inbound && RedirectedBy(t', p, q, ihl)
    ensures p[ihl + 13] == 0x10 ==> t' == t
  {
  }

  function KeyOf(p: seq<byte>, ihl: nat): U.Key
    requires 20 <= ihl && ihl + 4 <= |p|
  {
    var e := EndpointsOf(p, ihl);
    U.Key(e.srcPort, e.dstIP, e.dstPort)
  }

  class Engine {
    const self: Pid

    // guarded by mu
    var apps: set<string>
    var lastSel: set<string>
    var pendingReset: set<string>
    var running: bool

    // guarded by trackMu
    var tracked: map<Port, TcpTable.Mapping>
    var seen: map<Port, Pid>
    var trackMiss: map<Port, nat>

    // guarded by udpMu
    var udpFlows: map<U.Key, U.Flow>
    var udpDirect: map<U.Key, U.Decision>
    var udpStopped: bool
    var lastDialFail: int

    // every tunnel socket ever dialled, and those closed
    ghost var dialled: set<U.Conn>
    ghost var closed: set<U.Conn>

    ghost function SelView(): Selection.Sel
      reads this`apps, this`lastSel, this`pendingReset, this`running
    {
      Selection.Sel(apps, lastSel, pendingReset, running)
    }

    ghost function TcpView(): TcpTable.Tcp
      reads this`tracked, this`seen, this`trackMiss
    {
      TcpTable.Tcp(tracked, seen, trackMiss)
    }

    ghost function UdpView(): U.Udp
      reads this`udpFlows, this`udpDirect, this`udpStopped, this`lastDialFail, this`dialled, this`closed
    {
      U.Udp(udpFlows, udpDirect, udpStopped, lastDialFail, dialled, closed)
    }

    ghost function World(): U.World
      reads this`apps, this`lastSel, this`pendingReset, this`running
      reads this`udpFlows, this`udpDirect, this`udpStopped, this`lastDialFail, this`dialled, this`closed
    {
      U.World(self, SelView(), UdpView())
    }

    ghost predicate TcpValid()
      reads this`tracked, this`seen, this`trackMiss
    {
      TcpTable.Inv(TcpView())
    }

    ghost predicate UdpValid()
      reads this`udpFlows, this`udpDirect, this`udpStopped, this`lastDialFail, this`dialled, this`closed
    {
      UdpSafety.SocketsSafe(UdpView())
    }

    ghost predicate Valid()
      reads this
    {
      TcpValid() && UdpValid()
    }

    constructor (self: Pid)
      ensures Valid()
      ensures World() == U.Initial(self) && TcpView() == TcpTable.EMPTY
    {
      this.self := self;
      apps, lastSel, pendingReset, running := {}, {}, {}, false;
      tracked, seen, trackMiss := map[], map[], map[];
      udpFlows, udpDirect, udpStopped, lastDialFail := map[], map[], false, 0;
      dialled, closed := {}, {};
    }

    // ---- Transitions ----

    /**
     Replaces the selection; resets names the applications whose connections are reset. The tables stay valid unless a
     start finds flows left over.
     */
    method SetApps(names: seq<string>, start: Selection.Start, known: Names) returns (resets: set<string>)
      requires Valid()
      modifies this
      ensures TcpValid()
      ensures UdpValid() <==> UdpSafety.StartsClean(old(World()), U.SetApps(Selected(names), start, known))
      ensures World() == U.Apply(old(World()), U.SetApps(Selected(names), start, known))
      ensures resets == Selection.Resets(old(SelView()), Selection.SetApps(Selected(names), start))
      ensures TcpView() == if Selected(names) != {} && !old(running) && start != Selection.NoListener
                           then TcpTable.EMPTY else old(TcpView())
    {
      ghost var w := World();
      resets := Reselect(names, start, known);
      UdpSafety.StepKeepsSocketsSafe(w, U.SetApps(Selected(names), start, known));
    }

    method Reselect(names: seq<string>, start: Selection.Start, known: Names) returns (resets: set<string>)
      modifies this
      ensures SelView() == Selection.Apply(old(SelView()), Selection.SetApps(Selected(names), start))
      ensures UdpView() == U.Select(old(World()), Selected(names), start, known)
      ensures resets == Selection.Resets(old(SelView()), Selection.SetApps(Selected(names), start))
      ensures TcpView() == if Selected(names) != {} && !old(running) && start != Selection.NoListener
                           then TcpTable.EMPTY else old(TcpView())
    {
      var added := FoldNames(names);
      var want := apps != {};
      added := added + (pendingReset * apps);
      SwitchTables(want, start, known);
      if running || !want {
        pendingReset := {};
      } else {
        pendingReset := apps;
      }
      lastSel := apps;
      resets := if running then added else {};
    }

    /** Starts or stops interception to match the selection, and lets go of what it no longer covers. */
    method SwitchTables(want: bool, start: Selection.Start, known: Names)
      requires want == (apps != {})
      modifies this`running
      modifies this`tracked, this`seen, this`trackMiss
      modifies this`udpFlows, this`udpDirect, this`udpStopped, this`lastDialFail, this`dialled, this`closed
      ensures running == Selection.RunningAfter(old(SelView()), apps, start)
      ensures UdpView() == U.Select(old(World()), apps, start, known)
      ensures TcpView() == if want && !old(running) && start != Selection.NoListener then TcpTable.EMPTY else old(TcpView())
    {
      if want && !running {
        Start(start);
      } else if !want && running {
        StopRunning();
      }
      udpDirect := map[];
      DropDeselected(known);
    }

    /** Stores the folded names as the selection and returns those the last selection did not have. */
    method FoldNames(names: seq<string>) returns (added: set<string>)
      modifies this`apps
      ensures apps == Selected(names) && added == apps - lastSel
    {
      apps, added := {}, {};
      var i := 0;
      while i < |names|
        invariant 0 <= i <= |names|
        invariant apps == Selected(names[..i]) && added == apps - lastSel
      {
        SelectedSnoc(names, i);
        added := AddName(Folded(names[i]), added);
        i := i + 1;
      }
      assert names[..|names|] == names;
    }

    method AddName(n: string, before: set<string>) returns (added: set<string>)
      requires before == apps - lastSel
      modifies this`apps
      ensures apps == (if n != "" then old(apps) + {n} else old(apps)) && added == apps - lastSel
    {
      added := before;
      if n != "" {
        apps := apps + {n};
        if n !in lastSel {
          added := added + {n};
        }
      }
    }

    method DropDeselected(known: Names)
      modifies this`udpFlows, this`closed
      ensures UdpView() == U.Close(old(UdpView()), U.Deselected(old(UdpView()), apps, known))
    {
      var drop := set k | k in udpFlows && NameOf(known, udpFlows[k].pid) != "" && NameOf(known, udpFlows[k].pid) !in apps;
      closed := closed + set k | k in drop && k in udpFlows :: udpFlows[k].conn;
      udpFlows := udpFlows - drop;
    }

    /** start(): the tables are emptied once the listener is up, before the capture handles are opened. */
    method Start(start: Selection.Start)
      requires !running
      modifies this`running
      modifies this`tracked, this`seen, this`trackMiss
      modifies this`udpFlows, this`udpDirect, this`udpStopped, this`lastDialFail, this`dialled, this`closed
      ensures SelView() == old(SelView()).(running := start == Selection.Started)
      ensures UdpView() == U.StartUdp(old(UdpView()), start)
      ensures TcpView() == if start == Selection.NoListener then old(TcpView()) else TcpTable.EMPTY
    {
      if start == Selection.NoListener {
        return;
      }
      tracked, seen, trackMiss := map[], map[], map[];
      udpFlows, udpDirect, udpStopped := map[], map[], false;
      if start == Selection.NoCapture {
        return;
      }
      running := true;
    }

    /** stopLocked() on a running engine: every tunnel socket is closed. */
    method StopRunning()
      requires running
      modifies this`running
      modifies this`tracked, this`seen, this`trackMiss
      modifies this`udpFlows, this`udpDirect, this`udpStopped, this`lastDialFail, this`dialled, this`closed
      ensures SelView() == old(SelView()).(running := false)
      ensures UdpView() == U.StopUdp(old(UdpView()))
      ensures TcpView() == old(TcpView())
    {
      running := false;
      udpStopped := true;
      closed := closed + set k | k in udpFlows.Keys && k in udpFlows :: udpFlows[k].conn;
      udpFlows := map[];
      assert old(udpFlows) - old(udpFlows).Keys == map[];
    }

    method Suspend()
      requires Valid()
      modifies this
      ensures Valid()
      ensures World() == U.Apply(old(World()), U.Suspend) && TcpView() == old(TcpView())
    {
      UdpSafety.StepKeepsSocketsSafe(World(), U.Suspend);
      if apps != {} {
        pendingReset := apps;
      }
      apps := {};
      if running {
        StopRunning();
      }
    }

    method Stop()
      requires Valid()
      modifies this
      ensures Valid()
      ensures World() == U.Apply(old(World()), U.Stop) && TcpView() == old(TcpView())
    {
      UdpSafety.StepKeepsSocketsSafe(World(), U.Stop);
      if running {
        StopRunning();
      }
    }

    // ---- TCP ----

    method ForgetPort(port: Port)
      modifies this`tracked, this`seen, this`trackMiss
      ensures TcpView() == TcpTable.Forget(old(TcpView()), port)
    {
      tracked := tracked - {port};
      seen := seen - {port};
      trackMiss := trackMiss - {port};
    }

    /**
     Handles one TCP segment in place; inbound says whether it is reinjected towards the local stack.
     resolved is the owner found for a port that still has to be decided.
     */
    method HandleTCP(p: array<byte>, ihl: nat, v4: Table, v6: Table, resolved: Pid, names: Names) returns (inbound: bool)
      requires TcpValid() && 20 <= ihl <= 60 && ihl + 8 <= p.Length
      modifies this`tracked, this`seen, this`trackMiss, p
      ensures TcpValid()
      ensures ihl + 14 > p.Length ==> !inbound && p[..] == old(p[..]) && TcpView() == old(TcpView())
      ensures ihl + 14 <= p.Length ==>
                var seg := SegmentOf(old(p[..]), ihl);
                var env := TcpTable.Env(Owner(v4, v6, seg.ends.srcPort), resolved, names, apps);
                TcpStep(old(TcpView()), TcpView(), seg, env, old(p[..]), p[..], ihl, inbound)
      ensures OpensAt(old(p[..]), ihl, old(TcpView())) && resolved != 0 && resolved != SYSTEM_PID
              && NameOf(names, resolved) != "" && NameOf(names, resolved) in apps ==>
                inbound && RedirectedBy(TcpView(), old(p[..]), p[..], ihl)
      ensures ihl + 14 <= p.Length && old(p[ihl + 13]) == 0x10 ==> TcpView() == old(TcpView())
    {
      if p.Length < ihl + 14 {
        return false;
      }
      ghost var t, bytes := TcpView(), p[..];
      var seg := SegmentOf(p[..], ihl);
      var env := TcpTable.Env(Owner(v4, v6, seg.ends.srcPort), resolved, names, apps);
      var out := RouteTCP(seg, env);
      inbound := out.Inbound?;
      if inbound {
        Rewrite(p, ihl, seg, out.ends);
      }
      BytesDecide(t, TcpView(), env, bytes, p[..], ihl, inbound);
    }

    /** The rewrite back for the listener's segment, and the one to the listener for any other. */
    method Rewrite(p: array<byte>, ihl: nat, seg: TcpTable.Segment, e: Endpoints)
      requires TcpSized(p[..], ihl) && seg == SegmentOf(p[..], ihl)
      requires if seg.ends.srcPort == REDIR_PORT then e.dstPort == seg.ends.dstPort
               else e.srcPort == seg.ends.srcPort && e.dstPort == REDIR_PORT
      modifies p
      ensures Rewritten(old(p[..]), p[..], ihl, e)
    {
      if seg.ends.srcPort == REDIR_PORT {
        Return(p, ihl, e);
      } else {
        Redirect(p, ihl, e);
      }
    }

    /** Decides what a segment leaves as. */
    method RouteTCP(seg: TcpTable.Segment, env: TcpTable.Env) returns (out: TcpTable.Out)
      requires TcpValid() && env.apps == apps
      modifies this`tracked, this`seen, this`trackMiss
      ensures TcpValid()
      ensures (TcpView(), out) == TcpTable.Handle(old(TcpView()), seg, env)
    {
      TcpTable.ApplyKeepsInv(TcpView(), TcpTable.Packet(seg, env));
      var e := seg.ends;
      if e.srcPort == REDIR_PORT {
        if e.dstPort !in tracked || e.dstIP != tracked[e.dstPort].dstIP {
          return TcpTable.Untouched;
        }
        var m := tracked[e.dstPort];
        return TcpTable.Inbound(Endpoints(m.dstIP, m.dstPort, m.appIP, e.dstPort));
      }
      if IsLocalDst(e.dstIP) {
        return TcpTable.Untouched;
      }
      RetireDecision(seg, env);
      if e.srcPort in tracked {
        return TcpTable.Inbound(TcpTable.ToListener(tracked[e.srcPort], e.srcPort));
      }
      if e.srcPort in seen || !seg.Fresh() {
        return TcpTable.Untouched;
      }
      var target := Decide(seg, env);
      return if target then TcpTable.Inbound(TcpTable.ToListener(tracked[e.srcPort], e.srcPort)) else TcpTable.Untouched;
    }

    /** Drops the decision held for the segment's port when the segment shows it belongs to an earlier connection. */
    method RetireDecision(seg: TcpTable.Segment, env: TcpTable.Env)
      modifies this`tracked, this`seen, this`trackMiss
      ensures TcpView() == if TcpTable.Stale(old(TcpView()), seg, env)
                           then TcpTable.Forget(old(TcpView()), seg.ends.srcPort) else old(TcpView())
    {
      var e := seg.ends;
      var isTarget, wasSeen := e.srcPort in tracked, e.srcPort in seen;
      if isTarget || wasSeen {
        var stale := false;
        if seg.Fresh() {
          if isTarget {
            var m := tracked[e.srcPort];
            stale := m.dstIP != e.dstIP || m.dstPort != e.dstPort || (env.owner != 0 && env.owner != m.pid);
          } else {
            stale := env.owner != 0 && env.owner != seen[e.srcPort];
          }
        }
        if stale {
          ForgetPort(e.srcPort);
          isTarget, wasSeen := false, false;
        }
        if isTarget && seg.SynAck() {
          if env.owner != 0 && env.owner != tracked[e.srcPort].pid {
            ForgetPort(e.srcPort);
          }
        }
      }
    }

    /** Decides a fresh SYN on an undecided port. */
    method Decide(seg: TcpTable.Segment, env: TcpTable.Env) returns (target: bool)
      requires env.apps == apps
      modifies this`tracked, this`seen, this`trackMiss
      ensures target == env.Selected()
      ensures TcpView() == TcpTable.Decide(old(TcpView()), seg, env)
    {
      var e := seg.ends;
      var name := "";
      if env.pid != 0 && env.pid != SYSTEM_PID {
        name := NameOf(env.names, env.pid);
      }
      target := name != "" && name in apps;
      if name != "" {
        seen := seen[e.srcPort := env.pid];
      }
      trackMiss := trackMiss - {e.srcPort};
      if target {
        tracked := tracked[e.srcPort := TcpTable.Mapping(e.srcIP, e.dstIP, e.dstPort, env.pid)];
      }
    }

    /** Aims an application's segment at the listener: both addresses and the destination port. */
    method Redirect(p: array<byte>, ihl: nat, e: Endpoints)
      requires TcpSized(p[..], ihl) && e.srcPort == U16(p[..], ihl) && e.dstPort == REDIR_PORT
      modifies p
      ensures Rewritten(old(p[..]), p[..], ihl, e) && U16(p[..], ihl) == U16(old(p[..]), ihl)
    {
      RedirectedFields(p[..], ihl, e.srcIP, e.dstIP);
      SetIP(p, SRC_IP, e.srcIP);
      SetIP(p, DST_IP, e.dstIP);
      PutU16(p, ihl + 2, REDIR_PORT);
    }

    /** Dresses the listener's segment up as the peer's: both addresses and the source port. */
    method Return(p: array<byte>, ihl: nat, e: Endpoints)
      requires TcpSized(p[..], ihl) && e.dstPort == U16(p[..], ihl + 2)
      modifies p
      ensures Rewritten(old(p[..]), p[..], ihl, e)
    {
      ReturnedFields(p[..], ihl, e.srcIP, e.srcPort, e.dstIP);
      SetIP(p, SRC_IP, e.srcIP);
      PutU16(p, ihl, e.srcPort);
      SetIP(p, DST_IP, e.dstIP);
    }

    /** One strike, or one pardon, for a decided port; on the second strike its decision goes. */
    method NoteTrackMiss(v4: Table, v6: Table, port: Port)
      requires port in seen
      modifies this`tracked, this`seen, this`trackMiss
      ensures SameBut(old(TcpView()), TcpView(), port)
      ensures SameAt(TcpTable.SweepOnce(old(TcpView()), v4, v6), TcpView(), port)
    {
      if !Known(v4, v6) {
        return;
      }
      if Listed(v4, v6, port) {
        trackMiss := trackMiss - {port};
        return;
      }
      trackMiss := trackMiss[port := (if port in trackMiss then trackMiss[port] else 0) + 1];
      if trackMiss[port] < 2 {
        return;
      }
      ForgetPort(port);
    }

    method SweepTracked(v4: Table, v6: Table)
      requires TcpValid()
      modifies this`tracked, this`seen, this`trackMiss
      ensures TcpValid()
      ensures TcpView() == TcpTable.Apply(old(TcpView()), TcpTable.Sweep(v4, v6))
    {
      ghost var before := TcpView();
      TcpTable.ApplyKeepsInv(before, TcpTable.Sweep(v4, v6));
      var todo := seen.Keys;
      SweepBegins(before, v4, v6);
      while todo != {}
        invariant todo <= seen.Keys
        invariant SweptBut(before, TcpView(), v4, v6, todo)
        decreases |todo|
      {
        var port :| port in todo;
        ghost var t := TcpView();
        NoteTrackMiss(v4, v6, port);
        SweepContinues(before, t, TcpView(), v4, v6, todo, port);
        todo := todo - {port};
      }
      SweepEnds(before, TcpView(), v4, v6);
    }

    // ---- UDP ----

    method RetireStale(key: U.Key, owner: Pid, names: Names)
      modifies this`udpDirect
      ensures udpDirect == if owner != 0 && key in old(udpDirect) && old(udpDirect)[key].pid != owner
                              && owner != self && owner != SYSTEM_PID
                              && NameOf(names, owner) != "" && NameOf(names, owner) in apps
                           then old(udpDirect) - {key} else old(udpDirect)
    {
      if owner == 0 || key !in udpDirect || udpDirect[key].pid == owner {
        return;
      }
      var name := NameOf(names, owner);
      if name == "" || owner == self || owner == SYSTEM_PID || name !in apps {
        return;
      }
      udpDirect := udpDirect - {key};
    }

    method EvictUDP(key: U.Key)
      requires key in udpFlows
      modifies this`udpFlows, this`closed
      ensures UdpView() == U.Close(old(UdpView()), {key})
    {
      closed := closed + {udpFlows[key].conn};
      assert {udpFlows[key].conn} == set k | k in {key} && k in udpFlows :: udpFlows[k].conn;
      udpFlows := udpFlows - {key};
    }

    /** Drops the flows seen longest ago until the table is within its bound again. */
    method CapFlows() returns (evict: set<U.Key>)
      modifies this`udpFlows, this`closed
      ensures U.LegalEviction(old(udpFlows), evict)
      ensures UdpView() == U.Close(old(UdpView()), evict)
    {
      evict := {};
      NothingToClose(UdpView());
      if |udpFlows| <= U.MAX_FLOWS {
        return;
      }
      var over := |udpFlows| - U.MAX_FLOWS;
      var all := Sorting.Arrange(udpFlows.Keys, SeenNoLater(udpFlows));
      ghost var before := UdpView();
      var i := 0;
      while i < over
        invariant 0 <= i <= over
        invariant OldestFirst(before.flows, all, i, evict)
        invariant UdpView() == U.Close(before, evict)
      {
        var k := all[i];
        TakeNext(before.flows, all, i, evict);
        CloseOneMore(before, evict, k);
        EvictUDP(k);
        evict := evict + {k};
        i := i + 1;
      }
      OldestIsLegal(before.flows, all, evict);
    }

    /** Handles one datagram; pass says whether it is reinjected, and evict which flows the cap took. */
    method HandleUDP(key: U.Key, srcIP: Ip, env: U.Env) returns (pass: bool, evict: set<U.Key>)
      requires UdpValid()
      requires env.dial.Dialled? ==> env.dial.conn !in dialled
      modifies this`udpFlows, this`udpDirect, this`lastDialFail, this`dialled, this`closed
      ensures UdpValid()
      ensures var ev := U.Datagram(key, srcIP, env.(evict := evict));
              && U.Enabled(old(World()), ev)
              && World() == U.Apply(old(World()), ev)
              && pass == U.Handle(old(World()), key, srcIP, ev.env).1
    {
      ghost var w := World();
      pass, evict := RouteUDP(key, srcIP, env);
      ghost var ev := U.Datagram(key, srcIP, env.(evict := evict));
      UdpSafety.StepKeepsSocketsSafe(w, ev);
    }

    method RouteUDP(key: U.Key, srcIP: Ip, env: U.Env) returns (pass: bool, evict: set<U.Key>)
      modifies this`udpFlows, this`udpDirect, this`lastDialFail, this`dialled, this`closed
      ensures (UdpView(), pass) == U.Handle(old(World()), key, srcIP, env.(evict := evict))
      ensures U.Admits(old(World()), U.Datagram(key, srcIP, env.(evict := evict))) ==>
                U.LegalEviction(old(udpFlows)[key := U.NewFlow(srcIP, env)], evict)
    {
      evict := {};
      if IsLocalDst(key.dstIP) {
        return true, evict;
      }
      RetireStale(key, env.owner, env.names);
      if key in udpFlows {
        Feed(key, env);
        return false, evict;
      }
      if key in udpDirect {
        return true, evict;
      }
      pass, evict := DecideUDP(key, srcIP, env);
    }

    /** Decides a datagram that has neither a flow nor a cached decision. */
    method DecideUDP(key: U.Key, srcIP: Ip, env: U.Env) returns (pass: bool, evict: set<U.Key>)
      requires !IsLocalDst(key.dstIP) && key !in udpFlows && key !in udpDirect
      modifies this`udpFlows, this`udpDirect, this`lastDialFail, this`dialled, this`closed
      ensures (UdpView(), pass) == U.Handle(old(World()), key, srcIP, env.(evict := evict))
      ensures U.Admits(old(World()), U.Datagram(key, srcIP, env.(evict := evict))) ==>
                U.LegalEviction(old(udpFlows)[key := U.NewFlow(srcIP, env)], evict)
    {
      evict := {};
      var pid := env.owner;
      if pid == 0 {
        return !env.live, evict;
      }
      if pid == self || pid == SYSTEM_PID {
        udpDirect := udpDirect[key := U.Decision(env.now, pid)];
        return true, evict;
      }
      var name := NameOf(env.names, pid);
      if name == "" {
        if env.relook != 0 && env.relook != pid {
          pid, name := env.relook, NameOf(env.names, env.relook);
        }
        if name == "" {
          return !env.live, evict;
        }
      }
      if name !in apps {
        udpDirect := udpDirect[key := U.Decision(env.now, pid)];
        return true, evict;
      }
      pass, evict := Tunnel(key, srcIP, pid, env);
    }

    /** Dials a socket for a routed application's datagram; without one the datagram is dropped. */
    method Tunnel(key: U.Key, srcIP: Ip, pid: Pid, env: U.Env) returns (pass: bool, evict: set<U.Key>)
      requires key !in udpFlows && pid == env.ResolvedPid()
      modifies this`udpFlows, this`lastDialFail, this`dialled, this`closed
      ensures var u := old(UdpView());
              if !env.ready || U.DialPaused(u, env) then UdpView() == u && !pass
              else if env.dial.NoDial? then UdpView() == u.(dialFail := env.dial.at) && !pass
              else if u.stopped then
                UdpView() == u.(dialled := u.dialled + {env.dial.conn}, closed := u.closed + {env.dial.conn}) && pass
              else
                && !pass
                && U.LegalEviction(u.flows[key := U.NewFlow(srcIP, env)], evict)
                && UdpView() == U.Admit(u, key, U.NewFlow(srcIP, env), evict)
    {
      evict := {};
      if !env.ready {
        return false, evict;
      }
      if lastDialFail != 0 && env.later - lastDialFail < U.DIAL_PAUSE {
        return false, evict;
      }
      if env.dial.NoDial? {
        lastDialFail := env.dial.at;
        return false, evict;
      }
      dialled := dialled + {env.dial.conn};
      if udpStopped {
        closed := closed + {env.dial.conn};
        return true, evict;
      }
      udpFlows := udpFlows[key := U.Flow(env.dial.conn, pid, srcIP, env.later, 0, 0, 0)];
      evict := CapFlows();
      pass := false;
    }

    method Feed(key: U.Key, env: U.Env)
      requires key in udpFlows
      modifies this`udpFlows, this`closed
      ensures UdpView() == U.Feed(old(UdpView()), key, env)
    {
      var fl := udpFlows[key].(lastSeen := env.now);
      match env.write
      case Sent =>
        udpFlows := udpFlows[key := fl.(stalls := 0)];
      case Dropped =>
        if fl.stalls + 1 >= U.STALL_LIMIT {
          EvictUDP(key);
        } else {
          udpFlows := udpFlows[key := fl.(stalls := fl.stalls + 1)];
        }
      case Broken =>
        EvictUDP(key);
    }

    /** A flow's reader relays one reply: the flow counts as seen. */
    method Reply(key: U.Key, conn: U.Conn, at: int)
      requires UdpValid() && conn in dialled
      modifies this`udpFlows
      ensures UdpValid()
      ensures World() == U.Apply(old(World()), U.Reply(key, conn, at))
    {
      UdpSafety.StepKeepsSocketsSafe(World(), U.Reply(key, conn, at));
      if key in udpFlows && udpFlows[key].conn == conn {
        udpFlows := udpFlows[key := udpFlows[key].(lastSeen := at)];
      }
    }

    /** A flow's reader ends: the flow goes, unless another one has its key by now. */
    method ReaderEnds(key: U.Key, conn: U.Conn)
      requires UdpValid() && U.Enabled(World(), U.ReaderEnds(key, conn))
      modifies this`udpFlows, this`closed
      ensures UdpValid()
      ensures World() == U.Apply(old(World()), U.ReaderEnds(key, conn))
    {
      UdpSafety.StepKeepsSocketsSafe(World(), U.ReaderEnds(key, conn));
      if key in udpFlows && udpFlows[key].conn == conn {
        EvictUDP(key);
      } else {
        closed := closed + {conn};
      }
    }

    /** The teardown after the UDP packet loop died on a panic. */
    method GiveUpUDP()
      requires UdpValid()
      modifies this`udpFlows, this`udpStopped, this`closed
      ensures UdpValid()
      ensures World() == U.Apply(old(World()), U.LoopPanic)
    {
      UdpSafety.StepKeepsSocketsSafe(World(), U.LoopPanic);
      udpStopped := true;
      closed := closed + set k | k in udpFlows.Keys && k in udpFlows :: udpFlows[k].conn;
      udpFlows := map[];
      assert old(udpFlows) - old(udpFlows).Keys == map[];
    }

    /** Strikes or clears one flow; on its second strike, or when idle, the flow goes and its socket is returned. */
    method JudgeFlow(k: U.Key, now: int, v4: Table, v6: Table) returns (dead: set<U.Conn>)
      requires k in udpFlows
      modifies this`udpFlows
      ensures FlowJudged(old(UdpView()), now, v4, v6, udpFlows, k)
      ensures forall q :: q != k ==> SameFlow(old(udpFlows), udpFlows, q)
      ensures dead == if k in U.Dead(old(UdpView()), now, v4, v6) then {old(udpFlows)[k].conn} else {}
    {
      var fl := udpFlows[k];
      var gone := false;
      if Known(v4, v6) && !Listed(v4, v6, k.appPort) {
        fl := fl.(misses := fl.misses + 1);
        gone := fl.misses >= 2;
      } else if Listed(v4, v6, k.appPort) {
        fl := fl.(misses := 0);
      }
      var owner := Owner(v4, v6, k.appPort);
      if owner != 0 && owner != fl.pid {
        fl := fl.(ownerMiss := fl.ownerMiss + 1);
        if fl.ownerMiss >= 2 {
          gone := true;
        }
      } else {
        fl := fl.(ownerMiss := 0);
      }
      if gone || fl.lastSeen < now - U.IDLE_TIMEOUT {
        dead := {fl.conn};
        udpFlows := udpFlows - {k};
      } else {
        dead := {};
        udpFlows := udpFlows[k := fl];
      }
    }

    method ExpireDecisions(now: int)
      modifies this`udpDirect
      ensures udpDirect == U.Unexpired(old(UdpView()), now)
    {
      ghost var before := udpDirect;
      var todo := udpDirect.Keys;
      while todo != {}
        invariant todo <= before.Keys
        invariant forall k :: k in udpDirect <==> k in before && (k in todo || before[k].at >= now - U.IDLE_TIMEOUT)
        invariant forall k :: k in udpDirect ==> udpDirect[k] == before[k]
        decreases |todo|
      {
        var k :| k in todo;
        if udpDirect[k].at < now - U.IDLE_TIMEOUT {
          udpDirect := udpDirect - {k};
        }
        todo := todo - {k};
      }
    }

    method SweepFlows(now: int, v4: Table, v6: Table)
      requires UdpValid()
      modifies this`udpFlows, this`udpDirect, this`closed
      ensures UdpValid()
      ensures World() == U.Apply(old(World()), U.Sweep(now, v4, v6))
    {
      ghost var w := World();
      UdpSafety.StepKeepsSocketsSafe(w, U.Sweep(now, v4, v6));
      SweepUDP(now, v4, v6);
      assert World() == w.(udp := U.SweepOnce(w.udp, now, v4, v6));
    }

    method SweepUDP(now: int, v4: Table, v6: Table)
      modifies this`udpFlows, this`udpDirect, this`closed
      ensures UdpView() == U.SweepOnce(old(UdpView()), now, v4, v6)
    {
      var dead := RetireFlows(now, v4, v6);
      ExpireDecisions(now);
      if |udpDirect| > U.MAX_DIRECT {
        udpDirect := map[];
      }
      closed := closed + dead;
    }

    method RetireFlows(now: int, v4: Table, v6: Table) returns (dead: set<U.Conn>)
      modifies this`udpFlows
      ensures udpFlows == U.SweepOnce(old(UdpView()), now, v4, v6).flows
      ensures closed + dead == U.SweepOnce(old(UdpView()), now, v4, v6).closed
    {
      ghost var before := UdpView();
      dead := {};
      var todo := udpFlows.Keys;
      FlowSweepBegins(before, now, v4, v6);
      while todo != {}
        invariant todo <= udpFlows.Keys
        invariant FlowsSweptBut(before, now, v4, v6, udpFlows, dead, todo)
        decreases |todo|
      {
        var k :| k in todo;
        ghost var was := UdpView();
        var gone := JudgeFlow(k, now, v4, v6);
        FlowSweepContinues(before, now, v4, v6, was, udpFlows, dead, gone, todo, k);
        dead := dead + gone;
        todo := todo - {k};
      }
      FlowSweepEnds(before, now, v4, v6, udpFlows, dead);
    }

    // ---- Dispatch ----

    /** A routed application's IPv6 is dropped: the tunnel carries IPv4 only. */
    method HandleIPv6(p: array<byte>, local: bool, owner: Pid, names: Names) returns (pass: bool)
      requires p.Length >= 20
      ensures pass <==> !(p.Length >= 44 && (p[6] == 6 || p[6] == 17) && !local && owner != 0 && owner != self
                          && owner != SYSTEM_PID && NameOf(names, owner) in apps)
    {
      if p.Length < 44 || apps == {} {
        return true;
      }
      if p[6] != 6 && p[6] != 17 {
        return true;
      }
      if local {
        return true;
      }
      return owner == 0 || owner == self || owner == SYSTEM_PID || NameOf(names, owner) !in apps;
    }

    /**
     Decides one captured packet. Whatever is not TCP or UDP over IPv4 or IPv6 passes; a UDP datagram is never
     altered; a TCP segment always passes, either as it came or inbound with rewritten endpoints.
     */
    method HandlePacket(p: array<byte>, v4: Table, v6: Table, resolved: Pid, udp: U.Env, local6: bool, owner6: Pid)
      returns (pass: bool, inbound: bool, evict: set<U.Key>)
      requires TcpValid() && UdpValid()
      requires udp.dial.Dialled? ==> udp.dial.conn !in dialled
      modifies this`tracked, this`seen, this`trackMiss, p
      modifies this`udpFlows, this`udpDirect, this`lastDialFail, this`dialled, this`closed
      ensures TcpValid() && UdpValid()
      ensures match Classify(old(p[..]))
              case Foreign => pass && !inbound && p[..] == old(p[..]) && TcpView() == old(TcpView()) && World() == old(World())
              case V6 => !inbound && p[..] == old(p[..]) && TcpView() == old(TcpView()) && World() == old(World())
              case Udp(ihl) =>
                var key, srcIP := KeyOf(old(p[..]), ihl), EndpointsOf(old(p[..]), ihl).srcIP;
                var ev := U.Datagram(key, srcIP, udp.(evict := evict));
                && !inbound && p[..] == old(p[..]) && TcpView() == old(TcpView())
                && U.Enabled(old(World()), ev) && World() == U.Apply(old(World()), ev)
                && pass == U.Handle(old(World()), key, srcIP, ev.env).1
              case Tcp(ihl) =>
                && pass && World() == old(World())
                && (ihl + 14 > p.Length ==> !inbound && p[..] == old(p[..]) && TcpView() == old(TcpView()))
                && (ihl + 14 <= p.Length ==>
                      var seg := SegmentOf(old(p[..]), ihl);
                      var env := TcpTable.Env(Owner(v4, v6, seg.ends.srcPort), resolved, udp.names, apps);
                      TcpStep(old(TcpView()), TcpView(), seg, env, old(p[..]), p[..], ihl, inbound))
    {
      pass, inbound, evict := true, false, {};
      match Classify(p[..])
      case Foreign =>
      case V6 =>
        pass := HandleIPv6(p, local6, owner6, udp.names);
      case Udp(ihl) =>
        pass, evict := HandleUDP(KeyOf(p[..], ihl), EndpointsOf(p[..], ihl).srcIP, udp);
      case Tcp(ihl) =>
        inbound := HandleTCP(p, ihl, v4, v6, resolved, udp.names);
    }
  }

  // ---- Facts the loops above rely on ----

  ghost predicate SameAt(a: TcpTable.Tcp, b: TcpTable.Tcp, p: Port) {
    && (p in a.tracked <==> p in b.tracked) && (p in a.tracked ==> a.tracked[p] == b.tracked[p])
    && (p in a.seen <==> p in b.seen) && (p in a.seen ==> a.seen[p] == b.seen[p])
    && (p in a.miss <==> p in b.miss) && (p in a.miss ==> a.miss[p] == b.miss[p])
  }

  ghost predicate SameBut(a: TcpTable.Tcp, b: TcpTable.Tcp, port: Port) {
    forall p :: p != port ==> SameAt(a, b, p)
  }

  /** What a sweep does to a port depends on that port's entries alone. */
  lemma SweepIsPointwise(a: TcpTable.Tcp, b: TcpTable.Tcp, v4: Table, v6: Table, p: Port)
    requires SameAt(a, b, p)
    ensures SameAt(TcpTable.SweepOnce(a, v4, v6), TcpTable.SweepOnce(b, v4, v6), p)
  {
    SweptAt(a, v4, v6, p);
    SweptAt(b, v4, v6, p);
  }

  /** A sweep's outcome for one port, by the port's own entries. */
  lemma SweptAt(t: TcpTable.Tcp, v4: Table, v6: Table, p: Port)
    ensures var s := TcpTable.SweepOnce(t, v4, v6);
            var struck := p in t.seen && Absent(v4, v6, p);
            var gone := struck && TcpTable.Strikes(t, p) + 1 >= 2;
            && (p in s.tracked <==> p in t.tracked && !gone) && (p in s.tracked ==> s.tracked[p] == t.tracked[p])
            && (p in s.seen <==> p in t.seen && !gone) && (p in s.seen ==> s.seen[p] == t.seen[p])
            && (p in s.miss <==> !gone && (struck || (p in t.miss && !(p in t.seen && Known(v4, v6) && Listed(v4, v6, p)))))
            && (p in s.miss ==> s.miss[p] == if struck then TcpTable.Strikes(t, p) + 1 else t.miss[p])
  {
  }

  /** The sweep that began at a has dealt with every port outside todo. */
  ghost predicate SweptBut(a: TcpTable.Tcp, b: TcpTable.Tcp, v4: Table, v6: Table, todo: set<Port>) {
    && (forall p :: p in todo ==> SameAt(a, b, p))
    && (forall p :: p !in todo ==> SameAt(TcpTable.SweepOnce(a, v4, v6), b, p))
  }

  lemma SweepBegins(a: TcpTable.Tcp, v4: Table, v6: Table)
    requires TcpTable.Inv(a)
    ensures SweptBut(a, a, v4, v6, a.seen.Keys)
  {
  }

  lemma SweepContinues(a: TcpTable.Tcp, b: TcpTable.Tcp, c: TcpTable.Tcp, v4: Table, v6: Table, todo: set<Port>, port: Port)
    requires SweptBut(a, b, v4, v6, todo) && port in todo
    requires SameBut(b, c, port) && SameAt(TcpTable.SweepOnce(b, v4, v6), c, port)
    ensures SweptBut(a, c, v4, v6, todo - {port})
    ensures todo <= b.seen.Keys ==> todo - {port} <= c.seen.Keys
  {
    SweepIsPointwise(a, b, v4, v6, port);
    forall p | p in todo - {port} ensures SameAt(a, c, p) {
      assert SameAt(a, b, p) && SameAt(b, c, p);
    }
    forall p | p !in todo ensures SameAt(TcpTable.SweepOnce(a, v4, v6), c, p) {
      assert SameAt(b, c, p);
    }
  }

  lemma SweepEnds(a: TcpTable.Tcp, b: TcpTable.Tcp, v4: Table, v6: Table)
    requires SweptBut(a, b, v4, v6, {})
    ensures b == TcpTable.SweepOnce(a, v4, v6)
  {
    var c := TcpTable.SweepOnce(a, v4, v6);
    assert forall p :: SameAt(c, b, p);
    SameTracked(c, b);
    SameSeen(c, b);
    SameMiss(c, b);
  }

  lemma SameTracked(a: TcpTable.Tcp, b: TcpTable.Tcp)
    requires forall p :: SameAt(a, b, p)
    ensures a.tracked == b.tracked
  {
    assert forall p :: p in a.tracked ==> SameAt(a, b, p);
    assert forall p :: p in b.tracked ==> SameAt(a, b, p);
  }

  lemma SameSeen(a: TcpTable.Tcp, b: TcpTable.Tcp)
    requires forall p :: SameAt(a, b, p)
    ensures a.seen == b.seen
  {
    assert forall p :: p in a.seen ==> SameAt(a, b, p);
    assert forall p :: p in b.seen ==> SameAt(a, b, p);
  }

  lemma SameMiss(a: TcpTable.Tcp, b: TcpTable.Tcp)
    requires forall p :: SameAt(a, b, p)
    ensures a.miss == b.miss
  {
    assert forall p :: p in a.miss ==> SameAt(a, b, p);
    assert forall p :: p in b.miss ==> SameAt(a, b, p);
  }

  ghost predicate SameFlow(a: map<U.Key, U.Flow>, b: map<U.Key, U.Flow>, k: U.Key) {
    (k in a <==> k in b) && (k in a ==> a[k] == b[k])
  }

  /** flows holds for k what a sweep makes of u's flow. */
  ghost predicate FlowJudged(u: U.Udp, now: int, v4: Table, v6: Table, flows: map<U.Key, U.Flow>, k: U.Key) {
    && (k in flows <==> k in u.flows && k !in U.Dead(u, now, v4, v6))
    && (k in flows ==> flows[k] == U.Judged(u.flows[k], k.appPort, v4, v6))
  }

  /** The sweep that began at u has dealt with every flow outside todo, and collected the sockets of those it dropped. */
  ghost predicate FlowsSweptBut(u: U.Udp, now: int, v4: Table, v6: Table, flows: map<U.Key, U.Flow>,
                                dead: set<U.Conn>, todo: set<U.Key>) {
    && (forall k :: k in todo ==> SameFlow(u.flows, flows, k))
    && (forall k :: k !in todo ==> FlowJudged(u, now, v4, v6, flows, k))
    && dead == set k | k in U.Dead(u, now, v4, v6) && k in u.flows && k !in todo :: u.flows[k].conn
  }

  lemma FlowSweepBegins(u: U.Udp, now: int, v4: Table, v6: Table)
    ensures FlowsSweptBut(u, now, v4, v6, u.flows, {}, u.flows.Keys)
  {
  }

  lemma FlowSweepContinues(u: U.Udp, now: int, v4: Table, v6: Table, was: U.Udp, flows: map<U.Key, U.Flow>,
                           dead: set<U.Conn>, gone: set<U.Conn>, todo: set<U.Key>, k: U.Key)
    requires FlowsSweptBut(u, now, v4, v6, was.flows, dead, todo) && k in todo && todo <= was.flows.Keys
    requires FlowJudged(was, now, v4, v6, flows, k) && forall q :: q != k ==> SameFlow(was.flows, flows, q)
    requires gone == if k in U.Dead(was, now, v4, v6) then {was.flows[k].conn} else {}
    ensures FlowsSweptBut(u, now, v4, v6, flows, dead + gone, todo - {k})
    ensures todo - {k} <= flows.Keys
  {
    assert SameFlow(u.flows, was.flows, k);
    assert k in U.Dead(was, now, v4, v6) <==> k in U.Dead(u, now, v4, v6);
    forall q | q in todo - {k} ensures SameFlow(u.flows, flows, q) {
      assert SameFlow(u.flows, was.flows, q) && SameFlow(was.flows, flows, q);
    }
    forall q | q !in todo ensures FlowJudged(u, now, v4, v6, flows, q) {
      assert FlowJudged(u, now, v4, v6, was.flows, q) && SameFlow(was.flows, flows, q);
    }
    var before := set q | q in U.Dead(u, now, v4, v6) && q in u.flows && q !in todo :: u.flows[q].conn;
    var after := set q | q in U.Dead(u, now, v4, v6) && q in u.flows && q !in todo - {k} :: u.flows[q].conn;
    assert after == before + gone;
  }

  lemma FlowSweepEnds(u: U.Udp, now: int, v4: Table, v6: Table, flows: map<U.Key, U.Flow>, dead: set<U.Conn>)
    requires FlowsSweptBut(u, now, v4, v6, flows, dead, {})
    ensures flows == U.SweepOnce(u, now, v4, v6).flows
    ensures u.closed + dead == U.SweepOnce(u, now, v4, v6).closed
  {
    SweptIsJudged(u, now, v4, v6);
    JudgedIsUnique(u, now, v4, v6, flows, U.SweepOnce(u, now, v4, v6).flows);
  }

  lemma JudgedIsUnique(u: U.Udp, now: int, v4: Table, v6: Table, a: map<U.Key, U.Flow>, b: map<U.Key, U.Flow>)
    requires forall k :: FlowJudged(u, now, v4, v6, a, k) && FlowJudged(u, now, v4, v6, b, k)
    ensures a == b
  {
    forall k ensures SameFlow(a, b, k) {
      assert FlowJudged(u, now, v4, v6, a, k) && FlowJudged(u, now, v4, v6, b, k);
    }
    assert forall k :: k in a ==> SameFlow(a, b, k);
    assert forall k :: k in b ==> SameFlow(a, b, k);
  }

  lemma SweptIsJudged(u: U.Udp, now: int, v4: Table, v6: Table)
    ensures forall k :: FlowJudged(u, now, v4, v6, U.SweepOnce(u, now, v4, v6).flows, k)
    ensures U.SweepOnce(u, now, v4, v6).closed
            == u.closed + set k | k in U.Dead(u, now, v4, v6) && k in u.flows :: u.flows[k].conn
  {
    var judged := map k | k in u.flows :: U.Judged(u.flows[k], k.appPort, v4, v6);
    var dead := U.Dead(u, now, v4, v6);
    CloseOfJudged(u.(flows := judged, direct := U.SweepOnce(u, now, v4, v6).direct), u.flows, dead);
    forall k ensures FlowJudged(u, now, v4, v6, judged - dead, k) {
      JudgedFlow(u, now, v4, v6, judged, dead, k);
    }
  }

  lemma JudgedFlow(u: U.Udp, now: int, v4: Table, v6: Table, judged: map<U.Key, U.Flow>, dead: set<U.Key>, k: U.Key)
    requires dead == U.Dead(u, now, v4, v6) && judged.Keys == u.flows.Keys
    requires k in judged ==> judged[k] == U.Judged(u.flows[k], k.appPort, v4, v6)
    ensures FlowJudged(u, now, v4, v6, judged - dead, k)
  {
  }

  /** Judging a flow does not change its socket. */
  lemma CloseOfJudged(j: U.Udp, flows: map<U.Key, U.Flow>, dead: set<U.Key>)
    requires j.flows.Keys == flows.Keys && forall k :: k in flows ==> j.flows[k].conn == flows[k].conn
    ensures U.Close(j, dead).flows == j.flows - dead
    ensures U.Close(j, dead).closed == j.closed + set k | k in dead && k in flows :: flows[k].conn
  {
    assert (set k | k in dead && k in j.flows :: j.flows[k].conn) == (set k | k in dead && k in flows :: flows[k].conn);
  }

  lemma SelectedSnoc(names: seq<string>, i: nat)
    requires i < |names|
    ensures var n := Folded(names[i]);
            Selected(names[..i + 1]) == if n != "" then Selected(names[..i]) + {n} else Selected(names[..i])
  {
    assert names[..i + 1] == names[..i] + [names[i]];
    SelectedAppend(names[..i], names[i]);
  }

  lemma SelectedAppend(names: seq<string>, name: string)
    ensures Selected(names + [name]) == if Folded(name) != "" then Selected(names) + {Folded(name)} else Selected(names)
  {
    SelectedGrows(names, name);
    SelectedIsOldOrNew(names, name);
  }

  lemma SelectedGrows(names: seq<string>, name: string)
    ensures Selected(names) <= Selected(names + [name])
    ensures Folded(name) != "" ==> Folded(name) in Selected(names + [name])
  {
    var b := names + [name];
    forall x | x in Selected(names) ensures x in Selected(b) {
      var j :| 0 <= j < |names| && Folded(names[j]) != "" && Folded(names[j]) == x;
      assert b[j] == names[j];
    }
    assert b[|names|] == name;
  }

  lemma SelectedIsOldOrNew(names: seq<string>, name: string)
    ensures forall x :: x in Selected(names + [name]) ==> x in Selected(names) || (x == Folded(name) && x != "")
  {
    var b := names + [name];
    forall x | x in Selected(b) ensures x in Selected(names) || (x == Folded(name) && x != "") {
      var j :| 0 <= j < |b| && Folded(b[j]) != "" && Folded(b[j]) == x;
      assert j < |names| ==> names[j] == b[j];
    }
  }

  lemma NothingToClose(u: U.Udp)
    ensures U.Close(u, {}) == u
  {
    assert u.flows - {} == u.flows;
    assert U.Close(u, {}).closed == u.closed;
  }

  lemma CloseOneMore(u: U.Udp, keys: set<U.Key>, k: U.Key)
    requires k in u.flows && k !in keys
    ensures k in U.Close(u, keys).flows
    ensures U.Close(U.Close(u, keys), {k}) == U.Close(u, keys + {k})
  {
    var v := U.Close(U.Close(u, keys), {k});
    var w := U.Close(u, keys + {k});
    assert v.flows == w.flows;
    assert v.closed == w.closed;
  }

  function SeenAt(flows: map<U.Key, U.Flow>, k: U.Key): int {
    if k in flows then flows[k].lastSeen else 0
  }

  function SeenNoLater(flows: map<U.Key, U.Flow>): (U.Key, U.Key) -> bool {
    (a, b) => SeenAt(flows, a) <= SeenAt(flows, b)
  }

  /** evict holds the first n of all the keys, the ones seen longest ago. */
  ghost predicate OldestFirst(flows: map<U.Key, U.Flow>, all: seq<U.Key>, n: nat, evict: set<U.Key>) {
    && Sorting.Lists(all, flows.Keys) && Sorting.SortedBy(all, SeenNoLater(flows))
    && n <= |all| && evict <= flows.Keys && |evict| == n
    && (forall i :: 0 <= i < |all| ==> (all[i] in evict <==> i < n))
  }

  lemma TakeNext(flows: map<U.Key, U.Flow>, all: seq<U.Key>, n: nat, evict: set<U.Key>)
    requires OldestFirst(flows, all, n, evict) && n < |all|
    ensures all[n] in flows && all[n] !in evict && OldestFirst(flows, all, n + 1, evict + {all[n]})
  {
  }

  lemma OldestIsLegal(flows: map<U.Key, U.Flow>, all: seq<U.Key>, evict: set<U.Key>)
    requires |flows| > U.MAX_FLOWS && OldestFirst(flows, all, |flows| - U.MAX_FLOWS, evict)
    ensures U.LegalEviction(flows, evict)
  {
    forall k, q | k in evict && q in flows && q !in evict ensures flows[k].lastSeen <= flows[q].lastSeen {
      assert k in all && q in all;
      var a :| 0 <= a < |all| && all[a] == k;
      var b :| 0 <= b < |all| && all[b] == q;
      assert SeenNoLater(flows)(all[a], all[b]);
    }
  }
}
