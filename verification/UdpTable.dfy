/**
 The UDP side of interception (internal/apptunnel/apptunnel_windows.go, handleUDP, retireStale, SetApps,
 stopLocked, sweepFlows): flows tunnelled through a socket each, cached direct decisions, and the
 selection both depend on.
 Times are nanoseconds. One handler or sweep is one step.
 */
module UdpTable {
  import opened Basics
  import opened Wire
  import Selection

  const IDLE_TIMEOUT := 120_000_000_000
  const DIAL_PAUSE := 1_000_000_000
  const STALL_LIMIT := 20
  const MAX_FLOWS := 1024
  const MAX_DIRECT := 8192

  /** A tunnel socket; dialling never returns the same one twice. */
  type Conn = nat

  datatype Key = Key(appPort: Port, dstIP: Ip, dstPort: Port)

  datatype Flow = Flow(conn: Conn, pid: Pid, appIP: Ip, lastSeen: int, stalls: nat, misses: nat, ownerMiss: nat)

  datatype Decision = Decision(at: int, pid: Pid)

  /** The flow and decision tables, the time of the last failed dial, and every socket dialled and closed so far. */
  datatype Udp = Udp(flows: map<Key, Flow>, direct: map<Key, Decision>, stopped: bool, dialFail: int,
                     dialled: set<Conn>, closed: set<Conn>)

  /** The engine as UDP handling sees it; self is this process's own id. */
  datatype World = World(self: Pid, sel: Selection.Sel, udp: Udp)

  function Initial(self: Pid): World {
    World(self, Selection.INITIAL, Udp(map[], map[], false, 0, {}, {}))
  }

  datatype Dial = NoDial(at: int) | Dialled(conn: Conn)

  /** A datagram is accepted whole, costs itself but leaves the socket usable, or finds the socket unusable. */
  datatype Write = Sent | Dropped | Broken

  /** What the tables, the names, the tunnel and the clock say while one datagram is handled. */
  datatype Env = Env(now: int, owner: Pid, names: Names, live: bool, relook: Pid, ready: bool, later: int,
                     dial: Dial, write: Write, evict: set<Key>) {
    /** The owner, or the freshly looked-up one when the sampled owner's name cannot be read. */
    function ResolvedPid(): Pid {
      if NameOf(names, owner) == "" && relook != 0 && relook != owner then relook else owner
    }

    function Name(): string {
      NameOf(names, ResolvedPid())
    }
  }

  datatype Event =
    | Datagram(key: Key, srcIP: Ip, env: Env)
    | Reply(key: Key, conn: Conn, at: int)
    | ReaderEnds(key: Key, conn: Conn)
    | Sweep(now: int, v4: Table, v6: Table)
    | SetApps(names: set<string>, start: Selection.Start, known: Names)
    | Suspend
    | Stop
    | LoopPanic

  // ---- One datagram ----

  function ConnsOf(flows: map<Key, Flow>): set<Conn> {
    set k | k in flows :: flows[k].conn
  }

  function Close(u: Udp, keys: set<Key>): Udp {
    u.(flows := u.flows - keys, closed := u.closed + set k | k in keys && k in u.flows :: u.flows[k].conn)
  }

  /** A cached decision gives way once its port is known to belong to a selected application. */
  predicate RetiresDecision(w: World, key: Key, env: Env) {
    && env.owner != 0 && key in w.udp.direct && w.udp.direct[key].pid != env.owner
    && env.owner != w.self && env.owner != SYSTEM_PID
    && NameOf(env.names, env.owner) != "" && NameOf(env.names, env.owner) in w.sel.apps
  }

  function Cache(u: Udp, key: Key, at: int, pid: Pid): Udp {
    u.(direct := u.direct[key := Decision(at, pid)])
  }

  /** A datagram of a registered flow: it never leaves in the clear, and a wedged or broken socket is dropped. */
  function Feed(u: Udp, key: Key, env: Env): Udp
    requires key in u.flows
  {
    var fl := u.flows[key].(lastSeen := env.now);
    match env.write
    case Sent => u.(flows := u.flows[key := fl.(stalls := 0)])
    case Dropped =>
      if fl.stalls + 1 >= STALL_LIMIT then Close(u, {key})
      else u.(flows := u.flows[key := fl.(stalls := fl.stalls + 1)])
    case Broken => Close(u, {key})
  }

  /** The sockets the cap may take: as many as the table is over, none seen later than one it keeps. */
  ghost predicate LegalEviction(flows: map<Key, Flow>, evict: set<Key>) {
    && evict <= flows.Keys
    && |evict| == (if |flows| > MAX_FLOWS then |flows| - MAX_FLOWS else 0)
    && forall k, q :: k in evict && q in flows && q !in evict ==> flows[k].lastSeen <= flows[q].lastSeen
  }

  function Admit(u: Udp, key: Key, fl: Flow, evict: set<Key>): Udp {
    Close(u.(flows := u.flows[key := fl], dialled := u.dialled + {fl.conn}), evict)
  }

  function NewFlow(srcIP: Ip, env: Env): Flow
    requires env.dial.Dialled?
  {
    Flow(env.dial.conn, env.ResolvedPid(), srcIP, env.later, 0, 0, 0)
  }

  predicate DialPaused(u: Udp, env: Env) {
    u.dialFail != 0 && env.later - u.dialFail < DIAL_PAUSE
  }

  /** The tables once a cached decision has given way, if it does. */
  function Retiring(w: World, key: Key, env: Env): Udp {
    if RetiresDecision(w, key, env) then w.udp.(direct := w.udp.direct - {key}) else w.udp
  }

  /** The tables after a datagram, and whether it is reinjected as it came. */
  function Handle(w: World, key: Key, srcIP: Ip, env: Env): (r: (Udp, bool)) {
    if IsLocalDst(key.dstIP) then (w.udp, true)
    else
      var u := Retiring(w, key, env);
      if key in u.flows then (Feed(u, key, env), false)
      else if key in u.direct then (u, true)
      else if env.owner == 0 then (u, !env.live)
      else if env.owner == w.self || env.owner == SYSTEM_PID then (Cache(u, key, env.now, env.owner), true)
      else if env.Name() == "" then (u, !env.live)
      else if env.Name() !in w.sel.apps then (Cache(u, key, env.now, env.ResolvedPid()), true)
      else if !env.ready || DialPaused(u, env) then (u, false)
      else match env.dial
        case NoDial(at) => (u.(dialFail := at), false)
        case Dialled(conn) =>
          if u.stopped then (u.(dialled := u.dialled + {conn}, closed := u.closed + {conn}), true)
          else (Admit(u, key, NewFlow(srcIP, env), env.evict), false)
  }

  // ---- The other steps ----

  function StopUdp(u: Udp): Udp {
    Close(u, u.flows.Keys).(stopped := true)
  }

  /** start() empties the tables once the listener is up, before the capture handles are opened. */
  function StartUdp(u: Udp, start: Selection.Start): Udp {
    if start == Selection.NoListener then u else u.(flows := map[], direct := map[], stopped := false)
  }

  /** Flows whose owner is readably no longer selected. */
  function Deselected(u: Udp, names: set<string>, known: Names): set<Key> {
    set k | k in u.flows && NameOf(known, u.flows[k].pid) != "" && NameOf(known, u.flows[k].pid) !in names
  }

  function Select(w: World, names: set<string>, start: Selection.Start, known: Names): Udp {
    var u :=
      if names != {} && !w.sel.running then StartUdp(w.udp, start)
      else if names == {} && w.sel.running then StopUdp(w.udp)
      else w.udp;
    Close(u.(direct := map[]), Deselected(u, names, known))
  }

  predicate Foreign(fl: Flow, port: Port, v4: Table, v6: Table) {
    Owner(v4, v6, port) != 0 && Owner(v4, v6, port) != fl.pid
  }

  predicate Idle(fl: Flow, now: int) {
    fl.lastSeen < now - IDLE_TIMEOUT
  }

  function Judged(fl: Flow, port: Port, v4: Table, v6: Table): Flow {
    fl.(misses := if Absent(v4, v6, port) then fl.misses + 1 else if Listed(v4, v6, port) then 0 else fl.misses,
        ownerMiss := if Foreign(fl, port, v4, v6) then fl.ownerMiss + 1 else 0)
  }

  /** The flows one sweep retires: idle, twice absent from the tables, or twice owned by another process. */
  function Dead(u: Udp, now: int, v4: Table, v6: Table): set<Key> {
    set k | k in u.flows &&
            (var j := Judged(u.flows[k], k.appPort, v4, v6);
             || (Absent(v4, v6, k.appPort) && j.misses >= 2)
             || j.ownerMiss >= 2
             || Idle(u.flows[k], now))
  }

  function Unexpired(u: Udp, now: int): map<Key, Decision> {
    map k | k in u.direct && u.direct[k].at >= now - IDLE_TIMEOUT :: u.direct[k]
  }

  function SweepOnce(u: Udp, now: int, v4: Table, v6: Table): Udp {
    var judged := map k | k in u.flows :: Judged(u.flows[k], k.appPort, v4, v6);
    var kept := Unexpired(u, now);
    Close(u.(flows := judged, direct := if |kept| > MAX_DIRECT then map[] else kept), Dead(u, now, v4, v6))
  }

  predicate Registered(u: Udp, key: Key, conn: Conn) {
    key in u.flows && u.flows[key].conn == conn
  }

  function Apply(w: World, ev: Event): World {
    match ev
    case Datagram(key, srcIP, env) => w.(udp := Handle(w, key, srcIP, env).0)
    case Reply(key, conn, at) =>
      if Registered(w.udp, key, conn)
      then w.(udp := w.udp.(flows := w.udp.flows[key := w.udp.flows[key].(lastSeen := at)])) else w
    case ReaderEnds(key, conn) =>
      if Registered(w.udp, key, conn) then w.(udp := Close(w.udp, {key}))
      else w.(udp := w.udp.(closed := w.udp.closed + {conn}))
    case Sweep(now, v4, v6) => w.(udp := SweepOnce(w.udp, now, v4, v6))
    case SetApps(names, start, known) =>
      World(w.self, Selection.Apply(w.sel, Selection.SetApps(names, start)), Select(w, names, start, known))
    case Suspend =>
      World(w.self, Selection.Apply(w.sel, Selection.Suspend), if w.sel.running then StopUdp(w.udp) else w.udp)
    case Stop =>
      World(w.self, Selection.Apply(w.sel, Selection.Stop), if w.sel.running then StopUdp(w.udp) else w.udp)
    case LoopPanic => w.(udp := StopUdp(w.udp))
  }

  /** The datagram gets as far as registering a flow. */
  predicate Admits(w: World, ev: Event) {
    && ev.Datagram? && !IsLocalDst(ev.key.dstIP)
    && ev.key !in w.udp.flows && (ev.key !in w.udp.direct || RetiresDecision(w, ev.key, ev.env))
    && ev.env.owner != 0 && ev.env.owner != w.self && ev.env.owner != SYSTEM_PID
    && ev.env.Name() != "" && ev.env.Name() in w.sel.apps
    && ev.env.ready && !DialPaused(w.udp, ev.env) && ev.env.dial.Dialled? && !w.udp.stopped
  }

  /** What the environment guarantees: dialled sockets are new, a reader knows its own flow's key, and the cap sorts. */
  ghost predicate Enabled(w: World, ev: Event) {
    match ev
    case Datagram(key, srcIP, env) =>
      && (env.dial.Dialled? ==> env.dial.conn !in w.udp.dialled)
      && (Admits(w, ev) ==> LegalEviction(w.udp.flows[key := NewFlow(srcIP, env)], env.evict))
    case Reply(_, conn, _) => conn in w.udp.dialled
    case ReaderEnds(key, conn) => conn in w.udp.dialled && forall k :: Registered(w.udp, k, conn) ==> k == key
    case _ => true
  }

  ghost predicate ValidRun(ws: seq<World>, es: seq<Event>) {
    && |ws| == |es| + 1
    && forall i :: 0 <= i < |es| ==> Enabled(ws[i], es[i]) && ws[i + 1] == Apply(ws[i], es[i])
  }
}
