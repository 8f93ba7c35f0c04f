/**
 Who holds the capture handles (internal/apptunnel/apptunnel_windows.go, start, stopLocked, reopenUDP,
 reopenTCP, reopenSock, udpSupervisor): one transition at a time starts or stops interception, while
 goroutines of this and earlier runs reopen handles, and packet loops end or panic. A step is what happens
 between two lock operations.
 */
module Generations {
  import opened Basics

  type Handle = nat
  type Tid = nat

  datatype Kind = TCP | UDP | SOCK

  /** The transition in progress under the operation lock. */
  datatype Op =
    | OpIdle
    | OpReset                                 // start: the listener is up and the last run's marks are cleared
    | OpSock(sock: Handle)                    // start: the socket handle is open
    | OpBoth(sock: Handle, tcp: Handle)       // start: both are, and nothing is installed yet
    | OpAbort(sock: Handle)                   // start: the TCP handle could not be opened
    | OpStopping(held: set<Handle>, swapped: bool)  // stop: handles still to be closed, and whether UDP's was taken

  /** A goroutine belongs to the run that started it; the last five are the teardown after the UDP loop panicked. */
  datatype Pc =
    | Ready
    | Opening(kind: Kind)
    | Holding(kind: Kind, h: Handle)
    | Releasing(h: Handle)
    | Suspecting              // the installed UDP handle's loop has panicked
    | GivingUp                // and its own run was the current one when it looked
    | TearingDown(h: Handle)  // the UDP slot has been emptied
    | StoppingUdp             // about to stop the UDP handler
    | Ended

  datatype Worker = Worker(gen: nat, pc: Pc)

  /**
   home is the run that installed a handle; released are the handles close or finish has been called on; udps are
   those with a UDP packet loop, panicked the last of them whose loop died on a panic since the last start; udpStopped
   tells the UDP handler to let routed datagrams go.
   */
  datatype State = State(running: bool, gen: nat, slots: map<Kind, Handle>, op: Op, workers: map<Tid, Worker>,
                         home: map<Handle, nat>, acquired: set<Handle>, released: set<Handle>,
                         udps: set<Handle>, panicked: Option<Handle>, udpStopped: bool)

  const INITIAL := State(false, 0, map[], OpIdle, map[], map[], {}, {}, {}, None, false)

  datatype Step =
    | StartResets
    | StartSockFails
    | StartOpensSock(h: Handle)
    | StartOpensTcp(h: Handle)
    | StartTcpFails
    | StartAborts
    | StartInstalls
    | StopBegins
    | StopSwapsUdp
    | StopReleases(h: Handle)
    | StopEnds
    | Spawn(t: Tid)
    | Want(t: Tid, kind: Kind)
    | Opens(t: Tid, h: Handle)
    | OpenFails(t: Tid)
    | Installs(t: Tid)
    | DropsUdp(t: Tid)        // the filter became empty
    | GiveUpSees(t: Tid)
    | GiveUpChecks(t: Tid)    // under the lock, which it then releases
    | GiveUpSwaps(t: Tid)
    | GiveUpCloses(t: Tid)
    | GiveUpStops(t: Tid)
    | Releases(t: Tid)
    | LoopEnds(h: Handle)     // a packet loop closes its own handle
    | LoopPanics(h: Handle)   // a UDP packet loop dies and is noted, before it closes its handle

  predicate Is(s: State, t: Tid, pc: Pc) {
    t in s.workers && s.workers[t].pc == pc
  }

  predicate Current(s: State, t: Tid)
    requires t in s.workers
  {
    s.running && s.workers[t].gen == s.gen
  }

  predicate Enabled(s: State, e: Step) {
    match e
    case StartResets => s.op == OpIdle && !s.running
    case StartSockFails => s.op == OpReset
    case StartOpensSock(h) => s.op == OpReset && h !in s.acquired
    case StartOpensTcp(h) => s.op.OpSock? && h !in s.acquired
    case StartTcpFails => s.op.OpSock?
    case StartAborts => s.op.OpAbort?
    case StartInstalls => s.op.OpBoth?
    case StopBegins => s.op == OpIdle && s.running
    case StopSwapsUdp => s.op.OpStopping? && !s.op.swapped
    case StopReleases(h) => s.op.OpStopping? && h in s.op.held
    case StopEnds => s.op == OpStopping({}, true)
    case Spawn(t) => s.running && t !in s.workers
    case Want(t, _) => Is(s, t, Ready)
    case Opens(t, h) => t in s.workers && s.workers[t].pc.Opening? && h !in s.acquired
    case OpenFails(t) => t in s.workers && s.workers[t].pc.Opening?
    case Installs(t) => t in s.workers && s.workers[t].pc.Holding?
    case DropsUdp(t) => Is(s, t, Ready) && Current(s, t)
    case GiveUpSees(t) => Is(s, t, Ready) && UDP in s.slots && s.panicked == Some(s.slots[UDP])
    case GiveUpChecks(t) => Is(s, t, Suspecting)
    case GiveUpSwaps(t) => Is(s, t, GivingUp)
    case GiveUpCloses(t) => t in s.workers && s.workers[t].pc.TearingDown?
    case GiveUpStops(t) => Is(s, t, StoppingUdp)
    case Releases(t) => t in s.workers && s.workers[t].pc.Releasing?
    case LoopEnds(h) => h in s.acquired
    case LoopPanics(h) => h in s.udps
  }

  function To(s: State, t: Tid, pc: Pc): State
    requires t in s.workers
  {
    s.(workers := s.workers[t := s.workers[t].(pc := pc)])
  }

  function WithoutUdp(s: State): State {
    s.(slots := s.slots - {UDP})
  }

  function InSlots(s: State, kinds: set<Kind>): set<Handle> {
    set k | k in kinds && k in s.slots :: s.slots[k]
  }

  function Install(s: State, t: Tid): State
    requires t in s.workers && s.workers[t].pc.Holding?
  {
    var Holding(kind, h) := s.workers[t].pc;
    if Current(s, t) then
      To(s.(slots := s.slots[kind := h], home := s.home[h := s.workers[t].gen]), t,
         if kind in s.slots then Releasing(s.slots[kind]) else Ready)
    else
      To(s, t, Releasing(h))
  }

  function Apply(s: State, e: Step): State
    requires Enabled(s, e)
  {
    match e
    case StartResets => s.(op := OpReset, panicked := None, udpStopped := false)
    case StartSockFails => s.(op := OpIdle)
    case StartOpensSock(h) => s.(op := OpSock(h), acquired := s.acquired + {h})
    case StartOpensTcp(h) => s.(op := OpBoth(s.op.sock, h), acquired := s.acquired + {h})
    case StartTcpFails => s.(op := OpAbort(s.op.sock))
    case StartAborts => s.(op := OpIdle, released := s.released + {s.op.sock})
    case StartInstalls =>
      s.(running := true, gen := s.gen + 1, op := OpIdle,
         slots := s.slots[TCP := s.op.tcp][SOCK := s.op.sock],
         home := s.home[s.op.tcp := s.gen + 1][s.op.sock := s.gen + 1])
    case StopBegins =>
      s.(running := false, op := OpStopping(InSlots(s, {TCP, SOCK}), false), slots := s.slots - {TCP, SOCK})
    case StopSwapsUdp => s.(op := OpStopping(s.op.held + InSlots(s, {UDP}), true), slots := s.slots - {UDP})
    case StopReleases(h) => s.(op := OpStopping(s.op.held - {h}, s.op.swapped), released := s.released + {h})
    case StopEnds => s.(op := OpIdle, udpStopped := true)
    case Spawn(t) => s.(workers := s.workers[t := Worker(s.gen, Ready)])
    case Want(t, kind) => To(s, t, Opening(kind))
    case Opens(t, h) =>
      var kind := s.workers[t].pc.kind;
      To(s.(acquired := s.acquired + {h}, udps := if kind == UDP then s.udps + {h} else s.udps), t, Holding(kind, h))
    case OpenFails(t) => To(s, t, Ready)
    case Installs(t) => Install(s, t)
    case DropsUdp(t) => To(WithoutUdp(s), t, if UDP in s.slots then Releasing(s.slots[UDP]) else Ready)
    case GiveUpSees(t) => To(s, t, Suspecting)
    case GiveUpChecks(t) => To(s, t, if Current(s, t) then GivingUp else Ended)
    case GiveUpSwaps(t) => To(WithoutUdp(s), t, if UDP in s.slots then TearingDown(s.slots[UDP]) else StoppingUdp)
    case GiveUpCloses(t) => To(s.(released := s.released + {s.workers[t].pc.h}), t, StoppingUdp)
    case GiveUpStops(t) => To(s.(udpStopped := true), t, Ended)
    case Releases(t) => To(s.(released := s.released + {s.workers[t].pc.h}), t, Ready)
    case LoopEnds(h) => s.(released := s.released + {h})
    case LoopPanics(h) => s.(panicked := Some(h))
  }

  // ---- Conservation ----

  datatype Owner = Slot(kind: Kind) | Transition | Goroutine(t: Tid)

  predicate OpHolds(op: Op, h: Handle) {
    match op
    case OpIdle => false
    case OpReset => false
    case OpSock(sock) => h == sock
    case OpBoth(sock, tcp) => h == sock || h == tcp
    case OpAbort(sock) => h == sock
    case OpStopping(held, _) => h in held
  }

  predicate PcHolds(pc: Pc, h: Handle) {
    (pc.Holding? || pc.Releasing? || pc.TearingDown?) && pc.h == h
  }

  predicate Owns(s: State, o: Owner, h: Handle) {
    match o
    case Slot(k) => k in s.slots && s.slots[k] == h
    case Transition => OpHolds(s.op, h)
    case Goroutine(t) => t in s.workers && PcHolds(s.workers[t].pc, h)
  }

  /** No handle is lost: one that nobody owns any more has been closed. */
  ghost predicate NoneLost(s: State) {
    forall h :: h in s.acquired && h !in s.released ==> exists o :: Owns(s, o, h)
  }

  /** No handle has two owners, and only opened ones have any. */
  ghost predicate OneOwner(s: State) {
    && (forall o, h :: Owns(s, o, h) ==> h in s.acquired)
    && (forall o1, o2, h :: Owns(s, o1, h) && Owns(s, o2, h) ==> o1 == o2)
    && (s.op.OpBoth? ==> s.op.sock != s.op.tcp)
  }

  /** What can be installed when. */
  ghost predicate SlotsMatchPhase(s: State) {
    && (s.running ==> s.op == OpIdle)
    && (!s.running ==> s.slots.Keys <= (if s.op.OpStopping? && !s.op.swapped then {UDP} else {}))
    && (forall k :: k in s.slots ==> s.slots[k] in s.home && s.home[s.slots[k]] == s.gen)
    && (forall t :: t in s.workers ==> s.workers[t].gen <= s.gen)
  }

  ghost predicate Inv(s: State) {
    NoneLost(s) && OneOwner(s) && SlotsMatchPhase(s)
  }

  lemma StepKeepsPhase(s: State, e: Step)
    requires OneOwner(s) && SlotsMatchPhase(s) && Enabled(s, e)
    ensures SlotsMatchPhase(Apply(s, e))
  {
    if e.StartInstalls? {
      assert Owns(s, Transition, s.op.tcp) && Owns(s, Transition, s.op.sock);
    } else if e.StopBegins? {
      forall k | k in Apply(s, e).slots ensures k == UDP {
        assert k == TCP || k == UDP || k == SOCK;
      }
    } else if e.Installs? && Current(s, e.t) {
      assert Owns(s, Goroutine(e.t), s.workers[e.t].pc.h);
      forall k | k in s.slots ensures s.slots[k] != s.workers[e.t].pc.h {
        assert Owns(s, Slot(k), s.slots[k]);
      }
    }
  }

  /** The owner of a handle after a step, given its owner before; None once it has been closed. */
  function NextOwner(s: State, e: Step, o: Owner, h: Handle): (r: Option<Owner>)
    requires Enabled(s, e) && Owns(s, o, h)
  {
    match e
    case StartAborts => if o == Transition then None else Some(o)
    case StartInstalls => if o == Transition then Some(Slot(if h == s.op.tcp then TCP else SOCK)) else Some(o)
    case StopBegins => if o == Slot(TCP) || o == Slot(SOCK) then Some(Transition) else Some(o)
    case StopSwapsUdp => if o == Slot(UDP) then Some(Transition) else Some(o)
    case StopReleases(r) => if o == Transition && h == r then None else Some(o)
    case Installs(t) =>
      if !Current(s, t) then Some(o)
      else if o == Goroutine(t) then Some(Slot(s.workers[t].pc.kind))
      else if o == Slot(s.workers[t].pc.kind) then Some(Goroutine(t))
      else Some(o)
    case DropsUdp(t) => if o == Slot(UDP) then Some(Goroutine(t)) else Some(o)
    case GiveUpSwaps(t) => if o == Slot(UDP) then Some(Goroutine(t)) else Some(o)
    case GiveUpCloses(t) => if o == Goroutine(t) then None else Some(o)
    case Releases(t) => if o == Goroutine(t) then None else Some(o)
    case _ => Some(o)
  }

  /** The step is a goroutine's, or a packet loop's, rather than the transition's. */
  predicate Concurrent(e: Step) {
    match e
    case StartResets => false
    case StartSockFails => false
    case StartOpensSock(_) => false
    case StartOpensTcp(_) => false
    case StartTcpFails => false
    case StartAborts => false
    case StartInstalls => false
    case StopBegins => false
    case StopSwapsUdp => false
    case StopReleases(_) => false
    case StopEnds => false
    case _ => true
  }

  ghost predicate Moved(s: State, e: Step, o: Owner, h: Handle)
    requires Enabled(s, e) && Owns(s, o, h)
  {
    match NextOwner(s, e, o, h)
    case Some(o') => Owns(Apply(s, e), o', h)
    case None => h in Apply(s, e).released
  }

  lemma StopBeginsMoves(s: State, o: Owner, h: Handle)
    requires OneOwner(s) && Enabled(s, StopBegins) && Owns(s, o, h)
    ensures Moved(s, StopBegins, o, h)
  {
  }

  lemma StopMoves(s: State, e: Step, o: Owner, h: Handle)
    requires OneOwner(s) && Enabled(s, e) && Owns(s, o, h) && s.op.OpStopping? && !Concurrent(e)
    ensures Moved(s, e, o, h)
  {
  }

  lemma StartMoves(s: State, e: Step, o: Owner, h: Handle)
    requires Inv(s) && Enabled(s, e) && Owns(s, o, h) && !s.op.OpStopping? && !e.StopBegins? && !Concurrent(e)
    ensures Moved(s, e, o, h)
  {
  }

  lemma InstallMoves(s: State, t: Tid, o: Owner, h: Handle)
    requires OneOwner(s) && Enabled(s, Installs(t)) && Owns(s, o, h)
    ensures Moved(s, Installs(t), o, h)
  {
  }

  /** The steps by which goroutines get hold of a handle or part with one. */
  predicate Transfers(e: Step) {
    e.Opens? || e.Installs? || e.DropsUdp? || e.GiveUpSwaps? || e.GiveUpCloses? || e.Releases?
  }

  lemma GoroutineMoves(s: State, e: Step, o: Owner, h: Handle)
    requires OneOwner(s) && Enabled(s, e) && Owns(s, o, h) && Transfers(e) && !e.Installs?
    ensures Moved(s, e, o, h)
  {
  }

  lemma OthersStay(s: State, e: Step, o: Owner, h: Handle)
    requires Enabled(s, e) && Owns(s, o, h) && Concurrent(e) && !Transfers(e)
    ensures Moved(s, e, o, h)
  {
  }

  lemma OwnerMoves(s: State, e: Step, o: Owner, h: Handle)
    requires Inv(s) && Enabled(s, e) && Owns(s, o, h)
    ensures match NextOwner(s, e, o, h)
            case Some(o') => Owns(Apply(s, e), o', h)
            case None => h in Apply(s, e).released
  {
    if e.Installs? {
      InstallMoves(s, e.t, o, h);
    } else if Transfers(e) {
      GoroutineMoves(s, e, o, h);
    } else if Concurrent(e) {
      OthersStay(s, e, o, h);
    } else if e.StopBegins? {
      StopBeginsMoves(s, o, h);
    } else if s.op.OpStopping? {
      StopMoves(s, e, o, h);
    } else {
      StartMoves(s, e, o, h);
    }
  }

  /** o is where o' has h from, None if the step opened it. */
  ghost predicate CameFrom(s: State, e: Step, o: Option<Owner>, o': Owner, h: Handle)
    requires Enabled(s, e)
  {
    && (o.Some? ==> Owns(s, o.value, h) && NextOwner(s, e, o.value, h) == Some(o'))
    && (o.None? ==> h in Apply(s, e).acquired && h !in s.acquired
                    && o' == (if e.Opens? then Goroutine(e.t) else Transition))
  }

  lemma TransitionCameFrom(s: State, e: Step, o': Owner, h: Handle) returns (o: Option<Owner>)
    requires OneOwner(s) && Enabled(s, e) && Owns(Apply(s, e), o', h) && !Concurrent(e)
    ensures CameFrom(s, e, o, o', h)
  {
    o := Some(o');
    assert Owns(s, o', h) ==> h in s.acquired;
    match e {
      case StartOpensSock(n) => if h == n { o := None; }
      case StartOpensTcp(n) => if h == n { o := None; }
      case StartInstalls => if o' == Slot(TCP) || o' == Slot(SOCK) { o := Some(Transition); }
      case StopBegins => if o' == Transition { o := Some(Slot(if TCP in s.slots && s.slots[TCP] == h then TCP else SOCK)); }
      case StopSwapsUdp => if o' == Transition && !OpHolds(s.op, h) { o := Some(Slot(UDP)); }
      case _ =>
    }
  }

  lemma GoroutineCameFrom(s: State, e: Step, o': Owner, h: Handle) returns (o: Option<Owner>)
    requires OneOwner(s) && Enabled(s, e) && Owns(Apply(s, e), o', h) && Transfers(e) && !e.Installs?
    ensures CameFrom(s, e, o, o', h)
  {
    o := Some(o');
    assert Owns(s, o', h) ==> h in s.acquired;
    match e {
      case Opens(t, n) => if h == n { o := None; }
      case DropsUdp(t) => if o' == Goroutine(t) { o := Some(Slot(UDP)); }
      case GiveUpSwaps(t) => if o' == Goroutine(t) { o := Some(Slot(UDP)); }
      case _ =>
    }
  }

  lemma InstallCameFrom(s: State, t: Tid, o': Owner, h: Handle) returns (o: Option<Owner>)
    requires OneOwner(s) && Enabled(s, Installs(t)) && Owns(Apply(s, Installs(t)), o', h)
    ensures CameFrom(s, Installs(t), o, o', h)
  {
    o := Some(o');
    if Current(s, t) {
      var kind := s.workers[t].pc.kind;
      if o' == Slot(kind) {
        o := Some(Goroutine(t));
      } else if o' == Goroutine(t) {
        o := Some(Slot(kind));
      }
    }
  }

  lemma OthersHadIt(s: State, e: Step, o': Owner, h: Handle)
    requires Enabled(s, e) && Owns(Apply(s, e), o', h) && Concurrent(e) && !Transfers(e)
    ensures CameFrom(s, e, Some(o'), o', h)
  {
  }

  /** A handle owned after a step was owned by the matching owner before it, or has just been opened. */
  lemma OwnerCameFrom(s: State, e: Step, o': Owner, h: Handle) returns (o: Option<Owner>)
    requires Inv(s) && Enabled(s, e) && Owns(Apply(s, e), o', h)
    ensures o.Some? ==> Owns(s, o.value, h) && NextOwner(s, e, o.value, h) == Some(o')
    ensures o.None? ==> h in Apply(s, e).acquired && h !in s.acquired
                        && o' == (if e.Opens? then Goroutine(e.t) else Transition)
  {
    if e.Installs? {
      o := InstallCameFrom(s, e.t, o', h);
    } else if Transfers(e) {
      o := GoroutineCameFrom(s, e, o', h);
    } else if Concurrent(e) {
      OthersHadIt(s, e, o', h);
      o := Some(o');
    } else {
      o := TransitionCameFrom(s, e, o', h);
    }
  }

  lemma StepKeepsNoneLost(s: State, e: Step)
    requires Inv(s) && Enabled(s, e)
    ensures NoneLost(Apply(s, e))
  {
    var s' := Apply(s, e);
    forall h | h in s'.acquired && h !in s'.released ensures exists o :: Owns(s', o, h) {
      if h in s.acquired {
        var o :| Owns(s, o, h);
        OwnerMoves(s, e, o, h);
      } else {
        assert Owns(s', if e.Opens? then Goroutine(e.t) else Transition, h);
      }
    }
  }

  lemma StepKeepsOneOwner(s: State, e: Step)
    requires Inv(s) && Enabled(s, e)
    ensures OneOwner(Apply(s, e))
  {
    var s' := Apply(s, e);
    forall o, h | Owns(s', o, h) ensures h in s'.acquired {
      var was := OwnerCameFrom(s, e, o, h);
    }
    forall o1, o2, h | Owns(s', o1, h) && Owns(s', o2, h) ensures o1 == o2 {
      var was1 := OwnerCameFrom(s, e, o1, h);
      var was2 := OwnerCameFrom(s, e, o2, h);
    }
    if e.StartOpensTcp? {
      assert Owns(s, Transition, s.op.sock);
    }
  }

  ghost predicate ValidRun(ss: seq<State>, es: seq<Step>) {
    && |ss| == |es| + 1 && ss[0] == INITIAL
    && forall i :: 0 <= i < |es| ==> Enabled(ss[i], es[i]) && ss[i + 1] == Apply(ss[i], es[i])
  }

  /** Handles are conserved in every interleaving of transitions and goroutines of any run. */
  lemma {:induction false} HandlesConserved(ss: seq<State>, es: seq<Step>, i: nat)
    requires ValidRun(ss, es) && i <= |es|
    ensures Inv(ss[i])
  {
    if i > 0 {
      HandlesConserved(ss, es, i - 1);
      StepKeepsPhase(ss[i - 1], es[i - 1]);
      StepKeepsNoneLost(ss[i - 1], es[i - 1]);
      StepKeepsOneOwner(ss[i - 1], es[i - 1]);
    }
  }

  /** After a stop has completed nothing is installed, until the next start installs something. */
  lemma NothingInstalledAfterStop(ss: seq<State>, es: seq<Step>, i: nat)
    requires ValidRun(ss, es) && i <= |es| && !ss[i].running && ss[i].op == OpIdle
    ensures ss[i].slots == map[]
  {
    HandlesConserved(ss, es, i);
    assert ss[i].slots.Keys == {};
  }

  /** Whatever is installed was installed by the current run: goroutines of earlier ones never get one in. */
  lemma OnlyCurrentRunInstalls(ss: seq<State>, es: seq<Step>, i: nat, k: Kind)
    requires ValidRun(ss, es) && i <= |es| && k in ss[i].slots
    ensures ss[i].slots[k] in ss[i].home && ss[i].home[ss[i].slots[k]] == ss[i].gen
  {
    HandlesConserved(ss, es, i);
  }

  /** Once everything has come to rest after a stop, every handle ever opened has been closed. */
  lemma AllClosedAtRest(ss: seq<State>, es: seq<Step>, i: nat)
    requires ValidRun(ss, es) && i <= |es| && !ss[i].running && ss[i].op == OpIdle
    requires forall t, h :: t in ss[i].workers ==> !PcHolds(ss[i].workers[t].pc, h)
    ensures ss[i].acquired <= ss[i].released
  {
    HandlesConserved(ss, es, i);
    NothingInstalledAfterStop(ss, es, i);
    forall h | h in ss[i].acquired ensures h in ss[i].released {
      forall o ensures !Owns(ss[i], o, h) {
      }
    }
  }

  /**
   The teardown after a panic checks that its run is current and takes the UDP handle only afterwards: it
   takes its own run's handle if and only if no other run has started in between.
   */
  lemma GiveUpTakesOwnHandleIff(ss: seq<State>, es: seq<Step>, i: nat, t: Tid)
    requires ValidRun(ss, es) && i <= |es| && Is(ss[i], t, GivingUp) && UDP in ss[i].slots
    ensures ss[i].slots[UDP] in ss[i].home
    ensures ss[i].home[ss[i].slots[UDP]] == ss[i].workers[t].gen <==> ss[i].workers[t].gen == ss[i].gen
  {
    HandlesConserved(ss, es, i);
  }

  ghost predicate Reachable(s: State) {
    exists ss, es :: ValidRun(ss, es) && ss[|es|] == s
  }

  lemma ReachStep(s: State, e: Step) returns (s': State)
    requires Reachable(s) && Enabled(s, e)
    ensures s' == Apply(s, e) && Reachable(s')
  {
    s' := Apply(s, e);
    var ss, es :| ValidRun(ss, es) && ss[|es|] == s;
    assert ValidRun(ss + [s'], es + [e]) && (ss + [s'])[|es + [e]|] == s';
  }

  lemma ReachStart(s: State, sock: Handle, tcp: Handle) returns (s': State)
    requires Reachable(s) && s.op == OpIdle && !s.running && sock !in s.acquired && tcp !in s.acquired && sock != tcp
    ensures Reachable(s') && s'.running && s'.gen == s.gen + 1 && s'.op == OpIdle && s'.workers == s.workers
    ensures s'.slots == s.slots[TCP := tcp][SOCK := sock] && s'.acquired == s.acquired + {sock, tcp}
    ensures s'.panicked == None && !s'.udpStopped
  {
    s' := ReachStep(s, StartResets);
    s' := ReachStep(s', StartOpensSock(sock));
    s' := ReachStep(s', StartOpensTcp(tcp));
    s' := ReachStep(s', StartInstalls);
  }

  lemma ReachStopBegun(s: State, sock: Handle, tcp: Handle, udp: Handle) returns (s': State)
    requires Reachable(s) && s.op == OpIdle && s.running && s.slots == map[TCP := tcp, SOCK := sock, UDP := udp]
    ensures Reachable(s') && s' == s.(running := false, op := OpStopping({sock, tcp, udp}, true), slots := map[])
  {
    s' := ReachStep(s, StopBegins);
    assert s'.op.held == {sock, tcp} && s'.slots == map[UDP := udp];
    s' := ReachStep(s', StopSwapsUdp);
    assert s'.op.held == {sock, tcp, udp} && s'.slots == map[];
  }

  lemma ReachStop(s: State, sock: Handle, tcp: Handle, udp: Handle) returns (s': State)
    requires Reachable(s) && s.op == OpIdle && s.running && s.slots == map[TCP := tcp, SOCK := sock, UDP := udp]
    requires sock != tcp && sock != udp && tcp != udp
    ensures Reachable(s') && !s'.running && s'.gen == s.gen && s'.op == OpIdle && s'.workers == s.workers
    ensures s'.slots == map[] && s'.acquired == s.acquired
  {
    s' := ReachStopBegun(s, sock, tcp, udp);
    s' := ReachStep(s', StopReleases(sock));
    s' := ReachStep(s', StopReleases(tcp));
    s' := ReachStep(s', StopReleases(udp));
    assert s'.op.held == {};
    s' := ReachStep(s', StopEnds);
  }

  lemma ReachUdp(s: State, t: Tid, h: Handle) returns (s': State)
    requires Reachable(s) && s.running && Is(s, t, Ready) && s.workers[t].gen == s.gen && h !in s.acquired && UDP !in s.slots
    ensures Reachable(s') && s' == s.(slots := s.slots[UDP := h], acquired := s.acquired + {h}, udps := s.udps + {h},
                                      home := s.home[h := s.gen])
  {
    s' := ReachStep(s, Want(t, UDP));
    s' := ReachStep(s', Opens(t, h));
    s' := ReachStep(s', Installs(t));
    assert s'.workers == s.workers;
  }

  lemma ReachFirstRun() returns (s: State)
    ensures Reachable(s) && s.running && s.gen == 1 && s.op == OpIdle && s.slots == map[TCP := 1, SOCK := 0]
    ensures s.workers == map[0 := Worker(1, Ready)] && s.acquired == {0, 1}
  {
    assert ValidRun([INITIAL], []) && [INITIAL][0] == INITIAL;
    s := ReachStart(INITIAL, 0, 1);
    s := ReachStep(s, Spawn(0));
  }

  lemma ReachCapturing() returns (s: State)
    ensures Reachable(s) && s.running && s.gen == 1 && s.op == OpIdle && s.slots == map[TCP := 1, SOCK := 0, UDP := 2]
    ensures s.workers == map[0 := Worker(1, Ready)] && s.acquired == {0, 1, 2} && 2 in s.udps
  {
    s := ReachFirstRun();
    s := ReachUdp(s, 0, 2);
  }

  /** The loop of the installed UDP handle panics, and the supervisor notices. */
  lemma ReachGivingUp() returns (s: State)
    ensures Reachable(s) && s.running && s.gen == 1 && s.op == OpIdle && s.slots == map[TCP := 1, SOCK := 0, UDP := 2]
    ensures s.workers == map[0 := Worker(1, GivingUp)] && s.acquired == {0, 1, 2}
  {
    s := ReachCapturing();
    s := ReachStep(s, LoopPanics(2));
    s := ReachStep(s, GiveUpSees(0));
    s := ReachStep(s, GiveUpChecks(0));
  }

  /** Another run has started since it looked, and no UDP packet loop of that run has panicked. */
  lemma ReachOvertaken() returns (s: State)
    ensures Reachable(s) && s.running && s.gen == 2 && s.op == OpIdle && s.panicked == None && !s.udpStopped
    ensures s.workers == map[0 := Worker(1, GivingUp), 1 := Worker(2, Ready)]
    ensures s.slots == map[TCP := 4, SOCK := 3, UDP := 5] && s.acquired == {0, 1, 2, 3, 4, 5}
  {
    s := ReachGivingUp();
    s := ReachStop(s, 0, 1, 2);
    s := ReachStart(s, 3, 4);
    s := ReachStep(s, Spawn(1));
    s := ReachUdp(s, 1, 5);
  }

  /** Then the old run's teardown takes the new run's UDP handle down with it. */
  lemma OldRunCanTakeNewHandle()
    ensures exists s, t :: Reachable(s) && Enabled(s, GiveUpSwaps(t)) && s.running && s.workers[t].gen < s.gen
                           && UDP in s.slots && UDP !in Apply(s, GiveUpSwaps(t)).slots
  {
    var s := ReachOvertaken();
    assert Is(s, 0, GivingUp);
    assert Enabled(s, GiveUpSwaps(0));
  }

  lemma ReachTornDown() returns (s: State)
    ensures Reachable(s) && s.running && s.gen == 2 && s.op == OpIdle && s.panicked == None && s.udpStopped
    ensures s.workers == map[0 := Worker(1, Ended), 1 := Worker(2, Ready)]
    ensures UDP !in s.slots && s.acquired == {0, 1, 2, 3, 4, 5}
  {
    s := ReachOvertaken();
    s := ReachStep(s, GiveUpSwaps(0));
    s := ReachStep(s, GiveUpCloses(0));
    s := ReachStep(s, GiveUpStops(0));
  }

  /**
   And it stops the new run's UDP handler, although none of that run's loops has panicked: the new run's supervisor
   opens a new capture handle, whose packets now find the handler stopped.
   */
  lemma OldRunCanStopNewHandler()
    ensures exists s :: Reachable(s) && s.running && s.op == OpIdle && s.udpStopped && s.panicked == None
                        && UDP in s.slots && s.slots[UDP] !in s.released
                        && forall t :: t in s.workers && s.workers[t].gen == s.gen ==> s.workers[t].pc == Ready
  {
    var s := ReachTornDown();
    ReachableReleased(s);
    s := ReachUdp(s, 1, 6);
  }

  lemma ReachableReleased(s: State)
    requires Reachable(s)
    ensures s.released <= s.acquired
  {
    var ss, es :| ValidRun(ss, es) && ss[|es|] == s;
    ReleasedWereAcquired(ss, es, |es|);
  }

  lemma {:induction false} ReleasedWereAcquired(ss: seq<State>, es: seq<Step>, i: nat)
    requires ValidRun(ss, es) && i <= |es|
    ensures ss[i].released <= ss[i].acquired && ss[i].udps <= ss[i].acquired
  {
    if i > 0 {
      ReleasedWereAcquired(ss, es, i - 1);
      HandlesConserved(ss, es, i - 1);
      ReleaseIsOfOwned(ss[i - 1], es[i - 1]);
    }
  }

  lemma ReleaseIsOfOwned(s: State, e: Step)
    requires Inv(s) && Enabled(s, e) && s.released <= s.acquired && s.udps <= s.acquired
    ensures Apply(s, e).released <= Apply(s, e).acquired && Apply(s, e).udps <= Apply(s, e).acquired
  {
    match e {
      case StartAborts => assert Owns(s, Transition, s.op.sock);
      case StopReleases(h) => assert Owns(s, Transition, h);
      case Releases(t) => assert Owns(s, Goroutine(t), s.workers[t].pc.h);
      case GiveUpCloses(t) => assert Owns(s, Goroutine(t), s.workers[t].pc.h);
      case _ =>
    }
  }

  // ---- The UDP handler ----

  /** A run is under way, or a start that has passed its listener is. */
  predicate Alive(s: State) {
    s.running || s.op.OpReset? || s.op.OpSock? || s.op.OpBoth?
  }

  /**
   While a run started at step r is under way, its UDP handler is stopped if and only if some run's teardown, its own or
   an earlier one's, has stopped it since then.
   */
  lemma StoppedIffTornDown(ss: seq<State>, es: seq<Step>, r: nat, i: nat)
    requires ValidRun(ss, es) && r < i <= |es| && es[r] == StartResets && Alive(ss[i])
    requires forall k :: r < k < i ==> es[k] != StartResets
    ensures ss[i].udpStopped <==> TornDown(es, r, i)
  {
    forall k: nat | r < k < i ensures Link(ss, es, k) {
      AliveStep(ss, es, k);
    }
    BeginsEnabled(ss, es, r);
    TraceStopped(ss, es, r, i);
  }

  /** A teardown stops the handler between steps r and i. */
  ghost predicate TornDown(es: seq<Step>, r: nat, i: nat)
    requires i <= |es|
  {
    exists k :: r < k < i && es[k].GiveUpStops?
  }

  /** If the run is under way after step k, it was before it, and only a teardown stops its handler. */
  predicate Link(ss: seq<State>, es: seq<Step>, k: nat)
    requires k < |es| && |ss| == |es| + 1
  {
    Alive(ss[k + 1]) ==> Alive(ss[k]) && ss[k + 1].udpStopped == (ss[k].udpStopped || es[k].GiveUpStops?)
  }

  lemma {:induction false} TraceStopped(ss: seq<State>, es: seq<Step>, r: nat, i: nat)
    requires |ss| == |es| + 1 && r < i <= |es| && !ss[r + 1].udpStopped && Alive(ss[i])
    requires forall k: nat :: r < k < i ==> Link(ss, es, k)
    ensures ss[i].udpStopped <==> TornDown(es, r, i)
  {
    if i > r + 1 {
      assert Link(ss, es, i - 1);
      TraceStopped(ss, es, r, i - 1);
      TornDownStep(es, r, i - 1);
    }
  }

  lemma TornDownStep(es: seq<Step>, r: nat, i: nat)
    requires r < i < |es|
    ensures TornDown(es, r, i + 1) <==> TornDown(es, r, i) || es[i].GiveUpStops?
  {
  }

  lemma BeginsEnabled(ss: seq<State>, es: seq<Step>, r: nat)
    requires ValidRun(ss, es) && r < |es| && es[r] == StartResets
    ensures !ss[r + 1].udpStopped
  {
  }

  lemma AliveStep(ss: seq<State>, es: seq<Step>, i: nat)
    requires ValidRun(ss, es) && i < |es| && es[i] != StartResets
    ensures Link(ss, es, i)
  {
    HandlesConserved(ss, es, i);
    if Alive(ss[i + 1]) {
      StillAlive(ss[i], es[i]);
    }
  }

  lemma StillAlive(s: State, e: Step)
    requires SlotsMatchPhase(s) && Enabled(s, e) && Alive(Apply(s, e)) && e != StartResets
    ensures Alive(s) && e != StopEnds
    ensures Apply(s, e).udpStopped == (s.udpStopped || e.GiveUpStops?)
  {
  }
}
