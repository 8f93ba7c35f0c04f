/**
 How long the UDP filter keeps a port (internal/apptunnel/apptunnel_windows.go, routedUDPPorts): a port stays after its
 application has let it go, so that the filter is reopened rarely. Here is exactly how long, over every run.
 */
module PortRetention {
  import opened Basics
  import opened PortFilter

  /** The candidates retained in preference to p. */
  function Ahead(all: map<Port, int>, p: Port): set<Port>
    requires p in all
  {
    set q | q in all && Preferred(all, q, p)
  }

  lemma TopIff(all: map<Port, int>, keep: set<Port>, p: Port)
    requires Top(all, keep) && p in all
    ensures p in keep <==> |Ahead(all, p)| < MAX_PORTS
  {
    if p in keep {
      forall q | q in Ahead(all, p) ensures q in keep - {p} {
        assert q !in keep ==> Preferred(all, p, q);
      }
      Smaller(Ahead(all, p), keep - {p});
    } else {
      if |all| <= MAX_PORTS {
        Fills(keep, all.Keys);
      }
      forall q | q in keep ensures q in Ahead(all, p) {
        assert Preferred(all, q, p);
      }
      Smaller(keep, Ahead(all, p));
    }
  }

  /** The filter is full of ports preferred to p, which is a candidate: p is dropped. */
  predicate Crowded(f: Filter, ev: Event, p: Port)
    requires ev.Ports?
  {
    var all := Candidates(f, ev.live, ev.now);
    p in all && |Ahead(all, p)| >= MAX_PORTS
  }

  /** The step drops what was last live this long ago. */
  predicate Expired(f: Filter, ev: Event, at: int)
    requires ev.Ports?
  {
    Due(f, ev.now) && ev.now - at >= TTL
  }

  /** One step, for one port that was last live at the time at. */
  lemma ReleasedStep(f: Filter, live: set<Port>, now: int, f': Filter, ports: seq<Port>, p: Port)
    requires Chosen(f, live, now, f', ports) && p !in live && p in f.sticky
    ensures var ev := Ports(live, now);
            && (p in ports <==> p in f'.sticky)
            && (p in f'.sticky <==> !Expired(f, ev, f.sticky[p]) && !Crowded(f, ev, p))
            && (p in f'.sticky ==> f'.sticky[p] == f.sticky[p])
  {
    var all := Candidates(f, live, now);
    if p in all {
      TopIff(all, f'.sticky.Keys, p);
    }
  }

  lemma LiveStep(f: Filter, live: set<Port>, now: int, f': Filter, ports: seq<Port>, p: Port)
    requires Chosen(f, live, now, f', ports) && p in live
    ensures var ev := Ports(live, now);
            && (p in ports <==> p in f'.sticky)
            && (p in f'.sticky <==> !Crowded(f, ev, p))
            && (p in f'.sticky ==> f'.sticky[p] == now)
  {
    TopIff(Candidates(f, live, now), f'.sticky.Keys, p);
  }

  lemma UnknownStep(f: Filter, live: set<Port>, now: int, f': Filter, ports: seq<Port>, p: Port)
    requires Chosen(f, live, now, f', ports) && p !in live && p !in f.sticky
    ensures p !in ports && p !in f'.sticky
  {
  }

  // ---- Over runs ----

  /** Step k leaves alone a port that was last live at the time at. */
  ghost predicate Spares(fs: seq<Filter>, es: seq<Event>, k: nat, p: Port, at: int)
    requires |fs| == |es| + 1 && k < |es|
  {
    es[k].Ports? && p !in es[k].live && !Expired(fs[k], es[k], at) && !Crowded(fs[k], es[k], p)
  }

  /** The port was last live at step j, and neither then nor since has it been dropped. */
  ghost predicate KeptFrom(fs: seq<Filter>, es: seq<Event>, j: nat, i: nat, p: Port)
    requires |fs| == |es| + 1 && i <= |es|
  {
    && j < i && es[j].Ports? && p in es[j].live && !Crowded(fs[j], es[j], p)
    && forall k: nat :: j < k < i ==> Spares(fs, es, k, p, es[j].now)
  }

  /** What step k makes of the port's stamp. */
  ghost predicate StampLink(fs: seq<Filter>, es: seq<Event>, k: nat, p: Port)
    requires |fs| == |es| + 1 && k < |es|
  {
    if es[k].Ports? && p in es[k].live then
      (p in fs[k + 1].sticky <==> !Crowded(fs[k], es[k], p)) && (p in fs[k + 1].sticky ==> fs[k + 1].sticky[p] == es[k].now)
    else
      && (p in fs[k + 1].sticky <==> p in fs[k].sticky && Spares(fs, es, k, p, fs[k].sticky[p]))
      && (p in fs[k + 1].sticky ==> fs[k + 1].sticky[p] == fs[k].sticky[p])
  }

  lemma StampLinks(fs: seq<Filter>, es: seq<Event>, out: seq<seq<Port>>, k: nat, p: Port)
    requires ValidRun(fs, es, out) && k < |es|
    ensures StampLink(fs, es, k, p)
    ensures es[k].Ports? ==> (p in out[k] <==> p in fs[k + 1].sticky)
  {
    match es[k]
    case Restart =>
    case Ports(live, now) =>
      if p in live {
        LiveStep(fs[k], live, now, fs[k + 1], out[k], p);
      } else if p in fs[k].sticky {
        ReleasedStep(fs[k], live, now, fs[k + 1], out[k], p);
      } else {
        UnknownStep(fs[k], live, now, fs[k + 1], out[k], p);
      }
  }

  lemma {:induction false} KeptIsStamped(fs: seq<Filter>, es: seq<Event>, j: nat, i: nat, p: Port)
    requires |fs| == |es| + 1 && i <= |es| && KeptFrom(fs, es, j, i, p)
    requires forall k: nat :: k < i ==> StampLink(fs, es, k, p)
    ensures p in fs[i].sticky && fs[i].sticky[p] == es[j].now
  {
    assert StampLink(fs, es, i - 1, p);
    if j < i - 1 {
      KeptIsStamped(fs, es, j, i - 1, p);
      assert Spares(fs, es, i - 1, p, es[j].now);
    }
  }

  lemma {:induction false} StampedIsKept(fs: seq<Filter>, es: seq<Event>, i: nat, p: Port)
    requires |fs| == |es| + 1 && i <= |es| && fs[0] == EMPTY && p in fs[i].sticky
    requires forall k: nat :: k < i ==> StampLink(fs, es, k, p)
    ensures exists j :: 0 <= j < i && KeptFrom(fs, es, j, i, p) && fs[i].sticky[p] == es[j].now
  {
    assert StampLink(fs, es, i - 1, p);
    if es[i - 1].Ports? && p in es[i - 1].live {
      assert KeptFrom(fs, es, i - 1, i, p);
    } else {
      StampedIsKept(fs, es, i - 1, p);
      var j :| 0 <= j < i - 1 && KeptFrom(fs, es, j, i - 1, p) && fs[i - 1].sticky[p] == es[j].now;
      assert KeptFrom(fs, es, j, i, p);
    }
  }

  /** Kept from step j on, through step i. */
  ghost predicate CarriedSince(fs: seq<Filter>, es: seq<Event>, j: nat, i: nat, p: Port)
    requires |fs| == |es| + 1 && i < |es|
  {
    KeptFrom(fs, es, j, i + 1, p)
  }

  /**
   Exactly when a port is carried, over every run: it was last live at some step since the last restart, and at every step
   from then on it was neither crowded out by MAX_PORTS ports preferred to it nor, its time being up, dropped in a batch.
   */
  lemma CarriedIff(fs: seq<Filter>, es: seq<Event>, out: seq<seq<Port>>, i: nat, p: Port)
    requires ValidRun(fs, es, out) && i < |es| && es[i].Ports?
    ensures p in out[i] <==> exists j: nat :: CarriedSince(fs, es, j, i, p)
  {
    forall k: nat | k <= i ensures StampLink(fs, es, k, p) {
      StampLinks(fs, es, out, k, p);
    }
    StampLinks(fs, es, out, i, p);
    if p in fs[i + 1].sticky {
      StampedIsKept(fs, es, i + 1, p);
      var j :| 0 <= j < i + 1 && KeptFrom(fs, es, j, i + 1, p) && fs[i + 1].sticky[p] == es[j].now;
      assert CarriedSince(fs, es, j, i, p);
    }
    forall j: nat | CarriedSince(fs, es, j, i, p) ensures p in fs[i + 1].sticky {
      KeptIsStamped(fs, es, j, i + 1, p);
    }
  }

  /** The port was last live at step j, and capture has not restarted since. */
  ghost predicate LastLive(es: seq<Event>, j: nat, i: nat, p: Port)
    requires i < |es|
  {
    j <= i && es[j].Ports? && p in es[j].live && forall k: nat :: j < k <= i ==> es[k].Ports? && p !in es[k].live
  }

  ghost predicate CrowdedBetween(fs: seq<Filter>, es: seq<Event>, j: nat, i: nat, p: Port)
    requires |fs| == |es| + 1 && i < |es|
  {
    exists k: nat :: j <= k <= i && es[k].Ports? && Crowded(fs[k], es[k], p)
  }

  /**
   A released port stays: for as long as the retention time since it was last live is not up, it is missing from the filter
   if and only if, at some step since then, MAX_PORTS ports were preferred to it.
   */
  lemma ReleasedPortStays(fs: seq<Filter>, es: seq<Event>, out: seq<seq<Port>>, j: nat, i: nat, p: Port)
    requires ValidRun(fs, es, out) && i < |es| && LastLive(es, j, i, p) && es[i].now - es[j].now < TTL
    ensures p in out[i] <==> !CrowdedBetween(fs, es, j, i, p)
  {
    CarriedIff(fs, es, out, i, p);
    forall k: nat | j < k <= i ensures !Expired(fs[k], es[k], es[j].now) {
      assert es[k].now <= es[i].now;
    }
    if !CrowdedBetween(fs, es, j, i, p) {
      forall k: nat | j < k < i + 1 ensures Spares(fs, es, k, p, es[j].now) {
      }
      assert CarriedSince(fs, es, j, i, p);
    } else if l: nat :| CarriedSince(fs, es, l, i, p) {
      OneLastLive(fs, es, j, l, i, p);
    }
  }

  lemma OneLastLive(fs: seq<Filter>, es: seq<Event>, j: nat, l: nat, i: nat, p: Port)
    requires |fs| == |es| + 1 && i < |es| && LastLive(es, j, i, p) && KeptFrom(fs, es, l, i + 1, p)
    ensures l == j && !CrowdedBetween(fs, es, j, i, p)
  {
    assert j > l ==> Spares(fs, es, j, p, es[l].now);
    forall k: nat | j < k <= i ensures !Crowded(fs[k], es[k], p) {
      assert Spares(fs, es, k, p, es[l].now);
    }
  }

  /** In particular when the filter never overflows: every port live less than the retention time ago is carried. */
  lemma StaysWhileAllFit(fs: seq<Filter>, es: seq<Event>, out: seq<seq<Port>>, j: nat, i: nat, p: Port)
    requires ValidRun(fs, es, out) && j <= i < |es| && es[j].Ports? && p in es[j].live
    requires es[i].Ports? && es[i].now - es[j].now < TTL
    requires forall k: nat :: j <= k <= i ==> es[k].Ports? && |Candidates(fs[k], es[k].live, es[k].now)| <= MAX_PORTS
    ensures p in out[i]
  {
    var l := LatestLive(es, j, i, p);
    forall k: nat | l <= k <= i ensures !Crowded(fs[k], es[k], p) {
      FewAhead(Candidates(fs[k], es[k].live, es[k].now), p);
    }
    assert es[j].now <= es[l].now;
    ReleasedPortStays(fs, es, out, l, i, p);
  }

  lemma FewAhead(all: map<Port, int>, p: Port)
    requires |all| <= MAX_PORTS
    ensures p in all ==> |Ahead(all, p)| < MAX_PORTS
  {
    if p in all {
      Smaller(Ahead(all, p), all.Keys - {p});
    }
  }

  lemma {:induction false} LatestLive(es: seq<Event>, j: nat, i: nat, p: Port) returns (l: nat)
    requires j <= i < |es| && es[j].Ports? && p in es[j].live && forall k: nat :: j <= k <= i ==> es[k].Ports?
    ensures j <= l && LastLive(es, l, i, p)
  {
    if p in es[i].live {
      l := i;
    } else {
      l := LatestLive(es, j, i - 1, p);
    }
  }

  // ---- Batches ----

  ghost predicate Compacts(fs: seq<Filter>, es: seq<Event>, k: nat)
    requires |fs| == |es| + 1 && k < |es|
  {
    es[k].Ports? && Due(fs[k], es[k].now)
  }

  lemma {:induction false} CompactionIsNoted(fs: seq<Filter>, es: seq<Event>, out: seq<seq<Port>>, j: nat, i: nat)
    requires ValidRun(fs, es, out) && j < i <= |es| && Compacts(fs, es, j) && forall k: nat :: j < k < i ==> es[k].Ports?
    ensures fs[i].lastCompact.Some? && fs[i].lastCompact.value >= es[j].now
  {
    if j < i - 1 {
      CompactionIsNoted(fs, es, out, j, i - 1);
    }
  }

  /** Old ports are dropped in batches: between two restarts, any two steps that drop some are at least the retention time apart. */
  lemma BatchesAreSpaced(fs: seq<Filter>, es: seq<Event>, out: seq<seq<Port>>, j: nat, i: nat)
    requires ValidRun(fs, es, out) && j < i < |es| && Compacts(fs, es, j) && Compacts(fs, es, i)
    requires forall k: nat :: j < k < i ==> es[k].Ports?
    ensures es[i].now - es[j].now >= TTL
  {
    CompactionIsNoted(fs, es, out, j, i);
  }
}
