/**
 Which local ports the UDP capture filter carries (internal/apptunnel/apptunnel_windows.go, routedUDPPorts):
 ports of routed applications, retained for a while after they are let go, and never more than the filter holds.
 Times are nanoseconds.
 */
module PortFilter {
  import opened Basics
  import Sorting

  const TTL := 300_000_000_000
  const MAX_PORTS := 250

  /** When each retained port was last live, and when the expired ones were last dropped. */
  datatype Filter = Filter(sticky: map<Port, int>, lastCompact: Option<int>)

  const EMPTY := Filter(map[], None)

  function Stamped(sticky: map<Port, int>, live: set<Port>, now: int): map<Port, int> {
    map p | p in sticky.Keys + live :: if p in live then now else sticky[p]
  }

  predicate Due(f: Filter, now: int) {
    f.lastCompact.None? || now - f.lastCompact.value >= TTL
  }

  function Unexpired(sticky: map<Port, int>, now: int): map<Port, int> {
    map p | p in sticky && now - sticky[p] < TTL :: sticky[p]
  }

  /** Every port that may be in the filter now, with its stamp. */
  function Candidates(f: Filter, live: set<Port>, now: int): map<Port, int> {
    var stamped := Stamped(f.sticky, live, now);
    if Due(f, now) then Unexpired(stamped, now) else stamped
  }

  /** p is retained in preference to q: seen later, or as late and with the smaller number. */
  predicate Preferred(m: map<Port, int>, p: Port, q: Port)
    requires p in m && q in m
  {
    m[p] > m[q] || (m[p] == m[q] && p < q)
  }

  /** The MAX_PORTS most preferred ports. */
  ghost predicate Top(m: map<Port, int>, keep: set<Port>) {
    && keep <= m.Keys
    && |keep| == (if |m| > MAX_PORTS then MAX_PORTS else |m|)
    && forall p, q :: p in keep && q in m && q !in keep ==> Preferred(m, p, q)
  }

  predicate StrictlySorted(ports: seq<Port>) {
    forall i, j :: 0 <= i < j < |ports| ==> ports[i] < ports[j]
  }

  ghost predicate Chosen(f: Filter, live: set<Port>, now: int, f': Filter, ports: seq<Port>) {
    var all := Candidates(f, live, now);
    && Top(all, f'.sticky.Keys)
    && (forall p :: p in f'.sticky ==> f'.sticky[p] == all[p])
    && f'.lastCompact == (if Due(f, now) then Some(now) else f.lastCompact)
    && StrictlySorted(ports)
    && (forall p :: p in ports <==> p in f'.sticky)
  }

  lemma TopIsUnique(m: map<Port, int>, a: set<Port>, b: set<Port>)
    requires Top(m, a) && Top(m, b)
    ensures a == b
  {
    if a <= b {
      Fills(a, b);
    } else {
      Fills(b, a);
    }
  }

  lemma {:induction false} SortedIsUnique(a: seq<Port>, b: seq<Port>)
    requires StrictlySorted(a) && StrictlySorted(b) && forall p :: p in a <==> p in b
    ensures a == b
  {
    assert |a| > 0 ==> a[0] in a;
    assert |b| > 0 ==> b[0] in b;
    if a != [] && b != [] {
      assert a[0] in b && b[0] in a;
      assert a[0] == b[0];
      forall p ensures p in a[1..] <==> p in b[1..] {
        assert p in a[1..] <==> p in a && p != a[0];
        assert p in b[1..] <==> p in b && p != b[0];
      }
      SortedIsUnique(a[1..], b[1..]);
      assert a == [a[0]] + a[1..] && b == [b[0]] + b[1..];
    }
  }

  /** The outcome does not depend on the order in which the retained ports are visited. */
  lemma ChoiceIsUnique(f: Filter, live: set<Port>, now: int, f1: Filter, ports1: seq<Port>, f2: Filter, ports2: seq<Port>)
    requires Chosen(f, live, now, f1, ports1) && Chosen(f, live, now, f2, ports2)
    ensures f1 == f2 && ports1 == ports2
  {
    TopIsUnique(Candidates(f, live, now), f1.sticky.Keys, f2.sticky.Keys);
    assert f1.sticky == f2.sticky;
    SortedIsUnique(ports1, ports2);
  }

  lemma {:induction false} DistinctCount(ports: seq<Port>, s: set<Port>)
    requires StrictlySorted(ports) && forall p :: p in ports <==> p in s
    ensures |ports| == |s|
  {
    if ports == [] {
      assert s == {};
    } else {
      assert ports[0] in s;
      forall p ensures p in ports[1..] <==> p in s - {ports[0]} {
        assert p in ports[1..] <==> p in ports && p != ports[0];
      }
      DistinctCount(ports[1..], s - {ports[0]});
    }
  }

  /** The filter never carries more ports than it can hold. */
  lemma NeverTooMany(f: Filter, live: set<Port>, now: int, f': Filter, ports: seq<Port>)
    requires Chosen(f, live, now, f', ports)
    ensures |ports| <= MAX_PORTS
  {
    DistinctCount(ports, f'.sticky.Keys);
  }

  /** Whatever is dropped was last live before whatever is kept, or at the same time and has the larger number. */
  lemma LatestThenSmallestAreKept(f: Filter, live: set<Port>, now: int, f': Filter, ports: seq<Port>, p: Port, q: Port)
    requires Chosen(f, live, now, f', ports) && p in ports && q in Candidates(f, live, now) && q !in ports
    ensures var all := Candidates(f, live, now); p in all && (all[q] < all[p] || (all[q] == all[p] && p < q))
  {
    assert Preferred(Candidates(f, live, now), p, q);
  }

  /** As long as the clock advances, every live port is carried when the live ports fit. */
  lemma LivePortsCarried(f: Filter, live: set<Port>, now: int, f': Filter, ports: seq<Port>)
    requires Chosen(f, live, now, f', ports) && |live| <= MAX_PORTS
    requires forall p :: p in f.sticky ==> f.sticky[p] < now
    ensures forall p :: p in live ==> p in ports
  {
    var all := Candidates(f, live, now);
    var keep := f'.sticky.Keys;
    forall p | p in live ensures p in ports {
      assert p in all && all[p] == now;
      if p !in keep {
        forall q | q in keep ensures q in live - {p} {
          assert Preferred(all, q, p);
        }
        if |all| <= MAX_PORTS {
          assert |keep| == |all.Keys|;
          Fills(keep, all.Keys);
        }
        Smaller(keep, live - {p});
      }
    }
  }

  lemma Fills(a: set<Port>, b: set<Port>)
    requires a <= b && |a| == |b|
    ensures a == b
  {
    assert b == a + (b - a);
  }

  lemma Smaller(a: set<Port>, b: set<Port>)
    requires a <= b
    ensures |a| <= |b|
  {
    assert b == a + (b - a);
  }

  // ---- Runs ----

  datatype Event = Ports(live: set<Port>, now: int) | Restart

  /** fs[i] is the filter before step i, out[i] what step i returned. */
  ghost predicate ValidRun(fs: seq<Filter>, es: seq<Event>, out: seq<seq<Port>>) {
    && |fs| == |es| + 1 && |out| == |es| && fs[0] == EMPTY
    && (forall i :: 0 <= i < |es| ==>
          match es[i]
          case Ports(live, now) => Chosen(fs[i], live, now, fs[i + 1], out[i])
          case Restart => fs[i + 1] == EMPTY)
    && (forall i, j :: 0 <= i < j < |es| && es[i].Ports? && es[j].Ports? ==> es[i].now <= es[j].now)
  }

  ghost predicate LiveAt(es: seq<Event>, j: nat, p: Port, at: int)
    requires j < |es|
  {
    es[j].Ports? && p in es[j].live && es[j].now == at
  }

  /** A stamp is the time of a step at which the port was live, and no older than TTL before the last compaction. */
  lemma {:induction false} StampMeansLive(fs: seq<Filter>, es: seq<Event>, out: seq<seq<Port>>, i: nat, p: Port)
    requires ValidRun(fs, es, out) && i <= |es| && p in fs[i].sticky
    ensures exists j :: 0 <= j < i && LiveAt(es, j, p, fs[i].sticky[p])
    ensures fs[i].lastCompact.Some? && fs[i].lastCompact.value - TTL < fs[i].sticky[p]
  {
    var ev := es[i - 1];
    assert ev.Ports?;
    if p in ev.live {
      assert LiveAt(es, i - 1, p, fs[i].sticky[p]);
      if !Due(fs[i - 1], ev.now) {
        CompactionInPast(fs, es, out, i - 1);
      }
    } else {
      StampMeansLive(fs, es, out, i - 1, p);
    }
  }

  lemma {:induction false} CompactionInPast(fs: seq<Filter>, es: seq<Event>, out: seq<seq<Port>>, i: nat)
    requires ValidRun(fs, es, out) && i <= |es| && fs[i].lastCompact.Some?
    ensures exists j :: 0 <= j < i && es[j].Ports? && es[j].now == fs[i].lastCompact.value
  {
    if i > 0 && es[i - 1].Ports? && !Due(fs[i - 1], es[i - 1].now) {
      CompactionInPast(fs, es, out, i - 1);
    } else if i > 0 {
      assert es[i - 1].Ports?;
    }
  }

  /** Every port the filter carries belonged to a routed application less than twice the retention time ago. */
  lemma CarriedPortsWereLive(fs: seq<Filter>, es: seq<Event>, out: seq<seq<Port>>, i: nat, p: Port)
    requires ValidRun(fs, es, out) && i < |es| && es[i].Ports? && p in out[i]
    ensures exists j :: 0 <= j <= i && es[j].Ports? && p in es[j].live && es[i].now - es[j].now < 2 * TTL
  {
    assert p in fs[i + 1].sticky;
    StampMeansLive(fs, es, out, i + 1, p);
    var j :| 0 <= j < i + 1 && LiveAt(es, j, p, fs[i + 1].sticky[p]);
    assert es[j].Ports? && p in es[j].live;
    assert es[i].now - fs[i + 1].lastCompact.value < TTL;
  }

  /** And while the clock strictly advances, it carries all of the live ones that fit. */
  lemma RunCarriesLivePorts(fs: seq<Filter>, es: seq<Event>, out: seq<seq<Port>>, i: nat)
    requires ValidRun(fs, es, out) && i < |es| && es[i].Ports? && |es[i].live| <= MAX_PORTS
    requires forall j :: 0 <= j < i && es[j].Ports? ==> es[j].now < es[i].now
    ensures forall p :: p in es[i].live ==> p in out[i]
  {
    forall p | p in fs[i].sticky ensures fs[i].sticky[p] < es[i].now {
      StampMeansLive(fs, es, out, i, p);
      var j :| 0 <= j < i && LiveAt(es, j, p, fs[i].sticky[p]);
    }
    LivePortsCarried(fs[i], es[i].live, es[i].now, fs[i + 1], out[i]);
  }

  // ---- The engine's fields ----

  class PortTable {
    var sticky: map<Port, int>
    var lastCompact: Option<int>

    ghost function View(): Filter
      reads this
    {
      Filter(sticky, lastCompact)
    }

    constructor ()
      ensures View() == EMPTY
    {
      sticky, lastCompact := map[], None;
    }

    method Restart()
      modifies this
      ensures View() == EMPTY
    {
      sticky, lastCompact := map[], None;
    }

    method RoutedPorts(live: set<Port>, now: int) returns (ports: seq<Port>)
      modifies this
      ensures Chosen(old(View()), live, now, View(), ports)
    {
      Stamp(live, now);
      if lastCompact.None? || now - lastCompact.value >= TTL {
        Compact(now);
        lastCompact := Some(now);
      }
      if |sticky| > MAX_PORTS {
        DropLeastPreferred();
      }
      ports := Sorting.Arrange(sticky.Keys, (p, q) => p <= q);
      SortedDistinct(ports);
    }

    method Stamp(live: set<Port>, now: int)
      modifies this`sticky
      ensures sticky == Stamped(old(sticky), live, now)
    {
      ghost var before := sticky;
      var todo := live;
      while todo != {}
        invariant todo <= live && sticky == Stamped(before, live - todo, now)
        decreases |todo|
      {
        var p :| p in todo;
        sticky := sticky[p := now];
        todo := todo - {p};
      }
      assert live - {} == live;
    }

    method Compact(now: int)
      modifies this`sticky
      ensures sticky == Unexpired(old(sticky), now)
    {
      ghost var before := sticky;
      var todo := sticky.Keys;
      while todo != {}
        invariant todo <= sticky.Keys <= before.Keys
        invariant forall p :: p in sticky <==> p in before && (p in todo || now - before[p] < TTL)
        invariant forall p :: p in sticky ==> sticky[p] == before[p]
        decreases |todo|
      {
        var p :| p in todo;
        if now - sticky[p] >= TTL {
          sticky := sticky - {p};
        }
        todo := todo - {p};
      }
    }

    method DropLeastPreferred()
      requires |sticky| > MAX_PORTS
      modifies this`sticky
      ensures Top(old(sticky), sticky.Keys)
      ensures forall p :: p in sticky ==> sticky[p] == old(sticky)[p]
    {
      var order := Sorting.Arrange(sticky.Keys, PreferredFirst(sticky));
      var keep := set i | 0 <= i < MAX_PORTS :: order[i];
      FirstAreTop(sticky, order, keep);
      sticky := map p | p in sticky && p in keep :: sticky[p];
      assert sticky.Keys == keep;
    }
  }

  function StampOf(m: map<Port, int>, p: Port): int {
    if p in m then m[p] else 0
  }

  function PreferredFirst(m: map<Port, int>): (Port, Port) -> bool {
    (p: Port, q: Port) => StampOf(m, p) > StampOf(m, q) || (StampOf(m, p) == StampOf(m, q) && p <= q)
  }

  lemma SortedDistinct(ports: seq<Port>)
    requires Sorting.SortedBy(ports, (p, q) => p <= q) && forall i, j :: 0 <= i < j < |ports| ==> ports[i] != ports[j]
    ensures StrictlySorted(ports)
  {
    var leq := (p: Port, q: Port) => p <= q;
    assert forall i, j :: 0 <= i < j < |ports| ==> leq(ports[i], ports[j]);
  }

  lemma FirstAreTop(m: map<Port, int>, order: seq<Port>, keep: set<Port>)
    requires |m| > MAX_PORTS && Sorting.Lists(order, m.Keys) && Sorting.SortedBy(order, PreferredFirst(m))
    requires keep == set i | 0 <= i < MAX_PORTS :: order[i]
    ensures Top(m, keep)
  {
    PrefixCount(order, MAX_PORTS);
    forall p, q | p in keep && q in m && q !in keep ensures Preferred(m, p, q) {
      var i :| 0 <= i < MAX_PORTS && order[i] == p;
      assert q in order;
      var j :| 0 <= j < |order| && order[j] == q;
      assert PreferredFirst(m)(order[i], order[j]);
    }
  }

  lemma {:induction false} PrefixCount(order: seq<Port>, n: nat)
    requires n <= |order| && forall i, j :: 0 <= i < j < |order| ==> order[i] != order[j]
    ensures |set i | 0 <= i < n :: order[i]| == n
  {
    if n > 0 {
      PrefixCount(order, n - 1);
      var a := set i | 0 <= i < n - 1 :: order[i];
      var b := set i | 0 <= i < n :: order[i];
      assert b == a + {order[n - 1]};
      assert order[n - 1] !in a;
    }
  }
}
