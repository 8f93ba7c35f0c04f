/**
 The per-port limit on walking the whole port table after a miss
 (internal/apptunnel/apptunnel_windows.go, missThrottle). Times are nanoseconds since 1970.
 */
module Throttle {
  import opened Basics

  const INTERVAL := 250_000_000

  datatype Event = Ask(port: Port, now: int) | Prune(now: int)

  /** A port without an entry counts as granted at time zero. */
  function LastIn(last: map<Port, int>, port: Port): int {
    if port in last then last[port] else 0
  }

  predicate Grants(last: map<Port, int>, port: Port, now: int) {
    now - LastIn(last, port) >= INTERVAL
  }

  function Pruned(last: map<Port, int>, now: int): map<Port, int> {
    map p | p in last && last[p] >= now - INTERVAL :: last[p]
  }

  function Step(last: map<Port, int>, e: Event): map<Port, int> {
    match e
    case Ask(port, now) => if Grants(last, port, now) then last[port := now] else last
    case Prune(now) => Pruned(last, now)
  }

  /** The table after a history of questions and prunes, the latest last. */
  function After(es: seq<Event>): map<Port, int> {
    if es == [] then map[] else Step(After(es[..|es| - 1]), es[|es| - 1])
  }

  /** The reference: when this port was last granted, from the questions about this port alone. */
  function LastGrant(es: seq<Event>, port: Port): int {
    if es == [] then 0
    else
      var before := LastGrant(es[..|es| - 1], port);
      match es[|es| - 1]
      case Ask(p, now) => if p == port && now - before >= INTERVAL then now else before
      case Prune(_) => before
  }

  ghost predicate Clocked(es: seq<Event>) {
    && (forall i :: 0 <= i < |es| ==> 0 <= es[i].now)
    && (forall i, j :: 0 <= i < j < |es| ==> es[i].now <= es[j].now)
  }

  /** The table holds the reference's time, unless that is long enough past not to matter. */
  lemma {:induction false} TableTracksReference(es: seq<Event>, port: Port)
    requires Clocked(es)
    ensures 0 <= LastGrant(es, port) && (es != [] ==> LastGrant(es, port) <= es[|es| - 1].now)
    ensures port in After(es) ==> After(es)[port] == LastGrant(es, port)
    ensures port !in After(es) ==>
              LastGrant(es, port) == 0 || (es != [] && LastGrant(es, port) < es[|es| - 1].now - INTERVAL)
  {
    if es != [] {
      var was := es[..|es| - 1];
      assert Clocked(was);
      TableTracksReference(was, port);
      if was != [] {
        assert was[|was| - 1].now <= es[|es| - 1].now;
      }
    }
  }

  /**
   Pruning, at whatever moments, never changes an answer, and neither do questions about other ports:
   the answer is the one the port's own history of grants gives.
   */
  lemma AnswerFollowsOwnHistory(es: seq<Event>, port: Port, now: int)
    requires Clocked(es + [Ask(port, now)])
    ensures Grants(After(es), port, now) <==> now - LastGrant(es, port) >= INTERVAL
  {
    var all := es + [Ask(port, now)];
    assert forall i :: 0 <= i < |es| ==> all[i] == es[i];
    assert Clocked(es);
    TableTracksReference(es, port);
    if es != [] {
      assert all[|es| - 1].now <= all[|es|].now;
    }
  }

  ghost predicate GrantedAt(es: seq<Event>, i: nat, port: Port)
    requires i < |es|
  {
    es[i].Ask? && es[i].port == port && Grants(After(es[..i]), port, es[i].now)
  }

  lemma {:induction false} GrantIsRemembered(es: seq<Event>, i: nat, j: nat, port: Port)
    requires Clocked(es) && i < j <= |es| && GrantedAt(es, i, port)
    ensures LastGrant(es[..j], port) >= es[i].now
  {
    assert es[..j][..j - 1] == es[..j - 1];
    if i < j - 1 {
      GrantIsRemembered(es, i, j - 1, port);
    } else {
      assert es[..i + 1] == es[..i] + [es[i]];
      assert Clocked(es[..i] + [Ask(port, es[i].now)]);
      AnswerFollowsOwnHistory(es[..i], port, es[i].now);
    }
  }

  /** Two grants for one port are never closer than the interval. */
  lemma GrantsAreSpaced(es: seq<Event>, i: nat, j: nat, port: Port)
    requires Clocked(es) && i < j < |es| && GrantedAt(es, i, port) && GrantedAt(es, j, port)
    ensures es[j].now - es[i].now >= INTERVAL
  {
    GrantIsRemembered(es, i, j, port);
    assert es[..j + 1] == es[..j] + [Ask(port, es[j].now)];
    assert Clocked(es[..j + 1]);
    AnswerFollowsOwnHistory(es[..j], port, es[j].now);
  }

  class MissThrottle {
    var last: map<Port, int>

    constructor ()
      ensures last == After([])
    {
      last := map[];
    }

    method Allow(port: Port, now: int) returns (ok: bool)
      modifies this
      ensures ok == Grants(old(last), port, now)
      ensures last == Step(old(last), Ask(port, now))
    {
      if now - (if port in last then last[port] else 0) < INTERVAL {
        return false;
      }
      last := last[port := now];
      return true;
    }

    method Prune(now: int)
      modifies this
      ensures last == Step(old(last), Event.Prune(now))
    {
      var cutoff := now - INTERVAL;
      ghost var before := last;
      var todo := last.Keys;
      while todo != {}
        invariant todo <= last.Keys <= before.Keys
        invariant forall p :: p in last <==> p in before && (p in todo || before[p] >= cutoff)
        invariant forall p :: p in last ==> last[p] == before[p]
        decreases |todo|
      {
        var p :| p in todo;
        if last[p] < cutoff {
          last := last - {p};
        }
        todo := todo - {p};
      }
    }
  }
}
