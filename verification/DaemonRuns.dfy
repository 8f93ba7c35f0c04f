/**
 What the user's commands mean over a run of the daemon (internal/daemon/daemon.go): the tunnel is wanted as last asked,
 the selection is the one last set, interception is on exactly when it should be, and a tunnel that stays down is rebuilt.
 */
module DaemonRuns {
  import opened Basics
  import opened Supervisor
  import Selection

  // ---- Wanted as last asked ----

  /** Connect or Import, accepted by the tunnel. */
  predicate Accepted(ev: Event) {
    (ev.Connect? || ev.Import?) && ev.ok
  }

  /** The user's word on the tunnel. */
  predicate Word(ev: Event) {
    Accepted(ev) || ev.Disconnect?
  }

  /** Step j is the last word before step i. */
  ghost predicate LastWord(es: seq<Event>, j: nat, i: nat)
    requires i <= |es|
  {
    j < i && Word(es[j]) && forall k: nat :: j < k < i ==> !Word(es[k])
  }

  lemma WantedStep(d: Daemon, ev: Event)
    ensures Apply(d, ev).wanted <==> Accepted(ev) || (d.wanted && !ev.Disconnect?)
  {
    if ev.Tick? {
      FollowKeepsCounters(d, ev);
    }
  }

  ghost predicate WantedLink(ds: seq<Daemon>, es: seq<Event>, k: nat)
    requires |ds| == |es| + 1 && k < |es|
  {
    ds[k + 1].wanted <==> Accepted(es[k]) || (ds[k].wanted && !es[k].Disconnect?)
  }

  lemma {:induction false} WantedByLinks(ds: seq<Daemon>, es: seq<Event>, j: nat, i: nat)
    requires |ds| == |es| + 1 && i <= |es| && LastWord(es, j, i) && forall k: nat :: k < |es| ==> WantedLink(ds, es, k)
    ensures ds[i].wanted <==> Accepted(es[j])
  {
    assert WantedLink(ds, es, i - 1);
    if j < i - 1 {
      WantedByLinks(ds, es, j, i - 1);
    }
  }

  /** Over every run, after the user's last word the tunnel is wanted if and only if that word was Connect or Import. */
  lemma WantedIff(ds: seq<Daemon>, es: seq<Event>, j: nat, i: nat)
    requires ValidRun(ds, es) && i <= |es| && LastWord(es, j, i)
    ensures ds[i].wanted <==> Accepted(es[j])
  {
    forall k: nat | k < |es| ensures WantedLink(ds, es, k) {
      WantedStep(ds[k], es[k]);
    }
    WantedByLinks(ds, es, j, i);
  }

  /** A tunnel the user has closed does not come back by itself: after Disconnect the supervisor does nothing. */
  lemma DisconnectIsFinal(ds: seq<Daemon>, es: seq<Event>, j: nat, i: nat)
    requires ValidRun(ds, es) && j < i < |es| && es[j].Disconnect? && forall k: nat :: j < k < i ==> !Accepted(es[k])
    ensures !ds[i].wanted && ActionOf(ds[i], es[i]) == Nothing
  {
    var l := LatestWord(es, j, i);
    WantedIff(ds, es, l, i);
  }

  lemma {:induction false} LatestWord(es: seq<Event>, j: nat, i: nat) returns (l: nat)
    requires j < i <= |es| && Word(es[j])
    ensures j <= l && LastWord(es, l, i)
  {
    if Word(es[i - 1]) {
      l := i - 1;
    } else {
      l := LatestWord(es, j, i - 1);
    }
  }

  // ---- Selected as last set ----

  ghost predicate LastSet(es: seq<Event>, j: nat, i: nat)
    requires i <= |es|
  {
    j < i && es[j].SetApps? && forall k: nat :: j < k < i ==> !es[k].SetApps?
  }

  lemma SelectedStep(d: Daemon, ev: Event)
    ensures Apply(d, ev).selected == if ev.SetApps? then ev.names else d.selected
  {
  }

  ghost predicate SelectedLink(ds: seq<Daemon>, es: seq<Event>, k: nat)
    requires |ds| == |es| + 1 && k < |es|
  {
    ds[k + 1].selected == if es[k].SetApps? then es[k].names else ds[k].selected
  }

  lemma {:induction false} SelectedByLinks(ds: seq<Daemon>, es: seq<Event>, j: nat, i: nat)
    requires |ds| == |es| + 1 && i <= |es| && LastSet(es, j, i) && forall k: nat :: k < |es| ==> SelectedLink(ds, es, k)
    ensures ds[i].selected == es[j].names
  {
    assert SelectedLink(ds, es, i - 1);
    if j < i - 1 {
      SelectedByLinks(ds, es, j, i - 1);
    }
  }

  /** The selection is the one last set, and until the daemon closes, what is intercepted is exactly that. */
  lemma InterceptsLastSet(ds: seq<Daemon>, es: seq<Event>, j: nat, i: nat)
    requires ValidRun(ds, es) && i <= |es| && LastSet(es, j, i)
    ensures ds[i].selected == es[j].names
    ensures ds[i].engine.running && !ds[i].closing ==> ds[i].engine.apps == es[j].names
  {
    forall k: nat | k < |es| ensures SelectedLink(ds, es, k) {
      SelectedStep(ds[k], es[k]);
    }
    SelectedByLinks(ds, es, j, i);
    if ds[i].engine.running && !ds[i].closing {
      InterceptsSelection(ds, es, i);
    }
  }

  // ---- Interception on and off ----

  /** The step reconciles: the selection changes, the tunnel's state does, or a failed start is due again. */
  predicate Reconciles(d: Daemon, ev: Event) {
    ev.SetApps? || (ev.Tick? && (StateChanges(d, ev) || Retries(d, ev)))
  }

  function SelectedAfter(d: Daemon, ev: Event): set<string> {
    if ev.SetApps? then ev.names else d.selected
  }

  /**
   Interception comes on in exactly these steps: one that reconciles with the tunnel connected and applications selected,
   whose start succeeds, and which does not give the tunnel up at once.
   */
  lemma ComesOnIff(d: Daemon, ev: Event)
    requires !d.engine.running
    ensures Apply(d, ev).engine.running <==>
              && Reconciles(d, ev) && ev.reconciled == Connected && !d.closing
              && SelectedAfter(d, ev) != {} && ev.start == Selection.Started && ActionOf(d, ev) != GiveUp
  {
    if ev.Tick? {
      FollowComesOnIff(d, ev);
      SuperviseKeepsOn(Follow(d, ev), ev);
      FollowKeepsCounters(d, ev);
    }
  }

  lemma FollowComesOnIff(d: Daemon, ev: Event)
    requires ev.Tick? && !d.engine.running
    ensures Follow(d, ev).engine.running <==>
              && Reconciles(d, ev) && ev.reconciled == Connected && !d.closing && d.selected != {} && ev.start == Selection.Started
    ensures Follow(d, ev).closing == d.closing && Follow(d, ev).selected == d.selected
  {
  }

  lemma SuperviseKeepsOn(d: Daemon, ev: Event)
    requires ev.Tick?
    ensures Supervise(d, ev.seen, ev.now, ev.config, ev.start).engine.running <==>
              d.engine.running && (d.closing || Decide(d, ev.seen, ev.now, ev.config) != GiveUp)
  {
  }

  /** And it goes off in exactly these: closing, Disconnect, giving up, and a reconcile that finds the tunnel down or nothing selected. */
  lemma GoesOffIff(d: Daemon, ev: Event)
    requires d.engine.running && !d.closing
    ensures !Apply(d, ev).engine.running <==>
              || ev.Close? || ev.Disconnect? || ActionOf(d, ev) == GiveUp
              || (Reconciles(d, ev) && (ev.reconciled == Disconnected || SelectedAfter(d, ev) == {}))
  {
    if ev.Tick? {
      FollowKeepsCounters(d, ev);
      FollowGoesOffIff(d, ev);
      SuperviseKeepsOn(Follow(d, ev), ev);
    }
  }

  lemma FollowGoesOffIff(d: Daemon, ev: Event)
    requires ev.Tick? && d.engine.running && !d.closing
    ensures !Follow(d, ev).engine.running <==> Reconciles(d, ev) && (ev.reconciled == Disconnected || d.selected == {})
    ensures Follow(d, ev).closing == d.closing
  {
  }

  /** Close is final over every run: interception is off, and nothing is asked of the engine any more. */
  lemma {:induction false} ClosedForGood(ds: seq<Daemon>, es: seq<Event>, j: nat, i: nat)
    requires ValidRun(ds, es) && j < i <= |es| && es[j].Close?
    ensures ds[i].closing && !ds[i].engine.running && ds[i].ops == ds[j + 1].ops
  {
    if i == j + 1 {
      assert ds[i] == Apply(ds[j], es[j]);
      ClosingIsOff(ds, es, i);
    } else {
      ClosedForGood(ds, es, j, i - 1);
      ClosedStaysOff(ds[i - 1], es[i - 1]);
    }
  }

  lemma ClosedStaysOff(d: Daemon, ev: Event)
    requires d.closing
    ensures Apply(d, ev).closing && Apply(d, ev).engine == d.engine && Apply(d, ev).ops == d.ops
  {
  }

  lemma {:induction false} ClosingIsOff(ds: seq<Daemon>, es: seq<Event>, i: nat)
    requires ValidRun(ds, es) && i <= |es| && ds[i].closing
    ensures !ds[i].engine.running
  {
    if i > 0 && ds[i - 1].closing {
      ClosingIsOff(ds, es, i - 1);
      ClosedStaysOff(ds[i - 1], es[i - 1]);
    } else if i > 0 {
      ClosingIsClose(ds[i - 1], es[i - 1]);
    }
  }

  lemma ClosingIsClose(d: Daemon, ev: Event)
    requires !d.closing && Apply(d, ev).closing
    ensures ev.Close? && !Apply(d, ev).engine.running
  {
    if ev.Tick? {
      FollowKeepsClosing(d, ev);
    }
  }

  lemma FollowKeepsClosing(d: Daemon, ev: Event)
    requires ev.Tick?
    ensures Follow(d, ev).closing == d.closing && Apply(d, ev).closing == d.closing
  {
  }

  // ---- A failed start is retried ----

  /** Since the tunnel's state changed at step c it has been the same. */
  ghost predicate SameStateSince(ds: seq<Daemon>, es: seq<Event>, c: nat, j: nat)
    requires |ds| == |es| + 1 && j < |es|
  {
    c < j && StateChanges(ds[c], es[c]) && forall k: nat :: c < k <= j ==> !StateChanges(ds[k], es[k])
  }

  /** Every retry between the two steps was long enough before this time. */
  ghost predicate RetriesLongAgo(ds: seq<Daemon>, es: seq<Event>, c: nat, j: nat, now: int)
    requires |ds| == |es| + 1 && j < |es|
  {
    forall k: nat :: c < k < j && Retries(ds[k], es[k]) ==> now - es[k].now >= START_RETRY
  }

  ghost predicate TryLink(ds: seq<Daemon>, es: seq<Event>, k: nat)
    requires |ds| == |es| + 1 && k < |es|
  {
    if StateChanges(ds[k], es[k]) then ds[k + 1].tries == 0 && ds[k + 1].lastTry == None
    else if Retries(ds[k], es[k]) then ds[k + 1].tries == ds[k].tries + 1 && ds[k + 1].lastTry == Some(es[k].now)
    else ds[k + 1].tries == ds[k].tries && ds[k + 1].lastTry == ds[k].lastTry
  }

  /** The counters of retries, since the tunnel's state changed at step c. */
  lemma {:induction false} TriesSince(ds: seq<Daemon>, es: seq<Event>, c: nat, j: nat)
    requires |ds| == |es| + 1 && c < j <= |es| && StateChanges(ds[c], es[c])
    requires forall k: nat :: c < k < j ==> !StateChanges(ds[k], es[k])
    requires forall k: nat :: k < |es| ==> TryLink(ds, es, k)
    ensures ds[j].tries == RetryCount(ds, es, c + 1, j)
    ensures ds[j].lastTry.None? ==> forall k: nat :: c < k < j ==> !Retries(ds[k], es[k])
    ensures ds[j].lastTry.Some? ==> exists k: nat :: LatestRetry(ds, es, c, j, k) && ds[j].lastTry.value == es[k].now
  {
    assert TryLink(ds, es, j - 1);
    if j > c + 1 {
      TriesSince(ds, es, c, j - 1);
      if Retries(ds[j - 1], es[j - 1]) {
        assert LatestRetry(ds, es, c, j, j - 1);
      } else if ds[j].lastTry.Some? {
        var k: nat :| LatestRetry(ds, es, c, j - 1, k) && ds[j - 1].lastTry.value == es[k].now;
        assert LatestRetry(ds, es, c, j, k);
      }
    }
  }

  ghost predicate LatestRetry(ds: seq<Daemon>, es: seq<Event>, c: nat, j: nat, k: nat)
    requires |ds| == |es| + 1 && j <= |es|
  {
    c < k < j && Retries(ds[k], es[k]) && forall l: nat :: k < l < j ==> !Retries(ds[l], es[l])
  }

  /**
   While the tunnel's state stays the same, a tick retries a failed start if and only if the tunnel is seen connected,
   interception is off though applications are selected, fewer than six retries have been made since the state changed,
   and each of them was at least ten seconds ago.
   */
  lemma RetriedIff(ds: seq<Daemon>, es: seq<Event>, c: nat, j: nat)
    requires ValidRun(ds, es) && j < |es| && SameStateSince(ds, es, c, j) && es[j].Tick?
    ensures Retries(ds[j], es[j]) <==>
              && es[j].seen == Connected && !ds[j].engine.running && ds[j].selected != {}
              && RetryCount(ds, es, c + 1, j) < MAX_STARTS && RetriesLongAgo(ds, es, c, j, es[j].now)
  {
    forall k: nat | k < |es| ensures TryLink(ds, es, k) {
      TriesStep(ds[k], es[k]);
    }
    TriesSince(ds, es, c, j);
    if ds[j].lastTry.Some? {
      var l: nat :| LatestRetry(ds, es, c, j, l) && ds[j].lastTry.value == es[l].now;
      forall k: nat | c < k < j && Retries(ds[k], es[k]) ensures es[k].now <= es[l].now {
        assert k <= l;
      }
    }
  }

  // ---- A tunnel that stays down is rebuilt ----

  /** A tick that finds the tunnel wanted and down, with a configuration to rebuild it from. */
  predicate FindsDown(d: Daemon, ev: Event) {
    ev.Tick? && d.wanted && ev.seen != Connected && ev.config
  }

  /** From step i to step j every tick finds the tunnel down. */
  ghost predicate DownThrough(ds: seq<Daemon>, es: seq<Event>, i: nat, j: nat)
    requires |ds| == |es| + 1 && j < |es|
  {
    i < j && es[i].Tick? && es[j].Tick? && forall k: nat :: i <= k <= j && es[k].Tick? ==> FindsDown(ds[k], es[k])
  }

  lemma {:induction false} DeadlineIsPast(ds: seq<Daemon>, es: seq<Event>, i: nat)
    requires ValidRun(ds, es) && i <= |es| && ds[i].downSince.Some?
    ensures exists k :: 0 <= k < i && es[k].Tick? && es[k].now == ds[i].downSince.value
  {
    FailsBounded(ds, es, i - 1);
    CountersStep(ds[i - 1], es[i - 1]);
    if ds[i].downSince == ds[i - 1].downSince {
      DeadlineIsPast(ds, es, i - 1);
    }
  }

  lemma {:induction false} DeadlineHolds(ds: seq<Daemon>, es: seq<Event>, i: nat, j: nat, k: nat)
    requires ValidRun(ds, es) && j < |es| && DownThrough(ds, es, i, j) && i < k <= j && ds[i + 1].fails < MAX_REBUILDS
    requires forall l: nat :: i < l < k ==> ActionOf(ds[l], es[l]) == Nothing
    ensures ds[k].fails < MAX_REBUILDS && ds[k].downSince.Some? && ds[k].downSince.value <= es[i].now
  {
    if k == i + 1 {
      FailsBounded(ds, es, i);
      CountersStep(ds[i], es[i]);
      if ds[i].downSince.Some? {
        DeadlineIsPast(ds, es, i);
      }
    } else {
      DeadlineHolds(ds, es, i, j, k - 1);
      QuietStep(ds[k - 1], es[k - 1], es[i].now);
    }
  }

  lemma QuietStep(d: Daemon, ev: Event, at: int)
    requires d.fails < MAX_REBUILDS && d.downSince.Some? && d.downSince.value <= at
    requires (ev.Tick? ==> FindsDown(d, ev)) && ActionOf(d, ev) == Nothing
    ensures var r := Apply(d, ev); r.fails < MAX_REBUILDS && r.downSince.Some? && r.downSince.value <= at
  {
    CountersStep(d, ev);
  }

  /**
   A wanted tunnel that is found down for fifteen seconds gets an attempt, a rebuild or the giving up, unless it has been
   given up before.
   */
  lemma DownTunnelIsRebuilt(ds: seq<Daemon>, es: seq<Event>, i: nat, j: nat)
    requires ValidRun(ds, es) && j < |es| && DownThrough(ds, es, i, j) && ds[i + 1].fails < MAX_REBUILDS
    requires es[j].now - es[i].now >= RECONNECT_AFTER
    ensures exists k :: i < k <= j && ActionOf(ds[k], es[k]) != Nothing
  {
    if forall k: nat :: i < k < j ==> ActionOf(ds[k], es[k]) == Nothing {
      DeadlineHolds(ds, es, i, j, j);
      assert FindsDown(ds[j], es[j]);
      assert ActionOf(ds[j], es[j]) != Nothing;
    }
  }
}
