/** Whole lives of a setup of dynamic families: what the listener removes, adds and fails on. */
module EntityRuns {
  import opened Wrappers
  import opened EntitySync
  import opened EntityHistory
  import opened EntityFamilies

  // ── Runs ───────────────────────────────────────────────────────────────────

  /** The listener runs, or something else edits the registry: another platform, another set of
      families, the user. */
  datatype Event = Listener(views: seq<View>) | Elsewhere(registry: set<Entity>)

  function Setup(registry: set<Entity>): State {
    State(Tables({}, map[], map[], map[], map[]), registry, {})
  }

  function NextState(s: State, domain: string, families: seq<Family>, e: Event): State {
    match e
    case Listener(views) => if |views| == |families| then AfterSync(s, domain, families, views).0 else s
    case Elsewhere(registry) => s.(registry := registry, handed := {})
  }

  function Run(registry: set<Entity>, domain: string, families: seq<Family>, events: seq<Event>): State {
    if events == [] then Setup(registry)
    else NextState(Run(registry, domain, families, events[..|events| - 1]), domain, families, events[|events| - 1])
  }

  ghost predicate EventFits(families: seq<Family>, e: Event) {
    e.Listener? ==> |e.views| == |families| && AllFit(families, e.views)
  }

  ghost predicate EventsFit(families: seq<Family>, events: seq<Event>) {
    forall i :: 0 <= i < |events| ==> EventFits(families, events[i])
  }

  lemma OneMoreRun(registry: set<Entity>, domain: string, families: seq<Family>, events: seq<Event>, e: Event)
    ensures Run(registry, domain, families, events + [e]) == NextState(Run(registry, domain, families, events), domain, families, e)
  {
    assert (events + [e])[..|events|] == events;
  }

  // ── The readings a family worked with ───────────────────────────────────────

  predicate IsEmpty(v: View) {
    v.items == Some([])
  }

  /** The time of the latest empty reading; None when there was none. */
  function LatestEmpty(views: seq<View>): Option<real> {
    if views == [] then None
    else if IsEmpty(views[|views| - 1]) then views[|views| - 1].fetched
    else LatestEmpty(views[..|views| - 1])
  }

  /** This reading was empty and came at another time than the empty reading before it. */
  predicate NewlyEmpty(views: seq<View>, i: nat)
    requires i < |views|
  {
    IsEmpty(views[i]) && views[i].fetched != LatestEmpty(views[..i])
  }

  ghost predicate EmptySince(views: seq<View>, i: nat) {
    forall j :: i <= j < |views| ==> IsEmpty(views[j])
  }

  /** An empty reading at a new time, and nothing but empty readings since. */
  ghost predicate HasNewlyEmpty(views: seq<View>) {
    exists i: nat :: i < |views| && NewlyEmpty(views, i) && EmptySince(views, i)
  }

  /** How many empty readings at a new time there were without another reading in between. */
  function CountedEmpties(views: seq<View>): (n: nat)
    ensures n <= |views| && EmptySince(views, |views| - n)
  {
    if views == [] || !IsEmpty(views[|views| - 1]) then 0
    else
      var n := |views| - 1;
      CountedEmpties(views[..n]) + if NewlyEmpty(views, n) then 1 else 0
  }

  lemma {:induction false} CountedMeansNewlyEmpty(views: seq<View>)
    ensures CountedEmpties(views) > 0 <==> HasNewlyEmpty(views)
  {
    if views != [] {
      var n := |views| - 1;
      var front := views[..n];
      CountedMeansNewlyEmpty(front);
      if HasNewlyEmpty(front) && IsEmpty(views[n]) {
        var i: nat :| i < n && NewlyEmpty(front, i) && EmptySince(front, i);
        assert front[..i] == views[..i];
        assert NewlyEmpty(views, i) && EmptySince(views, i);
      }
      if NewlyEmpty(views, n) {
        assert EmptySince(views, n);
      }
      if HasNewlyEmpty(views) {
        var i: nat :| i < |views| && NewlyEmpty(views, i) && EmptySince(views, i);
        assert IsEmpty(views[n]);
        if i < n {
          assert front[..i] == views[..i];
          assert NewlyEmpty(front, i) && EmptySince(front, i);
        }
      }
    }
  }

  /** The time of the latest reading, empty or not. */
  function LatestTime(views: seq<View>): Option<real> {
    if views == [] then None else views[|views| - 1].fetched
  }

  predicate Has(v: View, x: string) {
    v.items.Some? && x in v.items.value
  }

  /** How many readings at a new time there were since the object was last present. */
  function CountedAbsences(views: seq<View>, x: string): (n: nat)
    ensures n <= |views| && forall i :: |views| - n <= i < |views| ==> !Has(views[i], x)
  {
    if views == [] || Has(views[|views| - 1], x) then 0
    else
      var n := |views| - 1;
      CountedAbsences(views[..n], x) + if views[n].fetched != LatestTime(views[..n]) then 1 else 0
  }

  /** The lookup of the empty streak fails on this reading after those. */
  ghost predicate FailsOn(f: Family, views: seq<View>, v: View) {
    && f.removeStale && f.trustEmpty && Acts(v)
    && IsEmpty(v) && v.fetched == LatestEmpty(views) && !HasNewlyEmpty(views)
  }

  /** The readings of family k on which the listener completed its work on the family: those of
      the runs in which no family up to k failed. */
  ghost function Seen(families: seq<Family>, events: seq<Event>, k: nat): (views: seq<View>)
    requires k < |families|
    ensures forall i :: 0 <= i < |views| ==> Acts(views[i])
    decreases |events|, 0
  {
    if events == [] then []
    else
      var n := |events| - 1;
      var e, front := events[n], Seen(families, events[..n], k);
      if e.Listener? && |e.views| == |families| && Acts(e.views[k]) && NoneFails(families, events[..n], e.views, k + 1)
      then front + [e.views[k]] else front
  }

  /** None of the first n families fails on these views after those events. */
  ghost predicate NoneFails(families: seq<Family>, events: seq<Event>, views: seq<View>, n: nat)
    requires |views| == |families| && n <= |families|
    decreases |events|, 1
  {
    forall k :: 0 <= k < n ==> !FailsOn(families[k], Seen(families, events, k), views[k])
  }

  lemma OneMoreSeen(families: seq<Family>, events: seq<Event>, e: Event, k: nat)
    requires k < |families|
    ensures Seen(families, events + [e], k) ==
            if e.Listener? && |e.views| == |families| && Acts(e.views[k]) && NoneFails(families, events, e.views, k + 1)
            then Seen(families, events, k) + [e.views[k]] else Seen(families, events, k)
  {
    assert (events + [e])[..|events|] == events;
  }

  // ── The tables follow the readings ──────────────────────────────────────────

  /** The tables of one family after these readings, whatever their times. */
  ghost predicate TablesFollow(s: State, f: Family, views: seq<View>) {
    && (f.removeStale && f.trustEmpty ==>
          && Get(s.tables.lastFetch, f.prefix) == LatestEmpty(views)
          && Count(s.tables.emptyStreak, f.prefix) == CountedEmpties(views)
          && (f.prefix in s.tables.emptyStreak <==> CountedEmpties(views) > 0))
    && (f.removeStale && f.confirmMissing ==>
          && Get(s.tables.lastMissingFetch, f.prefix) == LatestTime(views)
          && forall x :: f.prefix <= x ==> Count(s.tables.missingStreak, x) <= CountedAbsences(views, x))
  }

  lemma SameTablesFollow(s: State, t: State, domain: string, f: Family, views: seq<View>)
    requires SamePart(s, t, domain, f) && TablesFollow(s, f, views)
    ensures TablesFollow(t, f, views)
  {
    LookupIsGet(s.tables.lastFetch, t.tables.lastFetch, f.prefix);
    LookupIsGet(s.tables.lastMissingFetch, t.tables.lastMissingFetch, f.prefix);
    LookupIsCount(s.tables.emptyStreak, t.tables.emptyStreak, f.prefix);
    forall x | f.prefix <= x ensures Count(s.tables.missingStreak, x) == Count(t.tables.missingStreak, x) {
      assert SameFor(s, t, domain, x);
      LookupIsCount(s.tables.missingStreak, t.tables.missingStreak, x);
    }
  }

  lemma FailsIsFailsOn(s: State, f: Family, views: seq<View>, v: View)
    requires TablesFollow(s, f, views)
    ensures FamilyFails(s, f, v) <==> FailsOn(f, views, v)
  {
    CountedMeansNewlyEmpty(views);
  }

  lemma OneMoreView(views: seq<View>, v: View, x: string)
    ensures var more := views + [v];
            && LatestEmpty(more) == (if IsEmpty(v) then v.fetched else LatestEmpty(views))
            && CountedEmpties(more) == (if !IsEmpty(v) then 0
                                        else CountedEmpties(views) + if v.fetched != LatestEmpty(views) then 1 else 0)
            && LatestTime(more) == v.fetched
            && CountedAbsences(more, x) == (if Has(v, x) then 0
                                            else CountedAbsences(views, x) + if v.fetched != LatestTime(views) then 1 else 0)
  {
    assert (views + [v])[..|views|] == views;
  }

  /** A step on a reading that does not fail. */
  lemma StepFollows(s: State, domain: string, f: Family, views: seq<View>, v: View)
    requires Acts(v)
    requires TablesFollow(s, f, views) && !FamilyFails(s, f, v)
    ensures TablesFollow(AfterFamily(s, domain, f, v), f, views + [v])
  {
    OneMoreView(views, v, "");
    if f.removeStale {
      forall x | f.confirmMissing && f.prefix <= x
        ensures Count(AfterFamily(s, domain, f, v).tables.missingStreak, x) <= CountedAbsences(views + [v], x)
      {
        OneMoreView(views, v, x);
        StreaksOf(s, domain, f, v);
      }
    }
  }

  /** A step on a reading that fails changes none of these tables. */
  lemma FailureFollows(s: State, domain: string, f: Family, views: seq<View>, v: View)
    requires TablesFollow(s, f, views)
    requires FamilyFails(s, f, v) || !Acts(v)
    ensures TablesFollow(AfterFamily(s, domain, f, v), f, views)
  {
  }

  lemma UnhandedFollows(s: State, f: Family, views: seq<View>, handed: set<string>, registry: set<Entity>)
    requires TablesFollow(s, f, views)
    ensures TablesFollow(s.(handed := handed, registry := registry), f, views)
  {
  }

  ghost predicate AllFollow(s: State, families: seq<Family>, events: seq<Event>) {
    forall k :: 0 <= k < |families| ==> TablesFollow(s, families[k], Seen(families, events, k))
  }

  lemma ReachedByViews(s: State, domain: string, families: seq<Family>, events: seq<Event>, views: seq<View>, n: nat)
    requires |views| == |families| && AllFit(families, views) && Isolated(families) && n <= |families|
    requires AllFollow(s, families, events)
    ensures Reached(s.(handed := {}), domain, families, views, n) <==> NoneFails(families, events, views, n)
  {
    SyncEndsWell(s, domain, families[..n], views[..n]);
    forall k | 0 <= k < n
      ensures FamilyFails(s, families[..n][k], views[..n][k]) <==> FailsOn(families[k], Seen(families, events, k), views[k])
    {
      FailsIsFailsOn(s, families[k], Seen(families, events, k), views[k]);
    }
  }

  lemma SyncFollows(s: State, domain: string, families: seq<Family>, events: seq<Event>, views: seq<View>, k: nat)
    requires |views| == |families| && AllFit(families, views) && Isolated(families) && k < |families|
    requires AllFollow(s, families, events)
    ensures TablesFollow(AfterSync(s, domain, families, views).0, families[k], Seen(families, events + [Listener(views)], k))
  {
    hide TablesFollow, FailsOn;
    var f, v, seen := families[k], views[k], Seen(families, events, k);
    var (after, ok) := AfterSync(s, domain, families, views);
    var reached := Reached(s.(handed := {}), domain, families, views, k);
    ReachedByViews(s, domain, families, events, views, k);
    FailsIsFailsOn(s, f, seen, v);
    OneMoreSeen(families, events, Listener(views), k);
    UnhandedFollows(s, f, seen, {}, s.registry);
    FamiliesAreIsolated(s, domain, families, views, k);
    var start := s.(handed := {});
    var alone := AfterFamily(start, domain, f, v);
    if Acts(v) && !FamilyFails(start, f, v) {
      StepFollows(start, domain, f, seen, v);
    } else {
      FailureFollows(start, domain, f, seen, v);
    }
    var now := Seen(families, events + [Listener(views)], k);
    var outcome := Outcome(s, domain, f, v, reached, ok);
    if reached {
      UnhandedFollows(alone, f, now, outcome.handed, outcome.registry);
    }
    SameBothWays(after, outcome, domain, f);
    SameTablesFollow(outcome, after, domain, f, now);
  }

  lemma SetupFollows(registry: set<Entity>, f: Family)
    ensures TablesFollow(Setup(registry), f, [])
  {
  }

  /** Over every run, with whatever times and failures: the tables of every family are what its
      readings say. */
  lemma {:induction false} RunFollows(registry: set<Entity>, domain: string, families: seq<Family>, events: seq<Event>)
    requires Isolated(families) && EventsFit(families, events)
    ensures AllFollow(Run(registry, domain, families, events), families, events)
  {
    hide TablesFollow;
    if events == [] {
      forall k | 0 <= k < |families| ensures TablesFollow(Setup(registry), families[k], Seen(families, [], k)) {
        SetupFollows(registry, families[k]);
      }
    } else {
      var n := |events| - 1;
      RunFollows(registry, domain, families, events[..n]);
      var s, e := Run(registry, domain, families, events[..n]), events[n];
      assert EventFits(families, e) && events == events[..n] + [e];
      forall k | 0 <= k < |families|
        ensures TablesFollow(NextState(s, domain, families, e), families[k], Seen(families, events, k))
      {
        if e.Listener? {
          SyncFollows(s, domain, families, events[..n], e.views, k);
        } else {
          OneMoreSeen(families, events[..n], e, k);
          UnhandedFollows(s, families[k], Seen(families, events[..n], k), {}, e.registry);
        }
      }
    }
  }

  // ── A lookup that fails ────────────────────────────────────────────────────

  /** Over every run: the listener's next run ends in the failed lookup exactly when some family
      meets an empty reading that has the time of its latest earlier empty reading (no time, if
      there was none), and no empty reading since its last non-empty one came at a new time. */
  lemma ListenerFailsExactly(registry: set<Entity>, domain: string, families: seq<Family>, events: seq<Event>, views: seq<View>)
    requires Isolated(families) && EventsFit(families, events) && |views| == |families| && AllFit(families, views)
    ensures AfterSync(Run(registry, domain, families, events), domain, families, views).1 <==>
            NoneFails(families, events, views, |families|)
  {
    RunFollows(registry, domain, families, events);
    var s := Run(registry, domain, families, events);
    ReachedByViews(s, domain, families, events, views, |families|);
    assert families[..|families|] == families && views[..|views|] == views;
  }

  /** An empty first reading without a time fails at once. */
  lemma UnstampedFirstReadingFails(registry: set<Entity>, domain: string, families: seq<Family>, views: seq<View>, k: nat)
    requires Isolated(families) && |views| == |families| && AllFit(families, views) && k < |families|
    requires families[k].removeStale && families[k].trustEmpty && views[k] == View(true, Some([]), None)
    ensures !AfterSync(Setup(registry), domain, families, views).1
  {
    ListenerFailsExactly(registry, domain, families, [], views);
    assert FailsOn(families[k], Seen(families, [], k), views[k]);
  }

  // ── Removals, whatever the times ────────────────────────────────────────────

  /** What a removal of an entity proves, by the kind of family. The two counts are of readings at
      a new time, but all readings they span lack the object, or are empty. */
  ghost predicate Evidence(f: Family, seen: seq<View>, x: string) {
    && f.removeStale && seen != [] && !Has(seen[|seen| - 1], x)
    && (|| (f.confirmMissing && CountedAbsences(seen, x) >= 3)
        || (f.trustEmpty && CountedEmpties(seen) >= 3)
        || (!f.confirmMissing && !IsEmpty(seen[|seen| - 1])))
  }

  lemma StepHasEvidence(s: State, domain: string, f: Family, seen: seq<View>, v: View, x: string)
    requires TablesFollow(s, f, seen) && Acts(v) && f.removeStale && f.prefix <= x
    requires x in RemovedBy(s, domain, f, v)
    ensures Evidence(f, seen + [v], x)
  {
    OneMoreView(seen, v, x);
    var current := Current(s.tables, f, v, Registered(s.registry, domain, f.prefix));
    if !RemovesAll(s.tables, f, v) {
      assert x !in current && current != {};
      if !f.confirmMissing {
        assert v.items.value != [];
      }
    }
  }

  /** Over every run, failed lookups, readings without a time of their own and edits from elsewhere
      included: an entity that a run of the listener takes out was absent from the reading, and a
      family that confirms missing objects had counted three absences in a row, unless it trusts
      empty tables and had counted three empty readings in a row; one that only trusts empty tables
      had those three or a reading with other objects; a plain one had a reading with other
      objects. */
  lemma RemovalHasEvidence(registry: set<Entity>, domain: string, families: seq<Family>, events: seq<Event>, views: seq<View>,
                           k: nat, x: string)
    requires Isolated(families) && EventsFit(families, events) && |views| == |families| && AllFit(families, views)
    requires k < |families| && families[k].prefix <= x
    requires Entity(domain, x) in Run(registry, domain, families, events).registry
    requires Entity(domain, x) !in Run(registry, domain, families, events + [Listener(views)]).registry
    ensures Seen(families, events + [Listener(views)], k) == Seen(families, events, k) + [views[k]]
    ensures Evidence(families[k], Seen(families, events + [Listener(views)], k), x)
  {
    hide Evidence, TablesFollow, FailsOn;
    var s, f, v := Run(registry, domain, families, events), families[k], views[k];
    var seen := Seen(families, events, k);
    RunFollows(registry, domain, families, events);
    OneMoreRun(registry, domain, families, events, Listener(views));
    OneMoreSeen(families, events, Listener(views), k);
    FamiliesAreIsolated(s, domain, families, views, k);
    ReachedByViews(s, domain, families, events, views, k);
    FailsIsFailsOn(s, f, seen, v);
    var (after, ok) := AfterSync(s, domain, families, views);
    var reached := Reached(s.(handed := {}), domain, families, views, k);
    assert SameFor(after, Outcome(s, domain, f, v, reached, ok), domain, x);
    GoneMeansRemoved(s, domain, f, v, reached, ok, x);
    UnhandedFollows(s, f, seen, {}, s.registry);
    StepHasEvidence(s.(handed := {}), domain, f, seen, v, x);
  }

  lemma GoneMeansRemoved(s: State, domain: string, f: Family, v: View, reached: bool, ok: bool, x: string)
    requires Entity(domain, x) in s.registry && (ok ==> reached)
    requires Entity(domain, x) !in Outcome(s, domain, f, v, reached, ok).registry
    ensures reached && Acts(v) && f.removeStale && !FamilyFails(s, f, v) && x in RemovedBy(s.(handed := {}), domain, f, v)
  {
  }

  /** Hardware that drops out of a table keeps its entity over every run, unless something else
      takes it out. */
  lemma {:induction false} HardwareIsKept(registry: set<Entity>, domain: string, families: seq<Family>, events: seq<Event>,
                                          i: nat, k: nat, x: string)
    requires Isolated(families) && EventsFit(families, events) && i <= |events|
    requires k < |families| && !families[k].removeStale && families[k].prefix <= x
    requires Entity(domain, x) in Run(registry, domain, families, events[..i]).registry
    requires forall j :: i <= j < |events| && events[j].Elsewhere? ==> Entity(domain, x) in events[j].registry
    ensures Entity(domain, x) in Run(registry, domain, families, events).registry
  {
    if i == |events| {
      assert events[..i] == events;
    } else {
      var n := |events| - 1;
      assert events[..n][..i] == events[..i] && events == events[..n] + [events[n]];
      HardwareIsKept(registry, domain, families, events[..n], i, k, x);
      if events[n].Listener? && Entity(domain, x) !in Run(registry, domain, families, events).registry {
        assert EventFits(families, events[n]);
        RemovalHasEvidence(registry, domain, families, events[..n], events[n].views, k, x);
        assert false;
      }
    }
  }

  // ── An entity is added once ────────────────────────────────────────────────

  /** The suffixes whose entity was handed over and has not been removed by the listener since. */
  function Live(registry: set<Entity>, domain: string, families: seq<Family>, events: seq<Event>): set<string> {
    if events == [] then {}
    else
      var n := |events| - 1;
      var before := Run(registry, domain, families, events[..n]);
      var after := Run(registry, domain, families, events);
      var live := Live(registry, domain, families, events[..n]);
      if events[n].Elsewhere? then live
      else after.handed + set x | x in live && !(Entity(domain, x) in before.registry && Entity(domain, x) !in after.registry)
  }

  lemma {:induction false} LiveAreKnown(registry: set<Entity>, domain: string, families: seq<Family>, events: seq<Event>, x: string)
    requires Isolated(families) && EventsFit(families, events)
    ensures x in Live(registry, domain, families, events) ==> x in Run(registry, domain, families, events).tables.known
  {
    if events != [] {
      var n := |events| - 1;
      LiveAreKnown(registry, domain, families, events[..n], x);
      if events[n].Listener? {
        assert EventFits(families, events[n]);
        SyncKeepsObject(Run(registry, domain, families, events[..n]), domain, families, events[n].views, x);
      }
    }
  }

  /** Whatever happens in between, failed lookups and edits from elsewhere included: an object is
      handed over for a new entity only if it never was before, or the listener has removed its
      entity since. */
  lemma AddedOnce(registry: set<Entity>, domain: string, families: seq<Family>, events: seq<Event>, views: seq<View>, x: string)
    requires Isolated(families) && EventsFit(families, events) && |views| == |families| && AllFit(families, views)
    ensures x in Run(registry, domain, families, events + [Listener(views)]).handed ==>
              x !in Live(registry, domain, families, events)
  {
    assert (events + [Listener(views)])[..|events|] == events;
    LiveAreKnown(registry, domain, families, events, x);
    SyncKeepsObject(Run(registry, domain, families, events), domain, families, views, x);
  }

  /** The object was in a reading that the listener worked with, of whatever family. */
  ghost predicate SeenBefore(events: seq<Event>, x: string) {
    exists i, k :: 0 <= i < |events| && events[i].Listener? && 0 <= k < |events[i].views| && ShowsIt(events[i].views[k], x)
  }

  predicate ShowsIt(v: View, x: string) {
    v.available && v.items.Some? && x in v.items.value
  }

  lemma {:induction false} OnlyShownAreKnown(s: State, domain: string, families: seq<Family>, views: seq<View>, x: string)
    requires |views| == |families|
    ensures x in AfterFamilies(s, domain, families, views).0.tables.known ==>
              x in s.tables.known || exists k :: 0 <= k < |views| && ShowsIt(views[k], x)
  {
    if families != [] {
      var n := |families| - 1;
      OnlyShownAreKnown(s, domain, families[..n], views[..n], x);
      if k :| 0 <= k < |views[..n]| && ShowsIt(views[..n][k], x) {
        assert ShowsIt(views[k], x);
      }
      var front := AfterFamilies(s, domain, families[..n], views[..n]).0;
      OneShown(front, domain, families[n], views[n], x);
    }
  }

  lemma OneShown(s: State, domain: string, f: Family, v: View, x: string)
    ensures x in AfterFamily(s, domain, f, v).tables.known ==> x in s.tables.known || ShowsIt(v, x)
  {
  }

  lemma {:induction false} KnownWereSeen(registry: set<Entity>, domain: string, families: seq<Family>, events: seq<Event>,
                                         x: string)
    ensures x in Run(registry, domain, families, events).tables.known ==> SeenBefore(events, x)
  {
    if events != [] {
      var n := |events| - 1;
      KnownWereSeen(registry, domain, families, events[..n], x);
      var s, e := Run(registry, domain, families, events[..n]), events[n];
      if SeenBefore(events[..n], x) {
        var i, k :| 0 <= i < n && events[..n][i].Listener? && 0 <= k < |events[..n][i].views|
                    && ShowsIt(events[..n][i].views[k], x);
        assert events[i].Listener? && ShowsIt(events[i].views[k], x);
      } else if e.Listener? && |e.views| == |families| {
        OnlyShownAreKnown(s.(handed := {}), domain, families, e.views, x);
        if k :| 0 <= k < |e.views| && ShowsIt(e.views[k], x) {
          assert events[n].Listener? && ShowsIt(events[n].views[k], x);
        }
      }
    }
  }

  /** An object that shows up for the first time is handed over for an entity in that very run,
      registered from an earlier session or not, when no lookup fails. */
  lemma NewObjectIsAdded(registry: set<Entity>, domain: string, families: seq<Family>, events: seq<Event>, views: seq<View>,
                         k: nat, x: string)
    requires Isolated(families) && EventsFit(families, events) && |views| == |families| && AllFit(families, views)
    requires k < |families| && ShowsIt(views[k], x) && !SeenBefore(events, x)
    requires NoneFails(families, events, views, |families|)
    ensures x in Run(registry, domain, families, events + [Listener(views)]).handed
    ensures Entity(domain, x) in Run(registry, domain, families, events + [Listener(views)]).registry
  {
    hide SeenBefore, NoneFails;
    var s := Run(registry, domain, families, events);
    KnownWereSeen(registry, domain, families, events, x);
    ListenerFailsExactly(registry, domain, families, events, views);
    OneMoreRun(registry, domain, families, events, Listener(views));
    assert Fits(families[k], views[k]);
    HandedExactly(s, domain, families, views, k, x);
  }
}
