/** Exactly which entities the listener removes, for a family whose readings have times of their
    own. */
module EntityRemovals {
  import opened Wrappers
  import opened EntitySync
  import opened EntityHistory
  import opened EntityFamilies
  import opened EntityRuns

  function History(events: seq<Event>, k: nat): seq<Reading> {
    if events == [] then []
    else
      var e, front := events[|events| - 1], History(events[..|events| - 1], k);
      if e.Listener? && k < |e.views| then Read(front, e.views[k]) else front
  }

  lemma OneMoreEvent(events: seq<Event>, e: Event, k: nat)
    ensures History(events + [e], k) ==
            if e.Listener? && k < |e.views| then Read(History(events, k), e.views[k]) else History(events, k)
  {
    assert (events + [e])[..|events|] == events;
  }

  /** Family k got a reading with a time of its own, or the same again, and the run of the listener
      was completed; nothing else edits the entities of family k. The other families may have
      readings without times. */
  ghost predicate Orderly(s: State, domain: string, families: seq<Family>, events: seq<Event>, e: Event, k: nat)
    requires k < |families|
  {
    && EventFits(families, e)
    && match e
       case Listener(views) => AfterSync(s, domain, families, views).1 && Stamped(History(events, k), views[k])
       case Elsewhere(registry) =>
         forall x :: families[k].prefix <= x ==> (Entity(domain, x) in registry <==> Entity(domain, x) in s.registry)
  }

  ghost predicate OrderlyRun(registry: set<Entity>, domain: string, families: seq<Family>, events: seq<Event>, k: nat)
    requires k < |families|
  {
    events == [] ||
    (var n := |events| - 1;
     && OrderlyRun(registry, domain, families, events[..n], k)
     && Orderly(Run(registry, domain, families, events[..n]), domain, families, events[..n], events[n], k))
  }

  lemma SetupIsFaithful(registry: set<Entity>, domain: string, f: Family)
    requires f.removeStale
    ensures Faithful(Setup(registry), domain, f, [])
  {
  }

  lemma ListenerStaysFaithful(s: State, domain: string, families: seq<Family>, views: seq<View>, readings: seq<Reading>, k: nat)
    requires Isolated(families) && |views| == |families| && AllFit(families, views) && k < |families|
    requires AfterSync(s, domain, families, views).1
    requires Faithful(s, domain, families[k], readings) && Stamped(readings, views[k])
    ensures Faithful(AfterSync(s, domain, families, views).0, domain, families[k], Read(readings, views[k]))
  {
    var after, alone := AfterSync(s, domain, families, views).0, SyncAlone(s, domain, families[k], views[k]);
    SyncStaysFaithful(s, domain, families[k], readings, views[k]);
    FamiliesAreIsolated(s, domain, families, views, k);
    SameBothWays(after, alone, domain, families[k]);
    SameIsFaithful(alone, after, domain, families[k], Read(readings, views[k]));
  }

  lemma ElsewhereStaysFaithful(s: State, domain: string, f: Family, readings: seq<Reading>, registry: set<Entity>)
    requires Faithful(s, domain, f, readings)
    requires forall x :: f.prefix <= x ==> (Entity(domain, x) in registry <==> Entity(domain, x) in s.registry)
    ensures Faithful(s.(registry := registry, handed := {}), domain, f, readings)
  {
    var start, after := s.(handed := {}), s.(registry := registry, handed := {});
    assert SamePart(start, after, domain, f);
    SameIsFaithful(start, after, domain, f, readings);
  }

  /** Over every such run the counters of the family agree with the history of its readings. */
  lemma {:induction false} CountersAgreeWithHistory(registry: set<Entity>, domain: string, families: seq<Family>,
                                                    events: seq<Event>, k: nat)
    requires Isolated(families) && k < |families| && families[k].removeStale
    requires OrderlyRun(registry, domain, families, events, k)
    ensures Faithful(Run(registry, domain, families, events), domain, families[k], History(events, k))
  {
    hide Faithful, Stamped;
    if events == [] {
      SetupIsFaithful(registry, domain, families[k]);
    } else {
      var n := |events| - 1;
      CountersAgreeWithHistory(registry, domain, families, events[..n], k);
      var s := Run(registry, domain, families, events[..n]);
      assert Orderly(s, domain, families, events[..n], events[n], k);
      match events[n] {
        case Listener(views) => ListenerStaysFaithful(s, domain, families, views, History(events[..n], k), k);
        case Elsewhere(r) => ElsewhereStaysFaithful(s, domain, families[k], History(events[..n], k), r);
      }
    }
  }

  /** An entity disappears in a run of the listener exactly when its removal is due by the
      history of its family, and every object that was read has an entity. */
  lemma RemovedExactlyWhenDue(registry: set<Entity>, domain: string, families: seq<Family>, events: seq<Event>, views: seq<View>,
                              k: nat, x: string)
    requires Isolated(families) && k < |families| && families[k].removeStale && |views| == |families|
    requires OrderlyRun(registry, domain, families, events + [Listener(views)], k)
    requires Acts(views[k]) && families[k].prefix <= x
    ensures var before := Run(registry, domain, families, events);
            var after := Run(registry, domain, families, events + [Listener(views)]);
            && Read(History(events, k), views[k]) != []
            && (Entity(domain, x) in after.registry <==>
                  || x in SetOf(views[k].items.value)
                  || (Entity(domain, x) in before.registry
                      && !Due(families[k], Registered(before.registry, domain, families[k].prefix),
                              Read(History(events, k), views[k]), x)))
  {
    assert (events + [Listener(views)])[..|events|] == events;
    var s, readings := Run(registry, domain, families, events), History(events, k);
    assert Orderly(s, domain, families, events, Listener(views), k);
    CountersAgreeWithHistory(registry, domain, families, events, k);
    FamiliesAreIsolated(s, domain, families, views, k);
    ReadCounts(readings, views[k], x);
    RegisteredAfter(s, domain, families[k], readings, views[k], x);
    assert SameFor(AfterSync(s, domain, families, views).0, SyncAlone(s, domain, families[k], views[k]), domain, x);
  }

  ghost predicate AbsentFromLast(readings: seq<Reading>, n: nat, x: string) {
    |readings| >= n && forall i :: |readings| - n <= i < |readings| ==> x !in readings[i].items
  }

  lemma AbsencesAre(readings: seq<Reading>, n: nat, x: string)
    ensures AbsentFromLast(readings, n, x) <==> Absences(readings, x) >= n
  {
  }

  /** A family that trusts empty tables and confirms missing objects: an entity is removed
      exactly when its object was absent from the last three readings. */
  lemma RemovedAfterThreeAbsences(registry: set<Entity>, domain: string, families: seq<Family>, events: seq<Event>,
                                  views: seq<View>, k: nat, x: string)
    requires Isolated(families) && k < |families| && |views| == |families|
    requires OrderlyRun(registry, domain, families, events + [Listener(views)], k)
    requires Acts(views[k]) && families[k].prefix <= x
    requires families[k].removeStale && families[k].trustEmpty && families[k].confirmMissing
    requires Entity(domain, x) in Run(registry, domain, families, events).registry
    ensures Entity(domain, x) !in Run(registry, domain, families, events + [Listener(views)]).registry <==>
            AbsentFromLast(Read(History(events, k), views[k]), 3, x)
  {
    RemovedExactlyWhenDue(registry, domain, families, events, views, k, x);
    var readings := Read(History(events, k), views[k]);
    AbsencesAre(readings, 3, x);
    assert (events + [Listener(views)])[..|events|] == events;
    assert Orderly(Run(registry, domain, families, events), domain, families, events, Listener(views), k);
    ReadCounts(History(events, k), views[k], x);
  }

  /** The last so many readings were empty. */
  ghost predicate LastEmpty(readings: seq<Reading>, n: nat) {
    |readings| >= n && forall i :: |readings| - n <= i < |readings| ==> readings[i].items == {}
  }

  lemma EmptiesAre(readings: seq<Reading>, n: nat)
    ensures LastEmpty(readings, n) <==> EmptyReadings(readings) >= n
  {
  }

  /** A family that trusts empty tables and confirms nothing else: an empty reading takes the last
      entities out exactly when it is the third in a row. */
  lemma EmptiedAfterThreeEmptyReadings(registry: set<Entity>, domain: string, families: seq<Family>, events: seq<Event>,
                                       views: seq<View>, k: nat, x: string)
    requires Isolated(families) && k < |families| && |views| == |families|
    requires OrderlyRun(registry, domain, families, events + [Listener(views)], k)
    requires views[k].available && views[k].items == Some([]) && families[k].prefix <= x
    requires families[k].removeStale && families[k].trustEmpty && !families[k].confirmMissing
    requires Entity(domain, x) in Run(registry, domain, families, events).registry
    ensures Entity(domain, x) !in Run(registry, domain, families, events + [Listener(views)]).registry <==>
            LastEmpty(Read(History(events, k), views[k]), 3)
  {
    RemovedExactlyWhenDue(registry, domain, families, events, views, k, x);
    var readings := Read(History(events, k), views[k]);
    EmptiesAre(readings, 3);
    assert (events + [Listener(views)])[..|events|] == events;
    assert Orderly(Run(registry, domain, families, events), domain, families, events, Listener(views), k);
    ReadCounts(History(events, k), views[k], x);
  }

  // ── Runs in which no lookup fails ───────────────────────────────────────────

  /** Every reading of a family that trusts empty tables has a time of its own. */
  ghost predicate TrustedStamped(families: seq<Family>, events: seq<Event>, views: seq<View>)
    requires |views| == |families|
  {
    forall k :: 0 <= k < |families| && families[k].trustEmpty ==> Stamped(History(events, k), views[k])
  }

  ghost predicate StampedEvent(families: seq<Family>, events: seq<Event>, e: Event) {
    EventFits(families, e) && (e.Listener? ==> TrustedStamped(families, events, e.views))
  }

  ghost predicate StampedRun(families: seq<Family>, events: seq<Event>) {
    forall n :: 0 <= n < |events| ==> StampedEvent(families, events[..n], events[n])
  }

  ghost predicate AllEmptyCounted(s: State, families: seq<Family>, events: seq<Event>) {
    forall k :: 0 <= k < |families| && families[k].removeStale ==> EmptyCounted(s, families[k], History(events, k))
  }

  lemma SameEmptyCounted(s: State, t: State, domain: string, f: Family, readings: seq<Reading>)
    requires SamePart(s, t, domain, f) && EmptyCounted(s, f, readings)
    ensures EmptyCounted(t, f, readings)
  {
    LookupIsGet(s.tables.lastFetch, t.tables.lastFetch, f.prefix);
    LookupIsCount(s.tables.emptyStreak, t.tables.emptyStreak, f.prefix);
  }

  lemma ListenerStaysCounted(s: State, domain: string, families: seq<Family>, events: seq<Event>, views: seq<View>)
    requires Isolated(families) && |views| == |families| && AllFit(families, views)
    requires AllEmptyCounted(s, families, events) && TrustedStamped(families, events, views)
    ensures AfterSync(s, domain, families, views).1
    ensures AllEmptyCounted(AfterSync(s, domain, families, views).0, families, events + [Listener(views)])
  {
    forall k | 0 <= k < |families| ensures !FamilyFails(s, families[k], views[k]) {
      if families[k].removeStale && families[k].trustEmpty && Acts(views[k]) {
        NoLookupFails(s, domain, families[k], History(events, k), views[k]);
      }
    }
    SyncEndsWell(s, domain, families, views);
    var after := AfterSync(s, domain, families, views).0;
    forall k | 0 <= k < |families| && families[k].removeStale && families[k].trustEmpty
      ensures EmptyCounted(after, families[k], History(events + [Listener(views)], k))
    {
      var f, readings := families[k], History(events, k);
      var alone := SyncAlone(s, domain, f, views[k]);
      OneMoreEvent(events, Listener(views), k);
      if Acts(views[k]) {
        EmptyStaysCounted(s, domain, f, readings, views[k]);
        TablesAfter(s, domain, f, views[k]);
      }
      FamiliesAreIsolated(s, domain, families, views, k);
      SameBothWays(after, alone, domain, f);
      SameEmptyCounted(alone, after, domain, f, Read(readings, views[k]));
    }
  }

  /** When the readings of the families that trust empty tables have times of their own, no lookup
      ever fails, whatever the other families read and whatever else edits the registry. */
  lemma {:induction false} StampedRunsNeverFail(registry: set<Entity>, domain: string, families: seq<Family>, events: seq<Event>)
    requires Isolated(families) && StampedRun(families, events)
    ensures AllEmptyCounted(Run(registry, domain, families, events), families, events)
    ensures events != [] && events[|events| - 1].Listener? ==>
              AfterSync(Run(registry, domain, families, events[..|events| - 1]), domain, families, events[|events| - 1].views).1
  {
    if events != [] {
      var n := |events| - 1;
      var front, e := events[..n], events[n];
      forall i | 0 <= i < |front| ensures StampedEvent(families, front[..i], front[i]) {
        assert front[..i] == events[..i] && front[i] == events[i];
      }
      StampedRunsNeverFail(registry, domain, families, front);
      assert events == front + [e] && StampedEvent(families, front, e);
      if e.Listener? {
        ListenerStaysCounted(Run(registry, domain, families, front), domain, families, front, e.views);
      } else {
        forall k | 0 <= k < |families| ensures History(events, k) == History(front, k) {
          OneMoreEvent(front, e, k);
        }
      }
    }
  }
}
