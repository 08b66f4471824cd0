/** What the coordinator shows the entity listener: when each applied reading has its own time.

    This is what the dynamic entities rely on; it holds for every endpoint that is not invalidated
    while it is being read, as long as the clock moves between two readings. */
module EntityReadings {
  import opened Wrappers
  import opened Coordinators
  import opened Switches
  import Sync = EntitySync
  import History = EntityHistory

  function DataAt(w: World, key: Key): Option<Reading> {
    Lookup(Previous(w.coord), key)
  }

  function FetchedAt(w: World, key: Key): Option<real> {
    Lookup(w.coord.fetchedAt, key)
  }

  /** The event ends a cycle that brings in a reading of this endpoint. */
  predicate BringsReading(setup: Setup, w: World, e: Event, key: Key) {
    e == Resume && w.cycle.Some? && w.cycle.value.pending == {} &&
    match Settle(setup.config.source, w.cycle.value)
    case Complete(updates, _) => key in updates
    case _ => false
  }

  /** A reading that this event brings in was not invalidated under way and comes at a new time. */
  predicate NewTime(setup: Setup, w: World, e: Event, key: Key) {
    BringsReading(setup, w, e, key) ==>
      && Undisturbed(w.cycle.value.generation, w.coord.generation, key)
      && (key in w.coord.fetchedAt ==> w.coord.fetchedAt[key] < w.clock)
  }

  /** A reading of the data always has a time; the time only grows, and while it is the same so is
      the reading. */
  ghost predicate TimeTells(w: World, m: World, key: Key) {
    && (FetchedAt(w, key).Some? ==>
          && FetchedAt(m, key).Some? && FetchedAt(w, key).value <= FetchedAt(m, key).value
          && (FetchedAt(w, key) == FetchedAt(m, key) ==> DataAt(w, key) == DataAt(m, key)))
    && (FetchedAt(w, key).None? && FetchedAt(m, key).None? ==> DataAt(w, key) == DataAt(m, key))
  }

  lemma QuietStepTimeTells(setup: Setup, w: World, e: Event, key: Key)
    requires Possible(setup, w, e) && e != Resume
    ensures TimeTells(w, Next(setup, w, e), key)
  {
    OnlyResumeTouchesReadings(setup, w, e);
    hide Next, Possible;
  }

  lemma StepTimeTells(setup: Setup, w: World, e: Event, key: Key)
    requires Possible(setup, w, e) && NewTime(setup, w, e, key)
    ensures TimeTells(w, Next(setup, w, e), key)
  {
    if e == Resume {
      hide Merge, Settle, TimeTells, Undisturbed, MergedAt;
      var l := Later(w);
      match Settle(setup.config.source, l.cycle.value) {
        case Complete(updates, failures) =>
          FinishAt(setup, l, l.cycle.value, updates, failures, key);
          MergedTimeTells(setup, w, l, l.cycle.value, updates, Merge(setup, l, l.cycle.value, updates, failures), key);
        case _ => SameTimeTells(w, Next(setup, w, e), key);
      }
    } else {
      hide Next, TimeTells;
      QuietStepTimeTells(setup, w, e, key);
    }
  }

  lemma SameTimeTells(w: World, m: World, key: Key)
    requires m.coord == w.coord
    ensures TimeTells(w, m, key)
  {
  }

  lemma MergedTimeTells(setup: Setup, before: World, w: World, c: Cycle<Reading>, updates: map<Key, Reading>, m: World, key: Key)
    requires before.coord == w.coord && MergedAt(setup, w, c, updates, m, key)
    requires key in updates ==> Undisturbed(c.generation, w.coord.generation, key)
                                && (key in w.coord.fetchedAt ==> w.coord.fetchedAt[key] < w.clock)
    ensures TimeTells(before, m, key)
  {
  }

  lemma {:induction false} RunTimeTells(setup: Setup, worlds: seq<World>, events: seq<Event>, i: nat, j: nat, key: Key)
    requires Run(setup, worlds, events) && i <= j < |worlds| && |worlds| == |events| + 1
    requires forall n :: i <= n < j ==> NewTime(setup, worlds[n], events[n], key)
    ensures TimeTells(worlds[i], worlds[j], key)
    decreases j
  {
    hide NewTime, Run, TimeTells;
    if i < j {
      RunTimeTells(setup, worlds, events, i, j - 1, key);
      OneStep(setup, worlds, events, j - 1, key);
      TimeTellsChain(worlds[i], worlds[j - 1], worlds[j], key);
    } else {
      SameTimeTells(worlds[i], worlds[j], key);
    }
  }

  lemma OneStep(setup: Setup, worlds: seq<World>, events: seq<Event>, n: nat, key: Key)
    requires Run(setup, worlds, events) && n < |events| && NewTime(setup, worlds[n], events[n], key)
    ensures TimeTells(worlds[n], worlds[n + 1], key)
  {
    StepTimeTells(setup, worlds[n], events[n], key);
  }

  lemma TimeTellsChain(w: World, l: World, m: World, key: Key)
    requires TimeTells(w, l, key) && TimeTells(l, m, key)
    ensures TimeTells(w, m, key)
  {
  }

  // ── Views of the listener ──────────────────────────────────────────────────

  /** What the listener sees of a family in this world. */
  function ViewOf(w: World, key: Key, items: Reading -> seq<string>): Sync.View {
    var r := DataAt(w, key);
    Sync.View(key in w.coord.ok && w.coord.ok[key], if r.None? then None else Some(items(r.value)), FetchedAt(w, key))
  }

  /** An endpoint is available for the listener when its last request brought a reading: the end
      of a cycle says so for every endpoint it asked, and leaves the others. */
  lemma AvailabilityFollowsAnswers(setup: Setup, w: World, key: Key, items: Reading -> seq<string>)
    requires Possible(setup, w, Resume) && EachOnce(w.cycle.value) && Settle(setup.config.source, w.cycle.value).Complete?
    ensures var settled := Settle(setup.config.source, w.cycle.value);
            ViewOf(Next(setup, w, Resume), key, items).available ==
              if key in settled.updates then true
              else if key in settled.failures then false
              else ViewOf(w, key, items).available
  {
    hide Settle, Finish;
    SettleLosesNothing(setup.config.source, w.cycle.value);
    var settled := Settle(setup.config.source, w.cycle.value);
    FinishAvailability(setup.config, w.coord, w.cycle.value.generation, settled.updates, settled.failures, w.clock, key);
    var ok := Next(setup, w, Resume).coord.ok;
    assert Lookup(ok, key) == Some(true) <==> key in ok && ok[key];
  }

  /** The listener ran in these worlds, in order. */
  function HistoryOf(worlds: seq<World>, at: seq<nat>, key: Key, items: Reading -> seq<string>): seq<History.Reading>
    requires forall n :: 0 <= n < |at| ==> at[n] < |worlds|
  {
    if at == [] then []
    else
      var n := |at| - 1;
      History.Read(HistoryOf(worlds, at[..n], key, items), ViewOf(worlds[at[n]], key, items))
  }

  ghost predicate InOrder(worlds: seq<World>, at: seq<nat>) {
    (forall n :: 0 <= n < |at| ==> at[n] < |worlds|) && forall i, j :: 0 <= i < j < |at| ==> at[i] <= at[j]
  }

  /** The last reading of the history is what some earlier world showed. */
  ghost predicate ShownBy(w: World, key: Key, items: Reading -> seq<string>, r: History.Reading) {
    && DataAt(w, key).Some? && FetchedAt(w, key) == Some(r.stamp)
    && r.items == SetOf(items(DataAt(w, key).value))
  }

  lemma {:induction false} LastWasShown(worlds: seq<World>, at: seq<nat>, key: Key, items: Reading -> seq<string>) returns (i: nat)
    requires InOrder(worlds, at) && HistoryOf(worlds, at, key, items) != []
    ensures i < |at| && ShownBy(worlds[at[i]], key, items, History.Last(HistoryOf(worlds, at, key, items)))
  {
    var n := |at| - 1;
    var front, v := HistoryOf(worlds, at[..n], key, items), ViewOf(worlds[at[n]], key, items);
    if History.Read(front, v) == front {
      i := LastWasShown(worlds, at[..n], key, items);
    } else {
      i := n;
    }
  }

  /** In a run where every reading of the endpoint comes at a new time, the listener's views are
      what the dynamic entities rely on: each reading has its own time, later than the one before,
      and seeing the same time means seeing the same objects. */
  lemma ViewsAreStamped(setup: Setup, worlds: seq<World>, events: seq<Event>, at: seq<nat>, key: Key, items: Reading -> seq<string>)
    requires Run(setup, worlds, events) && worlds[0].coord.data.None?
    requires forall n :: 0 <= n < |events| ==> NewTime(setup, worlds[n], events[n], key)
    requires InOrder(worlds, at) && at != []
    ensures var n := |at| - 1;
            History.Stamped(HistoryOf(worlds, at[..n], key, items), ViewOf(worlds[at[n]], key, items))
  {
    hide NewTime;
    var n := |at| - 1;
    var history := HistoryOf(worlds, at[..n], key, items);
    RunTimeTells(setup, worlds, events, 0, at[n], key);
    if history != [] {
      var i := LastWasShown(worlds, at[..n], key, items);
      RunTimeTells(setup, worlds, events, at[i], at[n], key);
    }
  }
}
