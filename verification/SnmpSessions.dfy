/** What the SNMP coordinator concludes in runs of the whole system: an agent that never answered,
    an appliance without sensors, and the traffic sample it keeps. */
module SnmpSessions {
  import opened Wrappers
  import opened Coordinators
  import opened SnmpDetection
  import opened Switches
  import Traffic

  // ── The end of a cycle ─────────────────────────────────────────────────────

  /** The event ends a cycle, which then merges its readings or raises. */
  predicate Ends(setup: Setup, w: World, e: Event) {
    e == Resume && w.cycle.Some? && w.cycle.value.pending == {} && Settle(setup.config.source, w.cycle.value).Complete?
  }

  /** What the ending cycle has read. */
  function ReadBy(setup: Setup, w: World, e: Event): map<Key, Reading> {
    if Ends(setup, w, e) then Settle(setup.config.source, w.cycle.value).updates else map[]
  }

  function EndOf(setup: Setup, w: World): Finished<Reading>
    requires Ends(setup, w, Resume)
  {
    var settled := Settle(setup.config.source, w.cycle.value);
    Finish(setup.config, w.coord, w.cycle.value.generation, settled.updates, settled.failures, w.clock)
  }

  ghost predicate AnyTrue(ok: map<Key, bool>) {
    exists key :: key in ok && ok[key]
  }

  ghost predicate AnyOk(s: State<Reading>) {
    AnyTrue(s.ok)
  }

  lemma EndIsFinish(setup: Setup, w: World)
    requires Possible(setup, w, Resume) && Ends(setup, w, Resume)
    ensures Next(setup, w, Resume).coord == EndOf(setup, w).state && Next(setup, w, Resume).cycle.None?
    ensures ReadBy(setup, w, Resume) != map[] ==> EndOf(setup, w).raised.None?
  {
  }

  /** An event that ends no cycle leaves the availability, the verdict and the sample alone. */
  lemma QuietStep(setup: Setup, w: World, e: Event)
    requires Possible(setup, w, e) && !Ends(setup, w, e)
    ensures var s, t := w.coord, Next(setup, w, e).coord;
            (t.ok, t.health, t.disabled, t.sample) == (s.ok, s.health, s.disabled, s.sample)
  {
    hide Begin, Deliver, DueKeys, AfterListener;
    match e
    case WriteConfirmed(id, on) => InvalidatedOnly(w.coord, [setup.places[id].endpoint]);
    case WriteFailed(id) => InvalidatedOnly(w.coord, [setup.places[id].endpoint]);
    case Invalidate(keys) => InvalidatedOnly(w.coord, keys);
    case _ =>
  }

  lemma {:induction false} InvalidatedOnly<V>(s: State<V>, keys: seq<Key>)
    ensures Invalidated(s, keys) == s.(last := Invalidated(s, keys).last, generation := Invalidated(s, keys).generation)
  {
    if keys != [] {
      InvalidatedOnly(s, keys[..|keys| - 1]);
    }
  }

  // ── An agent that never answered ────────────────────────────────────────────

  /** The refresh that the event completes, if it does. */
  ghost function RefreshBy(setup: Setup, w: World, e: Event): seq<Refresh>
    requires Possible(setup, w, e)
  {
    if Ends(setup, w, e) then
      if EndOf(setup, w).raised.Some? then [RaisedAt(w.clock)] else [ReturnedWith(AnyOk(Next(setup, w, e).coord))]
    else if e.BeginCycle? && Begin(setup.config, w.coord, w.clock, e.restrict).None? then
      [ReturnedWith(AnyOk(Next(setup, w, e).coord))]
    else []
  }

  ghost function Refreshes(setup: Setup, worlds: seq<World>, events: seq<Event>, n: nat): seq<Refresh>
    requires Run(setup, worlds, events) && n <= |events|
  {
    if n == 0 then []
    else Refreshes(setup, worlds, events, n - 1) + RefreshBy(setup, worlds[n - 1], events[n - 1])
  }

  predicate ReadsSomething(setup: Setup, w: World, e: Event) {
    ReadBy(setup, w, e) != map[]
  }

  /** Some cycle of the first n events has read an endpoint. */
  ghost predicate ReadSoFar(setup: Setup, worlds: seq<World>, events: seq<Event>, n: nat)
    requires |worlds| == |events| + 1 && n <= |events|
  {
    exists i :: 0 <= i < n && ReadsSomething(setup, worlds[i], events[i])
  }

  lemma NotedOk(ok: map<Key, bool>, read: set<Key>, failed: set<Key>)
    requires read !! failed
    ensures var after := ok + Noted(read, true) + Noted(failed, false);
            (read != {} ==> AnyTrue(after)) && (AnyTrue(after) ==> read != {} || AnyTrue(ok))
  {
    var after := ok + Noted(read, true) + Noted(failed, false);
    if key :| key in read {
      assert key in after && after[key];
    }
    if AnyTrue(after) && read == {} {
      var key :| key in after && after[key];
      assert key in ok && ok[key];
    }
  }

  lemma EndNotesOk(setup: Setup, w: World)
    requires Possible(setup, w, Resume) && Ends(setup, w, Resume) && EachOnce(w.cycle.value)
    ensures ReadsSomething(setup, w, Resume) ==> AnyOk(EndOf(setup, w).state)
    ensures AnyOk(EndOf(setup, w).state) ==> ReadsSomething(setup, w, Resume) || AnyOk(w.coord)
  {
    hide AnyTrue, Noted, EachOnce, Attempted, Settle, Stamps, Judged, Prepared, AllConnection;
    SettleLosesNothing(setup.config.source, w.cycle.value);
    var settled := Settle(setup.config.source, w.cycle.value);
    NotedOk(w.coord.ok, settled.updates.Keys, settled.failures.Keys);
    assert settled.updates != map[] <==> settled.updates.Keys != {};
  }

  lemma RefreshAnswers(setup: Setup, w: World, e: Event)
    requires Possible(setup, w, e) && (w.cycle.Some? ==> EachOnce(w.cycle.value))
    ensures ReadsSomething(setup, w, e) ==> RefreshBy(setup, w, e) == [ReturnedWith(true)]
    ensures ReturnedWith(true) in RefreshBy(setup, w, e) ==> AnyOk(Next(setup, w, e).coord)
    ensures AnyOk(Next(setup, w, e).coord) ==> ReadsSomething(setup, w, e) || AnyOk(w.coord)
  {
    hide EndOf, AnyOk, Begin, Next;
    if Ends(setup, w, e) {
      EndIsFinish(setup, w);
      EndNotesOk(setup, w);
    } else {
      QuietStep(setup, w, e);
      SameOk(w.coord, Next(setup, w, e).coord);
    }
  }

  lemma SameOk(s: State<Reading>, t: State<Reading>)
    requires s.ok == t.ok
    ensures AnyOk(s) == AnyOk(t)
  {
  }

  lemma {:induction false} AnsweredMeansRead(setup: Setup, worlds: seq<World>, events: seq<Event>, n: nat)
    requires RunFrom(setup, worlds, events) && n <= |events|
    ensures AgentAnswered(Refreshes(setup, worlds, events, n)) <==> ReadSoFar(setup, worlds, events, n)
    ensures AnyOk(worlds[n].coord) ==> ReadSoFar(setup, worlds, events, n)
    decreases n
  {
    hide AnyOk, ReadsSomething, RefreshBy, Next;
    if n == 0 {
      NothingOkAtFirst(setup, worlds[0].history[0], worlds[0].clock);
    } else {
      AnsweredMeansRead(setup, worlds, events, n - 1);
      CyclesReadEachOnce(setup, worlds, events, n - 1);
      RefreshAnswers(setup, worlds[n - 1], events[n - 1]);
      if ReadSoFar(setup, worlds, events, n) && !ReadSoFar(setup, worlds, events, n - 1) {
        assert ReadsSomething(setup, worlds[n - 1], events[n - 1]);
      }
    }
  }

  lemma NothingOkAtFirst(setup: Setup, firewall: Firewall, clock: real)
    ensures !AnyOk(Initial(setup, firewall, clock).coord)
  {
  }

  ghost predicate InOrderUntil(times: seq<real>, now: real) {
    Ordered(times) && forall i :: 0 <= i < |times| ==> times[i] <= now
  }

  lemma {:induction false} FailuresInOrder(setup: Setup, worlds: seq<World>, events: seq<Event>, n: nat)
    requires Run(setup, worlds, events) && n <= |events|
    ensures InOrderUntil(Failures(Refreshes(setup, worlds, events, n)), worlds[n].clock)
    decreases n
  {
    hide Run, Refreshes, RefreshBy, Next, Possible;
    if n == 0 {
      NothingRefreshed(setup, worlds, events);
    } else {
      hide Failures, InOrderUntil;
      StepOf(setup, worlds, events, n - 1);
      OneMoreRefresh(setup, worlds, events, n);
      FailuresInOrder(setup, worlds, events, n - 1);
      var w, more := worlds[n - 1], RefreshBy(setup, worlds[n - 1], events[n - 1]);
      ClockMovesOn(setup, w, events[n - 1]);
      RefreshTime(setup, w, events[n - 1]);
      MoreFailures(Refreshes(setup, worlds, events, n - 1), more);
      OneMoreInOrder(Failures(Refreshes(setup, worlds, events, n - 1)), w.clock,
                     if |more| == 1 && more[0].RaisedAt? then [more[0].now] else [], worlds[n].clock);
    }
  }

  lemma NothingRefreshed(setup: Setup, worlds: seq<World>, events: seq<Event>)
    requires Run(setup, worlds, events)
    ensures Refreshes(setup, worlds, events, 0) == []
  {
  }

  lemma OneMoreRefresh(setup: Setup, worlds: seq<World>, events: seq<Event>, n: nat)
    requires Run(setup, worlds, events) && 0 < n <= |events|
    ensures Possible(setup, worlds[n - 1], events[n - 1])
    ensures Refreshes(setup, worlds, events, n) ==
            Refreshes(setup, worlds, events, n - 1) + RefreshBy(setup, worlds[n - 1], events[n - 1])
  {
    hide Next, Possible, RefreshBy;
  }

  lemma StepOf(setup: Setup, worlds: seq<World>, events: seq<Event>, i: nat)
    requires Run(setup, worlds, events) && i < |events|
    ensures |worlds| == |events| + 1 && Possible(setup, worlds[i], events[i]) && worlds[i + 1] == Next(setup, worlds[i], events[i])
  {
    hide Next, Possible;
  }

  lemma OneMoreInOrder(times: seq<real>, before: real, more: seq<real>, now: real)
    requires InOrderUntil(times, before) && before <= now && (more == [] || more == [before])
    ensures InOrderUntil(times + more, now)
  {
  }

  lemma RefreshTime(setup: Setup, w: World, e: Event)
    requires Possible(setup, w, e)
    ensures var more := RefreshBy(setup, w, e); |more| <= 1 && (|more| == 1 && more[0].RaisedAt? ==> more[0].now == w.clock)
  {
    hide Ends, EndOf, Begin, AnyOk;
  }

  lemma MoreFailures(front: seq<Refresh>, more: seq<Refresh>)
    requires |more| <= 1
    ensures Failures(front + more) == Failures(front) + if |more| == 1 && more[0].RaisedAt? then [more[0].now] else []
  {
    if |more| == 1 {
      assert front + more == front + [more[0]] && (front + more)[..|front|] == front;
    } else {
      assert front + more == front;
    }
  }

  lemma ClockMovesOn(setup: Setup, w: World, e: Event)
    requires Possible(setup, w, e)
    ensures w.clock <= Next(setup, w, e).clock
  {
    hide Begin, Deliver, Settle, Invalidated, AfterListener, Finish;
  }

  /** Over every run of the system with the SNMP source: the issue is open exactly while no cycle
      has read any endpoint, three updates or more have raised, and the last of them came ten
      minutes or more after the first. */
  lemma IssueMeansNothingRead(setup: Setup, worlds: seq<World>, events: seq<Event>, n: nat)
    requires RunFrom(setup, worlds, events) && n <= |events| && setup.config.source == Snmp
    ensures var failures := Failures(Refreshes(setup, worlds, events, n));
            WatchAfter(Refreshes(setup, worlds, events, n)).issue <==>
              && !ReadSoFar(setup, worlds, events, n)
              && |failures| >= 3 && failures[|failures| - 1] - failures[0] >= 600.0
  {
    hide Run, RefreshBy, ReadsSomething, WatchAfter, AgentAnswered, Failures, Ordered;
    FailuresInOrder(setup, worlds, events, n);
    AnsweredMeansRead(setup, worlds, events, n);
    IssueMeansNeverAnswered(Refreshes(setup, worlds, events, n));
  }

  // ── An appliance without sensors ────────────────────────────────────────────

  /** What the successful health reads of the first n events reported, in order. */
  function HealthReads(setup: Setup, worlds: seq<World>, events: seq<Event>, n: nat): seq<bool>
    requires |worlds| == |events| + 1 && n <= |events|
  {
    if n == 0 then []
    else
      var front, read := HealthReads(setup, worlds, events, n - 1), ReadBy(setup, worlds[n - 1], events[n - 1]);
      if EP_HEALTH in read then front + [setup.config.hasSensors(read[EP_HEALTH])] else front
  }

  /** The cycle will not ask for the sensors. */
  ghost predicate LeavesHealth(w: World) {
    w.cycle.Some? ==> EP_HEALTH !in Attempted(w.cycle.value)
  }

  /** The verdict follows the reads; it is virtual exactly when the endpoint is disabled, and then
      no cycle has it. */
  ghost predicate HealthFollows(w: World, seen: seq<bool>) {
    && w.coord.health == HealthAfter(seen)
    && (EP_HEALTH in w.coord.disabled <==> w.coord.health.verdict == Virtual)
    && (EP_HEALTH in w.coord.disabled ==> LeavesHealth(w))
  }

  lemma OneMoreRead(seen: seq<bool>, hasSensors: bool)
    ensures HealthAfter(seen + [hasSensors]) == AfterHealthRead(HealthAfter(seen), hasSensors)
  {
    assert (seen + [hasSensors])[..|seen|] == seen;
  }

  lemma EndHealthFollows(setup: Setup, w: World, seen: seq<bool>)
    requires setup.config.source == Snmp && Possible(setup, w, Resume) && Ends(setup, w, Resume) && HealthFollows(w, seen)
    ensures var read := ReadBy(setup, w, Resume);
            HealthFollows(Next(setup, w, Resume),
                          if EP_HEALTH in read then seen + [setup.config.hasSensors(read[EP_HEALTH])] else seen)
  {
    hide Next, Settle, Stamps, Noted, HealthAfter, LeavesHealth, Ends;
    EndIsFinish(setup, w);
    var read := ReadBy(setup, w, Resume);
    NoCycleLeaves(Next(setup, w, Resume));
    if EP_HEALTH in read {
      OneMoreRead(seen, setup.config.hasSensors(read[EP_HEALTH]));
    }
  }

  lemma NoCycleLeaves(w: World)
    requires w.cycle.None?
    ensures LeavesHealth(w)
  {
  }

  lemma BeginLeavesHealth(setup: Setup, w: World, restrict: Option<set<Key>>)
    requires Possible(setup, w, BeginCycle(restrict)) && LeavesHealth(w) && EP_HEALTH in w.coord.disabled
    ensures LeavesHealth(Next(setup, w, BeginCycle(restrict)))
  {
    hide DueKeys, Begin, Attempted, EachOnce;
    NotDue(setup, w.coord, w.clock);
    BeginPicksTheDue(setup.config, w.coord, w.clock, restrict);
  }

  lemma NotDue(setup: Setup, s: State<Reading>, now: real)
    requires EP_HEALTH in s.disabled
    ensures EP_HEALTH !in DueKeys(setup.config, s, now)
  {
  }

  lemma AnswerLeavesHealth(setup: Setup, w: World, key: Key, error: Option<Error>)
    requires Possible(setup, w, Answer(key, error)) && LeavesHealth(w)
    ensures LeavesHealth(Next(setup, w, Answer(key, error)))
  {
    hide Attempted, Deliver, EachOnce, Switches.Answered;
    DeliverLosesNothing(w.cycle.value, key, Switches.Answered(Later(w), key, error));
  }

  lemma RetryLeavesHealth(setup: Setup, w: World)
    requires setup.config.source == Snmp && Possible(setup, w, Resume) && !Ends(setup, w, Resume)
    requires LeavesHealth(w) && EachOnce(w.cycle.value)
    ensures LeavesHealth(Next(setup, w, Resume))
  {
    hide Attempted, Settle, EachOnce;
    SettleLosesNothing(setup.config.source, w.cycle.value);
  }

  lemma QuietLeavesHealth(setup: Setup, w: World, e: Event)
    requires setup.config.source == Snmp && Possible(setup, w, e) && !Ends(setup, w, e)
    requires LeavesHealth(w) && (w.cycle.Some? ==> EachOnce(w.cycle.value)) && EP_HEALTH in w.coord.disabled
    ensures LeavesHealth(Next(setup, w, e))
  {
    match e
    case BeginCycle(restrict) => BeginLeavesHealth(setup, w, restrict);
    case Answer(key, error) => AnswerLeavesHealth(setup, w, key, error);
    case Resume => RetryLeavesHealth(setup, w);
    case _ =>
      hide Attempted, EachOnce, Invalidated, AfterListener;
  }

  /** What the cycle leaves out it has not read. */
  lemma LeftOutIsNotRead(setup: Setup, w: World, e: Event)
    requires LeavesHealth(w)
    ensures EP_HEALTH !in ReadBy(setup, w, e)
  {
  }

  lemma StepHealthFollows(setup: Setup, w: World, e: Event, seen: seq<bool>)
    requires setup.config.source == Snmp && Possible(setup, w, e) && HealthFollows(w, seen)
    requires w.cycle.Some? ==> EachOnce(w.cycle.value)
    ensures var read := ReadBy(setup, w, e);
            HealthFollows(Next(setup, w, e),
                          if EP_HEALTH in read then seen + [setup.config.hasSensors(read[EP_HEALTH])] else seen)
  {
    hide Next, LeavesHealth, HealthAfter, EachOnce;
    if Ends(setup, w, e) {
      EndHealthFollows(setup, w, seen);
    } else {
      QuietStep(setup, w, e);
      if EP_HEALTH in w.coord.disabled {
        QuietLeavesHealth(setup, w, e);
      }
    }
  }

  lemma {:induction false} RunHealthFollows(setup: Setup, worlds: seq<World>, events: seq<Event>, n: nat)
    requires RunFrom(setup, worlds, events) && n <= |events| && setup.config.source == Snmp
    ensures HealthFollows(worlds[n], HealthReads(setup, worlds, events, n))
    decreases n
  {
    if n > 0 {
      hide HealthFollows, ReadBy, Next, EachOnce;
      RunHealthFollows(setup, worlds, events, n - 1);
      CyclesReadEachOnce(setup, worlds, events, n - 1);
      StepHealthFollows(setup, worlds[n - 1], events[n - 1], HealthReads(setup, worlds, events, n - 1));
    }
  }

  predicate StartsWithThreeEmpty(seen: seq<bool>) {
    |seen| >= 3 && !seen[0] && !seen[1] && !seen[2]
  }

  lemma DisabledExactly(setup: Setup, worlds: seq<World>, events: seq<Event>, n: nat)
    requires RunFrom(setup, worlds, events) && |worlds| == |events| + 1 && n <= |events| && setup.config.source == Snmp
    ensures EP_HEALTH in worlds[n].coord.disabled <==> StartsWithThreeEmpty(HealthReads(setup, worlds, events, n))
    ensures EP_HEALTH in worlds[n].coord.disabled ==> LeavesHealth(worlds[n])
  {
    hide Run, HealthReads, LeavesHealth, HealthAfter;
    RunHealthFollows(setup, worlds, events, n);
    VirtualMeansThreeEmptyReads(HealthReads(setup, worlds, events, n));
  }

  /** Over every run of the system with the SNMP source: the sensors are no longer polled exactly
      when the first three successful reads of them were all empty; then they are due at no time
      and in no cycle. */
  lemma HealthIsPolledUntilThreeEmptyReads(setup: Setup, worlds: seq<World>, events: seq<Event>, n: nat)
    requires RunFrom(setup, worlds, events) && |worlds| == |events| + 1 && n <= |events| && setup.config.source == Snmp
    ensures var seen, s := HealthReads(setup, worlds, events, n), worlds[n].coord;
            && (EP_HEALTH in s.disabled <==> StartsWithThreeEmpty(seen))
            && (EP_HEALTH in s.disabled ==>
                  && (forall now :: EP_HEALTH !in DueKeys(setup.config, s, now))
                  && LeavesHealth(worlds[n]))
  {
    hide RunFrom, HealthReads, LeavesHealth, StartsWithThreeEmpty;
    DisabledExactly(setup, worlds, events, n);
  }

  /** And they are not read again: the verdict is final. */
  lemma {:induction false} VerdictIsFinal(setup: Setup, worlds: seq<World>, events: seq<Event>, i: nat, n: nat)
    requires RunFrom(setup, worlds, events) && |worlds| == |events| + 1 && i <= n <= |events| && setup.config.source == Snmp
    requires EP_HEALTH in worlds[i].coord.disabled
    ensures EP_HEALTH in worlds[n].coord.disabled
    ensures HealthReads(setup, worlds, events, n) == HealthReads(setup, worlds, events, i)
    decreases n
  {
    hide RunFrom, HealthReads, LeavesHealth, StartsWithThreeEmpty;
    if i < n {
      VerdictIsFinal(setup, worlds, events, i, n - 1);
      DisabledExactly(setup, worlds, events, n - 1);
      NoFurtherRead(setup, worlds, events, n - 1);
      DisabledExactly(setup, worlds, events, n);
    }
  }

  lemma NoFurtherRead(setup: Setup, worlds: seq<World>, events: seq<Event>, n: nat)
    requires |worlds| == |events| + 1 && n < |events| && LeavesHealth(worlds[n])
    ensures HealthReads(setup, worlds, events, n + 1) == HealthReads(setup, worlds, events, n)
  {
    hide ReadBy, LeavesHealth;
    LeftOutIsNotRead(setup, worlds[n], events[n]);
  }

  // ── The traffic sample ─────────────────────────────────────────────────────

  /** The traffic readings of the first n events, in order. */
  function TrafficReads(setup: Setup, worlds: seq<World>, events: seq<Event>, n: nat): seq<Reading>
    requires |worlds| == |events| + 1 && n <= |events|
  {
    if n == 0 then []
    else
      var front, read := TrafficReads(setup, worlds, events, n - 1), ReadBy(setup, worlds[n - 1], events[n - 1]);
      if EP_TRAFFIC in read then front + [read[EP_TRAFFIC]] else front
  }

  function LastOf<T>(s: seq<T>): Option<T> {
    if s == [] then None else Some(s[|s| - 1])
  }

  ghost predicate SampleFollows(setup: Setup, w: World, seen: seq<Reading>) {
    && w.coord.sample == LastOf(seen)
    && (seen != [] ==>
          && w.coord.data.Some? && EP_TRAFFIC in w.coord.data.value
          && w.coord.data.value[EP_TRAFFIC] == setup.config.rates(LastOf(seen[..|seen| - 1]), seen[|seen| - 1]))
  }

  lemma EndSampleFollows(setup: Setup, w: World, seen: seq<Reading>)
    requires setup.config.source == Snmp && Possible(setup, w, Resume) && Ends(setup, w, Resume)
    requires SampleFollows(setup, w, seen)
    ensures var read := ReadBy(setup, w, Resume);
            SampleFollows(setup, Next(setup, w, Resume), if EP_TRAFFIC in read then seen + [read[EP_TRAFFIC]] else seen)
  {
    hide Next, Settle, Stamps, Noted, Judged, Ends;
    EndIsFinish(setup, w);
    var read := ReadBy(setup, w, Resume);
    if EP_TRAFFIC in read {
      assert (seen + [read[EP_TRAFFIC]])[..|seen|] == seen;
    }
  }

  lemma StepSampleFollows(setup: Setup, w: World, e: Event, seen: seq<Reading>)
    requires setup.config.source == Snmp && Possible(setup, w, e) && SampleFollows(setup, w, seen)
    ensures var read := ReadBy(setup, w, e);
            SampleFollows(setup, Next(setup, w, e), if EP_TRAFFIC in read then seen + [read[EP_TRAFFIC]] else seen)
  {
    if Ends(setup, w, e) {
      EndSampleFollows(setup, w, seen);
    } else {
      hide Next;
      QuietStep(setup, w, e);
      QuietKeepsTraffic(setup, w, e);
    }
  }

  lemma QuietKeepsTraffic(setup: Setup, w: World, e: Event)
    requires Possible(setup, w, e) && !Ends(setup, w, e) && setup.config.source == Snmp
    ensures SameReadings(w, Next(setup, w, e))
  {
    if e != Resume {
      OnlyResumeTouchesReadings(setup, w, e);
    }
  }

  /** Over every run: the sample kept is the last traffic reading, and what is published are the
      rates of the last reading against the one before it. */
  lemma {:induction false} SampleIsTheLastRead(setup: Setup, worlds: seq<World>, events: seq<Event>, n: nat)
    requires RunFrom(setup, worlds, events) && n <= |events| && setup.config.source == Snmp
    ensures SampleFollows(setup, worlds[n], TrafficReads(setup, worlds, events, n))
    decreases n
  {
    if n > 0 {
      hide SampleFollows, ReadBy, Next;
      SampleIsTheLastRead(setup, worlds, events, n - 1);
      StepSampleFollows(setup, worlds[n - 1], events[n - 1], TrafficReads(setup, worlds, events, n - 1));
    }
  }

  function WalksOf(seen: seq<Reading>, sample: Reading -> Traffic.Sample): seq<Option<Traffic.Sample>> {
    seq(|seen|, i requires 0 <= i < |seen| => Some(sample(seen[i])))
  }

  /** So the rates of a run are rates over its walks, and conserve the traffic that these count:
      whatever the samples are, the rates published by the readings after the i-th, times the time
      between readings, add up to the growth of the counter since the i-th. */
  lemma RunConservesTraffic(setup: Setup, worlds: seq<World>, events: seq<Event>, n: nat, i: nat,
                            sample: Reading -> Traffic.Sample, name: string, direction: Traffic.Direction)
    requires RunFrom(setup, worlds, events) && n <= |events| && setup.config.source == Snmp
    requires i < |TrafficReads(setup, worlds, events, n)|
    requires var walks := WalksOf(TrafficReads(setup, worlds, events, n), sample);
             && Traffic.CounterIn(walks[i], name, direction).Some?
             && forall k :: i < k < |walks| ==> Traffic.PublishedRate(walks, k, name, direction).Some?
    ensures worlds[n].coord.sample.Some?
    ensures var walks := WalksOf(TrafficReads(setup, worlds, events, n), sample);
            Traffic.Conserved(walks[i].value, Some(sample(worlds[n].coord.sample.value)),
                              Traffic.Transferred(walks, i, |walks| - 1, name, direction), name, direction)
  {
    hide TrafficReads, Traffic.PublishedRate, Traffic.CounterIn, Traffic.Conserved, Traffic.Transferred;
    SampleIsTheLastRead(setup, worlds, events, n);
    var walks := WalksOf(TrafficReads(setup, worlds, events, n), sample);
    Traffic.RatesConserveTraffic(walks, i, |walks| - 1, name, direction);
    assert walks[..|walks|] == walks;
  }
}
