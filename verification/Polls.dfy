/** When the coordinator polls an endpoint, over whole runs of the system. */
module Polls {
  import opened Wrappers
  import opened Coordinators
  import Scheduling
  import opened Switches
  import opened SnmpSessions

  /** The event ends a cycle that has read the endpoint, which was not invalidated under way. */
  predicate Counts(setup: Setup, w: World, e: Event, key: Key) {
    key in ReadBy(setup, w, e) && Undisturbed(w.cycle.value.generation, w.coord.generation, key)
  }

  /** This much time since its last read makes an endpoint of the tier due: its interval less half
      a base interval. */
  predicate LongEnough(intervals: Scheduling.Intervals, tier: Scheduling.Tier, since: real) {
    match tier
    case Realtime => since >= intervals.realtime as real / 2.0
    case Fast => since >= intervals.fast as real - intervals.realtime as real / 2.0
    case Operative => since >= intervals.operative as real - intervals.realtime as real / 2.0
    case Static => since >= intervals.static_ as real - intervals.realtime as real / 2.0
  }

  /** The endpoint is enabled, and this much time since its last read makes it due. */
  predicate DueAfter(setup: Setup, s: State<Reading>, key: Key, since: real) {
    && key in setup.config.configured && key !in s.disabled
    && exists ep :: ep in setup.config.endpoints && ep.key == key && LongEnough(setup.config.intervals, ep.tier, since)
  }

  lemma EndTime(setup: Setup, w: World, key: Key)
    requires Possible(setup, w, Resume) && Ends(setup, w, Resume)
    ensures Lookup(Next(setup, w, Resume).coord.last, key) ==
            if Counts(setup, w, Resume, key) then Some(w.clock) else Lookup(w.coord.last, key)
  {
    hide Next, Finish, Settle;
    EndIsFinish(setup, w);
    var settled := Settle(setup.config.source, w.cycle.value);
    FinishForOne(setup.config, w.coord, w.cycle.value.generation, settled.updates, settled.failures, w.clock, key);
  }

  lemma QuietTime(setup: Setup, w: World, e: Event, key: Key)
    requires Possible(setup, w, e) && !Ends(setup, w, e) && !Invalidates(setup, e, key)
    ensures Lookup(Next(setup, w, e).coord.last, key) == Lookup(w.coord.last, key)
  {
    hide Begin, Deliver, DueKeys, AfterListener;
    match e
    case WriteConfirmed(id, on) => InvalidatedEffect(w.coord, [setup.places[id].endpoint], key);
    case WriteFailed(id) => InvalidatedEffect(w.coord, [setup.places[id].endpoint], key);
    case Invalidate(keys) => InvalidatedEffect(w.coord, keys, key);
    case _ =>
  }

  lemma {:induction false} TimeIsKept(setup: Setup, worlds: seq<World>, events: seq<Event>, r: nat, j: nat, key: Key)
    requires Run(setup, worlds, events) && r < j <= |events| && Counts(setup, worlds[r], events[r], key)
    requires forall k :: r < k < j ==> !Counts(setup, worlds[k], events[k], key) && !Invalidates(setup, events[k], key)
    ensures Lookup(worlds[j].coord.last, key) == Some(worlds[r].clock)
    decreases j
  {
    hide Next, ReadBy, Counts, Invalidates;
    var k := j - 1;
    if r < k {
      TimeIsKept(setup, worlds, events, r, k, key);
    }
    if Ends(setup, worlds[k], events[k]) {
      EndTime(setup, worlds[k], key);
    } else {
      NotCounted(setup, worlds[k], events[k], key);
      QuietTime(setup, worlds[k], events[k], key);
    }
  }

  lemma NotCounted(setup: Setup, w: World, e: Event, key: Key)
    requires !Ends(setup, w, e)
    ensures !Counts(setup, w, e, key)
  {
  }

  lemma DueTells(setup: Setup, s: State<Reading>, now: real, key: Key, last: real)
    requires Lookup(s.last, key) == Some(last)
    ensures key in DueKeys(setup.config, s, now) <==> DueAfter(setup, s, key, now - last)
  {
    if key in DueKeys(setup.config, s, now) {
      var ep :| ep in setup.config.endpoints && EndpointDue(setup.config, s, ep, now) && ep.key == key;
      assert DueAfter(setup, s, key, now - last);
    }
    if DueAfter(setup, s, key, now - last) {
      var ep :| ep in setup.config.endpoints && ep.key == key
        && LongEnough(setup.config.intervals, ep.tier, now - last);
      assert EndpointDue(setup.config, s, ep, now);
    }
  }

  /** Over every run of the system: after a cycle that read the endpoint, and until it is read or
      invalidated again, a cycle asks for it exactly when it begins an interval minus half a base
      interval, or more, after the end of that cycle. */
  lemma PolledExactlyWhenDue(setup: Setup, worlds: seq<World>, events: seq<Event>, r: nat, j: nat, key: Key)
    requires Run(setup, worlds, events) && r < j < |events| && Counts(setup, worlds[r], events[r], key)
    requires forall k :: r < k < j ==> !Counts(setup, worlds[k], events[k], key) && !Invalidates(setup, events[k], key)
    requires events[j].BeginCycle?
    ensures var begun := worlds[j + 1].cycle;
            begun.Some? && key in Attempted(begun.value) <==>
              DueAfter(setup, worlds[j].coord, key, worlds[j].clock - worlds[r].clock)
  {
    hide Counts, Invalidates, DueAfter, DueKeys, Begin, Attempted, EachOnce;
    TimeIsKept(setup, worlds, events, r, j, key);
    var w := worlds[j];
    assert Possible(setup, w, events[j]) && worlds[j + 1] == Next(setup, w, events[j]);
    DueTells(setup, w.coord, w.clock, key, worlds[r].clock);
    BeginPicksTheDue(setup.config, w.coord, w.clock, events[j].restrict);
  }
}
