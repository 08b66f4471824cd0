/** Optimistic switches on top of the polling coordinator.

    A switch that wrote to the firewall shows what it wrote until its endpoint was really read
    again. The second half of the module runs any number of switches against one coordinator,
    one firewall that anybody may change, and a clock that may stand still. */
module Switches {
  import opened Wrappers
  import opened Scheduling
  import opened SnmpDetection
  import opened Coordinators

  /** The state of the objects of one endpoint, as the firewall reports them. */
  type Table = map<string, bool>

  // ── One switch ─────────────────────────────────────────────────────────────

  datatype Switch = Switch(optimistic: Option<bool>, writtenAt: Option<real>)

  const UNTOUCHED := Switch(None, None)

  function AfterWrite(on: bool, now: real): Switch {
    Switch(Some(on), Some(now))
  }

  function AfterListener(sw: Switch, fetched: Option<real>): Switch {
    if sw.writtenAt.Some? && fetched.Some? && fetched.value > sw.writtenAt.value
    then UNTOUCHED else sw
  }

  function Shown(sw: Switch, actual: Option<bool>): Option<bool> {
    if sw.optimistic.Some? then sw.optimistic else actual
  }

  function Actual(data: Option<map<Key, Table>>, endpoint: Key, object_: string): Option<bool> {
    if data.Some? && endpoint in data.value then Lookup(data.value[endpoint], object_) else None
  }

  class WriteSwitch {
    const coordinator: SophosCoordinator<Table>
    const endpoint: Key
    const object_: string
    var optimistic: Option<bool>
    var writtenAt: Option<real>

    constructor (coordinator: SophosCoordinator<Table>, endpoint: Key, object_: string)
      ensures this.coordinator == coordinator && this.endpoint == endpoint && this.object_ == object_
      ensures Contents() == UNTOUCHED
    {
      this.coordinator, this.endpoint, this.object_ := coordinator, endpoint, object_;
      optimistic, writtenAt := None, None;
    }

    function Contents(): Switch
      reads this
    {
      Switch(optimistic, writtenAt)
    }

    method HandleCoordinatorUpdate()
      modifies this
      ensures Contents() == AfterListener(old(Contents()), Lookup(coordinator.fetchedAt, endpoint))
    {
      var fetched := Lookup(coordinator.fetchedAt, endpoint);
      if writtenAt.Some? && fetched.Some? && fetched.value > writtenAt.value {
        optimistic := None;
        writtenAt := None;
      }
    }

    /** The part of a write after its answer arrived: on success the new state is shown at once,
        and either way the endpoint is read again. */
    method WriteAnswered(on: bool, success: bool, now: real)
      modifies this, coordinator`generation, coordinator.scheduler
      ensures Contents() == if success then AfterWrite(on, now) else old(Contents())
      ensures coordinator.Contents() == Invalidated(old(coordinator.Contents()), [endpoint])
    {
      if success {
        optimistic := Some(on);
        writtenAt := Some(now);
      }
      coordinator.Invalidate([endpoint]);
    }
  }

  // ── The world: firewall, clock, coordinator and switches ────────────────────

  /** What every endpoint of the firewall would answer now. */
  type Firewall = map<Key, Table>

  function TableOf(fw: Firewall, key: Key): Table {
    if key in fw then fw[key] else map[]
  }

  /** A reading, with the step its cycle began and the step the firewall was read. */
  datatype Reading = Reading(table: Table, cycle: nat, at: nat)

  datatype Place = Place(endpoint: Key, object_: string)

  /** The last confirmed write of a switch and the step it was confirmed in. */
  datatype Confirmation = Confirmation(on: bool, step: nat)

  datatype LogLine = Failed | Recovered

  /** `history[n]` is the firewall after step n. `stamped` holds the step in which the cycle of
      the last counted reading of an endpoint began, `invalidated` the last invalidation. */
  datatype World = World(
    clock: real,
    history: seq<Firewall>,
    coord: State<Reading>,
    cycle: Option<Cycle<Reading>>,
    began: nat,
    stamped: map<Key, nat>,
    invalidated: map<Key, nat>,
    switches: map<string, Switch>,
    confirmed: map<string, Confirmation>,
    log: map<Key, seq<LogLine>>)

  datatype Event =
    | Tick(now: real)
    | Change(firewall: Firewall)
    | WriteConfirmed(id: string, on: bool)
    | WriteFailed(id: string)
    | Invalidate(keys: seq<Key>)
    | BeginCycle(restrict: Option<set<Key>>)
    | Answer(key: Key, error: Option<Error>)
    | Resume
    | Cancel
    | Notify(id: string)

  datatype Setup = Setup(config: Config<Reading>, places: map<string, Place>)

  /** The field is stored as fetched: not the one field the SNMP source computes. */
  predicate StoredAsRead(setup: Setup, key: Key) {
    !(setup.config.source == Snmp && key == EP_TRAFFIC)
  }

  ghost predicate WellPlaced(setup: Setup) {
    forall id :: id in setup.places ==> StoredAsRead(setup, setup.places[id].endpoint)
  }

  function Initial(setup: Setup, firewall: Firewall, clock: real): World {
    World(clock, [firewall], State(map[], map[], map[], map[], {}, {}, None, None, NEW_HEALTH), None, 0,
          map[], map[], map id | id in setup.places :: UNTOUCHED, map[], map[])
  }

  predicate WellFormed(w: World) {
    |w.history| > 0
  }

  function Now(w: World): nat
    requires WellFormed(w)
  {
    |w.history| - 1
  }

  function Current(w: World): Firewall
    requires WellFormed(w)
  {
    w.history[|w.history| - 1]
  }

  predicate Possible(setup: Setup, w: World, e: Event) {
    && WellFormed(w)
    && match e
       case Tick(now) => w.clock <= now
       case WriteConfirmed(id, on) => id in w.switches && id in setup.places
       case WriteFailed(id) => id in w.switches && id in setup.places
       case BeginCycle(restrict) => w.cycle.None?
       case Answer(key, error) => w.cycle.Some? && key in w.cycle.value.pending
       case Resume => w.cycle.Some? && w.cycle.value.pending == {}
       case Notify(id) => id in w.switches && id in setup.places
       case _ => true
  }

  /** One step later with the same firewall. */
  function Later(w: World): World
    requires WellFormed(w)
  {
    w.(history := w.history + [Current(w)])
  }

  function Invalidating(w: World, keys: seq<Key>): World
    requires WellFormed(w)
  {
    w.(coord := Invalidated(w.coord, keys),
       invalidated := w.invalidated + (map key | key in keys :: Now(w)))
  }

  function Logged(log: map<Key, seq<LogLine>>, keys: set<Key>, line: LogLine): map<Key, seq<LogLine>> {
    log + (map key | key in keys :: (if key in log then log[key] else []) + [line])
  }

  function Merge(setup: Setup, w: World, c: Cycle<Reading>,
                 updates: map<Key, Reading>, failures: map<Key, Error>): World
    requires WellFormed(w)
  {
    var f := Finish(setup.config, w.coord, c.generation, updates, failures, w.clock);
    w.(coord := f.state,
       cycle := None,
       stamped := w.stamped + (map key | key in updates && Undisturbed(c.generation, w.coord.generation, key) :: w.began),
       log := Logged(Logged(w.log, f.recovered, Recovered), f.failed, Failed))
  }

  function Confirm(setup: Setup, w: World, id: string, on: bool): World
    requires WellFormed(w) && id in setup.places
  {
    Invalidating(w, [setup.places[id].endpoint])
      .(switches := w.switches[id := AfterWrite(on, w.clock)],
        confirmed := w.confirmed[id := Confirmation(on, Now(w))])
  }

  function Answered(w: World, key: Key, error: Option<Error>): Result<Reading, Error>
    requires WellFormed(w)
  {
    if error.Some? then Err(error.value) else Ok(Reading(TableOf(Current(w), key), w.began, Now(w)))
  }

  function Resumed(setup: Setup, w: World): World
    requires WellFormed(w) && w.cycle.Some? && w.cycle.value.pending == {}
  {
    match Settle(setup.config.source, w.cycle.value)
    case Wait(c) => w.(cycle := Some(c))
    case Raised(_) => w.(cycle := None)
    case Complete(updates, failures) => Merge(setup, w, w.cycle.value, updates, failures)
  }

  function Notified(setup: Setup, w: World, id: string): World
    requires id in setup.places && id in w.switches
  {
    w.(switches := w.switches[id :=
         AfterListener(w.switches[id], Lookup(w.coord.fetchedAt, setup.places[id].endpoint))])
  }

  function Next(setup: Setup, w0: World, e: Event): World
    requires Possible(setup, w0, e)
  {
    var w := Later(w0);
    match e
    case Tick(now) => w.(clock := now)
    case Change(firewall) => w.(history := w0.history + [firewall])
    case WriteConfirmed(id, on) => Confirm(setup, w, id, on)
    case WriteFailed(id) => Invalidating(w, [setup.places[id].endpoint])
    case Invalidate(keys) => Invalidating(w, keys)
    case BeginCycle(restrict) =>
      var c := Begin(setup.config, w.coord, w.clock, restrict);
      if c.None? then w.(coord := w.coord.(data := Some(Previous(w.coord))))
      else w.(cycle := c, began := Now(w))
    case Answer(key, error) =>
      w.(cycle := Some(Deliver(w.cycle.value, key, Answered(w, key, error))))
    case Resume => Resumed(setup, w)
    case Cancel => w.(cycle := None)
    case Notify(id) => Notified(setup, w, id)
  }

  /** The worlds of a run, one after every event. */
  predicate Run(setup: Setup, worlds: seq<World>, events: seq<Event>) {
    && |worlds| == |events| + 1
    && (forall i :: 0 <= i < |events| ==>
          Possible(setup, worlds[i], events[i]) && worlds[i + 1] == Next(setup, worlds[i], events[i]))
  }

  function Displayed(setup: Setup, w: World, id: string): Option<bool>
    requires id in w.switches && id in setup.places
  {
    var place := setup.places[id];
    var data := if w.coord.data.None? || place.endpoint !in w.coord.data.value then None
                else Some(map[place.endpoint := w.coord.data.value[place.endpoint].table]);
    Shown(w.switches[id], Actual(data, place.endpoint, place.object_))
  }

  // ── The invariant ──────────────────────────────────────────────────────────

  function Count(generation: map<Key, nat>, key: Key): nat {
    if key in generation then generation[key] else 0
  }

  /** The reading is what the firewall held at that step, in a cycle begun by then. */
  ghost predicate Genuine(w: World, key: Key, r: Reading) {
    r.cycle <= w.began && r.cycle < r.at < |w.history| && r.table == TableOf(w.history[r.at], key)
  }

  /** A running cycle: what it read is genuine, and it can tell an invalidated endpoint. */
  ghost predicate CycleOk(w: World, c: Cycle<Reading>, key: Key) {
    && (key in c.updates ==> Genuine(w, key, c.updates[key]) && c.updates[key].cycle == w.began)
    && Count(c.generation, key) <= Count(w.coord.generation, key)
    && (key in w.invalidated && w.invalidated[key] >= w.began ==>
          Count(c.generation, key) < Count(w.coord.generation, key))
  }

  /** The stored reading is genuine and older than the running cycle. */
  ghost predicate DataOk(w: World, data: map<Key, Reading>, key: Key) {
    key in data ==> Genuine(w, key, data[key]) && (w.cycle.Some? ==> data[key].at < w.began)
  }

  /** The times kept for an endpoint agree, belong to a cycle begun after the last
      invalidation, and never outrun the stored reading. */
  ghost predicate StampOk(setup: Setup, w: World, key: Key) {
    && (key in w.invalidated ==> w.invalidated[key] < |w.history|)
    && (key in w.coord.fetchedAt <==> key in w.stamped)
    && (key in w.coord.last ==>
          && key in w.coord.fetchedAt && w.coord.fetchedAt[key] == w.coord.last[key]
          && (key in w.invalidated ==> w.invalidated[key] < w.stamped[key]))
    && (key in w.coord.fetchedAt ==>
          && w.coord.fetchedAt[key] <= w.clock
          && w.stamped[key] <= w.began
          && w.coord.data.Some? && key in w.coord.data.value
          && (StoredAsRead(setup, key) ==> w.coord.data.value[key].cycle >= w.stamped[key]))
  }

  ghost predicate KeyOk(setup: Setup, w: World, key: Key) {
    && (w.cycle.Some? ==> CycleOk(w, w.cycle.value, key))
    && (w.coord.data.Some? && StoredAsRead(setup, key) ==> DataOk(w, w.coord.data.value, key))
    && StampOk(setup, w, key)
  }

  ghost predicate SwitchOk(setup: Setup, w: World, id: string)
    requires id in w.switches && id in setup.places
  {
    var sw := w.switches[id];
    var key := setup.places[id].endpoint;
    if id !in w.confirmed then sw == UNTOUCHED
    else
      var done := w.confirmed[id];
      && key in w.invalidated && done.step <= w.invalidated[key]
      && (sw.writtenAt.Some? ==>
            && sw.optimistic == Some(done.on) && sw.writtenAt.value <= w.clock
            && (key in w.coord.fetchedAt && w.coord.fetchedAt[key] > sw.writtenAt.value ==>
                  key in w.stamped && w.stamped[key] > done.step))
      && (sw.writtenAt.None? ==>
            && sw.optimistic.None?
            && w.coord.data.Some? && key in w.coord.data.value
            && w.coord.data.value[key].cycle > done.step)
  }

  ghost predicate Inv(setup: Setup, w: World) {
    && WellFormed(w) && w.began <= Now(w)
    && w.switches.Keys == setup.places.Keys
    && (forall key: Key :: KeyOk(setup, w, key))
    && (forall id :: id in setup.places ==> SwitchOk(setup, w, id))
  }

  // ── Every step keeps it ────────────────────────────────────────────────────

  lemma {:induction false} InvalidatedEffect<V>(s: State<V>, keys: seq<Key>, key: Key)
    ensures var t := Invalidated(s, keys);
            && t == s.(last := t.last, generation := t.generation)
            && Lookup(t.last, key) == (if key in keys then None else Lookup(s.last, key))
            && Count(t.generation, key) >= Count(s.generation, key) + if key in keys then 1 else 0
  {
    if keys != [] {
      var rest := keys[..|keys| - 1];
      InvalidatedEffect(s, rest, key);
      assert keys == rest + [keys[|keys| - 1]];
    }
  }

  /** A step after which nothing the invariant compares has changed, but time has passed. */
  ghost predicate OnlyLater(w: World, m: World) {
    && WellFormed(w) && WellFormed(m)
    && w.clock <= m.clock && w.history <= m.history && m.began == w.began
    && (m.cycle.None? || m.cycle == w.cycle)
    && (m.coord.last, m.coord.fetchedAt, m.coord.generation, m.coord.data)
       == (w.coord.last, w.coord.fetchedAt, w.coord.generation, w.coord.data)
    && (m.stamped, m.invalidated, m.switches, m.confirmed)
       == (w.stamped, w.invalidated, w.switches, w.confirmed)
  }

  lemma KeyOnlyLater(setup: Setup, w: World, m: World, key: Key)
    requires OnlyLater(w, m) && KeyOk(setup, w, key)
    ensures KeyOk(setup, m, key)
  {
  }

  lemma OnlyLaterKeeps(setup: Setup, w: World, m: World)
    requires Inv(setup, w) && OnlyLater(w, m)
    ensures Inv(setup, m)
  {
    forall key: Key ensures KeyOk(setup, m, key) {
      KeyOnlyLater(setup, w, m, key);
    }
    forall id | id in setup.places ensures SwitchOk(setup, m, id) {
      assert SwitchOk(setup, w, id);
    }
  }

  lemma KeyInvalidating(setup: Setup, w: World, keys: seq<Key>, key: Key)
    requires WellFormed(w) && KeyOk(setup, w, key) && w.began <= Now(w)
    ensures KeyOk(setup, Invalidating(w, keys), key)
  {
    InvalidatedEffect(w.coord, keys, key);
    var m := Invalidating(w, keys);
    assert Lookup(m.coord.last, key) == if key in keys then None else Lookup(w.coord.last, key);
    assert Lookup(m.invalidated, key) == if key in keys then Some(Now(w)) else Lookup(w.invalidated, key);
    if w.cycle.Some? && key in w.cycle.value.updates {
      assert Genuine(m, key, w.cycle.value.updates[key]);
    }
    if w.coord.data.Some? && StoredAsRead(setup, key) && key in w.coord.data.value {
      assert DataOk(w, w.coord.data.value, key);
      assert Genuine(m, key, w.coord.data.value[key]);
    }
  }

  lemma InvalidatingKeeps(setup: Setup, w: World, keys: seq<Key>)
    requires Inv(setup, w)
    ensures Inv(setup, Invalidating(w, keys))
  {
    var m := Invalidating(w, keys);
    forall key: Key ensures KeyOk(setup, m, key) {
      KeyInvalidating(setup, w, keys, key);
    }
    forall id | id in setup.places ensures SwitchOk(setup, m, id) {
      assert SwitchOk(setup, w, id);
      assert KeyOk(setup, w, setup.places[id].endpoint);
      InvalidatedEffect(w.coord, keys, setup.places[id].endpoint);
    }
  }

  lemma ConfirmedKeeps(setup: Setup, w: World, id: string, on: bool)
    requires Inv(setup, w) && id in setup.places
    ensures Inv(setup, Confirm(setup, w, id, on))
  {
    var keys := [setup.places[id].endpoint];
    var m := Confirm(setup, w, id, on);
    InvalidatingKeeps(setup, w, keys);
    var n := Invalidating(w, keys);
    forall key: Key ensures KeyOk(setup, m, key) {
      assert KeyOk(setup, n, key);
      KeyOnlyLater(setup, n, m.(switches := n.switches, confirmed := n.confirmed), key);
    }
    forall other | other in setup.places ensures SwitchOk(setup, m, other) {
      assert SwitchOk(setup, n, other);
      assert KeyOk(setup, n, setup.places[other].endpoint);
    }
  }

  lemma KeyBegin(setup: Setup, w: World, m: World, c: Cycle<Reading>, key: Key)
    requires WellFormed(w) && KeyOk(setup, w, key) && w.began <= Now(w)
    requires c.generation == w.coord.generation && c.updates == map[]
    requires m == Later(w).(cycle := Some(c), began := |w.history|)
    ensures KeyOk(setup, m, key)
  {
  }

  lemma BeginKeeps(setup: Setup, w: World, c: Cycle<Reading>)
    requires Inv(setup, w)
    requires c.generation == w.coord.generation && c.updates == map[]
    ensures Inv(setup, Later(w).(cycle := Some(c), began := |w.history|))
  {
    var m := Later(w).(cycle := Some(c), began := |w.history|);
    forall key: Key ensures KeyOk(setup, m, key) {
      KeyBegin(setup, w, m, c, key);
    }
    forall id | id in setup.places ensures SwitchOk(setup, m, id) {
      assert SwitchOk(setup, w, id);
    }
  }

  lemma IdleKeeps(setup: Setup, w: World)
    requires Inv(setup, w)
    ensures Inv(setup, w.(coord := w.coord.(data := Some(Previous(w.coord)))))
  {
    var m := w.(coord := w.coord.(data := Some(Previous(w.coord))));
    forall key: Key ensures KeyOk(setup, m, key) {
      assert KeyOk(setup, w, key);
      if w.cycle.Some? && key in w.cycle.value.updates {
        assert Genuine(m, key, w.cycle.value.updates[key]);
      }
      if w.coord.data.Some? && StoredAsRead(setup, key) && key in w.coord.data.value {
        assert DataOk(w, w.coord.data.value, key);
        assert Genuine(m, key, w.coord.data.value[key]);
      }
    }
    forall id | id in setup.places ensures SwitchOk(setup, m, id) {
      assert SwitchOk(setup, w, id);
    }
  }

  lemma NewCycleKeeps(setup: Setup, w: World, c: Cycle<Reading>)
    requires Inv(setup, w)
    requires forall key :: CycleOk(w, c, key)
    requires w.coord.data.Some? ==> w.cycle.Some?
    ensures Inv(setup, w.(cycle := Some(c)))
  {
    var m := w.(cycle := Some(c));
    forall key: Key ensures KeyOk(setup, m, key) {
      assert KeyOk(setup, w, key) && CycleOk(w, c, key);
      if key in c.updates {
        assert Genuine(m, key, c.updates[key]);
      }
      if w.coord.data.Some? && StoredAsRead(setup, key) && key in w.coord.data.value {
        assert DataOk(w, w.coord.data.value, key);
        assert Genuine(m, key, w.coord.data.value[key]);
      }
    }
    forall id | id in setup.places ensures SwitchOk(setup, m, id) {
      assert SwitchOk(setup, w, id);
    }
  }

  lemma AnswerKeeps(setup: Setup, w: World, key: Key, answer: Result<Reading, Error>)
    requires Inv(setup, w) && w.cycle.Some? && key in w.cycle.value.pending
    requires w.began < Now(w)
    requires answer.Ok? ==> answer.value == Reading(TableOf(Current(w), key), w.began, Now(w))
    ensures Inv(setup, w.(cycle := Some(Deliver(w.cycle.value, key, answer))))
  {
    var c := Deliver(w.cycle.value, key, answer);
    forall other: Key ensures CycleOk(w, c, other) {
      assert KeyOk(setup, w, other);
    }
    NewCycleKeeps(setup, w, c);
  }

  // The end of a cycle, key by key.

  /** What the end of a cycle does to one endpoint. */
  ghost predicate MergedAt(setup: Setup, w: World, c: Cycle<Reading>, updates: map<Key, Reading>, m: World, key: Key) {
    var stamped := key in updates && Undisturbed(c.generation, w.coord.generation, key);
    && Lookup(m.coord.last, key) == (if stamped then Some(w.clock) else Lookup(w.coord.last, key))
    && Lookup(m.coord.fetchedAt, key) == (if stamped then Some(w.clock) else Lookup(w.coord.fetchedAt, key))
    && Lookup(m.stamped, key) == (if stamped then Some(w.began) else Lookup(w.stamped, key))
    && (w.coord.data.Some? || key in updates ==> m.coord.data.Some?)
    && (m.coord.data.Some? ==>
          && (key in updates ==> key in m.coord.data.value)
          && (key in updates && StoredAsRead(setup, key) ==> m.coord.data.value[key] == updates[key])
          && (key !in updates ==> Lookup(m.coord.data.value, key) == Lookup(Previous(w.coord), key)))
  }

  ghost predicate SameElsewhere(w: World, m: World) {
    (m.clock, m.history, m.began, m.invalidated, m.switches, m.confirmed, m.coord.generation)
    == (w.clock, w.history, w.began, w.invalidated, w.switches, w.confirmed, w.coord.generation)
  }

  lemma FinishAt(setup: Setup, w: World, c: Cycle<Reading>, updates: map<Key, Reading>, failures: map<Key, Error>, key: Key)
    requires WellFormed(w)
    ensures MergedAt(setup, w, c, updates, Merge(setup, w, c, updates, failures), key)
  {
    FinishForOne(setup.config, w.coord, c.generation, updates, failures, w.clock, key);
    assert key in updates ==> updates != map[];
    var f := Finish(setup.config, w.coord, c.generation, updates, failures, w.clock);
    assert Merge(setup, w, c, updates, failures).coord == f.state;
  }

  lemma KeyMerged(setup: Setup, w: World, c: Cycle<Reading>, updates: map<Key, Reading>, m: World, key: Key)
    requires KeyOk(setup, w, key) && CycleOk(w, c, key) && w.began < |w.history|
    requires c.updates == updates && w.cycle == Some(c) && m.cycle.None?
    requires SameElsewhere(w, m) && MergedAt(setup, w, c, updates, m, key)
    ensures KeyOk(setup, m, key)
  {
  }

  lemma SwitchMerged(setup: Setup, w: World, c: Cycle<Reading>, updates: map<Key, Reading>, m: World, id: string)
    requires id in w.switches && id in setup.places && SwitchOk(setup, w, id)
    requires SameElsewhere(w, m)
    requires var key := setup.places[id].endpoint;
             && StoredAsRead(setup, key) && KeyOk(setup, w, key) && CycleOk(w, c, key)
             && MergedAt(setup, w, c, updates, m, key)
    requires c.updates == updates && w.cycle == Some(c)
    ensures SwitchOk(setup, m, id)
  {
  }

  lemma MergeKeeps(setup: Setup, w: World, updates: map<Key, Reading>, failures: map<Key, Error>)
    requires WellPlaced(setup) && Inv(setup, w) && w.cycle.Some? && updates == w.cycle.value.updates
    ensures Inv(setup, Merge(setup, w, w.cycle.value, updates, failures))
  {
    var c := w.cycle.value;
    var m := Merge(setup, w, c, updates, failures);
    forall key: Key ensures KeyOk(setup, m, key) {
      assert KeyOk(setup, w, key);
      FinishAt(setup, w, c, updates, failures, key);
      KeyMerged(setup, w, c, updates, m, key);
    }
    forall id | id in setup.places ensures SwitchOk(setup, m, id) {
      assert KeyOk(setup, w, setup.places[id].endpoint);
      FinishAt(setup, w, c, updates, failures, setup.places[id].endpoint);
      SwitchMerged(setup, w, c, updates, m, id);
    }
  }

  lemma RetryIsOk(setup: Setup, w: World, c: Cycle<Reading>, key: Key)
    requires Inv(setup, w) && w.cycle.Some? && w.cycle.value.pending == {}
    requires Settle(setup.config.source, w.cycle.value) == Wait(c)
    ensures CycleOk(w, c, key)
  {
    assert KeyOk(setup, w, key);
  }

  lemma ResumeKeeps(setup: Setup, w: World)
    requires WellPlaced(setup) && Inv(setup, w) && w.cycle.Some? && w.cycle.value.pending == {}
    ensures Inv(setup, Resumed(setup, w))
  {
    hide KeyOk, SwitchOk, Merge, CycleOk;
    match Settle(setup.config.source, w.cycle.value)
    case Wait(c) =>
      forall key: Key ensures CycleOk(w, c, key) {
        RetryIsOk(setup, w, c, key);
      }
      NewCycleKeeps(setup, w, c);
    case Raised(_) => OnlyLaterKeeps(setup, w, w.(cycle := None));
    case Complete(updates, failures) => MergeKeeps(setup, w, updates, failures);
  }

  lemma NotifyKeeps(setup: Setup, w: World, id: string)
    requires WellPlaced(setup) && Inv(setup, w) && id in setup.places
    ensures Inv(setup, Notified(setup, w, id))
  {
    var m := Notified(setup, w, id);
    forall key: Key ensures KeyOk(setup, m, key) {
      KeyOnlyLater(setup, w, m.(switches := w.switches), key);
    }
    forall other | other in setup.places ensures SwitchOk(setup, m, other) {
      assert SwitchOk(setup, w, other);
      assert KeyOk(setup, w, setup.places[other].endpoint);
    }
  }

  lemma NextKeeps(setup: Setup, w: World, e: Event)
    requires WellPlaced(setup) && Inv(setup, w) && Possible(setup, w, e)
    ensures Inv(setup, Next(setup, w, e))
  {
    var l := Later(w);
    OnlyLaterKeeps(setup, w, l);
    match e
    case Tick(now) => OnlyLaterKeeps(setup, w, l.(clock := now));
    case Change(firewall) => OnlyLaterKeeps(setup, w, w.(history := w.history + [firewall]));
    case WriteConfirmed(id, on) => ConfirmedKeeps(setup, l, id, on);
    case WriteFailed(id) => InvalidatingKeeps(setup, l, [setup.places[id].endpoint]);
    case Invalidate(keys) => InvalidatingKeeps(setup, l, keys);
    case BeginCycle(restrict) =>
      var c := Begin(setup.config, l.coord, l.clock, restrict);
      if c.Some? {
        BeginKeeps(setup, w, c.value);
      } else {
        IdleKeeps(setup, l);
      }
    case Answer(key, error) =>
      AnswerKeeps(setup, l, key, Answered(l, key, error));
    case Resume => ResumeKeeps(setup, l);
    case Cancel => OnlyLaterKeeps(setup, w, l.(cycle := None));
    case Notify(id) => NotifyKeeps(setup, l, id);
  }

  // ── What every run guarantees ──────────────────────────────────────────────

  ghost predicate RunFrom(setup: Setup, worlds: seq<World>, events: seq<Event>) {
    && WellPlaced(setup) && Run(setup, worlds, events)
    && exists firewall, clock :: worlds[0] == Initial(setup, firewall, clock)
  }

  lemma {:induction false} RunKeeps(setup: Setup, worlds: seq<World>, events: seq<Event>, n: nat)
    requires RunFrom(setup, worlds, events) && n < |worlds|
    ensures Inv(setup, worlds[n])
  {
    if n > 0 {
      RunKeeps(setup, worlds, events, n - 1);
      NextKeeps(setup, worlds[n - 1], events[n - 1]);
    }
  }

  /** In every reachable world a switch with a confirmed write either shows what it wrote last,
      or a state the firewall really held after that write was confirmed, read by a cycle that
      began after it. No interleaving and no standing clock brings the old state back. */
  lemma SwitchNeverShowsAnOlderState(setup: Setup, worlds: seq<World>, events: seq<Event>, n: nat, id: string)
    requires RunFrom(setup, worlds, events) && n < |worlds|
    requires id in setup.places && id in worlds[n].confirmed
    ensures WellFormed(worlds[n]) && id in worlds[n].switches
    ensures var w, place := worlds[n], setup.places[id];
            var written := w.confirmed[id];
            || (w.switches[id].optimistic == Some(written.on) && Displayed(setup, w, id) == Some(written.on))
            || (&& w.switches[id].optimistic.None?
                && w.coord.data.Some? && place.endpoint in w.coord.data.value
                && var r := w.coord.data.value[place.endpoint];
                && written.step < r.cycle < r.at < |w.history|
                && Displayed(setup, w, id) == Lookup(TableOf(w.history[r.at], place.endpoint), place.object_))
  {
    RunKeeps(setup, worlds, events, n);
    assert SwitchOk(setup, worlds[n], id);
    assert KeyOk(setup, worlds[n], setup.places[id].endpoint);
    if worlds[n].coord.data.Some? {
      assert StoredAsRead(setup, setup.places[id].endpoint);
      assert DataOk(worlds[n], worlds[n].coord.data.value, setup.places[id].endpoint);
    }
  }

  /** As long as nobody changes the object after a confirmed write, the switch shows what was
      written, whatever cycles, failures and other writes happen meanwhile. */
  lemma UndisturbedWriteStaysVisible(setup: Setup, worlds: seq<World>, events: seq<Event>, n: nat, id: string)
    requires RunFrom(setup, worlds, events) && n < |worlds|
    requires id in setup.places && id in worlds[n].confirmed
    requires forall step :: worlds[n].confirmed[id].step <= step < |worlds[n].history| ==>
               Lookup(TableOf(worlds[n].history[step], setup.places[id].endpoint), setup.places[id].object_)
               == Some(worlds[n].confirmed[id].on)
    ensures id in worlds[n].switches && Displayed(setup, worlds[n], id) == Some(worlds[n].confirmed[id].on)
  {
    SwitchNeverShowsAnOlderState(setup, worlds, events, n, id);
  }

  /** An invalidated endpoint stays due until a cycle that began later has read it, and the
      scheduler never holds a time of its own. */
  lemma InvalidationIsNeverLost(setup: Setup, worlds: seq<World>, events: seq<Event>, n: nat, key: Key)
    requires RunFrom(setup, worlds, events) && n < |worlds|
    ensures var w := worlds[n];
            && (key in w.coord.last ==> Lookup(w.coord.fetchedAt, key) == Some(w.coord.last[key]))
            && (key in w.invalidated ==>
                  (key in w.stamped && w.stamped[key] > w.invalidated[key])
                  || forall interval, tolerance, now :: Due(Lookup(w.coord.last, key), interval, tolerance, now))
  {
    RunKeeps(setup, worlds, events, n);
    assert KeyOk(setup, worlds[n], key);
  }

  /** The event is a write of a switch of this endpoint, confirmed or failed, or invalidates it
      outright. */
  predicate Invalidates(setup: Setup, e: Event, key: Key) {
    match e
    case WriteConfirmed(id, on) => id in setup.places && setup.places[id].endpoint == key
    case WriteFailed(id) => id in setup.places && setup.places[id].endpoint == key
    case Invalidate(keys) => key in keys
    case _ => false
  }

  lemma StepKeepsInvalidated(setup: Setup, w: World, e: Event, key: Key)
    requires Possible(setup, w, e) && (key in w.invalidated ==> w.invalidated[key] < |w.history|)
    ensures var m := Next(setup, w, e);
            && (Invalidates(setup, e, key) ==> Lookup(m.invalidated, key) == Some(|w.history|))
            && (!Invalidates(setup, e, key) ==> Lookup(m.invalidated, key) == Lookup(w.invalidated, key))
  {
    hide Begin, Deliver, Settle, Invalidated, AfterListener, Finish, Merge;
    if e == Resume {
      ResumeTouches(setup, Later(w));
    }
  }

  lemma ResumeTouches(setup: Setup, w: World)
    requires WellFormed(w) && w.cycle.Some? && w.cycle.value.pending == {}
    ensures Resumed(setup, w).invalidated == w.invalidated && Resumed(setup, w).history == w.history
  {
    hide Settle, Finish;
  }

  lemma {:induction false} InvalidatedSince(setup: Setup, worlds: seq<World>, events: seq<Event>, k: nat, n: nat, key: Key)
    requires RunFrom(setup, worlds, events) && k < n < |worlds| && |worlds| == |events| + 1 && Invalidates(setup, events[k], key)
    ensures key in worlds[n].invalidated && worlds[n].invalidated[key] >= |worlds[k].history|
    decreases n
  {
    hide Next, Invalidates, Inv;
    RunKeeps(setup, worlds, events, n - 1);
    assert key in worlds[n - 1].invalidated ==> worlds[n - 1].invalidated[key] < |worlds[n - 1].history| by {
      InvalidatedIsPast(setup, worlds[n - 1], key);
    }
    StepKeepsInvalidated(setup, worlds[n - 1], events[n - 1], key);
    if k < n - 1 {
      InvalidatedSince(setup, worlds, events, k, n - 1, key);
    }
    HistoryGrows(setup, worlds, events, k, n - 1);
  }

  lemma InvalidatedIsPast(setup: Setup, w: World, key: Key)
    requires Inv(setup, w)
    ensures key in w.invalidated ==> w.invalidated[key] < |w.history|
  {
    assert KeyOk(setup, w, key);
  }

  lemma {:induction false} HistoryGrows(setup: Setup, worlds: seq<World>, events: seq<Event>, k: nat, n: nat)
    requires Run(setup, worlds, events) && k <= n < |worlds| && |worlds| == |events| + 1
    ensures |worlds[k].history| <= |worlds[n].history|
    decreases n
  {
    hide Next;
    if k < n {
      HistoryGrows(setup, worlds, events, k, n - 1);
      HistoryStep(setup, worlds[n - 1], events[n - 1]);
    }
  }

  lemma HistoryStep(setup: Setup, w: World, e: Event)
    requires Possible(setup, w, e)
    ensures |Next(setup, w, e).history| == |w.history| + 1
  {
    hide Begin, Deliver, Settle, Invalidated, AfterListener, Finish, Merge;
    if e == Resume {
      ResumeTouches(setup, Later(w));
    }
  }

  /** After a write, failed ones included, the endpoint is due in any tier at any time until a
      cycle that began after the write has read it. */
  lemma WrittenIsReadAgain(setup: Setup, worlds: seq<World>, events: seq<Event>, k: nat, n: nat, key: Key)
    requires RunFrom(setup, worlds, events) && k < n < |worlds| && |worlds| == |events| + 1
    requires Invalidates(setup, events[k], key)
    ensures (key in worlds[n].stamped && worlds[n].stamped[key] > |worlds[k].history|)
            || forall interval, tolerance, now :: Due(Lookup(worlds[n].coord.last, key), interval, tolerance, now)
  {
    hide RunFrom, Invalidates;
    InvalidatedSince(setup, worlds, events, k, n, key);
    InvalidationIsNeverLost(setup, worlds, events, n, key);
  }

  ghost predicate SameReadings(w: World, m: World) {
    && m.log == w.log && m.coord.failureLogged == w.coord.failureLogged
    && m.coord.fetchedAt == w.coord.fetchedAt
    && Previous(m.coord) == Previous(w.coord) && (w.coord.data.Some? ==> m.coord.data.Some?)
  }

  lemma InvalidatingKeepsReadings(w: World, keys: seq<Key>)
    requires WellFormed(w)
    ensures SameReadings(w, Invalidating(w, keys))
  {
    InvalidatedEffect(w.coord, keys, "");
  }

  /** Only the end of a cycle touches the readings, the failure marks and the log. */
  lemma OnlyResumeTouchesReadings(setup: Setup, w: World, e: Event)
    requires Possible(setup, w, e) && e != Resume
    ensures SameReadings(w, Next(setup, w, e))
  {
    var l := Later(w);
    match e
    case WriteConfirmed(id, on) =>
      hide Invalidating;
      InvalidatingKeepsReadings(l, [setup.places[id].endpoint]);
    case WriteFailed(id) =>
      hide Invalidating;
      InvalidatingKeepsReadings(l, [setup.places[id].endpoint]);
    case Invalidate(keys) =>
      hide Invalidating;
      InvalidatingKeepsReadings(l, keys);
    case BeginCycle(restrict) => hide Begin;
    case Answer(key, error) => hide Deliver, Answered;
    case _ =>
  }

  /** The field is still filled, by the same reading or by one of a later cycle. */
  ghost predicate MovedForward(w: World, m: World, key: Key)
    requires w.coord.data.Some? && key in w.coord.data.value
  {
    && m.coord.data.Some? && key in m.coord.data.value
    && var before, after := w.coord.data.value[key], m.coord.data.value[key];
    after == before || (before.at < after.cycle && before.at < after.at)
  }

  lemma MergeMovesForward(setup: Setup, w: World, c: Cycle<Reading>, updates: map<Key, Reading>, m: World, key: Key)
    requires w.cycle.Some? && w.coord.data.Some? && key in w.coord.data.value && StoredAsRead(setup, key)
    requires DataOk(w, w.coord.data.value, key) && CycleOk(w, c, key) && updates == c.updates
    requires MergedAt(setup, w, c, updates, m, key)
    ensures MovedForward(w, m, key)
  {
  }

  lemma ResumeMovesForward(setup: Setup, w: World, key: Key)
    requires WellFormed(w) && KeyOk(setup, w, key) && StoredAsRead(setup, key)
    requires w.cycle.Some? && w.cycle.value.pending == {}
    requires w.coord.data.Some? && key in w.coord.data.value
    ensures MovedForward(w, Resumed(setup, w), key)
  {
    var c := w.cycle.value;
    var settled := Settle(setup.config.source, c);
    if settled.Complete? {
      var updates, failures := settled.updates, settled.failures;
      assert updates == c.updates;
      FinishAt(setup, w, c, updates, failures, key);
      var m := Merge(setup, w, c, updates, failures);
      assert Resumed(setup, w) == m;
      MergeMovesForward(setup, w, c, updates, m, key);
    } else {
      assert Resumed(setup, w).coord == w.coord;
    }
  }

  lemma StepMovesForward(setup: Setup, w: World, e: Event, key: Key)
    requires WellPlaced(setup) && Inv(setup, w) && Possible(setup, w, e) && StoredAsRead(setup, key)
    requires w.coord.data.Some? && key in w.coord.data.value
    ensures MovedForward(w, Next(setup, w, e), key)
  {
    if e == Resume {
      OnlyLaterKeeps(setup, w, Later(w));
      assert KeyOk(setup, Later(w), key);
      ResumeMovesForward(setup, Later(w), key);
    } else {
      OnlyResumeTouchesReadings(setup, w, e);
    }
  }

  /** Once an endpoint was read its field stays filled, and it only ever moves to what a later
      cycle read later. */
  lemma {:induction false} ReadingsOnlyMoveForward(setup: Setup, worlds: seq<World>, events: seq<Event>, i: nat, j: nat, key: Key)
    requires RunFrom(setup, worlds, events) && i <= j < |worlds| && StoredAsRead(setup, key)
    requires worlds[i].coord.data.Some? && key in worlds[i].coord.data.value
    ensures MovedForward(worlds[i], worlds[j], key)
  {
    if i < j {
      ReadingsOnlyMoveForward(setup, worlds, events, i, j - 1, key);
      RunKeeps(setup, worlds, events, j - 1);
      StepMovesForward(setup, worlds[j - 1], events[j - 1], key);
      assert KeyOk(setup, worlds[j - 1], key);
      assert DataOk(worlds[j - 1], worlds[j - 1].coord.data.value, key);
    }
  }

  lemma StepKeepsFetchTime(setup: Setup, w: World, e: Event, key: Key)
    requires WellPlaced(setup) && Inv(setup, w) && Possible(setup, w, e)
    requires key in w.coord.fetchedAt
    ensures var m := Next(setup, w, e);
            key in m.coord.fetchedAt && m.coord.fetchedAt[key] >= w.coord.fetchedAt[key]
  {
    assert KeyOk(setup, w, key);
    if e == Resume {
      var l := Later(w);
      var settled := Settle(setup.config.source, l.cycle.value);
      if settled.Complete? {
        FinishAt(setup, l, l.cycle.value, settled.updates, settled.failures, key);
        assert Next(setup, w, e) == Merge(setup, l, l.cycle.value, settled.updates, settled.failures);
      } else {
        assert Resumed(setup, l).coord == l.coord;
      }
    } else {
      OnlyResumeTouchesReadings(setup, w, e);
    }
  }

  /** The overlay does end. Once the endpoint was counted as read at a time after the write, no
      later failure, invalidation or cycle keeps the next listener call from dropping the
      overlay, unless the switch was written again. */
  lemma {:induction false} OverlayEnds(setup: Setup, worlds: seq<World>, events: seq<Event>, k: nat, n: nat, id: string)
    requires RunFrom(setup, worlds, events) && k <= n < |events| && events[n] == Notify(id)
    requires id in worlds[k].switches && id in setup.places && worlds[k].switches[id].writtenAt.Some?
    requires setup.places[id].endpoint in worlds[k].coord.fetchedAt
    requires worlds[k].coord.fetchedAt[setup.places[id].endpoint] > worlds[k].switches[id].writtenAt.value
    requires forall i :: k <= i < n ==> !(events[i].WriteConfirmed? && events[i].id == id)
    ensures id in worlds[n + 1].switches && worlds[n + 1].switches[id] == UNTOUCHED
    decreases n - k
  {
    var key := setup.places[id].endpoint;
    if k < n {
      RunKeeps(setup, worlds, events, k);
      StepKeepsFetchTime(setup, worlds[k], events[k], key);
      StepKeepsSwitch(setup, worlds[k], events[k], id);
      if worlds[k + 1].switches[id] == UNTOUCHED {
        StaysUntouched(setup, worlds, events, k + 1, n + 1, id);
      } else {
        OverlayEnds(setup, worlds, events, k + 1, n, id);
      }
    } else {
      RunKeeps(setup, worlds, events, n);
    }
  }

  lemma StepKeepsSwitch(setup: Setup, w: World, e: Event, id: string)
    requires Possible(setup, w, e) && id in w.switches && id in setup.places
    requires !(e.WriteConfirmed? && e.id == id)
    ensures var m := Next(setup, w, e);
            id in m.switches && (m.switches[id] == w.switches[id] || m.switches[id] == UNTOUCHED)
  {
  }

  lemma {:induction false} StaysUntouched(setup: Setup, worlds: seq<World>, events: seq<Event>, k: nat, n: nat, id: string)
    requires Run(setup, worlds, events) && k <= n < |worlds|
    requires id in worlds[k].switches && id in setup.places && worlds[k].switches[id] == UNTOUCHED
    requires forall i :: k <= i < n ==> !(events[i].WriteConfirmed? && events[i].id == id)
    ensures id in worlds[n].switches && worlds[n].switches[id] == UNTOUCHED
    decreases n - k
  {
    if k < n {
      StepKeepsSwitch(setup, worlds[k], events[k], id);
      StaysUntouched(setup, worlds, events, k + 1, n, id);
    }
  }

  // ── Cycles that raise ──────────────────────────────────────────────────────

  /** The step ends a cycle by raising: rejected credentials, denied access, an outage, or a
      first refresh without data. */
  predicate Raises(setup: Setup, w: World)
    requires w.cycle.Some? && w.cycle.value.pending == {}
  {
    match Settle(setup.config.source, w.cycle.value)
    case Wait(_) => false
    case Raised(_) => true
    case Complete(updates, failures) =>
      Finish(setup.config, w.coord, w.cycle.value.generation, updates, failures, w.clock).raised.Some?
  }

  /** However a cycle raises, the readings, all times, the generations and the traffic sample are
      untouched, and whatever is due now is due at any later time. */
  lemma RaisingCycleKeepsReadings(setup: Setup, worlds: seq<World>, events: seq<Event>, n: nat, now: real, later: real)
    requires RunFrom(setup, worlds, events) && n < |events| && events[n] == Resume && now <= later
    requires Possible(setup, worlds[n], Resume) && Raises(setup, worlds[n])
    ensures var s, t := worlds[n].coord, worlds[n + 1].coord;
            && (t.data, t.last, t.fetchedAt, t.generation, t.sample)
               == (s.data, s.last, s.fetchedAt, s.generation, s.sample)
            && DueKeys(setup.config, s, now) <= DueKeys(setup.config, t, later)
    ensures worlds[n + 1].cycle.None?
  {
    var w, l := worlds[n], Later(worlds[n]);
    var settled := Settle(setup.config.source, w.cycle.value);
    if settled.Complete? {
      CyclesReadEachOnce(setup, worlds, events, n);
      SettleLosesNothing(setup.config.source, w.cycle.value);
      assert settled.updates.Keys + settled.failures.Keys != {};
      RaisedCycleKeepsReadings(setup.config, w.coord, w.cycle.value.generation, settled.updates,
                               settled.failures, w.clock, now, later);
    } else {
      forall ep | ep in setup.config.endpoints && EndpointDue(setup.config, w.coord, ep, now)
        ensures EndpointDue(setup.config, l.coord, ep, later)
      {
      }
    }
  }

  // ── What is logged ─────────────────────────────────────────────────────────

  function LogOf(w: World, key: Key): seq<LogLine> {
    if key in w.log then w.log[key] else []
  }

  ghost predicate Alternates(log: seq<LogLine>) {
    forall i :: 0 <= i < |log| ==> log[i] == if i % 2 == 0 then Failed else Recovered
  }

  /** Failures and recoveries of the endpoint alternate, and it counts as failed exactly while
      the last line is a failure. */
  ghost predicate LogOk(w: World, key: Key) {
    Alternates(LogOf(w, key)) && (key in w.coord.failureLogged <==> |LogOf(w, key)| % 2 == 1)
  }

  lemma LoggedAt(log: map<Key, seq<LogLine>>, keys: set<Key>, line: LogLine, key: Key)
    ensures Lookup(Logged(log, keys, line), key) ==
            if key in keys then Some((if key in log then log[key] else []) + [line]) else Lookup(log, key)
  {
  }

  lemma AppendAlternates(log: seq<LogLine>, line: LogLine)
    requires Alternates(log) && line == if |log| % 2 == 0 then Failed else Recovered
    ensures Alternates(log + [line])
  {
  }

  /** The end of a cycle adds at most one line per endpoint, and none when the whole source is
      down. */
  lemma MergeLogs(setup: Setup, w: World, c: Cycle<Reading>, updates: map<Key, Reading>,
                  failures: map<Key, Error>, key: Key)
    requires WellFormed(w) && LogOk(w, key) && updates.Keys !! failures.Keys
    ensures var m := Merge(setup, w, c, updates, failures);
            && LogOk(m, key)
            && |LogOf(w, key)| <= |LogOf(m, key)| <= |LogOf(w, key)| + 1
            && (Outage(updates, failures) ==> LogOf(m, key) == LogOf(w, key))
  {
    var f := Finish(setup.config, w.coord, c.generation, updates, failures, w.clock);
    FinishLogs(setup.config, w.coord, c.generation, updates, failures, w.clock, key);
    LinesAt(w, Merge(setup, w, c, updates, failures), f.recovered, f.failed, key);
  }

  lemma LinesAt(w: World, m: World, recovered: set<Key>, failed: set<Key>, key: Key)
    requires LogOk(w, key) && m.log == Logged(Logged(w.log, recovered, Recovered), failed, Failed)
    requires !(key in recovered && key in failed)
    requires key in recovered ==> key in w.coord.failureLogged && key !in m.coord.failureLogged
    requires key in failed ==> key !in w.coord.failureLogged && key in m.coord.failureLogged
    requires key !in recovered && key !in failed ==>
               (key in m.coord.failureLogged <==> key in w.coord.failureLogged)
    ensures LogOk(m, key)
    ensures LogOf(m, key) == LogOf(w, key) + if key in recovered then [Recovered] else if key in failed then [Failed] else []
  {
    LoggedAt(w.log, recovered, Recovered, key);
    LoggedAt(Logged(w.log, recovered, Recovered), failed, Failed, key);
    if key in recovered {
      AppendAlternates(LogOf(w, key), Recovered);
    } else if key in failed {
      AppendAlternates(LogOf(w, key), Failed);
    }
  }

  lemma StepLogs(setup: Setup, w: World, e: Event, key: Key)
    requires Possible(setup, w, e) && LogOk(w, key)
    requires w.cycle.Some? ==> EachOnce(w.cycle.value)
    ensures LogOk(Next(setup, w, e), key)
  {
    if e == Resume {
      var l := Later(w);
      SettleLosesNothing(setup.config.source, l.cycle.value);
      match Settle(setup.config.source, l.cycle.value)
      case Wait(_) =>
      case Raised(_) =>
      case Complete(updates, failures) => MergeLogs(setup, l, l.cycle.value, updates, failures, key);
    } else {
      OnlyResumeTouchesReadings(setup, w, e);
    }
  }

  lemma StepReadsEachOnce(setup: Setup, w: World, e: Event)
    requires Possible(setup, w, e)
    requires w.cycle.Some? ==> EachOnce(w.cycle.value)
    ensures var m := Next(setup, w, e); m.cycle.Some? ==> EachOnce(m.cycle.value)
  {
    var l := Later(w);
    match e
    case Answer(key, error) =>
      hide EachOnce, Attempted, Deliver;
      DeliverLosesNothing(l.cycle.value, key, Answered(l, key, error));
    case Resume =>
      hide EachOnce, Attempted, Settle, Merge;
      SettleLosesNothing(setup.config.source, l.cycle.value);
    case BeginCycle(restrict) =>
      hide Begin, EachOnce;
      BeginPicksTheDue(setup.config, l.coord, l.clock, restrict);
    case _ => hide EachOnce;
  }

  lemma {:induction false} CyclesReadEachOnce(setup: Setup, worlds: seq<World>, events: seq<Event>, n: nat)
    requires RunFrom(setup, worlds, events) && n < |worlds|
    ensures worlds[n].cycle.Some? ==> EachOnce(worlds[n].cycle.value)
  {
    if n > 0 {
      CyclesReadEachOnce(setup, worlds, events, n - 1);
      StepReadsEachOnce(setup, worlds[n - 1], events[n - 1]);
    }
  }

  /** Over every run the log of an endpoint alternates failure and recovery, failure first. */
  lemma {:induction false} LoggedFailuresAlternate(setup: Setup, worlds: seq<World>, events: seq<Event>, n: nat, key: Key)
    requires RunFrom(setup, worlds, events) && n < |worlds|
    ensures LogOk(worlds[n], key)
  {
    if n > 0 {
      LoggedFailuresAlternate(setup, worlds, events, n - 1, key);
      CyclesReadEachOnce(setup, worlds, events, n - 1);
      StepLogs(setup, worlds[n - 1], events[n - 1], key);
    }
  }
}
