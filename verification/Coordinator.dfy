/** The polling coordinator: one fetch cycle, cut at its awaits into atomic pieces.

    Begin picks the due endpoints, Deliver brings in one answer, Settle decides what happens
    once every request of a batch is answered, and Finish merges the results. Each piece is
    stated as a function on values; the class does the same in place. */
module Coordinators {
  import opened Wrappers
  import opened Scheduling
  import opened SnmpDetection

  type Key = string

  const EP_TRAFFIC: Key := "traffic"
  const EP_HEALTH: Key := "health"

  datatype Source = Xml | Snmp

  /** What a request can raise; Connection stands for the source's own connection error. */
  datatype Error = Connection | Auth | Access | Other

  datatype Endpoint = Endpoint(key: Key, tier: Tier)

  /** What stays fixed for a session. `rates` turns the stored and the new traffic sample into the
      data field of the SNMP source; `hasSensors` says whether a health reading reports hardware
      sensors. */
  datatype Config<!V> = Config(
    source: Source,
    endpoints: seq<Endpoint>,
    configured: set<Key>,
    intervals: Intervals,
    rates: (Option<V>, V) -> V,
    hasSensors: V -> bool)

  datatype State<V> = State(
    last: map<Key, real>,
    fetchedAt: map<Key, real>,
    generation: map<Key, nat>,
    ok: map<Key, bool>,
    failureLogged: set<Key>,
    disabled: set<Key>,
    sample: Option<V>,
    data: Option<map<Key, V>>,
    health: Health)

  /** A running cycle. `earlier` holds the failures of the restricted first batch while the
      endpoints in `later` are read after all. */
  datatype Cycle<V> = Cycle(
    generation: map<Key, nat>,
    later: set<Key>,
    retrying: bool,
    pending: set<Key>,
    updates: map<Key, V>,
    failures: map<Key, Error>,
    earlier: map<Key, Error>)

  datatype Raise = AuthFailed | AccessDenied | Unreachable | NoData

  datatype Settled<V> =
    | Wait(cycle: Cycle<V>)
    | Raised(raise: Raise)
    | Complete(updates: map<Key, V>, failures: map<Key, Error>)

  /** The new state, what was raised, and which endpoints had a line logged. */
  datatype Finished<V> = Finished(
    state: State<V>, raised: Option<Raise>, failed: set<Key>, recovered: set<Key>)

  // ── The pieces as functions ────────────────────────────────────────────────

  predicate EndpointDue<V>(cfg: Config<V>, s: State<V>, ep: Endpoint, now: real) {
    && ep.key in cfg.configured
    && ep.key !in s.disabled
    && Due(Lookup(s.last, ep.key), cfg.intervals.Of(ep.tier) as real, cfg.intervals.Tolerance(), now)
  }

  function DueKeys<V>(cfg: Config<V>, s: State<V>, now: real): set<Key> {
    set ep | ep in cfg.endpoints && EndpointDue(cfg, s, ep, now) :: ep.key
  }

  function StartBatch<V>(generation: map<Key, nat>, now: set<Key>, later: set<Key>): Cycle<V> {
    Cycle(generation, later, false, now, map[], map[], map[])
  }

  /** None when nothing is due. A first refresh is restricted to a few endpoints. */
  function Begin<V>(cfg: Config<V>, s: State<V>, now: real, restrict: Option<set<Key>>): Option<Cycle<V>> {
    var due := DueKeys(cfg, s, now);
    if due == {} then None
    else if restrict.Some? && due * restrict.value != {} then
      Some(StartBatch(s.generation, due * restrict.value, due - restrict.value))
    else Some(StartBatch(s.generation, due, {}))
  }

  function Deliver<V>(c: Cycle<V>, key: Key, answer: Result<V, Error>): Cycle<V>
    requires key in c.pending
  {
    var rest := c.(pending := c.pending - {key});
    match answer
    case Ok(value) => rest.(updates := rest.updates[key := value])
    case Err(error) => rest.(failures := rest.failures[key := error])
  }

  predicate AllConnection(failures: map<Key, Error>) {
    forall key :: key in failures ==> failures[key] == Connection
  }

  function FailedWith(failures: map<Key, Error>, error: Error): set<Key> {
    set key | key in failures && failures[key] == error
  }

  function AfterHandling<V>(c: Cycle<V>): Settled<V> {
    if c.later != {} && c.updates == map[] && !AllConnection(c.failures) then
      Wait(c.(later := {}, retrying := false, pending := c.later,
              failures := map[], earlier := c.failures))
    else Complete(c.updates, c.earlier + c.failures)
  }

  /** Every request of the batch is answered: retry rejected credentials once, give up on
      denied access, read the held-back endpoints, or go on to Finish. */
  function Settle<V>(source: Source, c: Cycle<V>): Settled<V>
    requires c.pending == {}
  {
    if source == Xml then
      var rejected := FailedWith(c.failures, Auth);
      if rejected != {} then
        if c.retrying then Raised(AuthFailed)
        else Wait(c.(retrying := true, pending := rejected, failures := c.failures - rejected))
      else if FailedWith(c.failures, Access) != {} then Raised(AccessDenied)
      else AfterHandling(c)
    else AfterHandling(c)
  }

  /** The endpoint was not invalidated since the cycle began. */
  predicate Undisturbed(before: map<Key, nat>, now: map<Key, nat>, key: Key) {
    Lookup(before, key) == Lookup(now, key)
  }

  function Stamps(before: map<Key, nat>, now: map<Key, nat>, read: set<Key>, done: real): map<Key, real> {
    map key | key in read && Undisturbed(before, now, key) :: done
  }

  /** One endpoint more is stamped, on top of older times. */
  lemma StampedOneMore(times: map<Key, real>, before: map<Key, nat>, now: map<Key, nat>, read: set<Key>, key: Key, done: real)
    ensures times + Stamps(before, now, {}, done) == times
    ensures times + Stamps(before, now, read + {key}, done) ==
            if Undisturbed(before, now, key) then (times + Stamps(before, now, read, done))[key := done]
            else times + Stamps(before, now, read, done)
  {
  }

  predicate Outage<V>(updates: map<Key, V>, failures: map<Key, Error>) {
    failures != map[] && updates == map[] && AllConnection(failures)
  }

  /** The availability noted for these endpoints. */
  function Noted(keys: set<Key>, available: bool): map<Key, bool> {
    map key | key in keys :: available
  }

  lemma NotedOneMore(ok: map<Key, bool>, keys: set<Key>, key: Key, available: bool)
    ensures ok + Noted(keys + {key}, available) == (ok + Noted(keys, available))[key := available]
    ensures ok + Noted({}, available) == ok
  {
  }

  function Previous<V>(s: State<V>): map<Key, V> {
    if s.data.Some? then s.data.value else map[]
  }

  predicate TakesSample<V>(source: Source, updates: map<Key, V>) {
    source == Snmp && EP_TRAFFIC in updates
  }

  function Prepared<V>(cfg: Config<V>, s: State<V>, updates: map<Key, V>): map<Key, V> {
    if TakesSample(cfg.source, updates)
    then updates[EP_TRAFFIC := cfg.rates(s.sample, updates[EP_TRAFFIC])]
    else updates
  }

  predicate TakesHealth<V>(source: Source, updates: map<Key, V>) {
    source == Snmp && EP_HEALTH in updates
  }

  /** The verdict about hardware sensors after the cycle. */
  function Judged<V>(cfg: Config<V>, s: State<V>, updates: map<Key, V>): Health {
    if TakesHealth(cfg.source, updates) then AfterHealthRead(s.health, cfg.hasSensors(updates[EP_HEALTH])) else s.health
  }

  function Finish<V>(cfg: Config<V>, s: State<V>, before: map<Key, nat>,
                     updates: map<Key, V>, failures: map<Key, Error>, done: real): Finished<V>
  {
    var stamps := Stamps(before, s.generation, updates.Keys, done);
    var outage := Outage(updates, failures);
    var failed := if outage then {} else failures.Keys - (s.failureLogged - updates.Keys);
    var marked := s.(
      last := s.last + stamps,
      fetchedAt := s.fetchedAt + stamps,
      ok := s.ok + Noted(updates.Keys, true) + Noted(failures.Keys, false),
      failureLogged := s.failureLogged - updates.Keys + failed);
    var recovered := updates.Keys * s.failureLogged;
    if outage then Finished(marked, Some(Unreachable), failed, recovered)
    else if s.data.None? && updates == map[] then Finished(marked, Some(NoData), failed, recovered)
    else
      var merged := marked.(
        sample := if TakesSample(cfg.source, updates) then Some(updates[EP_TRAFFIC]) else s.sample,
        data := Some(Previous(s) + Prepared(cfg, s, updates)),
        health := Judged(cfg, s, updates),
        disabled := if Judged(cfg, s, updates).verdict == Virtual != s.health.verdict then s.disabled + {EP_HEALTH}
                    else s.disabled);
      Finished(merged, None, failed, recovered)
  }

  function Bump(generation: map<Key, nat>, key: Key): map<Key, nat> {
    generation[key := if key in generation then generation[key] + 1 else 1]
  }

  function Invalidated<V>(s: State<V>, keys: seq<Key>): State<V> {
    if keys == [] then s
    else
      var key := keys[|keys| - 1];
      var rest := Invalidated(s, keys[..|keys| - 1]);
      rest.(last := rest.last - {key}, generation := Bump(rest.generation, key))
  }

  // ── What every cycle keeps ─────────────────────────────────────────────────

  /** A cycle that raises in Finish leaves the data, every fetch time, the generations and the
      traffic sample as they were, so whatever was due is due at any later time; and it has a
      failure to report, so raising it never fails itself. */
  lemma RaisedCycleKeepsReadings<V>(cfg: Config<V>, s: State<V>, before: map<Key, nat>,
                                    updates: map<Key, V>, failures: map<Key, Error>, done: real,
                                    now: real, later: real)
    requires updates != map[] || failures != map[]
    requires Finish(cfg, s, before, updates, failures, done).raised.Some?
    requires now <= later
    ensures var t := Finish(cfg, s, before, updates, failures, done).state;
            && (t.data, t.last, t.fetchedAt, t.generation, t.sample)
               == (s.data, s.last, s.fetchedAt, s.generation, s.sample)
            && DueKeys(cfg, s, now) <= DueKeys(cfg, t, later)
    ensures failures != map[]
  {
    var t := Finish(cfg, s, before, updates, failures, done).state;
    assert Stamps(before, s.generation, updates.Keys, done) == map[];
    assert s.last + map[] == s.last && s.fetchedAt + map[] == s.fetchedAt;
    forall ep | ep in cfg.endpoints && EndpointDue(cfg, s, ep, now)
      ensures EndpointDue(cfg, t, ep, later)
    {
    }
  }

  /** The end of a cycle, seen from one endpoint. It is stamped exactly when it was read and
      nobody invalidated it meanwhile; its field is replaced exactly when it was read and the
      cycle did not raise; and a cycle that read anything never raises here. */
  lemma FinishForOne<V>(cfg: Config<V>, s: State<V>, before: map<Key, nat>,
                        updates: map<Key, V>, failures: map<Key, Error>, done: real, key: Key)
    ensures var f := Finish(cfg, s, before, updates, failures, done);
            var stamped := key in updates && Undisturbed(before, s.generation, key);
            && Lookup(f.state.last, key) == (if stamped then Some(done) else Lookup(s.last, key))
            && Lookup(f.state.fetchedAt, key) == (if stamped then Some(done) else Lookup(s.fetchedAt, key))
            && f.state.generation == s.generation
            && (updates != map[] ==> f.raised.None?)
            && (f.raised.None? ==> f.state.data.Some?)
            && (f.raised.Some? ==> f.state.data == s.data)
            && (f.state.data.Some? ==>
                  && (key in updates ==> key in f.state.data.value)
                  && (key in updates && !(cfg.source == Snmp && key == EP_TRAFFIC) ==>
                        f.state.data.value[key] == updates[key])
                  && (key !in updates ==> Lookup(f.state.data.value, key) == Lookup(Previous(s), key)))
  {
  }

  /** What is logged at the end of a cycle: a failure exactly when the endpoint was not marked
      as failed, a recovery exactly when it was, and no failure while the source is down. */
  lemma FinishLogs<V>(cfg: Config<V>, s: State<V>, before: map<Key, nat>,
                      updates: map<Key, V>, failures: map<Key, Error>, done: real, key: Key)
    requires updates.Keys !! failures.Keys
    ensures var f := Finish(cfg, s, before, updates, failures, done);
            && (key in f.recovered <==> key in updates && key in s.failureLogged)
            && (key in f.failed <==> key in failures && key !in s.failureLogged && !Outage(updates, failures))
            && (key in f.state.failureLogged <==>
                  key !in updates && (key in s.failureLogged || (key in failures && !Outage(updates, failures))))
  {
  }

  /** Everything a cycle set out to read and has not forgotten. */
  function Attempted<V>(c: Cycle<V>): set<Key> {
    c.pending + c.later + c.updates.Keys + c.failures.Keys + c.earlier.Keys
  }

  ghost predicate EachOnce<V>(c: Cycle<V>) {
    && Attempted(c) - c.later != {}
    && (c.later != {} ==> c.earlier == map[])
    && c.pending !! c.later && (c.pending + c.later) !! c.updates.Keys
    && (c.pending + c.later + c.updates.Keys) !! c.failures.Keys
    && (c.pending + c.later + c.updates.Keys + c.failures.Keys) !! c.earlier.Keys
  }

  /** A cycle begins when something is due, and it sets out to read exactly that, each endpoint in
      one place; a restricted one holds back exactly what is outside the restriction, unless nothing is
      inside. */
  lemma BeginPicksTheDue<V>(cfg: Config<V>, s: State<V>, now: real, restrict: Option<set<Key>>)
    ensures Begin(cfg, s, now, restrict).None? <==> DueKeys(cfg, s, now) == {}
    ensures Begin(cfg, s, now, restrict).Some? ==>
              var c := Begin(cfg, s, now, restrict).value;
              && Attempted(c) == DueKeys(cfg, s, now) && EachOnce(c) && c.pending != {} && c.generation == s.generation
              && !c.retrying && c.updates == map[] && c.failures == map[] && c.earlier == map[]
              && forall key :: key in c.later <==>
                   key in DueKeys(cfg, s, now) && restrict.Some? && key !in restrict.value
                   && exists first :: first in DueKeys(cfg, s, now) && first in restrict.value
  {
    hide DueKeys;
    var due := DueKeys(cfg, s, now);
    if restrict.Some? {
      assert due * restrict.value + (due - restrict.value) == due;
    }
  }

  lemma DeliverLosesNothing<V>(c: Cycle<V>, key: Key, answer: Result<V, Error>)
    requires key in c.pending
    ensures Attempted(Deliver(c, key, answer)) == Attempted(c)
    ensures EachOnce(c) ==> EachOnce(Deliver(c, key, answer))
  {
  }

  /** Retrying and falling back lose no endpoint: a batch that goes on still has every endpoint
      it set out to read, each in one place, and a batch that completes reports each of them
      either as read or as failed, except those held back by a restricted refresh. */
  lemma SettleLosesNothing<V>(source: Source, c: Cycle<V>)
    requires c.pending == {} && EachOnce(c)
    ensures match Settle(source, c)
            case Wait(d) => Attempted(d) == Attempted(c) && EachOnce(d) && d.pending != {}
            case Raised(_) => true
            case Complete(updates, failures) =>
              updates.Keys + failures.Keys == Attempted(c) - c.later && updates.Keys !! failures.Keys
  {
    hide AllConnection;
    var rejected := FailedWith(c.failures, Auth);
    assert (c.failures - rejected).Keys + rejected == c.failures.Keys;
  }

  // ── A whole cycle ──────────────────────────────────────────────────────────

  /** What every request of a batch is answered. */
  type Answers<!V> = Key -> Result<V, Error>

  function Read<V>(keys: set<Key>, answers: Answers<V>): map<Key, V> {
    map key | key in keys && answers(key).Ok? :: answers(key).value
  }

  function Failed<V>(keys: set<Key>, answers: Answers<V>): map<Key, Error> {
    map key | key in keys && answers(key).Err? :: answers(key).error
  }

  /** The batch after all of its answers came in. */
  function DeliverAll<V>(c: Cycle<V>, answers: Answers<V>): Cycle<V> {
    c.(pending := {}, updates := c.updates + Read(c.pending, answers), failures := c.failures + Failed(c.pending, answers))
  }

  ghost predicate EachPending<V>(c: Cycle<V>, order: seq<Key>) {
    (forall i, j :: 0 <= i < j < |order| ==> order[i] != order[j]) && forall i :: 0 <= i < |order| ==> order[i] in c.pending
  }

  /** The answers come in one at a time, in this order. */
  ghost function DeliverEach<V>(c: Cycle<V>, order: seq<Key>, answers: Answers<V>): (d: Cycle<V>)
    requires EachPending(c, order)
    ensures d.pending == c.pending - SetOf(order)
  {
    if order == [] then c
    else
      var n := |order| - 1;
      Deliver(DeliverEach(c, order[..n], answers), order[n], answers(order[n]))
  }

  lemma LastPending<V>(c: Cycle<V>, order: seq<Key>)
    requires EachPending(c, order) && order != []
    ensures var n := |order| - 1;
            && EachPending(c, order[..n]) && order[n] in c.pending && order[n] !in SetOf(order[..n])
            && SetOf(order) == SetOf(order[..n]) + {order[n]}
  {
  }

  lemma {:induction false} DeliveredSoFar<V>(c: Cycle<V>, order: seq<Key>, answers: Answers<V>)
    requires EachPending(c, order)
    ensures var keys, d := SetOf(order), DeliverEach(c, order, answers);
            d == c.(pending := c.pending - keys, updates := c.updates + Read(keys, answers),
                    failures := c.failures + Failed(keys, answers))
  {
    if order == [] {
      assert c.pending - {} == c.pending;
      assert Read({}, answers) == map[] && Failed({}, answers) == map[];
    } else {
      hide Read, Failed, Deliver, EachPending, SetOf;
      var n := |order| - 1;
      LastPending(c, order);
      DeliveredSoFar(c, order[..n], answers);
      var before, key := SetOf(order[..n]), order[n];
      OneMoreAnswer(c, before, key, answers);
    }
  }

  lemma ReadOneMore<V>(keys: set<Key>, key: Key, answers: Answers<V>)
    ensures Read(keys + {key}, answers) ==
            if answers(key).Ok? then Read(keys, answers)[key := answers(key).value] else Read(keys, answers)
    ensures Failed(keys + {key}, answers) ==
            if answers(key).Err? then Failed(keys, answers)[key := answers(key).error] else Failed(keys, answers)
  {
  }

  lemma SumUpdated<X>(m: map<Key, X>, n: map<Key, X>, key: Key, x: X)
    ensures m + n[key := x] == (m + n)[key := x]
  {
  }

  lemma OneMoreAnswer<V>(c: Cycle<V>, before: set<Key>, key: Key, answers: Answers<V>)
    requires key in c.pending && key !in before
    ensures var d := c.(pending := c.pending - before, updates := c.updates + Read(before, answers),
                        failures := c.failures + Failed(before, answers));
            Deliver(d, key, answers(key)) ==
            c.(pending := c.pending - (before + {key}), updates := c.updates + Read(before + {key}, answers),
               failures := c.failures + Failed(before + {key}, answers))
  {
    hide Read, Failed;
    assert c.pending - before - {key} == c.pending - (before + {key});
    ReadOneMore(before, key, answers);
    match answers(key)
    case Ok(value) => SumUpdated(c.updates, Read(before, answers), key, value);
    case Err(error) => SumUpdated(c.failures, Failed(before, answers), key, error);
  }

  /** Concurrent requests: in whatever order a batch is answered, the outcome is the same. */
  lemma AnyOrderOfAnswers<V>(c: Cycle<V>, order: seq<Key>, answers: Answers<V>)
    requires EachPending(c, order)
    requires forall key :: key in c.pending ==> key in order
    ensures DeliverEach(c, order, answers) == DeliverAll(c, answers)
  {
    DeliveredSoFar(c, order, answers);
    assert SetOf(order) == c.pending;
    assert c.pending - c.pending == {};
  }

  /** The cycle after these batches were answered: at most a first batch, its retry, the
      endpoints held back, and their retry. */
  function Played<V>(source: Source, c: Cycle<V>, batches: seq<Answers<V>>): Settled<V> {
    if batches == [] then Wait(c)
    else
      match Played(source, c, batches[..|batches| - 1])
      case Wait(d) => Settle(source, DeliverAll(d, batches[|batches| - 1]))
      case other => other
  }

  lemma PlayedOneMore<V>(source: Source, c: Cycle<V>, batches: seq<Answers<V>>, n: nat)
    requires n < |batches|
    ensures Played(source, c, batches[..n + 1]) ==
            match Played(source, c, batches[..n])
            case Wait(d) => Settle(source, DeliverAll(d, batches[n]))
            case other => other
  {
    assert batches[..n + 1][..n] == batches[..n];
  }

  lemma {:induction false} PlayedStays<V>(source: Source, c: Cycle<V>, batches: seq<Answers<V>>, n: nat)
    requires n <= |batches| && !Played(source, c, batches[..n]).Wait?
    ensures Played(source, c, batches) == Played(source, c, batches[..n])
  {
    if n == |batches| {
      assert batches[..n] == batches;
    } else {
      assert batches[..|batches| - 1][..n] == batches[..n];
      PlayedStays(source, c, batches[..|batches| - 1], n);
    }
  }

  /** How many batches a waiting cycle can still need. */
  function BatchesLeft<V>(c: Cycle<V>): nat {
    (if c.retrying then 1 else 2) + (if c.later != {} then 2 else 0)
  }

  lemma {:induction false} PlayedProgress<V>(source: Source, c: Cycle<V>, batches: seq<Answers<V>>)
    ensures var p := Played(source, c, batches); p.Wait? ==> BatchesLeft(p.cycle) + |batches| <= BatchesLeft(c)
  {
    if batches != [] {
      PlayedProgress(source, c, batches[..|batches| - 1]);
    }
  }

  /** Every cycle comes to an end: four batches settle it. */
  lemma CyclesEnd<V>(source: Source, c: Cycle<V>, batches: seq<Answers<V>>)
    requires |batches| >= 4
    ensures !Played(source, c, batches).Wait?
  {
    PlayedProgress(source, c, batches);
  }

  lemma FirstAnswers<V>(c: Cycle<V>, answers: Answers<V>)
    requires c.updates == map[] && c.failures == map[]
    ensures DeliverAll(c, answers) == c.(pending := {}, updates := Read(c.pending, answers), failures := Failed(c.pending, answers))
  {
  }

  lemma PlayedNone<V>(source: Source, c: Cycle<V>, batches: seq<Answers<V>>)
    ensures Played(source, c, batches[..0]) == Wait(c)
  {
  }

  /** After a retry only the retried endpoints can still be rejected. */
  lemma StillRejected(failures: map<Key, Error>, more: map<Key, Error>)
    ensures var rejected := FailedWith(failures, Auth);
            FailedWith(failures - rejected + more, Auth) == FailedWith(more, Auth)
  {
  }

  // ── When a cycle raises ────────────────────────────────────────────────────

  /** What an endpoint answered last: the XML source asks once more after rejected credentials. */
  ghost function LastAnswer<V>(source: Source, first: Answers<V>, retry: Answers<V>, key: Key): Result<V, Error> {
    if source == Xml && first(key) == Err(Auth) then retry(key) else first(key)
  }

  ghost predicate AsksTwice<V>(source: Source, keys: set<Key>, first: Answers<V>) {
    source == Xml && exists key :: key in keys && first(key) == Err(Auth)
  }

  ghost predicate RejectedTwice<V>(source: Source, keys: set<Key>, first: Answers<V>, retry: Answers<V>) {
    source == Xml && exists key :: key in keys && first(key) == Err(Auth) && retry(key) == Err(Auth)
  }

  ghost predicate AccessIsDenied<V>(source: Source, keys: set<Key>, first: Answers<V>, retry: Answers<V>) {
    source == Xml && exists key :: key in keys && LastAnswer(source, first, retry, key) == Err(Access)
  }

  /** Nothing but errors, and not all of them of the connection. */
  ghost predicate OnlyErrors<V>(source: Source, keys: set<Key>, first: Answers<V>, retry: Answers<V>) {
    && (forall key :: key in keys ==> LastAnswer(source, first, retry, key).Err?)
    && (exists key :: key in keys && LastAnswer(source, first, retry, key) != Err(Connection))
  }

  /** One batch with its retry, as answered. */
  ghost function AnsweredTwice<V>(source: Source, c: Cycle<V>, first: Answers<V>, retry: Answers<V>): Cycle<V> {
    c.(pending := {}, retrying := AsksTwice(source, c.pending, first),
       updates := map key | key in c.pending && LastAnswer(source, first, retry, key).Ok? ::
                    LastAnswer(source, first, retry, key).value,
       failures := map key | key in c.pending && LastAnswer(source, first, retry, key).Err? ::
                     LastAnswer(source, first, retry, key).error)
  }

  /** The maps of a retried batch hold the last answers. */
  lemma RetriedMaps<V>(keys: set<Key>, first: Answers<V>, retry: Answers<V>)
    ensures var rejected := FailedWith(Failed(keys, first), Auth);
            && Read(keys, first) + Read(rejected, retry) ==
               (map key | key in keys && LastAnswer(Xml, first, retry, key).Ok? :: LastAnswer(Xml, first, retry, key).value)
            && Failed(keys, first) - rejected + Failed(rejected, retry) ==
               (map key | key in keys && LastAnswer(Xml, first, retry, key).Err? :: LastAnswer(Xml, first, retry, key).error)
            && forall key :: key in rejected <==> key in keys && first(key) == Err(Auth)
  {
  }

  lemma RetryIsLastAnswer<V>(source: Source, c: Cycle<V>, first: Answers<V>, retry: Answers<V>)
    requires !c.retrying && c.updates == map[] && c.failures == map[] && AsksTwice(source, c.pending, first)
    ensures var settled := Settle(source, DeliverAll(c, first));
            settled.Wait? && DeliverAll(settled.cycle, retry) == AnsweredTwice(source, c, first, retry)
  {
    hide AfterHandling, FailedWith, Failed, Read, LastAnswer;
    var key :| key in c.pending && first(key) == Err(Auth);
    FirstAnswers(c, first);
    RetriedMaps(c.pending, first, retry);
  }

  lemma NoRetry<V>(source: Source, c: Cycle<V>, first: Answers<V>, retry: Answers<V>)
    requires !c.retrying && c.updates == map[] && c.failures == map[] && !AsksTwice(source, c.pending, first)
    ensures DeliverAll(c, first) == AnsweredTwice(source, c, first, retry)
  {
    FirstAnswers(c, first);
    var d, e := DeliverAll(c, first), AnsweredTwice(source, c, first, retry);
    assert d.updates == e.updates && d.failures == e.failures;
  }

  /** What becomes of a batch once it was answered, with its retry. */
  lemma BatchIsSettled<V>(source: Source, c: Cycle<V>, first: Answers<V>, retry: Answers<V>)
    ensures Settle(source, AnsweredTwice(source, c, first, retry)) ==
            if RejectedTwice(source, c.pending, first, retry) then Raised(AuthFailed)
            else if AccessIsDenied(source, c.pending, first, retry) then Raised(AccessDenied)
            else AfterHandling(AnsweredTwice(source, c, first, retry))
  {
    hide AfterHandling;
    var d := AnsweredTwice(source, c, first, retry);
    assert forall key :: key in FailedWith(d.failures, Auth) <==>
      key in c.pending && LastAnswer(source, first, retry, key) == Err(Auth);
    assert forall key :: key in FailedWith(d.failures, Access) <==>
      key in c.pending && LastAnswer(source, first, retry, key) == Err(Access);
    if RejectedTwice(source, c.pending, first, retry) {
      var key :| key in c.pending && first(key) == Err(Auth) && retry(key) == Err(Auth);
      assert key in FailedWith(d.failures, Auth);
    }
    if AccessIsDenied(source, c.pending, first, retry) {
      var key :| key in c.pending && LastAnswer(source, first, retry, key) == Err(Access);
      assert key in FailedWith(d.failures, Access);
    }
  }

  /** Which batches a cycle has used for its first endpoints and their retry. */
  ghost function Used<V>(source: Source, c: Cycle<V>, batches: seq<Answers<V>>): nat
    requires |batches| == 4
  {
    if AsksTwice(source, c.pending, batches[0]) then 2 else 1
  }

  /** The endpoints held back are read after all: the others brought nothing but errors, not all
      of them of the connection, and none that raises. */
  ghost predicate ReadsHeldBack<V>(source: Source, c: Cycle<V>, batches: seq<Answers<V>>)
    requires |batches| == 4
  {
    && c.later != {} && OnlyErrors(source, c.pending, batches[0], batches[1])
    && !RejectedTwice(source, c.pending, batches[0], batches[1]) && !AccessIsDenied(source, c.pending, batches[0], batches[1])
  }

  /** Rejected credentials raise, for the first endpoints or for those held back. */
  ghost predicate RaisesAuthFailed<V>(source: Source, c: Cycle<V>, batches: seq<Answers<V>>)
    requires |batches| == 4
  {
    var u := Used(source, c, batches);
    || RejectedTwice(source, c.pending, batches[0], batches[1])
    || (ReadsHeldBack(source, c, batches) && RejectedTwice(source, c.later, batches[u], batches[u + 1]))
  }

  /** Denied access raises when nothing was rejected again. */
  ghost predicate RaisesAccessDenied<V>(source: Source, c: Cycle<V>, batches: seq<Answers<V>>)
    requires |batches| == 4
  {
    var u := Used(source, c, batches);
    || (!RejectedTwice(source, c.pending, batches[0], batches[1]) && AccessIsDenied(source, c.pending, batches[0], batches[1]))
    || (ReadsHeldBack(source, c, batches) && !RejectedTwice(source, c.later, batches[u], batches[u + 1])
        && AccessIsDenied(source, c.later, batches[u], batches[u + 1]))
  }

  /** The last answer of an endpoint that the cycle has asked. */
  ghost function FinalAnswer<V>(source: Source, c: Cycle<V>, batches: seq<Answers<V>>, key: Key): Option<Result<V, Error>>
    requires |batches| == 4
  {
    var u := Used(source, c, batches);
    if key in c.pending then Some(LastAnswer(source, batches[0], batches[1], key))
    else if key in c.later && ReadsHeldBack(source, c, batches) then Some(LastAnswer(source, batches[u], batches[u + 1], key))
    else None
  }

  /** The updates and failures are these answers. */
  ghost predicate Reports<V>(updates: map<Key, V>, failures: map<Key, Error>, key: Key, answer: Option<Result<V, Error>>) {
    && Lookup(updates, key) == (if answer.Some? && answer.value.Ok? then Some(answer.value.value) else None)
    && Lookup(failures, key) == (if answer.Some? && answer.value.Err? then Some(answer.value.error) else None)
  }

  lemma AnsweredReports<V>(source: Source, c: Cycle<V>, first: Answers<V>, retry: Answers<V>, key: Key)
    ensures var d := AnsweredTwice(source, c, first, retry);
            Reports(d.updates, d.failures, key, if key in c.pending then Some(LastAnswer(source, first, retry, key)) else None)
  {
    hide LastAnswer;
  }

  /** A fresh cycle after its first batch, with the retry if it has one. */
  lemma FirstBatch<V>(source: Source, c: Cycle<V>, batches: seq<Answers<V>>)
    requires |batches| == 4 && !c.retrying && c.updates == map[] && c.failures == map[]
    ensures Played(source, c, batches[..Used(source, c, batches)]) ==
            Settle(source, AnsweredTwice(source, c, batches[0], batches[1]))
  {
    hide Settle, AnsweredTwice, DeliverAll, Played, AsksTwice;
    PlayedNone(source, c, batches);
    PlayedOneMore(source, c, batches, 0);
    if AsksTwice(source, c.pending, batches[0]) {
      RetryIsLastAnswer(source, c, batches[0], batches[1]);
      PlayedOneMore(source, c, batches, 1);
    } else {
      NoRetry(source, c, batches[0], batches[1]);
    }
  }

  /** The endpoints held back, after theirs. */
  lemma HeldBackBatch<V>(source: Source, c: Cycle<V>, batches: seq<Answers<V>>, u: nat, held: Cycle<V>)
    requires |batches| == 4 && u <= 2 && Played(source, c, batches[..u]) == Wait(held)
    requires !held.retrying && held.updates == map[] && held.failures == map[]
    ensures var settled := Settle(source, AnsweredTwice(source, held, batches[u], batches[u + 1]));
            !settled.Wait? ==> Played(source, c, batches) == settled
  {
    hide Settle, AnsweredTwice, DeliverAll, Played, AsksTwice;
    PlayedOneMore(source, c, batches, u);
    if AsksTwice(source, held.pending, batches[u]) {
      RetryIsLastAnswer(source, held, batches[u], batches[u + 1]);
      PlayedOneMore(source, c, batches, u + 1);
      if !Played(source, c, batches[..u + 2]).Wait? {
        PlayedStays(source, c, batches, u + 2);
      }
    } else {
      NoRetry(source, held, batches[u], batches[u + 1]);
      if !Played(source, c, batches[..u + 1]).Wait? {
        PlayedStays(source, c, batches, u + 1);
      }
    }
  }

  /** A batch that does not raise goes on with every last answer it has; it waits for the
      endpoints held back exactly when it brought only errors, not all of the connection. */
  lemma BatchGoesOn<V>(source: Source, c: Cycle<V>, first: Answers<V>, retry: Answers<V>)
    requires c.earlier == map[]
    ensures var d := AnsweredTwice(source, c, first, retry);
            AfterHandling(d) ==
              if c.later != {} && OnlyErrors(source, c.pending, first, retry)
              then Wait(c.(pending := c.later, later := {}, retrying := false, updates := map[], failures := map[],
                           earlier := d.failures))
              else Complete(d.updates, d.failures)
  {
    hide LastAnswer;
    var d := AnsweredTwice(source, c, first, retry);
    assert map[] + d.failures == d.failures;
    if d.updates == map[] {
      forall key | key in c.pending ensures LastAnswer(source, first, retry, key).Err? {
        assert key !in d.updates;
      }
      if AllConnection(d.failures) {
        forall key | key in c.pending ensures LastAnswer(source, first, retry, key) == Err(Connection) {
          assert d.failures[key] == Connection;
        }
      } else {
        var key :| key in d.failures && d.failures[key] != Connection;
        assert LastAnswer(source, first, retry, key) != Err(Connection);
      }
    } else {
      var key :| key in d.updates;
      assert !OnlyErrors(source, c.pending, first, retry);
    }
  }

  /** The whole cycle, from its answers alone. It raises rejected credentials exactly when an
      endpoint that was asked again was rejected again, and denied access exactly when none was
      and some endpoint's last answer was that; for the SNMP source never. Else it ends with the
      last answer of every endpoint it asked, and it asks those held back exactly when the others
      brought nothing but errors, not all of the connection. */
  lemma CycleEndsBy<V>(source: Source, c: Cycle<V>, batches: seq<Answers<V>>)
    requires |batches| == 4 && !c.retrying && c.updates == map[] && c.failures == map[] && c.earlier == map[]
    requires c.pending !! c.later
    ensures var end := Played(source, c, batches);
            && !end.Wait?
            && (end == Raised(AuthFailed) <==> RaisesAuthFailed(source, c, batches))
            && (end == Raised(AccessDenied) <==> RaisesAccessDenied(source, c, batches))
            && (end.Raised? ==> source == Xml && end.raise in {AuthFailed, AccessDenied})
            && (end.Complete? ==>
                  forall key :: Reports(end.updates, end.failures, key, FinalAnswer(source, c, batches, key)))
  {
    hide Settle, AfterHandling, AnsweredTwice, DeliverAll, Played, AsksTwice, RejectedTwice, AccessIsDenied, LastAnswer;
    var u := Used(source, c, batches);
    var first, retry := batches[0], batches[1];
    FirstBatch(source, c, batches);
    BatchIsSettled(source, c, first, retry);
    BatchGoesOn(source, c, first, retry);
    if ReadsHeldBack(source, c, batches) {
      var held := Played(source, c, batches[..u]).cycle;
      HeldBackBatch(source, c, batches, u, held);
      BatchIsSettled(source, held, batches[u], batches[u + 1]);
      HeldBackEnds(source, held, batches[u], batches[u + 1]);
      var d, e := AnsweredTwice(source, c, first, retry), AnsweredTwice(source, held, batches[u], batches[u + 1]);
      forall key ensures Reports(e.updates, d.failures + e.failures, key, FinalAnswer(source, c, batches, key)) {
        AnsweredReports(source, c, first, retry, key);
        AnsweredReports(source, held, batches[u], batches[u + 1], key);
      }
    } else {
      PlayedStays(source, c, batches, u);
      var d := AnsweredTwice(source, c, first, retry);
      forall key ensures Reports(d.updates, d.failures, key, FinalAnswer(source, c, batches, key)) {
        AnsweredReports(source, c, first, retry, key);
      }
    }
    if source == Snmp {
      SnmpNeverRaises(c.pending, first, retry);
      SnmpNeverRaises(c.later, batches[u], batches[u + 1]);
    }
  }

  lemma HeldBackEnds<V>(source: Source, held: Cycle<V>, first: Answers<V>, retry: Answers<V>)
    requires held.later == {}
    ensures var d := AnsweredTwice(source, held, first, retry);
            AfterHandling(d) == Complete(d.updates, held.earlier + d.failures)
  {
  }

  lemma SnmpNeverRaises<V>(keys: set<Key>, first: Answers<V>, retry: Answers<V>)
    ensures !RejectedTwice(Snmp, keys, first, retry) && !AccessIsDenied(Snmp, keys, first, retry)
  {
  }

  /** The end of a cycle raises "unreachable" exactly when there are only errors, all of the
      connection, and "no data" exactly when the very first cycles bring nothing else. */
  lemma FinishRaises<V>(cfg: Config<V>, s: State<V>, before: map<Key, nat>,
                        updates: map<Key, V>, failures: map<Key, Error>, done: real)
    ensures var raised := Finish(cfg, s, before, updates, failures, done).raised;
            var allConnection := forall key :: key in failures ==> failures[key] == Connection;
            && (raised == Some(Unreachable) <==> updates == map[] && failures != map[] && allConnection)
            && (raised == Some(NoData) <==> s.data.None? && updates == map[] && !(failures != map[] && allConnection))
            && (raised.None? <==> raised != Some(Unreachable) && raised != Some(NoData))
  {
  }

  /** Availability follows the answers of this cycle. */
  lemma FinishAvailability<V>(cfg: Config<V>, s: State<V>, before: map<Key, nat>,
                              updates: map<Key, V>, failures: map<Key, Error>, done: real, key: Key)
    requires updates.Keys !! failures.Keys
    ensures Lookup(Finish(cfg, s, before, updates, failures, done).state.ok, key) ==
            if key in updates then Some(true) else if key in failures then Some(false) else Lookup(s.ok, key)
  {
  }

  // ── The coordinator object ─────────────────────────────────────────────────

  class SophosCoordinator<V> {
    const config: Config<V>
    const scheduler: TierScheduler
    var fetchedAt: map<Key, real>
    var generation: map<Key, nat>
    var ok: map<Key, bool>
    var failureLogged: set<Key>
    var disabled: set<Key>
    var sample: Option<V>
    var data: Option<map<Key, V>>
    var isVirtual: Verdict
    var emptyHealthReads: nat

    constructor (config: Config<V>)
      ensures this.config == config && fresh(scheduler) && scheduler.intervals == config.intervals
      ensures Contents() == State(map[], map[], map[], map[], {}, {}, None, None, NEW_HEALTH)
    {
      this.config := config;
      scheduler := new TierScheduler(config.intervals);
      fetchedAt, generation, ok := map[], map[], map[];
      failureLogged, disabled := {}, {};
      sample, data := None, None;
      isVirtual, emptyHealthReads := Undecided, 0;
    }

    function Contents(): State<V>
      reads this, scheduler
    {
      State(scheduler.last, fetchedAt, generation, ok, failureLogged, disabled, sample, data, Health(isVirtual, emptyHealthReads))
    }

    predicate Valid() {
      scheduler.intervals == config.intervals
    }

    method Invalidate(keys: seq<Key>)
      modifies this`generation, scheduler
      ensures Contents() == Invalidated(old(Contents()), keys)
    {
      for i := 0 to |keys|
        invariant Contents() == Invalidated(old(Contents()), keys[..i])
      {
        assert keys[..i + 1][..i] == keys[..i];
        scheduler.Invalidate(keys[i]);
        generation := Bump(generation, keys[i]);
      }
      assert keys[..|keys|] == keys;
    }

    method DisableEndpoint(key: Key)
      modifies this`disabled
      ensures Contents() == old(Contents()).(disabled := old(disabled) + {key})
    {
      disabled := disabled + {key};
    }

    method BeginCycle(now: real, restrict: Option<set<Key>>) returns (cycle: Option<Cycle<V>>)
      requires Valid()
      ensures cycle == Begin(config, Contents(), now, restrict)
    {
      var due: set<Key> := {};
      for i := 0 to |config.endpoints|
        invariant due == set ep | ep in config.endpoints[..i] && EndpointDue(config, Contents(), ep, now) :: ep.key
      {
        var ep := config.endpoints[i];
        assert config.endpoints[..i + 1] == config.endpoints[..i] + [ep];
        if ep.key in config.configured && ep.key !in disabled && scheduler.IsDue(ep.key, ep.tier, now) {
          due := due + {ep.key};
        }
      }
      assert config.endpoints[..|config.endpoints|] == config.endpoints;
      assert due == DueKeys(config, Contents(), now);
      if due == {} {
        return None;
      }
      if restrict.Some? {
        var limited := due * restrict.value;
        if limited != {} {
          return Some(StartBatch(generation, limited, due - restrict.value));
        }
      }
      return Some(StartBatch(generation, due, {}));
    }

    /** Record success or failure of one endpoint; true when a line is logged. */
    method SetEndpointState(key: Key, failed: bool, log: bool) returns (logged: bool)
      modifies this`ok, this`failureLogged
      ensures ok == old(ok)[key := !failed]
      ensures failureLogged == if !failed then old(failureLogged) - {key}
                               else if log then old(failureLogged) + {key} else old(failureLogged)
      ensures logged == if failed then log && key !in old(failureLogged) else key in old(failureLogged)
    {
      ok := ok[key := !failed];
      if !failed {
        logged := key in failureLogged;
        if logged {
          failureLogged := failureLogged - {key};
        }
        return;
      }
      if !log || key in failureLogged {
        return false;
      }
      failureLogged := failureLogged + {key};
      logged := true;
    }

    /** Stamp what was read, unless its endpoint was invalidated while the cycle ran. */
    method MarkFetched(before: map<Key, nat>, read: set<Key>, done: real)
      modifies this`fetchedAt, scheduler
      ensures scheduler.last == old(scheduler.last) + Stamps(before, generation, read, done)
      ensures fetchedAt == old(fetchedAt) + Stamps(before, generation, read, done)
    {
      hide Stamps;
      var todo := read;
      StampedOneMore(scheduler.last, before, generation, {}, "", done);
      StampedOneMore(fetchedAt, before, generation, {}, "", done);
      assert read - todo == {};
      while todo != {}
        invariant todo <= read
        invariant scheduler.last == old(scheduler.last) + Stamps(before, generation, read - todo, done)
        invariant fetchedAt == old(fetchedAt) + Stamps(before, generation, read - todo, done)
      {
        var key :| key in todo;
        StampedOneMore(old(scheduler.last), before, generation, read - todo, key, done);
        StampedOneMore(old(fetchedAt), before, generation, read - todo, key, done);
        assert read - (todo - {key}) == read - todo + {key};
        todo := todo - {key};
        if Undisturbed(before, generation, key) {
          scheduler.MarkFetched(key, done);
          fetchedAt := fetchedAt[key := done];
        }
      }
      assert read - todo == read;
    }

    /** Note every read endpoint as available again; returns those with a line logged. */
    method MarkAvailable(updates: map<Key, V>) returns (recovered: set<Key>)
      modifies this`ok, this`failureLogged
      ensures ok == old(ok) + Noted(updates.Keys, true)
      ensures failureLogged == old(failureLogged) - updates.Keys
      ensures recovered == updates.Keys * old(failureLogged)
    {
      hide Noted;
      recovered := {};
      var todo := updates.Keys;
      NotedOneMore(ok, {}, "", true);
      assert updates.Keys - todo == {};
      while todo != {}
        invariant todo <= updates.Keys
        invariant ok == old(ok) + Noted(updates.Keys - todo, true)
        invariant failureLogged == old(failureLogged) - (updates.Keys - todo)
        invariant recovered == (updates.Keys - todo) * old(failureLogged)
      {
        var key :| key in todo;
        NotedOneMore(old(ok), updates.Keys - todo, key, true);
        assert updates.Keys - (todo - {key}) == updates.Keys - todo + {key};
        todo := todo - {key};
        var logged := SetEndpointState(key, false, true);
        if logged {
          recovered := recovered + {key};
        }
      }
      assert updates.Keys - todo == updates.Keys;
    }

    /** Note every failed endpoint as unavailable; returns those with a line logged. */
    method MarkFailed(failures: map<Key, Error>, log: bool) returns (failed: set<Key>)
      modifies this`ok, this`failureLogged
      ensures ok == old(ok) + Noted(failures.Keys, false)
      ensures failed == if log then failures.Keys - old(failureLogged) else {}
      ensures failureLogged == old(failureLogged) + failed
    {
      hide Noted;
      failed := {};
      var todo := failures.Keys;
      NotedOneMore(ok, {}, "", false);
      assert failures.Keys - todo == {};
      while todo != {}
        invariant todo <= failures.Keys
        invariant ok == old(ok) + Noted(failures.Keys - todo, false)
        invariant failed == if log then failures.Keys - todo - old(failureLogged) else {}
        invariant failureLogged == old(failureLogged) + failed
      {
        var key :| key in todo;
        NotedOneMore(old(ok), failures.Keys - todo, key, false);
        assert failures.Keys - (todo - {key}) == failures.Keys - todo + {key};
        todo := todo - {key};
        var logged := SetEndpointState(key, true, log);
        if logged {
          failed := failed + {key};
        }
      }
      assert failures.Keys - todo == failures.Keys;
    }

    /** Judge a successful health read; a virtual appliance is not asked again. */
    method AfterUpdate(updates: map<Key, V>)
      modifies this`isVirtual, this`emptyHealthReads, this`disabled
      ensures Health(isVirtual, emptyHealthReads) ==
              if TakesHealth(config.source, updates)
              then AfterHealthRead(old(Health(isVirtual, emptyHealthReads)), config.hasSensors(updates[EP_HEALTH]))
              else old(Health(isVirtual, emptyHealthReads))
      ensures disabled == if isVirtual == Virtual != old(isVirtual) then old(disabled) + {EP_HEALTH} else old(disabled)
    {
      if isVirtual != Undecided || !TakesHealth(config.source, updates) {
        return;
      }
      if config.hasSensors(updates[EP_HEALTH]) {
        isVirtual := Hardware;
        return;
      }
      emptyHealthReads := emptyHealthReads + 1;
      if emptyHealthReads >= EMPTY_CONFIRMATIONS {
        isVirtual := Virtual;
        DisableEndpoint(EP_HEALTH);
      }
    }

    method FinishCycle(before: map<Key, nat>, updates: map<Key, V>, failures: map<Key, Error>, done: real)
      returns (raised: Option<Raise>, failed: set<Key>, recovered: set<Key>)
      modifies this, scheduler
      ensures Finished(Contents(), raised, failed, recovered)
              == Finish(config, old(Contents()), before, updates, failures, done)
    {
      hide Stamps, Noted, Outage, AfterHealthRead, TakesHealth;
      MarkFetched(before, updates.Keys, done);
      var outage := Outage(updates, failures);
      recovered := MarkAvailable(updates);
      failed := MarkFailed(failures, !outage);
      if outage {
        return Some(Unreachable), failed, recovered;
      }
      if data.None? && updates == map[] {
        return Some(NoData), failed, recovered;
      }
      var previous := if data.Some? then data.value else map[];
      var prepared := updates;
      if TakesSample(config.source, updates) {
        prepared := updates[EP_TRAFFIC := config.rates(sample, updates[EP_TRAFFIC])];
        sample := Some(updates[EP_TRAFFIC]);
      }
      data := Some(previous + prepared);
      AfterUpdate(updates);
      raised := None;
    }

    /** Send every request of a batch and sort the answers. */
    method Fetch(keys: set<Key>, answers: Answers<V>) returns (updates: map<Key, V>, failures: map<Key, Error>)
      ensures updates == Read(keys, answers) && failures == Failed(keys, answers)
    {
      updates, failures := map[], map[];
      var todo := keys;
      while todo != {}
        invariant todo <= keys
        invariant updates == Read(keys - todo, answers) && failures == Failed(keys - todo, answers)
      {
        var key :| key in todo;
        ghost var done := keys - todo;
        todo := todo - {key};
        assert keys - todo == done + {key};
        match answers(key) {
          case Ok(value) => updates := updates[key := value];
          case Err(error) => failures := failures[key := error];
        }
      }
      assert keys - todo == keys;
    }

    /** The XML hook: retry rejected credentials once; give up on rejected credentials or denied
        access. `c` is the batch as answered, `final` what it has become. */
    method HandleFailures(ghost c: Cycle<V>, updates0: map<Key, V>, failures0: map<Key, Error>, retry: Answers<V>)
      returns (updates: map<Key, V>, failures: map<Key, Error>, raised: Option<Raise>, retried: bool, ghost final: Cycle<V>)
      requires c.pending == {} && !c.retrying && c.updates == updates0 && c.failures == failures0
      ensures if retried
              then Settle(config.source, c).Wait? && final == DeliverAll(Settle(config.source, c).cycle, retry)
              else final == c
      ensures Settle(config.source, final) == if raised.Some? then Raised(raised.value) else AfterHandling(final)
      ensures final.pending == {} && final.updates == updates && final.failures == failures
      ensures (final.later, final.earlier, final.generation) == (c.later, c.earlier, c.generation)
      ensures retried <==> config.source == Xml && FailedWith(failures0, Auth) != {}
    {
      updates, failures, raised, retried, final := updates0, failures0, None, false, c;
      if config.source == Snmp {
        return;
      }
      var rejected := FailedWith(failures, Auth);
      if rejected != {} {
        retried := true;
        var moreUpdates, moreFailures := Fetch(rejected, retry);
        updates, failures := updates + moreUpdates, failures - rejected + moreFailures;
        final := DeliverAll(Settle(config.source, c).cycle, retry);
        StillRejected(failures0, moreFailures);
        if FailedWith(moreFailures, Auth) != {} {
          raised := Some(AuthFailed);
          return;
        }
      }
      if FailedWith(failures, Access) != {} {
        raised := Some(AccessDenied);
      }
    }

    /** All the requests of a cycle: the first batch, the endpoints held back if it brought
        nothing but errors of the API, and the retries. */
    method Batches(c: Cycle<V>, batches: seq<Answers<V>>)
      returns (updates: map<Key, V>, failures: map<Key, Error>, raised: Option<Raise>)
      requires |batches| == 4 && !c.retrying && c.updates == map[] && c.failures == map[] && c.earlier == map[]
      ensures Played(config.source, c, batches) ==
              if raised.Some? then Raised(raised.value) else Complete(updates, failures)
    {
      hide Settle, Read, Failed, FailedWith, AllConnection, Played, DeliverAll;
      updates, failures := Fetch(c.pending, batches[0]);
      ghost var answered := DeliverAll(c, batches[0]);
      FirstAnswers(c, batches[0]);
      PlayedNone(config.source, c, batches);
      PlayedOneMore(config.source, c, batches, 0);
      var retried: bool;
      ghost var final: Cycle<V>;
      updates, failures, raised, retried, final := HandleFailures(answered, updates, failures, batches[1]);
      var used := if retried then 2 else 1;
      PlayedOneMore(config.source, c, batches, 1);
      assert Played(config.source, c, batches[..used]) == Settle(config.source, final);
      if raised.Some? {
        PlayedStays(config.source, c, batches, used);
        return;
      }
      if c.later != {} && updates == map[] && !AllConnection(failures) {
        ghost var held := AfterHandling(final).cycle;
        var moreUpdates, moreFailures := Fetch(c.later, batches[used]);
        PlayedOneMore(config.source, c, batches, used);
        ghost var answeredLater := DeliverAll(held, batches[used]);
        FirstAnswers(held, batches[used]);
        var retriedLater: bool;
        moreUpdates, moreFailures, raised, retriedLater, final :=
          HandleFailures(answeredLater, moreUpdates, moreFailures, batches[used + 1]);
        PlayedOneMore(config.source, c, batches, used + 1);
        used := used + if retriedLater then 2 else 1;
        updates, failures := moreUpdates, failures + moreFailures;
      }
      assert Played(config.source, c, batches[..used]) == Settle(config.source, final);
      PlayedStays(config.source, c, batches, used);
    }

    /** One update: nothing, or a whole cycle. `disturbed` are the endpoints that other tasks
        invalidate while its requests are under way. */
    method Update(now: real, restrict: Option<set<Key>>, batches: seq<Answers<V>>, disturbed: seq<Key>, done: real)
      returns (raised: Option<Raise>, failed: set<Key>, recovered: set<Key>)
      requires Valid() && |batches| == 4
      modifies this, scheduler
      ensures var s := old(Contents());
              match Begin(config, s, now, restrict)
              case None => Contents() == s.(data := Some(Previous(s))) && raised.None?
              case Some(c) =>
                match Played(config.source, c, batches)
                case Wait(_) => false
                case Raised(r) => Contents() == Invalidated(s, disturbed) && raised == Some(r)
                case Complete(updates, failures) =>
                  Finished(Contents(), raised, failed, recovered)
                  == Finish(config, Invalidated(s, disturbed), c.generation, updates, failures, done)
    {
      hide Finish, Invalidated, Played, DueKeys;
      var cycle := BeginCycle(now, restrict);
      raised, failed, recovered := None, {}, {};
      if cycle.None? {
        data := Some(if data.Some? then data.value else map[]);
        return;
      }
      Invalidate(disturbed);
      var updates, failures;
      updates, failures, raised := Batches(cycle.value, batches);
      if raised.None? {
        raised, failed, recovered := FinishCycle(cycle.value.generation, updates, failures, done);
      }
    }
  }
}
