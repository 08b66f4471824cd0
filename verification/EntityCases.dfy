/** A run of the coordinator on which the listener's lookup fails: the tunnels of the firewall come
    and go while an IPsec switch is written during every re-read. */
module EntityCases {
  import opened Wrappers
  import Scheduling
  import opened Coordinators
  import opened Switches
  import opened EntityReadings
  import Sync = EntitySync
  import Families = EntityFamilies
  import Lives = EntityRuns

  const TUNNELS: Key := "tunnels"
  const SWITCH := "ipsec"
  const VPN := Sync.Family("vpn_", true, true, false)
  const UP: Firewall := map[TUNNELS := map["a" := true]]
  const DOWN: Firewall := map[]

  function AsRead(sample: Option<Reading>, r: Reading): Reading { r }

  function NoSensors(r: Reading): bool { false }

  /** The SNMP source with the tunnels as its only endpoint, and one switch on them. */
  const SETUP := Setup(
    Config(Snmp, [Endpoint(TUNNELS, Scheduling.Fast)], {TUNNELS}, Scheduling.Intervals(30, 60, 600, 1800), AsRead, NoSensors),
    map[SWITCH := Place(TUNNELS, "a")])

  function VpnItems(r: Reading): seq<string> {
    if "a" in r.table then ["vpn_a"] else []
  }

  // ── The pieces of a cycle ──────────────────────────────────────────────────

  /** No cycle runs, and the tunnels are due. */
  predicate Ready(w: World) {
    && WellFormed(w) && w.cycle.None? && SWITCH in w.switches
    && TUNNELS !in w.coord.last && TUNNELS !in w.coord.disabled
  }

  /** A cycle reads the tunnels; it began in a state with these generations. */
  predicate Reading_(w: World, generation: map<Key, nat>) {
    && WellFormed(w) && w.cycle == Some(StartBatch(generation, {TUNNELS}, {})) && SWITCH in w.switches
    && TUNNELS !in w.coord.last && TUNNELS !in w.coord.disabled
  }

  lemma Begins(w: World)
    requires Ready(w)
    ensures var m := Next(SETUP, w, BeginCycle(None));
            Reading_(m, w.coord.generation) && m.coord == w.coord && m.clock == w.clock
  {
    var ep := Endpoint(TUNNELS, Scheduling.Fast);
    assert ep in SETUP.config.endpoints && EndpointDue(SETUP.config, w.coord, ep, w.clock);
    assert DueKeys(SETUP.config, w.coord, w.clock) == {TUNNELS};
  }

  lemma IsWritten(w: World)
    requires WellFormed(w) && SWITCH in w.switches
    ensures var m := Next(SETUP, w, WriteConfirmed(SWITCH, true));
            && m.cycle == w.cycle && SWITCH in m.switches && m.clock == w.clock && WellFormed(m)
            && m.coord == w.coord.(last := m.coord.last, generation := m.coord.generation)
            && TUNNELS !in m.coord.last
            && !Undisturbed(w.coord.generation, m.coord.generation, TUNNELS)
  {
    assert [TUNNELS][..0] == [];
    assert Invalidated(w.coord, []) == w.coord;
    var t := Invalidated(w.coord, [TUNNELS]);
    assert t == w.coord.(last := w.coord.last - {TUNNELS}, generation := Bump(w.coord.generation, TUNNELS));
  }

  lemma Changes(w: World, fw: Firewall)
    requires WellFormed(w)
    ensures Next(SETUP, w, Change(fw)) == w.(history := w.history + [fw])
  {
  }

  /** The tunnels are read while the firewall has this table. */
  lemma IsAnswered(w: World, generation: map<Key, nat>, fw: Firewall) returns (r: Reading)
    requires Reading_(w, generation) && Current(w) == fw
    ensures var m := Next(SETUP, w, Answer(TUNNELS, None));
            && m.cycle == Some(StartBatch(generation, {}, {}).(updates := map[TUNNELS := r]))
            && m.coord == w.coord && m.clock == w.clock && SWITCH in m.switches && WellFormed(m)
    ensures r.table == TableOf(fw, TUNNELS)
  {
    var l := Later(w);
    r := Reading(TableOf(fw, TUNNELS), l.began, Now(l));
    assert Switches.Answered(l, TUNNELS, None) == Ok(r);
    assert {TUNNELS} - {TUNNELS} == {};
  }

  predicate Shows(w: World, fw: Firewall) {
    && DataAt(w, TUNNELS).Some? && DataAt(w, TUNNELS).value.table == TableOf(fw, TUNNELS)
    && TUNNELS in w.coord.ok && w.coord.ok[TUNNELS]
  }

  lemma Merges(w: World, generation: map<Key, nat>, r: Reading, fw: Firewall)
    requires WellFormed(w) && SWITCH in w.switches && TUNNELS !in w.coord.disabled && r.table == TableOf(fw, TUNNELS)
    requires w.cycle == Some(StartBatch(generation, {}, {}).(updates := map[TUNNELS := r]))
    ensures var m := Next(SETUP, w, Resume);
            && m.cycle.None? && WellFormed(m) && SWITCH in m.switches && TUNNELS !in m.coord.disabled && Shows(m, fw)
            && var stamped := Undisturbed(generation, w.coord.generation, TUNNELS);
            && FetchedAt(m, TUNNELS) == (if stamped then Some(w.clock) else FetchedAt(w, TUNNELS))
            && Lookup(m.coord.last, TUNNELS) == (if stamped then Some(w.clock) else Lookup(w.coord.last, TUNNELS))
            && m.clock == w.clock
  {
    hide Finish, Settle, Undisturbed, Judged, Noted, StartBatch;
    var l, c := Later(w), w.cycle.value;
    NothingPending(generation, r);
    IsComplete(c, generation, r);
    EndsWith(l.coord, generation, r, l.clock);
  }

  lemma IsComplete(c: Cycle<Reading>, generation: map<Key, nat>, r: Reading)
    requires c == StartBatch(generation, {}, {}).(updates := map[TUNNELS := r])
    ensures c.generation == generation && c.pending == {}
    ensures Settle(Snmp, c) == Complete(map[TUNNELS := r], map[])
  {
    var none: map<Key, Error> := map[];
    assert none + none == none;
  }

  lemma EndsWith(s: State<Reading>, generation: map<Key, nat>, r: Reading, now: real)
    ensures var t := Finish(SETUP.config, s, generation, map[TUNNELS := r], map[], now).state;
            && t.disabled == s.disabled && Lookup(Previous(t), TUNNELS) == Some(r)
            && TUNNELS in t.ok && t.ok[TUNNELS]
            && var stamped := Undisturbed(generation, s.generation, TUNNELS);
            && Lookup(t.fetchedAt, TUNNELS) == (if stamped then Some(now) else Lookup(s.fetchedAt, TUNNELS))
            && Lookup(t.last, TUNNELS) == (if stamped then Some(now) else Lookup(s.last, TUNNELS))
  {
    var updates := map[TUNNELS := r];
    assert TUNNELS in updates && updates != map[];
    FinishForOne(SETUP.config, s, generation, updates, map[], now, TUNNELS);
    assert !TakesHealth(Snmp, updates);
    hide Undisturbed, Stamps;
  }

  // ── Whole cycles ───────────────────────────────────────────────────────────

  /** The worlds of a cycle that reads this firewall while the switch is written. */
  lemma DisturbedCycle(w: World, fw: Firewall) returns (worlds: seq<World>, events: seq<Event>)
    requires Ready(w)
    ensures Run(SETUP, worlds, events) && |events| > 0 && |worlds| == |events| + 1 && worlds[0] == w
    ensures var m := worlds[|events|];
            Ready(m) && Shows(m, fw) && FetchedAt(m, TUNNELS) == FetchedAt(w, TUNNELS) && m.clock == w.clock
  {
    hide Next, StartBatch, Undisturbed, Shows;
    var g := w.coord.generation;
    Begins(w);
    var w1 := Next(SETUP, w, BeginCycle(None));
    IsWritten(w1);
    var w2 := Next(SETUP, w1, WriteConfirmed(SWITCH, true));
    Changes(w2, fw);
    var w3 := Next(SETUP, w2, Change(fw));
    assert Reading_(w3, g) && Current(w3) == fw;
    var r := IsAnswered(w3, g, fw);
    assert Possible(SETUP, w3, Answer(TUNNELS, None)) by {
      TunnelsPending(g);
    }
    var w4 := Next(SETUP, w3, Answer(TUNNELS, None));
    assert Possible(SETUP, w4, Resume) by {
      NothingPending(g, r);
    }
    Merges(w4, g, r, fw);
    var w5 := Next(SETUP, w4, Resume);
    worlds := [w, w1, w2, w3, w4, w5];
    events := [BeginCycle(None), WriteConfirmed(SWITCH, true), Change(fw), Answer(TUNNELS, None), Resume];
  }

  lemma NothingPending(g: map<Key, nat>, r: Reading)
    ensures StartBatch(g, {}, {}).(updates := map[TUNNELS := r]).pending == {}
  {
  }

  lemma TunnelsPending(g: map<Key, nat>)
    ensures TUNNELS in StartBatch<Reading>(g, {TUNNELS}, {}).pending
  {
  }

  /** The worlds of an undisturbed cycle, and of a write after it. */
  lemma CountedCycle(w: World, fw: Firewall) returns (worlds: seq<World>, events: seq<Event>)
    requires Ready(w)
    ensures Run(SETUP, worlds, events) && |events| > 0 && |worlds| == |events| + 1 && worlds[0] == w
    ensures var m := worlds[|events|];
            Ready(m) && Shows(m, fw) && FetchedAt(m, TUNNELS) == Some(w.clock) && m.clock == w.clock
  {
    hide Next, StartBatch;
    var g := w.coord.generation;
    Begins(w);
    var w1 := Next(SETUP, w, BeginCycle(None));
    Changes(w1, fw);
    var w2 := Next(SETUP, w1, Change(fw));
    assert Reading_(w2, g) && Current(w2) == fw;
    var r := IsAnswered(w2, g, fw);
    assert Possible(SETUP, w2, Answer(TUNNELS, None)) by {
      TunnelsPending(g);
    }
    var w3 := Next(SETUP, w2, Answer(TUNNELS, None));
    assert Possible(SETUP, w3, Resume) by {
      NothingPending(g, r);
    }
    Merges(w3, g, r, fw);
    var w4 := Next(SETUP, w3, Resume);
    IsWritten(w4);
    var w5 := Next(SETUP, w4, WriteConfirmed(SWITCH, true));
    worlds := [w, w1, w2, w3, w4, w5];
    events := [BeginCycle(None), Change(fw), Answer(TUNNELS, None), Resume, WriteConfirmed(SWITCH, true)];
  }

  lemma Joined(setup: Setup, worlds: seq<World>, events: seq<Event>, moreWorlds: seq<World>, moreEvents: seq<Event>)
    requires Run(setup, worlds, events) && Run(setup, moreWorlds, moreEvents)
    requires |worlds| == |events| + 1 && |moreWorlds| == |moreEvents| + 1 && worlds[|events|] == moreWorlds[0]
    ensures Run(setup, worlds + moreWorlds[1..], events + moreEvents)
    ensures forall k :: 0 <= k <= |moreEvents| ==> (worlds + moreWorlds[1..])[|events| + k] == moreWorlds[k]
    ensures forall k :: 0 <= k <= |events| ==> (worlds + moreWorlds[1..])[k] == worlds[k]
  {
    hide Next, Possible;
    var all, n := worlds + moreWorlds[1..], |events|;
    assert forall k :: 0 <= k <= |moreEvents| ==> all[n + k] == moreWorlds[k];
    forall i | 0 <= i < |events + moreEvents|
      ensures Possible(setup, all[i], (events + moreEvents)[i]) && all[i + 1] == Next(setup, all[i], (events + moreEvents)[i])
    {
      if i >= n {
        assert all[i] == moreWorlds[i - n] && all[i + 1] == moreWorlds[i - n + 1];
      }
    }
  }

  // ── What the listener makes of it ───────────────────────────────────────────

  function UpView(time: real): Sync.View {
    Sync.View(true, Some(["vpn_a"]), Some(time))
  }

  function DownView(time: real): Sync.View {
    Sync.View(true, Some([]), Some(time))
  }

  lemma ShownView(w: World, time: real)
    requires FetchedAt(w, TUNNELS) == Some(time)
    ensures Shows(w, UP) ==> ViewOf(w, TUNNELS, VpnItems) == UpView(time)
    ensures Shows(w, DOWN) ==> ViewOf(w, TUNNELS, VpnItems) == DownView(time)
  {
  }

  function Calls(views: seq<Sync.View>): seq<Lives.Event> {
    seq(|views|, i requires 0 <= i < |views| => Lives.Listener([views[i]]))
  }

  /** The listener's run on the last of these views, after runs on the others, is completed. */
  ghost predicate CompletedOn(views: seq<Sync.View>, n: nat)
    requires n < |views|
  {
    Sync.AfterSync(Lives.Run({}, "binary_sensor", [VPN], Calls(views[..n])), "binary_sensor", [VPN], [views[n]]).1
  }

  lemma CompletedExactly(views: seq<Sync.View>, n: nat)
    requires n < |views| && forall i :: 0 <= i < |views| ==> views[i].items == Some([]) || views[i].items == Some(["vpn_a"])
    ensures CompletedOn(views, n) <==> !Lives.FailsOn(VPN, Lives.Seen([VPN], Calls(views[..n]), 0), views[n])
  {
    assert "vpn_" <= "vpn_a";
    assert Families.Isolated([VPN]);
    assert forall i :: 0 <= i < |views| ==> Families.AllFit([VPN], [views[i]]);
    Lives.ListenerFailsExactly({}, "binary_sensor", [VPN], Calls(views[..n]), [views[n]]);
  }

  lemma OneMoreCall(views: seq<Sync.View>, n: nat)
    requires n < |views| && Sync.Acts(views[n])
    ensures Lives.Seen([VPN], Calls(views[..n + 1]), 0) ==
            if Lives.FailsOn(VPN, Lives.Seen([VPN], Calls(views[..n]), 0), views[n]) then Lives.Seen([VPN], Calls(views[..n]), 0)
            else Lives.Seen([VPN], Calls(views[..n]), 0) + [views[n]]
  {
    assert Calls(views[..n + 1]) == Calls(views[..n]) + [Lives.Listener([views[n]])];
    Lives.OneMoreSeen([VPN], Calls(views[..n]), Lives.Listener([views[n]]), 0);
  }

  /** With, without, with and without tunnels under one time: the fourth run fails. */
  lemma FourViews(time: real)
    ensures var views := [UpView(time), DownView(time), UpView(time), DownView(time)];
            CompletedOn(views, 0) && CompletedOn(views, 1) && CompletedOn(views, 2) && !CompletedOn(views, 3)
  {
    var views := [UpView(time), DownView(time), UpView(time), DownView(time)];
    hide CompletedOn, Lives.Seen;
    assert views[..0] == [] && Calls(views[..0]) == [];
    NothingSeen();
    CompletedExactly(views, 0);
    OneMoreCall(views, 0);
    assert Lives.Seen([VPN], Calls(views[..1]), 0) == [views[0]];
    CompletedExactly(views, 1);
    NotEmptyYet(views[0]);
    OneMoreCall(views, 1);
    assert Lives.Seen([VPN], Calls(views[..2]), 0) == [views[0], views[1]];
    CompletedExactly(views, 2);
    OneMoreCall(views, 2);
    assert Lives.Seen([VPN], Calls(views[..3]), 0) == [views[0], views[1], views[2]];
    CompletedExactly(views, 3);
    EmptyBefore(views[0], views[1], views[2]);
  }

  lemma NothingSeen()
    ensures Lives.Seen([VPN], [], 0) == []
  {
  }

  lemma NotEmptyYet(v: Sync.View)
    requires !Lives.IsEmpty(v)
    ensures Lives.LatestEmpty([v]) == None
  {
  }

  lemma EmptyBefore(u: Sync.View, v: Sync.View, w: Sync.View)
    requires Lives.IsEmpty(v) && !Lives.IsEmpty(w)
    ensures Lives.LatestEmpty([u, v, w]) == v.fetched && !Lives.HasNewlyEmpty([u, v, w])
  {
    var views := [u, v, w];
    assert views[..2] == [u, v] && views[2] == w;
    assert Lives.LatestEmpty([u, v]) == v.fetched;
    forall i: nat | i < 3 ensures !Lives.EmptySince(views, i) {
      assert !Lives.IsEmpty(views[2]);
    }
  }

  lemma StartIsReady()
    ensures Ready(Initial(SETUP, DOWN, 0.0)) && Initial(SETUP, DOWN, 0.0).clock == 0.0
  {
  }

  /** What the listener finds in these worlds of a run. */
  function ViewsAt(worlds: seq<World>, at: seq<nat>): (views: seq<Sync.View>)
    requires forall k :: 0 <= k < |at| ==> at[k] < |worlds|
    ensures |views| == |at|
  {
    seq(|at|, k requires 0 <= k < |at| => ViewOf(worlds[at[k]], TUNNELS, VpnItems))
  }

  /** A run of the whole system from its start, with an IPsec switch that is written during three
      re-reads: the views of four worlds of this run make the listener fail. */
  lemma FlappingTunnelsFail() returns (worlds: seq<World>, events: seq<Event>, at: seq<nat>)
    ensures Run(SETUP, worlds, events) && |worlds| == |events| + 1 && worlds[0] == Initial(SETUP, DOWN, 0.0)
    ensures |at| == 4 && 0 < at[0] < at[1] < at[2] < at[3] < |worlds|
    ensures var views := ViewsAt(worlds, at);
            CompletedOn(views, 0) && CompletedOn(views, 1) && CompletedOn(views, 2) && !CompletedOn(views, 3)
  {
    hide Run, Ready, Shows, Initial, CompletedOn, ViewOf;
    StartIsReady();
    var w0, e0 := CountedCycle(Initial(SETUP, DOWN, 0.0), UP);
    var w1, e1 := DisturbedCycle(w0[|e0|], DOWN);
    var w2, e2 := DisturbedCycle(w1[|e1|], UP);
    var w3, e3 := DisturbedCycle(w2[|e2|], DOWN);
    Joined(SETUP, w0, e0, w1, e1);
    var w01, e01 := w0 + w1[1..], e0 + e1;
    Joined(SETUP, w01, e01, w2, e2);
    var w02, e02 := w01 + w2[1..], e01 + e2;
    Joined(SETUP, w02, e02, w3, e3);
    worlds, events := w02 + w3[1..], e02 + e3;
    at := [|e0|, |e01|, |e02|, |events|];
    assert worlds[at[0]] == w0[|e0|] && worlds[at[1]] == w1[|e1|] && worlds[at[2]] == w2[|e2|] && worlds[at[3]] == w3[|e3|];
    ShownView(worlds[at[0]], 0.0);
    ShownView(worlds[at[1]], 0.0);
    ShownView(worlds[at[2]], 0.0);
    ShownView(worlds[at[3]], 0.0);
    FourViews(0.0);
    assert ViewsAt(worlds, at) == [UpView(0.0), DownView(0.0), UpView(0.0), DownView(0.0)];
  }
}
