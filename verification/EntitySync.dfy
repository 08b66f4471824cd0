/** Keeping the entities of the dynamic families in step with the objects of the firewall. */
module EntitySync {
  import opened Wrappers

  /** One registry entry of the integration: its platform and the unique_id after the prefix of
      the config entry. */
  datatype Entity = Entity(domain: string, suffix: string)

  datatype Family = Family(prefix: string, removeStale: bool, trustEmpty: bool, confirmMissing: bool)

  /** What the coordinator shows of a family's endpoint: was the last fetch a success, the
      suffixes of the objects (None when never fetched), and the time of the fetch. */
  datatype View = View(available: bool, items: Option<seq<string>>, fetched: Option<real>)

  datatype Failure = KeyError

  /** The tables that live as long as the set-up platform. */
  datatype Tables = Tables(
    known: set<string>,
    emptyStreak: map<string, nat>,
    lastFetch: map<string, Option<real>>,
    missingStreak: map<string, nat>,
    lastMissingFetch: map<string, Option<real>>)

  /** The tables and the registry, and what the current run hands over as new entities. */
  datatype State = State(tables: Tables, registry: set<Entity>, handed: set<string>)

  // ── The steps as functions ─────────────────────────────────────────────────

  /** `dict.get` on a table whose values may be None. */
  function Get(table: map<string, Option<real>>, key: string): Option<real> {
    if key in table then table[key] else None
  }

  function Count(streaks: map<string, nat>, key: string): nat {
    if key in streaks then streaks[key] else 0
  }

  /** The registered suffixes of one family. */
  function Registered(registry: set<Entity>, domain: string, prefix: string): set<string> {
    set e | e in registry && e.domain == domain && prefix <= e.suffix :: e.suffix
  }

  /** The stale suffixes of a family. An empty result alone removes nothing. */
  function Stale(registry: set<Entity>, domain: string, prefix: string, current: set<string>, removeAll: bool): set<string> {
    if current == {} && !removeAll then {}
    else set suffix | suffix in Registered(registry, domain, prefix) && (removeAll || suffix !in current)
  }

  function Drop(registry: set<Entity>, domain: string, suffixes: set<string>): set<Entity> {
    set e | e in registry && !(e.domain == domain && e.suffix in suffixes)
  }

  /** Every absent suffix has been missing for one fetch more. */
  function CountMissing(streaks: map<string, nat>, absent: set<string>, newFetch: bool): map<string, nat> {
    if newFetch then map s | s in streaks.Keys + absent :: if s in absent then Count(streaks, s) + 1 else streaks[s]
    else streaks
  }

  function Keep(streaks: map<string, nat>, absent: set<string>): set<string> {
    set s | s in absent && Count(streaks, s) < EMPTY_CONFIRMATIONS
  }

  predicate Acts(v: View) {
    v.available && v.items.Some?
  }

  /** The empty-table streak after this reading. */
  function EmptyAfter(t: Tables, f: Family, v: View): Tables
    requires Acts(v)
  {
    if f.trustEmpty && v.items.value == [] then
      if v.fetched != Get(t.lastFetch, f.prefix) then
        t.(lastFetch := t.lastFetch[f.prefix := v.fetched],
           emptyStreak := t.emptyStreak[f.prefix := Count(t.emptyStreak, f.prefix) + 1])
      else t
    else t.(emptyStreak := t.emptyStreak - {f.prefix})
  }

  /** The lookup of the empty streak fails: a reading that counts as seen, but no streak. */
  predicate LookupFails(t: Tables, f: Family, v: View)
    requires Acts(v)
  {
    && f.trustEmpty && v.items.value == []
    && v.fetched == Get(t.lastFetch, f.prefix) && f.prefix !in t.emptyStreak
  }

  predicate RemovesAll(t: Tables, f: Family, v: View)
    requires Acts(v)
  {
    f.trustEmpty && v.items.value == [] && Count(EmptyAfter(t, f, v).emptyStreak, f.prefix) >= EMPTY_CONFIRMATIONS
  }

  function MissingAfter(t: Tables, f: Family, v: View, registered: set<string>): Tables
    requires Acts(v)
  {
    if f.confirmMissing then
      var present := SetOf(v.items.value);
      var newFetch := v.fetched != Get(t.lastMissingFetch, f.prefix);
      t.(missingStreak := CountMissing(t.missingStreak, registered - present, newFetch) - present,
         lastMissingFetch := t.lastMissingFetch[f.prefix := v.fetched])
    else t
  }

  /** The suffixes that are kept: present, or missing but not yet long enough. */
  function Current(t: Tables, f: Family, v: View, registered: set<string>): set<string>
    requires Acts(v)
  {
    var present := SetOf(v.items.value);
    if f.confirmMissing then
      present + Keep(CountMissing(t.missingStreak, registered - present, v.fetched != Get(t.lastMissingFetch, f.prefix)),
                     registered - present)
    else present
  }

  function RemovedBy(s: State, domain: string, f: Family, v: View): set<string>
    requires Acts(v)
  {
    var current := Current(s.tables, f, v, Registered(s.registry, domain, f.prefix));
    Stale(s.registry, domain, f.prefix, current, RemovesAll(s.tables, f, v))
  }

  /** One family in one run. */
  function AfterFamily(s: State, domain: string, f: Family, v: View): State {
    if !Acts(v) then s
    else
      var present := SetOf(v.items.value);
      var found := s.(tables := s.tables.(known := s.tables.known + present), handed := s.handed + Created(s.tables.known, v));
      if !f.removeStale || LookupFails(s.tables, f, v) then found
      else
        var removed := RemovedBy(s, domain, f, v);
        var counted := MissingAfter(EmptyAfter(found.tables, f, v), f, v, Registered(s.registry, domain, f.prefix));
        found.(tables := counted.(known := counted.known - removed), registry := Drop(s.registry, domain, removed))
  }

  /** The objects of a family that get a new entity. */
  function Created(known: set<string>, v: View): set<string> {
    if Acts(v) then SetOf(v.items.value) - known else {}
  }

  predicate FamilyFails(s: State, f: Family, v: View) {
    Acts(v) && f.removeStale && LookupFails(s.tables, f, v)
  }

  /** The families before the first one that fails. */
  function AfterFamilies(s: State, domain: string, families: seq<Family>, views: seq<View>): (r: (State, bool))
    requires |views| == |families|
  {
    if families == [] then (s, true)
    else
      var n := |families| - 1;
      var (front, ok) := AfterFamilies(s, domain, families[..n], views[..n]);
      if !ok then (front, false)
      else (AfterFamily(front, domain, families[n], views[n]), !FamilyFails(front, families[n], views[n]))
  }

  function Entities(domain: string, suffixes: set<string>): set<Entity> {
    set suffix | suffix in suffixes :: Entity(domain, suffix)
  }

  /** One run of the listener. New entities are handed over at the end, unless a lookup failed. */
  function AfterSync(s: State, domain: string, families: seq<Family>, views: seq<View>): (r: (State, bool))
    requires |views| == |families|
  {
    var (after, ok) := AfterFamilies(s.(handed := {}), domain, families, views);
    if ok then (after.(registry := after.registry + Entities(domain, after.handed)), true)
    else (after.(handed := {}), false)
  }

  // ── The same in place ──────────────────────────────────────────────────────

  class EntityRegistry {
    var entities: set<Entity>

    constructor (entities: set<Entity>)
      ensures this.entities == entities
    {
      this.entities := entities;
    }

    /** Take the family's entries out whose object is not among the current ones. */
    method RemoveStale(domain: string, prefix: string, current: set<string>, removeAll: bool) returns (removed: set<string>)
      modifies this
      ensures removed == Stale(old(entities), domain, prefix, current, removeAll)
      ensures entities == Drop(old(entities), domain, removed)
    {
      removed := {};
      if current == {} && !removeAll {
        return;
      }
      var todo := entities;
      while todo != {}
        invariant todo <= old(entities)
        invariant removed == set s | s in Registered(old(entities) - todo, domain, prefix) && (removeAll || s !in current)
        invariant entities == Drop(old(entities), domain, removed)
        decreases todo
      {
        var e :| e in todo;
        todo := todo - {e};
        if e.domain == domain && prefix <= e.suffix && (removeAll || e.suffix !in current) {
          entities := entities - {e};
          removed := removed + {e.suffix};
        }
      }
      assert old(entities) - todo == old(entities);
    }
  }

  class DynamicEntities {
    const domain: string
    const families: seq<Family>
    const registry: EntityRegistry
    var known: set<string>
    var emptyStreak: map<string, nat>
    var lastFetch: map<string, Option<real>>
    var missingStreak: map<string, nat>
    var lastMissingFetch: map<string, Option<real>>

    constructor (domain: string, families: seq<Family>, registry: EntityRegistry)
      ensures this.domain == domain && this.families == families && this.registry == registry
      ensures Contents({}) == State(Tables({}, map[], map[], map[], map[]), registry.entities, {})
    {
      this.domain, this.families, this.registry := domain, families, registry;
      known, emptyStreak, lastFetch, missingStreak, lastMissingFetch := {}, map[], map[], map[], map[];
    }

    ghost function Contents(handed: set<string>): State
      reads this, registry
    {
      State(Tables(known, emptyStreak, lastFetch, missingStreak, lastMissingFetch), registry.entities, handed)
    }

    /** The suffixes that are missing now but not yet for long enough. */
    method StillConfirming(family: Family, present: set<string>, fetched: Option<real>) returns (keep: set<string>)
      modifies `missingStreak, `lastMissingFetch
      ensures var absent := Registered(registry.entities, domain, family.prefix) - present;
              var counted := CountMissing(old(missingStreak), absent, fetched != Get(old(lastMissingFetch), family.prefix));
              && keep == Keep(counted, absent)
              && missingStreak == counted - present
      ensures lastMissingFetch == old(lastMissingFetch)[family.prefix := fetched]
    {
      hide Registered;
      var newFetch := fetched != Get(lastMissingFetch, family.prefix);
      lastMissingFetch := lastMissingFetch[family.prefix := fetched];
      keep := {};
      var absent := Registered(registry.entities, domain, family.prefix) - present;
      var todo := absent;
      while todo != {}
        invariant todo <= absent
        invariant missingStreak == CountMissing(old(missingStreak), absent - todo, newFetch)
        invariant keep == Keep(missingStreak, absent - todo)
        invariant lastMissingFetch == old(lastMissingFetch)[family.prefix := fetched]
        decreases todo
      {
        var suffix :| suffix in todo;
        ghost var was := absent - todo;
        todo := todo - {suffix};
        assert absent - todo == was + {suffix};
        if newFetch {
          missingStreak := missingStreak[suffix := Count(missingStreak, suffix) + 1];
        }
        if Count(missingStreak, suffix) < EMPTY_CONFIRMATIONS {
          keep := keep + {suffix};
        }
      }
      assert absent - todo == absent;
      missingStreak := missingStreak - present;
    }

    /** One family: the objects that get a new entity, or the failed lookup. */
    method SyncFamily(family: Family, view: View, ghost handed: set<string>) returns (created: Result<set<string>, Failure>)
      modifies this`known, this`emptyStreak, this`lastFetch, this`missingStreak, this`lastMissingFetch, registry
      ensures created == if FamilyFails(old(Contents(handed)), family, view) then Err(KeyError)
                         else Ok(Created(old(known), view))
      ensures Contents(handed + Created(old(known), view)) == AfterFamily(old(Contents(handed)), domain, family, view)
    {
      hide CountMissing, Keep, Stale, Drop, Registered;
      if !view.available || view.items.None? {
        return Ok({});
      }
      var items := view.items.value;
      var newEntities := {};
      for i := 0 to |items|
        modifies `known
        invariant known == old(known) + SetOf(items[..i])
        invariant newEntities == SetOf(items[..i]) - old(known)
      {
        assert items[..i + 1] == items[..i] + [items[i]];
        if items[i] !in known {
          known := known + {items[i]};
          newEntities := newEntities + {items[i]};
        }
      }
      assert items[..|items|] == items;
      if !family.removeStale {
        return Ok(newEntities);
      }
      var removeAll := false;
      if family.trustEmpty && items == [] {
        if view.fetched != Get(lastFetch, family.prefix) {
          lastFetch := lastFetch[family.prefix := view.fetched];
          emptyStreak := emptyStreak[family.prefix := Count(emptyStreak, family.prefix) + 1];
        }
        if family.prefix !in emptyStreak {
          return Err(KeyError);
        }
        removeAll := emptyStreak[family.prefix] >= EMPTY_CONFIRMATIONS;
      } else {
        emptyStreak := emptyStreak - {family.prefix};
      }
      var current := SetOf(items);
      if family.confirmMissing {
        var keep := StillConfirming(family, current, view.fetched);
        current := current + keep;
      }
      var removed := registry.RemoveStale(domain, family.prefix, current, removeAll);
      known := known - removed;
      created := Ok(newEntities);
    }

    /** One run of the listener over all families; the new entities are handed over at the end,
        or none when a lookup failed. */
    method Sync(views: seq<View>) returns (newEntities: set<string>, ok: bool)
      requires |views| == |families|
      modifies this`known, this`emptyStreak, this`lastFetch, this`missingStreak, this`lastMissingFetch, registry
      ensures (Contents(newEntities), ok) == AfterSync(old(Contents({})), domain, families, views)
    {
      newEntities := {};
      ghost var start := Contents({});
      for i := 0 to |families|
        invariant (Contents(newEntities), true) == AfterFamilies(start, domain, families[..i], views[..i])
      {
        assert families[..i + 1][..i] == families[..i] && views[..i + 1][..i] == views[..i];
        ghost var before := Contents(newEntities);
        var created := SyncFamily(families[i], views[i], newEntities);
        if created.Err? {
          FailureEnds(start, domain, families, views, i + 1);
          newEntities := {};
          return {}, false;
        }
        newEntities := newEntities + created.value;
      }
      assert families[..|families|] == families && views[..|views|] == views;
      registry.entities := registry.entities + Entities(domain, newEntities);
      ok := true;
    }
  }

  /** Nothing happens after a failed lookup. */
  lemma {:induction false} FailureEnds(s: State, domain: string, families: seq<Family>, views: seq<View>, n: nat)
    requires |views| == |families| && n <= |families| && !AfterFamilies(s, domain, families[..n], views[..n]).1
    ensures AfterFamilies(s, domain, families, views) == AfterFamilies(s, domain, families[..n], views[..n])
  {
    var m := |families| - 1;
    if n == |families| {
      assert families[..n] == families && views[..n] == views;
    } else {
      assert families[..m][..n] == families[..n] && views[..m][..n] == views[..n];
      FailureEnds(s, domain, families[..m], views[..m], n);
    }
  }
}
