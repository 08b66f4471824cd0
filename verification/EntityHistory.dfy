/** The counters of a family against the plain history of what was read. */
module EntityHistory {
  import opened Wrappers
  import opened EntitySync

  // ── The history of one family ──────────────────────────────────────────────

  /** One successful fetch: the suffixes it brought and its time. */
  datatype Reading = Reading(items: set<string>, stamp: real)

  function Last(readings: seq<Reading>): Reading
    requires readings != []
  {
    readings[|readings| - 1]
  }

  /** A run of the listener for a fetch that was seen before adds nothing to the history. */
  function Read(readings: seq<Reading>, v: View): seq<Reading> {
    if !Acts(v) || v.fetched.None? || (readings != [] && Last(readings).stamp == v.fetched.value) then readings
    else readings + [Reading(SetOf(v.items.value), v.fetched.value)]
  }

  /** Every applied reading has its own, later time; the listener may run again for the same
      reading. */
  predicate Stamped(readings: seq<Reading>, v: View) {
    Acts(v) ==>
      && v.fetched.Some?
      && (readings != [] ==>
            && v.fetched.value >= Last(readings).stamp
            && (v.fetched.value == Last(readings).stamp ==> SetOf(v.items.value) == Last(readings).items))
  }

  /** In how many of the latest readings the object was absent without a break. */
  function Absences(readings: seq<Reading>, x: string): (n: nat)
    ensures n <= |readings|
    ensures forall i :: |readings| - n <= i < |readings| ==> x !in readings[i].items
    ensures n < |readings| ==> x in readings[|readings| - n - 1].items
  {
    if readings == [] || x in Last(readings).items then 0 else 1 + Absences(readings[..|readings| - 1], x)
  }

  /** How many of the latest readings were empty without a break. */
  function EmptyReadings(readings: seq<Reading>): (n: nat)
    ensures n <= |readings|
    ensures forall i :: |readings| - n <= i < |readings| ==> readings[i].items == {}
    ensures n < |readings| ==> readings[|readings| - n - 1].items != {}
  {
    if readings == [] || Last(readings).items != {} then 0 else 1 + EmptyReadings(readings[..|readings| - 1])
  }

  predicate Fits(f: Family, v: View) {
    v.items.Some? ==> forall item :: item in v.items.value ==> f.prefix <= item
  }

  /** What the family's description says about when an absent object loses its entity. `others`
      are the registered suffixes of the family. */
  predicate Due(f: Family, others: set<string>, readings: seq<Reading>, x: string)
    requires readings != []
  {
    && f.removeStale && x !in Last(readings).items
    && if f.confirmMissing then
         && Absences(readings, x) >= 3
         && (f.trustEmpty || Last(readings).items != {} || exists y :: y in others && Absences(readings, y) < 3)
       else if f.trustEmpty then Last(readings).items != {} || EmptyReadings(readings) >= 3
       else Last(readings).items != {}
  }

  // ── What every run keeps ───────────────────────────────────────────────────

  ghost predicate KnownAreRegistered(s: State, domain: string, f: Family) {
    forall x :: x in s.tables.known && f.prefix <= x ==> Entity(domain, x) in s.registry
  }

  ghost predicate EmptyCounted(s: State, f: Family, readings: seq<Reading>) {
    f.trustEmpty ==>
      && Count(s.tables.emptyStreak, f.prefix) == EmptyReadings(readings)
      && (f.prefix in s.tables.emptyStreak <==> EmptyReadings(readings) > 0)
      && (readings == [] ==> Get(s.tables.lastFetch, f.prefix).None?)
      && (readings != [] && Get(s.tables.lastFetch, f.prefix).Some? ==>
            Get(s.tables.lastFetch, f.prefix).value <= Last(readings).stamp)
      && (EmptyReadings(readings) > 0 ==> Get(s.tables.lastFetch, f.prefix) == Some(Last(readings).stamp))
  }

  ghost predicate AbsenceCounted(s: State, domain: string, f: Family, readings: seq<Reading>) {
    f.confirmMissing ==>
      && Get(s.tables.lastMissingFetch, f.prefix) == (if readings == [] then None else Some(Last(readings).stamp))
      && (forall x :: x in Registered(s.registry, domain, f.prefix) ==>
            Count(s.tables.missingStreak, x) == Absences(readings, x))
  }

  /** An object of a recent reading has its entity. */
  ghost predicate RecentAreRegistered(s: State, domain: string, f: Family, readings: seq<Reading>) {
    f.confirmMissing ==>
      forall x :: f.prefix <= x && Absences(readings, x) < |readings| && Absences(readings, x) < 3 ==>
        Entity(domain, x) in s.registry
  }

  /** No removal is overdue. */
  ghost predicate NoneOverdue(s: State, domain: string, f: Family, readings: seq<Reading>) {
    f.confirmMissing && f.trustEmpty ==>
      forall x :: x in Registered(s.registry, domain, f.prefix) ==> Absences(readings, x) < 3
  }

  ghost predicate ReadingsFit(f: Family, readings: seq<Reading>) {
    forall i, x :: 0 <= i < |readings| && x in readings[i].items ==> f.prefix <= x
  }

  ghost predicate Faithful(s: State, domain: string, f: Family, readings: seq<Reading>) {
    && f.removeStale && ReadingsFit(f, readings)
    && KnownAreRegistered(s, domain, f)
    && EmptyCounted(s, f, readings)
    && AbsenceCounted(s, domain, f, readings)
    && RecentAreRegistered(s, domain, f, readings)
    && NoneOverdue(s, domain, f, readings)
  }

  // ── One reading more ───────────────────────────────────────────────────────

  lemma ReadCounts(readings: seq<Reading>, v: View, x: string)
    requires Acts(v) && Stamped(readings, v)
    ensures var more := Read(readings, v);
            && more != [] && Last(more) == Reading(SetOf(v.items.value), v.fetched.value)
            && Absences(more, x) == (if x in SetOf(v.items.value) then 0
                                     else if more == readings then Absences(readings, x) else Absences(readings, x) + 1)
            && EmptyReadings(more) == (if v.items.value != [] then 0
                                       else if more == readings then EmptyReadings(readings) else EmptyReadings(readings) + 1)
            && (more == readings <==> readings != [] && Last(readings).stamp == v.fetched.value)
  {
    var more := Read(readings, v);
    if more != readings {
      assert more[..|more| - 1] == readings;
    }
    if v.items.value != [] {
      assert v.items.value[0] in SetOf(v.items.value);
    }
  }

  /** The lookup of the streak never fails, and the streak is the number of empty readings. */
  lemma EmptyStaysCounted(s: State, domain: string, f: Family, readings: seq<Reading>, v: View)
    requires Acts(v) && Stamped(readings, v) && EmptyCounted(s, f, readings) && f.trustEmpty
    ensures !LookupFails(s.tables, f, v)
    ensures EmptyCounted(s.(tables := EmptyAfter(s.tables, f, v)), f, Read(readings, v))
    ensures RemovesAll(s.tables, f, v) <==> v.items.value == [] && EmptyReadings(Read(readings, v)) >= 3
  {
    ReadCounts(readings, v, "");
  }

  lemma AbsenceAfter(s: State, domain: string, f: Family, readings: seq<Reading>, v: View, x: string)
    requires Acts(v) && Stamped(readings, v) && AbsenceCounted(s, domain, f, readings) && f.confirmMissing
    requires x in Registered(s.registry, domain, f.prefix)
    ensures var absent := Registered(s.registry, domain, f.prefix) - SetOf(v.items.value);
            var counted := CountMissing(s.tables.missingStreak, absent, v.fetched != Get(s.tables.lastMissingFetch, f.prefix));
            x !in SetOf(v.items.value) ==> Count(counted, x) == Absences(Read(readings, v), x)
  {
  }

  /** The entities that are kept: of present objects, and of those not absent for long enough. */
  lemma CurrentIs(s: State, domain: string, f: Family, readings: seq<Reading>, v: View, x: string)
    requires Acts(v) && Stamped(readings, v) && AbsenceCounted(s, domain, f, readings)
    ensures var registered := Registered(s.registry, domain, f.prefix);
            x in Current(s.tables, f, v, registered) <==>
              || x in SetOf(v.items.value)
              || (f.confirmMissing && x in registered && Absences(Read(readings, v), x) < 3)
  {
  }

  /** Some object of the last non-empty reading is absent for exactly the empty readings since. */
  lemma SomeRecentObject(readings: seq<Reading>) returns (y: string)
    requires EmptyReadings(readings) < |readings|
    ensures y in readings[|readings| - EmptyReadings(readings) - 1].items
    ensures Absences(readings, y) <= EmptyReadings(readings)
  {
    var i := |readings| - EmptyReadings(readings) - 1;
    y :| y in readings[i].items;
  }

  /** Nothing current means nothing to keep: with `trust_empty` and `confirm_missing` the guard
      against an empty result stops no removal that is due. */
  lemma GuardStopsNothingDue(s: State, domain: string, f: Family, readings: seq<Reading>, v: View, x: string)
    requires Acts(v) && Stamped(readings, v) && Fits(f, v) && Faithful(s, domain, f, readings)
    requires f.trustEmpty && f.confirmMissing && x in Registered(s.registry, domain, f.prefix)
    requires Absences(Read(readings, v), x) >= 3
    ensures Current(s.tables, f, v, Registered(s.registry, domain, f.prefix)) != {} || RemovesAll(s.tables, f, v)
  {
    var more := Read(readings, v);
    EmptyStaysCounted(s, domain, f, readings, v);
    ReadCounts(readings, v, x);
    if v.items.value != [] {
      CurrentIs(s, domain, f, readings, v, v.items.value[0]);
    } else if EmptyReadings(more) < 3 {
      assert |more| >= 3;
      var y := SomeRecentObject(more);
      ReadCounts(readings, v, y);
      CurrentIs(s, domain, f, readings, v, y);
      assert y in Registered(s.registry, domain, f.prefix) by {
        assert Entity(domain, y) in s.registry;
      }
    }
  }

  // ── The removals of one run ────────────────────────────────────────────────

  /** A run of the listener for this family only. */
  function SyncAlone(s: State, domain: string, f: Family, v: View): State {
    var after := AfterFamily(s.(handed := {}), domain, f, v);
    after.(registry := after.registry + Entities(domain, after.handed))
  }

  lemma RemovesExactlyDue(s: State, domain: string, f: Family, readings: seq<Reading>, v: View, x: string)
    requires Acts(v) && Stamped(readings, v) && Fits(f, v) && Faithful(s, domain, f, readings)
    requires x in Registered(s.registry, domain, f.prefix)
    ensures x in RemovedBy(s, domain, f, v) <==>
            Due(f, Registered(s.registry, domain, f.prefix), Read(readings, v), x)
  {
    var registered, more := Registered(s.registry, domain, f.prefix), Read(readings, v);
    ReadCounts(readings, v, x);
    CurrentIs(s, domain, f, readings, v, x);
    if f.trustEmpty {
      EmptyStaysCounted(s, domain, f, readings, v);
    }
    if f.trustEmpty && f.confirmMissing {
      if Absences(more, x) >= 3 {
        GuardStopsNothingDue(s, domain, f, readings, v, x);
      }
    } else {
      CurrentIsEmpty(s, domain, f, readings, v);
    }
  }

  /** When the guard stops a removal. */
  lemma CurrentIsEmpty(s: State, domain: string, f: Family, readings: seq<Reading>, v: View)
    requires Acts(v) && Stamped(readings, v) && AbsenceCounted(s, domain, f, readings)
    ensures var registered := Registered(s.registry, domain, f.prefix);
            Current(s.tables, f, v, registered) == {} <==>
              v.items.value == [] &&
              (f.confirmMissing ==> forall y :: y in registered ==> Absences(Read(readings, v), y) >= 3)
  {
    var registered := Registered(s.registry, domain, f.prefix);
    var current := Current(s.tables, f, v, registered);
    if v.items.value != [] {
      CurrentIs(s, domain, f, readings, v, v.items.value[0]);
    }
    forall y | y in registered
      ensures y in current <==>
                y in SetOf(v.items.value) || (f.confirmMissing && Absences(Read(readings, v), y) < 3)
    {
      CurrentIs(s, domain, f, readings, v, y);
    }
    assert current <= registered + SetOf(v.items.value);
  }

  /** After a run, exactly the objects whose removal was due have lost their entity, and every
      object of the reading has one. */
  lemma RegisteredAfter(s: State, domain: string, f: Family, readings: seq<Reading>, v: View, x: string)
    requires Acts(v) && Stamped(readings, v) && Fits(f, v) && Faithful(s, domain, f, readings) && f.prefix <= x
    ensures Entity(domain, x) in SyncAlone(s, domain, f, v).registry <==>
              || x in SetOf(v.items.value)
              || (Entity(domain, x) in s.registry
                  && !Due(f, Registered(s.registry, domain, f.prefix), Read(readings, v), x))
  {
    ReadCounts(readings, v, x);
    NoLookupFails(s, domain, f, readings, v);
    if x in Registered(s.registry, domain, f.prefix) {
      RemovesExactlyDue(s, domain, f, readings, v, x);
    }
    RegistryAfter(s, domain, f, v, x);
  }

  lemma NoLookupFails(s: State, domain: string, f: Family, readings: seq<Reading>, v: View)
    requires Acts(v) && Stamped(readings, v) && EmptyCounted(s, f, readings)
    ensures !LookupFails(s.tables, f, v)
  {
  }

  lemma RegistryAfter(s: State, domain: string, f: Family, v: View, x: string)
    requires Acts(v) && f.removeStale && !LookupFails(s.tables, f, v) && Fits(f, v) && f.prefix <= x
    requires KnownAreRegistered(s, domain, f)
    ensures Entity(domain, x) in SyncAlone(s, domain, f, v).registry <==>
              || x in SetOf(v.items.value)
              || (Entity(domain, x) in s.registry && x !in RemovedBy(s, domain, f, v))
  {
  }

  // ── Every run keeps the tables faithful ─────────────────────────────────────

  lemma TablesAfter(s: State, domain: string, f: Family, v: View)
    requires Acts(v) && f.removeStale && !LookupFails(s.tables, f, v)
    ensures var t := SyncAlone(s, domain, f, v).tables;
            && t.known == s.tables.known + SetOf(v.items.value) - RemovedBy(s, domain, f, v)
            && t.emptyStreak == EmptyAfter(s.tables, f, v).emptyStreak
            && t.lastFetch == EmptyAfter(s.tables, f, v).lastFetch
            && t.missingStreak == MissingAfter(s.tables, f, v, Registered(s.registry, domain, f.prefix)).missingStreak
            && t.lastMissingFetch == MissingAfter(s.tables, f, v, Registered(s.registry, domain, f.prefix)).lastMissingFetch
  {
    hide CountMissing, Current, Stale, Registered, RemovesAll;
  }

  lemma KnownStayRegistered(s: State, domain: string, f: Family, readings: seq<Reading>, v: View)
    requires Acts(v) && Stamped(readings, v) && Fits(f, v) && Faithful(s, domain, f, readings)
    ensures KnownAreRegistered(SyncAlone(s, domain, f, v), domain, f)
  {
    NoLookupFails(s, domain, f, readings, v);
    TablesAfter(s, domain, f, v);
    forall x | x in SyncAlone(s, domain, f, v).tables.known && f.prefix <= x
      ensures Entity(domain, x) in SyncAlone(s, domain, f, v).registry
    {
      RegistryAfter(s, domain, f, v, x);
    }
  }

  lemma AbsenceStaysCounted(s: State, domain: string, f: Family, readings: seq<Reading>, v: View)
    requires Acts(v) && Stamped(readings, v) && Fits(f, v) && Faithful(s, domain, f, readings)
    ensures AbsenceCounted(SyncAlone(s, domain, f, v), domain, f, Read(readings, v))
  {
    if f.confirmMissing {
      var after, more := SyncAlone(s, domain, f, v), Read(readings, v);
      NoLookupFails(s, domain, f, readings, v);
      TablesAfter(s, domain, f, v);
      ReadCounts(readings, v, "");
      forall x | x in Registered(after.registry, domain, f.prefix)
        ensures Count(after.tables.missingStreak, x) == Absences(more, x)
      {
        ReadCounts(readings, v, x);
        RegistryAfter(s, domain, f, v, x);
        if x !in SetOf(v.items.value) {
          AbsenceAfter(s, domain, f, readings, v, x);
        }
      }
    }
  }

  lemma RecentStayRegistered(s: State, domain: string, f: Family, readings: seq<Reading>, v: View)
    requires Acts(v) && Stamped(readings, v) && Fits(f, v) && Faithful(s, domain, f, readings)
    ensures RecentAreRegistered(SyncAlone(s, domain, f, v), domain, f, Read(readings, v))
    ensures NoneOverdue(SyncAlone(s, domain, f, v), domain, f, Read(readings, v))
  {
    var after, more := SyncAlone(s, domain, f, v), Read(readings, v);
    if f.confirmMissing {
      forall x | f.prefix <= x
        ensures Absences(more, x) < |more| && Absences(more, x) < 3 ==> Entity(domain, x) in after.registry
        ensures f.trustEmpty && Entity(domain, x) in after.registry ==> Absences(more, x) < 3
      {
        ReadCounts(readings, v, x);
        RegisteredAfter(s, domain, f, readings, v, x);
      }
    }
  }

  lemma ReadingsStillFit(f: Family, readings: seq<Reading>, v: View)
    requires ReadingsFit(f, readings) && Fits(f, v)
    ensures ReadingsFit(f, Read(readings, v))
  {
  }

  lemma EmptyCountedAfter(s: State, domain: string, f: Family, readings: seq<Reading>, v: View)
    requires Acts(v) && Stamped(readings, v) && Fits(f, v) && Faithful(s, domain, f, readings)
    ensures EmptyCounted(SyncAlone(s, domain, f, v), f, Read(readings, v))
  {
    if f.trustEmpty {
      EmptyStaysCounted(s, domain, f, readings, v);
      TablesAfter(s, domain, f, v);
    }
  }

  lemma SyncStaysFaithful(s: State, domain: string, f: Family, readings: seq<Reading>, v: View)
    requires Stamped(readings, v) && Fits(f, v) && Faithful(s, domain, f, readings)
    ensures Faithful(SyncAlone(s, domain, f, v), domain, f, Read(readings, v))
  {
    if Acts(v) {
      ReadingsStillFit(f, readings, v);
      KnownStayRegistered(s, domain, f, readings, v);
      EmptyCountedAfter(s, domain, f, readings, v);
      AbsenceStaysCounted(s, domain, f, readings, v);
      RecentStayRegistered(s, domain, f, readings, v);
    } else {
      assert SyncAlone(s, domain, f, v) == s.(handed := {}) by {
        assert s.registry + Entities(domain, {}) == s.registry;
      }
    }
  }
}
