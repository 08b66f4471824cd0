/** Several families that share their tables and the registry. */
module EntityFamilies {
  import opened Wrappers
  import opened EntitySync
  import opened EntityHistory

  // ── Families keep apart ────────────────────────────────────────────────────

  /** Neither prefix begins with the other. */
  predicate Apart(f: Family, g: Family) {
    !(f.prefix <= g.prefix) && !(g.prefix <= f.prefix)
  }

  predicate Isolated(families: seq<Family>) {
    forall j, k :: 0 <= j < |families| && 0 <= k < |families| && j != k ==> Apart(families[j], families[k])
  }

  lemma NoCommonSuffix(f: Family, g: Family, x: string)
    requires Apart(f, g) && f.prefix <= x
    ensures !(g.prefix <= x)
  {
  }

  /** The entry for one suffix is the same in both states. */
  ghost predicate SameFor(s: State, t: State, domain: string, x: string) {
    && (x in s.tables.known <==> x in t.tables.known)
    && (x in s.handed <==> x in t.handed)
    && (Entity(domain, x) in s.registry <==> Entity(domain, x) in t.registry)
    && Lookup(s.tables.missingStreak, x) == Lookup(t.tables.missingStreak, x)
  }

  /** The states agree about one family. */
  ghost predicate SamePart(s: State, t: State, domain: string, f: Family) {
    && Lookup(s.tables.emptyStreak, f.prefix) == Lookup(t.tables.emptyStreak, f.prefix)
    && Lookup(s.tables.lastFetch, f.prefix) == Lookup(t.tables.lastFetch, f.prefix)
    && Lookup(s.tables.lastMissingFetch, f.prefix) == Lookup(t.tables.lastMissingFetch, f.prefix)
    && forall x :: f.prefix <= x ==> SameFor(s, t, domain, x)
  }

  lemma SamePartChain(s: State, t: State, u: State, domain: string, f: Family)
    requires SamePart(s, t, domain, f) && SamePart(t, u, domain, f)
    ensures SamePart(s, u, domain, f)
  {
    forall x | f.prefix <= x ensures SameFor(s, u, domain, x) {
      assert SameFor(s, t, domain, x) && SameFor(t, u, domain, x);
    }
  }

  lemma SameBothWays(s: State, t: State, domain: string, f: Family)
    requires SamePart(s, t, domain, f)
    ensures SamePart(t, s, domain, f)
  {
    forall x | f.prefix <= x ensures SameFor(t, s, domain, x) {
      assert SameFor(s, t, domain, x);
    }
  }

  lemma StaleHasPrefix(s: State, domain: string, g: Family, v: View, x: string)
    requires Acts(v) && x in RemovedBy(s, domain, g, v)
    ensures g.prefix <= x
  {
  }

  lemma AbsentHasPrefix(s: State, domain: string, g: Family, v: View, x: string)
    requires Acts(v) && !(g.prefix <= x) && Fits(g, v)
    ensures Lookup(MissingAfter(s.tables, g, v, Registered(s.registry, domain, g.prefix)).missingStreak, x) ==
            Lookup(s.tables.missingStreak, x)
  {
  }

  lemma OtherSuffixUntouched(s: State, domain: string, g: Family, v: View, x: string)
    requires Fits(g, v) && !(g.prefix <= x)
    ensures SameFor(s, AfterFamily(s, domain, g, v), domain, x)
  {
    if Acts(v) {
      if x in RemovedBy(s, domain, g, v) {
        StaleHasPrefix(s, domain, g, v, x);
      }
      AbsentHasPrefix(s, domain, g, v, x);
      StreaksOf(s, domain, g, v);
    }
  }

  /** The table of absences after one family. */
  lemma StreaksOf(s: State, domain: string, g: Family, v: View)
    requires Acts(v)
    ensures AfterFamily(s, domain, g, v).tables.missingStreak ==
            if !g.removeStale || LookupFails(s.tables, g, v) then s.tables.missingStreak
            else MissingAfter(s.tables, g, v, Registered(s.registry, domain, g.prefix)).missingStreak
  {
  }

  /** Syncing one family leaves everything about another family as it is. */
  lemma OtherFamilyUntouched(s: State, domain: string, f: Family, g: Family, v: View)
    requires Apart(f, g) && Fits(g, v)
    ensures SamePart(s, AfterFamily(s, domain, g, v), domain, f)
  {
    forall x | f.prefix <= x ensures SameFor(s, AfterFamily(s, domain, g, v), domain, x) {
      NoCommonSuffix(f, g, x);
      OtherSuffixUntouched(s, domain, g, v, x);
    }
    assert f.prefix != g.prefix;
  }

  // ── A family's step depends on its own part only ────────────────────────────

  lemma SameRegistered(s: State, t: State, domain: string, f: Family)
    requires SamePart(s, t, domain, f)
    ensures Registered(s.registry, domain, f.prefix) == Registered(t.registry, domain, f.prefix)
  {
    forall x ensures x in Registered(s.registry, domain, f.prefix) <==> x in Registered(t.registry, domain, f.prefix) {
      if f.prefix <= x {
        assert SameFor(s, t, domain, x);
        assert x in Registered(s.registry, domain, f.prefix) <==> Entity(domain, x) in s.registry;
      }
    }
  }

  lemma SameFailure(s: State, t: State, domain: string, f: Family, v: View)
    requires SamePart(s, t, domain, f)
    ensures FamilyFails(s, f, v) == FamilyFails(t, f, v)
  {
  }

  lemma LookupIsGet(a: map<string, Option<real>>, b: map<string, Option<real>>, key: string)
    requires Lookup(a, key) == Lookup(b, key)
    ensures Get(a, key) == Get(b, key)
  {
  }

  lemma LookupIsCount(a: map<string, nat>, b: map<string, nat>, key: string)
    requires Lookup(a, key) == Lookup(b, key)
    ensures Count(a, key) == Count(b, key) && (key in a <==> key in b)
  {
  }

  lemma SameMissing(s: State, t: State, domain: string, f: Family, v: View, x: string)
    requires SamePart(s, t, domain, f) && Acts(v) && Fits(f, v) && f.prefix <= x
    ensures var registered := Registered(s.registry, domain, f.prefix);
            && Lookup(MissingAfter(s.tables, f, v, registered).missingStreak, x) ==
               Lookup(MissingAfter(t.tables, f, v, registered).missingStreak, x)
            && (x in Current(s.tables, f, v, registered) <==> x in Current(t.tables, f, v, registered))
  {
    assert SameFor(s, t, domain, x);
    LookupIsGet(s.tables.lastMissingFetch, t.tables.lastMissingFetch, f.prefix);
    LookupIsCount(s.tables.missingStreak, t.tables.missingStreak, x);
  }

  lemma CurrentHasPrefix(s: State, domain: string, f: Family, v: View, x: string)
    requires Acts(v) && Fits(f, v) && x in Current(s.tables, f, v, Registered(s.registry, domain, f.prefix))
    ensures f.prefix <= x
  {
  }

  lemma SameEmpty(s: State, t: State, domain: string, f: Family, v: View)
    requires SamePart(s, t, domain, f) && Acts(v)
    ensures var a, b := EmptyAfter(s.tables, f, v), EmptyAfter(t.tables, f, v);
            && Lookup(a.emptyStreak, f.prefix) == Lookup(b.emptyStreak, f.prefix)
            && Lookup(a.lastFetch, f.prefix) == Lookup(b.lastFetch, f.prefix)
            && RemovesAll(s.tables, f, v) == RemovesAll(t.tables, f, v)
  {
  }

  lemma SameRemoved(s: State, t: State, domain: string, f: Family, v: View)
    requires SamePart(s, t, domain, f) && Acts(v) && Fits(f, v)
    ensures RemovedBy(s, domain, f, v) == RemovedBy(t, domain, f, v)
  {
    SameRegistered(s, t, domain, f);
    SameEmpty(s, t, domain, f, v);
    var registered := Registered(s.registry, domain, f.prefix);
    forall x ensures x in Current(s.tables, f, v, registered) <==> x in Current(t.tables, f, v, registered) {
      if f.prefix <= x {
        SameMissing(s, t, domain, f, v, x);
      } else if x in Current(s.tables, f, v, registered) {
        CurrentHasPrefix(s, domain, f, v, x);
      } else if x in Current(t.tables, f, v, registered) {
        CurrentHasPrefix(t, domain, f, v, x);
      }
    }
    assert Current(s.tables, f, v, registered) == Current(t.tables, f, v, registered);
  }

  lemma SameStep(s: State, t: State, domain: string, f: Family, v: View)
    requires SamePart(s, t, domain, f) && Fits(f, v)
    ensures SamePart(AfterFamily(s, domain, f, v), AfterFamily(t, domain, f, v), domain, f)
  {
    if Acts(v) {
      SameFailure(s, t, domain, f, v);
      SameRegistered(s, t, domain, f);
      SameEmpty(s, t, domain, f, v);
      SameRemoved(s, t, domain, f, v);
      forall x | f.prefix <= x
        ensures SameFor(AfterFamily(s, domain, f, v), AfterFamily(t, domain, f, v), domain, x)
      {
        assert SameFor(s, t, domain, x);
        SameMissing(s, t, domain, f, v, x);
        StreaksOf(s, domain, f, v);
        StreaksOf(t, domain, f, v);
      }
    }
  }

  // ── One run over all families ──────────────────────────────────────────────

  ghost predicate AllFit(families: seq<Family>, views: seq<View>)
    requires |views| == |families|
  {
    forall j :: 0 <= j < |families| ==> Fits(families[j], views[j])
  }

  lemma {:induction false} OthersUntouched(s: State, domain: string, families: seq<Family>, views: seq<View>, f: Family)
    requires |views| == |families| && AllFit(families, views)
    requires forall j :: 0 <= j < |families| ==> Apart(f, families[j])
    ensures SamePart(s, AfterFamilies(s, domain, families, views).0, domain, f)
  {
    if families != [] {
      var n := |families| - 1;
      OthersUntouched(s, domain, families[..n], views[..n], f);
      var front := AfterFamilies(s, domain, families[..n], views[..n]).0;
      OtherFamilyUntouched(front, domain, f, families[n], views[n]);
      SamePartChain(s, front, AfterFamily(front, domain, families[n], views[n]), domain, f);
    }
  }

  /** Together with the others, a family does to its part what it does alone if its turn comes,
      and nothing if the run ends before. */
  lemma {:induction false} PartOfAny(s: State, domain: string, families: seq<Family>, views: seq<View>, k: nat)
    requires |views| == |families| && AllFit(families, views) && Isolated(families) && k < |families|
    ensures SamePart(AfterFamilies(s, domain, families, views).0,
                     if Reached(s, domain, families, views, k) then AfterFamily(s, domain, families[k], views[k]) else s,
                     domain, families[k])
    ensures AfterFamilies(s, domain, families, views).1 ==>
              Reached(s, domain, families, views, k) && !FamilyFails(s, families[k], views[k])
  {
    var n := |families| - 1;
    var f := families[k];
    var (front, ok) := AfterFamilies(s, domain, families[..n], views[..n]);
    if k == n {
      OthersUntouched(s, domain, families[..n], views[..n], f);
      if ok {
        SameFailure(s, front, domain, f, views[n]);
        SameStep(s, front, domain, f, views[n]);
        SameBothWays(AfterFamily(s, domain, f, views[n]), AfterFamily(front, domain, f, views[n]), domain, f);
      } else {
        SameBothWays(s, front, domain, f);
      }
    } else {
      PartOfAny(s, domain, families[..n], views[..n], k);
      ReachedInFront(s, domain, families, views, k);
      if ok {
        OtherFamilyUntouched(front, domain, f, families[n], views[n]);
        var alone := if Reached(s, domain, families, views, k) then AfterFamily(s, domain, f, views[k]) else s;
        var all := AfterFamily(front, domain, families[n], views[n]);
        SameBothWays(front, all, domain, f);
        SamePartChain(all, front, alone, domain, f);
      }
    }
  }

  /** The turn of family k comes: no family before it fails. */
  predicate Reached(s: State, domain: string, families: seq<Family>, views: seq<View>, k: nat)
    requires |views| == |families| && k <= |families|
  {
    AfterFamilies(s, domain, families[..k], views[..k]).1
  }

  lemma ReachedInFront(s: State, domain: string, families: seq<Family>, views: seq<View>, k: nat)
    requires |views| == |families| && k < |families|
    ensures var n := |families| - 1;
            k <= n && (Reached(s, domain, families[..n], views[..n], k) <==> Reached(s, domain, families, views, k))
  {
    var n := |families| - 1;
    assert families[..n][..k] == families[..k] && views[..n][..k] == views[..k];
  }

  lemma Registration(s: State, t: State, domain: string, f: Family)
    requires SamePart(s, t, domain, f)
    ensures SamePart(s.(registry := s.registry + Entities(domain, s.handed)),
                     t.(registry := t.registry + Entities(domain, t.handed)), domain, f)
  {
    forall x | f.prefix <= x
      ensures SameFor(s.(registry := s.registry + Entities(domain, s.handed)),
                      t.(registry := t.registry + Entities(domain, t.handed)), domain, x)
    {
      assert SameFor(s, t, domain, x);
    }
  }

  /** What one run of the listener makes of one family. */
  function Outcome(s: State, domain: string, f: Family, v: View, reached: bool, ok: bool): State {
    if ok then SyncAlone(s, domain, f, v)
    else if reached then AfterFamily(s.(handed := {}), domain, f, v).(handed := {})
    else s.(handed := {})
  }

  lemma NothingHanded(s: State, t: State, domain: string, f: Family)
    requires SamePart(s, t, domain, f)
    ensures SamePart(s.(handed := {}), t.(handed := {}), domain, f)
  {
    forall x | f.prefix <= x ensures SameFor(s.(handed := {}), t.(handed := {}), domain, x) {
      assert SameFor(s, t, domain, x);
    }
  }

  /** A run of the listener over all families does to every family what a run for that family
      alone would do: neither its entities nor its counters are touched by the others. A run that
      ends early leaves the families behind the failing one as they were, and hands over nothing. */
  lemma FamiliesAreIsolated(s: State, domain: string, families: seq<Family>, views: seq<View>, k: nat)
    requires |views| == |families| && AllFit(families, views) && Isolated(families) && k < |families|
    ensures var (after, ok) := AfterSync(s, domain, families, views);
            var reached := Reached(s.(handed := {}), domain, families, views, k);
            && SamePart(after, Outcome(s, domain, families[k], views[k], reached, ok), domain, families[k])
            && (ok ==> reached && !FamilyFails(s, families[k], views[k]))
  {
    var start := s.(handed := {});
    PartOfAny(start, domain, families, views, k);
    var (all, ok) := AfterFamilies(start, domain, families, views);
    var reached := Reached(start, domain, families, views, k);
    var alone := if reached then AfterFamily(start, domain, families[k], views[k]) else start;
    if ok {
      Registration(all, alone, domain, families[k]);
    } else {
      NothingHanded(all, alone, domain, families[k]);
    }
  }

  /** A family whose endpoint failed last time, or was never read, is not touched, whatever the
      endpoint showed before: nothing is added or removed and no counter moves. */
  lemma UnseenFamilyIsUntouched(s: State, domain: string, families: seq<Family>, views: seq<View>, k: nat)
    requires |views| == |families| && AllFit(families, views) && Isolated(families) && k < |families|
    requires !views[k].available || views[k].items.None?
    ensures SamePart(AfterSync(s, domain, families, views).0, s.(handed := {}), domain, families[k])
  {
    var (after, ok) := AfterSync(s, domain, families, views);
    var reached := Reached(s.(handed := {}), domain, families, views, k);
    FamiliesAreIsolated(s, domain, families, views, k);
    assert s.registry + Entities(domain, {}) == s.registry;
    assert Outcome(s, domain, families[k], views[k], reached, ok) == s.(handed := {});
  }

  /** A run fails only when a lookup fails for the part that some family had at its start. */
  lemma {:induction false} SomeFamilyFails(s: State, domain: string, families: seq<Family>, views: seq<View>)
    requires |views| == |families| && AllFit(families, views) && Isolated(families)
    requires forall k :: 0 <= k < |families| ==> !FamilyFails(s, families[k], views[k])
    ensures AfterFamilies(s, domain, families, views).1
  {
    if families != [] {
      var n := |families| - 1;
      SomeFamilyFails(s, domain, families[..n], views[..n]);
      OthersUntouched(s, domain, families[..n], views[..n], families[n]);
      SameFailure(s, AfterFamilies(s, domain, families[..n], views[..n]).0, domain, families[n], views[n]);
    }
  }

  /** A run of the listener is completed exactly when no family's lookup fails in the state in
      which the run begins. */
  lemma SyncEndsWell(s: State, domain: string, families: seq<Family>, views: seq<View>)
    requires |views| == |families| && AllFit(families, views) && Isolated(families)
    ensures AfterSync(s, domain, families, views).1 <==> forall k :: 0 <= k < |families| ==> !FamilyFails(s, families[k], views[k])
  {
    if AfterSync(s, domain, families, views).1 {
      forall k | 0 <= k < |families| ensures !FamilyFails(s, families[k], views[k]) {
        FamiliesAreIsolated(s, domain, families, views, k);
      }
    } else if forall k :: 0 <= k < |families| ==> !FamilyFails(s, families[k], views[k]) {
      forall k | 0 <= k < |families| ensures !FamilyFails(s.(handed := {}), families[k], views[k]) {
      }
      SomeFamilyFails(s.(handed := {}), domain, families, views);
      assert false;
    }
  }

  lemma SameIsFaithful(s: State, t: State, domain: string, f: Family, readings: seq<Reading>)
    requires SamePart(s, t, domain, f) && Faithful(s, domain, f, readings)
    ensures Faithful(t, domain, f, readings)
  {
    SameRegistered(s, t, domain, f);
    LookupIsGet(s.tables.lastFetch, t.tables.lastFetch, f.prefix);
    LookupIsGet(s.tables.lastMissingFetch, t.tables.lastMissingFetch, f.prefix);
    LookupIsCount(s.tables.emptyStreak, t.tables.emptyStreak, f.prefix);
    forall x | f.prefix <= x
      ensures x in t.tables.known ==> Entity(domain, x) in t.registry
      ensures Entity(domain, x) in s.registry <==> Entity(domain, x) in t.registry
      ensures Count(s.tables.missingStreak, x) == Count(t.tables.missingStreak, x)
    {
      assert SameFor(s, t, domain, x);
      LookupIsCount(s.tables.missingStreak, t.tables.missingStreak, x);
    }
  }

  // ── One object in one run ────────────────────────────────────────────────

  ghost predicate HasFamily(families: seq<Family>, x: string) {
    exists j :: 0 <= j < |families| && families[j].prefix <= x
  }

  /** One object in the middle of a run: it stays known unless its entity was removed, and it is
      handed over only when it was not known. */
  ghost predicate ObjectKept(s: State, m: State, domain: string, families: seq<Family>, x: string) {
    && (x in s.tables.known ==> x !in m.handed)
    && (x in s.tables.known && x !in m.tables.known ==>
          Entity(domain, x) in s.registry && Entity(domain, x) !in m.registry && HasFamily(families, x))
    && (x in m.handed ==> x in m.tables.known && HasFamily(families, x))
    && (Entity(domain, x) in m.registry ==> Entity(domain, x) in s.registry)
  }

  lemma OneFamilyKeeps(s: State, m: State, domain: string, families: seq<Family>, g: Family, v: View, x: string)
    requires ObjectKept(s, m, domain, families, x) && Fits(g, v)
    requires forall j :: 0 <= j < |families| ==> Apart(families[j], g)
    ensures ObjectKept(s, AfterFamily(m, domain, g, v), domain, families + [g], x)
  {
    var all := families + [g];
    if HasFamily(families, x) {
      var j :| 0 <= j < |families| && families[j].prefix <= x;
      assert all[j].prefix <= x;
      NoCommonSuffix(families[j], g, x);
      OtherSuffixUntouched(m, domain, g, v, x);
      assert SameFor(m, AfterFamily(m, domain, g, v), domain, x);
    } else {
      assert g.prefix <= x ==> all[|families|].prefix <= x;
      FamilyStepOn(m, domain, g, v, x);
    }
  }

  lemma FamilyStepOn(m: State, domain: string, g: Family, v: View, x: string)
    requires Fits(g, v)
    ensures var after := AfterFamily(m, domain, g, v);
            && (x in m.tables.known ==> (x in after.handed <==> x in m.handed))
            && (x in m.tables.known && x !in after.tables.known ==>
                  Entity(domain, x) in m.registry && Entity(domain, x) !in after.registry && g.prefix <= x)
            && (x in after.handed && x !in m.handed ==> x in after.tables.known && g.prefix <= x)
            && (Entity(domain, x) in after.registry ==> Entity(domain, x) in m.registry)
  {
  }

  lemma {:induction false} ObjectStaysKept(s: State, domain: string, families: seq<Family>, views: seq<View>, x: string)
    requires |views| == |families| && AllFit(families, views) && Isolated(families) && s.handed == {}
    ensures ObjectKept(s, AfterFamilies(s, domain, families, views).0, domain, families, x)
  {
    if families != [] {
      var n := |families| - 1;
      ObjectStaysKept(s, domain, families[..n], views[..n], x);
      var (front, ok) := AfterFamilies(s, domain, families[..n], views[..n]);
      if ok {
        OneFamilyKeeps(s, front, domain, families[..n], families[n], views[n], x);
        assert families == families[..n] + [families[n]];
      } else if HasFamily(families[..n], x) {
        var j :| 0 <= j < n && families[..n][j].prefix <= x;
        assert families[j].prefix <= x;
      }
    }
  }

  lemma SyncKeepsObject(s: State, domain: string, families: seq<Family>, views: seq<View>, x: string)
    requires |views| == |families| && AllFit(families, views) && Isolated(families)
    ensures var after := AfterSync(s, domain, families, views).0;
            && (x in s.tables.known ==> x !in after.handed)
            && (x in after.handed ==> x in after.tables.known)
            && (x in s.tables.known && x !in after.tables.known ==>
                  Entity(domain, x) in s.registry && Entity(domain, x) !in after.registry)
  {
    ObjectStaysKept(s.(handed := {}), domain, families, views, x);
  }

  /** What a run hands over for one object: it does so when the run is completed, the family of
      the object acts on a reading that has it, and the object was not known. */
  lemma HandedExactly(s: State, domain: string, families: seq<Family>, views: seq<View>, k: nat, x: string)
    requires |views| == |families| && AllFit(families, views) && Isolated(families) && k < |families|
    requires families[k].prefix <= x
    ensures x in AfterSync(s, domain, families, views).0.handed <==>
              && AfterSync(s, domain, families, views).1 && x !in s.tables.known
              && views[k].available && views[k].items.Some? && x in views[k].items.value
  {
    var (after, ok) := AfterSync(s, domain, families, views);
    var reached := Reached(s.(handed := {}), domain, families, views, k);
    FamiliesAreIsolated(s, domain, families, views, k);
    assert SameFor(after, Outcome(s, domain, families[k], views[k], reached, ok), domain, x);
    HandedAlone(s.(handed := {}), domain, families[k], views[k], x);
  }

  lemma HandedAlone(s: State, domain: string, f: Family, v: View, x: string)
    requires s.handed == {}
    ensures x in AfterFamily(s, domain, f, v).handed <==> Acts(v) && x in v.items.value && x !in s.tables.known
  {
  }

  /** A run that a failed lookup ends loses the new objects of the families before: they count as
      known and are never handed over, in this run or in a later one, while they stay known. */
  lemma FailedRunLosesNewObjects(s: State, domain: string, families: seq<Family>, views: seq<View>, later: seq<View>,
                                 k: nat, x: string)
    requires |views| == |later| == |families| && AllFit(families, views) && AllFit(families, later)
    requires Isolated(families) && k < |families|
    requires views[k].available && views[k].items.Some? && x in views[k].items.value
    requires Reached(s.(handed := {}), domain, families, views, k) && !AfterSync(s, domain, families, views).1
    ensures var after := AfterSync(s, domain, families, views).0;
            && x in after.tables.known && x !in after.handed
            && x !in AfterSync(after, domain, families, later).0.handed
  {
    var after := AfterSync(s, domain, families, views).0;
    assert Fits(families[k], views[k]);
    FamiliesAreIsolated(s, domain, families, views, k);
    assert SameFor(after, Outcome(s, domain, families[k], views[k], true, false), domain, x);
    ShownIsKnown(s.(handed := {}), domain, families[k], views[k], x);
    HandedExactly(after, domain, families, later, k, x);
  }

  lemma ShownIsKnown(s: State, domain: string, f: Family, v: View, x: string)
    requires Acts(v) && x in v.items.value && Fits(f, v)
    ensures x in AfterFamily(s, domain, f, v).tables.known
  {
  }

  // ── Other sets of families ─────────────────────────────────────────────────

  /** The families of another setup on the same platform leave the entities of this one alone. */
  lemma OtherSetupTouchesNothing(s: State, domain: string, others: seq<Family>, views: seq<View>, f: Family, x: string)
    requires |views| == |others| && AllFit(others, views) && f.prefix <= x
    requires forall j :: 0 <= j < |others| ==> Apart(f, others[j])
    ensures Entity(domain, x) in AfterSync(s, domain, others, views).0.registry <==> Entity(domain, x) in s.registry
  {
    var start := s.(handed := {});
    OthersUntouched(start, domain, others, views, f);
    assert SameFor(start, AfterFamilies(start, domain, others, views).0, domain, x);
  }

  lemma {:induction false} OtherPlatformKeeps(s: State, platform: string, others: seq<Family>, views: seq<View>, e: Entity)
    requires |views| == |others| && e.domain != platform
    ensures e in AfterFamilies(s, platform, others, views).0.registry <==> e in s.registry
  {
    if others != [] {
      OtherPlatformKeeps(s, platform, others[..|others| - 1], views[..|others| - 1], e);
    }
  }

  /** So do the families of another platform, whatever their prefixes. */
  lemma OtherPlatformTouchesNothing(s: State, platform: string, others: seq<Family>, views: seq<View>, e: Entity)
    requires |views| == |others| && e.domain != platform
    ensures e in AfterSync(s, platform, others, views).0.registry <==> e in s.registry
  {
    OtherPlatformKeeps(s.(handed := {}), platform, others, views, e);
  }

  // ── The families of the integration ────────────────────────────────────────

  const OBJECT_PREFIXES: seq<string> := ["dhcp_leases_", "ap_clients_", "poe_"]
  const TRAFFIC_PREFIXES: seq<string> := ["traffic_rx_rate_", "traffic_tx_rate_", "traffic_rx_bytes_", "traffic_tx_bytes_"]
  const CPU_PREFIXES: seq<string> := ["sensor_cpu_usage", "sensor_cpu_core_", "sensor_cpu_temperature"]
  const SYSTEM_PREFIXES: seq<string> := ["sensor_fan_", "sensor_npu_temperature", "sensor_ips_version", "sensor_webcat_version"]
  const SENSOR_PREFIXES: seq<string> := (OBJECT_PREFIXES + TRAFFIC_PREFIXES) + (CPU_PREFIXES + SYSTEM_PREFIXES)
  const BINARY_SENSOR_PREFIXES: seq<string> := ["iface_", "fwrule_", "wlan_", "vpn_", "psu_", "ap_"]
  const SWITCH_PREFIXES: seq<string> := ["switch_fwrule_", "switch_webfilter_", "switch_wlan_", "switch_ipsec_"]

  predicate DifferAt(p: string, q: string, i: nat) {
    i < |p| && i < |q| && p[i] != q[i]
  }

  /** The prefixes in use differ at one of these places. */
  predicate Differ(p: string, q: string) {
    DifferAt(p, q, 0) || DifferAt(p, q, 7) || DifferAt(p, q, 8) || DifferAt(p, q, 11)
  }

  ghost predicate AllDiffer(prefixes: seq<string>) {
    forall j, k :: 0 <= j < k < |prefixes| ==> Differ(prefixes[j], prefixes[k])
  }

  /** Families with these prefixes keep apart. */
  lemma DifferingAreIsolated(families: seq<Family>, prefixes: seq<string>)
    requires AllDiffer(prefixes) && |families| == |prefixes|
    requires forall k :: 0 <= k < |families| ==> families[k].prefix == prefixes[k]
    ensures Isolated(families)
  {
  }

  lemma TwoGroups(a: seq<string>, b: seq<string>, i: nat)
    requires AllDiffer(a) && AllDiffer(b) && (i == 0 || i == 7)
    requires forall j, k :: 0 <= j < |a| && 0 <= k < |b| ==> DifferAt(a[j], b[k], i)
    ensures AllDiffer(a + b)
  {
  }

  lemma CpuPrefixesDiffer()
    ensures AllDiffer(CPU_PREFIXES)
  {
  }

  lemma SystemPrefixesDiffer()
    ensures AllDiffer(SYSTEM_PREFIXES)
  {
  }

  lemma TrafficPrefixesDiffer()
    ensures AllDiffer(TRAFFIC_PREFIXES)
  {
  }

  lemma ObjectPrefixesDiffer()
    ensures AllDiffer(OBJECT_PREFIXES)
  {
  }

  lemma SensorPrefixesDiffer()
    ensures AllDiffer(SENSOR_PREFIXES)
  {
    CpuPrefixesDiffer();
    SystemPrefixesDiffer();
    TrafficPrefixesDiffer();
    ObjectPrefixesDiffer();
    TwoGroups(CPU_PREFIXES, SYSTEM_PREFIXES, 7);
    TwoGroups(OBJECT_PREFIXES, TRAFFIC_PREFIXES, 0);
    TwoGroups(OBJECT_PREFIXES + TRAFFIC_PREFIXES, CPU_PREFIXES + SYSTEM_PREFIXES, 0);
  }

  lemma BinarySensorPrefixesDiffer()
    ensures AllDiffer(BINARY_SENSOR_PREFIXES)
  {
  }

  lemma SwitchPrefixesDiffer()
    ensures AllDiffer(SWITCH_PREFIXES)
  {
  }

  /** The families of every platform keep apart, with whatever flags. */
  lemma FamiliesInUseAreIsolated(families: seq<Family>, prefixes: seq<string>)
    requires prefixes in [SENSOR_PREFIXES, BINARY_SENSOR_PREFIXES, SWITCH_PREFIXES]
    requires |families| == |prefixes| && forall k :: 0 <= k < |families| ==> families[k].prefix == prefixes[k]
    ensures Isolated(families)
  {
    hide AllDiffer, Isolated;
    SensorPrefixesDiffer();
    BinarySensorPrefixesDiffer();
    SwitchPrefixesDiffer();
    DifferingAreIsolated(families, prefixes);
  }
}
