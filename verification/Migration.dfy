/** Migration of entity unique_ids from "{host}_{port}_{suffix}" to "{entry_id}_{suffix}". */
module Migration {
  import opened Wrappers
  import opened Texts

  // ── The entity registry ────────────────────────────────────────────────────

  /** One registry entry of the integration; the registry keys them by entity_id. */
  datatype RegEntry = RegEntry(configEntry: string, domain: string, uniqueId: string)

  type Entries = map<string, RegEntry>

  /** The entry that has this unique_id in this domain. */
  predicate Holds(e: RegEntry, domain: string, uniqueId: string) {
    e.domain == domain && e.uniqueId == uniqueId
  }

  predicate Held(entries: Entries, domain: string, uniqueId: string) {
    exists id :: id in entries && Holds(entries[id], domain, uniqueId)
  }

  ghost predicate Unique(entries: Entries) {
    forall a, b :: a in entries && b in entries && a != b ==>
      !Holds(entries[a], entries[b].domain, entries[b].uniqueId)
  }

  ghost predicate Distinct(ids: seq<string>) {
    forall i, j :: 0 <= i < j < |ids| ==> ids[i] != ids[j]
  }

  /** The entity_ids of one config entry, in registry order. */
  function OwnIds(entries: Entries, order: seq<string>, owner: string): seq<string> {
    if order == [] then []
    else
      var rest := OwnIds(entries, order[..|order| - 1], owner);
      var id := order[|order| - 1];
      if id in entries && entries[id].configEntry == owner then rest + [id] else rest
  }

  lemma {:induction false} OwnIdsAreOwn(entries: Entries, order: seq<string>, owner: string)
    requires Distinct(order)
    ensures forall id :: id in OwnIds(entries, order, owner) <==>
              id in order && id in entries && entries[id].configEntry == owner
    ensures Distinct(OwnIds(entries, order, owner))
  {
    if order != [] {
      assert order == order[..|order| - 1] + [order[|order| - 1]];
      OwnIdsAreOwn(entries, order[..|order| - 1], owner);
    }
  }

  /** They come in the order of the registry. */
  lemma {:induction false} OwnIdsInOrder(entries: Entries, order: seq<string>, owner: string, i: nat, j: nat)
    returns (p: nat, q: nat)
    requires i < j < |OwnIds(entries, order, owner)|
    ensures p < q < |order|
    ensures order[p] == OwnIds(entries, order, owner)[i] && order[q] == OwnIds(entries, order, owner)[j]
  {
    var n := |order| - 1;
    if j < |OwnIds(entries, order[..n], owner)| {
      p, q := OwnIdsInOrder(entries, order[..n], owner, i, j);
    } else {
      q := n;
      p := OwnIdAt(entries, order[..n], owner, i);
    }
  }

  lemma {:induction false} OwnIdAt(entries: Entries, order: seq<string>, owner: string, i: nat) returns (p: nat)
    requires i < |OwnIds(entries, order, owner)|
    ensures p < |order| && order[p] == OwnIds(entries, order, owner)[i]
  {
    var n := |order| - 1;
    if i < |OwnIds(entries, order[..n], owner)| {
      p := OwnIdAt(entries, order[..n], owner, i);
    } else {
      p := n;
    }
  }

  class EntityRegistry {
    var entries: Entries
    const order: seq<string>

    /** `order` lists every entity_id the registry started with; unique_ids never clash. */
    ghost predicate Valid()
      reads this
    {
      Distinct(order) && Unique(entries) && forall id :: id in entries ==> id in order
    }

    constructor (entries: Entries, order: seq<string>)
      requires Distinct(order) && Unique(entries) && forall id :: id in entries ==> id in order
      ensures Valid() && this.entries == entries && this.order == order
    {
      this.entries, this.order := entries, order;
    }

    method EntriesFor(owner: string) returns (ids: seq<string>)
      requires Valid()
      ensures ids == OwnIds(entries, order, owner)
    {
      ids := [];
      for i := 0 to |order|
        invariant ids == OwnIds(entries, order[..i], owner)
      {
        assert order[..i + 1][..i] == order[..i];
        if order[i] in entries && entries[order[i]].configEntry == owner {
          ids := ids + [order[i]];
        }
      }
      assert order[..|order|] == order;
    }

    predicate HasEntity(domain: string, uniqueId: string)
      reads this
    {
      Held(entries, domain, uniqueId)
    }

    method Remove(entityId: string)
      requires Valid()
      modifies this
      ensures Valid() && entries == old(entries) - {entityId}
    {
      entries := entries - {entityId};
    }

    /** The registry refuses a unique_id that another entity of the domain has. */
    method UpdateUniqueId(entityId: string, newUniqueId: string)
      requires Valid() && entityId in entries
      requires !HasEntity(entries[entityId].domain, newUniqueId)
      modifies this
      ensures Valid() && entries == old(entries)[entityId := old(entries[entityId]).(uniqueId := newUniqueId)]
    {
      forall a | a in entries
        ensures !Holds(entries[a], entries[entityId].domain, newUniqueId)
      {
      }
      entries := entries[entityId := entries[entityId].(uniqueId := newUniqueId)];
    }
  }

  // ── The forms of a unique_id ───────────────────────────────────────────────

  datatype Form = New | Current(suffix: string) | Orphan(suffix: string) | Unrecognised

  datatype Address = Address(owner: string, host: string, port: string) {
    function NewPrefix(): string { owner + "_" }
    function CurrentPrefix(): string { host + "_" + port + "_" }
  }

  function IndexOf(s: string, c: char): (i: nat)
    ensures i <= |s| && (i < |s| ==> s[i] == c)
    ensures forall k :: 0 <= k < i ==> s[k] != c
  {
    if s == "" || s[0] == c then 0 else 1 + IndexOf(s[1..], c)
  }

  /** The line without the newline that may end it. */
  function Line(rest: string): string {
    if rest != "" && rest[|rest| - 1] == '\n' then rest[..|rest| - 1] else rest
  }

  /** The suffix of "{host}_{port}_{suffix}": a host without underscore, a decimal port, and a
      suffix on one line, with at most a final newline after it. */
  function OldSuffix(uid: string): Option<string> {
    var first := IndexOf(uid, '_');
    if first == 0 || first == |uid| then None
    else
      var tail := uid[first + 1..];
      var second := IndexOf(tail, '_');
      if second == |tail| || !IsDigits(tail[..second]) then None
      else
        var line := Line(tail[second + 1..]);
        if line == "" || '\n' in line then None else Some(line)
  }

  function FormOf(uid: string, a: Address): Form {
    if a.NewPrefix() <= uid then New
    else if a.CurrentPrefix() <= uid then Current(uid[|a.CurrentPrefix()|..])
    else if OldSuffix(uid).Some? then Orphan(OldSuffix(uid).value)
    else Unrecognised
  }

  /** An entry to be renamed, and whether it belongs to the current address. */
  datatype Planned = Planned(isCurrent: bool, entityId: string, domain: string, newUniqueId: string)

  function PlanFor(entries: Entries, a: Address, id: string): Option<Planned>
    requires id in entries
  {
    match FormOf(entries[id].uniqueId, a)
    case Current(suffix) => Some(Planned(true, id, entries[id].domain, a.NewPrefix() + suffix))
    case Orphan(suffix) => Some(Planned(false, id, entries[id].domain, a.NewPrefix() + suffix))
    case _ => None
  }

  // ── Who should survive ─────────────────────────────────────────────────────

  predicate SameSlot(p: Planned, q: Planned) {
    p.domain == q.domain && p.newUniqueId == q.newUniqueId
  }

  /** Entities of the current address come first, then the registry order decides. */
  predicate Outranks(p: Planned, i: nat, q: Planned, j: nat) {
    (p.isCurrent && !q.isCurrent) || (p.isCurrent == q.isCurrent && i < j)
  }

  predicate AllIn(ids: seq<string>, entries: Entries) {
    forall i :: 0 <= i < |ids| ==> ids[i] in entries
  }

  /** Entry i of the config entry takes over its new unique_id: nobody has it yet, and i
      outranks every other entry that wants it. */
  ghost predicate TakesOver(entries: Entries, ids: seq<string>, a: Address, i: nat)
    requires i < |ids| && AllIn(ids, entries)
  {
    && PlanFor(entries, a, ids[i]).Some?
    && var p := PlanFor(entries, a, ids[i]).value;
    && !Held(entries, p.domain, p.newUniqueId)
    && forall j :: 0 <= j < |ids| && j != i ==>
         var q := PlanFor(entries, a, ids[j]);
         q.Some? && SameSlot(p, q.value) ==> Outranks(p, i, q.value, j)
  }

  /** What the migration should make of the entry; None when it should be removed. */
  ghost function Outcome(entries: Entries, ids: seq<string>, a: Address, id: string): Option<RegEntry>
    requires id in entries && AllIn(ids, entries)
  {
    if entries[id].configEntry != a.owner || FormOf(entries[id].uniqueId, a).New? then Some(entries[id])
    else if exists i :: 0 <= i < |ids| && ids[i] == id && TakesOver(entries, ids, a, i)
    then Some(entries[id].(uniqueId := PlanFor(entries, a, id).value.newUniqueId))
    else None
  }

  ghost predicate IsMigrated(before: Entries, ids: seq<string>, a: Address, after: Entries)
    requires AllIn(ids, before)
  {
    && after.Keys <= before.Keys
    && forall id :: id in before ==> Lookup(after, id) == Outcome(before, ids, a, id)
  }

  // ── The plan, and what its execution makes of every entry ───────────────────

  function PlanOf(entries: Entries, ids: seq<string>, a: Address): seq<Planned>
    requires AllIn(ids, entries)
  {
    if ids == [] then []
    else
      var rest := PlanOf(entries, ids[..|ids| - 1], a);
      var p := PlanFor(entries, a, ids[|ids| - 1]);
      if p.Some? then rest + [p.value] else rest
  }

  function Those(plan: seq<Planned>, isCurrent: bool): seq<Planned> {
    if plan == [] then []
    else
      var rest := Those(plan[..|plan| - 1], isCurrent);
      if plan[|plan| - 1].isCurrent == isCurrent then rest + [plan[|plan| - 1]] else rest
  }

  /** `sorted(plan, key=lambda item: not item[0])`: stable, current entries first. */
  function Sorted(plan: seq<Planned>): seq<Planned> {
    Those(plan, true) + Those(plan, false)
  }

  /** Step k finds its unique_id free. */
  ghost predicate Wins(entries: Entries, plan: seq<Planned>, k: nat)
    requires k < |plan|
  {
    && !Held(entries, plan[k].domain, plan[k].newUniqueId)
    && forall q :: 0 <= q < k ==> !SameSlot(plan[q], plan[k])
  }

  /** The entry after the first pass and the first k steps of the second. */
  ghost function Fate(entries: Entries, a: Address, plan: seq<Planned>, k: nat, id: string): Option<RegEntry>
    requires k <= |plan| && id in entries
  {
    if k > 0 && plan[k - 1].entityId == id then
      if Wins(entries, plan, k - 1) then Some(entries[id].(uniqueId := plan[k - 1].newUniqueId)) else None
    else if k > 0 then Fate(entries, a, plan, k - 1, id)
    else if entries[id].configEntry == a.owner && FormOf(entries[id].uniqueId, a).Unrecognised? then None
    else Some(entries[id])
  }

  /** The plan comes from these entries: every item is an own entry in an old form, once. */
  ghost predicate Fits(entries: Entries, a: Address, plan: seq<Planned>) {
    && (forall k :: 0 <= k < |plan| ==>
          plan[k].entityId in entries && entries[plan[k].entityId].configEntry == a.owner
          && PlanFor(entries, a, plan[k].entityId) == Some(plan[k]))
    && (forall j, k :: 0 <= j < k < |plan| ==> plan[j].entityId != plan[k].entityId)
  }

  lemma {:induction false} FateOfPlanned(entries: Entries, a: Address, plan: seq<Planned>, k: nat, p: nat)
    requires Fits(entries, a, plan) && p < k <= |plan|
    ensures Fate(entries, a, plan, k, plan[p].entityId) ==
            if Wins(entries, plan, p) then Some(entries[plan[p].entityId].(uniqueId := plan[p].newUniqueId)) else None
  {
    hide FormOf, Wins;
    if p < k - 1 {
      FateOfPlanned(entries, a, plan, k - 1, p);
    }
  }

  lemma {:induction false} FateOfOthers(entries: Entries, a: Address, plan: seq<Planned>, k: nat, id: string)
    requires k <= |plan| && id in entries
    requires forall p :: 0 <= p < k ==> plan[p].entityId != id
    ensures Fate(entries, a, plan, k, id) ==
            if entries[id].configEntry == a.owner && FormOf(entries[id].uniqueId, a).Unrecognised? then None
            else Some(entries[id])
  {
    if k > 0 {
      FateOfOthers(entries, a, plan, k - 1, id);
    }
  }

  /** If anybody before k wanted the same unique_id, the first who did got it. */
  lemma {:induction false} FirstWantingWins(entries: Entries, plan: seq<Planned>, q: nat) returns (w: nat)
    requires q < |plan| && !Held(entries, plan[q].domain, plan[q].newUniqueId)
    ensures w <= q && SameSlot(plan[w], plan[q]) && Wins(entries, plan, w)
  {
    if Wins(entries, plan, q) {
      w := q;
    } else {
      var earlier :| 0 <= earlier < q && SameSlot(plan[earlier], plan[q]);
      w := FirstWantingWins(entries, plan, earlier);
    }
  }

  ghost predicate AtStep(entries: Entries, a: Address, plan: seq<Planned>, k: nat, now: Entries)
    requires k <= |plan|
  {
    && now.Keys <= entries.Keys
    && forall id :: id in entries ==> Lookup(now, id) == Fate(entries, a, plan, k, id)
  }

  lemma NewFormIsNotPlanned(entries: Entries, a: Address, plan: seq<Planned>, id: string)
    requires Fits(entries, a, plan) && id in entries && a.NewPrefix() <= entries[id].uniqueId
    ensures FormOf(entries[id].uniqueId, a) == New
    ensures forall p :: 0 <= p < |plan| ==> plan[p].entityId != id
  {
  }

  lemma PlannedPrefix(entries: Entries, a: Address, id: string)
    requires id in entries && PlanFor(entries, a, id).Some?
    ensures a.NewPrefix() <= PlanFor(entries, a, id).value.newUniqueId
    ensures PlanFor(entries, a, id).value.domain == entries[id].domain
    ensures !(a.NewPrefix() <= entries[id].uniqueId)
  {
  }

  lemma TakenMeansLoses(entries: Entries, a: Address, plan: seq<Planned>, k: nat, now: Entries)
    requires k < |plan| && Fits(entries, a, plan) && AtStep(entries, a, plan, k, now)
    requires !Wins(entries, plan, k)
    ensures Held(now, plan[k].domain, plan[k].newUniqueId)
  {
    var domain, uid := plan[k].domain, plan[k].newUniqueId;
    PlannedPrefix(entries, a, plan[k].entityId);
    if Held(entries, domain, uid) {
      var id :| id in entries && Holds(entries[id], domain, uid);
      NewFormIsNotPlanned(entries, a, plan, id);
      FateOfOthers(entries, a, plan, k, id);
      assert Lookup(now, id) == Some(entries[id]);
      assert id in now && Holds(now[id], domain, uid);
    } else {
      var q :| 0 <= q < k && SameSlot(plan[q], plan[k]);
      var w := FirstWantingWins(entries, plan, q);
      FateOfPlanned(entries, a, plan, k, w);
      PlannedPrefix(entries, a, plan[w].entityId);
      assert Lookup(now, plan[w].entityId).Some?;
      assert Holds(now[plan[w].entityId], domain, uid);
    }
  }

  lemma WinnerIsFree(entries: Entries, a: Address, plan: seq<Planned>, k: nat, now: Entries)
    requires k < |plan| && Fits(entries, a, plan) && AtStep(entries, a, plan, k, now)
    requires Wins(entries, plan, k)
    ensures !Held(now, plan[k].domain, plan[k].newUniqueId)
  {
    var domain, uid := plan[k].domain, plan[k].newUniqueId;
    forall id | id in now ensures !Holds(now[id], domain, uid) {
      assert Lookup(now, id) == Fate(entries, a, plan, k, id);
      if p :| 0 <= p < k && plan[p].entityId == id {
        FateOfPlanned(entries, a, plan, k, p);
        PlannedPrefix(entries, a, id);
        assert !SameSlot(plan[p], plan[k]);
      } else {
        FateOfOthers(entries, a, plan, k, id);
        assert !Holds(entries[id], domain, uid);
      }
    }
  }

  // ── Where every plan item comes from ────────────────────────────────────────

  /** The index in `ids` of the i-th plan item. */
  function At(entries: Entries, ids: seq<string>, a: Address, i: nat): (at: nat)
    requires AllIn(ids, entries) && i < |PlanOf(entries, ids, a)|
    ensures at < |ids| && PlanFor(entries, a, ids[at]) == Some(PlanOf(entries, ids, a)[i])
  {
    var rest := ids[..|ids| - 1];
    if i < |PlanOf(entries, rest, a)| then At(entries, rest, a, i) else |ids| - 1
  }

  lemma {:induction false} AtGrows(entries: Entries, ids: seq<string>, a: Address, i: nat, j: nat)
    requires AllIn(ids, entries) && i < j < |PlanOf(entries, ids, a)|
    ensures At(entries, ids, a, i) < At(entries, ids, a, j)
  {
    var rest := ids[..|ids| - 1];
    if j < |PlanOf(entries, rest, a)| {
      AtGrows(entries, rest, a, i, j);
    }
  }

  lemma {:induction false} AtCovers(entries: Entries, ids: seq<string>, a: Address, k: nat) returns (i: nat)
    requires AllIn(ids, entries) && k < |ids| && PlanFor(entries, a, ids[k]).Some?
    ensures i < |PlanOf(entries, ids, a)| && At(entries, ids, a, i) == k
  {
    var rest := ids[..|ids| - 1];
    if k == |ids| - 1 {
      i := |PlanOf(entries, rest, a)|;
    } else {
      i := AtCovers(entries, rest, a, k);
    }
  }

  /** The index in the plan of the i-th item with this flag. */
  function ThoseAt(plan: seq<Planned>, isCurrent: bool, i: nat): (at: nat)
    requires i < |Those(plan, isCurrent)|
    ensures at < |plan| && plan[at] == Those(plan, isCurrent)[i] && plan[at].isCurrent == isCurrent
  {
    var rest := plan[..|plan| - 1];
    if i < |Those(rest, isCurrent)| then ThoseAt(rest, isCurrent, i) else |plan| - 1
  }

  lemma {:induction false} ThoseAtGrows(plan: seq<Planned>, isCurrent: bool, i: nat, j: nat)
    requires i < j < |Those(plan, isCurrent)|
    ensures ThoseAt(plan, isCurrent, i) < ThoseAt(plan, isCurrent, j)
  {
    var rest := plan[..|plan| - 1];
    if j < |Those(rest, isCurrent)| {
      ThoseAtGrows(rest, isCurrent, i, j);
    }
  }

  lemma {:induction false} ThoseAtCovers(plan: seq<Planned>, k: nat) returns (i: nat)
    requires k < |plan|
    ensures i < |Those(plan, plan[k].isCurrent)| && ThoseAt(plan, plan[k].isCurrent, i) == k
  {
    var rest := plan[..|plan| - 1];
    if k == |plan| - 1 {
      i := |Those(rest, plan[k].isCurrent)|;
    } else {
      i := ThoseAtCovers(rest, k);
    }
  }

  /** The index in the plan of the i-th item of the sorted plan. */
  function Unsorted(plan: seq<Planned>, i: nat): (at: nat)
    requires i < |Sorted(plan)|
    ensures at < |plan| && plan[at] == Sorted(plan)[i]
    ensures plan[at].isCurrent == (i < |Those(plan, true)|)
  {
    if i < |Those(plan, true)| then ThoseAt(plan, true, i) else ThoseAt(plan, false, i - |Those(plan, true)|)
  }

  lemma UnsortedGrows(plan: seq<Planned>, i: nat, j: nat)
    requires i < j < |Sorted(plan)|
    ensures var p, q := plan[Unsorted(plan, i)], plan[Unsorted(plan, j)];
            (p.isCurrent && !q.isCurrent) || (p.isCurrent == q.isCurrent && Unsorted(plan, i) < Unsorted(plan, j))
  {
    var currents := |Those(plan, true)|;
    if j < currents {
      ThoseAtGrows(plan, true, i, j);
    } else if i >= currents {
      ThoseAtGrows(plan, false, i - currents, j - currents);
    }
  }

  /** The index in `ids` of the i-th item of the sorted plan. */
  function Position(entries: Entries, ids: seq<string>, a: Address, i: nat): (at: nat)
    requires AllIn(ids, entries)
    requires i < |Sorted(PlanOf(entries, ids, a))|
    ensures at < |ids| && PlanFor(entries, a, ids[at]) == Some(Sorted(PlanOf(entries, ids, a))[i])
  {
    At(entries, ids, a, Unsorted(PlanOf(entries, ids, a), i))
  }

  /** The sorted plan is in order of rank. */
  lemma SortedByRank(entries: Entries, ids: seq<string>, a: Address, i: nat, j: nat)
    requires AllIn(ids, entries) && i < j < |Sorted(PlanOf(entries, ids, a))|
    ensures var plan := Sorted(PlanOf(entries, ids, a));
            Outranks(plan[i], Position(entries, ids, a, i), plan[j], Position(entries, ids, a, j))
  {
    var plan := PlanOf(entries, ids, a);
    UnsortedGrows(plan, i, j);
    if Unsorted(plan, i) < Unsorted(plan, j) {
      AtGrows(entries, ids, a, Unsorted(plan, i), Unsorted(plan, j));
    }
  }

  lemma PositionCovers(entries: Entries, ids: seq<string>, a: Address, k: nat) returns (i: nat)
    requires AllIn(ids, entries) && k < |ids| && PlanFor(entries, a, ids[k]).Some?
    ensures i < |Sorted(PlanOf(entries, ids, a))| && Position(entries, ids, a, i) == k
  {
    var plan := PlanOf(entries, ids, a);
    var n := AtCovers(entries, ids, a, k);
    i := ThoseAtCovers(plan, n);
    if !plan[n].isCurrent {
      i := i + |Those(plan, true)|;
    }
    assert Unsorted(plan, i) == n;
  }

  ghost predicate OwnAll(entries: Entries, ids: seq<string>, owner: string) {
    && Distinct(ids)
    && forall id :: id in ids <==> id in entries && entries[id].configEntry == owner
  }

  lemma PlanEntityId(entries: Entries, a: Address, id: string)
    requires id in entries && PlanFor(entries, a, id).Some?
    ensures PlanFor(entries, a, id).value.entityId == id
  {
  }

  lemma SortedPlanFits(entries: Entries, ids: seq<string>, a: Address)
    requires AllIn(ids, entries) && OwnAll(entries, ids, a.owner)
    ensures Fits(entries, a, Sorted(PlanOf(entries, ids, a)))
  {
    var plan := Sorted(PlanOf(entries, ids, a));
    forall k | 0 <= k < |plan|
      ensures plan[k].entityId == ids[Position(entries, ids, a, k)]
    {
      PlanEntityId(entries, a, ids[Position(entries, ids, a, k)]);
    }
    forall j, k | 0 <= j < k < |plan| ensures plan[j].entityId != plan[k].entityId {
      SortedByRank(entries, ids, a, j, k);
    }
  }

  /** Getting there first in the sorted plan is the same as outranking all rivals. */
  lemma WinsMeansTakesOver(entries: Entries, ids: seq<string>, a: Address, k: nat)
    requires AllIn(ids, entries) && k < |Sorted(PlanOf(entries, ids, a))|
    ensures Wins(entries, Sorted(PlanOf(entries, ids, a)), k)
            <==> TakesOver(entries, ids, a, Position(entries, ids, a, k))
  {
    hide FormOf, PlanFor, PlanOf, Sorted, Position, Held;
    var plan := Sorted(PlanOf(entries, ids, a));
    var i := Position(entries, ids, a, k);
    if Wins(entries, plan, k) {
      forall j | 0 <= j < |ids| && j != i
        ensures var q := PlanFor(entries, a, ids[j]);
                q.Some? && SameSlot(plan[k], q.value) ==> Outranks(plan[k], i, q.value, j)
      {
        if PlanFor(entries, a, ids[j]).Some? && SameSlot(plan[k], PlanFor(entries, a, ids[j]).value) {
          var q := PositionCovers(entries, ids, a, j);
          assert plan[q] == PlanFor(entries, a, ids[j]).value;
          assert SameSlot(plan[q], plan[k]);
          SortedByRank(entries, ids, a, k, q);
        }
      }
    } else if !Held(entries, plan[k].domain, plan[k].newUniqueId) {
      var q :| 0 <= q < k && SameSlot(plan[q], plan[k]);
      SortedByRank(entries, ids, a, q, k);
      var j := Position(entries, ids, a, q);
      assert j != i && SameSlot(plan[k], plan[q]) && !Outranks(plan[k], i, plan[q], j);
    }
  }

  lemma FinalStep(entries: Entries, ids: seq<string>, a: Address, now: Entries)
    requires AllIn(ids, entries) && OwnAll(entries, ids, a.owner)
    requires var plan := Sorted(PlanOf(entries, ids, a)); AtStep(entries, a, plan, |plan|, now)
    ensures IsMigrated(entries, ids, a, now)
  {
    var plan := Sorted(PlanOf(entries, ids, a));
    SortedPlanFits(entries, ids, a);
    forall id | id in entries
      ensures Fate(entries, a, plan, |plan|, id) == Outcome(entries, ids, a, id)
    {
      if entries[id].configEntry == a.owner && PlanFor(entries, a, id).Some? {
        var i :| 0 <= i < |ids| && ids[i] == id;
        var k := PositionCovers(entries, ids, a, i);
        FateOfPlanned(entries, a, plan, |plan|, k);
        WinsMeansTakesOver(entries, ids, a, k);
        PlanEntityId(entries, a, id);
      } else {
        FateOfOthers(entries, a, plan, |plan|, id);
        assert forall i :: 0 <= i < |ids| && ids[i] == id ==> !TakesOver(entries, ids, a, i);
      }
    }
  }

  // ── The migration ──────────────────────────────────────────────────────────

  /** Of these entries, exactly the unrecognised ones are gone. */
  ghost predicate Cleared(before: Entries, a: Address, ids: seq<string>, now: Entries) {
    now.Keys <= before.Keys &&
    forall id :: id in before ==>
      Lookup(now, id) == if id in ids && FormOf(before[id].uniqueId, a).Unrecognised? then None else Some(before[id])
  }

  lemma ClearedOneMore(before: Entries, a: Address, ids: seq<string>, now: Entries, id: string)
    requires Cleared(before, a, ids, now) && id in before && id !in ids
    ensures id in now && now[id] == before[id]
    ensures Cleared(before, a, ids + [id], if FormOf(before[id].uniqueId, a).Unrecognised? then now - {id} else now)
  {
  }

  lemma PlanOneMore(entries: Entries, ids: seq<string>, n: nat, a: Address)
    requires AllIn(ids, entries) && n < |ids|
    ensures var p := PlanFor(entries, a, ids[n]);
            PlanOf(entries, ids[..n + 1], a) == PlanOf(entries, ids[..n], a) + if p.Some? then [p.value] else []
  {
    assert ids[..n + 1][..n] == ids[..n];
  }

  lemma NothingPlanned(entries: Entries, ids: seq<string>, a: Address)
    requires AllIn(ids, entries)
    ensures PlanOf(entries, ids[..0], a) == [] && Cleared(entries, a, ids[..0], entries)
  {
  }

  lemma PlanIsStepZero(before: Entries, ids: seq<string>, a: Address, now: Entries)
    requires AllIn(ids, before) && OwnAll(before, ids, a.owner) && Cleared(before, a, ids, now)
    ensures AtStep(before, a, Sorted(PlanOf(before, ids, a)), 0, now)
  {
  }

  /** Plan the renames and drop what is not recognised. */
  method PlanMigration(registry: EntityRegistry, a: Address, ids: seq<string>) returns (plan: seq<Planned>)
    requires registry.Valid() && AllIn(ids, registry.entries) && OwnAll(registry.entries, ids, a.owner)
    modifies registry
    ensures registry.Valid()
    ensures plan == PlanOf(old(registry.entries), ids, a)
    ensures AtStep(old(registry.entries), a, Sorted(plan), 0, registry.entries)
  {
    hide Sorted, AtStep, EntityRegistry.Valid, FormOf, Cleared, PlanOf;
    ghost var before := registry.entries;
    plan := [];
    NothingPlanned(before, ids, a);
    for n := 0 to |ids|
      invariant registry.Valid() && Cleared(before, a, ids[..n], registry.entries)
      invariant AllIn(ids, before) && plan == PlanOf(before, ids[..n], a)
    {
      var id := ids[n];
      assert ids[..n + 1] == ids[..n] + [id];
      PlanOneMore(before, ids, n, a);
      assert id !in ids[..n];
      ClearedOneMore(before, a, ids[..n], registry.entries, id);
      var reg := registry.entries[id];
      match FormOf(reg.uniqueId, a) {
        case New =>
        case Current(suffix) =>
          plan := plan + [Planned(true, id, reg.domain, a.NewPrefix() + suffix)];
        case Orphan(suffix) =>
          plan := plan + [Planned(false, id, reg.domain, a.NewPrefix() + suffix)];
        case Unrecognised =>
          registry.Remove(id);
      }
    }
    assert ids[..|ids|] == ids;
    PlanIsStepZero(before, ids, a, registry.entries);
  }

  /** Rename one entry, or drop it when its new unique_id is taken. */
  method MigrateOne(registry: EntityRegistry, a: Address, ghost before: Entries, ghost plan: seq<Planned>, ghost k: nat,
                    item: Planned)
    requires registry.Valid() && k < |plan| && item == plan[k]
    requires Fits(before, a, plan) && AtStep(before, a, plan, k, registry.entries)
    modifies registry
    ensures registry.Valid() && AtStep(before, a, plan, k + 1, registry.entries)
  {
    ghost var now := registry.entries;
    FateOfOthers(before, a, plan, k, item.entityId);
    PlannedPrefix(before, a, item.entityId);
    assert Lookup(now, item.entityId) == Some(before[item.entityId]);
    if Wins(before, plan, k) {
      WinnerIsFree(before, a, plan, k, now);
    } else {
      TakenMeansLoses(before, a, plan, k, now);
    }
    if registry.HasEntity(item.domain, item.newUniqueId) {
      registry.Remove(item.entityId);
    } else {
      registry.UpdateUniqueId(item.entityId, item.newUniqueId);
    }
    forall id | id in before
      ensures Lookup(registry.entries, id) == Fate(before, a, plan, k + 1, id)
    {
      assert Lookup(now, id) == Fate(before, a, plan, k, id);
    }
  }

  method MigrateUniqueIds(registry: EntityRegistry, a: Address)
    requires registry.Valid()
    modifies registry
    ensures registry.Valid()
    ensures var ids := OwnIds(old(registry.entries), registry.order, a.owner);
            AllIn(ids, old(registry.entries)) && IsMigrated(old(registry.entries), ids, a, registry.entries)
  {
    ghost var before := registry.entries;
    OwnIdsAreOwn(before, registry.order, a.owner);
    var ids := registry.EntriesFor(a.owner);
    assert AllIn(ids, before);
    var plan := PlanMigration(registry, a, ids);
    var sorted := Sorted(plan);
    SortedPlanFits(before, ids, a);
    for k := 0 to |sorted|
      invariant registry.Valid() && AtStep(before, a, sorted, k, registry.entries)
    {
      MigrateOne(registry, a, before, sorted, k, sorted[k]);
    }
    FinalStep(before, ids, a, registry.entries);
  }

  // ── What the migration guarantees ──────────────────────────────────────────

  /** The registry the migration starts from: `ids` are the config entry's entities in order. */
  ghost predicate Start(entries: Entries, ids: seq<string>, a: Address) {
    AllIn(ids, entries) && OwnAll(entries, ids, a.owner) && Unique(entries)
  }

  /** The unique_id an entity stands for, in whichever form it has it. */
  function Meant(entries: Entries, a: Address, id: string): Option<string>
    requires id in entries
  {
    match FormOf(entries[id].uniqueId, a)
    case New => Some(entries[id].uniqueId)
    case Current(suffix) => Some(a.NewPrefix() + suffix)
    case Orphan(suffix) => Some(a.NewPrefix() + suffix)
    case Unrecognised => None
  }

  /** The entity that is to keep the slot: whoever has the new unique_id already, else the
      highest-ranking of those that stand for it. */
  ghost predicate Heir(entries: Entries, ids: seq<string>, a: Address, domain: string, uid: string, id: string)
    requires AllIn(ids, entries)
  {
    && id in entries && entries[id].domain == domain
    && (if Held(entries, domain, uid) then entries[id].uniqueId == uid
        else exists i :: 0 <= i < |ids| && ids[i] == id && TakesOver(entries, ids, a, i)
                         && Meant(entries, a, id) == Some(uid))
  }

  lemma OldFormMeans(entries: Entries, a: Address, id: string)
    requires id in entries
    ensures PlanFor(entries, a, id).Some? ==> Meant(entries, a, id) == Some(PlanFor(entries, a, id).value.newUniqueId)
    ensures Meant(entries, a, id).Some? ==> a.NewPrefix() <= Meant(entries, a, id).value
    ensures PlanFor(entries, a, id).None? && Meant(entries, a, id).Some? ==> Meant(entries, a, id) == Some(entries[id].uniqueId)
  {
  }

  /** Two entities never end up with the same unique_id. */
  lemma MigratedIsUnique(before: Entries, ids: seq<string>, a: Address, after: Entries)
    requires Start(before, ids, a) && IsMigrated(before, ids, a, after)
    ensures Unique(after)
  {
    forall x, y | x in after && y in after && x != y
      ensures !Holds(after[x], after[y].domain, after[y].uniqueId)
    {
      assert Lookup(after, x) == Outcome(before, ids, a, x) && Lookup(after, y) == Outcome(before, ids, a, y);
      if after[x] != before[x] && after[y] != before[y] {
        var i :| 0 <= i < |ids| && ids[i] == x && TakesOver(before, ids, a, i);
        var j :| 0 <= j < |ids| && ids[j] == y && TakesOver(before, ids, a, j);
        PlannedPrefix(before, a, x);
        PlannedPrefix(before, a, y);
        assert !(Outranks(PlanFor(before, a, x).value, i, PlanFor(before, a, y).value, j)
                 && Outranks(PlanFor(before, a, y).value, j, PlanFor(before, a, x).value, i));
      } else if after[x] == before[x] && after[y] == before[y] {
        assert !Holds(before[x], before[y].domain, before[y].uniqueId);
      } else {
        var mover, stayer := if after[x] != before[x] then x else y, if after[x] != before[x] then y else x;
        var i :| 0 <= i < |ids| && ids[i] == mover && TakesOver(before, ids, a, i);
        PlannedPrefix(before, a, mover);
        assert !Holds(before[stayer], before[mover].domain, after[mover].uniqueId);
      }
    }
  }

  /** For every entity of the config entry that is recognised, in new, current-address or
      old-address form, exactly one entity has its new unique_id afterwards, under its old
      entity_id: the one that had it already, else the one of the current address, else the
      first orphan in registry order. */
  lemma EveryEntityHasOneHeir(before: Entries, ids: seq<string>, a: Address, after: Entries, id: string) returns (heir: string)
    requires Start(before, ids, a) && IsMigrated(before, ids, a, after)
    requires id in ids && Meant(before, a, id).Some?
    ensures var domain, uid := before[id].domain, Meant(before, a, id).value;
            && Heir(before, ids, a, domain, uid, heir)
            && heir in after && Holds(after[heir], domain, uid)
            && forall other :: other in after && Holds(after[other], domain, uid) ==> other == heir
  {
    var domain, uid := before[id].domain, Meant(before, a, id).value;
    OldFormMeans(before, a, id);
    MigratedIsUnique(before, ids, a, after);
    if Held(before, domain, uid) {
      heir :| heir in before && Holds(before[heir], domain, uid);
      assert FormOf(before[heir].uniqueId, a) == New;
      assert Lookup(after, heir) == Outcome(before, ids, a, heir);
    } else {
      assert PlanFor(before, a, id).Some? by {
        if PlanFor(before, a, id).None? {
          assert Holds(before[id], domain, uid);
        }
      }
      PlannedPrefix(before, a, id);
      var plan := Sorted(PlanOf(before, ids, a));
      var i :| 0 <= i < |ids| && ids[i] == id;
      var k := PositionCovers(before, ids, a, i);
      var w := FirstWantingWins(before, plan, k);
      WinsMeansTakesOver(before, ids, a, w);
      var at := Position(before, ids, a, w);
      heir := ids[at];
      OldFormMeans(before, a, heir);
      PlannedPrefix(before, a, heir);
      assert Lookup(after, heir) == Outcome(before, ids, a, heir);
    }
  }

  /** Afterwards every entity of the config entry has a new-form unique_id, kept its entity_id
      and domain, and no other config entry's entity was touched. */
  lemma OnlyNewFormsRemain(before: Entries, ids: seq<string>, a: Address, after: Entries, id: string)
    requires Start(before, ids, a) && IsMigrated(before, ids, a, after)
    requires id in before
    ensures before[id].configEntry != a.owner ==> Lookup(after, id) == Some(before[id])
    ensures id in after ==>
              && after[id] == before[id].(uniqueId := after[id].uniqueId)
              && (after[id].configEntry == a.owner ==>
                    a.NewPrefix() <= after[id].uniqueId && Meant(before, a, id) == Some(after[id].uniqueId))
  {
  }

  /** Running the migration again changes nothing. */
  lemma MigratingTwiceIsMigratingOnce(before: Entries, ids: seq<string>, a: Address, after: Entries,
                                      idsAgain: seq<string>, again: Entries)
    requires Start(before, ids, a) && IsMigrated(before, ids, a, after)
    requires Start(after, idsAgain, a) && IsMigrated(after, idsAgain, a, again)
    ensures again == after
  {
    forall id | id in after
      ensures Lookup(again, id) == Some(after[id])
    {
      OnlyNewFormsRemain(before, ids, a, after, id);
      assert Lookup(again, id) == Outcome(after, idsAgain, a, id);
    }
  }

  // ── The migration on strings ────────────────────────────────────────────────

  /** The unique_id of the current address with this suffix. */
  predicate IsCurrentId(uid: string, a: Address, suffix: string) {
    uid == a.host + "_" + a.port + "_" + suffix
  }

  /** A unique_id of some address with this suffix: a host without underscore, a port of digits,
      and a suffix of one line, with or without a newline behind it. */
  ghost predicate IsAddressId(uid: string, suffix: string) {
    exists host: string, port: string, end: string :: AreParts(uid, host, port, suffix, end)
  }

  predicate AreParts(uid: string, host: string, port: string, suffix: string, end: string) {
    && uid == host + "_" + (port + "_" + (suffix + end))
    && host != "" && '_' !in host
    && port != "" && (forall k :: 0 <= k < |port| ==> '0' <= port[k] <= '9')
    && suffix != "" && '\n' !in suffix && (end == "" || end == "\n")
  }

  ghost predicate IsNewId(uid: string, a: Address) {
    a.owner + "_" <= uid
  }

  lemma {:induction false} HeadEnds(head: string, c: char, tail: string)
    requires c !in head
    ensures IndexOf(head + [c] + tail, c) == |head|
    ensures (head + [c] + tail)[..|head|] == head && (head + [c] + tail)[|head| + 1..] == tail
  {
    if head != "" {
      HeadEnds(head[1..], c, tail);
      assert (head + [c] + tail)[1..] == head[1..] + [c] + tail;
      assert head[0] in head;
    }
  }

  lemma LineOf(suffix: string, end: string)
    requires suffix != "" && '\n' !in suffix && (end == "" || end == "\n")
    ensures Line(suffix + end) == suffix
  {
    assert suffix[|suffix| - 1] in suffix;
    assert suffix + "" == suffix && (suffix + "\n")[..|suffix|] == suffix;
  }

  lemma LineEnds(rest: string) returns (end: string)
    ensures (end == "" || end == "\n") && rest == Line(rest) + end
  {
    end := if rest != "" && rest[|rest| - 1] == '\n' then "\n" else "";
  }

  lemma AddressIdHasSuffix(uid: string, suffix: string)
    requires IsAddressId(uid, suffix)
    ensures OldSuffix(uid) == Some(suffix)
  {
    hide IndexOf, Line;
    var host: string, port: string, end: string :| AreParts(uid, host, port, suffix, end);
    HeadEnds(host, '_', port + "_" + (suffix + end));
    assert '_' !in port;
    HeadEnds(port, '_', suffix + end);
    LineOf(suffix, end);
  }

  lemma SuffixMeansAddressId(uid: string)
    requires OldSuffix(uid).Some?
    ensures IsAddressId(uid, OldSuffix(uid).value)
  {
    hide IndexOf, Line;
    var first := IndexOf(uid, '_');
    var tail := uid[first + 1..];
    var second := IndexOf(tail, '_');
    var host, port := uid[..first], tail[..second];
    var end := LineEnds(tail[second + 1..]);
    assert uid == host + "_" + tail && tail == port + "_" + tail[second + 1..];
    assert AreParts(uid, host, port, OldSuffix(uid).value, end);
  }

  lemma CurrentIdHasSuffix(uid: string, a: Address, suffix: string)
    requires IsCurrentId(uid, a, suffix)
    ensures a.CurrentPrefix() <= uid && uid[|a.CurrentPrefix()|..] == suffix
  {
  }

  /** An id of the current address, and one of another address; new ids are neither. */
  ghost predicate OfCurrent(uid: string, a: Address, suffix: string) {
    !IsNewId(uid, a) && IsCurrentId(uid, a, suffix)
  }

  ghost predicate OfOther(uid: string, a: Address, suffix: string) {
    !IsNewId(uid, a) && IsAddressId(uid, suffix) && forall s :: !IsCurrentId(uid, a, s)
  }

  /** What every unique_id means: which of the forms it has, and its suffix. */
  lemma FormOnStrings(uid: string, a: Address)
    ensures FormOf(uid, a).New? <==> IsNewId(uid, a)
    ensures forall suffix :: FormOf(uid, a) == Current(suffix) <==> OfCurrent(uid, a, suffix)
    ensures forall suffix :: FormOf(uid, a) == Orphan(suffix) <==> OfOther(uid, a, suffix)
  {
    hide OldSuffix, IsAddressId;
    forall suffix | IsCurrentId(uid, a, suffix) ensures a.CurrentPrefix() <= uid && uid[|a.CurrentPrefix()|..] == suffix {
      CurrentIdHasSuffix(uid, a, suffix);
    }
    if a.CurrentPrefix() <= uid {
      assert IsCurrentId(uid, a, uid[|a.CurrentPrefix()|..]);
    }
    forall suffix | IsAddressId(uid, suffix) ensures OldSuffix(uid) == Some(suffix) {
      AddressIdHasSuffix(uid, suffix);
    }
    if OldSuffix(uid).Some? {
      SuffixMeansAddressId(uid);
    }
  }

  lemma PlanOnStrings(entries: Entries, a: Address, id: string, suffix: string)
    requires id in entries
    ensures OfCurrent(entries[id].uniqueId, a, suffix) ==>
              PlanFor(entries, a, id) == Some(Planned(true, id, entries[id].domain, a.owner + "_" + suffix))
    ensures OfOther(entries[id].uniqueId, a, suffix) ==>
              PlanFor(entries, a, id) == Some(Planned(false, id, entries[id].domain, a.owner + "_" + suffix))
  {
    hide FormOf, OfCurrent, OfOther;
    FormOnStrings(entries[id].uniqueId, a);
  }

  /** Whoever is planned for this new id stands for this suffix. */
  lemma PlannedStandsFor(entries: Entries, a: Address, id: string, suffix: string)
    requires id in entries && PlanFor(entries, a, id).Some?
    requires PlanFor(entries, a, id).value.newUniqueId == a.owner + "_" + suffix
    ensures if PlanFor(entries, a, id).value.isCurrent then OfCurrent(entries[id].uniqueId, a, suffix)
            else OfOther(entries[id].uniqueId, a, suffix)
  {
    hide FormOf, OfCurrent, OfOther;
    FormOnStrings(entries[id].uniqueId, a);
    var form := FormOf(entries[id].uniqueId, a);
    assert a.NewPrefix() + form.suffix == a.NewPrefix() + suffix;
    assert form.suffix == (a.NewPrefix() + form.suffix)[|a.NewPrefix()|..];
    assert suffix == (a.NewPrefix() + suffix)[|a.NewPrefix()|..];
  }

  /** What becomes of an entity of the config entry: a new id stays, an id of the current or of
      another address becomes the owner and the same suffix if the entity survives, and an id of
      neither shape goes. */
  lemma MigratedOnStrings(before: Entries, ids: seq<string>, a: Address, after: Entries, id: string, suffix: string)
    requires Start(before, ids, a) && IsMigrated(before, ids, a, after) && id in ids
    ensures var uid := before[id].uniqueId;
            && (IsNewId(uid, a) ==> Lookup(after, id) == Some(before[id]))
            && ((OfCurrent(uid, a, suffix) || OfOther(uid, a, suffix)) && id in after ==>
                  after[id] == before[id].(uniqueId := a.owner + "_" + suffix))
            && (!IsNewId(uid, a) && (forall s :: !OfCurrent(uid, a, s) && !OfOther(uid, a, s)) ==> id !in after)
  {
    hide FormOf, OfCurrent, OfOther;
    FormOnStrings(before[id].uniqueId, a);
    PlanOnStrings(before, a, id, suffix);
    var form := FormOf(before[id].uniqueId, a);
    if form.Current? {
      assert OfCurrent(before[id].uniqueId, a, form.suffix);
    } else if form.Orphan? {
      assert OfOther(before[id].uniqueId, a, form.suffix);
    }
    assert Lookup(after, id) == Outcome(before, ids, a, id);
  }

  /** An entity of the current address survives exactly when nobody has its new id already. */
  lemma CurrentAddressSurvives(before: Entries, ids: seq<string>, a: Address, after: Entries, id: string, suffix: string)
    requires Start(before, ids, a) && IsMigrated(before, ids, a, after)
    requires id in ids && OfCurrent(before[id].uniqueId, a, suffix)
    ensures id in after <==> !Held(before, before[id].domain, a.owner + "_" + suffix)
  {
    hide FormOf, OfOther, IsAddressId;
    var domain := before[id].domain;
    FormOnStrings(before[id].uniqueId, a);
    PlanOnStrings(before, a, id, suffix);
    var p := PlanFor(before, a, id).value;
    assert Lookup(after, id) == Outcome(before, ids, a, id);
    var i :| 0 <= i < |ids| && ids[i] == id;
    forall j | 0 <= j < |ids| && j != i
      ensures var q := PlanFor(before, a, ids[j]); q.Some? && SameSlot(p, q.value) ==> Outranks(p, i, q.value, j)
    {
      var q := PlanFor(before, a, ids[j]);
      if q.Some? && SameSlot(p, q.value) && q.value.isCurrent {
        PlannedStandsFor(before, a, ids[j], suffix);
        PlannedPrefix(before, a, ids[j]);
        assert false;
      }
    }
  }

  /** An entity of another address survives exactly when nobody has its new id already, no entity
      of the current address stands for it, and no other orphan does that comes earlier in the
      registry. */
  lemma OrphanSurvives(before: Entries, ids: seq<string>, a: Address, after: Entries, i: nat, suffix: string)
    requires Start(before, ids, a) && IsMigrated(before, ids, a, after)
    requires i < |ids| && OfOther(before[ids[i]].uniqueId, a, suffix)
    ensures var domain := before[ids[i]].domain;
            ids[i] in after <==>
              && !Held(before, domain, a.owner + "_" + suffix)
              && (forall j :: 0 <= j < |ids| && before[ids[j]].domain == domain ==> !OfCurrent(before[ids[j]].uniqueId, a, suffix))
              && (forall j :: 0 <= j < i && before[ids[j]].domain == domain ==> !OfOther(before[ids[j]].uniqueId, a, suffix))
  {
    hide FormOf, OfCurrent, OfOther;
    var id, domain := ids[i], before[ids[i]].domain;
    FormOnStrings(before[id].uniqueId, a);
    PlanOnStrings(before, a, id, suffix);
    var p := PlanFor(before, a, id).value;
    assert Lookup(after, id) == Outcome(before, ids, a, id);
    forall j | 0 <= j < |ids|
      ensures OfCurrent(before[ids[j]].uniqueId, a, suffix) && before[ids[j]].domain == domain ==>
                PlanFor(before, a, ids[j]) == Some(Planned(true, ids[j], domain, p.newUniqueId))
      ensures OfOther(before[ids[j]].uniqueId, a, suffix) && before[ids[j]].domain == domain ==>
                PlanFor(before, a, ids[j]) == Some(Planned(false, ids[j], domain, p.newUniqueId))
      ensures var q := PlanFor(before, a, ids[j]);
              q.Some? && SameSlot(p, q.value) ==>
                && before[ids[j]].domain == domain
                && if q.value.isCurrent then OfCurrent(before[ids[j]].uniqueId, a, suffix)
                   else OfOther(before[ids[j]].uniqueId, a, suffix)
    {
      PlanOnStrings(before, a, ids[j], suffix);
      var q := PlanFor(before, a, ids[j]);
      if q.Some? && SameSlot(p, q.value) {
        PlannedStandsFor(before, a, ids[j], suffix);
        PlannedPrefix(before, a, ids[j]);
      }
    }
    if id in after {
      var k :| 0 <= k < |ids| && ids[k] == id && TakesOver(before, ids, a, k);
      assert k == i;
    } else {
      assert !TakesOver(before, ids, a, i);
    }
  }
}
