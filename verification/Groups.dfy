/** Editing group records: a domain in a URL group, a host in an IP host group. */
module Groups {
  import opened Wrappers
  import opened Texts
  import opened XmlRecords

  /** Why a record may not be edited. */
  datatype Refusal = BuiltIn | NotIPv4

  // ── Children of an element ─────────────────────────────────────────────────

  /** Index of the first child that satisfies the test, or the number of children. */
  function FirstIndex(children: seq<Elem>, test: Elem -> bool): (i: nat)
    ensures i <= |children| && (i < |children| ==> test(children[i]))
    ensures forall k :: 0 <= k < i ==> !test(children[k])
  {
    if children == [] then 0
    else if test(children[0]) then 0
    else
      var i := FirstIndex(children[1..], test);
      assert forall k :: 0 < k < i + 1 ==> children[k] == children[1..][k - 1];
      i + 1
  }

  function Without(children: seq<Elem>, drop: Elem -> bool): (r: seq<Elem>)
    ensures |r| <= |children|
  {
    if children == [] then []
    else
      var last := children[|children| - 1];
      Without(children[..|children| - 1], drop) + if drop(last) then [] else [last]
  }

  function Hits(children: seq<Elem>, test: Elem -> bool): (r: seq<Elem>)
    ensures r == [] <==> forall k :: 0 <= k < |children| ==> !test(children[k])
  {
    if children == [] then []
    else
      var last := children[|children| - 1];
      Hits(children[..|children| - 1], test) + if test(last) then [last] else []
  }

  lemma {:induction false} WithoutAndHits(children: seq<Elem>, test: Elem -> bool)
    ensures |Without(children, test)| + |Hits(children, test)| == |children|
    ensures Hits(children, test) == [] ==> Without(children, test) == children
  {
    if children != [] {
      WithoutAndHits(children[..|children| - 1], test);
      assert children == children[..|children| - 1] + [children[|children| - 1]];
    }
  }

  function DropAt(children: seq<Elem>, i: nat): seq<Elem>
    requires i < |children|
  {
    children[..i] + children[i + 1..]
  }

  /** Taking out the first hit leaves one hit fewer and the same rest. */
  lemma {:induction false} DropFirst(children: seq<Elem>, test: Elem -> bool)
    requires FirstIndex(children, test) < |children|
    ensures var fewer := DropAt(children, FirstIndex(children, test));
            && Without(fewer, test) == Without(children, test)
            && |Hits(children, test)| == |Hits(fewer, test)| + 1
  {
    hide FirstIndex, Without, Hits;
    var i, n := FirstIndex(children, test), |children| - 1;
    var front := children[..n];
    assert children == front + [children[n]];
    OneMore(front, children[n], test);
    if i == n {
      assert DropAt(children, i) == front;
    } else {
      FirstInFront(children, front, test);
      DropFirst(front, test);
      assert DropAt(children, i) == DropAt(front, i) + [children[n]];
      OneMore(DropAt(front, i), children[n], test);
    }
  }

  lemma FirstInFront(children: seq<Elem>, front: seq<Elem>, test: Elem -> bool)
    requires front <= children && FirstIndex(children, test) < |front|
    ensures FirstIndex(front, test) == FirstIndex(children, test)
  {
  }

  lemma OneMore(children: seq<Elem>, last: Elem, test: Elem -> bool)
    ensures Without(children + [last], test) == Without(children, test) + if test(last) then [] else [last]
    ensures Hits(children + [last], test) == Hits(children, test) + if test(last) then [last] else []
  {
  }

  /** `for entry in existing: parent.remove(entry)`. */
  method RemoveEach(children: seq<Elem>, test: Elem -> bool) returns (rest: seq<Elem>)
    ensures rest == Without(children, test)
  {
    rest := children;
    var n := |Hits(children, test)|;
    for k := 0 to n
      invariant Without(rest, test) == Without(children, test)
      invariant |Hits(rest, test)| == n - k
    {
      var i := FirstIndex(rest, test);
      assert i < |rest| by {
        assert Hits(rest, test) != [];
      }
      DropFirst(rest, test);
      rest := DropAt(rest, i);
    }
    WithoutAndHits(rest, test);
  }

  function TagTest(tag: string): Elem -> bool {
    (e: Elem) => e.tag == tag
  }

  function ChildText(e: Elem, tag: string): Option<string> {
    var i := FirstIndex(e.children, TagTest(tag));
    if i < |e.children| && Strip(e.children[i].text) != "" then Some(Strip(e.children[i].text)) else None
  }

  function TextOr(e: Elem, tag: string, default: string): string {
    var text := ChildText(e, tag);
    if text.Some? then text.value else default
  }

  function NewLeaf(tag: string, text: string): Elem {
    Elem(tag, map[], text, [])
  }

  // ── The list of members inside a record ─────────────────────────────────────

  /** The members: the children of the first child that is the list. */
  function Members(e: Elem, isList: Elem -> bool): seq<Elem> {
    var i := FirstIndex(e.children, isList);
    if i < |e.children| then e.children[i].children else []
  }

  predicate HasMember(e: Elem, isList: Elem -> bool, test: Elem -> bool) {
    Hits(Members(e, isList), test) != []
  }

  /** The element with the children of child i replaced. */
  function WithGrandchildren(e: Elem, i: nat, grandchildren: seq<Elem>): Elem
    requires i < |e.children|
  {
    e.(children := e.children[i := e.children[i].(children := grandchildren)])
  }

  function InsertChild(e: Elem, at: nat, child: Elem): Elem
    requires at <= |e.children|
  {
    e.(children := e.children[..at] + [child] + e.children[at..])
  }

  function RemoveChild(e: Elem, i: nat): Elem
    requires i < |e.children|
  {
    e.(children := DropAt(e.children, i))
  }

  /** Append a member; a missing list is created at this place. */
  function AddMember(e: Elem, isList: Elem -> bool, at: nat, listTag: string, member: Elem): Elem
    requires at <= |e.children|
  {
    var i := FirstIndex(e.children, isList);
    if i < |e.children| then WithGrandchildren(e, i, e.children[i].children + [member])
    else InsertChild(e, at, Elem(listTag, map[], "", [member]))
  }

  /** Take the hits out; a list left without children goes as well. */
  function DropMembers(e: Elem, isList: Elem -> bool, test: Elem -> bool): Elem {
    var i := FirstIndex(e.children, isList);
    var rest := Without(Members(e, isList), test);
    if !HasMember(e, isList, test) then e
    else if rest == [] then RemoveChild(e, i)
    else WithGrandchildren(e, i, rest)
  }

  /** The list is there but has no children. */
  predicate EmptyList(e: Elem, isList: Elem -> bool) {
    FirstIndex(e.children, isList) < |e.children| && Members(e, isList) == []
  }

  lemma InsertThenFill(e: Elem, at: nat, listTag: string, member: Elem)
    requires at <= |e.children|
    ensures var inserted := InsertChild(e, at, Elem(listTag, map[], "", []));
            && inserted.children[at].children == []
            && WithGrandchildren(inserted, at, inserted.children[at].children + [member])
               == InsertChild(e, at, Elem(listTag, map[], "", [member]))
  {
    var inserted := InsertChild(e, at, Elem(listTag, map[], "", []));
    assert inserted.children[at].children + [member] == [member];
    assert inserted.children[at := Elem(listTag, map[], "", [member])]
           == e.children[..at] + [Elem(listTag, map[], "", [member])] + e.children[at..];
  }

  // ── URL groups ─────────────────────────────────────────────────────────────

  /** The domain as it is compared and stored. */
  function Domain(url: string): string {
    Lower(Strip(url))
  }

  predicate IsUrlList(e: Elem) {
    Lower(e.tag) == "urllist"
  }

  function UrlTest(domain: string): Elem -> bool {
    (e: Elem) => Lower(e.tag) == "url" && Domain(e.text) == domain
  }

  /** The domain is in the group. */
  predicate HasUrl(e: Elem, domain: string) {
    HasMember(e, IsUrlList, UrlTest(domain))
  }

  predicate EditableUrlGroup(e: Elem) {
    Lower(TextOr(e, "IsDefault", "No")) == "no"
  }

  function WithUrl(e: Elem, domain: string): Elem {
    if HasUrl(e, domain) then e
    else AddMember(e, IsUrlList, |e.children|, "URLlist", NewLeaf("URL", domain))
  }

  function WithoutUrl(e: Elem, domain: string): Elem {
    DropMembers(e, IsUrlList, UrlTest(domain))
  }

  // ── IP host groups ─────────────────────────────────────────────────────────

  predicate IsHostList(e: Elem) {
    e.tag == "HostList"
  }

  predicate IsIpFamily(e: Elem) {
    e.tag == "IPFamily"
  }

  function HostTest(hosts: set<string>): Elem -> bool {
    (e: Elem) => e.tag == "Host" && Strip(e.text) in hosts
  }

  /** One of these hosts is a member of the group. */
  predicate HasHost(e: Elem, hosts: set<string>) {
    HasMember(e, IsHostList, HostTest(hosts))
  }

  /** The names of those members that are among these hosts, in order. */
  function MembersAmong(e: Elem, hosts: set<string>): seq<string> {
    var hits := Hits(Members(e, IsHostList), HostTest(hosts));
    seq(|hits|, k requires 0 <= k < |hits| => Strip(hits[k].text))
  }

  predicate Ipv4Group(e: Elem) {
    TextOr(e, "IPFamily", "IPv4") == "IPv4"
  }

  /** A new host list goes before the family, where the documentation has it. */
  function WithHost(e: Elem, host: string): Elem {
    if HasHost(e, {host}) then e
    else AddMember(e, IsHostList, FirstIndex(e.children, IsIpFamily), "HostList", NewLeaf("Host", host))
  }

  function WithoutHosts(e: Elem, hosts: set<string>): Elem {
    DropMembers(e, IsHostList, HostTest(hosts))
  }

  // ── The record being edited ────────────────────────────────────────────────

  /** A record as read from the firewall, edited in place before it is written back. */
  class RecordEdit {
    var elem: Elem

    constructor (elem: Elem)
      ensures this.elem == elem
    {
      this.elem := elem;
    }

    /** Remove the given members and, if nothing is left of it, their list. */
    method Remove(isList: Elem -> bool, test: Elem -> bool) returns (removed: seq<Elem>)
      modifies this
      ensures elem == DropMembers(old(elem), isList, test)
      ensures removed == Hits(Members(old(elem), isList), test)
    {
      var i := FirstIndex(elem.children, isList);
      if i == |elem.children| {
        return [];
      }
      removed := Hits(elem.children[i].children, test);
      var rest := RemoveEach(elem.children[i].children, test);
      if removed == [] {
        return;
      }
      elem := if rest == [] then RemoveChild(elem, i) else WithGrandchildren(elem, i, rest);
    }

    /** Add a domain to a URL group or remove it; the result says whether there is something to
        write. A built-in group is refused. */
    method SetUrl(url: string, present: bool) returns (changed: Result<bool, Refusal>)
      modifies this
      ensures !EditableUrlGroup(old(elem)) ==> changed == Err(BuiltIn) && elem == old(elem)
      ensures EditableUrlGroup(old(elem)) ==>
                && elem == (if present then WithUrl(old(elem), Domain(url)) else WithoutUrl(old(elem), Domain(url)))
                && changed == Ok(HasUrl(old(elem), Domain(url)) != present)
    {
      var wanted := Lower(Strip(url));
      if Lower(TextOr(elem, "IsDefault", "No")) != "no" {
        return Err(BuiltIn);
      }
      if !present {
        var removed := Remove(IsUrlList, UrlTest(wanted));
        return Ok(removed != []);
      }
      var i := FirstIndex(elem.children, IsUrlList);
      var existing := Hits(Members(elem, IsUrlList), UrlTest(wanted));
      if existing == [] {
        InsertThenFill(elem, |elem.children|, "URLlist", NewLeaf("URL", wanted));
        if i == |elem.children| {
          elem := InsertChild(elem, i, Elem("URLlist", map[], "", []));
        }
        elem := WithGrandchildren(elem, i, elem.children[i].children + [NewLeaf("URL", wanted)]);
      }
      changed := Ok(existing == []);
    }

    /** Put a host into an IP host group. */
    method AddHost(host: string) returns (changed: Result<bool, Refusal>)
      modifies this
      ensures !Ipv4Group(old(elem)) ==> changed == Err(NotIPv4) && elem == old(elem)
      ensures Ipv4Group(old(elem)) ==> elem == WithHost(old(elem), host) && changed == Ok(!HasHost(old(elem), {host}))
    {
      if TextOr(elem, "IPFamily", "IPv4") != "IPv4" {
        return Err(NotIPv4);
      }
      if HasHost(elem, {host}) {
        return Ok(false);
      }
      var i := FirstIndex(elem.children, IsHostList);
      InsertThenFill(elem, FirstIndex(elem.children, IsIpFamily), "HostList", NewLeaf("Host", host));
      if i == |elem.children| {
        i := FirstIndex(elem.children, IsIpFamily);
        elem := InsertChild(elem, i, Elem("HostList", map[], "", []));
      }
      elem := WithGrandchildren(elem, i, elem.children[i].children + [NewLeaf("Host", host)]);
      changed := Ok(true);
    }

    /** Take every one of these hosts out of an IP host group; their names are returned. */
    method RemoveHosts(hosts: set<string>) returns (removed: Result<seq<string>, Refusal>)
      modifies this
      ensures !Ipv4Group(old(elem)) ==> removed == Err(NotIPv4) && elem == old(elem)
      ensures Ipv4Group(old(elem)) ==> elem == WithoutHosts(old(elem), hosts) && removed == Ok(MembersAmong(old(elem), hosts))
    {
      if TextOr(elem, "IPFamily", "IPv4") != "IPv4" {
        return Err(NotIPv4);
      }
      var entries := Remove(IsHostList, HostTest(hosts));
      removed := Ok(seq(|entries|, k requires 0 <= k < |entries| => Strip(entries[k].text)));
    }
  }

  // ── What adding and removing do to the membership ───────────────────────────

  /** Whether an element is the list depends on its tag only. */
  ghost predicate ByTag(isList: Elem -> bool) {
    forall e: Elem, f: Elem :: e.tag == f.tag ==> isList(e) == isList(f)
  }

  lemma ListStays(children: seq<Elem>, isList: Elem -> bool, i: nat, e: Elem)
    requires i == FirstIndex(children, isList) < |children| && isList(e)
    ensures FirstIndex(children[i := e], isList) == i
  {
    var changed := children[i := e];
    assert isList(changed[i]);
    assert forall k :: 0 <= k < i ==> changed[k] == children[k];
  }

  lemma ListInserted(children: seq<Elem>, isList: Elem -> bool, at: nat, e: Elem)
    requires FirstIndex(children, isList) == |children| && at <= |children| && isList(e)
    ensures FirstIndex(children[..at] + [e] + children[at..], isList) == at
  {
    var more := children[..at] + [e] + children[at..];
    assert isList(more[at]);
    assert forall k :: 0 <= k < at ==> more[k] == children[k];
  }

  lemma AddedMembers(e: Elem, isList: Elem -> bool, at: nat, listTag: string, member: Elem)
    requires at <= |e.children| && ByTag(isList) && isList(NewLeaf(listTag, ""))
    ensures Members(AddMember(e, isList, at, listTag, member), isList) == Members(e, isList) + [member]
    ensures var i, j := FirstIndex(e.children, isList), FirstIndex(AddMember(e, isList, at, listTag, member).children, isList);
            j == if i < |e.children| then i else at
  {
    var i := FirstIndex(e.children, isList);
    if i < |e.children| {
      ListStays(e.children, isList, i, e.children[i].(children := e.children[i].children + [member]));
    } else {
      var list := Elem(listTag, map[], "", [member]);
      assert isList(list) == isList(NewLeaf(listTag, ""));
      ListInserted(e.children, isList, at, list);
    }
  }

  lemma {:induction false} ReplaceHit(children: seq<Elem>, i: nat, e: Elem, test: Elem -> bool)
    requires i < |children| && test(children[i]) && test(e)
    ensures Without(children[i := e], test) == Without(children, test)
  {
    var n := |children| - 1;
    if i < n {
      ReplaceHit(children[..n], i, e, test);
      assert children[i := e][..n] == children[..n][i := e];
    } else {
      assert children[i := e][..n] == children[..n];
    }
  }

  lemma {:induction false} InsertHit(children: seq<Elem>, at: nat, e: Elem, test: Elem -> bool)
    requires at <= |children| && test(e)
    ensures Without(children[..at] + [e] + children[at..], test) == Without(children, test)
  {
    var n := |children| - 1;
    var more := children[..at] + [e] + children[at..];
    if at <= n {
      InsertHit(children[..n], at, e, test);
      assert more == (children[..n][..at] + [e] + children[..n][at..]) + [children[n]];
      OneMore(children[..n][..at] + [e] + children[..n][at..], children[n], test);
    } else {
      assert more == children + [e];
      OneMore(children, e, test);
    }
  }

  /** The record but for its member list. */
  ghost predicate SameApartFromList(e: Elem, f: Elem, isList: Elem -> bool) {
    e.tag == f.tag && e.attrs == f.attrs && e.text == f.text
    && Without(e.children, isList) == Without(f.children, isList)
  }

  lemma AddChangesOnlyTheList(e: Elem, isList: Elem -> bool, at: nat, listTag: string, member: Elem)
    requires at <= |e.children| && ByTag(isList) && isList(NewLeaf(listTag, ""))
    ensures var added := AddMember(e, isList, at, listTag, member);
            Members(added, isList) == Members(e, isList) + [member] && SameApartFromList(added, e, isList)
  {
    AddedMembers(e, isList, at, listTag, member);
    var i := FirstIndex(e.children, isList);
    if i < |e.children| {
      ReplaceHit(e.children, i, e.children[i].(children := e.children[i].children + [member]), isList);
    } else {
      assert isList(Elem(listTag, map[], "", [member])) == isList(NewLeaf(listTag, ""));
      InsertHit(e.children, at, Elem(listTag, map[], "", [member]), isList);
    }
  }

  lemma DropKeepsTheRest(e: Elem, isList: Elem -> bool, test: Elem -> bool)
    requires ByTag(isList)
    ensures SameApartFromList(DropMembers(e, isList, test), e, isList)
  {
    var i := FirstIndex(e.children, isList);
    var rest := Without(Members(e, isList), test);
    if HasMember(e, isList, test) {
      if rest == [] {
        DropFirst(e.children, isList);
      } else {
        ReplaceHit(e.children, i, e.children[i].(children := rest), isList);
      }
    }
  }

  /** The hits are all that the list has. */
  predicate EmptiesList(e: Elem, isList: Elem -> bool, test: Elem -> bool) {
    HasMember(e, isList, test) && Without(Members(e, isList), test) == []
  }

  /** A second list of the record, if there is one, has a hit. */
  predicate NextListHas(e: Elem, isList: Elem -> bool, test: Elem -> bool) {
    var i := FirstIndex(e.children, isList);
    i < |e.children| && HasMember(RemoveChild(e, i), isList, test)
  }

  /** Exactly the hits go; when the whole list goes with them, a second one takes its place. */
  lemma MembersAfterDrop(e: Elem, isList: Elem -> bool, drop: Elem -> bool, test: Elem -> bool)
    requires ByTag(isList)
    ensures var dropped := DropMembers(e, isList, drop);
            if EmptiesList(e, isList, drop) then HasMember(dropped, isList, test) <==> NextListHas(e, isList, test)
            else Members(dropped, isList) == Without(Members(e, isList), drop)
  {
    var i := FirstIndex(e.children, isList);
    var rest := Without(Members(e, isList), drop);
    WithoutAndHits(Members(e, isList), drop);
    if HasMember(e, isList, drop) && rest != [] {
      ListStays(e.children, isList, i, e.children[i].(children := rest));
    }
  }

  /** The first child that satisfies the test. */
  function FirstChild(children: seq<Elem>, test: Elem -> bool): Option<Elem> {
    var i := FirstIndex(children, test);
    if i < |children| then Some(children[i]) else None
  }

  lemma {:induction false} FirstOutsideList(children: seq<Elem>, isList: Elem -> bool, test: Elem -> bool)
    requires forall e: Elem :: !(isList(e) && test(e))
    ensures FirstChild(Without(children, isList), test) == FirstChild(children, test)
  {
    if children != [] {
      var n := |children| - 1;
      FirstOutsideList(children[..n], isList, test);
      FirstOfMore(children[..n], children[n], test);
      FirstOfMore(Without(children[..n], isList), children[n], test);
      assert children == children[..n] + [children[n]];
      assert isList(children[n]) ==> Without(children, isList) == Without(children[..n], isList);
    }
  }

  lemma FirstOfMore(children: seq<Elem>, last: Elem, test: Elem -> bool)
    ensures FirstChild(children + [last], test) ==
            if FirstChild(children, test).Some? then FirstChild(children, test)
            else if test(last) then Some(last) else None
  {
    var more := children + [last];
    var i := FirstIndex(children, test);
    assert forall k :: 0 <= k < |children| ==> more[k] == children[k];
    assert more[|children|] == last;
    assert FirstIndex(more, test) == if i < |children| then i else if test(last) then |children| else |more|;
  }

  /** Fields other than the member list read the same before and after an edit. */
  lemma FieldsOutsideList(e: Elem, f: Elem, isList: Elem -> bool, tag: string, default: string)
    requires SameApartFromList(e, f, isList) && forall x: Elem :: isList(x) ==> x.tag != tag
    ensures TextOr(e, tag, default) == TextOr(f, tag, default)
  {
    FirstOutsideList(e.children, isList, TagTest(tag));
    FirstOutsideList(f.children, isList, TagTest(tag));
  }

  lemma {:induction false} HitsAfterDrop(members: seq<Elem>, drop: Elem -> bool, test: Elem -> bool)
    ensures (forall m: Elem :: test(m) ==> drop(m)) ==> Hits(Without(members, drop), test) == []
    ensures (forall m: Elem :: !(test(m) && drop(m))) ==> Hits(Without(members, drop), test) == Hits(members, test)
  {
    if members != [] {
      var n := |members| - 1;
      HitsAfterDrop(members[..n], drop, test);
      if drop(members[n]) {
        assert Without(members, drop) == Without(members[..n], drop);
      } else {
        OneMore(Without(members[..n], drop), members[n], test);
      }
    }
  }

  /** Blocking a domain adds it to the group and touches no other domain and no other field. */
  lemma BlockAddsOnlyTheUrl(e: Elem, url: string, other: string)
    ensures var added := WithUrl(e, Domain(url));
            && (HasUrl(added, other) <==> HasUrl(e, other) || other == Domain(url))
            && SameApartFromList(added, e, IsUrlList)
  {
    var domain := Domain(url);
    DomainIsStable(url);
    LowerLiterals();
    if !HasUrl(e, domain) {
      var member := NewLeaf("URL", domain);
      AddChangesOnlyTheList(e, IsUrlList, |e.children|, "URLlist", member);
      OneMore(Members(e, IsUrlList), member, UrlTest(other));
    }
  }

  /** Unblocking a domain removes it in every spelling and touches no other domain and no other
      field, exactly unless it was all that the list had and a second list has the other domain. */
  lemma UnblockRemovesOnlyTheUrl(e: Elem, url: string, other: string)
    ensures var removed := WithoutUrl(e, Domain(url));
            && ((HasUrl(removed, other) <==> HasUrl(e, other) && other != Domain(url)) <==>
                  !(EmptiesList(e, IsUrlList, UrlTest(Domain(url))) && NextListHas(e, IsUrlList, UrlTest(other))))
            && SameApartFromList(removed, e, IsUrlList)
  {
    hide Strip, Lower, Without, Hits, FirstIndex;
    DropKeepsTheRest(e, IsUrlList, UrlTest(Domain(url)));
    MembersAfterDrop(e, IsUrlList, UrlTest(Domain(url)), UrlTest(other));
    HitsAfterDrop(Members(e, IsUrlList), UrlTest(Domain(url)), UrlTest(other));
  }

  /** Blocking a device adds one host to the group and touches nothing else. */
  lemma BlockAddsOnlyTheHost(e: Elem, host: string, other: string)
    requires Strip(host) == host
    ensures var added := WithHost(e, host);
            && (HasHost(added, {other}) <==> HasHost(e, {other}) || other == host)
            && SameApartFromList(added, e, IsHostList)
  {
    if !HasHost(e, {host}) {
      var member := NewLeaf("Host", host);
      AddChangesOnlyTheList(e, IsHostList, FirstIndex(e.children, IsIpFamily), "HostList", member);
      OneMore(Members(e, IsHostList), member, HostTest({other}));
    }
  }

  /** Unblocking a device removes all of its hosts and touches no other host, exactly unless these
      were all that the list had and a second list has the other host. */
  lemma UnblockRemovesOnlyTheHosts(e: Elem, hosts: set<string>, other: string)
    ensures var removed := WithoutHosts(e, hosts);
            && ((HasHost(removed, {other}) <==> HasHost(e, {other}) && other !in hosts) <==>
                  !(EmptiesList(e, IsHostList, HostTest(hosts)) && NextListHas(e, IsHostList, HostTest({other}))))
            && SameApartFromList(removed, e, IsHostList)
  {
    hide Strip, Without, Hits, FirstIndex;
    DropKeepsTheRest(e, IsHostList, HostTest(hosts));
    MembersAfterDrop(e, IsHostList, HostTest(hosts), HostTest({other}));
    HitsAfterDrop(Members(e, IsHostList), HostTest(hosts), HostTest({other}));
  }

  lemma DomainIsStable(url: string)
    ensures Domain(Domain(url)) == Domain(url)
  {
    StripIsIdempotent(url);
    StripIsIdempotent(Strip(url));
  }

  /** Adding a member and dropping by a test it meets gives back the record, element order
      included, exactly when no member met the test before and the record had no empty list. */
  lemma AddThenDropIsIdentity(e: Elem, isList: Elem -> bool, at: nat, listTag: string, member: Elem,
                              present: Elem -> bool, test: Elem -> bool)
    requires at <= |e.children| && ByTag(isList) && isList(NewLeaf(listTag, ""))
    requires test(member) && forall m: Elem :: present(m) ==> test(m)
    ensures var added := if HasMember(e, isList, present) then e else AddMember(e, isList, at, listTag, member);
            DropMembers(added, isList, test) == e <==> !HasMember(e, isList, test) && !EmptyList(e, isList)
  {
    if HasMember(e, isList, present) {
      var members := Members(e, isList);
      var k :| 0 <= k < |members| && present(members[k]);
      assert test(members[k]);
      DropShrinks(e, isList, test);
    } else if FirstIndex(e.children, isList) < |e.children| {
      DropFromOldList(e, isList, at, listTag, member, test);
    } else {
      DropFromNewList(e, isList, at, listTag, member, test);
    }
  }

  lemma DropFromOldList(e: Elem, isList: Elem -> bool, at: nat, listTag: string, member: Elem, test: Elem -> bool)
    requires at <= |e.children| && ByTag(isList) && isList(NewLeaf(listTag, ""))
    requires test(member) && FirstIndex(e.children, isList) < |e.children|
    ensures DropMembers(AddMember(e, isList, at, listTag, member), isList, test) == e
            <==> !HasMember(e, isList, test) && Members(e, isList) != []
  {
    var i, members := FirstIndex(e.children, isList), Members(e, isList);
    var added := AddMember(e, isList, at, listTag, member);
    AddedMembers(e, isList, at, listTag, member);
    OneMore(members, member, test);
    WithoutAndHits(members, test);
    var rest := Without(members, test);
    var dropped := DropMembers(added, isList, test);
    if rest == [] {
      assert dropped == RemoveChild(added, i);
      assert |dropped.children| < |e.children|;
    } else {
      assert Without(members + [member], test) == rest;
      WithoutAndHits(members + [member], test);
      assert dropped == WithGrandchildren(added, i, rest);
      assert dropped.children[i].children == rest;
      if rest == members {
        assert added.children[i].(children := rest) == e.children[i];
        assert dropped.children == e.children;
      }
    }
  }

  lemma DropFromNewList(e: Elem, isList: Elem -> bool, at: nat, listTag: string, member: Elem, test: Elem -> bool)
    requires at <= |e.children| && ByTag(isList) && isList(NewLeaf(listTag, ""))
    requires test(member) && FirstIndex(e.children, isList) == |e.children|
    ensures DropMembers(AddMember(e, isList, at, listTag, member), isList, test) == e
    ensures !HasMember(e, isList, test) && !EmptyList(e, isList)
  {
    var added := AddMember(e, isList, at, listTag, member);
    AddedMembers(e, isList, at, listTag, member);
    OneMore([], member, test);
    assert [] + [member] == [member];
    assert DropMembers(added, isList, test) == RemoveChild(added, at);
    assert DropAt(added.children, at) == e.children;
  }

  lemma DropShrinks(e: Elem, isList: Elem -> bool, test: Elem -> bool)
    requires HasMember(e, isList, test)
    ensures DropMembers(e, isList, test) != e
  {
    var i := FirstIndex(e.children, isList);
    WithoutAndHits(Members(e, isList), test);
    var rest := Without(Members(e, isList), test);
    if rest == [] {
      assert |RemoveChild(e, i).children| < |e.children|;
    } else {
      assert WithGrandchildren(e, i, rest).children[i].children == rest;
    }
  }

  /** Blocking a domain and unblocking it restores the group record exactly, unless the domain
      was in the group before or the group had an empty list element. */
  lemma BlockThenUnblockUrl(e: Elem, url: string)
    ensures WithoutUrl(WithUrl(e, Domain(url)), Domain(url)) == e
            <==> !HasUrl(e, Domain(url)) && !EmptyList(e, IsUrlList)
  {
    var domain := Domain(url);
    DomainIsStable(url);
    LowerLiterals();
    AddThenDropIsIdentity(e, IsUrlList, |e.children|, "URLlist", NewLeaf("URL", domain), UrlTest(domain), UrlTest(domain));
  }

  lemma LowerLiterals()
    ensures Lower("URL") == "url" && Lower("URLlist") == "urllist"
  {
  }

  /** Blocking a device by one of the hosts that have its address and unblocking all of those
      restores the group record exactly, unless one of them was a member before or the group had
      an empty list element. */
  lemma BlockThenUnblockHost(e: Elem, host: string, hosts: set<string>)
    requires host in hosts && Strip(host) == host
    ensures WithoutHosts(WithHost(e, host), hosts) == e
            <==> !HasHost(e, hosts) && !EmptyList(e, IsHostList)
  {
    AddThenDropIsIdentity(e, IsHostList, FirstIndex(e.children, IsIpFamily), "HostList", NewLeaf("Host", host),
                          HostTest({host}), HostTest(hosts));
  }

  // ── The edited record, element by element ───────────────────────────────────

  /** Place of the first child with this tag, or behind the last child when there is none. */
  ghost predicate IsFirst(children: seq<Elem>, tag: string, at: nat) {
    && at <= |children| && (at < |children| ==> children[at].tag == tag)
    && forall k :: 0 <= k < at ==> children[k].tag != tag
  }

  /** The same for the list of a URL group, whose tag is spelled in several ways. */
  ghost predicate IsFirstUrlList(children: seq<Elem>, at: nat) {
    && at <= |children| && (at < |children| ==> Lower(children[at].tag) == "urllist")
    && forall k :: 0 <= k < at ==> Lower(children[k].tag) != "urllist"
  }

  lemma FirstIs(children: seq<Elem>, test: Elem -> bool, at: nat)
    requires at <= |children| && (at < |children| ==> test(children[at]))
    requires forall k :: 0 <= k < at ==> !test(children[k])
    ensures FirstIndex(children, test) == at
  {
  }

  /** The element with one more child at this place. */
  function Grown(e: Elem, at: nat, child: Elem): Elem
    requires at <= |e.children|
  {
    Elem(e.tag, e.attrs, e.text, e.children[..at] + [child] + e.children[at..])
  }

  /** The element with its child at this place replaced. */
  function Changed(e: Elem, at: nat, child: Elem): Elem
    requires at < |e.children|
  {
    Elem(e.tag, e.attrs, e.text, e.children[..at] + [child] + e.children[at + 1..])
  }

  lemma SameChange(e: Elem, at: nat, grandchildren: seq<Elem>)
    requires at < |e.children|
    ensures WithGrandchildren(e, at, grandchildren) == Changed(e, at, e.children[at].(children := grandchildren))
  {
    assert e.children[at := e.children[at].(children := grandchildren)]
           == e.children[..at] + [e.children[at].(children := grandchildren)] + e.children[at + 1..];
  }

  /** A host joins a group. It goes behind the members of the first list, unless it is one of
      them; a group without a list gets one with just this host, directly before the family, or
      at the end when the record has none. Every other element stays where it was. */
  lemma HostIsPlaced(e: Elem, host: string, list: nat, family: nat)
    requires IsFirst(e.children, "HostList", list) && IsFirst(e.children, "IPFamily", family)
    ensures var entry := Elem("Host", map[], host, []);
            WithHost(e, host) ==
              if list == |e.children| then Grown(e, family, Elem("HostList", map[], "", [entry]))
              else if exists m :: m in e.children[list].children && m.tag == "Host" && Strip(m.text) == host then e
              else Changed(e, list, e.children[list].(children := e.children[list].children + [entry]))
  {
    FirstIs(e.children, IsHostList, list);
    FirstIs(e.children, IsIpFamily, family);
    HasMemberMeans(e, IsHostList, HostTest({host}), list);
    if list < |e.children| {
      SameChange(e, list, e.children[list].children + [NewLeaf("Host", host)]);
    }
  }

  lemma HasMemberMeans(e: Elem, isList: Elem -> bool, test: Elem -> bool, list: nat)
    requires FirstIndex(e.children, isList) == list
    ensures HasMember(e, isList, test) <==> list < |e.children| && exists m :: m in e.children[list].children && test(m)
  {
    if HasMember(e, isList, test) {
      var k :| 0 <= k < |Members(e, isList)| && test(Members(e, isList)[k]);
      assert Members(e, isList)[k] in e.children[list].children;
    }
  }

  /** A domain joins a group, stripped and in lower case. It goes behind the members of the first
      list, whatever the spelling of its tag, unless it is one of them in any spelling; a group
      without a list gets one with just this domain at its end. */
  lemma UrlIsPlaced(e: Elem, url: string, list: nat)
    requires IsFirstUrlList(e.children, list)
    ensures var domain := Lower(Strip(url));
            var entry := Elem("URL", map[], domain, []);
            WithUrl(e, Domain(url)) ==
              if list == |e.children| then Grown(e, list, Elem("URLlist", map[], "", [entry]))
              else if exists m :: m in e.children[list].children && Lower(m.tag) == "url" && Lower(Strip(m.text)) == domain then e
              else Changed(e, list, e.children[list].(children := e.children[list].children + [entry]))
  {
    FirstIs(e.children, IsUrlList, list);
    HasMemberMeans(e, IsUrlList, UrlTest(Domain(url)), list);
    if list < |e.children| {
      SameChange(e, list, e.children[list].children + [NewLeaf("URL", Domain(url))]);
    }
  }

  /** Members leave the first list; it goes with the last of its children. Every other element
      stays where it was. */
  lemma HostsLeave(e: Elem, hosts: set<string>, list: nat)
    requires IsFirst(e.children, "HostList", list) && list < |e.children|
    ensures var rest := Without(e.children[list].children, HostTest(hosts));
            WithoutHosts(e, hosts) ==
              if forall m :: m in e.children[list].children && m.tag == "Host" ==> Strip(m.text) !in hosts then e
              else if rest == [] then Elem(e.tag, e.attrs, e.text, e.children[..list] + e.children[list + 1..])
              else Changed(e, list, e.children[list].(children := rest))
  {
    FirstIs(e.children, IsHostList, list);
    HasMemberMeans(e, IsHostList, HostTest(hosts), list);
    SameChange(e, list, Without(e.children[list].children, HostTest(hosts)));
  }

  /** The reply names the members taken out: each of these hosts that was one, and no other. */
  lemma TakenOutAreNamed(e: Elem, hosts: set<string>, host: string)
    ensures host in MembersAmong(e, hosts) <==> host in hosts && HasHost(e, {host})
    ensures |MembersAmong(e, hosts)| == |Members(e, IsHostList)| - |Without(Members(e, IsHostList), HostTest(hosts))|
  {
    hide Strip, Hits, Without, FirstIndex;
    var members := Members(e, IsHostList);
    WithoutAndHits(members, HostTest(hosts));
    HitsAre(members, HostTest(hosts));
    HitsAre(members, HostTest({host}));
    if host in hosts && HasHost(e, {host}) {
      var m :| m in members && HostTest({host})(m);
      assert m in Hits(members, HostTest(hosts));
      var k :| 0 <= k < |Hits(members, HostTest(hosts))| && Hits(members, HostTest(hosts))[k] == m;
      assert MembersAmong(e, hosts)[k] == host;
    }
    if host in MembersAmong(e, hosts) {
      var k :| 0 <= k < |MembersAmong(e, hosts)| && MembersAmong(e, hosts)[k] == host;
      var m := Hits(members, HostTest(hosts))[k];
      assert m in members && HostTest({host})(m);
    }
  }

  lemma {:induction false} HitsAre(children: seq<Elem>, test: Elem -> bool)
    ensures forall m :: m in Hits(children, test) <==> m in children && test(m)
  {
    if children != [] {
      HitsAre(children[..|children| - 1], test);
      assert children == children[..|children| - 1] + [children[|children| - 1]];
    }
  }

  /** Which groups may be edited: an IP host group of the family IPv4, or without one; a URL group
      that is not built in, or does not say so. */
  lemma MayBeEdited(e: Elem, family: nat, builtIn: nat)
    requires IsFirst(e.children, "IPFamily", family) && IsFirst(e.children, "IsDefault", builtIn)
    ensures Ipv4Group(e) <==> family == |e.children| || Strip(e.children[family].text) in ["", "IPv4"]
    ensures EditableUrlGroup(e) <==> builtIn == |e.children| || Lower(Strip(e.children[builtIn].text)) in ["", "no"]
  {
    FirstIs(e.children, TagTest("IPFamily"), family);
    FirstIs(e.children, TagTest("IsDefault"), builtIn);
    NoIsNo();
  }

  lemma NoIsNo()
    ensures Lower("No") == "no" && Lower("") == ""
  {
  }
}
