/** Inputs on which the calls of the client do less than their documentation says. */
module ClientCases {
  import opened Wrappers
  import opened Texts
  import opened XmlRecords
  import opened Groups
  import opened Client
  import opened ClientEffects
  import opened Slot
  import opened IpHosts
  import opened ClientResults

  const GROUP := "blocked"
  const ADDRESS := "10.0.0.1"
  const NAME := "HA 10.0.0.1"

  function GroupRecord(hosts: seq<Elem>): Elem {
    Elem("IPHostGroup", map[], "", [NewLeaf("Name", GROUP), Elem("HostList", map[], "", hosts), NewLeaf("IPFamily", "IPv4")])
  }

  function StoreWith(members: seq<Elem>, hosts: seq<Elem>): Store {
    map[IPHostGroup := [GroupRecord(members)], IPHost := hosts]
  }

  lemma GroupIsFound(members: seq<Elem>, hosts: seq<Elem>)
    ensures Found(StoreWith(members, hosts), IPHostGroup, GROUP) == Ok(GroupRecord(members))
    ensures Ipv4Group(GroupRecord(members)) && Members(GroupRecord(members), IsHostList) == members
  {
    var e := GroupRecord(members);
    assert TagTest("Name")(e.children[0]);
    assert FirstIndex(e.children, TagTest("Name")) == 0;
    assert NameOf(e) == GROUP;
    assert RecordTest(GROUP)(e);
    assert FirstIndex([e], RecordTest(GROUP)) == 0;
    assert !TagTest("IPFamily")(e.children[0]) && !TagTest("IPFamily")(e.children[1]) && TagTest("IPFamily")(e.children[2]);
    assert FirstIndex(e.children, TagTest("IPFamily")) == 2;
    assert Strip("IPv4") == "IPv4";
    assert !IsHostList(e.children[0]) && IsHostList(e.children[1]);
    assert FirstIndex(e.children, IsHostList) == 1;
  }

  lemma InputIsProper()
    ensures ProperOp(BlockIp(GROUP, ADDRESS, NAME))
  {
    assert Strip(ADDRESS) == ADDRESS && Strip(NAME) == NAME;
  }

  lemma OneHostIsThere()
    ensures var store := StoreWith([], [HostRecord(ADDRESS, "printer")]);
            HostsAt(store, ADDRESS) == ["printer"] && NameIsFree(store, NAME)
  {
    hide HostRecord, TextOr, NameOf;
    var printer := HostRecord(ADDRESS, "printer");
    assert Strip(ADDRESS) == ADDRESS && Strip("printer") == "printer";
    OneMoreHost([], ADDRESS, "printer", ADDRESS);
    assert [] + [printer] == [printer];
    RecordName(ADDRESS, "printer");
    assert NAME[0] != "printer"[0];
    assert !NameTest(NAME)(printer);
  }

  /** The firewall has a host with this address. The group is read, the search for hosts is
      answered by a bare error status, and the addition is served: two hosts with one address. */
  lemma SecondHostIsCreated()
    ensures var store := StoreWith([], [HostRecord(ADDRESS, "printer")]);
            && HostsAt(store, ADDRESS) == ["printer"]
            && HostsAt(Alone(store, BlockIp(GROUP, ADDRESS, NAME), [Served, Denied("529"), Served]).store, ADDRESS)
               == ["printer", NAME]
  {
    hide HostsAt, NameIsFree, HostRecord, GroupRecord, FindRecord, Ipv4Group, Alone, ProperOp;
    var printer := HostRecord(ADDRESS, "printer");
    var store := StoreWith([], [printer]);
    var op, faults := BlockIp(GROUP, ADDRESS, NAME), [Served, Denied("529"), Served];
    InputIsProper();
    GroupIsFound([], [printer]);
    OneHostIsThere();
    assert Creates(store, op, faults);
    HostsAfterCall(store, op, faults, ADDRESS);
  }

  /** A group that lists the host is not written again. */
  lemma JoinListed(store: Store, group: string, name: string)
    requires Found(store, IPHostGroup, group).Ok? && Ipv4Group(Found(store, IPHostGroup, group).value)
    requires HasHost(Found(store, IPHostGroup, group).value, {name})
    ensures Exec(Moment(store, ReadWait(IPHostGroup, group, JoinHost(name))), [Served]) ==
            Moment(store, Finished(Ok(Blocked(true, name))))
  {
    hide FindRecord, Ipv4Group, HasHost;
    FirstRequest(Moment(store, ReadWait(IPHostGroup, group, JoinHost(name))), [Served]);
  }

  /** After the addition the call goes on with the group. */
  lemma AddedThenJoin(store: Store, group: string, ip: string, name: string)
    requires ProperOp(BlockIp(group, ip, name)) && NameIsFree(store, name)
    ensures var m := Exchange(Moment(store, AddWait(group, ip, name)), Served);
            && m.prog == ReadWait(IPHostGroup, group, JoinHost(name))
            && RecordsOf(m.store, IPHostGroup) == RecordsOf(store, IPHostGroup)
  {
    hide FirstIndex, NameOf, HostRecord, Strip;
    RecordName(ip, name);
    OtherTypesUnchanged(Moment(store, AddWait(group, ip, name)), Served, IPHostGroup);
    assert IsSuccess("200");
  }

  /** A call that has to create the host, for an IPv4 group that lists its name already, reports a
      change although the group stays as it was. */
  lemma ChangeIsReportedWithoutOne(store: Store, group: string, ip: string, name: string)
    requires ProperOp(BlockIp(group, ip, name))
    requires Found(store, IPHostGroup, group).Ok? && Ipv4Group(Found(store, IPHostGroup, group).value)
    requires ListsNewName(store, Found(store, IPHostGroup, group).value, ip, name) && NameIsFree(store, name)
    ensures var m := Alone(store, BlockIp(group, ip, name), [Served, Served, Served, Served]);
            && m.prog == Finished(Ok(Blocked(true, name)))
            && RecordsOf(m.store, IPHostGroup) == RecordsOf(store, IPHostGroup)
  {
    hide FindRecord, Ipv4Group, HasHost, HostNames, NameIsFree, ProperOp, Exchange, Exec, Alone;
    var faults := [Served, Served, Served, Served];
    AfterSearch(store, group, ip, name, faults);
    assert faults[2..] == [Served, Served];
    var m := Moment(store, AddWait(group, ip, name));
    FirstRequest(m, [Served, Served]);
    assert [Served, Served][1..] == [Served];
    AddedThenJoin(store, group, ip, name);
    JoinListed(Exchange(m, Served).store, group, name);
  }

  /** Such a call exists. */
  lemma ListedNameCase()
    ensures var store := StoreWith([NewLeaf("Host", NAME)], []);
            var m := Alone(store, BlockIp(GROUP, ADDRESS, NAME), [Served, Served, Served, Served]);
            && m.prog == Finished(Ok(Blocked(true, NAME)))
            && RecordsOf(m.store, IPHostGroup) == RecordsOf(store, IPHostGroup)
  {
    var store := StoreWith([NewLeaf("Host", NAME)], []);
    InputIsProper();
    GroupIsFound([NewLeaf("Host", NAME)], []);
    assert HostTest({NAME})(NewLeaf("Host", NAME));
    assert HostsAt(store, ADDRESS) == [];
    ChangeIsReportedWithoutOne(store, GROUP, ADDRESS, NAME);
  }

  // ── A record with two lists ─────────────────────────────────────────────────

  function UrlList(urls: seq<string>): Elem {
    Elem("URLlist", map[], "", seq(|urls|, i requires 0 <= i < |urls| => NewLeaf("URL", urls[i])))
  }

  function UrlRecord(lists: seq<Elem>): Elem {
    Elem("WebFilterURLGroup", map[], "", [NewLeaf("Name", GROUP)] + lists)
  }

  lemma FirstListCounts(lists: seq<Elem>)
    requires lists != [] && forall k :: 0 <= k < |lists| ==> lists[k].tag == "URLlist"
    ensures FirstIndex(UrlRecord(lists).children, IsUrlList) == 1 && Members(UrlRecord(lists), IsUrlList) == lists[0].children
  {
    LowerLiterals();
    var children := UrlRecord(lists).children;
    assert !IsUrlList(children[0]) by {
      assert |Lower("Name")| == 4;
    }
    assert children[1] == lists[0] && IsUrlList(children[1]);
  }

  lemma UrlTells(url: string, domain: string)
    requires Domain(url) == url
    ensures UrlTest(domain)(NewLeaf("URL", url)) <==> url == domain
  {
    LowerLiterals();
  }

  lemma UrlsAfter(urls: seq<string>, url: string)
    requires Domain(url) == url && forall u :: u in urls ==> Domain(u) == u && u != url
    ensures var members := UrlList(urls + [url]).children;
            Without(members, UrlTest(url)) == UrlList(urls).children && Hits(members, UrlTest(url)) != []
  {
    hide Domain, UrlTest;
    var member, others := NewLeaf("URL", url), UrlList(urls).children;
    assert UrlList(urls + [url]).children == others + [member];
    UrlTells(url, url);
    forall k | 0 <= k < |urls| ensures !UrlTest(url)(others[k]) {
      UrlTells(urls[k], url);
    }
    WithoutAndHits(others, UrlTest(url));
    OneMore(others, member, UrlTest(url));
  }

  /** The first list loses its last domain, and goes when that was its only one. */
  lemma FirstListAfter(urls: seq<string>, url: string, second: Elem)
    requires Domain(url) == url && forall u :: u in urls ==> Domain(u) == u && u != url
    requires second.tag == "URLlist"
    ensures WithoutUrl(UrlRecord([UrlList(urls + [url]), second]), url) ==
            UrlRecord(if urls == [] then [second] else [UrlList(urls), second])
  {
    hide Domain, UrlTest, FirstIndex, Without, Hits;
    FirstListCounts([UrlList(urls + [url]), second]);
    UrlsAfter(urls, url);
  }

  lemma FirstListHas(urls: seq<string>, url: string, rest: seq<Elem>)
    requires forall u :: u in urls ==> Domain(u) == u
    requires forall k :: 0 <= k < |rest| ==> rest[k].tag == "URLlist"
    ensures HasUrl(UrlRecord([UrlList(urls)] + rest), url) <==> url in urls
  {
    hide Domain, Lower, UrlTest, FirstIndex;
    FirstListCounts([UrlList(urls)] + rest);
    var members := UrlList(urls).children;
    forall k | 0 <= k < |urls| ensures UrlTest(url)(members[k]) <==> urls[k] == url {
      UrlTells(urls[k], url);
    }
  }

  /** Only the first of several lists is edited: when another site is unblocked and empties that
      list, a site that was unblocked before is in the group again. */
  lemma SecondListComesBack(one: string, other: string)
    requires Domain(one) == one && Domain(other) == other && one != other
    ensures var unblocked := WithoutUrl(UrlRecord([UrlList([other, one]), UrlList([one])]), one);
            !HasUrl(unblocked, one) && HasUrl(WithoutUrl(unblocked, other), one)
  {
    hide Domain, HasUrl, WithoutUrl;
    var second := UrlList([one]);
    FirstListAfter([other], one, second);
    assert [other] + [one] == [other, one];
    FirstListHas([other], one, [second]);
    assert [UrlList([other])] + [second] == [UrlList([other]), second];
    FirstListAfter([], other, second);
    assert [] + [other] == [other];
    FirstListHas([one], one, []);
    assert [second] + [] == [second];
  }
}
