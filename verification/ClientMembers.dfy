/** A device that was blocked stays in its group, and a site that was unblocked stays out. */
module ClientMembers {
  import opened Wrappers
  import opened Texts
  import opened XmlRecords
  import opened Groups
  import opened Client
  import opened ClientEffects
  import opened Slot
  import opened IpHosts
  import opened ClientResults

  // ── A blocked device stays blocked ──────────────────────────────────────────

  /** The group is there and has the host. */
  predicate MemberIn(store: Store, group: string, host: string) {
    var found := Found(store, IPHostGroup, group);
    found.Ok? && HasHost(found.value, {host})
  }

  /** A call that unblocks, in this group, an address that the host has. */
  predicate TakesOut(store: Store, op: Op, group: string, host: string) {
    op.UnblockIp? && op.group == group && host in HostsAt(store, op.ip)
  }

  lemma OtherHostStays(e: Elem, hosts: set<string>, host: string)
    requires HasHost(e, {host}) && host !in hosts
    ensures HasHost(WithoutHosts(e, hosts), {host})
  {
    var i, members := FirstIndex(e.children, IsHostList), Members(e, IsHostList);
    var rest := Without(members, HostTest(hosts));
    HitsAfterDrop(members, HostTest(hosts), HostTest({host}));
    assert Hits(rest, HostTest({host})) == Hits(members, HostTest({host}));
    assert rest != [];
    if HasMember(e, IsHostList, HostTest(hosts)) {
      ListsAreByTag();
      ListStays(e.children, IsHostList, i, e.children[i].(children := rest));
    }
  }

  lemma HostStaysAfterJoin(e: Elem, joined: string, host: string)
    requires HasHost(e, {host})
    ensures HasHost(WithHost(e, joined), {host})
  {
    if !HasHost(e, {joined}) {
      var member := NewLeaf("Host", joined);
      AddChangesOnlyTheList(e, IsHostList, FirstIndex(e.children, IsIpFamily), "HostList", member);
      OneMore(Members(e, IsHostList), member, HostTest({host}));
    }
  }

  /** The change that a running program is about to make, or has made, to this group leaves the
      host in; the search for hosts has not been answered yet, or the host was not found. */
  ghost predicate SparesHost(store: Store, m: Moment, group: string, host: string) {
    (m.prog.UnblockWait? ==> m.store == store) && ProgSparesHost(m.prog, group, host)
  }

  predicate ProgSparesHost(p: Prog, group: string, host: string) {
    match p
    case ReadWait(_, name, change) => name == group && change.LeaveHosts? ==> host !in change.hosts
    case WriteWait(_, name, change, _, _) => name == group && change.LeaveHosts? ==> host !in change.hosts
    case VerifyWait(_, name, change, _) => name == group && change.LeaveHosts? ==> host !in change.hosts
    case _ => true
  }

  lemma SearchSparesHost(store: Store, op: Op, m: Moment, fault: Fault, group: string, host: string)
    requires m.prog.UnblockWait? && Serves(op, m.prog) && m.store == store && !TakesOut(store, op, group, host)
    ensures SparesHost(store, Exchange(m, fault), group, host)
  {
    hide HostNames, StoreAfter;
    ReadAnswer(store, IPHost, fault);
    if fault.Denied? {
      DeniedReadFindsNothing(IPHost, fault.code);
    }
  }

  lemma ContinueSparesHost(p: Prog, answer: Answer, group: string, host: string)
    requires !p.Finished? && !p.UnblockWait? && ProgSparesHost(p, group, host)
    ensures ProgSparesHost(Continue(p, answer), group, host) && !Continue(p, answer).UnblockWait?
  {
    hide ApplyChange, RecordIn, Complaint, HostNames, FirstMember, Visible, Hits, Ipv4Group, IsVerified;
  }

  lemma RequestSparesHost(store: Store, op: Op, m: Moment, fault: Fault, group: string, host: string)
    requires SparesHost(store, m, group, host) && Serves(op, m.prog) && !TakesOut(store, op, group, host)
    ensures SparesHost(store, Exchange(m, fault), group, host)
  {
    if m.prog.UnblockWait? {
      SearchSparesHost(store, op, m, fault, group, host);
    } else if !m.prog.Finished? {
      hide Continue, AnswerTo, StoreAfter, ProgSparesHost, TakesOut;
      ContinueSparesHost(m.prog, AnswerTo(m.store, RequestOf(m.prog), fault), group, host);
    }
  }

  lemma EditSparesHost(change: Change, e: Elem, host: string)
    requires (change.JoinHost? || change.LeaveHosts?) && ApplyChange(change, e).Ok? && HasHost(e, {host})
    requires change.LeaveHosts? ==> host !in change.hosts
    ensures HasHost(ApplyChange(change, e).value.elem, {host})
  {
    hide HasHost, WithHost, WithoutHosts, MembersAmong, Ipv4Group;
    if change.JoinHost? {
      HostStaysAfterJoin(e, change.host, host);
    } else {
      OtherHostStays(e, change.hosts, host);
    }
  }

  lemma WriteKeepsMember(store: Store, op: Op, m: Moment, fault: Fault, group: string, host: string)
    requires UpToDate(m) && Serves(op, m.prog) && group != "" && SparesHost(store, m, group, host)
    requires Exchange(m, fault).store != m.store && m.prog.WriteWait? && m.prog.tag == IPHostGroup
    requires MemberIn(m.store, group, host)
    ensures MemberIn(Exchange(m, fault).store, group, host)
  {
    hide FirstIndex, Exchange, NameOf, HasHost, WithHost, WithoutHosts;
    WriteGives(op, m, fault);
    var records := RecordsOf(m.store, IPHostGroup);
    if m.prog.name == group {
      SameNameReplaced(records, m.prog.body, group);
      EditSparesHost(m.prog.change, FindRecord(records, group).value, host);
    } else {
      OtherNameUnchanged(records, FirstIndex(records, NameTest(m.prog.name)), m.prog.body, group);
    }
  }

  lemma RequestKeepsMember(store: Store, op: Op, m: Moment, fault: Fault, group: string, host: string)
    requires UpToDate(m) && Serves(op, m.prog) && group != "" && SparesHost(store, m, group, host)
    requires MemberIn(m.store, group, host)
    ensures MemberIn(Exchange(m, fault).store, group, host)
  {
    hide UpToDate, Serves, Exchange, SparesHost;
    if m.prog.WriteWait? && m.prog.tag == IPHostGroup {
      if Exchange(m, fault).store != m.store {
        WriteKeepsMember(store, op, m, fault, group, host);
      }
    } else {
      OtherTypesUnchanged(m, fault, IPHostGroup);
    }
  }

  lemma StartSparesHost(store: Store, op: Op, group: string, host: string)
    ensures SparesHost(store, Moment(store, Start(op)), group, host)
  {
  }

  lemma {:induction false} ExecKeepsMember(op: Op, store: Store, faults: seq<Fault>, group: string, host: string)
    requires group != "" && !TakesOut(store, op, group, host) && MemberIn(store, group, host)
    ensures MemberIn(Alone(store, op, faults).store, group, host)
    ensures SparesHost(store, Alone(store, op, faults), group, host)
  {
    hide Exchange, MemberIn, TakesOut, SparesHost, Serves, UpToDate, Start;
    if faults == [] {
      StartSparesHost(store, op, group, host);
    } else {
      var n := |faults| - 1;
      var m := Alone(store, op, faults[..n]);
      ExecKeepsMember(op, store, faults[..n], group, host);
      ExecStaysUpToDate(op, store, faults[..n]);
      RequestKeepsMember(store, op, m, faults[n], group, host);
      RequestSparesHost(store, op, m, faults[n], group, host);
    }
  }

  lemma MemberSurvivesCall(start: Store, done: seq<Run>, k: nat, group: string, host: string)
    requires group != "" && k < |done| && MemberIn(SerialStore(start, done[..k]), group, host)
    requires !TakesOut(SerialStore(start, done[..k]), done[k].op, group, host)
    ensures MemberIn(SerialStore(start, done[..k + 1]), group, host)
  {
    hide MemberIn, TakesOut, Exec, SerialStore;
    assert done[..k + 1] == done[..k] + [done[k]];
    OneMoreRun(start, done[..k], done[k]);
    ExecKeepsMember(done[k].op, SerialStore(start, done[..k]), done[k].faults, group, host);
  }

  lemma {:induction false} MemberSurvives(start: Store, done: seq<Run>, i: nat, j: nat, group: string, host: string)
    requires group != "" && i <= j <= |done| && MemberIn(SerialStore(start, done[..i]), group, host)
    requires forall k :: i <= k < j ==> !TakesOut(SerialStore(start, done[..k]), done[k].op, group, host)
    ensures MemberIn(SerialStore(start, done[..j]), group, host)
  {
    hide MemberIn, TakesOut, SerialStore;
    if i < j {
      MemberSurvives(start, done, i, j - 1, group, host);
      MemberSurvivesCall(start, done, j - 1, group, host);
    }
  }

  lemma MemberInTheMiddle(start: Store, w: World, group: string, host: string)
    requires group != "" && Serial(start, w) && MemberIn(SerialStore(start, w.done), group, host)
    requires forall t :: t in w.tasks && w.tasks[t].Running? ==> !TakesOut(SerialStore(start, w.done), w.tasks[t].op, group, host)
    ensures MemberIn(w.store, group, host)
  {
    hide MemberIn, TakesOut, Exec, SerialStore;
    if !Idle(w) {
      var t :| t in w.tasks && w.tasks[t].Running?;
      assert RunsAsAlone(start, w, t);
      ExecKeepsMember(w.tasks[t].op, SerialStore(start, w.done), w.tasks[t].faults, group, host);
    }
  }

  /** A call that put a device into this group by this host, with readable answers. */
  ghost predicate BlockedDevice(run: Run, group: string, host: string) {
    && run.op.BlockIp? && run.op.group == group && ProperOp(run.op)
    && (forall f :: f in run.faults ==> Answered(f))
    && run.outcome.Returned? && run.outcome.result.Ok? && run.outcome.result.value.Blocked?
    && run.outcome.result.value.host == host
  }

  lemma BlockingJoins(store: Store, run: Run, group: string, host: string)
    requires group != "" && BlockedDevice(run, group, host)
    requires Alone(store, run.op, run.faults).prog == Finished(run.outcome.result)
    ensures MemberIn(Alone(store, run.op, run.faults).store, group, host)
  {
    hide Exec, HasHost, HostNames, FindRecord, SameMembers;
    BlockedDeviceIsMember(store, group, run.op.ip, run.op.name, run.faults);
  }

  /** No later call, finished or running, unblocks an address of the host in the group. */
  ghost predicate NotTakenOut(start: Store, w: World, i: nat, group: string, host: string) {
    && (forall k :: i <= k < |w.done| ==> !TakesOut(SerialStore(start, w.done[..k]), w.done[k].op, group, host))
    && forall t :: t in w.tasks && w.tasks[t].Running? ==> !TakesOut(SerialStore(start, w.done), w.tasks[t].op, group, host)
  }

  /** A device that a successful call put into a group is a member in every later state, in the
      middle of other calls too, until a call unblocks in that group an address that the host then
      has. */
  lemma BlockedDeviceStaysMember(start: Store, events: seq<Event>, i: nat, group: string, host: string)
    requires group != "" && i < |After(start, events).done| && BlockedDevice(After(start, events).done[i], group, host)
    requires NotTakenOut(start, After(start, events), i + 1, group, host)
    ensures MemberIn(After(start, events).store, group, host)
  {
    hide MemberIn, TakesOut, Exec, SerialStore;
    Serialisable(start, events);
    var w := After(start, events);
    assert ReturnedAsAlone(start, w.done, i);
    BlockingJoins(SerialStore(start, w.done[..i]), w.done[i], group, host);
    assert w.done[..i + 1] == w.done[..i] + [w.done[i]];
    OneMoreRun(start, w.done[..i], w.done[i]);
    MemberSurvives(start, w.done, i + 1, |w.done|, group, host);
    assert w.done[..|w.done|] == w.done;
    MemberInTheMiddle(start, w, group, host);
  }

  // ── An unblocked site stays out ─────────────────────────────────────────────

  predicate ListHasUrl(list: Elem, domain: string) {
    IsUrlList(list) && Hits(list.children, UrlTest(domain)) != []
  }

  /** None of these elements is a list that has the domain. */
  ghost predicate NoListHas(children: seq<Elem>, domain: string) {
    forall k :: 0 <= k < |children| ==> !ListHasUrl(children[k], domain)
  }

  /** A list behind the first one, which the client never looks at, has the domain. */
  ghost predicate LaterListHas(e: Elem, domain: string) {
    exists k :: FirstIndex(e.children, IsUrlList) < k < |e.children| && ListHasUrl(e.children[k], domain)
  }

  lemma NowhereInRecord(e: Elem, domain: string)
    ensures NoListHas(e.children, domain) <==> !HasUrl(e, domain) && !LaterListHas(e, domain)
  {
    var i := FirstIndex(e.children, IsUrlList);
    if HasUrl(e, domain) {
      assert ListHasUrl(e.children[i], domain);
    }
    if !HasUrl(e, domain) && !LaterListHas(e, domain) {
      forall k | 0 <= k < |e.children| ensures !ListHasUrl(e.children[k], domain) {
        if i < |e.children| && k == i {
          assert Members(e, IsUrlList) == e.children[i].children;
        }
      }
    }
  }

  lemma {:induction false} DropHitsNothing(members: seq<Elem>, drop: Elem -> bool, test: Elem -> bool)
    requires Hits(members, test) == []
    ensures Hits(Without(members, drop), test) == []
  {
    if members != [] {
      var n := |members| - 1;
      var front := members[..n];
      assert members == front + [members[n]];
      OneMore(front, members[n], test);
      OneMore(front, members[n], drop);
      DropHitsNothing(front, drop, test);
      if !drop(members[n]) {
        OneMore(Without(front, drop), members[n], test);
      }
    }
  }

  /** The children of a record out of which a domain was taken. */
  lemma AfterDrop(e: Elem, dropped: string, k: nat)
    requires HasUrl(e, dropped) && k < |WithoutUrl(e, dropped).children|
    ensures var i, after := FirstIndex(e.children, IsUrlList), WithoutUrl(e, dropped).children;
            var rest := Without(Members(e, IsUrlList), UrlTest(dropped));
            && i < |e.children| && Members(e, IsUrlList) == e.children[i].children
            && if rest == [] then |after| == |e.children| - 1 && after[k] == (if k < i then e.children[k] else e.children[k + 1])
               else |after| == |e.children| && after[k] == (if k == i then e.children[i].(children := rest) else e.children[k])
  {
    hide Without, FirstIndex, UrlTest;
  }

  /** Taking a domain out puts no other one in. */
  lemma DropAddsNothing(e: Elem, dropped: string, domain: string)
    requires NoListHas(e.children, domain)
    ensures NoListHas(WithoutUrl(e, dropped).children, domain)
  {
    hide FirstIndex, Without, Hits, HasUrl;
    var after := WithoutUrl(e, dropped).children;
    if HasUrl(e, dropped) {
      hide WithoutUrl, Members;
      forall k | 0 <= k < |after| ensures !ListHasUrl(after[k], domain) {
        AfterDrop(e, dropped, k);
        var i := FirstIndex(e.children, IsUrlList);
        assert !ListHasUrl(e.children[i], domain);
        if k == i && IsUrlList(e.children[i]) {
          DropHitsNothing(e.children[i].children, UrlTest(dropped), UrlTest(domain));
        }
      }
    } else {
      NotThere(e, dropped);
    }
  }

  lemma NotThere(e: Elem, domain: string)
    requires !HasUrl(e, domain)
    ensures WithoutUrl(e, domain) == e
  {
  }

  /** Adding another domain does not put this one in. */
  lemma AddAddsNothing(e: Elem, url: string, domain: string)
    requires NoListHas(e.children, domain) && Domain(url) != domain
    ensures NoListHas(WithUrl(e, Domain(url)).children, domain)
  {
    if !HasUrl(e, Domain(url)) {
      var member := NewLeaf("URL", Domain(url));
      DomainIsStable(url);
      assert !UrlTest(domain)(member);
      var i, after := FirstIndex(e.children, IsUrlList), WithUrl(e, Domain(url)).children;
      forall k | 0 <= k < |after| ensures !ListHasUrl(after[k], domain) {
        if k == i {
          OneMore(Members(e, IsUrlList), member, UrlTest(domain));
          assert i < |e.children| ==> !ListHasUrl(e.children[i], domain);
          assert [] + [member] == [member];
        } else {
          assert after[k] == e.children[k];
        }
      }
    }
  }

  /** The group is there and has the domain nowhere. */
  ghost predicate SiteOut(store: Store, group: string, domain: string) {
    var found := Found(store, WebFilterURLGroup, group);
    found.Ok? && NoListHas(found.value.children, domain)
  }

  predicate BlocksSite(op: Op, group: string, domain: string) {
    op.SetUrlInGroup? && op.group == group && op.present && Domain(op.url) == domain
  }

  lemma UrlEditAddsNothing(url: string, present: bool, e: Elem, domain: string)
    requires ApplyChange(ChangeUrl(url, present), e).Ok? && NoListHas(e.children, domain)
    requires present ==> Domain(url) != domain
    ensures NoListHas(ApplyChange(ChangeUrl(url, present), e).value.elem.children, domain)
  {
    hide NoListHas, WithUrl, WithoutUrl, HasUrl, Domain;
    if present {
      AddAddsNothing(e, url, domain);
    } else {
      DropAddsNothing(e, Domain(url), domain);
    }
  }

  lemma WriteKeepsSiteOut(op: Op, m: Moment, fault: Fault, group: string, domain: string)
    requires UpToDate(m) && Serves(op, m.prog) && group != "" && !BlocksSite(op, group, domain)
    requires Exchange(m, fault).store != m.store && m.prog.WriteWait? && m.prog.tag == WebFilterURLGroup
    requires SiteOut(m.store, group, domain)
    ensures SiteOut(Exchange(m, fault).store, group, domain)
  {
    hide FirstIndex, Exchange, NameOf, NoListHas, HasUrl, WithUrl, WithoutUrl, Domain;
    WriteGives(op, m, fault);
    var records := RecordsOf(m.store, WebFilterURLGroup);
    if m.prog.name == group {
      SameNameReplaced(records, m.prog.body, group);
      UrlEditAddsNothing(m.prog.change.url, m.prog.change.present, FindRecord(records, group).value, domain);
    } else {
      OtherNameUnchanged(records, FirstIndex(records, NameTest(m.prog.name)), m.prog.body, group);
    }
  }

  lemma RequestKeepsSiteOut(op: Op, m: Moment, fault: Fault, group: string, domain: string)
    requires UpToDate(m) && Serves(op, m.prog) && group != "" && !BlocksSite(op, group, domain)
    requires SiteOut(m.store, group, domain)
    ensures SiteOut(Exchange(m, fault).store, group, domain)
  {
    hide UpToDate, Serves, Exchange, NoListHas;
    if m.prog.WriteWait? && m.prog.tag == WebFilterURLGroup {
      if Exchange(m, fault).store != m.store {
        WriteKeepsSiteOut(op, m, fault, group, domain);
      }
    } else {
      OtherTypesUnchanged(m, fault, WebFilterURLGroup);
    }
  }

  lemma {:induction false} ExecKeepsSiteOut(op: Op, store: Store, faults: seq<Fault>, group: string, domain: string)
    requires group != "" && !BlocksSite(op, group, domain) && SiteOut(store, group, domain)
    ensures SiteOut(Alone(store, op, faults).store, group, domain)
  {
    hide Exchange, SiteOut, BlocksSite, Serves, UpToDate;
    if faults != [] {
      var n := |faults| - 1;
      ExecKeepsSiteOut(op, store, faults[..n], group, domain);
      ExecStaysUpToDate(op, store, faults[..n]);
      RequestKeepsSiteOut(op, Alone(store, op, faults[..n]), faults[n], group, domain);
    }
  }

  lemma {:induction false} SiteStaysOut(start: Store, done: seq<Run>, i: nat, j: nat, group: string, domain: string)
    requires group != "" && i <= j <= |done| && SiteOut(SerialStore(start, done[..i]), group, domain)
    requires forall k :: i <= k < j ==> !BlocksSite(done[k].op, group, domain)
    ensures SiteOut(SerialStore(start, done[..j]), group, domain)
  {
    hide SiteOut, BlocksSite, SerialStore, Exec;
    if i < j {
      SiteStaysOut(start, done, i, j - 1, group, domain);
      assert done[..j] == done[..j - 1] + [done[j - 1]];
      OneMoreRun(start, done[..j - 1], done[j - 1]);
      ExecKeepsSiteOut(done[j - 1].op, SerialStore(start, done[..j - 1]), done[j - 1].faults, group, domain);
    }
  }

  lemma SiteOutInTheMiddle(start: Store, w: World, group: string, domain: string)
    requires group != "" && Serial(start, w) && SiteOut(SerialStore(start, w.done), group, domain)
    requires forall t :: t in w.tasks && w.tasks[t].Running? ==> !BlocksSite(w.tasks[t].op, group, domain)
    ensures SiteOut(w.store, group, domain)
  {
    hide SiteOut, BlocksSite, Exec, SerialStore;
    if !Idle(w) {
      var t :| t in w.tasks && w.tasks[t].Running?;
      assert RunsAsAlone(start, w, t);
      ExecKeepsSiteOut(w.tasks[t].op, SerialStore(start, w.done), w.tasks[t].faults, group, domain);
    }
  }

  /** A call that unblocked this domain in this group, and saw it gone if it had to write. */
  ghost predicate UnblockedSite(run: Run, group: string, url: string) {
    && run.op == SetUrlInGroup(group, url, false)
    && run.outcome.Returned? && run.outcome.result.Ok?
    && (|run.faults| >= 3 ==> Answered(run.faults[2]))
  }

  lemma UnblockingTakesOut(store: Store, run: Run, group: string, url: string)
    requires group != "" && UnblockedSite(run, group, url)
    requires Alone(store, run.op, run.faults).prog == Finished(run.outcome.result)
    ensures Found(store, WebFilterURLGroup, group).Ok?
    ensures !LaterListHas(Found(store, WebFilterURLGroup, group).value, Domain(url)) ==>
              SiteOut(Alone(store, run.op, run.faults).store, group, Domain(url))
  {
    hide Domain, Exec, FindRecord, NoListHas, LaterListHas, HasUrl, AllOrNothing, ApplyChange;
    UrlCallResult(store, group, url, false, run.faults);
    var before, after := Found(store, WebFilterURLGroup, group).value, Alone(store, run.op, run.faults).store;
    NowhereInRecord(before, Domain(url));
    if HasUrl(before, Domain(url)) && !LaterListHas(before, Domain(url)) {
      assert !HasUrl(Found(after, WebFilterURLGroup, group).value, Domain(url));
      WrittenGroup(store, group, url, after);
      DroppedNowhere(before, Domain(url));
    }
  }

  lemma WrittenGroup(store: Store, group: string, url: string, after: Store)
    requires group != "" && AllOrNothing(store, WebFilterURLGroup, group, ChangeUrl(url, false), after)
    requires Found(store, WebFilterURLGroup, group).Ok? && Found(after, WebFilterURLGroup, group).Ok?
    requires HasUrl(Found(store, WebFilterURLGroup, group).value, Domain(url))
    requires !HasUrl(Found(after, WebFilterURLGroup, group).value, Domain(url))
    ensures Found(after, WebFilterURLGroup, group) == Ok(WithoutUrl(Found(store, WebFilterURLGroup, group).value, Domain(url)))
  {
    hide Domain, FindRecord, HasUrl, ApplyChange;
    if EditOf(store, WebFilterURLGroup, group, ChangeUrl(url, false)).Some? {
      ReplacedUrlGroup(store, group, url);
    }
  }

  lemma ReplacedUrlGroup(store: Store, group: string, url: string)
    requires group != "" && EditOf(store, WebFilterURLGroup, group, ChangeUrl(url, false)).Some?
    ensures Found(store, WebFilterURLGroup, group).Ok?
    ensures var body := EditOf(store, WebFilterURLGroup, group, ChangeUrl(url, false)).value.elem;
            && body == WithoutUrl(Found(store, WebFilterURLGroup, group).value, Domain(url))
            && Found(Replaced(store, WebFilterURLGroup, group, body), WebFilterURLGroup, group) == Ok(body)
  {
    hide FirstIndex, WithoutUrl, HasUrl, Domain;
    var records := RecordsOf(store, WebFilterURLGroup);
    EditKeepsName(ChangeUrl(url, false), Found(store, WebFilterURLGroup, group).value);
    SameTests(records, group);
    SameNameReplaced(records, EditOf(store, WebFilterURLGroup, group, ChangeUrl(url, false)).value.elem, group);
  }

  /** A domain that was in the first list only is nowhere after it was taken out. */
  lemma DroppedNowhere(e: Elem, domain: string)
    requires !LaterListHas(e, domain)
    ensures NoListHas(WithoutUrl(e, domain).children, domain)
  {
    if HasUrl(e, domain) {
      hide FirstIndex, Without, Hits, HasUrl, WithoutUrl, Members;
      var after := WithoutUrl(e, domain).children;
      forall k | 0 <= k < |after| ensures !ListHasUrl(after[k], domain) {
        AfterDrop(e, domain, k);
        HitsAfterDrop(Members(e, IsUrlList), UrlTest(domain), UrlTest(domain));
      }
    } else {
      NotThere(e, domain);
      NowhereInRecord(e, domain);
    }
  }

  /** A site that was unblocked stays out of its group in every later state, in the middle of
      other calls too, until a call blocks it again; unless the record had the domain in a second
      list as well. */
  lemma UnblockedSiteStaysOut(start: Store, events: seq<Event>, i: nat, group: string, url: string)
    requires group != "" && i < |After(start, events).done| && UnblockedSite(After(start, events).done[i], group, url)
    requires forall k :: i < k < |After(start, events).done| ==> !BlocksSite(After(start, events).done[k].op, group, Domain(url))
    requires forall t :: t in After(start, events).tasks && After(start, events).tasks[t].Running? ==>
               !BlocksSite(After(start, events).tasks[t].op, group, Domain(url))
    ensures var found := Found(SerialStore(start, After(start, events).done[..i]), WebFilterURLGroup, group);
            found.Ok? && (!LaterListHas(found.value, Domain(url)) ==>
              && SiteOut(After(start, events).store, group, Domain(url)))
  {
    hide SiteOut, BlocksSite, Exec, Domain, LaterListHas, SerialStore, FindRecord;
    Serialisable(start, events);
    var w := After(start, events);
    assert ReturnedAsAlone(start, w.done, i);
    UnblockingTakesOut(SerialStore(start, w.done[..i]), w.done[i], group, url);
    if !LaterListHas(Found(SerialStore(start, w.done[..i]), WebFilterURLGroup, group).value, Domain(url)) {
      assert w.done[..i + 1] == w.done[..i] + [w.done[i]];
      OneMoreRun(start, w.done[..i], w.done[i]);
      SiteStaysOut(start, w.done, i + 1, |w.done|, group, Domain(url));
      assert w.done[..|w.done|] == w.done;
      SiteOutInTheMiddle(start, w, group, Domain(url));
    }
  }
}
