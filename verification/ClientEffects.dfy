/** What an operation of the XML client can do to the firewall, whatever happens to its
    requests. */
module ClientEffects {
  import opened Wrappers
  import opened Texts
  import opened XmlRecords
  import opened Groups
  import opened Client

  // ── An edit keeps the record's name ─────────────────────────────────────────

  lemma FirstReplaced(children: seq<Elem>, i: nat, e: Elem, test: Elem -> bool)
    requires i < |children| && test(children[i]) == test(e)
    ensures FirstIndex(children[i := e], test) == FirstIndex(children, test)
  {
    var changed := children[i := e];
    var j := FirstIndex(children, test);
    assert forall k :: 0 <= k < |children| ==> test(changed[k]) == test(children[k]);
    assert FirstIndex(changed, test) == j;
  }

  lemma SetFieldKeepsOthers(e: Elem, field: string, value: string, tag: string, default: string)
    requires FirstIndex(e.children, TagTest(field)) < |e.children| && tag != field
    ensures var i := FirstIndex(e.children, TagTest(field));
            TextOr(e.(children := e.children[i := e.children[i].(text := value)]), tag, default) == TextOr(e, tag, default)
  {
    var i := FirstIndex(e.children, TagTest(field));
    FirstReplaced(e.children, i, e.children[i].(text := value), TagTest(tag));
  }

  lemma ListsAreByTag()
    ensures ByTag(IsUrlList) && ByTag(IsHostList)
    ensures forall x: Elem :: IsUrlList(x) ==> x.tag != "Name"
    ensures forall x: Elem :: IsHostList(x) ==> x.tag != "Name"
  {
  }

  lemma EditKeepsName(change: Change, e: Elem)
    requires ApplyChange(change, e).Ok?
    ensures NameOf(ApplyChange(change, e).value.elem) == NameOf(e)
  {
    ListsAreByTag();
    var f := ApplyChange(change, e).value.elem;
    match change
    case SetField(field, value) => SetFieldKeepsOthers(e, field.Name(), value, "Name", "");
    case ChangeUrl(url, present) =>
      LowerLiterals();
      if present {
        BlockAddsOnlyTheUrl(e, url, "");
      } else {
        DropKeepsTheRest(e, IsUrlList, UrlTest(Domain(url)));
      }
      FieldsOutsideList(f, e, IsUrlList, "Name", "");
    case JoinHost(host) =>
      if !HasHost(e, {host}) {
        AddChangesOnlyTheList(e, IsHostList, FirstIndex(e.children, IsIpFamily), "HostList", NewLeaf("Host", host));
      }
      FieldsOutsideList(f, e, IsHostList, "Name", "");
    case LeaveHosts(hosts) =>
      DropKeepsTheRest(e, IsHostList, HostTest(hosts));
      FieldsOutsideList(f, e, IsHostList, "Name", "");
  }

  /** A status or default action is changed in place: the text of that one element is new, and
      every other part of the record is sent back as it was read. A record without the element is
      refused. */
  lemma OneFieldChanges(e: Elem, field: Field, value: string, at: nat)
    requires IsFirst(e.children, if field == StatusField then "Status" else "DefaultAction", at)
    ensures ApplyChange(SetField(field, value), e) ==
              if at == |e.children| then Err(ApiError)
              else Ok(Edited(Changed(e, at, Elem(e.children[at].tag, e.children[at].attrs, value, e.children[at].children)),
                             true, Updated))
  {
    FirstIs(e.children, TagTest(field.Name()), at);
    if at < |e.children| {
      assert e.children[at := e.children[at].(text := value)]
             == e.children[..at] + [e.children[at].(text := value)] + e.children[at + 1..];
    }
  }

  /** The codes that confirm a write are the printed numbers from 200 to 299. */
  lemma SuccessCodesAre(code: string)
    ensures IsSuccess(code) <==> exists n: nat :: 200 <= n < 300 && code == Printed(n)
  {
    hide Decimal, Printed;
    if IsSuccess(code) {
      var n: nat := Decimal(code);
      DecimalExactly(code, n);
      ThreeDigits(code);
      PrintedLength(n);
      assert code == Zeros(0) + Printed(n);
    }
    if n: nat :| 200 <= n < 300 && code == Printed(n) {
      PrintedLength(n);
      PrintedIsRead(n);
      ThreeDigits(code);
    }
  }

  lemma ThreeDigits(code: string)
    requires |code| == 3 && IsDigits(code)
    ensures Decimal(code) ==
            100 * (code[0] as int - '0' as int) + 10 * (code[1] as int - '0' as int) + (code[2] as int - '0' as int)
  {
    assert code[..2] == [code[0], code[1]] && code[..2][..1] == [code[0]];
    assert Decimal([code[0]]) == code[0] as int - '0' as int by {
      assert [code[0]][..0] == "";
    }
  }

  lemma PrintedLength(n: nat)
    requires 200 <= n < 300
    ensures |Printed(n)| == 3
  {
    assert |Printed(n / 10 / 10)| == 1;
    assert |Printed(n / 10)| == 2;
  }

  /** Looking a name up: the record when there is one, else an error of the API when some record
      is a bare status with a code, else "not found". */
  lemma WhatIsFound(elems: seq<Elem>, name: string)
    requires name != ""
    ensures var found, named := FindRecord(elems, name), exists e :: e in elems && NameOf(e) == name;
            && (found.Ok? <==> named)
            && (found.Ok? ==> found.value in elems && NameOf(found.value) == name)
            && (found == Err(ApiError) <==>
                  && !named
                  && (exists e :: e in elems && |e.children| == 1 && e.children[0].tag == "Status"
                                  && "code" in e.children[0].attrs && e.children[0].attrs["code"] != ""))
            && (found.Err? ==> found.error in {ApiError, NotFound})
  {
    hide NameOf, FirstIndex;
    var i := FirstIndex(elems, RecordTest(name));
    if i < |elems| {
      assert elems[i] in elems;
    } else {
      forall e | e in elems ensures NameOf(e) != name {
        var k :| 0 <= k < |elems| && elems[k] == e;
        assert !RecordTest(name)(elems[k]);
        if NameOf(e) == name {
          NamedIsProper(e);
        }
      }
      var j := FirstIndex(elems, HasErrorCode);
      if j < |elems| {
        assert elems[j] in elems;
      }
    }
  }

  // ── The effect of one request ───────────────────────────────────────────────

  lemma NamedIsProper(e: Elem)
    requires NameOf(e) != ""
    ensures !IsStatusOnly(e)
  {
  }

  lemma SameTests(elems: seq<Elem>, name: string)
    requires name != ""
    ensures FirstIndex(elems, RecordTest(name)) == FirstIndex(elems, NameTest(name))
  {
  }

  /** The store with the record of that name replaced. */
  function Replaced(store: Store, tag: Tag, name: string, body: Elem): Store {
    var records := RecordsOf(store, tag);
    var i := FirstIndex(records, NameTest(name));
    if i < |records| then store[tag := records[i := body]] else store
  }

  // ── No update is lost ──────────────────────────────────────────────────────

  /** A field of a record, as a reader finds it. */
  function FieldOf(store: Store, tag: Tag, name: string, field: string): Option<string> {
    var found := FindRecord(RecordsOf(store, tag), name);
    if found.Err? then None
    else
      var child := FirstChild(found.value.children, TagTest(field));
      if child.None? then None else Some(child.value.text)
  }

  /** The call that writes this field of this record, and the value it writes. */
  function Written(op: Op, tag: Tag, name: string): Option<string> {
    if tag == FirewallRule && op.SetRuleStatus? && op.name == name then Some(if op.enable then "Enable" else "Disable")
    else if tag == WebFilterPolicy && op.SetDefaultAction? && op.name == name then Some(if op.allow then "Allow" else "Deny")
    else None
  }

  function WrittenField(tag: Tag): string {
    if tag == FirewallRule then "Status" else "DefaultAction"
  }

  lemma OtherNameUnchanged(elems: seq<Elem>, i: nat, body: Elem, name: string)
    requires i < |elems| && NameOf(elems[i]) != name && NameOf(body) != name
    ensures FindRecord(elems[i := body], name).Ok? == FindRecord(elems, name).Ok?
    ensures FindRecord(elems, name).Ok? ==> FindRecord(elems[i := body], name) == FindRecord(elems, name)
  {
    FirstReplaced(elems, i, body, RecordTest(name));
  }

  lemma SameNameReplaced(elems: seq<Elem>, body: Elem, name: string)
    requires name != "" && NameOf(body) == name && FirstIndex(elems, NameTest(name)) < |elems|
    ensures FindRecord(elems[FirstIndex(elems, NameTest(name)) := body], name) == Ok(body)
  {
    var i := FirstIndex(elems, NameTest(name));
    SameTests(elems, name);
    NamedIsProper(body);
    FirstReplaced(elems, i, body, RecordTest(name));
  }

  lemma FieldIsSet(e: Elem, field: string, value: string)
    requires FirstIndex(e.children, TagTest(field)) < |e.children|
    ensures var i := FirstIndex(e.children, TagTest(field));
            FirstChild(e.children[i := e.children[i].(text := value)], TagTest(field)) == Some(e.children[i].(text := value))
  {
    var i := FirstIndex(e.children, TagTest(field));
    FirstReplaced(e.children, i, e.children[i].(text := value), TagTest(field));
  }

  /** A request changes the records of at most the one type it writes. */
  lemma OtherTypesUnchanged(m: Moment, fault: Fault, tag: Tag)
    requires m.prog.WriteWait? ==> m.prog.tag != tag
    requires m.prog.AddWait? ==> tag != IPHost
    ensures RecordsOf(Exchange(m, fault).store, tag) == RecordsOf(m.store, tag)
  {
    if !m.prog.Finished? {
      var r := RequestOf(m.prog);
      if r.Get? {
        ReadAnswer(m.store, r.tag, fault);
      } else {
        assert r.tag != tag;
        OtherTypesKept(m.store, r, fault, tag);
      }
    }
  }

  lemma OtherTypesKept(store: Store, r: Request, fault: Fault, tag: Tag)
    requires r.tag != tag
    ensures RecordsOf(StoreAfter(store, r, fault), tag) == RecordsOf(store, tag)
  {
  }

  /** A request leaves the status of every rule and the default action of every policy alone,
      except in a call for exactly that record, which sets it to the value it was called with. */
  lemma RequestKeepsField(op: Op, m: Moment, fault: Fault, tag: Tag, name: string)
    requires UpToDate(m) && Serves(op, m.prog) && name != ""
    requires tag == FirewallRule || tag == WebFilterPolicy
    ensures var field := WrittenField(tag);
            FieldOf(Exchange(m, fault).store, tag, name, field) == FieldOf(m.store, tag, name, field)
            || (Written(op, tag, name).Some?
                && FieldOf(Exchange(m, fault).store, tag, name, field) == Written(op, tag, name))
  {
    if m.prog.WriteWait? && m.prog.tag == tag {
      if Exchange(m, fault).store != m.store {
        WriteKeepsField(op, m, fault, tag, name);
      }
    } else {
      OtherTypesUnchanged(m, fault, tag);
    }
  }

  /** The record written is the one that was read, with its edit. */
  lemma WriteGives(op: Op, m: Moment, fault: Fault)
    requires UpToDate(m) && Serves(op, m.prog) && m.prog.WriteWait? && Exchange(m, fault).store != m.store
    ensures var records := RecordsOf(m.store, m.prog.tag);
            var i := FirstIndex(records, NameTest(m.prog.name));
            && i < |records| && NameOf(m.prog.body) == m.prog.name
            && RecordsOf(Exchange(m, fault).store, m.prog.tag) == records[i := m.prog.body]
  {
    hide ApplyChange, FindRecord, FirstIndex, NameOf, Continue, AnswerTo;
    var records := RecordsOf(m.store, m.prog.tag);
    var before := FindRecord(records, m.prog.name).value;
    EditKeepsName(m.prog.change, before);
    FoundHasName(records, m.prog.name);
  }

  lemma FoundHasName(elems: seq<Elem>, name: string)
    requires FindRecord(elems, name).Ok?
    ensures NameOf(FindRecord(elems, name).value) == name
  {
  }

  lemma EditSetsField(tag: Tag, change: Change, e: Elem)
    requires ChangeFits(tag, change) && (tag == FirewallRule || tag == WebFilterPolicy) && ApplyChange(change, e).Ok?
    ensures FirstChild(ApplyChange(change, e).value.elem.children, TagTest(WrittenField(tag))).Some?
    ensures FirstChild(ApplyChange(change, e).value.elem.children, TagTest(WrittenField(tag))).value.text == change.value
  {
    FieldIsSet(e, WrittenField(tag), change.value);
  }

  lemma WriteKeepsField(op: Op, m: Moment, fault: Fault, tag: Tag, name: string)
    requires UpToDate(m) && Serves(op, m.prog) && name != ""
    requires tag == FirewallRule || tag == WebFilterPolicy
    requires Exchange(m, fault).store != m.store && m.prog.WriteWait? && m.prog.tag == tag
    ensures var field := WrittenField(tag);
            FieldOf(Exchange(m, fault).store, tag, name, field) == FieldOf(m.store, tag, name, field)
            || (Written(op, tag, name).Some?
                && FieldOf(Exchange(m, fault).store, tag, name, field) == Written(op, tag, name))
  {
    hide FirstIndex, ApplyChange, Exchange, NameOf;
    WriteGives(op, m, fault);
    var records := RecordsOf(m.store, tag);
    if m.prog.name == name {
      SameNameReplaced(records, m.prog.body, name);
      EditSetsField(tag, m.prog.change, FindRecord(records, name).value);
    } else {
      OtherNameUnchanged(records, FirstIndex(records, NameTest(m.prog.name)), m.prog.body, name);
    }
  }

  lemma {:induction false} ExecKeepsField(op: Op, store: Store, faults: seq<Fault>, tag: Tag, name: string)
    requires name != "" && (tag == FirewallRule || tag == WebFilterPolicy)
    ensures var field := WrittenField(tag);
            var after := Exec(Moment(store, Start(op)), faults).store;
            FieldOf(after, tag, name, field) == FieldOf(store, tag, name, field)
            || (Written(op, tag, name).Some? && FieldOf(after, tag, name, field) == Written(op, tag, name))
  {
    if faults != [] {
      var n := |faults| - 1;
      ExecKeepsField(op, store, faults[..n], tag, name);
      ExecStaysUpToDate(op, store, faults[..n]);
      RequestKeepsField(op, Exec(Moment(store, Start(op)), faults[..n]), faults[n], tag, name);
    }
  }

  // ── A blocked site stays blocked ────────────────────────────────────────────

  /** The group is there and has the domain. */
  predicate SiteBlocked(store: Store, group: string, domain: string) {
    var found := FindRecord(RecordsOf(store, WebFilterURLGroup), group);
    found.Ok? && HasUrl(found.value, domain)
  }

  /** A call that edits this domain in this group. */
  predicate EditsSite(op: Op, group: string, domain: string) {
    op.SetUrlInGroup? && op.group == group && Domain(op.url) == domain
  }

  /** Dropping one domain keeps every other one. */
  lemma OtherUrlStays(e: Elem, dropped: string, domain: string)
    requires HasUrl(e, domain) && dropped != domain
    ensures HasUrl(WithoutUrl(e, dropped), domain)
  {
    var i, members := FirstIndex(e.children, IsUrlList), Members(e, IsUrlList);
    var rest := Without(members, UrlTest(dropped));
    HitsAfterDrop(members, UrlTest(dropped), UrlTest(domain));
    assert Hits(rest, UrlTest(domain)) == Hits(members, UrlTest(domain));
    assert rest != [];
    if HasMember(e, IsUrlList, UrlTest(dropped)) {
      ListsAreByTag();
      ListStays(e.children, IsUrlList, i, e.children[i].(children := rest));
    }
  }

  lemma UrlEditKeepsOthers(url: string, present: bool, e: Elem, domain: string)
    requires ApplyChange(ChangeUrl(url, present), e).Ok? && HasUrl(e, domain) && Domain(url) != domain
    ensures HasUrl(ApplyChange(ChangeUrl(url, present), e).value.elem, domain)
  {
    if present {
      BlockAddsOnlyTheUrl(e, url, domain);
    } else {
      OtherUrlStays(e, Domain(url), domain);
    }
  }

  lemma WriteKeepsSite(op: Op, m: Moment, fault: Fault, group: string, domain: string)
    requires UpToDate(m) && Serves(op, m.prog) && group != "" && !EditsSite(op, group, domain)
    requires Exchange(m, fault).store != m.store && m.prog.WriteWait? && m.prog.tag == WebFilterURLGroup
    requires SiteBlocked(m.store, group, domain)
    ensures SiteBlocked(Exchange(m, fault).store, group, domain)
  {
    hide FirstIndex, Exchange, NameOf, HasUrl, WithUrl, WithoutUrl;
    WriteGives(op, m, fault);
    var records := RecordsOf(m.store, WebFilterURLGroup);
    if m.prog.name == group {
      SameNameReplaced(records, m.prog.body, group);
      UrlEditKeepsOthers(m.prog.change.url, m.prog.change.present, FindRecord(records, group).value, domain);
    } else {
      OtherNameUnchanged(records, FirstIndex(records, NameTest(m.prog.name)), m.prog.body, group);
    }
  }

  lemma {:induction false} ExecKeepsSite(op: Op, store: Store, faults: seq<Fault>, group: string, domain: string)
    requires group != "" && !EditsSite(op, group, domain) && SiteBlocked(store, group, domain)
    ensures SiteBlocked(Exec(Moment(store, Start(op)), faults).store, group, domain)
  {
    if faults != [] {
      hide Exchange, SiteBlocked, Start, Serves, UpToDate;
      var n := |faults| - 1;
      var m := Exec(Moment(store, Start(op)), faults[..n]);
      ExecKeepsSite(op, store, faults[..n], group, domain);
      ExecStaysUpToDate(op, store, faults[..n]);
      RequestKeepsSite(op, m, faults[n], group, domain);
    }
  }

  lemma RequestKeepsSite(op: Op, m: Moment, fault: Fault, group: string, domain: string)
    requires UpToDate(m) && Serves(op, m.prog) && group != "" && !EditsSite(op, group, domain)
    requires SiteBlocked(m.store, group, domain)
    ensures SiteBlocked(Exchange(m, fault).store, group, domain)
  {
    hide UpToDate, Serves, Exchange;
    if m.prog.WriteWait? && m.prog.tag == WebFilterURLGroup {
      if Exchange(m, fault).store != m.store {
        WriteKeepsSite(op, m, fault, group, domain);
      }
    } else {
      OtherTypesUnchanged(m, fault, WebFilterURLGroup);
    }
  }
}
