/** What the result of a call says about the firewall. */
module ClientResults {
  import opened Wrappers
  import opened Texts
  import opened XmlRecords
  import opened Groups
  import opened Client
  import opened ClientEffects
  import opened Slot
  import opened IpHosts

  // ── Read, change, write, read back ─────────────────────────────────────────

  function Modify(store: Store, tag: Tag, name: string, change: Change, faults: seq<Fault>): Moment {
    Exec(Moment(store, ReadWait(tag, name, change)), faults)
  }

  function Found(store: Store, tag: Tag, name: string): Result<Elem, Error> {
    FindRecord(RecordsOf(store, tag), name)
  }

  /** The record before the call and what the change makes of it; None when there is no such
      record or the change is refused. */
  function EditOf(store: Store, tag: Tag, name: string, change: Change): Option<Edited> {
    var found := Found(store, tag, name);
    if found.Ok? && ApplyChange(change, found.value).Ok? then Some(ApplyChange(change, found.value).value) else None
  }

  /** Nothing was written, or the whole edited record was. */
  ghost predicate AllOrNothing(store: Store, tag: Tag, name: string, change: Change, after: Store) {
    var edit := EditOf(store, tag, name, change);
    after == store || (edit.Some? && edit.value.write && after == Replaced(store, tag, name, edit.value.elem))
  }

  ghost predicate IsVisible(store: Store, tag: Tag, name: string, change: Change) {
    Found(store, tag, name).Ok? && Visible(change, Found(store, tag, name).value)
  }

  /** A success: the edit was possible, its reply is returned, and the change is there unless
      reading it back failed. */
  ghost predicate SuccessMeansVisible(store: Store, tag: Tag, name: string, change: Change, faults: seq<Fault>, m: Moment) {
    m.prog.Finished? && m.prog.result.Ok? ==>
      var edit := EditOf(store, tag, name, change);
      && edit.Some? && m.prog.result.value == edit.value.reply
      && (!edit.value.write ==> m.store == store)
      && (edit.value.write && IsVerified(change) ==> |faults| >= 3)
      && (IsVerified(change) && (edit.value.write ==> Answered(faults[2])) ==> IsVisible(m.store, tag, name, change))
  }

  ghost predicate ModifyStage(store: Store, tag: Tag, name: string, change: Change, faults: seq<Fault>, m: Moment) {
    && AllOrNothing(store, tag, name, change, m.store)
    && SuccessMeansVisible(store, tag, name, change, faults, m)
    && match m.prog
       case ReadWait(t, n, c) => t == tag && n == name && c == change && m.store == store && faults == []
       case WriteWait(t, n, c, body, reply) =>
         && t == tag && n == name && c == change && m.store == store && |faults| == 1
         && EditOf(store, tag, name, change) == Some(Edited(body, true, reply))
       case VerifyWait(t, n, c, reply) =>
         && t == tag && n == name && c == change && |faults| == 2 && IsVerified(change)
         && EditOf(store, tag, name, change).Some? && EditOf(store, tag, name, change).value.write
         && EditOf(store, tag, name, change).value.reply == reply
       case Finished(_) => true
       case _ => false
  }

  lemma UnchangedIsVisible(change: Change, e: Elem)
    requires ApplyChange(change, e).Ok? && !ApplyChange(change, e).value.write
    ensures Visible(change, e)
  {
  }

  lemma ReadStage(store: Store, tag: Tag, name: string, change: Change, m: Moment, fault: Fault)
    requires m.prog.ReadWait? && ModifyStage(store, tag, name, change, [], m)
    ensures ModifyStage(store, tag, name, change, [fault], Exchange(m, fault))
  {
    hide ApplyChange, FindRecord, Visible, StoreAfter, Replaced;
    ReadAnswer(store, tag, fault);
    if fault.Denied? {
      DeniedReadFindsNothing(tag, fault.code);
    } else if EditOf(store, tag, name, change).Some? && !EditOf(store, tag, name, change).value.write {
      UnchangedIsVisible(change, Found(store, tag, name).value);
    }
  }

  lemma WriteReplaces(store: Store, tag: Tag, name: string, change: Change, fault: Fault)
    requires EditOf(store, tag, name, change).Some?
    ensures var body := EditOf(store, tag, name, change).value.elem;
            var after := StoreAfter(store, Update(tag, body), fault);
            after == store || after == Replaced(store, tag, name, body)
  {
    hide ApplyChange, NameOf;
    var found := Found(store, tag, name).value;
    EditKeepsName(change, found);
    assert NameOf(found) == name;
  }

  lemma WriteStage(store: Store, tag: Tag, name: string, change: Change, faults: seq<Fault>, m: Moment, fault: Fault)
    requires m.prog.WriteWait? && ModifyStage(store, tag, name, change, faults, m)
    ensures ModifyStage(store, tag, name, change, faults + [fault], Exchange(m, fault))
  {
    hide ApplyChange, FindRecord, FirstIndex, Visible, StoreAfter, AnswerTo, Replaced;
    WriteReplaces(store, tag, name, change, fault);
  }

  /** The record is still there after the write. */
  lemma StillFound(store: Store, tag: Tag, name: string, change: Change, after: Store)
    requires name != "" && EditOf(store, tag, name, change).Some? && AllOrNothing(store, tag, name, change, after)
    ensures Found(after, tag, name).Ok?
  {
    if after != store {
      var records := RecordsOf(store, tag);
      EditKeepsName(change, Found(store, tag, name).value);
      SameTests(records, name);
      SameNameReplaced(records, EditOf(store, tag, name, change).value.elem, name);
    }
  }

  lemma VerifyStage(store: Store, tag: Tag, name: string, change: Change, faults: seq<Fault>, m: Moment, fault: Fault)
    requires name != "" && m.prog.VerifyWait? && ModifyStage(store, tag, name, change, faults, m)
    ensures ModifyStage(store, tag, name, change, faults + [fault], Exchange(m, fault))
  {
    ReadAnswer(m.store, tag, fault);
    StillFound(store, tag, name, change, m.store);
  }

  lemma FinishedStage(store: Store, tag: Tag, name: string, change: Change, faults: seq<Fault>, m: Moment, fault: Fault)
    requires m.prog.Finished? && ModifyStage(store, tag, name, change, faults, m)
    ensures ModifyStage(store, tag, name, change, faults + [fault], Exchange(m, fault))
  {
    hide ApplyChange, FindRecord, Visible, AllOrNothing, Replaced;
  }

  lemma NextStage(store: Store, tag: Tag, name: string, change: Change, faults: seq<Fault>, m: Moment, fault: Fault)
    requires name != "" && ModifyStage(store, tag, name, change, faults, m)
    ensures ModifyStage(store, tag, name, change, faults + [fault], Exchange(m, fault))
  {
    if m.prog.ReadWait? {
      assert faults + [fault] == [fault];
      ReadStage(store, tag, name, change, m, fault);
    } else if m.prog.WriteWait? {
      WriteStage(store, tag, name, change, faults, m, fault);
    } else if m.prog.VerifyWait? {
      VerifyStage(store, tag, name, change, faults, m, fault);
    } else {
      FinishedStage(store, tag, name, change, faults, m, fault);
    }
  }

  lemma FirstStage(store: Store, tag: Tag, name: string, change: Change)
    ensures ModifyStage(store, tag, name, change, [], Moment(store, ReadWait(tag, name, change)))
  {
  }

  lemma {:induction false} ModifyReachesStage(store: Store, tag: Tag, name: string, change: Change, faults: seq<Fault>)
    requires name != ""
    ensures ModifyStage(store, tag, name, change, faults, Modify(store, tag, name, change, faults))
  {
    if faults == [] {
      FirstStage(store, tag, name, change);
    } else {
      var n := |faults| - 1;
      ModifyReachesStage(store, tag, name, change, faults[..n]);
      assert faults == faults[..n] + [faults[n]];
      OneMoreFault(Moment(store, ReadWait(tag, name, change)), faults[..n], faults[n]);
      NextStage(store, tag, name, change, faults[..n], Modify(store, tag, name, change, faults[..n]), faults[n]);
    }
  }

  // ── Executions in parts ─────────────────────────────────────────────────────

  lemma {:induction false} FinishedStays(m: Moment, faults: seq<Fault>)
    requires m.prog.Finished?
    ensures Exec(m, faults) == m
  {
    if faults != [] {
      FinishedStays(m, faults[..|faults| - 1]);
    }
  }

  lemma {:induction false} ExecInParts(m: Moment, faults: seq<Fault>, k: nat)
    requires k <= |faults|
    ensures Exec(m, faults) == Exec(Exec(m, faults[..k]), faults[k..])
  {
    hide Exchange;
    var n := |faults| - 1;
    if k == |faults| {
      assert faults[..k] == faults;
    } else {
      ExecInParts(m, faults[..n], k);
      assert faults[..n][..k] == faults[..k] && faults[k..][..n - k] == faults[..n][k..];
    }
  }

  lemma FirstRequest(m: Moment, faults: seq<Fault>)
    requires faults != []
    ensures Exec(m, faults) == Exec(Exchange(m, faults[0]), faults[1..])
  {
    ExecInParts(m, faults, 1);
    assert faults[..1] == [faults[0]];
    assert Exec(m, [faults[0]]) == Exchange(Exec(m, []), faults[0]);
  }

  // ── Results of whole calls ──────────────────────────────────────────────────

  /** A poll returns the proper records of the store it finds; a bare error status reads as no
      records. */
  lemma PollResult(store: Store, tag: Tag, faults: seq<Fault>, records: seq<Elem>)
    requires Alone(store, Poll(tag), faults).prog == Finished(Ok(Polled(records)))
    ensures Alone(store, Poll(tag), faults).store == store && faults != []
    ensures records == if Answered(faults[0]) then Hits(RecordsOf(store, tag), IsProper) else []
    ensures Answered(faults[0]) ==>
              forall e :: e in records <==>
                e in RecordsOf(store, tag) && e.children != [] && !(|e.children| == 1 && e.children[0].tag == "Status")
  {
    HitsAre(RecordsOf(store, tag), IsProper);
    assert faults != [];
    FirstRequest(Moment(store, PollWait(tag)), faults);
    ReadAnswer(store, tag, faults[0]);
    FinishedStays(Exchange(Moment(store, PollWait(tag)), faults[0]), faults[1..]);
    if faults[0].Denied? {
      assert !IsProper(StatusRecord(tag, faults[0].code));
      assert Hits([StatusRecord(tag, faults[0].code)], IsProper) == [];
    }
  }

  /** The firewall did not claim a success for a write it did not carry out. */
  predicate Honest(fault: Fault) {
    !fault.Ignored? && (fault.Denied? ==> !IsSuccess(fault.code))
  }

  lemma ConfirmedMeansApplied(store: Store, r: Request, fault: Fault)
    requires !r.Get? && Honest(fault) && Complaint(AnswerTo(store, r, fault)).None?
    ensures Applied(store, r).Some? && StoreAfter(store, r, fault) == Applied(store, r).value
  {
  }

  /** The write of one field, once confirmed, is what a reader finds in that field. */
  lemma FieldWritten(store: Store, tag: Tag, name: string, field: Field, value: string, fault: Fault)
    requires name != "" && EditOf(store, tag, name, SetField(field, value)).Some? && Honest(fault)
    requires var r := Update(tag, EditOf(store, tag, name, SetField(field, value)).value.elem);
             Complaint(AnswerTo(store, r, fault)).None?
    ensures var r := Update(tag, EditOf(store, tag, name, SetField(field, value)).value.elem);
            FieldOf(StoreAfter(store, r, fault), tag, name, field.Name()) == Some(value)
  {
    var found := Found(store, tag, name).value;
    var body := EditOf(store, tag, name, SetField(field, value)).value.elem;
    ConfirmedMeansApplied(store, Update(tag, body), fault);
    EditKeepsName(SetField(field, value), found);
    SameNameReplaced(RecordsOf(store, tag), body, name);
    FieldIsSet(found, field.Name(), value);
  }

  lemma FieldCallResult(store: Store, tag: Tag, name: string, field: Field, value: string, faults: seq<Fault>)
    requires name != "" && |faults| >= 2 && Honest(faults[1])
    requires var m := Modify(store, tag, name, SetField(field, value), faults); m.prog.Finished? && m.prog.result.Ok?
    ensures FieldOf(Modify(store, tag, name, SetField(field, value), faults).store, tag, name, field.Name()) == Some(value)
  {
    hide FindRecord, FirstIndex, FirstChild, Visible, Honest, StoreAfter, AnswerTo;
    var change := SetField(field, value);
    var m0 := Moment(store, ReadWait(tag, name, change));
    FirstRequest(m0, faults);
    ReadAnswer(store, tag, faults[0]);
    if faults[0].Denied? {
      DeniedReadFindsNothing(tag, faults[0].code);
    }
    var m1 := Exchange(m0, faults[0]);
    if m1.prog.Finished? {
      FinishedStays(m1, faults[1..]);
    } else {
      FirstRequest(m1, faults[1..]);
      var m2 := Exchange(m1, faults[1]);
      FinishedStays(m2, faults[1..][1..]);
      FieldWritten(store, tag, name, field, value, faults[1]);
    }
  }

  /** A successful status or default-action call whose write was honestly confirmed has set the
      field. */
  lemma UpdateIsThere(store: Store, op: Op, faults: seq<Fault>, tag: Tag, name: string)
    requires name != "" && Written(op, tag, name).Some?
    requires Alone(store, op, faults).prog.Finished? && Alone(store, op, faults).prog.result.Ok?
    requires |faults| >= 2 ==> Honest(faults[1])
    ensures FieldOf(Alone(store, op, faults).store, tag, name, WrittenField(tag)) == Written(op, tag, name)
  {
    var p := Start(op);
    ModifyReachesStage(store, tag, name, p.change, faults);
    if |faults| < 2 {
      TooShortToSucceed(store, tag, name, p.change.field, p.change.value, faults);
    } else {
      FieldCallResult(store, tag, name, p.change.field, p.change.value, faults);
    }
  }

  lemma TooShortToSucceed(store: Store, tag: Tag, name: string, field: Field, value: string, faults: seq<Fault>)
    requires |faults| < 2
    ensures var m := Modify(store, tag, name, SetField(field, value), faults); m.prog.Finished? ==> m.prog.result.Err?
  {
    if |faults| == 1 {
      FirstRequest(Moment(store, ReadWait(tag, name, SetField(field, value))), faults);
    }
  }

  /** Blocking or unblocking a site: all or nothing is written; a success returns whether the
      domain's membership changed, and unless the read-back failed the group then has it as
      wanted, even when the firewall confirms writes that it ignores. */
  lemma UrlCallResult(store: Store, group: string, url: string, present: bool, faults: seq<Fault>)
    requires group != ""
    ensures var change := ChangeUrl(url, present);
            var m := Alone(store, SetUrlInGroup(group, url, present), faults);
            && AllOrNothing(store, WebFilterURLGroup, group, change, m.store)
            && (m.prog.Finished? && m.prog.result.Ok? ==>
                  && EditOf(store, WebFilterURLGroup, group, change).Some?
                  && var changed := HasUrl(Found(store, WebFilterURLGroup, group).value, Domain(url)) != present;
                  && m.prog.result.value == UrlSet(changed)
                  && (!changed ==> m.store == store)
                  && (changed ==> |faults| >= 3)
                  && ((changed ==> Answered(faults[2])) ==>
                        && Found(m.store, WebFilterURLGroup, group).Ok?
                        && HasUrl(Found(m.store, WebFilterURLGroup, group).value, Domain(url)) == present))
  {
    hide FindRecord, HasUrl, WithUrl, WithoutUrl, Domain, EditableUrlGroup, Exec, Replaced;
    ModifyReachesStage(store, WebFilterURLGroup, group, ChangeUrl(url, present), faults);
  }

  /** A change that the record does not allow is refused and nothing is written. */
  lemma RefusedChange(store: Store, tag: Tag, name: string, change: Change, faults: seq<Fault>)
    requires faults != [] && Answered(faults[0])
    requires Found(store, tag, name).Ok? && ApplyChange(change, Found(store, tag, name).value).Err?
    ensures Modify(store, tag, name, change, faults) ==
            Moment(store, Finished(Err(ApplyChange(change, Found(store, tag, name).value).error)))
  {
    hide ApplyChange, FindRecord;
    var m := Moment(store, ReadWait(tag, name, change));
    FirstRequest(m, faults);
    ReadAnswer(store, tag, faults[0]);
    FinishedStays(Exchange(m, faults[0]), faults[1..]);
  }

  /** When the record has the membership as wanted the call ends after reading it, without a
      write. */
  lemma NothingToWrite(store: Store, tag: Tag, name: string, change: Change, fault: Fault)
    requires Answered(fault) && IsVerified(change)
    requires Found(store, tag, name).Ok? && Visible(change, Found(store, tag, name).value)
    requires ApplyChange(change, Found(store, tag, name).value).Ok?
    ensures Modify(store, tag, name, change, [fault]) ==
            Moment(store, Finished(Ok(match change
                                      case JoinHost(host) => Blocked(true, host)
                                      case LeaveHosts(_) => Unblocked([])
                                      case _ => UrlSet(false))))
  {
    hide FindRecord, HasUrl, HasHost, MembersAmong, EditableUrlGroup, Ipv4Group;
    hide Domain, WithUrl, WithoutUrl, WithHost, WithoutHosts;
    var e := Found(store, tag, name).value;
    if change.LeaveHosts? {
      HitIsMember(e, change.hosts);
    }
    FirstRequest(Moment(store, ReadWait(tag, name, change)), [fault]);
    ReadAnswer(store, tag, fault);
    assert [fault][1..] == [];
  }

  /** A built-in URL group is refused with the code of SFOS for that, a group of another family
      without one. */
  lemma GroupIsRefused(store: Store, group: string, url: string, present: bool, ip: string, faults: seq<Fault>)
    requires |faults| >= 2 && Answered(faults[0]) && Answered(faults[1])
    ensures var found := Found(store, WebFilterURLGroup, group);
            found.Ok? && !EditableUrlGroup(found.value) ==>
              Alone(store, SetUrlInGroup(group, url, present), faults) == Moment(store, Finished(Err(WriteError("528"))))
    ensures var found := Found(store, IPHostGroup, group);
            found.Ok? && !Ipv4Group(found.value) ==>
              && Alone(store, UnblockIp(group, ip), faults) == Moment(store, Finished(Err(WriteError(""))))
              && forall name :: Alone(store, BlockIp(group, ip, name), faults) == Moment(store, Finished(Err(WriteError(""))))
  {
    hide EditableUrlGroup, Ipv4Group, FindRecord, HostNames, Exec;
    var urls, hosts := Found(store, WebFilterURLGroup, group), Found(store, IPHostGroup, group);
    if urls.Ok? && !EditableUrlGroup(urls.value) {
      RefusedChange(store, WebFilterURLGroup, group, ChangeUrl(url, present), faults);
    }
    if hosts.Ok? && !Ipv4Group(hosts.value) {
      UnblockSearch(store, group, ip, faults);
      RefusedChange(store, IPHostGroup, group, LeaveHosts(SetOf(HostsAt(store, ip))), faults[1..]);
      forall name ensures Alone(store, BlockIp(group, ip, name), faults) == Moment(store, Finished(Err(WriteError("")))) {
        AfterSearch(store, group, ip, name, faults);
      }
    }
  }

  /** How a change ends whose record was read and has to be written. A write that is refused or
      lost, or answered without a status, ends it with that error; one of a field ends it with
      success as soon as it is confirmed, one of a membership also when reading it back fails. */
  lemma WriteIsAnswered(store: Store, tag: Tag, name: string, change: Change, faults: seq<Fault>)
    requires |faults| >= 3 && Answered(faults[0])
    requires EditOf(store, tag, name, change).Some? && EditOf(store, tag, name, change).value.write
    ensures var edit, result := EditOf(store, tag, name, change).value, Modify(store, tag, name, change, faults).prog;
            && (faults[1].Denied? && !IsSuccess(faults[1].code) ==> result == Finished(Err(WriteError(faults[1].code))))
            && (faults[1].Lost? || faults[1].AnswerLost? ==> result == Finished(Err(faults[1].error)))
            && (faults[1].NoStatus? ==> result == Finished(Err(ApiError)))
            && (faults[1].Ignored? && (!IsVerified(change) || faults[2].Lost? || faults[2].Denied?) ==>
                  result == Finished(Ok(edit.reply)))
  {
    hide ApplyChange, FindRecord, Visible, IsVerified;
    var m0 := Moment(store, ReadWait(tag, name, change));
    FirstRequest(m0, faults);
    ReadAnswer(store, tag, faults[0]);
    var m1 := Exchange(m0, faults[0]);
    FirstRequest(m1, faults[1..]);
    var m2 := Exchange(m1, faults[1]);
    if m2.prog.Finished? {
      FinishedStays(m2, faults[1..][1..]);
    } else {
      FirstRequest(m2, faults[1..][1..]);
      assert faults[1..][1..][0] == faults[2];
      if faults[2].Denied? {
        DeniedReadFindsNothing(tag, faults[2].code);
      }
      FinishedStays(Exchange(m2, faults[2]), faults[1..][1..][1..]);
    }
  }

  /** A membership change that the firewall confirms and does not carry out is noticed. */
  lemma IgnoredWriteIsNoticed(store: Store, tag: Tag, name: string, change: Change, faults: seq<Fault>)
    requires |faults| >= 3 && Answered(faults[0]) && faults[1].Ignored? && Answered(faults[2])
    requires IsVerified(change) && EditOf(store, tag, name, change).Some? && EditOf(store, tag, name, change).value.write
    requires !Visible(change, Found(store, tag, name).value)
    ensures Modify(store, tag, name, change, faults) == Moment(store, Finished(Err(WriteError("not_applied"))))
  {
    hide ApplyChange, FindRecord, Visible, IsVerified;
    var m0 := Moment(store, ReadWait(tag, name, change));
    FirstRequest(m0, faults);
    ReadAnswer(store, tag, faults[0]);
    var m1 := Exchange(m0, faults[0]);
    FirstRequest(m1, faults[1..]);
    var m2 := Exchange(m1, faults[1]);
    assert m2 == Moment(store, VerifyWait(tag, name, change, EditOf(store, tag, name, change).value.reply));
    FirstRequest(m2, faults[1..][1..]);
    assert faults[1..][1..][0] == faults[2];
    ReadAnswer(store, tag, faults[2]);
    FinishedStays(Exchange(m2, faults[2]), faults[1..][1..][1..]);
  }

  // ── Blocking and unblocking a device ────────────────────────────────────────

  lemma {:induction false} FirstMemberIsFirst(hosts: seq<string>, group: Elem)
    ensures var i := FirstMember(hosts, group);
            && (i < |hosts| ==> HasHost(group, {hosts[i]}))
            && (forall j :: 0 <= j < i ==> !HasHost(group, {hosts[j]}))
            && (i == |hosts| <==> !HasHost(group, SetOf(hosts)))
  {
    hide HasHost;
    if hosts == [] {
      NoHostNoMember(group);
      assert SetOf(hosts) == {};
    } else {
      FirstMemberIsFirst(hosts[1..], group);
      assert SetOf(hosts) == {hosts[0]} + SetOf(hosts[1..]);
      HasEither(group, {hosts[0]}, SetOf(hosts[1..]));
      forall j | 0 <= j < FirstMember(hosts, group) ensures !HasHost(group, {hosts[j]}) {
        assert j > 0 ==> hosts[j] == hosts[1..][j - 1];
      }
    }
  }

  lemma NoHostNoMember(group: Elem)
    ensures !HasHost(group, {})
  {
    assert forall m: Elem :: !HostTest({})(m);
  }

  lemma HasEither(group: Elem, a: set<string>, b: set<string>)
    ensures HasHost(group, a + b) <==> HasHost(group, a) || HasHost(group, b)
  {
  }

  lemma OtherGroupWriteKeepsHosts(store: Store, name: string, change: Change, after: Store, ip: string)
    requires AllOrNothing(store, IPHostGroup, name, change, after)
    ensures HostsAt(after, ip) == HostsAt(store, ip)
  {
    hide HostNames, ApplyChange, FirstIndex, FindRecord;
  }

  /** The groups have the same members. */
  ghost predicate SameMembers(e: Elem, f: Elem) {
    forall host :: HasHost(e, {host}) <==> HasHost(f, {host})
  }

  /** The call would join the group by a new host whose name the group lists already. */
  predicate ListsNewName(store: Store, e: Elem, ip: string, name: string) {
    HostsAt(store, ip) == [] && HasHost(e, {name})
  }

  /** Which host the call settles on: the first of the address's hosts that is a member, else the
      first of them, else the one it creates. */
  ghost predicate Chosen(hosts: seq<string>, e: Elem, name: string, host: string) {
    if hosts == [] then host == name
    else if forall j :: 0 <= j < |hosts| ==> !HasHost(e, {hosts[j]}) then host == hosts[0]
    else exists i :: 0 <= i < |hosts| && host == hosts[i] && HasHost(e, {hosts[i]})
                       && forall j :: 0 <= j < i ==> !HasHost(e, {hosts[j]})
  }

  /** What a blocking call promises when it succeeds and every answer was readable. */
  ghost predicate BlockPromise(store: Store, group: string, ip: string, name: string, faults: seq<Fault>, m: Moment) {
    m.prog.Finished? && m.prog.result.Ok? ==>
      var reply := m.prog.result.value;
      && reply.Blocked?
      && Found(store, IPHostGroup, group).Ok? && Found(m.store, IPHostGroup, group).Ok?
      && var before, after := Found(store, IPHostGroup, group).value, Found(m.store, IPHostGroup, group).value;
      && Chosen(HostsAt(store, ip), before, name, reply.host)
      && (reply.changed <==> !HasHost(before, SetOf(HostsAt(store, ip))))
      && ((reply.changed <==> !SameMembers(before, after)) <==> !ListsNewName(store, before, ip, name))
      && HasHost(after, {reply.host})
      && (reply.host in HostsAt(m.store, ip)
          || (HostsAt(store, ip) == [] && |faults| >= 3 && faults[2].Ignored?))
  }

  /** A verified change whose every answer was readable: a success means that it is there. */
  lemma AnsweredMeansVisible(store: Store, tag: Tag, name: string, change: Change, faults: seq<Fault>)
    requires name != "" && IsVerified(change) && forall f :: f in faults ==> Answered(f)
    ensures var m := Modify(store, tag, name, change, faults);
            && AllOrNothing(store, tag, name, change, m.store)
            && (m.prog.Finished? && m.prog.result.Ok? ==>
                  && Found(store, tag, name).Ok?
                  && ApplyChange(change, Found(store, tag, name).value).Ok?
                  && m.prog.result.value == ApplyChange(change, Found(store, tag, name).value).value.reply
                  && IsVisible(m.store, tag, name, change))
  {
    ModifyReachesStage(store, tag, name, change, faults);
    var m := Modify(store, tag, name, change, faults);
    if m.prog.Finished? && m.prog.result.Ok? {
      var edit := EditOf(store, tag, name, change).value;
      assert edit.write ==> Answered(faults[2]);
    }
  }

  /** The call joins a host that the search found or that it has created. */
  lemma JoinKeepsPromise(store: Store, before: Store, group: string, ip: string, name: string, host: string,
                         all: seq<Fault>, faults: seq<Fault>)
    requires group != "" && (forall f :: f in faults ==> Answered(f))
    requires Found(store, IPHostGroup, group).Ok? && !HasHost(Found(store, IPHostGroup, group).value, SetOf(HostsAt(store, ip)))
    requires RecordsOf(before, IPHostGroup) == RecordsOf(store, IPHostGroup)
    requires host in HostsAt(before, ip) || (HostsAt(store, ip) == [] && |all| >= 3 && all[2].Ignored?)
    requires Chosen(HostsAt(store, ip), Found(store, IPHostGroup, group).value, name, host)
    requires HostsAt(store, ip) != [] ==> !HasHost(Found(store, IPHostGroup, group).value, {host})
    ensures BlockPromise(store, group, ip, name, all, Modify(before, IPHostGroup, group, JoinHost(host), faults))
  {
    var m := Modify(before, IPHostGroup, group, JoinHost(host), faults);
    hide FindRecord, HasHost, HostNames, Exec;
    AnsweredMeansVisible(before, IPHostGroup, group, JoinHost(host), faults);
    OtherGroupWriteKeepsHosts(before, group, JoinHost(host), m.store, ip);
    if m.prog.Finished? && m.prog.result.Ok? {
      JoinReply(host, Found(before, IPHostGroup, group).value);
      JoinChangesMembers(before, group, host, m.store);
    }
  }

  /** Members change exactly when the host that is there afterwards was not there before. */
  lemma JoinChangesMembers(before: Store, group: string, host: string, after: Store)
    requires AllOrNothing(before, IPHostGroup, group, JoinHost(host), after)
    requires Found(before, IPHostGroup, group).Ok? && IsVisible(after, IPHostGroup, group, JoinHost(host))
    ensures SameMembers(Found(before, IPHostGroup, group).value, Found(after, IPHostGroup, group).value) <==>
            HasHost(Found(before, IPHostGroup, group).value, {host})
  {
    hide FindRecord, HasHost;
  }

  lemma JoinReply(host: string, e: Elem)
    requires ApplyChange(JoinHost(host), e).Ok?
    ensures ApplyChange(JoinHost(host), e).value.reply == Blocked(true, host)
  {
  }

  lemma LeaveReply(hosts: set<string>, e: Elem)
    requires ApplyChange(LeaveHosts(hosts), e).Ok?
    ensures ApplyChange(LeaveHosts(hosts), e).value.reply == Unblocked(MembersAmong(e, hosts))
  {
  }

  lemma AfterSearch(store: Store, group: string, ip: string, name: string, faults: seq<Fault>)
    requires |faults| >= 2 && Answered(faults[0]) && Answered(faults[1])
    ensures var found := Found(store, IPHostGroup, group);
            Alone(store, BlockIp(group, ip, name), faults) ==
              if found.Err? then Moment(store, Finished(Err(found.error)))
              else if !Ipv4Group(found.value) then Moment(store, Finished(Err(WriteError(""))))
              else Exec(Moment(store, AfterHosts(HostsWait(group, ip, name, found.value), RecordsOf(store, IPHost))), faults[2..])
  {
    hide FindRecord, Ipv4Group, WithHosts, HostNames, StoreAfter;
    var m0 := Moment(store, GroupWait(group, ip, name));
    ReadAnswer(store, IPHostGroup, faults[0]);
    ReadAnswer(store, IPHost, faults[1]);
    FirstRequest(m0, faults);
    var m1 := Exchange(m0, faults[0]);
    if m1.prog.Finished? {
      FinishedStays(m1, faults[1..]);
    } else {
      FirstRequest(m1, faults[1..]);
      assert faults[1..][1..] == faults[2..];
    }
  }

  lemma CreateKeepsPromise(store: Store, group: string, ip: string, name: string, faults: seq<Fault>)
    requires group != "" && ProperOp(BlockIp(group, ip, name)) && |faults| >= 2 && forall f :: f in faults ==> Answered(f)
    requires Found(store, IPHostGroup, group).Ok? && HostsAt(store, ip) == []
    ensures BlockPromise(store, group, ip, name, faults, Exec(Moment(store, AddWait(group, ip, name)), faults[2..]))
  {
    hide FindRecord, HostRecord, HasHost, HostNames, StoreAfter, AnswerTo;
    var m2 := Moment(store, AddWait(group, ip, name));
    if |faults| > 2 {
      FirstRequest(m2, faults[2..]);
      var fault := faults[2];
      assert fault in faults;
      var m3 := Exchange(m2, fault);
      if m3.prog.Finished? {
        FinishedStays(m3, faults[2..][1..]);
      } else {
        assert !HasHost(Found(store, IPHostGroup, group).value, SetOf([])) by {
          FirstMemberIsFirst([], Found(store, IPHostGroup, group).value);
        }
        OtherTypesUnchanged(m2, fault, IPHostGroup);
        AddedHostIsFound(store, group, ip, name, fault);
        JoinKeepsPromise(store, m3.store, group, ip, name, name, faults, faults[2..][1..]);
      }
    }
  }

  lemma AddedHostIsFound(store: Store, group: string, ip: string, name: string, fault: Fault)
    requires ProperOp(BlockIp(group, ip, name)) && Answered(fault)
    requires !Exchange(Moment(store, AddWait(group, ip, name)), fault).prog.Finished?
    ensures fault.Ignored? || name in HostsAt(Exchange(Moment(store, AddWait(group, ip, name)), fault).store, ip)
  {
    hide FirstIndex, NameOf, TextOr, Strip, HostNames, HostRecord, IsSuccess;
    if !fault.Ignored? {
      ConfirmedMeansApplied(store, Add(IPHost, HostRecord(ip, name)), fault);
      OneMoreHost(RecordsOf(store, IPHost), ip, name, ip);
    }
  }

  /** A device that was blocked is in the group, by a host that has its address (unless the
      firewall confirmed the new host and did not create it). `changed` says that no host of this
      address was in the group before; it tells whether the members of the group changed exactly
      when the call did not join by a new host whose name the group listed already. */
  lemma BlockedDeviceIsMember(store: Store, group: string, ip: string, name: string, faults: seq<Fault>)
    requires group != "" && ProperOp(BlockIp(group, ip, name)) && forall f :: f in faults ==> Answered(f)
    ensures BlockPromise(store, group, ip, name, faults, Alone(store, BlockIp(group, ip, name), faults))
  {
    hide BlockPromise, FindRecord, Ipv4Group, HasHost, HostNames, Chosen, Exec;
    var m := Alone(store, BlockIp(group, ip, name), faults);
    if |faults| < 2 {
      SearchNotOver(store, group, ip, name, faults);
      NoSuccessKeepsPromise(store, group, ip, name, faults, m);
    } else {
      AfterSearch(store, group, ip, name, faults);
      var found := Found(store, IPHostGroup, group);
      if found.Ok? && Ipv4Group(found.value) {
        var hosts := HostsAt(store, ip);
        FirstMemberIsFirst(hosts, found.value);
        var p := AfterHosts(HostsWait(group, ip, name, found.value), RecordsOf(store, IPHost));
        if p.Finished? {
          FinishedStays(Moment(store, p), faults[2..]);
          MemberKeepsPromise(store, group, ip, name, faults);
        } else if p.ReadWait? {
          FirstIsNoMember(hosts, found.value);
          NoneIsChosen(hosts, found.value, name);
          JoinKeepsPromise(store, store, group, ip, name, hosts[0], faults, faults[2..]);
        } else {
          CreateKeepsPromise(store, group, ip, name, faults);
        }
      } else {
        NoSuccessKeepsPromise(store, group, ip, name, faults, m);
      }
    }
  }

  lemma SearchNotOver(store: Store, group: string, ip: string, name: string, faults: seq<Fault>)
    requires |faults| < 2
    ensures var m := Alone(store, BlockIp(group, ip, name), faults); m.prog.Finished? ==> m.prog.result.Err?
  {
    if |faults| == 1 {
      FirstRequest(Moment(store, GroupWait(group, ip, name)), faults);
    }
  }

  lemma NoSuccessKeepsPromise(store: Store, group: string, ip: string, name: string, faults: seq<Fault>, m: Moment)
    requires m.prog.Finished? ==> m.prog.result.Err?
    ensures BlockPromise(store, group, ip, name, faults, m)
  {
  }

  lemma MemberKeepsPromise(store: Store, group: string, ip: string, name: string, faults: seq<Fault>)
    requires Found(store, IPHostGroup, group).Ok?
    requires FirstMember(HostsAt(store, ip), Found(store, IPHostGroup, group).value) < |HostsAt(store, ip)|
    ensures var hosts := HostsAt(store, ip);
            var i := FirstMember(hosts, Found(store, IPHostGroup, group).value);
            BlockPromise(store, group, ip, name, faults, Moment(store, Finished(Ok(Blocked(false, hosts[i])))))
  {
    hide FindRecord, HasHost, HostNames, FirstMember;
    FirstMemberIsFirst(HostsAt(store, ip), Found(store, IPHostGroup, group).value);
  }

  lemma NoneIsChosen(hosts: seq<string>, e: Elem, name: string)
    requires hosts != [] && FirstMember(hosts, e) == |hosts|
    ensures Chosen(hosts, e, name, hosts[0])
  {
    hide HasHost, FirstMember;
    FirstMemberIsFirst(hosts, e);
  }

  lemma FirstIsNoMember(hosts: seq<string>, group: Elem)
    requires hosts != [] && FirstMember(hosts, group) == |hosts|
    ensures !HasHost(group, {hosts[0]})
  {
  }

  lemma UnblockSearch(store: Store, group: string, ip: string, faults: seq<Fault>)
    requires faults != [] && Answered(faults[0])
    ensures Alone(store, UnblockIp(group, ip), faults) ==
            Modify(store, IPHostGroup, group, LeaveHosts(SetOf(HostsAt(store, ip))), faults[1..])
  {
    FirstRequest(Moment(store, UnblockWait(group, ip)), faults);
    ReadAnswer(store, IPHost, faults[0]);
  }

  /** What an unblocking call promises when every answer was readable. */
  ghost predicate UnblockPromise(store: Store, group: string, hosts: set<string>, m: Moment) {
    m.prog.Finished? && m.prog.result.Ok? ==>
      && Found(store, IPHostGroup, group).Ok?
      && m.prog.result.value == Unblocked(MembersAmong(Found(store, IPHostGroup, group).value, hosts))
      && Found(m.store, IPHostGroup, group).Ok?
      && !HasHost(Found(m.store, IPHostGroup, group).value, hosts)
      && (m.prog.result.value.removed != [] <==>
            !SameMembers(Found(store, IPHostGroup, group).value, Found(m.store, IPHostGroup, group).value))
  }

  lemma HitIsMember(e: Elem, hosts: set<string>)
    ensures MembersAmong(e, hosts) != [] <==> HasHost(e, hosts)
    ensures HasHost(e, hosts) <==> exists host :: host in hosts && HasHost(e, {host})
  {
    var members := Members(e, IsHostList);
    if HasHost(e, hosts) {
      var k :| 0 <= k < |members| && HostTest(hosts)(members[k]);
      assert HostTest({Strip(members[k].text)})(members[k]);
    }
    if host :| host in hosts && HasHost(e, {host}) {
      var k :| 0 <= k < |members| && HostTest({host})(members[k]);
      assert HostTest(hosts)(members[k]);
    }
  }

  /** Members change exactly when some were named as taken out. */
  lemma LeaveChangesMembers(before: Store, group: string, hosts: set<string>, after: Store)
    requires AllOrNothing(before, IPHostGroup, group, LeaveHosts(hosts), after)
    requires Found(before, IPHostGroup, group).Ok? && IsVisible(after, IPHostGroup, group, LeaveHosts(hosts))
    ensures MembersAmong(Found(before, IPHostGroup, group).value, hosts) != [] <==>
            !SameMembers(Found(before, IPHostGroup, group).value, Found(after, IPHostGroup, group).value)
  {
    hide FindRecord, HasHost, MembersAmong;
    HitIsMember(Found(before, IPHostGroup, group).value, hosts);
    HitIsMember(Found(after, IPHostGroup, group).value, hosts);
  }

  lemma LeaveKeepsPromise(store: Store, group: string, hosts: set<string>, faults: seq<Fault>)
    requires group != "" && forall f :: f in faults ==> Answered(f)
    ensures UnblockPromise(store, group, hosts, Modify(store, IPHostGroup, group, LeaveHosts(hosts), faults))
  {
    AnsweredMeansVisible(store, IPHostGroup, group, LeaveHosts(hosts), faults);
    var m := Modify(store, IPHostGroup, group, LeaveHosts(hosts), faults);
    if m.prog.Finished? && m.prog.result.Ok? {
      LeaveReply(hosts, Found(store, IPHostGroup, group).value);
      LeaveChangesMembers(store, group, hosts, m.store);
    }
  }

  /** A device that was unblocked is out of the group under each of its hosts; the result names
      the members that were taken out, and names some exactly when the members of the group
      changed. */
  lemma UnblockedDeviceIsNoMember(store: Store, group: string, ip: string, faults: seq<Fault>)
    requires group != "" && forall f :: f in faults ==> Answered(f)
    ensures UnblockPromise(store, group, SetOf(HostsAt(store, ip)), Alone(store, UnblockIp(group, ip), faults))
    ensures HostsAt(Alone(store, UnblockIp(group, ip), faults).store, ip) == HostsAt(store, ip)
  {
    var hosts := SetOf(HostsAt(store, ip));
    if faults != [] {
      UnblockSearch(store, group, ip, faults);
      LeaveKeepsPromise(store, group, hosts, faults[1..]);
    }
    OtherOpsKeepHosts(store, UnblockIp(group, ip), faults);
  }
}
