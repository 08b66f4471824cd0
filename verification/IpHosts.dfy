/** The IP hosts that blocking devices leaves on the firewall. */
module IpHosts {
  import opened Wrappers
  import opened Texts
  import opened XmlRecords
  import opened Groups
  import opened Client
  import opened ClientEffects
  import opened Slot

  /** The names of the hosts with this address. */
  function HostsAt(store: Store, ip: string): seq<string> {
    HostNames(RecordsOf(store, IPHost), ip)
  }

  /** The answer to this read holds the records. */
  predicate Answered(fault: Fault) {
    fault.Served? || fault.Ignored? || fault.NoStatus?
  }

  predicate Applies(fault: Fault) {
    fault.Served? || fault.AnswerLost? || fault == NoStatus(true)
  }

  predicate GroupPasses(store: Store, group: string, fault: Fault) {
    && Answered(fault) && FindRecord(RecordsOf(store, IPHostGroup), group).Ok?
    && Ipv4Group(FindRecord(RecordsOf(store, IPHostGroup), group).value)
  }

  predicate NameIsFree(store: Store, name: string) {
    FirstIndex(RecordsOf(store, IPHost), NameTest(name)) == |RecordsOf(store, IPHost)|
  }

  /** The search for hosts finds none: there is none, or the answer is a bare error status. */
  predicate FindsNoHost(store: Store, ip: string, fault: Fault) {
    fault.Denied? || (Answered(fault) && HostsAt(store, ip) == [])
  }

  /** A call creates a host with these outcomes. */
  predicate Creates(store: Store, op: Op, faults: seq<Fault>) {
    && op.BlockIp? && |faults| >= 3
    && GroupPasses(store, op.group, faults[0])
    && FindsNoHost(store, op.ip, faults[1])
    && Applies(faults[2]) && NameIsFree(store, op.name)
  }

  /** Name and address as the service schemas leave them: stripped and not empty. */
  predicate ProperOp(op: Op) {
    op.BlockIp? ==> op.ip != "" && op.name != "" && Strip(op.ip) == op.ip && Strip(op.name) == op.name
  }

  lemma RecordName(ip: string, name: string)
    requires Strip(name) == name != ""
    ensures NameOf(HostRecord(ip, name)) == name && !IsStatusOnly(HostRecord(ip, name))
  {
  }

  lemma RecordAddress(ip: string, name: string)
    requires Strip(ip) == ip != ""
    ensures TextOr(HostRecord(ip, name), "IPAddress", "") == ip
    ensures TextOr(HostRecord(ip, name), "HostType", "") == "IP"
    ensures TextOr(HostRecord(ip, name), "IPFamily", "") == "IPv4"
    ensures TextOr(HostRecord(ip, name), "Description", "") == "Created by Home Assistant"
    ensures HostRecord(ip, name).tag == "IPHost"
  {
    hide TextOr;
    assert Strip("IP") == "IP" && Strip("IPv4") == "IPv4" && Strip("Created by Home Assistant") == "Created by Home Assistant";
    hide Strip;
    var e := HostRecord(ip, name);
    FieldAt(e, 1, "IPFamily");
    FieldAt(e, 2, "HostType");
    FieldAt(e, 3, "IPAddress");
    FieldAt(e, 4, "Description");
  }

  lemma FieldAt(e: Elem, i: nat, tag: string)
    requires i < |e.children| && e.children[i].tag == tag && Strip(e.children[i].text) == e.children[i].text != ""
    requires forall k :: 0 <= k < i ==> e.children[k].tag != tag
    ensures TextOr(e, tag, "") == e.children[i].text
  {
    assert TagTest(tag)(e.children[i]) && forall k :: 0 <= k < i ==> !TagTest(tag)(e.children[k]);
    assert FirstIndex(e.children, TagTest(tag)) == i;
  }

  /** The search for an address names exactly the records of this type and address that have a
      name, status answers aside. */
  lemma HostNamesAre(elems: seq<Elem>, ip: string, name: string)
    ensures name in HostNames(elems, ip) <==>
              && name != ""
              && (exists e :: e in elems && !IsStatusOnly(e) && TextOr(e, "Name", "") == name
                              && TextOr(e, "HostType", "") == "IP" && TextOr(e, "IPAddress", "") == ip)
  {
    hide TextOr, IsStatusOnly;
    var hits := Hits(elems, HostAtTest(ip));
    HitsAre(elems, HostAtTest(ip));
    if name in HostNames(elems, ip) {
      var k :| 0 <= k < |HostNames(elems, ip)| && HostNames(elems, ip)[k] == name;
      assert hits[k] in elems;
    }
    if e :| e in elems && name != "" && !IsStatusOnly(e) && TextOr(e, "Name", "") == name
            && TextOr(e, "HostType", "") == "IP" && TextOr(e, "IPAddress", "") == ip {
      assert e in hits;
      var k :| 0 <= k < |hits| && hits[k] == e;
      assert HostNames(elems, ip)[k] == name;
    }
  }

  /** A new host is found by its address and by no other. */
  lemma OneMoreHost(records: seq<Elem>, ip: string, name: string, other: string)
    requires Strip(ip) == ip != "" && Strip(name) == name != ""
    ensures HostNames(records + [HostRecord(ip, name)], other) ==
            HostNames(records, other) + if other == ip then [name] else []
  {
    hide HostRecord, TextOr, IsStatusOnly;
    RecordName(ip, name);
    RecordAddress(ip, name);
    OneMore(records, HostRecord(ip, name), HostAtTest(other));
  }

  // ── What one call does ─────────────────────────────────────────────────────

  /** How far a blocking call has got, and what it has created. */
  ghost predicate BlockStage(store: Store, op: Op, faults: seq<Fault>, m: Moment)
    requires op.BlockIp?
  {
    match m.prog
    case GroupWait(_, _, _) => faults == [] && m.store == store
    case HostsWait(_, _, _, _) => |faults| == 1 && m.store == store && GroupPasses(store, op.group, faults[0])
    case AddWait(_, _, _) =>
      |faults| == 2 && m.store == store && GroupPasses(store, op.group, faults[0]) && FindsNoHost(store, op.ip, faults[1])
    case _ =>
      && |faults| >= 1
      && (|faults| == 1 ==> !GroupPasses(store, op.group, faults[0]))
      && (|faults| == 2 && GroupPasses(store, op.group, faults[0]) ==> !FindsNoHost(store, op.ip, faults[1]))
      && RecordsOf(m.store, IPHost) == CreatedBy(store, op, faults)
  }

  function CreatedBy(store: Store, op: Op, faults: seq<Fault>): seq<Elem> {
    RecordsOf(store, IPHost) + if Creates(store, op, faults) then [HostRecord(op.ip, op.name)] else []
  }

  lemma GroupStage(store: Store, op: Op, m: Moment, fault: Fault)
    requires op.BlockIp? && Serves(op, m.prog) && m.prog.GroupWait? && BlockStage(store, op, [], m)
    ensures BlockStage(store, op, [fault], Exchange(m, fault))
  {
    ReadAnswer(store, IPHostGroup, fault);
    if fault.Denied? {
      DeniedReadFindsNothing(IPHostGroup, fault.code);
    }
  }

  lemma HostsStage(store: Store, op: Op, faults: seq<Fault>, m: Moment, fault: Fault)
    requires op.BlockIp? && Serves(op, m.prog) && m.prog.HostsWait? && BlockStage(store, op, faults, m)
    ensures BlockStage(store, op, faults + [fault], Exchange(m, fault))
  {
    hide FindRecord, Ipv4Group, HostNames, FirstMember, HostRecord;
    ReadAnswer(store, IPHost, fault);
    if fault.Denied? {
      DeniedReadFindsNothing(IPHost, fault.code);
    }
  }

  /** The addition as the firewall carries it out, or not. */
  lemma AddEffect(store: Store, ip: string, name: string, fault: Fault)
    requires NameOf(HostRecord(ip, name)) == name
    ensures RecordsOf(StoreAfter(store, Add(IPHost, HostRecord(ip, name)), fault), IPHost) ==
            RecordsOf(store, IPHost) + if Applies(fault) && NameIsFree(store, name) then [HostRecord(ip, name)] else []
  {
  }

  lemma AddStage(store: Store, op: Op, faults: seq<Fault>, m: Moment, fault: Fault)
    requires op.BlockIp? && ProperOp(op) && Serves(op, m.prog) && m.prog.AddWait? && BlockStage(store, op, faults, m)
    ensures BlockStage(store, op, faults + [fault], Exchange(m, fault))
  {
    hide FindRecord, Ipv4Group, HostNames, HostRecord, NameOf, FirstIndex, StoreAfter, AnswerTo;
    RecordName(op.ip, op.name);
    AddEffect(store, op.ip, op.name, fault);
    assert Creates(store, op, faults + [fault]) == (Applies(fault) && NameIsFree(store, op.name));
  }

  lemma LaterStage(store: Store, op: Op, faults: seq<Fault>, m: Moment, fault: Fault)
    requires op.BlockIp? && Serves(op, m.prog) && BlockStage(store, op, faults, m)
    requires !m.prog.GroupWait? && !m.prog.HostsWait? && !m.prog.AddWait?
    ensures BlockStage(store, op, faults + [fault], Exchange(m, fault))
  {
    OtherTypesUnchanged(m, fault, IPHost);
    StageAfter(m, fault);
    CreatedEarly(store, op, faults, fault);
  }

  lemma StageAfter(m: Moment, fault: Fault)
    requires !m.prog.GroupWait? && !m.prog.HostsWait? && !m.prog.AddWait?
    ensures var p := Exchange(m, fault).prog; !p.GroupWait? && !p.HostsWait? && !p.AddWait?
  {
    hide ApplyChange, RecordIn, Complaint, HostNames, Visible, AnswerTo, StoreAfter;
  }

  lemma CreatedEarly(store: Store, op: Op, faults: seq<Fault>, fault: Fault)
    requires op.BlockIp? && |faults| >= 1
    requires |faults| == 1 ==> !GroupPasses(store, op.group, faults[0])
    requires |faults| == 2 && GroupPasses(store, op.group, faults[0]) ==> !FindsNoHost(store, op.ip, faults[1])
    ensures Creates(store, op, faults + [fault]) == Creates(store, op, faults)
  {
  }

  lemma {:induction false} BlockReachesStage(store: Store, op: Op, faults: seq<Fault>)
    requires op.BlockIp? && ProperOp(op)
    ensures BlockStage(store, op, faults, Alone(store, op, faults))
  {
    if faults != [] {
      var n := |faults| - 1;
      BlockReachesStage(store, op, faults[..n]);
      ExecStaysUpToDate(op, store, faults[..n]);
      var m := Alone(store, op, faults[..n]);
      assert faults == faults[..n] + [faults[n]];
      if m.prog.GroupWait? {
        GroupStage(store, op, m, faults[n]);
      } else if m.prog.HostsWait? {
        HostsStage(store, op, faults[..n], m, faults[n]);
      } else if m.prog.AddWait? {
        AddStage(store, op, faults[..n], m, faults[n]);
      } else {
        LaterStage(store, op, faults[..n], m, faults[n]);
      }
    }
  }

  lemma {:induction false} OtherOpsKeepHosts(store: Store, op: Op, faults: seq<Fault>)
    requires !op.BlockIp?
    ensures RecordsOf(Alone(store, op, faults).store, IPHost) == RecordsOf(store, IPHost)
  {
    if faults != [] {
      var n := |faults| - 1;
      OtherOpsKeepHosts(store, op, faults[..n]);
      ExecStaysUpToDate(op, store, faults[..n]);
      OtherTypesUnchanged(Alone(store, op, faults[..n]), faults[n], IPHost);
    }
  }

  lemma RecordsAfterCall(store: Store, op: Op, faults: seq<Fault>)
    requires ProperOp(op)
    ensures RecordsOf(Alone(store, op, faults).store, IPHost) == CreatedBy(store, op, faults)
  {
    if op.BlockIp? {
      BlockReachesStage(store, op, faults);
      assert BlockStage(store, op, faults, Alone(store, op, faults)) ==>
          RecordsOf(Alone(store, op, faults).store, IPHost) == CreatedBy(store, op, faults) by {
        StageRecords(store, op, faults, Alone(store, op, faults));
      }
    } else {
      OtherOpsKeepHosts(store, op, faults);
    }
  }

  lemma StageRecords(store: Store, op: Op, faults: seq<Fault>, m: Moment)
    requires op.BlockIp?
    ensures BlockStage(store, op, faults, m) ==> RecordsOf(m.store, IPHost) == CreatedBy(store, op, faults)
  {
  }

  lemma CreatedNames(store: Store, op: Op, faults: seq<Fault>, ip: string)
    requires ProperOp(op)
    ensures HostNames(CreatedBy(store, op, faults), ip) ==
            HostsAt(store, ip) + if Creates(store, op, faults) && op.ip == ip then [op.name] else []
  {
    if Creates(store, op, faults) {
      OneMoreHost(RecordsOf(store, IPHost), op.ip, op.name, ip);
    } else {
      assert CreatedBy(store, op, faults) == RecordsOf(store, IPHost);
    }
  }

  /** A call adds one host or none, and it adds one exactly when the group was found and is an
      IPv4 group, the search found no host, and the addition got through. */
  lemma HostsAfterCall(store: Store, op: Op, faults: seq<Fault>, ip: string)
    requires ProperOp(op)
    ensures RecordsOf(Alone(store, op, faults).store, IPHost) == CreatedBy(store, op, faults)
    ensures HostsAt(Alone(store, op, faults).store, ip) ==
            HostsAt(store, ip) + if Creates(store, op, faults) && op.ip == ip then [op.name] else []
  {
    RecordsAfterCall(store, op, faults);
    CreatedNames(store, op, faults, ip);
  }

  // ── What all calls together do ─────────────────────────────────────────────

  /** The search for hosts was not answered by a bare error status. */
  predicate HostsReadTrusted(op: Op, faults: seq<Fault>) {
    op.BlockIp? && |faults| >= 2 ==> !faults[1].Denied?
  }

  predicate WellRun(run: Run) {
    ProperOp(run.op) && HostsReadTrusted(run.op, run.faults)
  }

  /** A second host for an address that has one is created exactly when the search for hosts is
      answered by a bare error status, which the search takes for "none". */
  lemma SecondHostExactly(store: Store, op: Op, faults: seq<Fault>)
    requires op.BlockIp? && ProperOp(op)
    ensures HostsAt(store, op.ip) != [] ==>
              (HostsAt(Alone(store, op, faults).store, op.ip) != HostsAt(store, op.ip) <==>
                 && |faults| >= 3 && faults[1].Denied?
                 && GroupPasses(store, op.group, faults[0]) && Applies(faults[2]) && NameIsFree(store, op.name))
  {
    HostsAfterCall(store, op, faults, op.ip);
  }

  lemma {:induction false} SerialHosts(start: Store, done: seq<Run>, ip: string)
    requires forall run :: run in done ==> WellRun(run)
    ensures var before, after := HostsAt(start, ip), HostsAt(SerialStore(start, done), ip);
            after == before || (before == [] && |after| == 1)
  {
    if done != [] {
      var n := |done| - 1;
      assert done[n] in done && forall run :: run in done[..n] ==> run in done;
      SerialHosts(start, done[..n], ip);
      HostsAfterCall(SerialStore(start, done[..n]), done[n].op, done[n].faults, ip);
    }
  }

  /** Every call so far was made with a proper name and address, and none was misled by a bare
      error status in its search for hosts. */
  ghost predicate AllWellRun(w: World) {
    && (forall run :: run in w.done ==> WellRun(run))
    && (forall t :: t in w.tasks && w.tasks[t].Running? ==>
          ProperOp(w.tasks[t].op) && HostsReadTrusted(w.tasks[t].op, w.tasks[t].faults))
  }

  /** In every reachable state, in the middle of calls too: an address that had hosts at the
      start has exactly those, and any other address has at most one. */
  lemma AtMostOneHostIsCreated(start: Store, events: seq<Event>, ip: string)
    requires AllWellRun(After(start, events))
    ensures var before, now := HostsAt(start, ip), HostsAt(After(start, events).store, ip);
            now == before || (before == [] && |now| == 1)
  {
    var w := After(start, events);
    Serialisable(start, events);
    SerialHosts(start, w.done, ip);
    if !Idle(w) {
      var t :| t in w.tasks && w.tasks[t].Running?;
      assert RunsAsAlone(start, w, t);
      HostsAfterCall(SerialStore(start, w.done), w.tasks[t].op, w.tasks[t].faults, ip);
    }
  }

  /** A call for a group that does not exist or is not an IPv4 group leaves no host behind. */
  lemma WrongGroupCreatesNone(store: Store, group: string, ip: string, name: string, faults: seq<Fault>)
    requires ProperOp(BlockIp(group, ip, name))
    requires var found := FindRecord(RecordsOf(store, IPHostGroup), group);
             found.Err? || !Ipv4Group(found.value)
    ensures RecordsOf(Alone(store, BlockIp(group, ip, name), faults).store, IPHost) == RecordsOf(store, IPHost)
  {
    HostsAfterCall(store, BlockIp(group, ip, name), faults, ip);
  }
}
