/** The write methods of the client as straight-line code. Each method is shown to do what its
    operation does as a program of requests, whatever happens to the requests, and to give the
    slot back on every path. */
module SophosClients {
  import opened Wrappers
  import opened XmlRecords
  import opened Groups
  import opened Client
  import opened Slot

  class SophosClient {
    /** The firewall behind the session. */
    var store: Store
    /** The outcomes of the requests sent so far. */
    var sent: seq<Fault>
    /** Permits of the semaphore. */
    var free: nat
    /** What will happen to the n-th request. */
    const outcomes: nat -> Fault

    constructor (store: Store, outcomes: nat -> Fault)
      ensures this.store == store && this.outcomes == outcomes && sent == [] && free == 1
    {
      this.store, this.outcomes := store, outcomes;
      sent, free := [], 1;
    }

    /** The requests since then took a program from its start to here. */
    ghost predicate Took(before: Store, start: Prog, earlier: seq<Fault>, prog: Prog)
      reads this
    {
      earlier <= sent && Exec(Moment(before, start), sent[|earlier|..]) == Moment(store, prog)
    }

    /** One request; it takes the slot itself unless the caller holds it. */
    method Post(r: Request, slotHeld: bool) returns (answer: Answer)
      requires free == if slotHeld then 0 else 1
      modifies this
      ensures free == old(free)
      ensures sent == old(sent) + [outcomes(|old(sent)|)]
      ensures store == StoreAfter(old(store), r, outcomes(|old(sent)|))
      ensures answer == AnswerTo(old(store), r, outcomes(|old(sent)|))
    {
      if !slotHeld {
        free := free - 1;
      }
      var fault := outcomes(|sent|);
      answer := AnswerTo(store, r, fault);
      store := StoreAfter(store, r, fault);
      sent := sent + [fault];
      if !slotHeld {
        free := free + 1;
      }
    }

    /** One request of a program. */
    method Send(ghost before: Store, ghost start: Prog, ghost earlier: seq<Fault>, ghost prog: Prog, r: Request)
      returns (answer: Answer)
      requires free == 0 && Took(before, start, earlier, prog) && !prog.Finished? && r == RequestOf(prog)
      modifies this
      ensures free == 0 && Took(before, start, earlier, Continue(prog, answer))
    {
      ghost var was := sent;
      answer := Post(r, true);
      OneMoreFault(Moment(before, start), was[|earlier|..], sent[|was|]);
      assert sent[|earlier|..] == was[|earlier|..] + [sent[|was|]];
    }

    /** The change closures: edit the record in place; tell whether to write it and what to return. */
    method Edit(record: RecordEdit, change: Change) returns (edit: Result<(bool, Reply), Error>)
      modifies record
      ensures ApplyChange(change, old(record.elem)) ==
              if edit.Ok? then Ok(Edited(record.elem, edit.value.0, edit.value.1)) else Err(edit.error)
    {
      match change {
        case SetField(field, value) =>
          var i := FirstIndex(record.elem.children, TagTest(field.Name()));
          if i == |record.elem.children| {
            return Err(ApiError);
          }
          record.elem := record.elem.(children := record.elem.children[i := record.elem.children[i].(text := value)]);
          edit := Ok((true, Updated));
        case ChangeUrl(url, present) =>
          var changed := record.SetUrl(url, present);
          edit := if changed.Err? then Err(WriteError("528")) else Ok((changed.value, UrlSet(changed.value)));
        case JoinHost(host) =>
          var changed := record.AddHost(host);
          edit := if changed.Err? then Err(WriteError("")) else Ok((changed.value, Blocked(true, host)));
        case LeaveHosts(hosts) =>
          var removed := record.RemoveHosts(hosts);
          edit := if removed.Err? then Err(WriteError("")) else Ok((removed.value != [], Unblocked(removed.value)));
      }
    }

    /** Read a record and edit the copy: whether and what to write, and what to return then. */
    method ReadAndEdit(ghost before: Store, ghost start: Prog, ghost earlier: seq<Fault>,
                       tag: Tag, name: string, change: Change)
      returns (edit: Result<Edited, Error>)
      requires free == 0 && Took(before, start, earlier, ReadWait(tag, name, change))
      modifies this
      ensures free == 0
      ensures Took(before, start, earlier,
                   if edit.Err? then Finished(Err(edit.error))
                   else if !edit.value.write then Finished(Ok(edit.value.reply))
                   else WriteWait(tag, name, change, edit.value.elem, edit.value.reply))
    {
      var answer := Send(before, start, earlier, ReadWait(tag, name, change), Get(tag));
      var found := RecordIn(answer, name);
      if found.Err? {
        return Err(found.error);
      }
      var record := new RecordEdit(found.value);
      var outcome := Edit(record, change);
      edit := if outcome.Err? then Err(outcome.error) else Ok(Edited(record.elem, outcome.value.0, outcome.value.1));
      assert ApplyChange(change, found.value) == edit;
    }

    method ModifyRecordHeld(ghost before: Store, ghost start: Prog, ghost earlier: seq<Fault>,
                            tag: Tag, name: string, change: Change)
      returns (result: Result<Reply, Error>)
      requires free == 0 && Took(before, start, earlier, ReadWait(tag, name, change))
      modifies this
      ensures free == 0 && Took(before, start, earlier, Finished(result))
    {
      hide ApplyChange, Visible, FindRecord, Exec, IsSuccess;
      var edit := ReadAndEdit(before, start, earlier, tag, name, change);
      if edit.Err? {
        return Err(edit.error);
      }
      var reply := edit.value.reply;
      if !edit.value.write {
        return Ok(reply);
      }
      var elem := edit.value.elem;
      var answer := Send(before, start, earlier, WriteWait(tag, name, change, elem, reply), Update(tag, elem));
      var complaint := Complaint(answer);
      if complaint.Some? {
        return Err(complaint.value);
      }
      if !IsVerified(change) {
        return Ok(reply);
      }
      answer := Send(before, start, earlier, VerifyWait(tag, name, change, reply), Get(tag));
      var after := RecordIn(answer, name);
      result := if after.Ok? && !Visible(change, after.value) then Err(WriteError("not_applied")) else Ok(reply);
    }

    /** Read, change, write and read back in one slot. */
    method ModifyRecord(tag: Tag, name: string, change: Change) returns (result: Result<Reply, Error>)
      requires free == 1
      modifies this
      ensures free == 1 && Took(old(store), ReadWait(tag, name, change), old(sent), Finished(result))
    {
      free := free - 1;
      result := ModifyRecordHeld(store, ReadWait(tag, name, change), sent, tag, name, change);
      free := free + 1;
    }

    method SetFirewallRuleStatus(name: string, enable: bool) returns (result: Result<Reply, Error>)
      requires free == 1
      modifies this
      ensures free == 1 && Took(old(store), Start(SetRuleStatus(name, enable)), old(sent), Finished(result))
    {
      result := ModifyRecord(FirewallRule, name, SetField(StatusField, if enable then "Enable" else "Disable"));
    }

    method SetWebFilterDefaultAction(name: string, allow: bool) returns (result: Result<Reply, Error>)
      requires free == 1
      modifies this
      ensures free == 1 && Took(old(store), Start(SetDefaultAction(name, allow)), old(sent), Finished(result))
    {
      result := ModifyRecord(WebFilterPolicy, name, SetField(DefaultActionField, if allow then "Allow" else "Deny"));
    }

    method SetUrlInGroup(group: string, url: string, present: bool) returns (result: Result<Reply, Error>)
      requires free == 1
      modifies this
      ensures free == 1 && Took(old(store), Start(Op.SetUrlInGroup(group, url, present)), old(sent), Finished(result))
    {
      result := ModifyRecord(WebFilterURLGroup, group, ChangeUrl(url, present));
    }

    /** Names of all IP hosts with this address. */
    method IpHostsHeld(ghost before: Store, ghost start: Prog, ghost earlier: seq<Fault>, ghost prog: Prog, ip: string)
      returns (hosts: Result<seq<string>, Error>)
      requires free == 0 && Took(before, start, earlier, prog)
      requires !prog.Finished? && RequestOf(prog) == Get(IPHost) && (prog.HostsWait? || prog.UnblockWait?) && prog.ip == ip
      modifies this
      ensures free == 0
      ensures Took(before, start, earlier,
                   if hosts.Err? then Finished(Err(hosts.error))
                   else if prog.HostsWait? then WithHosts(prog, hosts.value)
                   else ReadWait(IPHostGroup, prog.group, LeaveHosts(SetOf(hosts.value))))
    {
      var answer := Send(before, start, earlier, prog, Get(IPHost));
      match answer {
        case Records(elems) => hosts := Ok(HostNames(elems, ip));
        case Status(_) => hosts := Err(ApiError);
        case Failure(error) => hosts := Err(error);
      }
    }

    /** Put the device with this address into an IP host group, by one of its hosts or by a new one. */
    method BlockIpInGroup(group: string, ip: string, name: string) returns (result: Result<Reply, Error>)
      requires free == 1
      modifies this
      ensures free == 1 && Took(old(store), Start(BlockIp(group, ip, name)), old(sent), Finished(result))
    {
      free := free - 1;
      result := BlockIpHeld(group, ip, name);
      free := free + 1;
    }

    method BlockIpHeld(group: string, ip: string, name: string) returns (result: Result<Reply, Error>)
      requires free == 0
      modifies this
      ensures free == 0 && Took(old(store), Start(BlockIp(group, ip, name)), old(sent), Finished(result))
    {
      ghost var before, start, earlier := store, GroupWait(group, ip, name), sent;
      var answer := Send(before, start, earlier, start, Get(IPHostGroup));
      var found := RecordIn(answer, group);
      if found.Err? {
        return Err(found.error);
      }
      if !Ipv4Group(found.value) {
        return Err(WriteError(""));
      }
      var hosts := IpHostsHeld(before, start, earlier, HostsWait(group, ip, name, found.value), ip);
      if hosts.Err? {
        return Err(hosts.error);
      }
      var i := FirstMember(hosts.value, found.value);
      if i < |hosts.value| {
        return Ok(Blocked(false, hosts.value[i]));
      }
      var host := name;
      if hosts.value != [] {
        host := hosts.value[0];
      } else {
        var added := AddIpHostHeld(before, start, earlier, group, ip, name);
        if added.Some? {
          return Err(added.value);
        }
      }
      result := ModifyRecordHeld(before, start, earlier, IPHostGroup, group, JoinHost(host));
    }

    /** Create an IP host; the result is what went wrong. */
    method AddIpHostHeld(ghost before: Store, ghost start: Prog, ghost earlier: seq<Fault>, group: string, ip: string, name: string)
      returns (failure: Option<Error>)
      requires free == 0 && Took(before, start, earlier, AddWait(group, ip, name))
      modifies this
      ensures free == 0
      ensures Took(before, start, earlier,
                   if failure.Some? then Finished(Err(failure.value)) else ReadWait(IPHostGroup, group, JoinHost(name)))
    {
      var answer := Send(before, start, earlier, AddWait(group, ip, name), Add(IPHost, HostRecord(ip, name)));
      failure := Complaint(answer);
    }

    /** Take every host with this address out of an IP host group. */
    method UnblockIpInGroup(group: string, ip: string) returns (result: Result<Reply, Error>)
      requires free == 1
      modifies this
      ensures free == 1 && Took(old(store), Start(UnblockIp(group, ip)), old(sent), Finished(result))
    {
      ghost var before, start, earlier := store, UnblockWait(group, ip), sent;
      free := free - 1;
      var hosts := IpHostsHeld(before, start, earlier, start, ip);
      if hosts.Err? {
        result := Err(hosts.error);
      } else {
        result := ModifyRecordHeld(before, start, earlier, IPHostGroup, group, LeaveHosts(SetOf(hosts.value)));
      }
      free := free + 1;
    }

    /** A poll: one request, which takes the slot itself. */
    method GetRecords(tag: Tag) returns (result: Result<Reply, Error>)
      requires free == 1
      modifies this
      ensures free == 1 && Took(old(store), Start(Poll(tag)), old(sent), Finished(result))
    {
      ghost var earlier := sent;
      var answer := Post(Get(tag), false);
      OneMoreFault(Moment(old(store), PollWait(tag)), [], sent[|earlier|]);
      assert sent[|earlier|..] == [] + [sent[|earlier|]];
      match answer {
        case Records(elems) => result := Ok(Polled(Hits(elems, IsProper)));
        case Status(_) => result := Err(ApiError);
        case Failure(error) => result := Err(error);
      }
    }
  }
}
