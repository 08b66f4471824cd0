/** The XML client: read, change, write and read back in one request slot.

    An operation is a program that sends one request after another; the environment decides how
    each request ends. */
module Client {
  import opened Wrappers
  import opened Texts
  import opened XmlRecords
  import opened Groups

  /** The record types the client works with, by their XML tag. */
  datatype Tag = FirewallRule | WebFilterPolicy | WebFilterURLGroup | IPHostGroup | IPHost | OtherTag(text: string) {
    function Name(): string {
      match this
      case FirewallRule => "FirewallRule"
      case WebFilterPolicy => "WebFilterPolicy"
      case WebFilterURLGroup => "WebFilterURLGroup"
      case IPHostGroup => "IPHostGroup"
      case IPHost => "IPHost"
      case OtherTag(text) => text
    }
  }

  /** The fields that are written one at a time. */
  datatype Field = StatusField | DefaultActionField {
    function Name(): string {
      match this
      case StatusField => "Status"
      case DefaultActionField => "DefaultAction"
    }
  }

  datatype Error =
    | ConnectionError | AuthError | AccessError | ApiError | NotFound
    | WriteError(code: string)

  // ── The firewall ───────────────────────────────────────────────────────────

  /** The stored records by tag, in the firewall's order. */
  type Store = map<Tag, seq<Elem>>

  datatype Request = Get(tag: Tag) | Update(tag: Tag, body: Elem) | Add(tag: Tag, body: Elem)

  /** How one request ends. Every request may get lost, before or after it was applied; a write
      may be refused, ignored in spite of a success code, or answered without a status. */
  datatype Fault =
    | Served
    | Lost(error: Error)
    | AnswerLost(error: Error)
    | Denied(code: string)
    | Ignored
    | NoStatus(applied: bool)

  datatype Answer = Records(elems: seq<Elem>) | Status(code: Option<string>) | Failure(error: Error)

  function RecordsOf(store: Store, tag: Tag): seq<Elem> {
    if tag in store then store[tag] else []
  }

  function NameOf(e: Elem): string {
    TextOr(e, "Name", "")
  }

  function NameTest(name: string): Elem -> bool {
    (e: Elem) => NameOf(e) == name
  }

  /** The write as the firewall carries it out: an update replaces the whole record of that
      name, an addition needs a free name. None when it refuses. */
  function Applied(store: Store, r: Request): Option<Store> {
    var records := RecordsOf(store, r.tag);
    match r
    case Get(_) => Some(store)
    case Update(tag, body) =>
      var i := FirstIndex(records, NameTest(NameOf(body)));
      if i < |records| then Some(store[tag := records[i := body]]) else None
    case Add(tag, body) =>
      if FirstIndex(records, NameTest(NameOf(body))) < |records| then None
      else Some(store[tag := records + [body]])
  }

  function StoreAfter(store: Store, r: Request, fault: Fault): Store {
    var applied := Applied(store, r);
    match fault
    case Lost(_) => store
    case Denied(_) => store
    case Ignored => store
    case NoStatus(false) => store
    case _ => if applied.Some? then applied.value else store
  }

  function StatusRecord(tag: Tag, code: string): Elem {
    Elem(tag.Name(), map[], "", [Elem("Status", map["code" := code], "", [])])
  }

  /** The code of a refused write: no such record, or the name is taken. */
  function RefusalCode(r: Request): string {
    if r.Add? then "502" else "526"
  }

  function AnswerTo(store: Store, r: Request, fault: Fault): Answer {
    match fault
    case Lost(error) => Failure(error)
    case AnswerLost(error) => Failure(error)
    case Denied(code) => if r.Get? then Records([StatusRecord(r.tag, code)]) else Status(Some(code))
    case NoStatus(_) => if r.Get? then Records(RecordsOf(store, r.tag)) else Status(None)
    case Ignored => if r.Get? then Records(RecordsOf(store, r.tag)) else Status(Some("200"))
    case Served =>
      if r.Get? then Records(RecordsOf(store, r.tag))
      else Status(Some(if Applied(store, r).Some? then "200" else RefusalCode(r)))
  }

  // ── Reading answers ────────────────────────────────────────────────────────

  predicate IsStatusOnly(e: Elem) {
    |e.children| == 1 && e.children[0].tag == "Status"
  }

  predicate HasErrorCode(e: Elem) {
    IsStatusOnly(e) && "code" in e.children[0].attrs && e.children[0].attrs["code"] != ""
  }

  function RecordTest(name: string): Elem -> bool {
    (e: Elem) => !IsStatusOnly(e) && NameOf(e) == name
  }

  function FindRecord(elems: seq<Elem>, name: string): Result<Elem, Error> {
    var i := FirstIndex(elems, RecordTest(name));
    if i < |elems| then Ok(elems[i])
    else if FirstIndex(elems, HasErrorCode) < |elems| then Err(ApiError)
    else Err(NotFound)
  }

  function RecordIn(answer: Answer, name: string): Result<Elem, Error> {
    match answer
    case Records(elems) => FindRecord(elems, name)
    case Status(_) => Err(ApiError)
    case Failure(error) => Err(error)
  }

  predicate IsSuccess(code: string) {
    |code| == 3 && code[0] == '2' && '0' <= code[1] <= '9' && '0' <= code[2] <= '9'
  }

  /** None when the write is confirmed by an explicit 2xx code. */
  function Complaint(answer: Answer): Option<Error> {
    match answer
    case Failure(error) => Some(error)
    case Status(Some(code)) => if IsSuccess(code) then None else Some(WriteError(code))
    case _ => Some(ApiError)
  }

  predicate IsHostAt(e: Elem, ip: string) {
    && !IsStatusOnly(e) && TextOr(e, "HostType", "") == "IP" && TextOr(e, "IPAddress", "") == ip
    && NameOf(e) != ""
  }

  function HostAtTest(ip: string): Elem -> bool {
    (e: Elem) => IsHostAt(e, ip)
  }

  /** The names of the IP hosts with this address. */
  function HostNames(elems: seq<Elem>, ip: string): seq<string> {
    var hits := Hits(elems, HostAtTest(ip));
    seq(|hits|, i requires 0 <= i < |hits| => NameOf(hits[i]))
  }

  function HostRecord(ip: string, name: string): Elem {
    Elem(IPHost.Name(), map[], "", [
      NewLeaf("Name", name), NewLeaf("IPFamily", "IPv4"), NewLeaf("HostType", "IP"),
      NewLeaf("IPAddress", ip), NewLeaf("Description", "Created by Home Assistant")])
  }

  // ── Changing a record ──────────────────────────────────────────────────────

  datatype Change =
    | SetField(field: Field, value: string)
    | ChangeUrl(url: string, present: bool)
    | JoinHost(host: string)
    | LeaveHosts(hosts: set<string>)

  datatype Reply =
    | Polled(records: seq<Elem>)
    | Updated
    | UrlSet(changed: bool)
    | Blocked(changed: bool, host: string)
    | Unblocked(removed: seq<string>)

  /** The edited record, whether it has to be written, and what the call will return. */
  datatype Edited = Edited(elem: Elem, write: bool, reply: Reply)

  function ApplyChange(change: Change, e: Elem): Result<Edited, Error> {
    match change
    case SetField(field, value) =>
      var i := FirstIndex(e.children, TagTest(field.Name()));
      if i == |e.children| then Err(ApiError)
      else Ok(Edited(e.(children := e.children[i := e.children[i].(text := value)]), true, Updated))
    case ChangeUrl(url, present) =>
      var d := Domain(url);
      if !EditableUrlGroup(e) then Err(WriteError("528"))
      else Ok(Edited(if present then WithUrl(e, d) else WithoutUrl(e, d), HasUrl(e, d) != present,
                     UrlSet(HasUrl(e, d) != present)))
    case JoinHost(host) =>
      if !Ipv4Group(e) then Err(WriteError(""))
      else Ok(Edited(WithHost(e, host), !HasHost(e, {host}), Blocked(true, host)))
    case LeaveHosts(hosts) =>
      if !Ipv4Group(e) then Err(WriteError(""))
      else Ok(Edited(WithoutHosts(e, hosts), HasHost(e, hosts), Unblocked(MembersAmong(e, hosts))))
  }

  /** Group memberships are read back after the write. */
  predicate IsVerified(change: Change) {
    !change.SetField?
  }

  predicate Visible(change: Change, e: Elem) {
    match change
    case SetField(_, _) => true
    case ChangeUrl(url, present) => HasUrl(e, Domain(url)) == present
    case JoinHost(host) => HasHost(e, {host})
    case LeaveHosts(hosts) => !HasHost(e, hosts)
  }

  // ── Operations as programs ─────────────────────────────────────────────────

  datatype Op =
    | Poll(tag: Tag)
    | SetRuleStatus(name: string, enable: bool)
    | SetDefaultAction(name: string, allow: bool)
    | SetUrlInGroup(group: string, url: string, present: bool)
    | BlockIp(group: string, ip: string, name: string)
    | UnblockIp(group: string, ip: string)

  /** What a running operation is waiting for. */
  datatype Prog =
    | PollWait(tag: Tag)
    | GroupWait(group: string, ip: string, name: string)
    | HostsWait(group: string, ip: string, name: string, groupElem: Elem)
    | AddWait(group: string, ip: string, name: string)
    | UnblockWait(group: string, ip: string)
    | ReadWait(tag: Tag, name: string, change: Change)
    | WriteWait(tag: Tag, name: string, change: Change, body: Elem, reply: Reply)
    | VerifyWait(tag: Tag, name: string, change: Change, reply: Reply)
    | Finished(result: Result<Reply, Error>)

  function Start(op: Op): Prog {
    match op
    case Poll(tag) => PollWait(tag)
    case SetRuleStatus(name, enable) =>
      ReadWait(FirewallRule, name, SetField(StatusField, if enable then "Enable" else "Disable"))
    case SetDefaultAction(name, allow) =>
      ReadWait(WebFilterPolicy, name, SetField(DefaultActionField, if allow then "Allow" else "Deny"))
    case SetUrlInGroup(group, url, present) => ReadWait(WebFilterURLGroup, group, ChangeUrl(url, present))
    case BlockIp(group, ip, name) => GroupWait(group, ip, name)
    case UnblockIp(group, ip) => UnblockWait(group, ip)
  }

  function RequestOf(p: Prog): Request
    requires !p.Finished?
  {
    match p
    case PollWait(tag) => Get(tag)
    case GroupWait(_, _, _) => Get(IPHostGroup)
    case HostsWait(_, _, _, _) => Get(IPHost)
    case AddWait(_, ip, name) => Add(IPHost, HostRecord(ip, name))
    case UnblockWait(_, _) => Get(IPHost)
    case ReadWait(tag, _, _) => Get(tag)
    case WriteWait(tag, _, _, body, _) => Update(tag, body)
    case VerifyWait(tag, _, _, _) => Get(tag)
  }

  predicate IsProper(e: Elem) {
    !IsStatusOnly(e) && e.children != []
  }

  function AfterHosts(p: Prog, elems: seq<Elem>): Prog
    requires p.HostsWait?
  {
    WithHosts(p, HostNames(elems, p.ip))
  }

  function WithHosts(p: Prog, hosts: seq<string>): Prog
    requires p.HostsWait?
  {
    var i := FirstMember(hosts, p.groupElem);
    if i < |hosts| then Finished(Ok(Blocked(false, hosts[i])))
    else if hosts != [] then ReadWait(IPHostGroup, p.group, JoinHost(hosts[0]))
    else AddWait(p.group, p.ip, p.name)
  }

  /** Index of the first of these hosts that is a member of the group already. */
  function FirstMember(hosts: seq<string>, group: Elem): (i: nat)
    ensures i <= |hosts|
  {
    if hosts == [] || HasHost(group, {hosts[0]}) then 0 else 1 + FirstMember(hosts[1..], group)
  }

  function Continue(p: Prog, answer: Answer): Prog
    requires !p.Finished?
  {
    match p
    case PollWait(_) =>
      (match answer
       case Records(elems) => Finished(Ok(Polled(Hits(elems, IsProper))))
       case Status(_) => Finished(Err(ApiError))
       case Failure(error) => Finished(Err(error)))
    case GroupWait(group, ip, name) =>
      var found := RecordIn(answer, group);
      if found.Err? then Finished(Err(found.error))
      else if !Ipv4Group(found.value) then Finished(Err(WriteError("")))
      else HostsWait(group, ip, name, found.value)
    case HostsWait(_, _, _, _) =>
      (match answer
       case Records(elems) => AfterHosts(p, elems)
       case Status(_) => Finished(Err(ApiError))
       case Failure(error) => Finished(Err(error)))
    case AddWait(group, ip, name) =>
      if Complaint(answer).Some? then Finished(Err(Complaint(answer).value))
      else ReadWait(IPHostGroup, group, JoinHost(name))
    case UnblockWait(group, ip) =>
      (match answer
       case Records(elems) => ReadWait(IPHostGroup, group, LeaveHosts(SetOf(HostNames(elems, ip))))
       case Status(_) => Finished(Err(ApiError))
       case Failure(error) => Finished(Err(error)))
    case ReadWait(tag, name, change) =>
      var found := RecordIn(answer, name);
      if found.Err? then Finished(Err(found.error))
      else
        var edited := ApplyChange(change, found.value);
        if edited.Err? then Finished(Err(edited.error))
        else if !edited.value.write then Finished(Ok(edited.value.reply))
        else WriteWait(tag, name, change, edited.value.elem, edited.value.reply)
    case WriteWait(tag, name, change, _, reply) =>
      if Complaint(answer).Some? then Finished(Err(Complaint(answer).value))
      else if IsVerified(change) then VerifyWait(tag, name, change, reply)
      else Finished(Ok(reply))
    case VerifyWait(_, name, change, reply) =>
      var found := RecordIn(answer, name);
      if found.Ok? && !Visible(change, found.value) then Finished(Err(WriteError("not_applied")))
      else Finished(Ok(reply))
  }

  /** The store and the program, and nothing else, after a list of request outcomes. */
  datatype Moment = Moment(store: Store, prog: Prog)

  function Exchange(m: Moment, fault: Fault): Moment {
    if m.prog.Finished? then m
    else
      var r := RequestOf(m.prog);
      Moment(StoreAfter(m.store, r, fault), Continue(m.prog, AnswerTo(m.store, r, fault)))
  }

  /** An operation that has the firewall to itself. */
  function Exec(m: Moment, faults: seq<Fault>): Moment {
    if faults == [] then m
    else Exchange(Exec(m, faults[..|faults| - 1]), faults[|faults| - 1])
  }

  // ── What an operation knows while it holds the slot ─────────────────────────

  predicate ChangeFits(tag: Tag, change: Change) {
    match change
    case SetField(field, _) =>
      (tag == FirewallRule && field == StatusField) || (tag == WebFilterPolicy && field == DefaultActionField)
    case ChangeUrl(_, _) => tag == WebFilterURLGroup
    case JoinHost(_) => tag == IPHostGroup
    case LeaveHosts(_) => tag == IPHostGroup
  }

  /** The operation the program runs: its writes are the ones it was called for. */
  predicate Serves(op: Op, p: Prog) {
    match p
    case PollWait(_) => true
    case GroupWait(group, ip, name) => op == BlockIp(group, ip, name)
    case HostsWait(group, ip, name, _) => op == BlockIp(group, ip, name)
    case AddWait(group, ip, name) => op == BlockIp(group, ip, name)
    case UnblockWait(group, ip) => op == UnblockIp(group, ip)
    case ReadWait(tag, name, change) => ChangeOf(op, tag, name, change)
    case WriteWait(tag, name, change, _, _) => ChangeOf(op, tag, name, change)
    case VerifyWait(tag, name, change, _) => ChangeOf(op, tag, name, change)
    case Finished(_) => true
  }

  predicate ChangeOf(op: Op, tag: Tag, name: string, change: Change) {
    && ChangeFits(tag, change)
    && (tag == FirewallRule ==> op.SetRuleStatus? && Start(op) == ReadWait(tag, name, change))
    && (tag == WebFilterPolicy ==> op.SetDefaultAction? && Start(op) == ReadWait(tag, name, change))
    && (tag == WebFilterURLGroup ==> op.SetUrlInGroup? && Start(op) == ReadWait(tag, name, change))
    && (tag == IPHostGroup && change.JoinHost? ==> op.BlockIp? && op.group == name)
    && (tag == IPHostGroup && change.LeaveHosts? ==> op.UnblockIp? && op.group == name)
  }

  /** What was read is still what the firewall has: nobody else could write in between. */
  ghost predicate UpToDate(m: Moment) {
    match m.prog
    case HostsWait(group, _, _, groupElem) =>
      FindRecord(RecordsOf(m.store, IPHostGroup), group) == Ok(groupElem) && Ipv4Group(groupElem)
    case AddWait(group, _, _) =>
      && FindRecord(RecordsOf(m.store, IPHostGroup), group).Ok?
      && Ipv4Group(FindRecord(RecordsOf(m.store, IPHostGroup), group).value)
    case WriteWait(tag, name, change, body, reply) =>
      && FindRecord(RecordsOf(m.store, tag), name).Ok?
      && ApplyChange(change, FindRecord(RecordsOf(m.store, tag), name).value) == Ok(Edited(body, true, reply))
    case _ => true
  }

  lemma ContinueServes(op: Op, p: Prog, answer: Answer)
    requires !p.Finished? && Serves(op, p)
    ensures Serves(op, Continue(p, answer))
  {
    hide ApplyChange, RecordIn, Complaint, HostNames, FirstMember, Visible;
  }

  /** A read answers with the firewall's records, with a bare error status, or not at all. */
  lemma ReadAnswer(store: Store, tag: Tag, fault: Fault)
    ensures StoreAfter(store, Get(tag), fault) == store
    ensures var answer := AnswerTo(store, Get(tag), fault);
            || answer.Failure? || answer == Records(RecordsOf(store, tag))
            || (fault.Denied? && answer == Records([StatusRecord(tag, fault.code)]))
  {
  }

  lemma ExchangeStaysUpToDate(op: Op, m: Moment, fault: Fault)
    requires UpToDate(m) && Serves(op, m.prog)
    ensures UpToDate(Exchange(m, fault)) && Serves(op, Exchange(m, fault).prog)
  {
    if !m.prog.Finished? {
      var r := RequestOf(m.prog);
      var answer := AnswerTo(m.store, r, fault);
      ContinueServes(op, m.prog, answer);
      if r.Get? {
        ReadAnswer(m.store, r.tag, fault);
        ReadStaysUpToDate(m, answer, fault);
      }
    }
  }

  lemma ReadStaysUpToDate(m: Moment, answer: Answer, fault: Fault)
    requires UpToDate(m) && !m.prog.Finished? && RequestOf(m.prog).Get?
    requires || answer.Failure? || answer == Records(RecordsOf(m.store, RequestOf(m.prog).tag))
             || (fault.Denied? && answer == Records([StatusRecord(RequestOf(m.prog).tag, fault.code)]))
    ensures UpToDate(Moment(m.store, Continue(m.prog, answer)))
  {
    hide ApplyChange, FindRecord, HostNames, FirstMember, Ipv4Group, Visible, Complaint;
    if answer.Records? && answer.elems != RecordsOf(m.store, RequestOf(m.prog).tag) {
      DeniedReadFindsNothing(RequestOf(m.prog).tag, fault.code);
    }
  }

  lemma DeniedReadFindsNothing(tag: Tag, code: string)
    ensures forall name :: FindRecord([StatusRecord(tag, code)], name).Err?
    ensures forall ip :: HostNames([StatusRecord(tag, code)], ip) == []
  {
  }

  lemma {:induction false} ExecStaysUpToDate(op: Op, store: Store, faults: seq<Fault>)
    ensures var m := Exec(Moment(store, Start(op)), faults); UpToDate(m) && Serves(op, m.prog)
  {
    if faults != [] {
      ExecStaysUpToDate(op, store, faults[..|faults| - 1]);
      ExchangeStaysUpToDate(op, Exec(Moment(store, Start(op)), faults[..|faults| - 1]), faults[|faults| - 1]);
    }
  }

  // ── A call ends ────────────────────────────────────────────────────────────

  /** How many requests a program sends at most. */
  function Left(p: Prog): nat {
    match p
    case PollWait(_) => 1
    case GroupWait(_, _, _) => 6
    case HostsWait(_, _, _, _) => 5
    case AddWait(_, _, _) => 4
    case UnblockWait(_, _) => 4
    case ReadWait(_, _, _) => 3
    case WriteWait(_, _, _, _, _) => 2
    case VerifyWait(_, _, _, _) => 1
    case Finished(_) => 0
  }

  lemma EveryRequestCounts(p: Prog, answer: Answer)
    requires !p.Finished?
    ensures Left(Continue(p, answer)) < Left(p)
  {
    hide ApplyChange, RecordIn, Complaint, HostNames, FirstMember, Visible;
  }

  /** A call holds the slot for six requests at most, whatever happens to them. */
  lemma {:induction false} CallsEnd(op: Op, store: Store, faults: seq<Fault>)
    ensures var m := Exec(Moment(store, Start(op)), faults); m.prog.Finished? || |faults| + Left(m.prog) <= 6
    ensures |faults| >= 6 ==> Exec(Moment(store, Start(op)), faults).prog.Finished?
  {
    if faults != [] {
      hide Continue, AnswerTo, StoreAfter;
      var n := |faults| - 1;
      CallsEnd(op, store, faults[..n]);
      var m := Exec(Moment(store, Start(op)), faults[..n]);
      if !m.prog.Finished? {
        EveryRequestCounts(m.prog, AnswerTo(m.store, RequestOf(m.prog), faults[n]));
      }
    }
  }
}
