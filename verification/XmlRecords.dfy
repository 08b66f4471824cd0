/** XML records: from the element tree to nested dicts, and from those to DHCP servers. */
module XmlRecords {
  import opened Wrappers
  import opened Texts

  datatype Elem = Elem(tag: string, attrs: map<string, string>, text: string, children: seq<Elem>)

  /** What the dict conversion yields: a leaf's text, a nested dict, or a list of those. */
  datatype Value = Leaf(text: string) | Record(fields: map<string, Value>) | Many(items: seq<Value>)

  // ── Tree to dict ───────────────────────────────────────────────────────────

  /** The children with this tag, in document order. */
  function Named(children: seq<Elem>, tag: string): seq<Elem> {
    if children == [] then []
    else
      var last := children[|children| - 1];
      Named(children[..|children| - 1], tag) + if last.tag == tag then [last] else []
  }

  function Tags(children: seq<Elem>): set<string> {
    set child | child in children :: child.tag
  }

  /** One value stands for itself, several become a list. */
  function Grouped(values: seq<Value>): Value {
    if |values| == 1 then values[0] else Many(values)
  }

  function ValueOf(e: Elem): (v: Value)
    ensures !v.Many?
    decreases e, 0
  {
    if e.children == [] then Leaf(e.text) else Record(ToDict(e.children))
  }

  function ValuesNamed(children: seq<Elem>, tag: string): seq<Value>
    decreases children, 0
  {
    if children == [] then []
    else
      var last := children[|children| - 1];
      ValuesNamed(children[..|children| - 1], tag) + if last.tag == tag then [ValueOf(last)] else []
  }

  /** The dict of an element: every tag of its children, with their values in order. */
  function ToDict(children: seq<Elem>): map<string, Value>
    decreases children, 1
  {
    map tag | tag in Tags(children) :: Grouped(ValuesNamed(children, tag))
  }

  lemma {:induction false} ValuesAreNamed(children: seq<Elem>, tag: string)
    ensures |ValuesNamed(children, tag)| == |Named(children, tag)|
    ensures forall i :: 0 <= i < |Named(children, tag)| ==>
              Named(children, tag)[i].tag == tag && ValuesNamed(children, tag)[i] == ValueOf(Named(children, tag)[i])
    ensures tag in Tags(children) <==> Named(children, tag) != []
  {
    if children != [] {
      ValuesAreNamed(children[..|children| - 1], tag);
      assert children == children[..|children| - 1] + [children[|children| - 1]];
      var last := children[|children| - 1];
      if last.tag == tag {
        assert last in children;
      }
    }
  }

  /** The dict after one more child: alone, as the second of a new list, or appended. */
  function Extended(dict: map<string, Value>, tag: string, value: Value): map<string, Value> {
    dict[tag :=
      if tag !in dict then value
      else if dict[tag].Many? then Many(dict[tag].items + [value])
      else Many([dict[tag], value])]
  }

  lemma ValuesWithOneMore(children: seq<Elem>, child: Elem, tag: string)
    ensures ValuesNamed(children + [child], tag) ==
            ValuesNamed(children, tag) + if child.tag == tag then [ValueOf(child)] else []
    ensures tag in Tags(children + [child]) <==> tag in Tags(children) || tag == child.tag
  {
  }

  lemma GroupedWithOneMore(values: seq<Value>, value: Value)
    requires values != [] && forall i :: 0 <= i < |values| ==> !values[i].Many?
    ensures Grouped(values + [value]) ==
            if Grouped(values).Many? then Many(Grouped(values).items + [value]) else Many([Grouped(values), value])
  {
  }

  lemma DictWithOneMore(children: seq<Elem>, child: Elem)
    ensures ToDict(children + [child]) == Extended(ToDict(children), child.tag, ValueOf(child))
  {
    var before, after := ToDict(children), ToDict(children + [child]);
    var target := Extended(before, child.tag, ValueOf(child));
    forall tag
      ensures tag in after <==> tag in target
      ensures tag in after ==> after[tag] == target[tag]
    {
      ValuesWithOneMore(children, child, tag);
      ValuesAreNamed(children, tag);
      if tag == child.tag && tag in before {
        GroupedWithOneMore(ValuesNamed(children, tag), ValueOf(child));
      }
    }
  }

  /** Add one child's value under its tag. */
  method AddValue(dict: map<string, Value>, tag: string, value: Value) returns (result: map<string, Value>)
    ensures result == Extended(dict, tag, value)
  {
    result := dict;
    if tag in result {
      if !result[tag].Many? {
        result := result[tag := Many([result[tag]])];
      }
      result := result[tag := Many(result[tag].items + [value])];
      assert !dict[tag].Many? ==> [dict[tag]] + [value] == [dict[tag], value];
    } else {
      result := result[tag := value];
    }
  }

  method ElemToDict(element: Elem) returns (result: map<string, Value>)
    ensures result == ToDict(element.children)
    decreases element
  {
    var children := element.children;
    result := map[];
    for i := 0 to |children|
      invariant result == ToDict(children[..i])
    {
      DictWithOneMore(children[..i], children[i]);
      assert children[..i + 1] == children[..i] + [children[i]];
      var value := Leaf(children[i].text);
      if children[i].children != [] {
        var nested := ElemToDict(children[i]);
        value := Record(nested);
      }
      result := AddValue(result, children[i].tag, value);
    }
    assert children[..|children|] == children;
  }

  /** Repeated siblings become a flat list of at least two values in document order, a single
      one stands alone, and nothing else is in the dict. */
  lemma SiblingsAreGrouped(children: seq<Elem>, tag: string)
    ensures var named, dict := Named(children, tag), ToDict(children);
            if tag !in dict then named == []
            else if dict[tag].Many? then
              var items := dict[tag].items;
              && |items| == |named| >= 2
              && forall i :: 0 <= i < |items| ==> items[i] == ValueOf(named[i]) && !items[i].Many?
            else |named| == 1 && dict[tag] == ValueOf(named[0])
  {
    ValuesAreNamed(children, tag);
  }

  // ── DHCP servers ───────────────────────────────────────────────────────────

  type Lease = map<string, string>

  datatype DhcpServer = DhcpServer(
    name: string, running: Option<bool>, interface_: Option<string>,
    defaultLeaseTime: Option<nat>, maxLeaseTime: Option<nat>, staticLeases: seq<Lease>)

  /** A leaf's stripped text, if there is any. */
  function TextAt(record: map<string, Value>, key: string): Option<string> {
    if key in record && record[key].Leaf? && Strip(record[key].text) != ""
    then Some(Strip(record[key].text)) else None
  }

  function Minutes(record: map<string, Value>, key: string): Option<nat> {
    var text := TextAt(record, key);
    if text.Some? && IsDigits(text.value) then Some(Decimal(text.value)) else None
  }

  /** The leaves of a lease; its MAC address in lower case. */
  function Normalised(fields: map<string, Value>): Lease {
    map key | key in fields && fields[key].Leaf? ::
      if key == "MACAddress" then Lower(fields[key].text) else fields[key].text
  }

  function RawLeases(record: map<string, Value>): seq<Value> {
    if "StaticLease" in record && record["StaticLease"].Record? && "Lease" in record["StaticLease"].fields then
      var raw := record["StaticLease"].fields["Lease"];
      if raw.Record? then [raw] else if raw.Many? then raw.items else []
    else []
  }

  function LeasesOf(raw: seq<Value>): seq<Lease> {
    if raw == [] then []
    else
      var last := raw[|raw| - 1];
      LeasesOf(raw[..|raw| - 1]) + if last.Record? then [Normalised(last.fields)] else []
  }

  function Parsed(record: map<string, Value>, name: string): DhcpServer {
    var status := TextAt(record, "Status");
    DhcpServer(name, if status.None? then None else Some(status.value == "1"), TextAt(record, "Interface"),
               Minutes(record, "DefaultLeaseTime"), Minutes(record, "MaxLeaseTime"), LeasesOf(RawLeases(record)))
  }

  method ParseDhcpServer(record: map<string, Value>) returns (server: Option<DhcpServer>)
    ensures server == if TextAt(record, "Name").None? then None else Some(Parsed(record, TextAt(record, "Name").value))
  {
    hide TextAt, Minutes, Lower, RawLeases;
    var name := TextAt(record, "Name");
    if name.None? {
      return None;
    }
    var raw := RawLeases(record);
    var leases: seq<Lease> := [];
    for i := 0 to |raw|
      invariant leases == LeasesOf(raw[..i])
    {
      assert raw[..i + 1][..i] == raw[..i];
      if raw[i].Record? {
        var normalised := map key | key in raw[i].fields && raw[i].fields[key].Leaf? :: raw[i].fields[key].text;
        if "MACAddress" in normalised {
          normalised := normalised["MACAddress" := Lower(normalised["MACAddress"])];
        }
        assert normalised == Normalised(raw[i].fields);
        leases := leases + [normalised];
      }
    }
    assert raw[..|raw|] == raw;
    var status := TextAt(record, "Status");
    server := Some(DhcpServer(name.value, if status.None? then None else Some(status.value == "1"),
                              TextAt(record, "Interface"), Minutes(record, "DefaultLeaseTime"),
                              Minutes(record, "MaxLeaseTime"), leases));
  }

  // ── The leases, read off the tree ───────────────────────────────────────────

  function WithChildren(elems: seq<Elem>): seq<Elem> {
    if elems == [] then []
    else
      var last := elems[|elems| - 1];
      WithChildren(elems[..|elems| - 1]) + if last.children != [] then [last] else []
  }

  /** The fields of a <Lease>: the text of every tag it has exactly once, as a leaf. */
  function TreeLease(lease: Elem): Lease {
    map tag | tag in Tags(lease.children) && |Named(lease.children, tag)| == 1
              && Named(lease.children, tag)[0].children == [] ::
      if tag == "MACAddress" then Lower(Named(lease.children, tag)[0].text) else Named(lease.children, tag)[0].text
  }

  /** One lease per <Lease> with content inside the only <StaticLease>, in document order. */
  function TreeLeases(record: Elem): seq<Lease> {
    var containers := Named(record.children, "StaticLease");
    if |containers| != 1 then []
    else
      var leases := WithChildren(Named(containers[0].children, "Lease"));
      seq(|leases|, i requires 0 <= i < |leases| => TreeLease(leases[i]))
  }

  lemma LeaseOfTree(lease: Elem)
    ensures Normalised(ToDict(lease.children)) == TreeLease(lease)
  {
    forall tag | tag in Tags(lease.children)
      ensures ToDict(lease.children)[tag].Leaf? <==>
                |Named(lease.children, tag)| == 1 && Named(lease.children, tag)[0].children == []
      ensures ToDict(lease.children)[tag].Leaf? ==>
                ToDict(lease.children)[tag].text == Named(lease.children, tag)[0].text
    {
      SiblingsAreGrouped(lease.children, tag);
    }
  }

  lemma {:induction false} LeasesOfElems(elems: seq<Elem>, raw: seq<Value>)
    requires |raw| == |elems| && forall i :: 0 <= i < |elems| ==> raw[i] == ValueOf(elems[i])
    ensures |LeasesOf(raw)| == |WithChildren(elems)|
    ensures forall i :: 0 <= i < |WithChildren(elems)| ==> LeasesOf(raw)[i] == TreeLease(WithChildren(elems)[i])
  {
    if elems != [] {
      var n := |elems| - 1;
      LeasesOfElems(elems[..n], raw[..n]);
      if elems[n].children != [] {
        LeaseOfTree(elems[n]);
      }
    }
  }

  /** Whatever shape repeated elements arrive in, a server parsed from the dict has exactly the
      leases of the tree: for none, one or many <Lease> elements. */
  lemma LeasesMatchTheTree(record: Elem)
    ensures LeasesOf(RawLeases(ToDict(record.children))) == TreeLeases(record)
  {
    var dict := ToDict(record.children);
    var containers := Named(record.children, "StaticLease");
    SiblingsAreGrouped(record.children, "StaticLease");
    if |containers| == 1 {
      var inner := containers[0].children;
      var leases := Named(inner, "Lease");
      SiblingsAreGrouped(inner, "Lease");
      var raw := RawLeases(dict);
      if |leases| == 1 && leases[0].children == [] {
        assert raw == [] && WithChildren(leases) == [];
      } else {
        assert |raw| == |leases|;
        LeasesOfElems(leases, raw);
      }
    }
  }

  // ── The other fields, read off the tree ─────────────────────────────────────

  /** The stripped text of the only child with this tag, if it is a leaf and not blank. */
  function TreeText(record: Elem, tag: string): Option<string> {
    var named := Named(record.children, tag);
    if |named| == 1 && named[0].children == [] && Strip(named[0].text) != "" then Some(Strip(named[0].text)) else None
  }

  /** A whole number of minutes, as it is printed in that child. */
  ghost predicate TreeMinutes(record: Elem, tag: string, minutes: Option<nat>) {
    forall n: nat :: minutes == Some(n) <==> TreeText(record, tag).Some? && Reads(TreeText(record, tag).value, n)
  }

  lemma TextOfTree(record: Elem, tag: string)
    ensures TextAt(ToDict(record.children), tag) == TreeText(record, tag)
  {
    hide Strip;
    SiblingsAreGrouped(record.children, tag);
  }

  lemma MinutesOfTree(record: Elem, tag: string)
    ensures TreeMinutes(record, tag, Minutes(ToDict(record.children), tag))
  {
    hide Decimal, Reads, TextAt, TreeText, ToDict;
    TextOfTree(record, tag);
    var text := TreeText(record, tag);
    if text.Some? {
      forall n: nat
        ensures IsDigits(text.value) && Decimal(text.value) == n <==> Reads(text.value, n)
      {
        DecimalExactly(text.value, n);
      }
    }
  }

  /** What a server is, read off the tree: none without a name; else its status, interface and
      lease times are those of the elements so named, and its leases those of the tree. */
  lemma ServerMatchesTheTree(record: Elem, server: Option<DhcpServer>)
    requires var dict := ToDict(record.children);
             server == if TextAt(dict, "Name").None? then None else Some(Parsed(dict, TextAt(dict, "Name").value))
    ensures server.None? <==> TreeText(record, "Name").None?
    ensures server.Some? ==>
              && Some(server.value.name) == TreeText(record, "Name")
              && server.value.interface_ == TreeText(record, "Interface")
              && (server.value.running.None? <==> TreeText(record, "Status").None?)
              && (server.value.running == Some(true) <==> TreeText(record, "Status") == Some("1"))
              && TreeMinutes(record, "DefaultLeaseTime", server.value.defaultLeaseTime)
              && TreeMinutes(record, "MaxLeaseTime", server.value.maxLeaseTime)
              && server.value.staticLeases == TreeLeases(record)
  {
    hide ToDict, TextAt, TreeText, Minutes, TreeMinutes, RawLeases, LeasesOf, TreeLeases;
    TextOfTree(record, "Name");
    TextOfTree(record, "Interface");
    TextOfTree(record, "Status");
    MinutesOfTree(record, "DefaultLeaseTime");
    MinutesOfTree(record, "MaxLeaseTime");
    LeasesMatchTheTree(record);
  }
}
