/** SNMP tables: several column walks in one flat OID map, split again and joined by row. */
module SnmpTables {
  import opened Wrappers
  import opened Texts
  import opened Traffic

  // ── OIDs as dotted strings ─────────────────────────────────────────────────

  function StripLeft(s: string): (r: string)
    ensures r == "" || r[0] != '.'
    ensures s != "" && s[0] != '.' ==> r == s
  {
    if s != "" && s[0] == '.' then StripLeft(s[1..]) else s
  }

  function StripRight(s: string): (r: string)
    ensures r <= s && (r == "" || r[|r| - 1] != '.')
  {
    if s != "" && s[|s| - 1] == '.' then StripRight(s[..|s| - 1]) else s
  }

  function StripDots(s: string): (r: string)
    ensures r == "" || r[0] != '.'
  {
    StripRight(StripLeft(s))
  }

  /** Rows of a column are "<table>.1.<column>.<index>". */
  function ColumnPrefix(table: string, column: string): string {
    StripDots(table) + ".1." + column + "."
  }

  /** Every part of the dotted string is a number. */
  predicate IsDottedDigits(s: string)
    decreases |s|
  {
    if '.' in s then
      var k := FirstDot(s, 0);
      IsDigits(s[..k]) && IsDottedDigits(s[k + 1..])
    else IsDigits(s)
  }

  function FirstDot(s: string, from: nat): (k: nat)
    requires from < |s| && '.' in s[from..]
    ensures from <= k < |s| && s[k] == '.'
    decreases |s| - from
  {
    if s[from] == '.' then from else FirstDot(s, from + 1)
  }

  predicate ValidIndex(index: string, compound: bool) {
    if compound then IsDottedDigits(index) else IsDigits(index)
  }

  // ── One column out of the flat map ──────────────────────────────────────────

  predicate InColumn(oid: string, table: string, column: string, compound: bool) {
    && ColumnPrefix(table, column) <= StripLeft(oid)
    && ValidIndex(StripLeft(oid)[|ColumnPrefix(table, column)|..], compound)
  }

  function RowOf(oid: string, table: string, column: string): string
    requires ColumnPrefix(table, column) <= StripLeft(oid)
  {
    StripLeft(oid)[|ColumnPrefix(table, column)|..]
  }

  /** Some OID of the map names this row of the column, with this value. */
  ghost predicate Names<V>(data: map<string, V>, table: string, column: string, compound: bool, index: string, value: V) {
    exists oid ::
      && oid in data && InColumn(oid, table, column, compound)
      && RowOf(oid, table, column) == index && data[oid] == value
  }

  /** The rows are those the OIDs of the column name, each with a value found under it. */
  ghost predicate IsColumn<V>(data: map<string, V>, table: string, column: string, compound: bool, rows: map<string, V>) {
    && (forall index :: index in rows ==> Names(data, table, column, compound, index, rows[index]))
    && (forall oid :: oid in data && InColumn(oid, table, column, compound) ==> RowOf(oid, table, column) in rows)
  }

  /** Digits and dots, no dot at either end and no two in a row. */
  ghost predicate DigitsBetweenDots(s: string) {
    && s != "" && s[0] != '.' && s[|s| - 1] != '.'
    && (forall k :: 0 <= k < |s| ==> s[k] == '.' || '0' <= s[k] <= '9')
    && (forall k :: 0 < k < |s| ==> !(s[k - 1] == '.' && s[k] == '.'))
  }

  lemma OnePartMore(part: string, rest: string)
    requires '.' !in part
    ensures DigitsBetweenDots(part + "." + rest) <==> IsDigits(part) && DigitsBetweenDots(rest)
  {
    var s := part + "." + rest;
    var n := |part| + 1;
    assert forall k :: 0 <= k < |part| ==> s[k] == part[k];
    assert s[|part|] == '.';
    assert forall k :: n <= k < |s| ==> s[k] == rest[k - n];
    if DigitsBetweenDots(s) {
      assert rest != "" && s[n] == rest[0] && s[|s| - 1] == rest[|rest| - 1];
      assert !(s[n - 1] == '.' && s[n] == '.');
      forall k | 0 <= k < |rest| ensures rest[k] == '.' || '0' <= rest[k] <= '9' {
        assert s[n + k] == rest[k];
      }
      forall k | 0 < k < |rest| ensures !(rest[k - 1] == '.' && rest[k] == '.') {
        assert s[n + k] == rest[k] && s[n + k - 1] == rest[k - 1];
      }
      forall k | 0 <= k < |part| ensures '0' <= part[k] <= '9' {
        assert s[k] == part[k] && part[k] in part;
      }
    }
    if IsDigits(part) && DigitsBetweenDots(rest) {
      forall k | 0 < k < |s| ensures !(s[k - 1] == '.' && s[k] == '.') {
        if k > n {
          assert s[k] == rest[k - n] && s[k - 1] == rest[k - 1 - n];
        } else if k == n {
          assert s[k] == rest[0];
        } else {
          assert s[k - 1] == part[k - 1] && part[k - 1] in part;
        }
      }
    }
  }

  lemma OnlyPart(s: string)
    requires '.' !in s
    ensures DigitsBetweenDots(s) <==> IsDigits(s)
  {
    assert forall k :: 0 <= k < |s| ==> s[k] in s;
  }

  lemma {:induction false} DottedDigitsAre(s: string)
    ensures IsDottedDigits(s) <==> DigitsBetweenDots(s)
    decreases |s|
  {
    if '.' in s {
      hide DigitsBetweenDots;
      var k := FirstDot(s, 0);
      FirstDotIsFirst(s, 0);
      DottedDigitsAre(s[k + 1..]);
      OnePartMore(s[..k], s[k + 1..]);
      assert s == s[..k] + "." + s[k + 1..];
    } else {
      OnlyPart(s);
    }
  }

  lemma {:induction false} FirstDotIsFirst(s: string, from: nat)
    requires from < |s| && '.' in s[from..]
    ensures forall j :: from <= j < FirstDot(s, from) ==> s[j] != '.'
    decreases |s| - from
  {
    if s[from] != '.' {
      FirstDotIsFirst(s, from + 1);
    }
  }

  /** The rows of a column, read off the whole OID: table, the entry 1, column and index. */
  lemma ColumnRowsAre(oid: string, table: string, column: string, compound: bool, index: string)
    requires table != "" && table[0] != '.' && table[|table| - 1] != '.'
    requires oid == "" || oid[0] != '.'
    ensures InColumn(oid, table, column, compound) && RowOf(oid, table, column) == index <==>
              && oid == table + ".1." + column + "." + index
              && if compound then DigitsBetweenDots(index) else index != "" && forall k :: 0 <= k < |index| ==> '0' <= index[k] <= '9'
  {
    hide IsDottedDigits, DigitsBetweenDots;
    DottedDigitsAre(index);
    BareTable(table);
    assert ColumnPrefix(table, column) == table + ".1." + column + ".";
  }

  lemma BareTable(table: string)
    requires table != "" && table[0] != '.' && table[|table| - 1] != '.'
    ensures StripDots(table) == table
  {
  }

  /** A dot in front of the OID does not matter. */
  lemma LeadingDot(oid: string, table: string, column: string, compound: bool)
    ensures InColumn("." + oid, table, column, compound) <==> InColumn(oid, table, column, compound)
  {
    assert ("." + oid)[1..] == oid;
  }

  method TableColumn<V>(data: map<string, V>, table: string, column: string, compound: bool) returns (rows: map<string, V>)
    ensures IsColumn(data, table, column, compound, rows)
  {
    var prefix := ColumnPrefix(table, column);
    rows := map[];
    var todo := data.Keys;
    while todo != {}
      invariant todo <= data.Keys
      invariant forall index :: index in rows ==> Names(data, table, column, compound, index, rows[index])
      invariant forall oid :: oid in data && oid !in todo && InColumn(oid, table, column, compound) ==>
                  RowOf(oid, table, column) in rows
    {
      var oid :| oid in todo;
      todo := todo - {oid};
      var bare := StripLeft(oid);
      if prefix <= bare {
        var index := bare[|prefix|..];
        if ValidIndex(index, compound) {
          assert InColumn(oid, table, column, compound) && RowOf(oid, table, column) == index;
          assert Names(data, table, column, compound, index, data[oid]);
          rows := rows[index := data[oid]];
        }
      }
    }
  }

  // ── Merging the walks ──────────────────────────────────────────────────────

  /** One walked column of the agent's table, by row index. */
  datatype Walk<V> = Walk(column: string, rows: map<string, V>)

  function OidOf(table: string, column: string, index: string): string {
    ColumnPrefix(table, column) + index
  }

  /** The flat map of all walks; a later value for the same OID would win. */
  function MergeWalks<V>(table: string, walks: seq<Walk<V>>): map<string, V> {
    if walks == [] then map[]
    else
      var last := walks[|walks| - 1];
      var rest := MergeWalks(table, walks[..|walks| - 1]);
      rest + WalkedMap(table, last)
  }

  function WalkedMap<V>(table: string, walk: Walk<V>): map<string, V> {
    map oid | oid in (set index | index in walk.rows :: OidOf(table, walk.column, index))
      :: walk.rows[oid[|ColumnPrefix(table, walk.column)|..]]
  }

  /** A column name is one number, so it has no dot; and the walked columns differ. */
  ghost predicate GoodColumns<V>(walks: seq<Walk<V>>) {
    && (forall i :: 0 <= i < |walks| ==> '.' !in walks[i].column)
    && (forall i, j :: 0 <= i < j < |walks| ==> walks[i].column != walks[j].column)
  }

  /** Everything before the first dot. */
  function Head(s: string): string {
    if s == "" || s[0] == '.' then "" else [s[0]] + Head(s[1..])
  }

  lemma {:induction false} HeadBeforeDot(c: string, tail: string)
    requires '.' !in c
    ensures Head(c + "." + tail) == c
  {
    if c != "" {
      assert (c + "." + tail)[1..] == c[1..] + "." + tail;
      HeadBeforeDot(c[1..], tail);
    }
  }

  /** Column numbers never shadow one another, not even 1 and 10. */
  lemma PrefixesDiffer(c: string, d: string, tail: string)
    requires '.' !in c && '.' !in d && c + "." <= d + "." + tail
    ensures c == d
  {
    var whole := d + "." + tail;
    HeadBeforeDot(d, tail);
    HeadBeforeDot(c, whole[|c| + 1..]);
    assert whole == c + "." + whole[|c| + 1..];
  }

  lemma OidIsBare(table: string, column: string, index: string)
    requires StripDots(table) != ""
    ensures StripLeft(OidOf(table, column, index)) == OidOf(table, column, index)
  {
  }

  lemma OnlyOwnColumn(table: string, c: string, d: string, index: string)
    requires StripDots(table) != "" && '.' !in c && '.' !in d
    requires ColumnPrefix(table, c) <= OidOf(table, d, index)
    ensures c == d
  {
    var base := StripDots(table) + ".1.";
    var oid := OidOf(table, d, index);
    assert oid == base + (d + "." + index);
    assert ColumnPrefix(table, c) == base + (c + ".");
    assert c + "." <= d + "." + index by {
      assert oid[|base|..] == d + "." + index;
      assert ColumnPrefix(table, c)[|base|..] == c + ".";
    }
    PrefixesDiffer(c, d, index);
  }

  lemma WalkedAt<V>(table: string, walk: Walk<V>, index: string)
    ensures Lookup(WalkedMap(table, walk), OidOf(table, walk.column, index)) == Lookup(walk.rows, index)
  {
  }

  lemma NotWalkedElsewhere<V>(table: string, walk: Walk<V>, column: string, index: string)
    requires StripDots(table) != "" && '.' !in column && '.' !in walk.column && column != walk.column
    ensures OidOf(table, column, index) !in WalkedMap(table, walk)
  {
    if other :| other in walk.rows && OidOf(table, walk.column, other) == OidOf(table, column, index) {
      assert ColumnPrefix(table, column) <= OidOf(table, column, index);
      OnlyOwnColumn(table, column, walk.column, other);
    }
  }

  lemma {:induction false} NotMergedElsewhere<V>(table: string, walks: seq<Walk<V>>, column: string, index: string)
    requires StripDots(table) != "" && '.' !in column
    requires forall i :: 0 <= i < |walks| ==> '.' !in walks[i].column && walks[i].column != column
    ensures OidOf(table, column, index) !in MergeWalks(table, walks)
  {
    if walks != [] {
      NotMergedElsewhere(table, walks[..|walks| - 1], column, index);
      NotWalkedElsewhere(table, walks[|walks| - 1], column, index);
    }
  }

  /** What the flat map holds for an OID of column i is what walk i brought. */
  lemma {:induction false} MergedAt<V>(table: string, walks: seq<Walk<V>>, i: nat, index: string)
    requires StripDots(table) != "" && GoodColumns(walks) && i < |walks|
    ensures Lookup(MergeWalks(table, walks), OidOf(table, walks[i].column, index)) == Lookup(walks[i].rows, index)
  {
    hide WalkedMap, StripDots, ColumnPrefix, OidOf;
    var n := |walks| - 1;
    var rest, last := MergeWalks(table, walks[..n]), WalkedMap(table, walks[n]);
    var oid := OidOf(table, walks[i].column, index);
    LookupInSum(rest, last, oid);
    if i < n {
      MergedAt(table, walks[..n], i, index);
      NotWalkedElsewhere(table, walks[n], walks[i].column, index);
      assert oid !in last;
    } else {
      WalkedAt(table, walks[n], index);
      NotMergedElsewhere(table, walks[..n], walks[n].column, index);
      assert oid !in rest;
    }
  }

  lemma LookupInSum<K, V>(m: map<K, V>, n: map<K, V>, key: K)
    ensures Lookup(m + n, key) == if key in n then Some(n[key]) else Lookup(m, key)
  {
  }

  lemma {:induction false} MergedOidIsWalked<V>(table: string, walks: seq<Walk<V>>, oid: string) returns (j: nat, index: string)
    requires oid in MergeWalks(table, walks)
    ensures j < |walks| && index in walks[j].rows && oid == OidOf(table, walks[j].column, index)
  {
    var n := |walks| - 1;
    if oid in WalkedMap(table, walks[n]) {
      j := n;
      index :| index in walks[n].rows && OidOf(table, walks[n].column, index) == oid;
    } else {
      j, index := MergedOidIsWalked(table, walks[..n], oid);
    }
  }

  /** One row of the split map. */
  lemma RowIsWalked<V>(table: string, walks: seq<Walk<V>>, i: nat, compound: bool, rows: map<string, V>, index: string)
    requires StripDots(table) != "" && GoodColumns(walks) && i < |walks|
    requires IsColumn(MergeWalks(table, walks), table, walks[i].column, compound, rows)
    ensures Lookup(rows, index) == if ValidIndex(index, compound) then Lookup(walks[i].rows, index) else None
  {
    hide MergeWalks, ValidIndex, StripDots, StripLeft;
    var flat, column := MergeWalks(table, walks), walks[i].column;
    var prefix, oid := ColumnPrefix(table, column), OidOf(table, column, index);
    MergedAt(table, walks, i, index);
    OidIsBare(table, column, index);
    assert oid == prefix + index;
    assert oid in flat && ValidIndex(index, compound) ==>
        InColumn(oid, table, column, compound) && RowOf(oid, table, column) == index;
    if index in rows {
      assert Names(flat, table, column, compound, index, rows[index]);
      var other :| other in flat && InColumn(other, table, column, compound)
                   && RowOf(other, table, column) == index && flat[other] == rows[index];
      var j, k := MergedOidIsWalked(table, walks, other);
      OidIsBare(table, walks[j].column, k);
      assert other == prefix + index;
    }
  }

  /** Round trip: splitting the merged map gives back exactly the rows walk i brought for its
      column, with nothing from any other column; rows without a proper index are skipped. */
  lemma DemultiplexingRoundTrip<V>(table: string, walks: seq<Walk<V>>, i: nat, compound: bool, rows: map<string, V>)
    requires StripDots(table) != "" && GoodColumns(walks) && i < |walks|
    requires IsColumn(MergeWalks(table, walks), table, walks[i].column, compound, rows)
    ensures rows == map index | index in walks[i].rows && ValidIndex(index, compound) :: walks[i].rows[index]
  {
    forall index
      ensures Lookup(rows, index) == if ValidIndex(index, compound) then Lookup(walks[i].rows, index) else None
    {
      RowIsWalked(table, walks, i, compound, rows, index);
    }
    hide ValidIndex, IsColumn, MergeWalks;
    forall index | index in rows
      ensures index in walks[i].rows && ValidIndex(index, compound) && rows[index] == walks[i].rows[index]
    {
      assert Lookup(rows, index).Some?;
    }
    forall index | index in walks[i].rows && ValidIndex(index, compound)
      ensures index in rows
    {
      assert Lookup(rows, index) == Lookup(walks[i].rows, index);
    }
  }

  // ── Joining the columns by row ──────────────────────────────────────────────

  ghost predicate SortedByInt(order: seq<string>) {
    forall i, j :: 0 <= i < j < |order| ==> Decimal(order[i]) <= Decimal(order[j])
  }

  method Insert(order: seq<string>, index: string) returns (longer: seq<string>)
    requires SortedByInt(order)
    ensures SortedByInt(longer)
    ensures forall other :: other in longer <==> other == index || other in order
  {
    hide Decimal;
    var i := 0;
    while i < |order| && Decimal(order[i]) <= Decimal(index)
      invariant i <= |order|
      invariant forall k :: 0 <= k < i ==> Decimal(order[k]) <= Decimal(index)
    {
      i := i + 1;
    }
    assert forall k :: i <= k < |order| ==> Decimal(index) <= Decimal(order[k]);
    longer := order[..i] + [index] + order[i..];
    assert order == order[..i] + order[i..];
  }

  /** `sorted(indexes, key=int)`. */
  method SortIndexes(indexes: set<string>) returns (order: seq<string>)
    ensures SortedByInt(order)
    ensures forall index :: index in order <==> index in indexes
  {
    order := [];
    var todo := indexes;
    while todo != {}
      invariant todo <= indexes && SortedByInt(order)
      invariant forall index :: index in order <==> index in indexes - todo
    {
      var index :| index in todo;
      todo := todo - {index};
      order := Insert(order, index);
    }
  }

  /** Row `index` gives the name its record, and no row with a lower index has that name. */
  ghost predicate WinsName<R>(names: map<string, Option<string>>, skip: string -> bool, record: string -> R,
                              name: string, index: string, r: R)
  {
    && index in names && names[index] == Some(name) && !skip(name) && r == record(index)
    && forall other :: other in names && names[other] == Some(name) ==> Decimal(index) <= Decimal(other)
  }

  /** A left join of the name column with the other columns, the lowest row winning a name. */
  ghost predicate IsJoin<R>(names: map<string, Option<string>>, skip: string -> bool, record: string -> R, result: map<string, R>) {
    && (forall name :: name in result ==> exists index :: WinsName(names, skip, record, name, index, result[name]))
    && (forall index :: index in names && names[index].Some? && !skip(names[index].value) ==> names[index].value in result)
  }

  /** The first row, in this order, with the name. */
  ghost predicate FirstNamed(names: map<string, Option<string>>, order: seq<string>, name: string, k: nat) {
    && k < |order| && order[k] in names && names[order[k]] == Some(name)
    && forall j :: 0 <= j < k && order[j] in names ==> names[order[j]] != Some(name)
  }

  method JoinByName<R>(names: map<string, Option<string>>, skip: string -> bool, record: string -> R)
    returns (result: map<string, R>)
    ensures IsJoin(names, skip, record, result)
  {
    var order := SortIndexes(names.Keys);
    result := map[];
    for i := 0 to |order|
      invariant forall name :: name in result ==>
        !skip(name) && exists k: nat :: k < i && FirstNamed(names, order, name, k) && result[name] == record(order[k])
      invariant forall k :: 0 <= k < i && names[order[k]].Some? && !skip(names[order[k]].value) ==>
                  names[order[k]].value in result
    {
      var name := names[order[i]];
      if name.Some? && !skip(name.value) && name.value !in result {
        assert FirstNamed(names, order, name.value, i);
        result := result[name.value := record(order[i])];
      }
    }
    forall name | name in result
      ensures exists index :: WinsName(names, skip, record, name, index, result[name])
    {
      var k: nat :| k < |order| && FirstNamed(names, order, name, k) && result[name] == record(order[k]);
      FirstIsLowest(names, order, name, k);
      assert WinsName(names, skip, record, name, order[k], result[name]);
    }
    forall index | index in names && names[index].Some? && !skip(names[index].value)
      ensures names[index].value in result
    {
      assert index in order;
    }
  }

  lemma FirstIsLowest(names: map<string, Option<string>>, order: seq<string>, name: string, k: nat)
    requires SortedByInt(order) && forall index :: index in order <==> index in names
    requires FirstNamed(names, order, name, k)
    ensures forall other :: other in names && names[other] == Some(name) ==> Decimal(order[k]) <= Decimal(other)
  {
  }

  /** The row is the one of the name with the lowest number, by what the indexes read as. */
  ghost predicate IsLowestRow(names: map<string, Option<string>>, name: string, index: string) {
    && index in names && names[index] == Some(name)
    && exists i: nat :: Reads(index, i)
         && forall other :: other in names && other != index && names[other] == Some(name) ==>
              exists j: nat :: j > i && Reads(other, j)
  }

  /** A name that is not left out gets the record of its lowest row, and no other name gets one. */
  lemma LowestRowWins<R>(names: map<string, Option<string>>, skip: string -> bool, record: string -> R,
                         result: map<string, R>, name: string)
    requires IsJoin(names, skip, record, result) && forall index :: index in names ==> IsDigits(index)
    ensures name in result ==> !skip(name) && exists index :: index in names && names[index] == Some(name)
    ensures forall index :: IsLowestRow(names, name, index) && !skip(name) ==> name in result && result[name] == record(index)
  {
    hide Decimal, Reads;
    if name in result {
      var won :| WinsName(names, skip, record, name, won, result[name]);
      forall index | IsLowestRow(names, name, index) ensures won == index {
        var i: nat :| Reads(index, i)
          && forall other :: other in names && other != index && names[other] == Some(name) ==>
               exists j: nat :: j > i && Reads(other, j);
        DecimalExactly(index, i);
        if won != index {
          var j: nat :| j > i && Reads(won, j);
          DecimalExactly(won, j);
          assert false;
        }
      }
    }
  }

  // ── Interface links: two tables that share their row index ──────────────────

  datatype Link = Link(adminStatus: Option<int>, operStatus: Option<int>)

  function Converted<V, R>(rows: map<string, V>, convert: V -> Option<R>): map<string, Option<R>> {
    map index | index in rows :: convert(rows[index])
  }

  function Cell<R>(rows: map<string, Option<R>>, index: string): Option<R> {
    if index in rows then rows[index] else None
  }

  /** The rows of a column with a proper index. */
  function ProperRows<V>(walk: Walk<V>): map<string, V> {
    map index | index in walk.rows && IsDigits(index) :: walk.rows[index]
  }

  lemma SplitGivesProperRows<V>(table: string, walks: seq<Walk<V>>, i: nat, rows: map<string, V>)
    requires StripDots(table) != "" && GoodColumns(walks) && i < |walks|
    requires IsColumn(MergeWalks(table, walks), table, walks[i].column, false, rows)
    ensures rows == ProperRows(walks[i])
  {
    DemultiplexingRoundTrip(table, walks, i, false, rows);
  }

  function LinkAt<V>(admin: Walk<V>, oper: Walk<V>, toInt: V -> Option<int>): string -> Link {
    index => Link(Cell(Converted(ProperRows(admin), toInt), index), Cell(Converted(ProperRows(oper), toInt), index))
  }

  /** What the name column says of each row with a proper index. */
  function RowNames<V>(names: Walk<V>, toStr: V -> Option<string>): map<string, Option<string>> {
    Converted(ProperRows(names), toStr)
  }

  /** The value of a column in one row, if the row has it. */
  ghost function ValueIn<V>(column: Walk<V>, toInt: V -> Option<int>, index: string): Option<int> {
    if index in column.rows then toInt(column.rows[index]) else None
  }

  /** From the three columns the agent answered, through both flat maps, to one link per named
      interface: the row of that name with the lowest ifIndex, with its two states if known. */
  method GetLinks<V>(nameTable: string, stateTable: string, names: Walk<V>, admin: Walk<V>, oper: Walk<V>,
                     toStr: V -> Option<string>, toInt: V -> Option<int>, isInternal: string -> bool)
    returns (links: map<string, Link>)
    requires StripDots(nameTable) != "" && StripDots(stateTable) != ""
    requires GoodColumns([names]) && GoodColumns([admin, oper])
    ensures IsJoin(RowNames(names, toStr), isInternal, LinkAt(admin, oper, toInt), links)
  {
    var named, states := [names], [admin, oper];
    var nameData := MergeWalks(nameTable, named);
    var stateData := MergeWalks(stateTable, states);
    var nameRows := TableColumn(nameData, nameTable, names.column, false);
    var adminRows := TableColumn(stateData, stateTable, admin.column, false);
    var operRows := TableColumn(stateData, stateTable, oper.column, false);
    SplitGivesProperRows(nameTable, named, 0, nameRows);
    SplitGivesProperRows(stateTable, states, 0, adminRows);
    SplitGivesProperRows(stateTable, states, 1, operRows);
    links := JoinByName(Converted(nameRows, toStr), isInternal, LinkAt(admin, oper, toInt));
  }

  /** Read off the walks: a name has the admin state of its lowest row in the first state column
      and the oper state in the second. */
  lemma LinkOfLowestRow<V>(names: Walk<V>, admin: Walk<V>, oper: Walk<V>, toStr: V -> Option<string>, toInt: V -> Option<int>,
                           isInternal: string -> bool, links: map<string, Link>, name: string, index: string)
    requires IsJoin(RowNames(names, toStr), isInternal, LinkAt(admin, oper, toInt), links)
    requires IsLowestRow(RowNames(names, toStr), name, index)
    ensures name in links <==> !isInternal(name)
    ensures name in links ==>
              links[name].adminStatus == ValueIn(admin, toInt, index) && links[name].operStatus == ValueIn(oper, toInt, index)
  {
    hide Reads, IsJoin;
    LowestRowWins(RowNames(names, toStr), isInternal, LinkAt(admin, oper, toInt), links, name);
  }

  // ── Interface counters: three columns of one table ──────────────────────────

  function CountersAt<V>(rx: Walk<V>, tx: Walk<V>, toInt: V -> Option<int>): string -> Counters {
    index => Counters(Cell(Converted(ProperRows(rx), toInt), index), Cell(Converted(ProperRows(tx), toInt), index))
  }

  /** One traffic sample: for each named interface the octet counters of the row of that name with
      the lowest ifIndex, from three columns that came back in one flat map. */
  method GetTraffic<V>(table: string, names: Walk<V>, rx: Walk<V>, tx: Walk<V>, sampledAt: real,
                       toStr: V -> Option<string>, toInt: V -> Option<int>, isInternal: string -> bool)
    returns (sample: Sample)
    requires StripDots(table) != "" && GoodColumns([names, rx, tx])
    ensures sample.sampledAt == sampledAt
    ensures IsJoin(RowNames(names, toStr), isInternal, CountersAt(rx, tx, toInt), sample.counters)
  {
    var walks := [names, rx, tx];
    var data := MergeWalks(table, walks);
    var nameRows := TableColumn(data, table, names.column, false);
    var rxRows := TableColumn(data, table, rx.column, false);
    var txRows := TableColumn(data, table, tx.column, false);
    SplitGivesProperRows(table, walks, 0, nameRows);
    SplitGivesProperRows(table, walks, 1, rxRows);
    SplitGivesProperRows(table, walks, 2, txRows);
    var counters := JoinByName(Converted(nameRows, toStr), isInternal, CountersAt(rx, tx, toInt));
    sample := Sample(sampledAt, counters);
  }

  /** Read off the walks: a name has as octets in those of its lowest row in the first counter
      column, and as octets out those in the second. */
  lemma CountersOfLowestRow<V>(names: Walk<V>, rx: Walk<V>, tx: Walk<V>, toStr: V -> Option<string>, toInt: V -> Option<int>,
                               isInternal: string -> bool, sample: Sample, name: string, index: string)
    requires IsJoin(RowNames(names, toStr), isInternal, CountersAt(rx, tx, toInt), sample.counters)
    requires IsLowestRow(RowNames(names, toStr), name, index)
    ensures name in sample.counters <==> !isInternal(name)
    ensures name in sample.counters ==>
              && sample.counters[name].inOctets == ValueIn(rx, toInt, index)
              && sample.counters[name].outOctets == ValueIn(tx, toInt, index)
  {
    hide Reads, IsJoin;
    LowestRowWins(RowNames(names, toStr), isInternal, CountersAt(rx, tx, toInt), sample.counters, name);
  }
}
