/** Printing rows as CSV, and a reader that follows rules 5 to 7 of section 2 of RFC 4180
    with LF between records. Cells are the strings the values print as. */
module Csv {
  import opened Totals

  /** A row's keys in order, with the cell of each. */
  type Row = seq<(string, string)>

  // ---------------------------------------------------------------- printing

  predicate Special(c: char) {
    c == ',' || c == '"' || c == '\n'
  }

  predicate Clean(s: string) {
    forall i :: 0 <= i < |s| ==> !Special(s[i])
  }

  function Doubled(s: string): (r: string)
    ensures |s| <= |r|
  {
    if s == [] then [] else (if s[0] == '"' then "\"\"" else [s[0]]) + Doubled(s[1..])
  }

  function Escape(s: string): string {
    if Clean(s) then s else "\"" + Doubled(s) + "\""
  }

  function EscapeAll(fields: seq<string>): (r: seq<string>)
    ensures |r| == |fields| && forall i :: 0 <= i < |r| ==> r[i] == Escape(fields[i])
  {
    if fields == [] then [] else [Escape(fields[0])] + EscapeAll(fields[1..])
  }

  function Join(parts: seq<string>, separator: char): string {
    if parts == [] then []
    else if |parts| == 1 then parts[0]
    else parts[0] + [separator] + Join(parts[1..], separator)
  }

  function AddKeys(keys: seq<string>, row: Row): seq<string>
    decreases row
  {
    if row == [] then keys
    else AddKeys(if row[0].0 in keys then keys else keys + [row[0].0], row[1..])
  }

  /** All keys, in the order in which they first appear. */
  function Keys(rows: seq<Row>): seq<string> {
    if rows == [] then [] else AddKeys(Keys(rows[..|rows| - 1]), rows[|rows| - 1])
  }

  /** A missing cell prints as nothing. */
  function Cell(row: Row, key: string): string {
    if row == [] then [] else if row[0].0 == key then row[0].1 else Cell(row[1..], key)
  }

  function Cells(row: Row, keys: seq<string>): (r: seq<string>)
    ensures |r| == |keys| && forall i :: 0 <= i < |r| ==> r[i] == Cell(row, keys[i])
  {
    if keys == [] then [] else [Cell(row, keys[0])] + Cells(row, keys[1..])
  }

  function Body(rows: seq<Row>, keys: seq<string>): (r: seq<seq<string>>)
    ensures |r| == |rows| && forall i :: 0 <= i < |r| ==> r[i] == Cells(rows[i], keys)
  {
    if rows == [] then [] else [Cells(rows[0], keys)] + Body(rows[1..], keys)
  }

  function Lines(records: seq<seq<string>>): (r: seq<string>)
    ensures |r| == |records|
  {
    if records == [] then [] else [Join(EscapeAll(records[0]), ',')] + Lines(records[1..])
  }

  /** The header is not escaped. */
  function RowsToCsv(rows: seq<Row>): string {
    if rows == [] then "" else
      var keys := Keys(rows);
      Join([Join(keys, ',')] + Lines(Body(rows, keys)), '\n')
  }

  /** The strings a reader should recover: the header, then every row's cells. */
  function Table(rows: seq<Row>): seq<seq<string>> {
    [Keys(rows)] + Body(rows, Keys(rows))
  }

  // ---------------------------------------------------------------- reading

  /** An unquoted field (rule 5) and what follows it. */
  function ReadPlain(s: string): (r: Option<(string, string)>)
    ensures r.Some? ==> |r.value.0| + |r.value.1| == |s| && Clean(r.value.0)
  {
    if s == [] || s[0] == ',' || s[0] == '\n' then Some(("", s))
    else if s[0] == '"' then None
    else
      var rest := ReadPlain(s[1..]);
      if rest.None? then None else Some(([s[0]] + rest.value.0, rest.value.1))
  }

  /** The inside of a quoted field (rules 6 and 7), its closing quote, and what follows. */
  function ReadQuoted(s: string): (r: Option<(string, string)>)
    ensures r.Some? ==> |Doubled(r.value.0)| + 1 + |r.value.1| == |s|
  {
    if s == [] then None
    else if s[0] != '"' then
      var rest := ReadQuoted(s[1..]);
      if rest.None? then None else Some(([s[0]] + rest.value.0, rest.value.1))
    else if |s| > 1 && s[1] == '"' then
      var rest := ReadQuoted(s[2..]);
      if rest.None? then None else Some(("\"" + rest.value.0, rest.value.1))
    else Some(("", s[1..]))
  }

  function ReadField(s: string): (r: Option<(string, string)>)
    ensures r.Some? ==> |Escape(r.value.0)| + |r.value.1| <= |s|
  {
    if s != [] && s[0] == '"' then ReadQuoted(s[1..]) else ReadPlain(s)
  }

  /** The fields of one record and what follows it. */
  function ReadRecord(s: string): (r: Option<(seq<string>, string)>)
    ensures r.Some? ==> r.value.0 != [] && (r.value.1 == [] || r.value.1[0] == '\n')
    ensures r.Some? ==> |Join(EscapeAll(r.value.0), ',')| + |r.value.1| <= |s|
    decreases |s|
  {
    var f := ReadField(s);
    if f.None? then None
    else
      var rest := f.value.1;
      if rest == [] || rest[0] == '\n' then Some(([f.value.0], rest))
      else if rest[0] != ',' then None
      else
        var more := ReadRecord(rest[1..]);
        if more.None? then None else
          assert EscapeAll([f.value.0] + more.value.0)[1..] == EscapeAll(more.value.0);
          Some(([f.value.0] + more.value.0, more.value.1))
  }

  function Read(s: string): (r: Option<seq<seq<string>>>)
    ensures r.Some? ==> r.value != [] && forall i :: 0 <= i < |r.value| ==> r.value[i] != []
    ensures r.Some? ==> |Join(Lines(r.value), '\n')| <= |s|
    decreases |s|
  {
    var first := ReadRecord(s);
    if first.None? then None
    else if first.value.1 == [] then Some([first.value.0])
    else
      var more := Read(first.value.1[1..]);
      if more.None? then None else
        assert Lines([first.value.0] + more.value)[1..] == Lines(more.value);
        Some([first.value.0] + more.value)
  }

  // ---------------------------------------------------------------- round trip

  predicate Delimited(tail: string) {
    tail == [] || tail[0] == ',' || tail[0] == '\n'
  }

  lemma {:induction false} ReadsPlain(v: string, tail: string)
    requires Clean(v) && Delimited(tail)
    ensures ReadPlain(v + tail) == Some((v, tail))
  {
    if v != [] {
      ReadsPlain(v[1..], tail);
      assert (v + tail)[1..] == v[1..] + tail && [v[0]] + v[1..] == v;
    } else {
      assert v + tail == tail;
    }
  }

  /** One printed character of a quoted field is read back. */
  lemma ReadsQuotedChar(c: char, t: string)
    ensures var rest := ReadQuoted(t);
      ReadQuoted((if c == '"' then "\"\"" else [c]) + t) ==
      if rest.None? then None else Some(([c] + rest.value.0, rest.value.1))
  {
    var s := (if c == '"' then "\"\"" else [c]) + t;
    if c == '"' {
      assert s[0] == s[1] == '"' && s[2..] == t;
    } else {
      assert s[0] == c && s[1..] == t;
    }
  }

  lemma {:induction false} ReadsQuoted(v: string, tail: string)
    requires Delimited(tail)
    ensures ReadQuoted(Doubled(v) + "\"" + tail) == Some((v, tail))
  {
    var s := Doubled(v) + "\"" + tail;
    if v == [] {
      assert s[0] == '"' && s[1..] == tail;
    } else {
      ReadsQuoted(v[1..], tail);
      var t := Doubled(v[1..]) + "\"" + tail;
      assert s == (if v[0] == '"' then "\"\"" else [v[0]]) + t;
      ReadsQuotedChar(v[0], t);
      assert [v[0]] + v[1..] == v;
    }
  }

  lemma ReadsCleanField(v: string, tail: string)
    requires Delimited(tail) && Clean(v)
    ensures ReadField(v + tail) == Some((v, tail))
  {
    ReadsPlain(v, tail);
    var s := v + tail;
    if s != [] {
      assert s[0] == if v == [] then tail[0] else v[0];
      assert v != [] ==> !Special(v[0]);
    }
  }

  lemma ReadsQuotedField(v: string, tail: string)
    requires Delimited(tail)
    ensures ReadField("\"" + Doubled(v) + "\"" + tail) == Some((v, tail))
  {
    var t := Doubled(v) + "\"" + tail;
    ReadsQuoted(v, tail);
    ReadsOpeningQuote(t);
    assert "\"" + Doubled(v) + "\"" + tail == "\"" + t;
  }

  lemma ReadsOpeningQuote(t: string)
    ensures ReadField("\"" + t) == ReadQuoted(t)
  {
    var s := "\"" + t;
    assert s[0] == '"' && s[1..] == t;
  }

  lemma ReadsField(v: string, tail: string)
    requires Delimited(tail)
    ensures ReadField(Escape(v) + tail) == Some((v, tail))
  {
    if Clean(v) {
      ReadsCleanField(v, tail);
    } else {
      ReadsQuotedField(v, tail);
    }
  }

  lemma {:induction false} ReadsRecord(fields: seq<string>, tail: string)
    requires fields != [] && (tail == [] || tail[0] == '\n')
    ensures ReadRecord(Join(EscapeAll(fields), ',') + tail) == Some((fields, tail))
    decreases fields
  {
    if |fields| == 1 {
      ReadsField(fields[0], tail);
      assert [fields[0]] == fields;
    } else {
      var rest := Join(EscapeAll(fields[1..]), ',') + tail;
      assert EscapeAll(fields)[1..] == EscapeAll(fields[1..]);
      assert Join(EscapeAll(fields), ',') + tail == Escape(fields[0]) + ("," + rest);
      ReadsField(fields[0], "," + rest);
      ReadsRecord(fields[1..], tail);
      assert ("," + rest)[1..] == rest;
      assert [fields[0]] + fields[1..] == fields;
    }
  }

  lemma {:induction false} ReadsLines(records: seq<seq<string>>)
    requires records != [] && forall i :: 0 <= i < |records| ==> records[i] != []
    ensures Read(Join(Lines(records), '\n')) == Some(records)
    decreases records
  {
    var s, line := Join(Lines(records), '\n'), Join(EscapeAll(records[0]), ',');
    if |records| == 1 {
      ReadsRecord(records[0], "");
      assert line + "" == s && [records[0]] == records;
    } else {
      var rest := Join(Lines(records[1..]), '\n');
      assert Lines(records)[1..] == Lines(records[1..]);
      assert s == line + ("\n" + rest);
      ReadsRecord(records[0], "\n" + rest);
      assert ("\n" + rest)[1..] == rest;
      ReadsLines(records[1..]);
      assert [records[0]] + records[1..] == records;
    }
  }

  predicate AllClean(keys: seq<string>) {
    forall i :: 0 <= i < |keys| ==> Clean(keys[i])
  }

  /** Escaping a header that needs it makes it longer. */
  lemma {:induction false} HeaderLength(keys: seq<string>)
    ensures |Join(keys, ',')| <= |Join(EscapeAll(keys), ',')|
    ensures |Join(keys, ',')| == |Join(EscapeAll(keys), ',')| <==> AllClean(keys)
    ensures AllClean(keys) ==> EscapeAll(keys) == keys
  {
    if keys != [] {
      HeaderLength(keys[1..]);
      assert EscapeAll(keys)[1..] == EscapeAll(keys[1..]);
      assert AllClean(keys) <==> Clean(keys[0]) && AllClean(keys[1..]);
    }
  }

  lemma JoinHead(head: string, tail: seq<string>)
    ensures |Join([head] + tail, '\n')| == |head| + (if tail == [] then 0 else 1 + |Join(tail, '\n')|)
  {
    assert ([head] + tail)[1..] == tail;
  }

  /** The reader recovers exactly the printed cells if there is a key and no key needs
      escaping, and never otherwise. */
  lemma {:induction false} RoundTrip(rows: seq<Row>)
    ensures Read(RowsToCsv(rows)) == Some(Table(rows)) <==> Keys(rows) != [] && AllClean(Keys(rows))
  {
    var keys, text, table := Keys(rows), RowsToCsv(rows), Table(rows);
    assert table[0] == keys;
    if keys != [] {
      var lines := Lines(Body(rows, keys));
      assert Lines(table) == [Join(EscapeAll(keys), ',')] + lines by {
        assert table[1..] == Body(rows, keys);
      }
      HeaderLength(keys);
      JoinHead(Join(keys, ','), lines);
      JoinHead(Join(EscapeAll(keys), ','), lines);
      if AllClean(keys) {
        assert text == Join(Lines(table), '\n');
        ReadsLines(table);
      } else {
        assert |text| < |Join(Lines(table), '\n')|;
      }
    }
  }

  /** A comma in a key splits the header: the reader does not recover the table. */
  lemma CommaInKey()
    ensures exists rows: seq<Row> :: Keys(rows) != [] && Read(RowsToCsv(rows)) != Some(Table(rows))
  {
    var rows: seq<Row> := [[("a,b", "1")]];
    assert AddKeys([], rows[0]) == ["a,b"];
    assert rows[..0] == [];
    assert Keys(rows) == ["a,b"];
    assert Special("a,b"[1]);
    RoundTrip(rows);
  }

  // ---------------------------------------------------------------- consequences

  predicate HasKey(row: Row, k: string) {
    exists i :: 0 <= i < |row| && row[i].0 == k
  }

  lemma {:induction false} AddKeysSound(keys: seq<string>, row: Row)
    requires Distinct(keys)
    ensures Distinct(AddKeys(keys, row)) && keys <= AddKeys(keys, row)
    ensures forall k :: k in AddKeys(keys, row) <==> k in keys || HasKey(row, k)
    decreases row
  {
    if row != [] {
      AddKeysSound(if row[0].0 in keys then keys else keys + [row[0].0], row[1..]);
      forall k ensures HasKey(row, k) <==> row[0].0 == k || HasKey(row[1..], k) {
        if i :| 0 <= i < |row| && row[i].0 == k && i > 0 {
          assert row[1..][i - 1].0 == k;
        }
      }
    }
  }

  /** The header has every key of every row, once each. */
  lemma {:induction false} KeysSound(rows: seq<Row>)
    ensures Distinct(Keys(rows))
    ensures forall k :: k in Keys(rows) <==> exists r :: 0 <= r < |rows| && HasKey(rows[r], k)
  {
    if rows != [] {
      var n := |rows| - 1;
      KeysSound(rows[..n]);
      AddKeysSound(Keys(rows[..n]), rows[n]);
    }
  }

  /** Where a key first stands in a row. */
  function First(row: Row, k: string): (n: nat)
    ensures n <= |row| && (n < |row| ==> row[n].0 == k) && forall i :: 0 <= i < n ==> row[i].0 != k
  {
    if row == [] || row[0].0 == k then 0 else 1 + First(row[1..], k)
  }

  /** Keys added by a row come after the others, in the row's order. */
  lemma {:induction false} AddKeysOrder(keys: seq<string>, row: Row, i: nat, j: nat)
    requires Distinct(keys) && |keys| <= i < j < |AddKeys(keys, row)|
    ensures First(row, AddKeys(keys, row)[i]) < First(row, AddKeys(keys, row)[j])
    decreases row
  {
    var next := if row[0].0 in keys then keys else keys + [row[0].0];
    var added := AddKeys(keys, row);
    AddKeysSound(next, row[1..]);
    AddKeysSound(keys, row);
    var at :| 0 <= at < |next| && next[at] == row[0].0;
    assert added[at] == row[0].0;
    if i >= |next| {
      AddKeysOrder(next, row[1..], i, j);
      assert added[i] != row[0].0 && added[j] != row[0].0;
    } else {
      assert added[i] == row[0].0 && added[j] != row[0].0;
    }
  }

  /** The header lists keys in the order in which they first appear: those of earlier rows
      first, and those that a row adds in that row's order. */
  lemma KeysInOrder(rows: seq<Row>, n: nat, i: nat, j: nat)
    requires n < |rows| && i < j < |Keys(rows[..n + 1])|
    ensures Keys(rows[..n]) <= Keys(rows[..n + 1])
    ensures |Keys(rows[..n])| <= i ==> First(rows[n], Keys(rows[..n + 1])[i]) < First(rows[n], Keys(rows[..n + 1])[j])
  {
    assert rows[..n + 1][..n] == rows[..n];
    KeysSound(rows[..n]);
    AddKeysSound(Keys(rows[..n]), rows[n]);
    if |Keys(rows[..n])| <= i {
      AddKeysOrder(Keys(rows[..n]), rows[n], i, j);
    }
  }

  /** A row's cell under one of its keys is the value it has there. */
  lemma {:induction false} CellIs(row: Row, k: string)
    requires HasKey(row, k)
    ensures First(row, k) < |row| && Cell(row, k) == row[First(row, k)].1
    decreases row
  {
    if row[0].0 != k {
      var i :| 0 <= i < |row| && row[i].0 == k;
      assert row[1..][i - 1].0 == k;
      CellIs(row[1..], k);
    }
  }

  lemma {:induction false} CellOfOtherKey(row: Row, k: string)
    requires !HasKey(row, k)
    ensures Cell(row, k) == []
  {
    if row != [] {
      assert row[0].0 != k;
      assert forall i :: 0 <= i < |row[1..]| ==> row[1..][i] == row[i + 1];
      CellOfOtherKey(row[1..], k);
    }
  }

  lemma TableRow(rows: seq<Row>, r: nat, k: string)
    requires r < |rows|
    ensures |Table(rows)| == |rows| + 1 && Table(rows)[0] == Keys(rows)
    ensures Table(rows)[r + 1] == Cells(rows[r], Keys(rows))
    ensures HasKey(rows[r], k) ==> k in Keys(rows)
  {
    KeysSound(rows);
  }

  lemma {:induction false} SameCells(x: Row, y: Row, keys: seq<string>, k: string)
    requires Cells(x, keys) == Cells(y, keys)
    requires HasKey(x, k) || HasKey(y, k) ==> k in keys
    ensures Cell(x, k) == Cell(y, k)
  {
    if k in keys {
      var i :| 0 <= i < |keys| && keys[i] == k;
      assert Cells(x, keys)[i] == Cells(y, keys)[i];
    } else {
      CellOfOtherKey(x, k);
      CellOfOtherKey(y, k);
    }
  }

  lemma {:induction false} SameTable(a: seq<Row>, b: seq<Row>, r: nat, k: string)
    requires Table(a) == Table(b) && r < |a|
    ensures Keys(a) == Keys(b) && |a| == |b| && Cell(a[r], k) == Cell(b[r], k)
  {
    TableRow(a, r, k);
    assert |Table(b)| == |b| + 1;
    TableRow(b, r, k);
    SameCells(a[r], b[r], Keys(a), k);
  }

  /** Rows that print the same text have the same keys and the same cell under every key. */
  lemma {:induction false} PrintsApart(a: seq<Row>, b: seq<Row>, r: nat, k: string)
    requires Keys(a) != [] && AllClean(Keys(a)) && Keys(b) != [] && AllClean(Keys(b))
    requires RowsToCsv(a) == RowsToCsv(b) && r < |a|
    ensures Keys(a) == Keys(b) && |a| == |b| && Cell(a[r], k) == Cell(b[r], k)
  {
    RoundTrip(a);
    RoundTrip(b);
    SameTable(a, b, r, k);
  }
}
