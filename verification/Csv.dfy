/** The CSV printer of the export buttons, and a reader for section 2 of RFC 4180 that undoes it. */
module Csv {
  import opened Types

  /** A cell as the page holds it; Json(None) stands for one JSON has no text for. */
  datatype Value = Missing | Text(s: string) | Scalar(printed: string) | Json(encoded: Option<string>)

  /** A record: its keys in the order Object.keys lists them, and what they map to. */
  datatype Row = Row(keys: seq<string>, cells: map<string, Value>)

  function StringifyCell(v: Value): string {
    match v
    case Missing => ""
    case Text(s) => s
    case Scalar(printed) => printed
    case Json(encoded) => if encoded.Some? then encoded.value else ""
  }

  function CellText(row: Row, column: string): string {
    StringifyCell(if column in row.cells then row.cells[column] else Missing)
  }

  predicate IsSpecial(c: char) { c == '"' || c == ',' || c == '\n' || c == '\r' }

  predicate NeedsQuotes(s: string) { exists i :: 0 <= i < |s| && IsSpecial(s[i]) }

  function Doubled(s: string): string {
    if s == "" then "" else (if s[0] == '"' then "\"\"" else [s[0]]) + Doubled(s[1..])
  }

  function CsvEscape(s: string): string {
    if NeedsQuotes(s) then "\"" + Doubled(s) + "\"" else s
  }

  function Join(parts: seq<string>, sep: string): string {
    if parts == [] then "" else if |parts| == 1 then parts[0] else parts[0] + sep + Join(parts[1..], sep)
  }

  function EscapeAll(fields: seq<string>): (r: seq<string>)
    ensures |r| == |fields|
  {
    if fields == [] then [] else [CsvEscape(fields[0])] + EscapeAll(fields[1..])
  }

  function Line(fields: seq<string>): string { Join(EscapeAll(fields), ",") }

  function CellTexts(row: Row, columns: seq<string>): (r: seq<string>)
    ensures |r| == |columns|
    ensures forall i :: 0 <= i < |columns| ==> r[i] == CellText(row, columns[i])
  {
    if columns == [] then [] else [CellText(row, columns[0])] + CellTexts(row, columns[1..])
  }

  function Lines(rows: seq<Row>, columns: seq<string>): seq<string> {
    if rows == [] then [] else [Line(CellTexts(rows[0], columns))] + Lines(rows[1..], columns)
  }

  // --------------------------------------------------------------- columns

  function KeysOf(rows: seq<Row>): seq<string> {
    if rows == [] then [] else KeysOf(rows[..|rows| - 1]) + rows[|rows| - 1].keys
  }

  /** Each key once, in the order of first appearance. */
  function FirstSeen(keys: seq<string>): seq<string> {
    if keys == [] then []
    else
      var before, last := FirstSeen(keys[..|keys| - 1]), keys[|keys| - 1];
      if last in before then before else before + [last]
  }

  function Columns(rows: seq<Row>): seq<string> {
    FirstSeen(KeysOf(if |rows| <= 50 then rows else rows[..50]))
  }

  /** Appends the keys of one record that are new. */
  method AddKeys(order0: seq<string>, seen0: set<string>, keys: seq<string>, ghost before: seq<string>)
    returns (order: seq<string>, seen: set<string>)
    requires order0 == FirstSeen(before) && forall k :: k in seen0 <==> k in order0
    ensures order == FirstSeen(before + keys) && forall k :: k in seen <==> k in order
  {
    order, seen := order0, seen0;
    assert before + [] == before;
    for j := 0 to |keys|
      invariant order == FirstSeen(before + keys[..j])
      invariant forall k :: k in seen <==> k in order
    {
      var k := keys[j];
      var all, next := before + keys[..j], before + keys[..j + 1];
      assert next == all + [k] && next[..|next| - 1] == all;
      if k !in seen {
        seen := seen + {k};
        order := order + [k];
      }
    }
    assert keys[..|keys|] == keys;
  }

  method InferColumns(rows: seq<Row>) returns (order: seq<string>)
    ensures order == Columns(rows)
  {
    var seen: set<string> := {};
    order := [];
    var n := if |rows| <= 50 then |rows| else 50;
    for i := 0 to n
      invariant order == FirstSeen(KeysOf(rows[..i]))
      invariant forall k :: k in seen <==> k in order
    {
      assert rows[..i + 1][..i] == rows[..i];
      order, seen := AddKeys(order, seen, rows[i].keys, KeysOf(rows[..i]));
    }
    assert rows[..|rows|] == rows;
  }

  /** One of the first fifty records has the key. */
  ghost predicate EarlyKey(rows: seq<Row>, k: string) {
    exists i :: 0 <= i < |rows| && i < 50 && k in rows[i].keys
  }

  lemma {:induction false} KeysOfHolds(rows: seq<Row>, k: string)
    ensures k in KeysOf(rows) <==> exists i :: 0 <= i < |rows| && k in rows[i].keys
  {
    if rows != [] {
      var n := |rows| - 1;
      KeysOfHolds(rows[..n], k);
      if k in KeysOf(rows[..n]) {
        var i :| 0 <= i < n && k in rows[..n][i].keys;
        assert k in rows[i].keys;
      }
      forall i | 0 <= i < |rows| && k in rows[i].keys ensures k in KeysOf(rows) {
        if i < n {
          assert rows[..n][i] == rows[i];
        }
      }
    }
  }

  /** A column is a key of one of the first fifty records; the rest of the table adds none. */
  lemma {:induction false} ColumnsAreEarlyKeys(rows: seq<Row>, k: string)
    ensures k in Columns(rows) <==> EarlyKey(rows, k)
  {
    var early := if |rows| <= 50 then rows else rows[..50];
    FirstSeenIsOrdered(KeysOf(early));
    KeysOfHolds(early, k);
    if EarlyKey(rows, k) {
      var i :| 0 <= i < |rows| && i < 50 && k in rows[i].keys;
      assert early[i] == rows[i];
    }
  }

  /** Where a key first appears. */
  ghost predicate FirstAt(keys: seq<string>, k: string, p: nat) {
    p < |keys| && keys[p] == k && k !in keys[..p]
  }

  /** The columns are the keys, without repetition, ordered by first appearance. */
  lemma {:induction false} FirstSeenIsOrdered(keys: seq<string>)
    ensures
      var order := FirstSeen(keys);
      && (forall k :: k in order <==> k in keys)
      && (forall i, j, p, q ::
            0 <= i < j < |order| && FirstAt(keys, order[i], p) && FirstAt(keys, order[j], q) ==> p < q)
      && (forall i, j :: 0 <= i < j < |order| ==> order[i] != order[j])
  {
    if keys != [] {
      var n := |keys| - 1;
      FirstSeenIsOrdered(keys[..n]);
      var before, order := FirstSeen(keys[..n]), FirstSeen(keys);
      assert forall k :: k in keys <==> k in keys[..n] || k == keys[n];
      forall i, j, p: nat, q: nat |
        0 <= i < j < |order| && FirstAt(keys, order[i], p) && FirstAt(keys, order[j], q)
        ensures p < q
      {
        assert order[i] in before && order[i] in keys[..n];
        EarlierFirst(keys, order[i], p);
        if q < n {
          assert keys[..n][..q] == keys[..q];
          assert order[j] in keys[..n];
          assert FirstAt(keys[..n], order[j], q);
          assert j < |before|;
        }
      }
    }
  }

  lemma EarlierFirst(keys: seq<string>, k: string, p: nat)
    requires keys != [] && FirstAt(keys, k, p) && k in keys[..|keys| - 1]
    ensures p < |keys| - 1 && FirstAt(keys[..|keys| - 1], k, p)
  {
  }

  function ToCsv(rows: seq<Row>, columns: Option<seq<string>>): string {
    if rows == [] then ""
    else
      var cols := if columns.Some? then columns.value else Columns(rows);
      Line(cols) + "\n" + Join(Lines(rows, cols), "\n") + "\n"
  }

  // ---------------------------------------------------------------- reader

  function Prepend(c: char, r: Option<(string, string)>): Option<(string, string)> {
    if r.None? then None else Some(([c] + r.value.0, r.value.1))
  }

  /** The rest of an unquoted field, and what follows it. */
  function ReadPlain(s: string): (r: Option<(string, string)>)
    ensures r.Some? ==> |r.value.1| <= |s|
  {
    if s == "" || s[0] == ',' || s[0] == '\n' then Some(("", s))
    else if IsSpecial(s[0]) then None
    else Prepend(s[0], ReadPlain(s[1..]))
  }

  /** The rest of a quoted field, its opening quote already read. */
  function ReadQuoted(s: string): (r: Option<(string, string)>)
    ensures r.Some? ==> |r.value.1| <= |s|
  {
    if s == "" then None
    else if s[0] != '"' then Prepend(s[0], ReadQuoted(s[1..]))
    else if |s| > 1 && s[1] == '"' then Prepend('"', ReadQuoted(s[2..]))
    else Some(("", s[1..]))
  }

  function ReadField(s: string): (r: Option<(string, string)>)
    ensures r.Some? ==> |r.value.1| <= |s|
  {
    if s != "" && s[0] == '"' then ReadQuoted(s[1..]) else ReadPlain(s)
  }

  /** A record: fields separated by commas, ended by a line feed. */
  function ReadRecord(s: string): (r: Option<(seq<string>, string)>)
    ensures r.Some? ==> |r.value.1| < |s|
    decreases |s|
  {
    match ReadField(s)
    case None => None
    case Some((field, rest)) =>
      if rest == "" then None
      else if rest[0] == '\n' then Some(([field], rest[1..]))
      else if rest[0] == ',' then
        match ReadRecord(rest[1..])
        case None => None
        case Some((fields, after)) => Some(([field] + fields, after))
      else None
  }

  function ReadTable(s: string): Option<seq<seq<string>>>
    decreases |s|
  {
    if s == "" then Some([])
    else
      match ReadRecord(s)
      case None => None
      case Some((record, rest)) =>
        match ReadTable(rest)
        case None => None
        case Some(records) => Some([record] + records)
  }

  // ------------------------------------------------------------ round trip

  predicate EndsField(rest: string) { rest != "" && (rest[0] == ',' || rest[0] == '\n') }

  lemma {:induction false} ReadPlainUndoes(s: string, rest: string)
    requires !NeedsQuotes(s) && EndsField(rest)
    ensures ReadPlain(s + rest) == Some((s, rest))
  {
    if s == "" {
      assert s + rest == rest;
    } else {
      assert IsSpecial(s[0]) ==> NeedsQuotes(s);
      assert forall i :: 0 <= i < |s[1..]| ==> s[1..][i] == s[i + 1];
      ReadPlainUndoes(s[1..], rest);
      assert (s + rest)[1..] == s[1..] + rest;
      assert [s[0]] + s[1..] == s;
    }
  }

  lemma {:induction false} ReadQuotedUndoes(s: string, rest: string)
    requires EndsField(rest)
    ensures ReadQuoted(Doubled(s) + "\"" + rest) == Some((s, rest))
  {
    if s == "" {
      assert Doubled(s) + "\"" + rest == "\"" + rest;
      ReadEnd(rest);
    } else {
      var tail := Doubled(s[1..]) + "\"" + rest;
      ReadQuotedUndoes(s[1..], rest);
      DoubledHead(s, rest);
      ReadOne(s[0], tail);
      assert [s[0]] + s[1..] == s;
    }
  }

  lemma DoubledHead(s: string, rest: string)
    requires s != ""
    ensures Doubled(s) + "\"" + rest == Doubled([s[0]]) + (Doubled(s[1..]) + "\"" + rest)
  {
    DoubledFirst(s);
    Regrouped(Doubled([s[0]]), Doubled(s[1..]), "\"", rest);
  }

  lemma DoubledFirst(s: string)
    requires s != ""
    ensures Doubled(s) == Doubled([s[0]]) + Doubled(s[1..])
  {
    var c := s[0];
    assert [c][1..] == "" && [c][0] == c;
    assert Doubled([c]) == if c == '"' then "\"\"" else [c];
  }

  lemma Regrouped(a: string, b: string, c: string, d: string)
    ensures (a + b) + c + d == a + (b + c + d)
  {
    assert (a + b) + c == a + (b + c);
  }

  /** A single quote ends the field. */
  lemma ReadEnd(rest: string)
    requires EndsField(rest)
    ensures ReadQuoted("\"" + rest) == Some(("", rest))
  {
    assert ("\"" + rest)[1..] == rest;
  }

  /** One character, doubled if it is a quote, is read as itself. */
  lemma ReadOne(c: char, tail: string)
    ensures ReadQuoted(Doubled([c]) + tail) == Prepend(c, ReadQuoted(tail))
  {
    if c == '"' {
      assert Doubled([c]) + tail == "\"\"" + tail;
      assert ("\"\"" + tail)[2..] == tail;
    } else {
      assert Doubled([c]) + tail == [c] + tail;
      assert ([c] + tail)[1..] == tail;
    }
  }

  lemma QuotedUndoes(s: string, rest: string)
    requires EndsField(rest)
    ensures ReadField("\"" + Doubled(s) + "\"" + rest) == Some((s, rest))
  {
    var body := Doubled(s) + "\"" + rest;
    assert "\"" + Doubled(s) + "\"" + rest == "\"" + body;
    assert ("\"" + body)[1..] == body;
    ReadQuotedUndoes(s, rest);
  }

  lemma PlainUndoes(s: string, rest: string)
    requires !NeedsQuotes(s) && EndsField(rest)
    ensures ReadField(s + rest) == Some((s, rest))
  {
    ReadPlainUndoes(s, rest);
    assert (s + rest)[0] == if s == "" then rest[0] else s[0];
    assert s != "" ==> !IsSpecial(s[0]);
  }

  lemma {:induction false} DoublingLengthens(s: string)
    ensures |Doubled(s)| >= |s|
  {
    if s != "" {
      DoublingLengthens(s[1..]);
    }
  }

  /** A cell is printed as it is exactly when it holds no quote, comma or line break. */
  lemma {:induction false} PlainCellsStayPlain(s: string)
    ensures CsvEscape(s) == s <==> forall i :: 0 <= i < |s| ==> s[i] !in {'"', ',', '\n', '\r'}
  {
    DoublingLengthens(s);
    assert forall i :: 0 <= i < |s| ==> (IsSpecial(s[i]) <==> s[i] in {'"', ',', '\n', '\r'});
  }

  /** What a record shows in a column: nothing where it has no value or none that can be written. */
  lemma CellsShowValues(row: Row, column: string)
    ensures column !in row.cells ==> CellText(row, column) == ""
    ensures column in row.cells ==>
      match row.cells[column]
      case Missing | Json(None) => CellText(row, column) == ""
      case Text(s) => CellText(row, column) == s
      case Scalar(printed) => CellText(row, column) == printed
      case Json(Some(encoded)) => CellText(row, column) == encoded
  {
  }

  lemma {:induction false} ReadFieldUndoes(s: string, rest: string)
    requires EndsField(rest)
    ensures ReadField(CsvEscape(s) + rest) == Some((s, rest))
  {
    if NeedsQuotes(s) {
      QuotedUndoes(s, rest);
    } else {
      PlainUndoes(s, rest);
    }
  }

  lemma {:induction false} ReadRecordUndoes(fields: seq<string>, rest: string)
    requires fields != []
    ensures ReadRecord(Line(fields) + "\n" + rest) == Some((fields, rest))
  {
    var whole := Line(fields) + "\n" + rest;
    if |fields| == 1 {
      assert fields == [fields[0]] && EscapeAll(fields[1..]) == [];
      assert whole == CsvEscape(fields[0]) + ("\n" + rest);
      ReadFieldUndoes(fields[0], "\n" + rest);
      assert ("\n" + rest)[1..] == rest;
    } else {
      var tail := Line(fields[1..]) + "\n" + rest;
      assert whole == CsvEscape(fields[0]) + ("," + tail);
      ReadFieldUndoes(fields[0], "," + tail);
      assert ("," + tail)[1..] == tail;
      ReadRecordUndoes(fields[1..], rest);
      assert [fields[0]] + fields[1..] == fields;
    }
  }

  /** The table of cell strings behind some rows. */
  function Cells(rows: seq<Row>, columns: seq<string>): (r: seq<seq<string>>)
    ensures |r| == |rows| && forall i :: 0 <= i < |rows| ==> r[i] == CellTexts(rows[i], columns)
  {
    if rows == [] then [] else [CellTexts(rows[0], columns)] + Cells(rows[1..], columns)
  }

  lemma ReadTableStep(fields: seq<string>, rest: string)
    requires fields != [] && ReadTable(rest).Some?
    ensures ReadTable(Line(fields) + "\n" + rest) == Some([fields] + ReadTable(rest).value)
  {
    ReadRecordUndoes(fields, rest);
  }

  lemma {:induction false} ReadLinesUndoes(rows: seq<Row>, columns: seq<string>)
    requires rows != [] && columns != []
    ensures ReadTable(Join(Lines(rows, columns), "\n") + "\n") == Some(Cells(rows, columns))
  {
    var first := CellTexts(rows[0], columns);
    var text := Join(Lines(rows, columns), "\n") + "\n";
    if |rows| == 1 {
      assert Lines(rows[1..], columns) == [] && Cells(rows[1..], columns) == [];
      assert text == Line(first) + "\n" + "";
      ReadTableStep(first, "");
    } else {
      var rest := Join(Lines(rows[1..], columns), "\n") + "\n";
      assert Lines(rows, columns)[1..] == Lines(rows[1..], columns);
      assert text == Line(first) + "\n" + rest;
      ReadLinesUndoes(rows[1..], columns);
      ReadTableStep(first, rest);
    }
  }

  function Header(rows: seq<Row>, columns: Option<seq<string>>): seq<string> {
    if columns.Some? then columns.value else Columns(rows)
  }

  /** Reading an export back gives the exact header and cell strings. */
  lemma {:induction false} ReadUndoesToCsv(rows: seq<Row>, columns: Option<seq<string>>)
    requires rows != [] && Header(rows, columns) != []
    ensures ReadTable(ToCsv(rows, columns)) == Some([Header(rows, columns)] + Cells(rows, Header(rows, columns)))
  {
    var cols := Header(rows, columns);
    var rest := Join(Lines(rows, cols), "\n") + "\n";
    assert ToCsv(rows, columns) == Line(cols) + "\n" + rest;
    ReadLinesUndoes(rows, cols);
    ReadTableStep(cols, rest);
  }

  /** The round trip needs a column, and nothing else: without one, every line reads as one blank cell. */
  lemma {:induction false} ReadsBackIffColumns(rows: seq<Row>, columns: Option<seq<string>>)
    requires rows != []
    ensures ReadTable(ToCsv(rows, columns)) == Some([Header(rows, columns)] + Cells(rows, Header(rows, columns)))
       <==> Header(rows, columns) != []
  {
    var cols := Header(rows, columns);
    if cols != [] {
      ReadUndoesToCsv(rows, columns);
    } else {
      var rest := Join(Lines(rows, cols), "\n") + "\n";
      assert ToCsv(rows, columns) == "\n" + rest;
      assert ReadRecord("\n" + rest).value.0 == [""];
      assert ReadTable(ToCsv(rows, columns)).Some? ==> ReadTable(ToCsv(rows, columns)).value[0] == [""];
    }
  }

  /** Tables that differ in a header or a cell never print alike. */
  lemma {:induction false} DistinctTablesPrintDifferently(
      r1: seq<Row>, c1: Option<seq<string>>, r2: seq<Row>, c2: Option<seq<string>>)
    requires r1 != [] && Header(r1, c1) != [] && r2 != [] && Header(r2, c2) != []
    requires ToCsv(r1, c1) == ToCsv(r2, c2)
    ensures Header(r1, c1) == Header(r2, c2) && Cells(r1, Header(r1, c1)) == Cells(r2, Header(r2, c2))
  {
    ReadUndoesToCsv(r1, c1);
    ReadUndoesToCsv(r2, c2);
    var t1, t2 := [Header(r1, c1)] + Cells(r1, Header(r1, c1)), [Header(r2, c2)] + Cells(r2, Header(r2, c2));
    assert t1[0] == t2[0] && t1[1..] == t2[1..];
    assert t1[1..] == Cells(r1, Header(r1, c1)) && t2[1..] == Cells(r2, Header(r2, c2));
  }
}
