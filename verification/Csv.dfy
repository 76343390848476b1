/** The CSV text offered for download, and a decoder that shows it loses nothing. */
module Csv {
  import opened Prelude
  import opened Text

  datatype Cell = Absent | Text(text: string) | Whole(n: int)

  type Table = seq<seq<Cell>>

  const BOM: string := "\U{FEFF}"

  /** The text of a cell: nothing for a missing value. */
  function Stringify(c: Cell): string {
    match c
    case Absent => ""
    case Text(text) => text
    case Whole(n) => Decimal(n)
  }

  function DoubleQuotes(s: string): string {
    if s == [] then [] else (if s[0] == '"' then ['"', '"'] else [s[0]]) + DoubleQuotes(s[1..])
  }

  predicate NeedsQuotes(s: string) {
    '"' in s || ',' in s || '\n' in s
  }

  function Escape(c: Cell): string {
    var s := Stringify(c);
    if NeedsQuotes(s) then ['"'] + DoubleQuotes(s) + ['"'] else s
  }

  function JoinCells(row: seq<Cell>): string {
    if row == [] then []
    else if |row| == 1 then Escape(row[0])
    else Escape(row[0]) + [','] + JoinCells(row[1..])
  }

  function JoinRows(rows: Table): string {
    if rows == [] then []
    else if |rows| == 1 then JoinCells(rows[0])
    else JoinCells(rows[0]) + ['\n'] + JoinRows(rows[1..])
  }

  function Print(rows: Table): string {
    BOM + JoinRows(rows)
  }

  // ─── a decoder, after section 2 of RFC 4180 with a line feed between records ───

  type Record = seq<string>

  /**
   * `Plain(acc)`: in an unquoted field, `acc` read so far; `Quoted(acc)`: inside
   * quotes; `Closed(acc)`: just behind a quote that may close the field or be
   * the first of a doubled one.
   */
  datatype Mode = Begin | Plain(acc: string) | Quoted(acc: string) | Closed(acc: string)

  /** The records of the rest of a text, given the fields of the record under way and the field under way. */
  function DecodeFrom(s: string, m: Mode, fields: Record): Option<seq<Record>>
    decreases |s|, 0
  {
    if s == [] then
      match m
      case Begin => Some([fields + [""]])
      case Plain(acc) => Some([fields + [acc]])
      case Closed(acc) => Some([fields + [acc]])
      case Quoted(_) => None
    else
      var c, rest := s[0], s[1..];
      match m
      case Begin =>
        if c == '"' then DecodeFrom(rest, Quoted(""), fields) else EndOrGrow(c, rest, "", fields)
      case Plain(acc) =>
        if c == '"' then None else EndOrGrow(c, rest, acc, fields)
      case Quoted(acc) =>
        DecodeFrom(rest, if c == '"' then Closed(acc) else Quoted(acc + [c]), fields)
      case Closed(acc) =>
        if c == '"' then DecodeFrom(rest, Quoted(acc + ['"']), fields)
        else if c == ',' || c == '\n' then EndOrGrow(c, rest, acc, fields)
        else None
  }

  /** An unquoted character: it ends the field, ends the record, or belongs to the field. */
  function EndOrGrow(c: char, rest: string, acc: string, fields: Record): Option<seq<Record>>
    decreases |rest|, 1
  {
    if c == ',' then DecodeFrom(rest, Begin, fields + [acc])
    else if c == '\n' then
      var more := DecodeFrom(rest, Begin, []);
      if more.None? then None else Some([fields + [acc]] + more.value)
    else DecodeFrom(rest, Plain(acc + [c]), fields)
  }

  function Decode(s: string): Option<seq<Record>> {
    DecodeFrom(if |s| > 0 && s[0] == BOM[0] then s[1..] else s, Begin, [])
  }

  function StringifyRow(row: seq<Cell>): (r: Record)
    ensures |r| == |row|
  {
    seq(|row|, i requires 0 <= i < |row| => Stringify(row[i]))
  }

  function StringifyTable(rows: Table): (r: seq<Record>)
    ensures |r| == |rows|
  {
    seq(|rows|, i requires 0 <= i < |rows| => StringifyRow(rows[i]))
  }

  // ─── reading one field back ───

  /** What follows a field: the end, a comma or a line feed. */
  predicate EndsField(tail: string) {
    tail == [] || tail[0] == ',' || tail[0] == '\n'
  }

  /** The decoder with a whole field `acc` read, at the end of that field. */
  function AfterField(tail: string, acc: string, fields: Record): Option<seq<Record>>
    requires EndsField(tail)
  {
    if tail == [] then Some([fields + [acc]]) else EndOrGrow(tail[0], tail[1..], acc, fields)
  }

  lemma Regroup(a: string, b: string, c: string, d: string)
    ensures (a + b + c) + d == a + (b + (c + d))
  {}

  lemma {:induction false} DecodeQuoted(s: string, acc: string, tail: string, fields: Record)
    requires EndsField(tail)
    ensures DecodeFrom(DoubleQuotes(s) + (['"'] + tail), Quoted(acc), fields) == AfterField(tail, acc + s, fields)
  {
    var text := DoubleQuotes(s) + (['"'] + tail);
    if s == [] {
      assert text == ['"'] + tail;
      assert acc + s == acc;
    } else {
      var rest := DoubleQuotes(s[1..]) + (['"'] + tail);
      DecodeQuoted(s[1..], acc + [s[0]], tail, fields);
      assert acc + [s[0]] + s[1..] == acc + s;
      if s[0] == '"' {
        assert text == ['"'] + (['"'] + rest);
      } else {
        assert text == [s[0]] + rest;
      }
    }
  }

  lemma {:induction false} DecodePlain(s: string, acc: string, tail: string, fields: Record)
    requires EndsField(tail) && !NeedsQuotes(s)
    ensures DecodeFrom(s + tail, Plain(acc), fields) == AfterField(tail, acc + s, fields)
  {
    if s == [] {
      assert s + tail == tail && acc + s == acc;
    } else {
      assert s[0] in s;
      assert (s + tail)[1..] == s[1..] + tail;
      DecodePlain(s[1..], acc + [s[0]], tail, fields);
      assert acc + [s[0]] + s[1..] == acc + s;
    }
  }

  lemma OpeningQuote(rest: string, fields: Record)
    ensures DecodeFrom(['"'] + rest, Begin, fields) == DecodeFrom(rest, Quoted(""), fields)
  {
    assert (['"'] + rest)[1..] == rest;
  }

  lemma FirstPlainChar(c: char, rest: string, fields: Record)
    requires c != '"' && c != ',' && c != '\n'
    ensures DecodeFrom([c] + rest, Begin, fields) == DecodeFrom(rest, Plain([c]), fields)
  {
    assert ([c] + rest)[1..] == rest;
    assert "" + [c] == [c];
  }

  lemma EmptyField(tail: string, fields: Record)
    requires EndsField(tail)
    ensures DecodeFrom(tail, Begin, fields) == AfterField(tail, "", fields)
  {}

  /** An escaped cell reads back as its text, whatever field end follows. */
  lemma DecodeCell(c: Cell, tail: string, fields: Record)
    requires EndsField(tail)
    ensures DecodeFrom(Escape(c) + tail, Begin, fields) == AfterField(tail, Stringify(c), fields)
  {
    var s := Stringify(c);
    if NeedsQuotes(s) {
      Regroup(['"'], DoubleQuotes(s), ['"'], tail);
      OpeningQuote(DoubleQuotes(s) + (['"'] + tail), fields);
      DecodeQuoted(s, "", tail, fields);
      assert "" + s == s;
    } else if s == [] {
      assert Escape(c) + tail == tail;
      EmptyField(tail, fields);
    } else {
      DecodePlainCell(s, tail, fields);
    }
  }

  lemma DecodePlainCell(s: string, tail: string, fields: Record)
    requires EndsField(tail) && !NeedsQuotes(s) && s != []
    ensures DecodeFrom(s + tail, Begin, fields) == AfterField(tail, s, fields)
  {
    assert s[0] in s;
    var rest := s[1..] + tail;
    assert s + tail == [s[0]] + rest;
    FirstPlainChar(s[0], rest, fields);
    DecodePlain(s[1..], [s[0]], tail, fields);
    assert [s[0]] + s[1..] == s;
  }

  // ─── reading the table back ───

  /** What follows a record: the end or a line feed. */
  predicate EndsRecord(tail: string) {
    tail == [] || tail[0] == '\n'
  }

  function AfterRecord(tail: string, record: Record): Option<seq<Record>>
    requires EndsRecord(tail)
  {
    if tail == [] then Some([record])
    else
      var more := DecodeFrom(tail[1..], Begin, []);
      if more.None? then None else Some([record] + more.value)
  }

  lemma CommaEndsField(rest: string, acc: string, fields: Record)
    ensures AfterField([','] + rest, acc, fields) == DecodeFrom(rest, Begin, fields + [acc])
  {
    assert ([','] + rest)[1..] == rest;
  }

  lemma RecordEndsField(tail: string, acc: string, fields: Record)
    requires EndsRecord(tail)
    ensures AfterField(tail, acc, fields) == AfterRecord(tail, fields + [acc])
  {}

  lemma LineFeedEndsRecord(rest: string, record: Record, more: seq<Record>)
    requires DecodeFrom(rest, Begin, []) == Some(more)
    ensures AfterRecord(['\n'] + rest, record) == Some([record] + more)
  {
    assert (['\n'] + rest)[1..] == rest;
  }

  /** The joined row, then `tail`, reads back as the row's texts behind the fields already read. */
  ghost predicate RowDecodes(row: seq<Cell>, tail: string, fields: Record)
    requires EndsRecord(tail)
  {
    DecodeFrom(JoinCells(row) + tail, Begin, fields) == AfterRecord(tail, fields + StringifyRow(row))
  }

  lemma LastCell(c: Cell, tail: string, fields: Record)
    requires EndsRecord(tail)
    ensures RowDecodes([c], tail, fields)
  {
    DecodeCell(c, tail, fields);
    RecordEndsField(tail, Stringify(c), fields);
    assert StringifyRow([c]) == [Stringify(c)];
  }

  lemma OneMoreCell(row: seq<Cell>, tail: string, fields: Record)
    requires |row| > 1 && EndsRecord(tail) && RowDecodes(row[1..], tail, fields + [Stringify(row[0])])
    ensures RowDecodes(row, tail, fields)
  {
    var rest := JoinCells(row[1..]) + tail;
    JoinMore(row, tail);
    DecodeCell(row[0], [','] + rest, fields);
    CommaEndsField(rest, Stringify(row[0]), fields);
    RowCons(row, fields);
  }

  lemma JoinMore(row: seq<Cell>, tail: string)
    requires |row| > 1
    ensures JoinCells(row) + tail == Escape(row[0]) + ([','] + (JoinCells(row[1..]) + tail))
  {
    Regroup(Escape(row[0]), [','], JoinCells(row[1..]), tail);
  }

  lemma RowCons(row: seq<Cell>, fields: Record)
    requires row != []
    ensures fields + [Stringify(row[0])] + StringifyRow(row[1..]) == fields + StringifyRow(row)
  {}

  lemma {:induction false} DecodeRow(row: seq<Cell>, tail: string, fields: Record)
    requires row != [] && EndsRecord(tail)
    ensures RowDecodes(row, tail, fields)
  {
    if |row| == 1 {
      assert row == [row[0]];
      LastCell(row[0], tail, fields);
    } else {
      DecodeRow(row[1..], tail, fields + [Stringify(row[0])]);
      OneMoreCell(row, tail, fields);
    }
  }

  predicate NoEmptyRow(rows: Table) {
    forall i :: 0 <= i < |rows| ==> rows[i] != []
  }

  lemma TableCons(rows: Table)
    requires rows != []
    ensures StringifyTable(rows) == [StringifyRow(rows[0])] + StringifyTable(rows[1..])
  {}

  lemma FirstRow(row: seq<Cell>, tail: string)
    requires row != [] && EndsRecord(tail)
    ensures DecodeFrom(JoinCells(row) + tail, Begin, []) == AfterRecord(tail, StringifyRow(row))
  {
    DecodeRow(row, tail, []);
    assert [] + StringifyRow(row) == StringifyRow(row);
  }

  lemma {:induction false} DecodeRows(rows: Table)
    requires rows != [] && NoEmptyRow(rows)
    ensures DecodeFrom(JoinRows(rows), Begin, []) == Some(StringifyTable(rows))
  {
    TableCons(rows);
    if |rows| == 1 {
      FirstRow(rows[0], []);
      assert JoinCells(rows[0]) + [] == JoinCells(rows[0]);
      assert StringifyTable(rows) == [StringifyRow(rows[0])];
    } else {
      var rest := JoinRows(rows[1..]);
      assert JoinRows(rows) == JoinCells(rows[0]) + (['\n'] + rest);
      FirstRow(rows[0], ['\n'] + rest);
      DecodeRows(rows[1..]);
      LineFeedEndsRecord(rest, StringifyRow(rows[0]), StringifyTable(rows[1..]));
    }
  }

  /** A decoded text always has a record, and every record a field. */
  lemma {:induction false} DecodedShape(s: string, m: Mode, fields: Record)
    ensures var r := DecodeFrom(s, m, fields);
            r.Some? ==> r.value != [] && forall i :: 0 <= i < |r.value| ==> r.value[i] != []
    decreases |s|, 0
  {
    if s != [] {
      var c, rest := s[0], s[1..];
      match m
      case Begin =>
        if c == '"' {
          DecodedShape(rest, Quoted(""), fields);
        } else {
          GrownShape(c, rest, "", fields);
        }
      case Plain(acc) =>
        if c != '"' {
          GrownShape(c, rest, acc, fields);
        }
      case Quoted(acc) =>
        DecodedShape(rest, if c == '"' then Closed(acc) else Quoted(acc + [c]), fields);
      case Closed(acc) =>
        if c == '"' {
          DecodedShape(rest, Quoted(acc + ['"']), fields);
        } else if c == ',' || c == '\n' {
          GrownShape(c, rest, acc, fields);
        }
    }
  }

  lemma {:induction false} GrownShape(c: char, rest: string, acc: string, fields: Record)
    ensures var r := EndOrGrow(c, rest, acc, fields);
            r.Some? ==> r.value != [] && forall i :: 0 <= i < |r.value| ==> r.value[i] != []
    decreases |rest|, 1
  {
    if c == ',' {
      DecodedShape(rest, Begin, fields + [acc]);
    } else if c == '\n' {
      DecodedShape(rest, Begin, []);
    } else {
      DecodedShape(rest, Plain(acc + [c]), fields);
    }
  }

  /**
   * The text decodes to exactly the texts of the table, whatever quotes, commas
   * and line feeds they contain, if and only if the table has a row and no row
   * is empty.
   */
  lemma PrintedTableDecodes(rows: Table)
    ensures Decode(Print(rows)) == Some(StringifyTable(rows)) <==> rows != [] && NoEmptyRow(rows)
  {
    assert Print(rows)[1..] == JoinRows(rows);
    if rows != [] && NoEmptyRow(rows) {
      DecodeRows(rows);
    } else {
      DecodedShape(JoinRows(rows), Begin, []);
      if rows != [] {
        var i :| 0 <= i < |rows| && rows[i] == [];
        assert StringifyTable(rows)[i] == [];
      }
    }
  }

  /** A cell is quoted if and only if it holds a quote, a comma or a line feed, and then with its quotes doubled. */
  lemma QuotedIff(c: Cell)
    ensures (Escape(c) == Stringify(c)) <==> !('"' in Stringify(c) || ',' in Stringify(c) || '\n' in Stringify(c))
  {
    DoubledIsLonger(Stringify(c));
  }

  lemma {:induction false} DoubledIsLonger(s: string)
    ensures |DoubleQuotes(s)| >= |s|
  {
    if s != [] {
      DoubledIsLonger(s[1..]);
    }
  }

  /** A small table, cell by cell: the mark in front, commas and a line feed between, quotes where they are needed. */
  lemma SmallTable()
    ensures Print([[Text("a"), Absent, Whole(-5)], [Text("x,\"")]]) == "\U{FEFF}a,,-5\n\"x,\"\"\""
  {
    var first: seq<Cell>, second: seq<Cell> := [Text("a"), Absent, Whole(-5)], [Text("x,\"")];
    var table: Table := [first, second];
    FirstOfSmall(first);
    SecondOfSmall(second);
    assert table[1..] == [second];
    hide JoinCells;
    assert JoinRows(table) == "a,,-5" + ['\n'] + "\"x,\"\"\"";
  }

  lemma FirstOfSmall(row: seq<Cell>)
    requires row == [Text("a"), Absent, Whole(-5)]
    ensures JoinCells(row) == "a,,-5"
  {
    assert Escape(Text("a")) == "a" && Escape(Absent) == "" && Escape(Whole(-5)) == "-5";
    assert row[1..] == [Absent, Whole(-5)] && row[1..][1..] == [Whole(-5)];
    assert JoinCells(row[1..][1..]) == "-5";
    assert JoinCells(row[1..]) == ",-5";
  }

  lemma SecondOfSmall(row: seq<Cell>)
    requires row == [Text("x,\"")]
    ensures JoinCells(row) == "\"x,\"\"\""
  {
    var t := "x,\"";
    assert t[1..] == ",\"" && t[1..][1..] == "\"" && t[1..][1..][1..] == "";
    assert DoubleQuotes(t[1..][1..]) == "\"\"";
    assert DoubleQuotes(t) == "x,\"\"";
    assert t[1] == ',';
  }
}
