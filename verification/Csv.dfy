module Csv {
  import opened Wrappers

  // A reader for comma-separated values as section 2 of RFC 4180 describes them, and the quoted
  // form that both writers use.

  type Row = seq<string>

  datatype Field = Field(text: string, rest: string)

  // What follows a record: another one, or the end of the text.
  datatype Record = Record(row: Row, rest: Option<string>)

  // Rules 5 to 7: the content of a quoted field, a doubled quote standing for a quote.
  function ReadQuoted(s: string): (field: Option<Field>)
    ensures field.Some? ==> |field.value.rest| < |s|
  {
    if s == "" then None
    else if s[0] != '"' then Prepend(s[0], ReadQuoted(s[1..]))
    else if |s| > 1 && s[1] == '"' then Prepend('"', ReadQuoted(s[2..]))
    else Some(Field("", s[1..]))
  }

  function Prepend(c: char, field: Option<Field>): Option<Field> {
    match field
    case None => None
    case Some(f) => Some(Field([c] + f.text, f.rest))
  }

  predicate IsText(c: char) {
    c != ',' && c != '"' && c != '\r' && c != '\n'
  }

  function ReadPlain(s: string): (field: Field)
    ensures |field.rest| <= |s|
  {
    if s != "" && IsText(s[0]) then
      var tail := ReadPlain(s[1..]); Field([s[0]] + tail.text, tail.rest)
    else Field("", s)
  }

  function ReadField(s: string): (field: Option<Field>)
    ensures field.Some? ==> |field.value.rest| <= |s|
  {
    if s != "" && s[0] == '"' then ReadQuoted(s[1..]) else Some(ReadPlain(s))
  }

  // The text behind a line break, which is a line feed with or without a carriage return.
  function AfterBreak(s: string): (rest: Option<string>)
    ensures rest.Some? ==> |rest.value| < |s|
  {
    if s != "" && s[0] == '\n' then Some(s[1..])
    else if |s| > 1 && s[0] == '\r' && s[1] == '\n' then Some(s[2..])
    else None
  }

  function ReadRow(s: string): (record: Option<Record>)
    ensures record.Some? && record.value.rest.Some? ==> |record.value.rest.value| < |s|
    ensures record.Some? ==> record.value.row != []
    decreases |s|
  {
    match ReadField(s)
    case None => None
    case Some(field) =>
      if field.rest == "" then Some(Record([field.text], None))
      else if field.rest[0] == ',' then
        match ReadRow(field.rest[1..])
        case None => None
        case Some(tail) => Some(Record([field.text] + tail.row, tail.rest))
      else
        match AfterBreak(field.rest)
        case None => None
        case rest => Some(Record([field.text], rest))
  }

  function Read(s: string): (table: Option<seq<Row>>)
    ensures table.Some? ==> [] !in table.value
    decreases |s|
  {
    if s == "" then Some([])
    else
      match ReadRow(s)
      case None => None
      case Some(record) =>
        match record.rest
        case None => Some([record.row])
        case Some(rest) =>
          match Read(rest)
          case None => None
          case Some(table) => Some([record.row] + table)
  }

  // `text.replaceAll("\"", "\"\"")`
  function Doubled(s: string): string {
    if s == "" then "" else (if s[0] == '"' then "\"\"" else [s[0]]) + Doubled(s[1..])
  }

  function Quoted(s: string): string {
    "\"" + Doubled(s) + "\""
  }

  function WriteRow(row: Row): string {
    if row == [] then ""
    else if |row| == 1 then Quoted(row[0])
    else Quoted(row[0]) + "," + WriteRow(row[1..])
  }

  function WriteRows(rows: seq<Row>, lineBreak: string): string {
    if rows == [] then ""
    else if |rows| == 1 then WriteRow(rows[0])
    else WriteRow(rows[0]) + lineBreak + WriteRows(rows[1..], lineBreak)
  }

  lemma {:induction false} ReadsDoubled(s: string, rest: string)
    requires rest == "" || rest[0] != '"'
    ensures ReadQuoted(Doubled(s) + "\"" + rest) == Some(Field(s, rest))
  {
    var t := Doubled(s) + "\"" + rest;
    if s == "" {
      assert t[1..] == rest;
    } else {
      var tail := Doubled(s[1..]) + "\"" + rest;
      ReadsDoubled(s[1..], rest);
      assert s == [s[0]] + s[1..];
      if s[0] == '"' {
        assert t == "\"\"" + tail;
        assert t[2..] == tail;
      } else {
        assert t == [s[0]] + tail;
        assert t[1..] == tail;
      }
    }
  }

  lemma ReadsQuoted(s: string, rest: string)
    requires rest == "" || rest[0] != '"'
    ensures ReadField(Quoted(s) + rest) == Some(Field(s, rest))
  {
    ReadsDoubled(s, rest);
    assert (Quoted(s) + rest)[1..] == Doubled(s) + "\"" + rest;
  }

  predicate IsBreak(lineBreak: string) {
    lineBreak == "\n" || lineBreak == "\r\n"
  }

  lemma BreakIsSkipped(lineBreak: string, rest: string)
    requires IsBreak(lineBreak)
    ensures AfterBreak(lineBreak + rest) == Some(rest)
    ensures (lineBreak + rest)[0] != ',' && (lineBreak + rest)[0] != '"'
  {
    assert (lineBreak + rest)[|lineBreak|..] == rest;
  }

  // What may stand behind a row.
  ghost predicate RowEnd(end: string, rest: Option<string>) {
    match rest
    case None => end == ""
    case Some(_) => end != "" && end[0] != ',' && end[0] != '"' && AfterBreak(end) == rest
  }

  lemma RowStops(cell: string, end: string, rest: Option<string>)
    requires RowEnd(end, rest)
    ensures ReadRow(Quoted(cell) + end) == Some(Record([cell], rest))
  {
    ReadsQuoted(cell, end);
  }

  lemma RowContinues(cell: string, tail: string, row: Row, rest: Option<string>)
    requires ReadRow(tail) == Some(Record(row, rest))
    ensures ReadRow(Quoted(cell) + ("," + tail)) == Some(Record([cell] + row, rest))
  {
    ReadsQuoted(cell, "," + tail);
    assert ("," + tail)[1..] == tail;
  }

  lemma Reassociate(a: string, b: string, c: string, d: string)
    ensures a + b + c + d == a + (b + (c + d))
  {}

  lemma {:induction false} ReadsRow(row: Row, end: string, rest: Option<string>)
    requires row != [] && RowEnd(end, rest)
    ensures ReadRow(WriteRow(row) + end) == Some(Record(row, rest))
  {
    if |row| == 1 {
      RowStops(row[0], end, rest);
      assert row == [row[0]];
    } else {
      var tail := WriteRow(row[1..]) + end;
      ReadsRow(row[1..], end, rest);
      RowContinues(row[0], tail, row[1..], rest);
      Reassociate(Quoted(row[0]), ",", WriteRow(row[1..]), end);
      assert row == [row[0]] + row[1..];
    }
  }

  lemma RowIsNotEmpty(row: Row)
    requires row != []
    ensures WriteRow(row) != ""
  {}

  lemma ReadsLastRow(row: Row)
    requires row != []
    ensures Read(WriteRow(row)) == Some([row])
  {
    RowIsNotEmpty(row);
    ReadsRow(row, "", None);
    assert WriteRow(row) + "" == WriteRow(row);
  }

  lemma ReadsNextRow(row: Row, lineBreak: string, rest: string, rows: seq<Row>)
    requires row != [] && IsBreak(lineBreak) && Read(rest) == Some(rows)
    ensures Read(WriteRow(row) + lineBreak + rest) == Some([row] + rows)
  {
    BreakIsSkipped(lineBreak, rest);
    ReadsRow(row, lineBreak + rest, Some(rest));
    assert WriteRow(row) + lineBreak + rest == WriteRow(row) + (lineBreak + rest);
  }

  /** Every table without empty rows is read back, whatever its cells hold and whichever line break the writer uses. */
  lemma {:induction false} RoundTrip(rows: seq<Row>, lineBreak: string)
    requires IsBreak(lineBreak) && [] !in rows
    ensures Read(WriteRows(rows, lineBreak)) == Some(rows)
  {
    if |rows| == 1 {
      ReadsLastRow(rows[0]);
      assert rows == [rows[0]];
    } else if rows != [] {
      assert rows[0] in rows;
      RoundTrip(rows[1..], lineBreak);
      ReadsNextRow(rows[0], lineBreak, WriteRows(rows[1..], lineBreak), rows[1..]);
      assert rows == [rows[0]] + rows[1..];
    }
  }

  /** A table is read back exactly when none of its rows is empty. */
  lemma RoundTripExactly(rows: seq<Row>, lineBreak: string)
    requires IsBreak(lineBreak)
    ensures Read(WriteRows(rows, lineBreak)) == Some(rows) <==> [] !in rows
  {
    if [] !in rows {
      RoundTrip(rows, lineBreak);
    }
  }

  ghost predicate PlainText(s: string) {
    forall i :: 0 <= i < |s| ==> s[i] != ',' && s[i] != '"' && s[i] != '\r' && s[i] != '\n'
  }

  lemma {:induction false} ReadsPlain(s: string, rest: string)
    requires PlainText(s) && (rest == "" || !IsText(rest[0]))
    ensures ReadPlain(s + rest) == Field(s, rest)
  {
    if s == "" {
      assert s + rest == rest;
    } else {
      assert (s + rest)[1..] == s[1..] + rest;
      ReadsPlain(s[1..], rest);
      assert s == [s[0]] + s[1..];
    }
  }

  lemma PlainField(s: string, rest: string)
    requires PlainText(s) && rest != "" && !IsText(rest[0]) && rest[0] != '"'
    ensures ReadField(s + rest) == Some(Field(s, rest))
  {
    ReadsPlain(s, rest);
  }

  /** Rules 1 to 4 on unquoted text: commas part the fields and line feeds, with or without a carriage return, the records. */
  lemma ReadsUnquoted(a: string, b: string, lineBreak: string, rest: string, rows: seq<Row>)
    requires PlainText(a) && PlainText(b) && IsBreak(lineBreak) && Read(rest) == Some(rows)
    ensures Read(a + ("," + (b + (lineBreak + rest)))) == Some([[a, b]] + rows)
  {
    var tail := b + (lineBreak + rest);
    BreakIsSkipped(lineBreak, rest);
    PlainField(b, lineBreak + rest);
    assert ReadRow(tail) == Some(Record([b], Some(rest)));
    PlainField(a, "," + tail);
    assert ("," + tail)[1..] == tail;
    assert [a] + [b] == [a, b];
    assert ReadRow(a + ("," + tail)) == Some(Record([a, b], Some(rest)));
    assert a + ("," + tail) != "";
  }
}
