/**
 The quoted CSV printer and a reader for the grammar of RFC 4180, section 2, that undoes it.
 */
module Csv {
  import opened Wrappers

  const FORMULA_STARTS := "=+-@\t\r"

  /** Cells that a spreadsheet would take for a formula get a leading apostrophe. */
  function Guarded(text: string): string
  {
    if text != "" && text[0] in FORMULA_STARTS then "'" + text else text
  }

  /** Every quote doubled. */
  function Doubled(text: string): string
  {
    if text == "" then ""
    else (if text[0] == '"' then "\"\"" else [text[0]]) + Doubled(text[1..])
  }

  function Cell(text: string): string { "\"" + Doubled(Guarded(text)) + "\"" }

  function Line(row: seq<string>): string
  {
    if row == [] then "" else if |row| == 1 then Cell(row[0]) else Cell(row[0]) + "," + Line(row[1..])
  }

  function Print(rows: seq<seq<string>>): string
  {
    if rows == [] then "" else if |rows| == 1 then Line(rows[0]) else Line(rows[0]) + "\r\n" + Print(rows[1..])
  }

  function GuardedRow(row: seq<string>): (r: seq<string>)
    ensures |r| == |row| && forall i | 0 <= i < |r| :: r[i] == Guarded(row[i])
  {
    seq(|row|, i requires 0 <= i < |row| => Guarded(row[i]))
  }

  function GuardedRows(rows: seq<seq<string>>): (r: seq<seq<string>>)
    ensures |r| == |rows| && forall i | 0 <= i < |r| :: r[i] == GuardedRow(rows[i])
  {
    seq(|rows|, i requires 0 <= i < |rows| => GuardedRow(rows[i]))
  }

  // ---------------------------------------------------------------- reader

  datatype Parsed<T> = Failed | Got(value: T, rest: string)

  /** The inside of a quoted field up to its closing quote, with doubled quotes undone. */
  function Quoted(text: string): (r: Parsed<string>)
    ensures r.Got? ==> |r.rest| < |text|
  {
    if text == "" then Failed
    else if text[0] != '"' then
      match Quoted(text[1..])
      case Failed => Failed
      case Got(field, rest) => Got([text[0]] + field, rest)
    else if |text| > 1 && text[1] == '"' then
      match Quoted(text[2..])
      case Failed => Failed
      case Got(field, rest) => Got("\"" + field, rest)
    else Got("", text[1..])
  }

  /** An unquoted field: no comma, quote or line break. */
  function Plain(text: string): (r: Parsed<string>)
    ensures r.Got? && |r.rest| <= |text|
  {
    if text == "" || text[0] in ",\"\r\n" then Got("", text)
    else
      var Got(field, rest) := Plain(text[1..]);
      Got([text[0]] + field, rest)
  }

  function Field(text: string): (r: Parsed<string>)
    ensures r.Got? ==> |r.rest| <= |text|
  {
    if text != "" && text[0] == '"' then Quoted(text[1..]) else Plain(text)
  }

  function Record(text: string): (r: Parsed<seq<string>>)
    ensures r.Got? ==> |r.rest| <= |text| && r.value != []
    decreases |text|
  {
    match Field(text)
    case Failed => Failed
    case Got(field, rest) =>
      if rest != "" && rest[0] == ',' then
        match Record(rest[1..])
        case Failed => Failed
        case Got(fields, rest') => Got([field] + fields, rest')
      else Got([field], rest)
  }

  /** Records separated by CRLF; the last one may be followed by one more CRLF. */
  function Read(text: string): (rows: Option<seq<seq<string>>>)
    ensures rows.Some? ==> rows.value != [] && forall i | 0 <= i < |rows.value| :: rows.value[i] != []
    decreases |text|
  {
    match Record(text)
    case Failed => None
    case Got(record, rest) =>
      if rest == "" || rest == "\r\n" then Some([record])
      else if !("\r\n" <= rest) then None
      else
        match Read(rest[2..])
        case None => None
        case Some(records) => Some([record] + records)
  }

  // ---------------------------------------------------------------- round trip

  lemma {:induction false} QuotedUndoesDoubled(text: string, rest: string)
    requires rest == "" || rest[0] != '"'
    ensures Quoted(Doubled(text) + "\"" + rest) == Got(text, rest)
  {
    var printed := Doubled(text) + "\"" + rest;
    if text == "" {
      assert printed == "\"" + rest;
      assert printed[1..] == rest;
    } else {
      QuotedUndoesDoubled(text[1..], rest);
      var tail := Doubled(text[1..]) + "\"" + rest;
      if text[0] == '"' {
        assert printed == "\"\"" + tail;
        assert printed[2..] == tail;
        assert "\"" + text[1..] == text;
      } else {
        assert printed == [text[0]] + tail;
        assert printed[1..] == tail;
        assert [text[0]] + text[1..] == text;
      }
    }
  }

  lemma FieldReadsCell(text: string, rest: string)
    requires rest == "" || rest[0] != '"'
    ensures Field(Cell(text) + rest) == Got(Guarded(text), rest)
  {
    QuotedUndoesDoubled(Guarded(text), rest);
    assert (Cell(text) + rest)[1..] == Doubled(Guarded(text)) + "\"" + rest;
  }

  lemma LineContinues(row: seq<string>, rest: string)
    requires |row| > 1
    ensures Line(row) + rest == Cell(row[0]) + ("," + (Line(row[1..]) + rest))
  {
    Reassociate(Cell(row[0]), ",", Line(row[1..]), rest);
  }

  lemma Reassociate(a: string, b: string, c: string, d: string)
    ensures a + b + c + d == a + (b + (c + d))
  {
  }

  lemma RecordContinues(text: string, field: string, more: string, fields: seq<string>, rest: string)
    requires Field(text) == Got(field, "," + more) && Record(more) == Got(fields, rest)
    ensures Record(text) == Got([field] + fields, rest)
  {
    assert ("," + more)[1..] == more;
  }

  lemma RecordReadsCell(text: string, rest: string)
    requires rest == "" || rest[0] == '\r'
    ensures Record(Cell(text) + rest) == Got([Guarded(text)], rest)
  {
    FieldReadsCell(text, rest);
  }

  lemma {:induction false} RecordReadsLine(row: seq<string>, rest: string)
    requires row != [] && (rest == "" || rest[0] == '\r')
    ensures Record(Line(row) + rest) == Got(GuardedRow(row), rest)
    decreases row
  {
    if |row| == 1 {
      RecordReadsCell(row[0], rest);
      assert GuardedRow(row) == [Guarded(row[0])];
    } else {
      var more := Line(row[1..]) + rest;
      FieldReadsCell(row[0], "," + more);
      LineContinues(row, rest);
      RecordReadsLine(row[1..], rest);
      RecordContinues(Line(row) + rest, Guarded(row[0]), more, GuardedRow(row[1..]), rest);
      GuardedFromFirst(row);
    }
  }

  lemma GuardedFromFirst(row: seq<string>)
    requires row != []
    ensures GuardedRow(row) == [Guarded(row[0])] + GuardedRow(row[1..])
  {
  }

  lemma ReadContinues(text: string, record: seq<string>, more: string, records: seq<seq<string>>)
    requires Record(text) == Got(record, "\r\n" + more) && more != "" && Read(more) == Some(records)
    ensures Read(text) == Some([record] + records)
  {
    assert ("\r\n" + more)[2..] == more;
    assert "\r\n" <= "\r\n" + more;
  }

  lemma {:induction false} ReadUndoesPrint(rows: seq<seq<string>>)
    requires rows != [] && forall i | 0 <= i < |rows| :: rows[i] != []
    ensures Read(Print(rows)) == Some(GuardedRows(rows))
    decreases rows
  {
    FirstRecord(rows);
    if |rows| == 1 {
      ReadLast(Print(rows), GuardedRow(rows[0]));
      assert GuardedRows(rows) == [GuardedRow(rows[0])];
    } else {
      ReadUndoesPrint(rows[1..]);
      PrintIsNotEmpty(rows[1..]);
      ReadContinues(Print(rows), GuardedRow(rows[0]), Print(rows[1..]), GuardedRows(rows[1..]));
      GuardedRowsFromFirst(rows);
    }
  }

  lemma ReadLast(text: string, record: seq<string>)
    requires Record(text) == Got(record, "")
    ensures Read(text) == Some([record])
  {
  }

  lemma GuardedRowsFromFirst(rows: seq<seq<string>>)
    requires rows != []
    ensures GuardedRows(rows) == [GuardedRow(rows[0])] + GuardedRows(rows[1..])
  {
  }

  lemma FirstRecord(rows: seq<seq<string>>)
    requires rows != [] && rows[0] != []
    ensures Record(Print(rows)) == Got(GuardedRow(rows[0]), if |rows| == 1 then "" else "\r\n" + Print(rows[1..]))
  {
    if |rows| == 1 {
      RecordReadsLine(rows[0], "");
      assert Line(rows[0]) + "" == Print(rows);
    } else {
      RecordReadsLine(rows[0], "\r\n" + Print(rows[1..]));
      PrintSplits(rows);
    }
  }

  lemma PrintSplits(rows: seq<seq<string>>)
    requires |rows| > 1
    ensures Line(rows[0]) + ("\r\n" + Print(rows[1..])) == Print(rows)
  {
    var line, tail := Line(rows[0]), Print(rows[1..]);
    assert Print(rows) == line + "\r\n" + tail;
    Regroup(line, "\r\n", tail);
  }

  lemma Regroup(a: string, b: string, c: string)
    ensures a + (b + c) == a + b + c
  {
  }

  lemma PrintIsNotEmpty(rows: seq<seq<string>>)
    requires rows != [] && rows[0] != []
    ensures Print(rows) != ""
  {
    assert |Line(rows[0])| >= |Cell(rows[0][0])|;
  }

  /**
   Reading gives back exactly the guarded cells if and only if there is a row and no row is empty: a
   file without rows and a file with one row without cells print the same text.
   */
  lemma RoundTripIff(rows: seq<seq<string>>)
    ensures Read(Print(rows)) == Some(GuardedRows(rows)) <==> rows != [] && forall i | 0 <= i < |rows| :: rows[i] != []
  {
    if rows != [] && forall i | 0 <= i < |rows| :: rows[i] != [] {
      ReadUndoesPrint(rows);
    } else if i :| 0 <= i < |rows| && rows[i] == [] {
      assert GuardedRows(rows)[i] == [];
    }
  }

  /** No printed cell can start a formula, and the guard adds at most one apostrophe. */
  lemma GuardedCellsAreInert(text: string)
    ensures Guarded(text) != "" ==> Guarded(text)[0] !in {'=', '+', '-', '@', '\t', '\r'}
    ensures Guarded(text) ==
            if text != "" && text[0] in {'=', '+', '-', '@', '\t', '\r'} then "'" + text else text
  {
  }
}
