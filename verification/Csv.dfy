/** The CSV writer and shape checker of runtime_logger.cpp, which agree on the records of
    section 2 of RFC 4180. */
module Csv {
  import opened RobotBase

  predicate Special(c: char) { c == ',' || c == '"' || c == '\r' || c == '\n' }

  predicate NeedsQuotes(value: string) { exists i :: 0 <= i < |value| && Special(value[i]) }

  /** Every quote written twice. */
  function Doubled(value: string): string {
    if value == "" then "" else (if value[0] == '"' then "\"\"" else [value[0]]) + Doubled(value[1..])
  }

  function Escape(value: string): string {
    if NeedsQuotes(value) then "\"" + Doubled(value) + "\"" else value
  }

  method HasSpecial(value: string) returns (found: bool)
    ensures found == NeedsQuotes(value)
  {
    for i := 0 to |value|
      invariant forall k | 0 <= k < i :: !Special(value[k])
    {
      if Special(value[i]) {
        return true;
      }
    }
    found := false;
  }

  lemma {:induction false} DoubledAppend(value: string, c: char)
    ensures Doubled(value + [c]) == Doubled(value) + (if c == '"' then "\"\"" else [c])
  {
    if value == "" {
    } else {
      assert (value + [c])[1..] == value[1..] + [c];
      DoubledAppend(value[1..], c);
    }
  }

  method CsvEscape(value: string) returns (output: string)
    ensures output == Escape(value)
  {
    var special := HasSpecial(value);
    if !special {
      return value;
    }
    output := "\"";
    for i := 0 to |value|
      invariant output == "\"" + Doubled(value[..i])
    {
      assert value[..i + 1] == value[..i] + [value[i]];
      DoubledAppend(value[..i], value[i]);
      if value[i] == '"' {
        output := output + "\"";
      }
      output := output + [value[i]];
    }
    assert value[..|value|] == value;
    output := output + "\"";
  }

  // ---------------------------------------------------------------- escaping loses nothing

  function Undoubled(text: string): string {
    if text == "" then ""
    else if text[0] == '"' && |text| > 1 && text[1] == '"' then "\"" + Undoubled(text[2..])
    else [text[0]] + Undoubled(text[1..])
  }

  function Unescape(text: string): string {
    if |text| >= 2 && text[0] == '"' then Undoubled(text[1..|text| - 1]) else text
  }

  lemma {:induction false} UndoubledDoubled(value: string)
    ensures Undoubled(Doubled(value)) == value
  {
    if value != "" {
      UndoubledDoubled(value[1..]);
      var head := if value[0] == '"' then "\"\"" else [value[0]];
      assert Doubled(value)[|head|..] == Doubled(value[1..]);
      assert [value[0]] + value[1..] == value;
    }
  }

  /** Escaped fields can be read back. */
  lemma EscapeRoundTrip(value: string)
    ensures Unescape(Escape(value)) == value
  {
    UndoubledDoubled(value);
    var escaped := Escape(value);
    if NeedsQuotes(value) {
      assert escaped[1..|escaped| - 1] == Doubled(value);
    } else if |value| >= 2 {
      assert !Special(value[0]);
    }
  }

  // ---------------------------------------------------------------- shape

  datatype Shape = Shape(valid: bool, columns: nat, records: nat)

  const INVALID := Shape(false, 0, 0)

  /** Where the scan is: columns of the present record, whether a quotation is open, whether the
      record holds anything, and what the finished records were like. */
  datatype Scanner = Scanner(columns: nat, quoted: bool, filled: bool, records: nat, width: nat)

  const START := Scanner(1, false, false, 0, 0)

  /** A record must not be empty, and must be as wide as the first. */
  function Finish(s: Scanner): Option<Scanner> {
    if !s.filled && s.columns == 1 then None
    else if s.records > 0 && s.width != s.columns then None
    else Some(Scanner(1, s.quoted, false, s.records + 1, s.columns))
  }

  function Scan(s: Scanner, text: string): Option<Scanner>
    decreases |text|
  {
    if text == "" then Some(s)
    else if text[0] == '"' then
      if s.quoted && |text| > 1 && text[1] == '"' then Scan(s.(filled := true), text[2..])
      else Scan(s.(filled := true, quoted := !s.quoted), text[1..])
    else if !s.quoted && text[0] == ',' then Scan(s.(columns := s.columns + 1, filled := true), text[1..])
    else if !s.quoted && (text[0] == '\n' || text[0] == '\r') then
      match Finish(s)
      case None => None
      case Some(t) => Scan(t, text[if text[0] == '\r' && |text| > 1 && text[1] == '\n' then 2 else 1..])
    else Scan(s.(filled := true), text[1..])
  }

  /** The end of the text ends a record that has begun. */
  function Conclude(s: Scanner): Shape {
    if s.quoted then INVALID
    else if s.filled || s.columns > 1 then
      match Finish(s)
      case None => INVALID
      case Some(t) => Shape(true, t.width, t.records)
    else if s.records > 0 then Shape(true, s.width, s.records) else Shape(false, s.width, 0)
  }

  function Analyze(text: string): Shape {
    if text == "" then INVALID
    else
      match Scan(START, text)
      case None => INVALID
      case Some(s) => Conclude(s)
  }

  method FinishRecord(s: Scanner) returns (ok: bool, t: Scanner)
    ensures ok == Finish(s).Some? && (ok ==> t == Finish(s).value)
  {
    ok, t := false, s;
    if !s.filled && s.columns == 1 {
      return;
    }
    if s.records == 0 {
      t := t.(width := s.columns);
    } else if s.width != s.columns {
      return;
    }
    ok, t := true, t.(records := s.records + 1, columns := 1, filled := false);
  }

  method AnalyzeCsv(text: string) returns (shape: Shape)
    ensures shape == Analyze(text)
  {
    if text == "" {
      return INVALID;
    }
    var s, i, ok := START, 0, true;
    assert text[0..] == text;
    while i < |text|
      invariant i <= |text| && Scan(s, text[i..]) == Scan(START, text)
    {
      var c := text[i];
      ghost var rest := text[i..];
      assert rest[1..] == text[i + 1..] && (i + 1 < |text| ==> rest[1] == text[i + 1] && rest[2..] == text[i + 2..]);
      if c == '"' {
        s := s.(filled := true);
        if s.quoted && i + 1 < |text| && text[i + 1] == '"' {
          i := i + 1;
        } else {
          s := s.(quoted := !s.quoted);
        }
      } else if !s.quoted && c == ',' {
        s := s.(columns := s.columns + 1, filled := true);
      } else if !s.quoted && (c == '\n' || c == '\r') {
        ok, s := FinishRecord(s);
        if !ok {
          return INVALID;
        }
        if c == '\r' && i + 1 < |text| && text[i + 1] == '\n' {
          i := i + 1;
        }
      } else {
        s := s.(filled := true);
      }
      i := i + 1;
    }
    assert text[i..] == "";
    if s.quoted {
      return INVALID;
    }
    if s.filled || s.columns > 1 {
      ok, s := FinishRecord(s);
      if !ok {
        return INVALID;
      }
    }
    shape := Shape(s.records > 0, s.width, s.records);
  }

  // ---------------------------------------------------------------- printer and parser

  /** A field is followed by nothing, a comma or a line break. */
  predicate Delimited(rest: string) { rest == "" || rest[0] == ',' || rest[0] == '\n' || rest[0] == '\r' }

  lemma {:induction false} ScanPlain(s: Scanner, value: string, rest: string)
    requires !s.quoted && forall i | 0 <= i < |value| :: !Special(value[i])
    ensures Scan(s, value + rest) == Scan(s.(filled := s.filled || value != ""), rest)
    decreases |value|
  {
    if value == "" {
      assert value + rest == rest;
    } else {
      assert (value + rest)[1..] == value[1..] + rest;
      ScanPlain(s.(filled := true), value[1..], rest);
    }
  }

  lemma {:induction false} ScanQuoted(s: Scanner, value: string, rest: string)
    requires s.quoted && s.filled && Delimited(rest)
    ensures Scan(s, Doubled(value) + "\"" + rest) == Scan(s.(quoted := false), rest)
    decreases |value|
  {
    if value == "" {
      assert Doubled(value) + "\"" + rest == "\"" + rest;
      assert ("\"" + rest)[1..] == rest;
    } else {
      var tail := Doubled(value[1..]) + "\"" + rest;
      var head := if value[0] == '"' then "\"\"" else [value[0]];
      assert Doubled(value) + "\"" + rest == head + tail;
      assert (head + tail)[|head|..] == tail;
      ScanQuoted(s, value[1..], rest);
    }
  }

  /** Whatever a field contains, its escaped form is scanned as one field. */
  lemma ScanField(s: Scanner, value: string, rest: string)
    requires !s.quoted && Delimited(rest)
    ensures Scan(s, Escape(value) + rest) == Scan(s.(filled := s.filled || value != ""), rest)
  {
    if NeedsQuotes(value) {
      var tail := Doubled(value) + "\"" + rest;
      assert Escape(value) + rest == "\"" + tail;
      assert ("\"" + tail)[1..] == tail;
      ScanQuoted(s.(filled := true, quoted := true), value, rest);
    } else {
      ScanPlain(s, value, rest);
    }
  }

  /** Escaped fields joined by commas. */
  function Row(fields: seq<string>): string
    requires fields != []
  {
    if |fields| == 1 then Escape(fields[0]) else Escape(fields[0]) + "," + Row(fields[1..])
  }

  predicate LoneEmpty(fields: seq<string>) { fields == [""] }

  lemma {:induction false} ScanRow(s: Scanner, fields: seq<string>, rest: string)
    requires !s.quoted && fields != [] && Delimited(rest)
    ensures Scan(s, Row(fields) + rest)
         == Scan(s.(columns := s.columns + |fields| - 1, filled := s.filled || !LoneEmpty(fields)), rest)
    decreases |fields|
  {
    if |fields| == 1 {
      ScanField(s, fields[0], rest);
    } else {
      var tail := Row(fields[1..]) + rest;
      assert Row(fields) + rest == Escape(fields[0]) + ("," + tail);
      ScanField(s, fields[0], "," + tail);
      assert ("," + tail)[1..] == tail;
      ScanRow(s.(columns := s.columns + 1, filled := true), fields[1..], rest);
    }
  }

  /** Rows joined by line breaks. */
  function Text(rows: seq<seq<string>>): string
    requires rows != [] && forall i | 0 <= i < |rows| :: rows[i] != []
  {
    if |rows| == 1 then Row(rows[0]) else Row(rows[0]) + "\n" + Text(rows[1..])
  }

  predicate Rectangular(rows: seq<seq<string>>, width: nat) {
    width > 0 && rows != [] && forall i | 0 <= i < |rows| :: |rows[i]| == width
  }

  /** The scan of the rows that follow some finished ones of the same width. */
  lemma {:induction false} ScanText(s: Scanner, rows: seq<seq<string>>, width: nat)
    requires Rectangular(rows, width) && s == Scanner(1, false, false, s.records, s.width)
    requires s.records > 0 ==> s.width == width
    requires forall i | 0 <= i < |rows| - 1 :: !LoneEmpty(rows[i])
    ensures var last := rows[|rows| - 1];
            Scan(s, Text(rows))
            == Some(Scanner(width, false, !LoneEmpty(last), s.records + |rows| - 1,
                            if |rows| > 1 then width else s.width))
    decreases |rows|
  {
    if |rows| == 1 {
      ScanRow(s, rows[0], "");
      assert Row(rows[0]) + "" == Row(rows[0]);
    } else {
      var tail := Text(rows[1..]);
      assert Text(rows) == Row(rows[0]) + ("\n" + tail);
      ScanRow(s, rows[0], "\n" + tail);
      assert ("\n" + tail)[1..] == tail;
      ScanText(Scanner(1, false, false, s.records + 1, width), rows[1..], width);
      assert rows[1..][|rows| - 2] == rows[|rows| - 1];
    }
  }

  /** Rows of equal width, with any quotes, commas and line breaks inside their fields, are
      recognised as exactly that many records of that many columns. */
  lemma RowsAreRecords(rows: seq<seq<string>>, width: nat)
    requires Rectangular(rows, width) && forall i | 0 <= i < |rows| :: !LoneEmpty(rows[i])
    ensures Analyze(Text(rows)) == Shape(true, width, |rows|)
  {
    ScanText(START, rows, width);
    TextNotEmpty(rows, width);
  }

  lemma TextNotEmpty(rows: seq<seq<string>>, width: nat)
    requires Rectangular(rows, width) && !LoneEmpty(rows[0])
    ensures Text(rows) != ""
  {
    RowNotEmpty(rows[0]);
  }

  lemma RowNotEmpty(fields: seq<string>)
    requires fields != [] && !LoneEmpty(fields)
    ensures Row(fields) != ""
  {
    if |fields| == 1 {
      assert fields == [fields[0]];
    }
  }

  /** The one exception: a lone empty field is printed as nothing, which is no record. */
  lemma {:induction false} LoneEmptyBreaks(s: Scanner, rows: seq<seq<string>>)
    requires Rectangular(rows, 1) && s == Scanner(1, false, false, s.records, s.width)
    requires s.records > 0 ==> s.width == 1
    requires exists i :: 0 <= i < |rows| && LoneEmpty(rows[i])
    ensures Scan(s, Text(rows)).None? ||
            Scan(s, Text(rows)) == Some(Scanner(1, false, false, s.records + |rows| - 1, if |rows| > 1 then 1 else s.width))
    decreases |rows|
  {
    if |rows| == 1 {
      ScanText(s, rows, 1);
    } else {
      var tail := Text(rows[1..]);
      assert Text(rows) == Row(rows[0]) + ("\n" + tail);
      ScanRow(s, rows[0], "\n" + tail);
      assert ("\n" + tail)[1..] == tail;
      if !LoneEmpty(rows[0]) {
        var i :| 0 <= i < |rows| && LoneEmpty(rows[i]);
        assert LoneEmpty(rows[1..][i - 1]);
        LoneEmptyBreaks(Scanner(1, false, false, s.records + 1, 1), rows[1..]);
      }
    }
  }

  /** So printing and checking agree exactly on the rows without a lone empty field. */
  lemma AgreeExactly(rows: seq<seq<string>>, width: nat)
    requires Rectangular(rows, width)
    ensures Analyze(Text(rows)) == Shape(true, width, |rows|) <==> forall i | 0 <= i < |rows| :: !LoneEmpty(rows[i])
  {
    if forall i | 0 <= i < |rows| :: !LoneEmpty(rows[i]) {
      RowsAreRecords(rows, width);
    } else {
      LoneEmptyBreaks(START, rows);
    }
  }
}
