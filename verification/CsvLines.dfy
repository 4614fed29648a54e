/** What the scanner of Csv accepts, for every text: the lines between line breaks outside quotations,
    where a quotation is open after an odd number of quotes. */
module CsvLines {
  import opened RobotBase
  import opened Csv

  predicate Break(c: char) { c == '\n' || c == '\r' }

  predicate OddQuotes(text: string) {
    text != "" && if text[0] == '"' then !OddQuotes(text[1..]) else OddQuotes(text[1..])
  }

  /** Where the first line ends, in a text that begins inside or outside a quotation. */
  function Cut(text: string, open: bool): (k: nat)
    ensures k <= |text|
  {
    if text == "" || (!open && Break(text[0])) then 0
    else 1 + Cut(text[1..], if text[0] == '"' then !open else open)
  }

  /** Commas outside quotations. */
  function Commas(line: string, open: bool): nat {
    if line == "" then 0
    else if line[0] == '"' then Commas(line[1..], !open)
    else (if !open && line[0] == ',' then 1 else 0) + Commas(line[1..], open)
  }

  function Fields(line: string): nat { 1 + Commas(line, false) }

  /** The text after its first line break, if there is one. */
  function Rest(text: string): (rest: string)
    requires Cut(text, false) < |text|
    ensures |rest| < |text|
  {
    var k := Cut(text, false);
    text[if text[k] == '\r' && k + 1 < |text| && text[k + 1] == '\n' then k + 2 else k + 1..]
  }

  function Lines(text: string): (lines: seq<string>)
    ensures lines != []
  {
    var k := Cut(text, false);
    if k == |text| then [text] else [text[..k]] + Lines(Rest(text))
  }

  /** A line break at the end begins no further row. */
  function RowsOf(lines: seq<string>): seq<string>
    requires lines != []
  {
    if lines[|lines| - 1] == "" then lines[..|lines| - 1] else lines
  }

  function Rows(text: string): seq<string> { RowsOf(Lines(text)) }

  /** No row is empty, all have as many fields, and no quotation is left open. */
  predicate WellShaped(text: string) {
    var lines, rows := Lines(text), Rows(text);
    && rows != [] && !OddQuotes(lines[|lines| - 1])
    && forall i | 0 <= i < |rows| :: rows[i] != "" && Fields(rows[i]) == Fields(rows[0])
  }

  // ---------------------------------------------------------------- one line

  /** The scanner after a line. */
  function Past(s: Scanner, line: string): Scanner {
    s.(columns := s.columns + Commas(line, s.quoted), filled := s.filled || line != "", quoted := s.quoted != OddQuotes(line))
  }

  /** One character on: a pair of quotes inside a quotation closes and opens it again. */
  lemma ScanOne(s: Scanner, text: string)
    requires text != "" && (s.quoted || !Break(text[0]))
    ensures var c := text[0];
            Scan(s, text) == Scan(s.(filled := true, quoted := if c == '"' then !s.quoted else s.quoted,
                                     columns := if !s.quoted && c == ',' then s.columns + 1 else s.columns), text[1..])
  {
    if text[0] == '"' && s.quoted && |text| > 1 && text[1] == '"' {
      assert text[1..][1..] == text[2..];
    }
  }

  lemma PastOne(s: Scanner, c: char, line: string)
    requires s.quoted || !Break(c)
    ensures Past(s, [c] + line) ==
            Past(s.(filled := true, quoted := if c == '"' then !s.quoted else s.quoted,
                    columns := if !s.quoted && c == ',' then s.columns + 1 else s.columns), line)
  {
    assert ([c] + line)[1..] == line;
  }

  lemma {:induction false} ScanLine(s: Scanner, text: string)
    ensures var k := Cut(text, s.quoted); Scan(s, text) == Scan(Past(s, text[..k]), text[k..])
    ensures var k := Cut(text, s.quoted); k < |text| ==> Break(text[k]) && !Past(s, text[..k]).quoted
    decreases |text|
  {
    hide Scan, Past;
    var k := Cut(text, s.quoted);
    if k > 0 {
      var c := text[0];
      var t := s.(filled := true, quoted := if c == '"' then !s.quoted else s.quoted,
                  columns := if !s.quoted && c == ',' then s.columns + 1 else s.columns);
      ScanOne(s, text);
      ScanLine(t, text[1..]);
      PastOne(s, c, text[1..][..k - 1]);
      assert text[..k] == [c] + text[1..][..k - 1] && text[1..][k - 1..] == text[k..];
    } else {
      assert text[..k] == "" && text[k..] == text;
      PastNothing(s);
    }
  }

  lemma PastNothing(s: Scanner)
    ensures Past(s, "") == s
  {}

  // ---------------------------------------------------------------- line by line

  /** What the lines that are left make of the ones before them. */
  function Judge(records: nat, width: nat, lines: seq<string>): Shape
    requires lines != []
    decreases |lines|
  {
    var line := lines[0];
    var fits := line != "" && (records > 0 ==> width == Fields(line));
    if |lines| > 1 then if fits then Judge(records + 1, Fields(line), lines[1..]) else INVALID
    else if OddQuotes(line) then INVALID
    else if line == "" then Shape(records > 0, width, records)
    else if fits then Shape(true, Fields(line), records + 1) else INVALID
  }

  function Concluded(s: Option<Scanner>): Shape { if s.None? then INVALID else Conclude(s.value) }

  /** The end of a line inside the text. */
  lemma ScanBreak(s: Scanner, text: string)
    requires text != "" && Break(text[0]) && !s.quoted
    ensures var rest := text[if text[0] == '\r' && 1 < |text| && text[1] == '\n' then 2 else 1..];
            Scan(s, text) == if Finish(s).None? then None else Scan(Finish(s).value, rest)
  {}

  lemma FinishLine(records: nat, width: nat, line: string)
    ensures var s := Past(Scanner(1, false, false, records, width), line);
            && s.columns == Fields(line) && s.filled == (line != "") && s.quoted == OddQuotes(line)
            && (line == "" ==> Fields(line) == 1) && s.records == records && s.width == width
            && Finish(s) == if line != "" && (records > 0 ==> width == Fields(line))
                            then Some(Scanner(1, s.quoted, false, records + 1, Fields(line))) else None
  {}

  lemma {:induction false} ScanLines(records: nat, width: nat, text: string)
    ensures Concluded(Scan(Scanner(1, false, false, records, width), text)) == Judge(records, width, Lines(text))
    decreases |text|
  {
    hide Scan, Past, Fields, OddQuotes;
    var s, k := Scanner(1, false, false, records, width), Cut(text, false);
    ScanLine(s, text);
    FinishLine(records, width, text[..k]);
    var t := Past(s, text[..k]);
    if k == |text| {
      assert text[..k] == text && text[k..] == "";
      ScanEnd(t);
    } else {
      ScanBreak(t, text[k..]);
      assert Rest(text) == text[k..][if text[k] == '\r' && k + 1 < |text| && text[k + 1] == '\n' then 2 else 1..];
      ScanLines(records + 1, Fields(text[..k]), Rest(text));
      assert Lines(text)[1..] == Lines(Rest(text));
    }
  }

  lemma ScanEnd(s: Scanner)
    ensures Scan(s, "") == Some(s)
  {}

  // ---------------------------------------------------------------- all lines

  /** The rows among these lines fit those before them. */
  predicate Fit(records: nat, width: nat, rows: seq<string>) {
    forall i | 0 <= i < |rows| :: rows[i] != "" && Fields(rows[i]) == if records > 0 then width else Fields(rows[0])
  }

  lemma {:induction false} JudgedExactly(records: nat, width: nat, lines: seq<string>)
    requires lines != []
    ensures var rows := RowsOf(lines);
            Judge(records, width, lines) ==
            if OddQuotes(lines[|lines| - 1]) || !Fit(records, width, rows) then INVALID
            else if rows == [] then Shape(records > 0, width, records)
            else Shape(true, Fields(rows[0]), records + |rows|)
    decreases |lines|
  {
    hide Fields, OddQuotes;
    if |lines| > 1 {
      var line, rows := lines[0], RowsOf(lines);
      JudgedExactly(records + 1, Fields(line), lines[1..]);
      assert rows == [line] + RowsOf(lines[1..]);
      assert Fit(records, width, rows) <==>
        line != "" && (records > 0 ==> width == Fields(line)) && Fit(records + 1, Fields(line), RowsOf(lines[1..]));
    }
  }

  /** A text is accepted exactly if it is well shaped, with its rows and their fields counted. */
  lemma ShapeExactly(text: string)
    ensures Analyze(text) == if WellShaped(text) then Shape(true, Fields(Rows(text)[0]), |Rows(text)|) else INVALID
  {
    hide Scan, Fields;
    ScanLines(0, 0, text);
    JudgedExactly(0, 0, Lines(text));
  }
}
