// The roster CSV scanner (src/corporate/roster-csv.ts, parseCsv) and the
// quoting printer of section 2 of RFC 4180 that it inverts.

module Csv {
  import opened Seqs
  import opened Text

  type Row = seq<string>
  type Table = seq<Row>

  const BOM := '\U{FEFF}'

  predicate IsBlankRow(row: Row) {
    forall cell :: cell in row ==> IsBlank(cell)
  }

  // What a finished row contributes: rows of blank cells are dropped.
  function Keep(row: Row): Table {
    if IsBlankRow(row) then [] else [row]
  }

  // ── The language: an automaton that reads one character at a time ──

  // QuoteSeen: a quote inside a quoted cell, closing or half of a doubled one.
  // AfterCR: a row just ended in CR, so an LF belongs to the same line end.
  datatype Mode = Plain | AfterCR | Quoted | QuoteSeen

  datatype Scanner = Scanner(rows: Table, row: Row, cell: string, mode: Mode) {
    function PushRow(mode': Mode): Scanner {
      Scanner(rows + Keep(row + [cell]), [], "", mode')
    }

    function Finish(): Table {
      if cell != "" || row != [] then PushRow(Plain).rows else rows
    }
  }

  function PlainStep(s: Scanner, ch: char): Scanner {
    if ch == '"' && s.cell == "" then s.(mode := Quoted)
    else if ch == ',' then s.(row := s.row + [s.cell], cell := "", mode := Plain)
    else if ch == '\r' then s.PushRow(AfterCR)
    else if ch == '\n' then s.PushRow(Plain)
    else s.(cell := s.cell + [ch], mode := Plain)
  }

  function Step(s: Scanner, ch: char): Scanner {
    match s.mode
    case Plain => PlainStep(s, ch)
    case AfterCR => if ch == '\n' then s.(mode := Plain) else PlainStep(s, ch)
    case Quoted => if ch == '"' then s.(mode := QuoteSeen) else s.(cell := s.cell + [ch])
    case QuoteSeen => if ch == '"' then s.(cell := s.cell + [ch], mode := Quoted) else PlainStep(s, ch)
  }

  function Run(text: string, s: Scanner): Scanner {
    if text == "" then s
    else
      var n := |text| - 1;
      Step(Run(text[..n], s), text[n])
  }

  const Start := Scanner([], [], "", Plain)

  function WithoutBom(text: string): string {
    if text != "" && text[0] == BOM then text[1..] else text
  }

  function Parse(text: string): Table {
    Run(WithoutBom(text), Start).Finish()
  }

  // ── The scanner: a loop with one character of lookahead ───────────

  // The loop's variables at position i describe the automaton after i
  // characters. Lookahead settles at once what the automaton leaves open: a
  // quote not followed by a quote has closed the cell, and a CR not followed
  // by an LF has ended the line.
  predicate Describes(s: Scanner, rows: Table, row: Row, cell: string, inQuotes: bool, src: string, i: nat) {
    && s.rows == rows && s.row == row && s.cell == cell
    && (inQuotes <==> s.mode.Quoted?)
    && (s.mode.QuoteSeen? && i < |src| ==> src[i] != '"')
    && (s.mode.AfterCR? && i < |src| ==> src[i] != '\n')
  }

  lemma RunOneMore(src: string, i: nat)
    requires i < |src|
    ensures Run(src[..i + 1], Start) == Step(Run(src[..i], Start), src[i])
  {
    assert src[..i + 1][..i] == src[..i];
  }

  // The loop terminates and reads exactly the language.
  method ParseCsv(text: string) returns (rows: Table)
    ensures rows == Parse(text)
  {
    var src := WithoutBom(text);
    rows := [];
    var row: Row := [];
    var cell, inQuotes, i := "", false, 0;
    while i < |src|
      invariant 0 <= i <= |src|
      invariant Describes(Run(src[..i], Start), rows, row, cell, inQuotes, src, i)
    {
      var ch := src[i];
      var next := if i + 1 < |src| then src[i + 1] else ' ';
      RunOneMore(src, i);
      if i + 1 < |src| {
        RunOneMore(src, i + 1);
      }
      if inQuotes {
        if ch == '"' && next == '"' {
          cell, i := cell + "\"", i + 2;
        } else if ch == '"' {
          inQuotes, i := false, i + 1;
        } else {
          cell, i := cell + [ch], i + 1;
        }
      } else if ch == '"' && cell == "" {
        inQuotes, i := true, i + 1;
      } else if ch == ',' {
        row, cell, i := row + [cell], "", i + 1;
      } else if ch == '\r' {
        i := if next == '\n' then i + 2 else i + 1;
        rows, row, cell := rows + Keep(row + [cell]), [], "";
      } else if ch == '\n' {
        rows, row, cell, i := rows + Keep(row + [cell]), [], "", i + 1;
      } else {
        cell, i := cell + [ch], i + 1;
      }
    }
    assert src[..i] == src;
    if cell != "" || row != [] {
      rows := rows + Keep(row + [cell]);
    }
  }

  // ── The printer ───────────────────────────────────────────────────

  datatype LineEnd = LF | CR | CRLF

  function EndText(e: LineEnd): string {
    match e
    case LF => "\n"
    case CR => "\r"
    case CRLF => "\r\n"
  }

  // Every quote doubled.
  function Escape(cell: string): string {
    if cell == "" then ""
    else
      var n := |cell| - 1;
      Escape(cell[..n]) + if cell[n] == '"' then "\"\"" else [cell[n]]
  }

  function Quote(cell: string): string {
    "\"" + Escape(cell) + "\""
  }

  function PrintRow(row: Row): string
    requires row != []
  {
    if |row| == 1 then Quote(row[0]) else Quote(row[0]) + "," + PrintRow(row[1..])
  }

  // Section 2 of RFC 4180: a record has at least one field.
  predicate WellFormed(table: Table) {
    forall i :: 0 <= i < |table| ==> table[i] != []
  }

  // Each row with its own line end; the last one may go without.
  function PrintRows(table: Table, ends: seq<LineEnd>, finalEnd: bool): string
    requires WellFormed(table) && |ends| == |table|
  {
    if table == [] then ""
    else if |table| == 1 && !finalEnd then PrintRow(table[0])
    else PrintRow(table[0]) + EndText(ends[0]) + PrintRows(table[1..], ends[1..], finalEnd)
  }

  function Print(table: Table, ends: seq<LineEnd>, finalEnd: bool, bom: bool): string
    requires WellFormed(table) && |ends| == |table|
  {
    (if bom then [BOM] else "") + PrintRows(table, ends, finalEnd)
  }

  function NonBlank(table: Table): Table {
    if table == [] then [] else Keep(table[0]) + NonBlank(table[1..])
  }

  // ── The scanner inverts the printer ───────────────────────────────

  lemma {:induction false} RunConcat(a: string, b: string, s: Scanner)
    ensures Run(a + b, s) == Run(b, Run(a, s))
  {
    if b == "" {
      assert a + b == a;
    } else {
      var n := |b| - 1;
      assert (a + b)[..|a| + n] == a + b[..n];
      RunConcat(a, b[..n], s);
    }
  }

  lemma RunOne(c: char, s: Scanner)
    ensures Run([c], s) == Step(s, c)
  {
    assert [c][..0] == "";
  }

  lemma RunTwo(c: char, d: char, s: Scanner)
    ensures Run([c, d], s) == Step(Step(s, c), d)
  {
    RunOne(c, s);
    assert [c, d][..1] == [c];
  }

  lemma {:induction false} RunEscape(cell: string, s: Scanner)
    requires s.mode.Quoted?
    ensures Run(Escape(cell), s) == s.(cell := s.cell + cell)
  {
    if cell == "" {
      EmptyRight(s.cell);
    } else {
      var n := |cell| - 1;
      var last := if cell[n] == '"' then "\"\"" else [cell[n]];
      RunEscape(cell[..n], s);
      RunConcat(Escape(cell[..n]), last, s);
      var before := s.(cell := s.cell + cell[..n]);
      RunOne(cell[n], before);
      RunTwo('"', '"', before);
      SplitLast(cell);
      Assoc(s.cell, cell[..n], [cell[n]]);
    }
  }

  // Ready for the first character of a cell.
  predicate AtCell(s: Scanner) {
    s.cell == "" && (s.mode.Plain? || s.mode.AfterCR?)
  }

  lemma RunQuote(cell: string, s: Scanner)
    requires AtCell(s)
    ensures Run(Quote(cell), s) == s.(cell := cell, mode := QuoteSeen)
  {
    var inside := s.(mode := Quoted);
    RunOne('"', s);
    RunConcat("\"", Escape(cell), s);
    RunEscape(cell, inside);
    EmptyLeft(cell);
    RunConcat("\"" + Escape(cell), "\"", s);
    RunOne('"', inside.(cell := cell));
  }

  lemma RunQuoteComma(cell: string, s: Scanner)
    requires AtCell(s)
    ensures Run(Quote(cell) + ",", s) == Scanner(s.rows, s.row + [cell], "", Plain)
  {
    RunQuote(cell, s);
    RunConcat(Quote(cell), ",", s);
    RunOne(',', s.(cell := cell, mode := QuoteSeen));
  }

  lemma {:induction false} RunRow(row: Row, s: Scanner)
    requires row != [] && AtCell(s)
    ensures Run(PrintRow(row), s)
         == Scanner(s.rows, s.row + row[..|row| - 1], row[|row| - 1], QuoteSeen)
    decreases |row|
  {
    if |row| == 1 {
      RunQuote(row[0], s);
      EmptyRight(s.row);
    } else {
      var first, others := Quote(row[0]) + ",", PrintRow(row[1..]);
      assert PrintRow(row) == first + others;
      RunQuoteComma(row[0], s);
      RunConcat(first, others, s);
      var next := Scanner(s.rows, s.row + [row[0]], "", Plain);
      RunRow(row[1..], next);
      ShiftInit(s.row, row);
    }
  }

  lemma RunEnd(e: LineEnd, s: Scanner)
    requires s.mode.QuoteSeen?
    ensures Run(EndText(e), s) == s.PushRow(if e.CR? then AfterCR else Plain)
  {
    match e
    case LF => RunOne('\n', s);
    case CR => RunOne('\r', s);
    case CRLF => RunTwo('\r', '\n', s);
  }

  // Between two rows.
  function Fresh(rows: Table, mode: Mode): Scanner {
    Scanner(rows, [], "", mode)
  }

  lemma RunLine(row: Row, e: LineEnd, s: Scanner)
    requires row != [] && AtCell(s) && s.row == []
    ensures Run(PrintRow(row) + EndText(e), s) == Fresh(s.rows + Keep(row), if e.CR? then AfterCR else Plain)
  {
    RunRow(row, s);
    RunConcat(PrintRow(row), EndText(e), s);
    RunEnd(e, Run(PrintRow(row), s));
    EmptyLeft(row[..|row| - 1]);
    SplitLast(row);
  }

  lemma RunLastRow(row: Row, s: Scanner)
    requires row != [] && AtCell(s) && s.row == []
    ensures Run(PrintRow(row), s).Finish() == s.rows + Keep(row)
  {
    RunRow(row, s);
    var done := Run(PrintRow(row), s);
    EmptyLeft(row[..|row| - 1]);
    SplitLast(row);
    if done.cell == "" && done.row == [] {
      assert row == [""] && IsBlank("") && Keep(row) == [];
    }
  }

  lemma {:induction false} RunRows(table: Table, ends: seq<LineEnd>, finalEnd: bool, s: Scanner)
    requires WellFormed(table) && |ends| == |table|
    requires AtCell(s) && s.row == []
    ensures Run(PrintRows(table, ends, finalEnd), s).Finish() == s.rows + NonBlank(table)
    decreases |table|
  {
    if table == [] {
    } else if |table| == 1 && !finalEnd {
      RunLastRow(table[0], s);
      EmptyRight(Keep(table[0]));
    } else {
      var line, below := PrintRow(table[0]) + EndText(ends[0]), PrintRows(table[1..], ends[1..], finalEnd);
      assert PrintRows(table, ends, finalEnd) == line + below;
      RunLine(table[0], ends[0], s);
      RunConcat(line, below, s);
      var next := Run(line, s);
      RunRows(table[1..], ends[1..], finalEnd, next);
      assert NonBlank(table) == Keep(table[0]) + NonBlank(table[1..]);
      Assoc(s.rows, Keep(table[0]), NonBlank(table[1..]));
    }
  }

  lemma PrintRowStartsWithQuote(row: Row)
    requires row != []
    ensures PrintRow(row) != "" && PrintRow(row)[0] == '"'
  {
  }

  // Parsing undoes printing, whatever the line ends, with or without a byte
  // order mark or a final line end: only all-blank rows are lost.
  lemma ParseInvertsPrint(table: Table, ends: seq<LineEnd>, finalEnd: bool, bom: bool)
    requires WellFormed(table) && |ends| == |table|
    ensures Parse(Print(table, ends, finalEnd, bom)) == NonBlank(table)
  {
    var body := PrintRows(table, ends, finalEnd);
    if table != [] {
      PrintRowStartsWithQuote(table[0]);
    }
    assert WithoutBom(if bom then [BOM] + body else "" + body) == body;
    assert "" + body == body;
    RunRows(table, ends, finalEnd, Start);
  }

  // ── Cells without quotes ──────────────────────────────────────────

  // A cell that may go without quotes: it holds no comma and no line end, and
  // does not begin with a quote. Quotes further in are its own.
  predicate Bare(cell: string) {
    && (cell == "" || cell[0] != '"')
    && forall i :: 0 <= i < |cell| ==> cell[i] != ',' && cell[i] != '\r' && cell[i] != '\n'
  }

  // A cell as somebody may have written it: bare where it can be, or its first
  // characters quoted and what can be bare behind the closing quote, or quoted.
  datatype Style = AsIs | QuotedUpTo(count: nat) | InQuotes

  function Styled(cell: string, style: Style): string {
    match style
    case AsIs => if Bare(cell) then cell else Quote(cell)
    case QuotedUpTo(k) => if k <= |cell| && Bare(cell[k..]) then Quote(cell[..k]) + cell[k..] else Quote(cell)
    case InQuotes => Quote(cell)
  }

  function StyledRow(row: Row, styles: seq<Style>): string
    requires row != [] && |styles| == |row|
  {
    if |row| == 1 then Styled(row[0], styles[0])
    else Styled(row[0], styles[0]) + "," + StyledRow(row[1..], styles[1..])
  }

  predicate StylesFit(table: Table, styles: seq<seq<Style>>) {
    |styles| == |table| && forall i :: 0 <= i < |table| ==> |styles[i]| == |table[i]|
  }

  function StyledRows(table: Table, styles: seq<seq<Style>>, ends: seq<LineEnd>, finalEnd: bool): string
    requires WellFormed(table) && StylesFit(table, styles) && |ends| == |table|
  {
    if table == [] then ""
    else if |table| == 1 && !finalEnd then StyledRow(table[0], styles[0])
    else StyledRow(table[0], styles[0]) + EndText(ends[0]) + StyledRows(table[1..], styles[1..], ends[1..], finalEnd)
  }

  lemma {:induction false} RunBare(cell: string, s: Scanner)
    requires Bare(cell) && AtCell(s)
    ensures Run(cell, s) == s.(cell := cell, mode := if cell == "" then s.mode else Plain)
  {
    if cell != "" {
      var n := |cell| - 1;
      RunBare(cell[..n], s);
      SplitLast(cell);
    }
  }

  // What stands behind a closing quote is read as it is.
  lemma {:induction false} RunBehind(rest: string, s: Scanner)
    requires Bare(rest) && s.mode.QuoteSeen?
    ensures Run(rest, s) == s.(cell := s.cell + rest, mode := if rest == "" then QuoteSeen else Plain)
  {
    if rest == "" {
      EmptyRight(s.cell);
    } else {
      var n := |rest| - 1;
      RunBehind(rest[..n], s);
      SplitLast(rest);
      Assoc(s.cell, rest[..n], [rest[n]]);
    }
  }

  // How a cell may end: closed, or bare, or empty right after a line end.
  predicate Closed(mode: Mode, s: Scanner, cell: string) {
    mode.QuoteSeen? || mode.Plain? || (mode.AfterCR? && s.mode.AfterCR? && cell == "")
  }

  lemma RunStyled(cell: string, style: Style, s: Scanner) returns (mode: Mode)
    requires AtCell(s)
    ensures Closed(mode, s, cell) && Run(Styled(cell, style), s) == s.(cell := cell, mode := mode)
  {
    if style.AsIs? && Bare(cell) {
      mode := if cell == "" then s.mode else Plain;
      RunBare(cell, s);
    } else if style.QuotedUpTo? && style.count <= |cell| && Bare(cell[style.count..]) {
      var k := style.count;
      mode := if k == |cell| then QuoteSeen else Plain;
      RunQuote(cell[..k], s);
      RunConcat(Quote(cell[..k]), cell[k..], s);
      RunBehind(cell[k..], s.(cell := cell[..k], mode := QuoteSeen));
      assert cell[..k] + cell[k..] == cell;
    } else {
      mode := QuoteSeen;
      RunQuote(cell, s);
    }
  }

  lemma RunStyledComma(cell: string, style: Style, s: Scanner)
    requires AtCell(s)
    ensures Run(Styled(cell, style) + ",", s) == Scanner(s.rows, s.row + [cell], "", Plain)
  {
    var mode := RunStyled(cell, style, s);
    RunConcat(Styled(cell, style), ",", s);
    RunOne(',', s.(cell := cell, mode := mode));
  }

  lemma {:induction false} RunStyledRow(row: Row, styles: seq<Style>, s: Scanner) returns (mode: Mode)
    requires row != [] && |styles| == |row| && AtCell(s)
    ensures Run(StyledRow(row, styles), s) == Scanner(s.rows, s.row + row[..|row| - 1], row[|row| - 1], mode)
    ensures mode.QuoteSeen? || mode.Plain? || (mode.AfterCR? && row == [""])
    decreases |row|
  {
    if |row| == 1 {
      mode := RunStyled(row[0], styles[0], s);
      EmptyRight(s.row);
    } else {
      var first, others := Styled(row[0], styles[0]) + ",", StyledRow(row[1..], styles[1..]);
      assert StyledRow(row, styles) == first + others;
      RunStyledComma(row[0], styles[0], s);
      RunConcat(first, others, s);
      var next := Scanner(s.rows, s.row + [row[0]], "", Plain);
      mode := RunStyledRow(row[1..], styles[1..], next);
      if mode.AfterCR? {
        PlainStaysPlain(row[1..], styles[1..], next);
      }
      ShiftInit(s.row, row);
    }
  }

  // From the plain mode a row never ends right after a line end.
  lemma PlainStaysPlain(row: Row, styles: seq<Style>, s: Scanner)
    requires row == [""] && |styles| == 1 && AtCell(s) && s.mode.Plain?
    ensures !Run(StyledRow(row, styles), s).mode.AfterCR?
  {
    var mode := RunStyled(row[0], styles[0], s);
  }

  lemma RunStyledEnd(e: LineEnd, s: Scanner)
    requires s.mode.QuoteSeen? || s.mode.Plain? || (s.mode.AfterCR? && s.row == [] && s.cell == "")
    ensures AtCell(Run(EndText(e), s)) && Run(EndText(e), s).row == []
    ensures Run(EndText(e), s).rows == s.rows + Keep(s.row + [s.cell])
  {
    assert s.mode.AfterCR? ==> Keep(s.row + [s.cell]) == [] && s.rows + [] == s.rows;
    match e
    case LF => RunOne('\n', s);
    case CR => RunOne('\r', s);
    case CRLF => RunTwo('\r', '\n', s);
  }

  lemma RunStyledLine(row: Row, styles: seq<Style>, e: LineEnd, s: Scanner)
    requires row != [] && |styles| == |row| && AtCell(s) && s.row == []
    ensures
      var after := Run(StyledRow(row, styles) + EndText(e), s);
      AtCell(after) && after.row == [] && after.rows == s.rows + Keep(row)
  {
    var mode := RunStyledRow(row, styles, s);
    RunConcat(StyledRow(row, styles), EndText(e), s);
    EmptyLeft(row[..|row| - 1]);
    SplitLast(row);
    RunStyledEnd(e, Run(StyledRow(row, styles), s));
  }

  lemma RunStyledLastRow(row: Row, styles: seq<Style>, s: Scanner)
    requires row != [] && |styles| == |row| && AtCell(s) && s.row == []
    ensures Run(StyledRow(row, styles), s).Finish() == s.rows + Keep(row)
  {
    var mode := RunStyledRow(row, styles, s);
    var done := Run(StyledRow(row, styles), s);
    EmptyLeft(row[..|row| - 1]);
    SplitLast(row);
    if done.cell == "" && done.row == [] {
      assert row == [""] && IsBlank("") && Keep(row) == [];
    }
  }

  lemma {:induction false} RunStyledRows(
    table: Table, styles: seq<seq<Style>>, ends: seq<LineEnd>, finalEnd: bool, s: Scanner)
    requires WellFormed(table) && StylesFit(table, styles) && |ends| == |table|
    requires AtCell(s) && s.row == []
    ensures Run(StyledRows(table, styles, ends, finalEnd), s).Finish() == s.rows + NonBlank(table)
    decreases |table|
  {
    if table == [] {
    } else if |table| == 1 && !finalEnd {
      RunStyledLastRow(table[0], styles[0], s);
      EmptyRight(Keep(table[0]));
    } else {
      var line := StyledRow(table[0], styles[0]) + EndText(ends[0]);
      var below := StyledRows(table[1..], styles[1..], ends[1..], finalEnd);
      assert StyledRows(table, styles, ends, finalEnd) == line + below;
      RunStyledLine(table[0], styles[0], ends[0], s);
      RunConcat(line, below, s);
      RunStyledRows(table[1..], styles[1..], ends[1..], finalEnd, Run(line, s));
      assert NonBlank(table) == Keep(table[0]) + NonBlank(table[1..]);
      Assoc(s.rows, Keep(table[0]), NonBlank(table[1..]));
    }
  }

  lemma MarkIsDropped(body: string, bom: bool)
    requires bom || body == "" || body[0] != BOM
    ensures WithoutBom((if bom then [BOM] else "") + body) == body
  {
    assert "" + body == body;
  }

  // Parsing undoes every way of writing a table down: each cell quoted or, where
  // it can be, bare, with any line ends. The text must not begin with a byte order
  // mark of its own, which is taken for the file's.
  lemma ParseInvertsEveryStyle(
    table: Table, styles: seq<seq<Style>>, ends: seq<LineEnd>, finalEnd: bool, bom: bool)
    requires WellFormed(table) && StylesFit(table, styles) && |ends| == |table|
    requires
      var body := StyledRows(table, styles, ends, finalEnd);
      bom || body == "" || body[0] != BOM
    ensures
      Parse((if bom then [BOM] else "") + StyledRows(table, styles, ends, finalEnd)) == NonBlank(table)
  {
    hide StyledRows;
    hide Run;
    var body := StyledRows(table, styles, ends, finalEnd);
    MarkIsDropped(body, bom);
    RunStyledRows(table, styles, ends, finalEnd, Start);
  }

  // ── Every parsed table is a fixed point ───────────────────────────

  predicate Clean(table: Table) {
    forall i :: 0 <= i < |table| ==> table[i] != [] && !IsBlankRow(table[i])
  }

  lemma {:induction false} RunIsClean(text: string, s: Scanner)
    requires Clean(s.rows)
    ensures Clean(Run(text, s).rows)
  {
    if text != "" {
      RunIsClean(text[..|text| - 1], s);
    }
  }

  lemma {:induction false} CleanIsNonBlank(table: Table)
    requires Clean(table)
    ensures NonBlank(table) == table
  {
    if table != [] {
      CleanIsNonBlank(table[1..]);
    }
  }

  // Whatever text was uploaded, printing what was understood and parsing it
  // again changes nothing.
  lemma ParseIsStable(text: string, ends: seq<LineEnd>, finalEnd: bool, bom: bool)
    requires |ends| == |Parse(text)|
    ensures Clean(Parse(text)) && WellFormed(Parse(text))
    ensures Parse(Print(Parse(text), ends, finalEnd, bom)) == Parse(text)
  {
    RunIsClean(WithoutBom(text), Start);
    ParseInvertsPrint(Parse(text), ends, finalEnd, bom);
    CleanIsNonBlank(Parse(text));
  }
}
