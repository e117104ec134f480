// A roster file with one contact, read through the whole upload: the schedules
// shown elsewhere start from it.

module SampleUpload {
  import opened Wrappers
  import opened Text
  import opened RosterCsv
  import opened RosterRows
  import Csv

  const HEADER: Csv.Row := ["name", "email"]
  const LINE: Csv.Row := ["Ann", "ann@x.co"]
  const TABLE: Csv.Table := [HEADER, LINE]
  const ANN := RosterRow(2, "Ann", Some("ann@x.co"), None, None, None)

  const COLUMNS: Columns := map[FullName := 0, Email := 1]

  function Upload(): string {
    Csv.Print(TABLE, [Csv.LF, Csv.LF], false, false)
  }

  // ── The text ──────────────────────────────────────────────────────

  lemma {:induction false} BytesAreFew(text: string)
    ensures ByteLength(text) <= 4 * |text|
  {
    if text != "" {
      BytesAreFew(text[..|text| - 1]);
    }
  }

  lemma {:induction false} EscapeAtMostDoubles(cell: string)
    ensures |Csv.Escape(cell)| <= 2 * |cell|
  {
    if cell != "" {
      EscapeAtMostDoubles(cell[..|cell| - 1]);
    }
  }

  lemma PairOfCells(row: Csv.Row)
    requires |row| == 2
    ensures Csv.PrintRow(row) == Csv.Quote(row[0]) + "," + Csv.Quote(row[1])
  {
  }

  lemma UploadIsSmall()
    ensures ByteLength(Upload()) <= MAX_CSV_BYTES && Upload() != "" && Upload()[0] == '"'
  {
    BytesAreFew(Upload());
    EscapeAtMostDoubles("name");
    EscapeAtMostDoubles("email");
    EscapeAtMostDoubles("Ann");
    EscapeAtMostDoubles("ann@x.co");
    PairOfCells(HEADER);
    PairOfCells(LINE);
    assert TABLE[1..] == [LINE] && [Csv.LF, Csv.LF][1..] == [Csv.LF];
    assert Csv.PrintRows([LINE], [Csv.LF], false) == Csv.PrintRow(LINE);
    assert Upload() == Csv.PrintRow(HEADER) + "\n" + Csv.PrintRow(LINE);
  }

  lemma UploadParses()
    ensures Csv.Parse(Upload()) == TABLE
  {
    Csv.ParseInvertsPrint(TABLE, [Csv.LF, Csv.LF], false, false);
    Visible("name");
    Visible("Ann");
    assert "name" in HEADER && "Ann" in LINE;
    Csv.CleanIsNonBlank(TABLE);
  }

  // ── The header ────────────────────────────────────────────────────

  predicate NoSeparators(s: string) {
    forall i :: 0 <= i < |s| ==> !IsSeparator(s[i])
  }

  lemma {:induction false} CollapseKeepsWords(s: string)
    requires NoSeparators(s)
    ensures Collapse(s) == s
  {
    if s != "" {
      CollapseKeepsWords(s[1..]);
    }
  }

  predicate IsLower(s: string) {
    forall i :: 0 <= i < |s| ==> LowerChar(s[i]) == s[i]
  }

  lemma PlainHeader(h: string)
    requires h != "" && NoSeparators(h) && IsLower(h)
    ensures NormalizeHeader(h) == h
  {
    assert Lower(h) == h;
    CollapseKeepsWords(h);
    Visible(h);
  }

  // Too long, or starting with a letter that does not occur.
  predicate CannotOccur(fragment: string, s: string) {
    |fragment| > |s| || (fragment != "" && fragment[0] !in s)
  }

  lemma NotContained(s: string, fragment: string)
    requires CannotOccur(fragment, s)
    ensures !Contains(s, fragment)
  {
    forall i | 0 <= i <= |s| ensures !OccursAt(s, fragment, i) {
      if |fragment| <= |s| && i <= |s| - |fragment| {
        assert s[i..i + |fragment|][0] == s[i] && s[i] in s;
      }
    }
  }

  lemma NameIsHarmless()
    ensures forall f :: f in FORBIDDEN_HEADER_FRAGMENTS ==> CannotOccur(f, "name")
  {
  }

  lemma EmailIsHarmless()
    ensures forall f :: f in FORBIDDEN_HEADER_FRAGMENTS ==> CannotOccur(f, "email")
  {
  }

  lemma NameHeader()
    ensures KindOf("name") == Names(FullName)
  {
    hide NormalizeHeader;
    hide CannotOccur;
    hide Contains;
    PlainHeader("name");
    NameIsHarmless();
    forall f | f in FORBIDDEN_HEADER_FRAGMENTS ensures !Contains("name", f) {
      NotContained("name", f);
    }
  }

  lemma EmailHeader()
    ensures KindOf("email") == Names(Email)
  {
    hide NormalizeHeader;
    hide CannotOccur;
    hide Contains;
    hide AliasOf;
    EmailAlias();
    PlainHeader("email");
    EmailIsHarmless();
    forall f | f in FORBIDDEN_HEADER_FRAGMENTS ensures !Contains("email", f) {
      NotContained("email", f);
    }
  }

  lemma EmailAlias()
    ensures AliasOf("email") == Some(Email)
  {
  }

  lemma TwoColumns(row: seq<Column>)
    requires |row| == 2 && row[0].kind == Names(FullName) && row[1].kind == Names(Email)
    ensures PlanOf(row) == Plan(COLUMNS, [])
  {
    assert row[..1][..0] == [];
    assert Assigned(row[..1]) == (map[FullName := 0], []);
    assert Offenders(row[..1]) == [];
  }

  lemma HeaderIsPlanned()
    ensures PlanOf(Classify(HEADER)) == Plan(COLUMNS, [])
  {
    hide KindOf;
    hide PlanOf;
    NameHeader();
    EmailHeader();
    TwoColumns(Classify(HEADER));
  }

  // ── The contact ───────────────────────────────────────────────────

  lemma AnnIsAnEmail()
    ensures Lower("ann@x.co") == "ann@x.co" && IsEmail("ann@x.co")
  {
    assert SplitsAt("ann@x.co", 3, 5);
  }

  lemma AnnsCells()
    ensures Cell(LINE, COLUMNS, FullName) == Some("Ann") && Cell(LINE, COLUMNS, Email) == Some("ann@x.co")
    ensures forall f :: f in {PhoneNumber, Department, EmployeeRef} ==> Cell(LINE, COLUMNS, f).None?
  {
    hide Trim;
    Visible("Ann");
    Visible("ann@x.co");
  }

  lemma AnnIsValid()
    ensures Judge(2, LINE, COLUMNS) == Valid(ANN)
  {
    hide Cell;
    hide IsEmail;
    hide IsRosterPhone;
    hide NormalizedPhone;
    AnnsCells();
    AnnIsAnEmail();
  }

  lemma {:induction false} EndStaysVisible(s: string)
    requires s != "" && !IsWhitespace(s[0])
    ensures TrimEnd(s) != ""
  {
    if IsWhitespace(s[|s| - 1]) {
      EndStaysVisible(s[..|s| - 1]);
    }
  }

  lemma OneLine(verdict: Verdict)
    requires verdict == Valid(ANN)
    ensures SortLines([verdict]) == Sorted([ANN], [], Keys(ANN))
  {
    assert [verdict][..0] == [];
    assert SortLines([verdict]) == SortOne(Sorted([], [], {}), 2, verdict);
    assert {} + Keys(ANN) == Keys(ANN);
  }

  // The file is accepted with its one contact.
  lemma UploadIsAccepted()
    ensures ParseOf(Upload()) == Accepted([ANN], [], []) && !IsBlank(Upload())
    ensures Keys(ANN) == {EmailChannel("ann@x.co")}
  {
    hide Trim;
    hide Judge;
    hide PlanOf;
    hide Classify;
    hide SortLines;
    hide ByteLength;
    UploadIsSmall();
    UploadParses();
    HeaderIsPlanned();
    AnnIsValid();
    assert JudgeAll(TABLE, COLUMNS) == [Valid(ANN)];
    OneLine(Valid(ANN));
    FirstVisible(Upload());
  }

  lemma FirstVisible(s: string)
    requires s != "" && !IsWhitespace(s[0])
    ensures !IsBlank(s)
  {
    EndStaysVisible(s);
  }
}
