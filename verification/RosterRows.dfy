// Row validation and within-file deduplication of a roster upload
// (src/corporate/roster-csv.ts, parseRoster).

module RosterRows {
  import opened Wrappers
  import opened Text
  import Csv
  import Phone
  import opened RosterCsv

  datatype RosterRow = RosterRow(
    line: nat, fullName: string, email: Option<string>, phone: Option<string>,
    department: Option<string>, employeeRef: Option<string>)

  datatype SkipReason =
    | NameMissing | ChannelMissing | PhoneIsInvalid | EmailIsInvalid
    | DuplicateInFile
    | DuplicateExisting  // the service's own: the contact is already on the roster

  datatype SkippedRow = SkippedRow(line: nat, reason: SkipReason)

  datatype Channel = EmailChannel(email: string) | PhoneChannel(phone: string)

  function ChannelsOf(email: Option<string>, phone: Option<string>): set<Channel> {
    (if email.Some? && email.value != "" then {EmailChannel(email.value)} else {}) +
    (if phone.Some? && phone.value != "" then {PhoneChannel(phone.value)} else {})
  }

  function Keys(row: RosterRow): set<Channel> {
    ChannelsOf(row.email, row.phone)
  }

  predicate IsAddressChar(c: char) {
    !IsWhitespace(c) && c != '@'
  }

  predicate AllAddressChars(s: string) {
    forall i :: 0 <= i < |s| ==> IsAddressChar(s[i])
  }

  // One @, something before it, and after it a dot with something before it
  // and at least two characters behind.
  predicate IsEmail(s: string) {
    exists at, dot :: 0 < at < dot < |s| && SplitsAt(s, at, dot)
  }

  predicate SplitsAt(s: string, at: int, dot: int) {
    && 0 < at && at + 1 < dot && dot + 2 < |s|
    && s[at] == '@' && s[dot] == '.'
    && AllAddressChars(s[..at]) && AllAddressChars(s[at + 1..dot]) && AllAddressChars(s[dot + 1..])
  }

  // The trimmed cell of a field, if its column exists and is not blank.
  function Cell(cells: seq<string>, columns: Columns, f: RosterField): Option<string> {
    if f in columns && columns[f] < |cells| && Trim(cells[columns[f]]) != ""
    then Some(Trim(cells[columns[f]])) else None
  }

  function NormalizedPhone(raw: string): Option<string> {
    Phone.NormalizePhone(Some(raw), Phone.SA)
  }

  predicate IsRosterPhone(phone: Option<string>) {
    phone.Some? && Phone.ValidateMobile(phone, None) == Phone.Mobile
  }

  datatype Verdict = Valid(row: RosterRow) | Invalid(reason: SkipReason)

  // A line on its own, before deduplication.
  function Judge(line: nat, cells: seq<string>, columns: Columns): Verdict {
    var name := Cell(cells, columns, FullName);
    var email := Cell(cells, columns, Email);
    var phone := Cell(cells, columns, PhoneNumber);
    if name.None? || |name.value| < 2 then Invalid(NameMissing)
    else if email.Some? && !IsEmail(Lower(email.value)) then Invalid(EmailIsInvalid)
    else if phone.Some? && !IsRosterPhone(NormalizedPhone(phone.value)) then Invalid(PhoneIsInvalid)
    else if email.None? && phone.None? then Invalid(ChannelMissing)
    else Valid(RosterRow(
      line, name.value,
      if email.Some? then Some(Lower(email.value)) else None,
      if phone.Some? then NormalizedPhone(phone.value) else None,
      Cell(cells, columns, Department), Cell(cells, columns, EmployeeRef)))
  }

  // Data line k of the file is row k - 1 of the table.
  function JudgeAll(table: Csv.Table, columns: Columns): (verdicts: seq<Verdict>)
    requires table != []
    ensures |verdicts| == |table| - 1
    ensures forall k :: 0 <= k < |verdicts| ==> verdicts[k] == Judge(k + 2, table[k + 1], columns)
  {
    seq(|table| - 1, k requires 0 <= k < |table| - 1 => Judge(k + 2, table[k + 1], columns))
  }

  datatype Sorted = Sorted(rows: seq<RosterRow>, skipped: seq<SkippedRow>, seen: set<Channel>)

  // One more line, after what has been sorted so far.
  function SortOne(so: Sorted, line: nat, verdict: Verdict): Sorted {
    match verdict
    case Invalid(reason) => so.(skipped := so.skipped + [SkippedRow(line, reason)])
    case Valid(row) =>
      if Keys(row) * so.seen != {} then so.(skipped := so.skipped + [SkippedRow(line, DuplicateInFile)])
      else Sorted(so.rows + [row], so.skipped, so.seen + Keys(row))
  }

  // The data lines, from line two on, sorted into rows and skipped lines.
  function SortLines(verdicts: seq<Verdict>): Sorted {
    if verdicts == [] then Sorted([], [], {})
    else
      var n := |verdicts| - 1;
      SortOne(SortLines(verdicts[..n]), n + 2, verdicts[n])
  }

  // UTF-8 length, character by character.
  function ByteLength(text: string): nat {
    if text == "" then 0
    else
      var c := text[|text| - 1];
      ByteLength(text[..|text| - 1]) +
        if c < '\U{80}' then 1 else if c < '\U{800}' then 2 else if c < '\U{10000}' then 3 else 4
  }

  datatype ParsedRoster =
    | Accepted(rows: seq<RosterRow>, skipped: seq<SkippedRow>, ignoredColumns: seq<string>)
    | Rejected(code: string, columns: seq<string>)

  function ParseOf(text: string): ParsedRoster {
    var table := Csv.Parse(text);
    if ByteLength(text) > MAX_CSV_BYTES then Rejected("roster_file_too_large", [])
    else if |table| < 2 then Rejected("roster_empty", [])
    else if |table| - 1 > MAX_ROSTER_ROWS then Rejected("roster_too_many_rows", [])
    else
      match PlanOf(Classify(table[0]))
      case AddressColumnsForbidden(offenders) => Rejected("roster_address_columns_forbidden", offenders)
      case HeadersUnusable => Rejected("roster_headers_unusable", [])
      case Plan(columns, ignored) =>
        var so := SortLines(JudgeAll(table, columns));
        Accepted(so.rows, so.skipped, ignored)
  }

  method ParseRoster(text: string) returns (parsed: ParsedRoster)
    ensures parsed == ParseOf(text)
  {
    if ByteLength(text) > MAX_CSV_BYTES {
      return Rejected("roster_file_too_large", []);
    }
    var table := Csv.ParseCsv(text);
    if |table| < 2 {
      return Rejected("roster_empty", []);
    }
    if |table| - 1 > MAX_ROSTER_ROWS {
      return Rejected("roster_too_many_rows", []);
    }
    var headers := PlanHeaders(table[0]);
    match headers {
      case AddressColumnsForbidden(offenders) =>
        return Rejected("roster_address_columns_forbidden", offenders);
      case HeadersUnusable =>
        return Rejected("roster_headers_unusable", []);
      case Plan(columns, ignored) =>
        var rows, skipped := SortRows(table, columns);
        return Accepted(rows, skipped, ignored);
    }
  }

  // The loop over the data lines.
  method SortRows(table: Csv.Table, columns: Columns) returns (rows: seq<RosterRow>, skipped: seq<SkippedRow>)
    requires table != []
    ensures rows == SortLines(JudgeAll(table, columns)).rows
    ensures skipped == SortLines(JudgeAll(table, columns)).skipped
  {
    ghost var verdicts := JudgeAll(table, columns);
    var seenChannels: set<Channel> := {};
    rows, skipped := [], [];
    var r := 1;
    while r < |table|
      invariant 1 <= r <= |table|
      invariant Sorted(rows, skipped, seenChannels) == SortLines(verdicts[..r - 1])
    {
      assert verdicts[..r][..r - 1] == verdicts[..r - 1];
      var line := r + 1;
      var verdict := Judge(line, table[r], columns);
      if verdict.Invalid? {
        skipped := skipped + [SkippedRow(line, verdict.reason)];
      } else if Keys(verdict.row) * seenChannels != {} {
        skipped := skipped + [SkippedRow(line, DuplicateInFile)];
      } else {
        seenChannels := seenChannels + Keys(verdict.row);
        rows := rows + [verdict.row];
      }
      r := r + 1;
    }
    assert verdicts[..r - 1] == verdicts;
  }

  // ── What an accepted row promises ─────────────────────────────────

  // At least one channel, a lowercase email, and a phone in the one form the
  // normalizer leaves alone.
  predicate Contactable(email: Option<string>, phone: Option<string>) {
    && ChannelsOf(email, phone) != {}
    && (email.Some? ==> IsEmail(email.value) && Lower(email.value) == email.value)
    && (phone.Some? ==> NormalizedPhone(phone.value) == phone && IsRosterPhone(phone))
  }

  ghost predicate WellJudged(verdicts: seq<Verdict>) {
    forall k :: 0 <= k < |verdicts| && verdicts[k].Valid? ==>
      && verdicts[k].row.line == k + 2
      && Contactable(verdicts[k].row.email, verdicts[k].row.phone)
  }

  lemma JudgedRowIsContactable(line: nat, cells: seq<string>, columns: Columns)
    ensures
      var v := Judge(line, cells, columns);
      v.Valid? ==> v.row.line == line && |v.row.fullName| >= 2 && Contactable(v.row.email, v.row.phone)
  {
    var v := Judge(line, cells, columns);
    if v.Valid? {
      if v.row.email.Some? {
        EmailIsNotEmpty(v.row.email.value);
        LowerIsIdempotent(Cell(cells, columns, Email).value);
        assert EmailChannel(v.row.email.value) in Keys(v.row);
      }
      if v.row.phone.Some? {
        Phone.ValidatedIsFixedPoint(Cell(cells, columns, PhoneNumber), Phone.SA);
        assert PhoneChannel(v.row.phone.value) in Keys(v.row);
      }
    }
  }

  lemma JudgeAllIsWellJudged(table: Csv.Table, columns: Columns)
    requires table != []
    ensures WellJudged(JudgeAll(table, columns))
  {
    var verdicts := JudgeAll(table, columns);
    forall k | 0 <= k < |verdicts| && verdicts[k].Valid?
      ensures verdicts[k].row.line == k + 2 && Contactable(verdicts[k].row.email, verdicts[k].row.phone)
    {
      JudgedRowIsContactable(k + 2, table[k + 1], columns);
    }
  }

  lemma EmailIsNotEmpty(s: string)
    requires IsEmail(s)
    ensures s != ""
  {
  }

  // ── Partition ─────────────────────────────────────────────────────

  predicate Increasing(lines: seq<nat>) {
    forall i, j :: 0 <= i < j < |lines| ==> lines[i] < lines[j]
  }

  function RowLines(rows: seq<RosterRow>): (lines: seq<nat>)
    ensures |lines| == |rows| && forall i :: 0 <= i < |rows| ==> lines[i] == rows[i].line
  {
    seq(|rows|, i requires 0 <= i < |rows| => rows[i].line)
  }

  function SkippedLines(skipped: seq<SkippedRow>): (lines: seq<nat>)
    ensures |lines| == |skipped| && forall i :: 0 <= i < |skipped| ==> lines[i] == skipped[i].line
  {
    seq(|skipped|, i requires 0 <= i < |skipped| => skipped[i].line)
  }

  // Both lists are in file order, and together they hold the lines from two to
  // last, each once.
  ghost predicate Splits(some: seq<nat>, others: seq<nat>, last: nat) {
    && Increasing(some) && Increasing(others)
    && (forall line :: line in some ==> line !in others)
    && (forall line: nat :: line in some || line in others <==> 2 <= line <= last)
  }

  ghost predicate Partitions(rows: seq<RosterRow>, skipped: seq<SkippedRow>, last: nat) {
    Splits(RowLines(rows), SkippedLines(skipped), last)
  }

  lemma AppendIncreasing(lines: seq<nat>, line: nat)
    requires Increasing(lines) && forall i :: 0 <= i < |lines| ==> lines[i] < line
    ensures Increasing(lines + [line])
  {
  }

  lemma NextLine(some: seq<nat>, others: seq<nat>, last: nat)
    requires last >= 1 && Splits(some, others, last)
    ensures Splits(some + [last + 1], others, last + 1)
    ensures Splits(some, others + [last + 1], last + 1)
  {
    forall i | 0 <= i < |some| ensures some[i] < last + 1 {
      assert some[i] in some;
    }
    forall i | 0 <= i < |others| ensures others[i] < last + 1 {
      assert others[i] in others;
    }
    AppendIncreasing(some, last + 1);
    AppendIncreasing(others, last + 1);
  }

  lemma SortOneSplits(so: Sorted, line: nat, verdict: Verdict)
    requires line >= 2 && Partitions(so.rows, so.skipped, line - 1)
    requires verdict.Valid? ==> verdict.row.line == line
    ensures var after := SortOne(so, line, verdict); Partitions(after.rows, after.skipped, line)
  {
    var after := SortOne(so, line, verdict);
    NextLine(RowLines(so.rows), SkippedLines(so.skipped), line - 1);
    if after.rows == so.rows {
      assert SkippedLines(after.skipped) == SkippedLines(so.skipped) + [line];
    } else {
      assert RowLines(after.rows) == RowLines(so.rows) + [line];
    }
  }

  lemma {:induction false} LinesArePartitioned(verdicts: seq<Verdict>)
    requires WellJudged(verdicts)
    ensures var so := SortLines(verdicts);
      Partitions(so.rows, so.skipped, |verdicts| + 1) && |so.rows| + |so.skipped| == |verdicts|
  {
    if verdicts != [] {
      var n := |verdicts| - 1;
      LinesArePartitioned(verdicts[..n]);
      SortOneSplits(SortLines(verdicts[..n]), n + 2, verdicts[n]);
    }
  }

  // ── Deduplication ─────────────────────────────────────────────────

  predicate PairwiseDisjoint(rows: seq<RosterRow>) {
    forall i, j :: 0 <= i < j < |rows| ==> Keys(rows[i]) !! Keys(rows[j])
  }

  ghost predicate SeenExactly(so: Sorted) {
    forall c :: c in so.seen <==> exists i :: 0 <= i < |so.rows| && c in Keys(so.rows[i])
  }

  lemma {:induction false} RowsAreDistinctContacts(verdicts: seq<Verdict>)
    requires WellJudged(verdicts)
    ensures
      var so := SortLines(verdicts);
      && PairwiseDisjoint(so.rows) && SeenExactly(so)
      && forall i :: 0 <= i < |so.rows| ==> Contactable(so.rows[i].email, so.rows[i].phone)
  {
    if verdicts != [] {
      var n := |verdicts| - 1;
      RowsAreDistinctContacts(verdicts[..n]);
      SortOneKeepsDistinct(SortLines(verdicts[..n]), n + 2, verdicts[n]);
    }
  }

  lemma SortOneKeepsDistinct(so: Sorted, line: nat, verdict: Verdict)
    requires PairwiseDisjoint(so.rows) && SeenExactly(so)
    ensures PairwiseDisjoint(SortOne(so, line, verdict).rows) && SeenExactly(SortOne(so, line, verdict))
  {
    hide Keys;
    var after := SortOne(so, line, verdict);
    if verdict.Valid? && Keys(verdict.row) * so.seen == {} {
      forall i | 0 <= i < |so.rows|
        ensures Keys(so.rows[i]) !! Keys(verdict.row)
      {
        forall c | c in Keys(so.rows[i]) ensures c !in Keys(verdict.row) {
          assert c in so.seen && c !in Keys(verdict.row) * so.seen;
        }
      }
      forall c | c in after.seen
        ensures exists i :: 0 <= i < |after.rows| && c in Keys(after.rows[i])
      {
        if c in so.seen {
          var i :| 0 <= i < |so.rows| && c in Keys(so.rows[i]);
          assert c in Keys(after.rows[i]);
        } else {
          assert c in Keys(after.rows[|so.rows|]);
        }
      }
    }
  }

  // Line k was skipped as a duplicate of a row accepted before it.
  ghost predicate IsRealDuplicate(verdicts: seq<Verdict>, rows: seq<RosterRow>, line: nat) {
    && 2 <= line <= |verdicts| + 1
    && verdicts[line - 2].Valid?
    && exists i :: 0 <= i < |rows| && rows[i].line < line
         && !(Keys(rows[i]) !! Keys(verdicts[line - 2].row))
  }

  // A valid line is left out only because someone before it is reachable on one
  // of its channels.
  lemma {:induction false} SkippedDuplicatesAreReal(verdicts: seq<Verdict>, k: nat)
    requires WellJudged(verdicts)
    requires k < |verdicts| && verdicts[k].Valid?
    ensures verdicts[k].row in SortLines(verdicts).rows
         || IsRealDuplicate(verdicts, SortLines(verdicts).rows, k + 2)
  {
    var n := |verdicts| - 1;
    var before := SortLines(verdicts[..n]);
    if k < n {
      SkippedDuplicatesAreReal(verdicts[..n], k);
      LaterRowsDoNotMatter(verdicts[..n], before.rows, verdicts, SortLines(verdicts).rows, k + 2);
    } else {
      LastDuplicateIsReal(verdicts);
    }
  }

  lemma LaterRowsDoNotMatter(
    early: seq<Verdict>, rows: seq<RosterRow>, verdicts: seq<Verdict>, rows': seq<RosterRow>, line: nat)
    requires early <= verdicts && rows <= rows'
    ensures IsRealDuplicate(early, rows, line) ==> IsRealDuplicate(verdicts, rows', line)
  {
    if IsRealDuplicate(early, rows, line) {
      var i :| 0 <= i < |rows| && rows[i].line < line && !(Keys(rows[i]) !! Keys(early[line - 2].row));
      assert rows'[i] == rows[i];
    }
  }

  lemma LastDuplicateIsReal(verdicts: seq<Verdict>)
    requires WellJudged(verdicts) && verdicts != [] && verdicts[|verdicts| - 1].Valid?
    ensures verdicts[|verdicts| - 1].row in SortLines(verdicts).rows
         || IsRealDuplicate(verdicts, SortLines(verdicts).rows, |verdicts| + 1)
  {
    var n := |verdicts| - 1;
    var before := SortLines(verdicts[..n]);
    RowsAreDistinctContacts(verdicts[..n]);
    LinesArePartitioned(verdicts[..n]);
    OneLineIsKeptOrClashes(before, n + 2, verdicts[n].row, SortOne(before, n + 2, verdicts[n]).rows);
  }

  lemma OneLineIsKeptOrClashes(before: Sorted, line: nat, row: RosterRow, rows: seq<RosterRow>)
    requires line >= 2 && SeenExactly(before) && Partitions(before.rows, before.skipped, line - 1)
    requires rows == SortOne(before, line, Valid(row)).rows
    ensures row in rows
         || exists i :: 0 <= i < |rows| && rows[i].line < line && !(Keys(rows[i]) !! Keys(row))
  {
    if Keys(row) * before.seen == {} {
      assert rows[|before.rows|] == row;
    } else {
      var c :| c in Keys(row) * before.seen;
      var i :| 0 <= i < |before.rows| && c in Keys(before.rows[i]);
      EarlierLine(before, i, line);
      assert c in Keys(rows[i]);
    }
  }

  lemma EarlierLine(so: Sorted, i: nat, line: nat)
    requires line >= 2 && Partitions(so.rows, so.skipped, line - 1) && i < |so.rows|
    ensures so.rows[i].line < line
  {
    assert RowLines(so.rows)[i] in RowLines(so.rows);
  }

  // The whole upload: every data line is imported or skipped, exactly once and
  // in order, and the imported rows are distinct, contactable people.
  lemma UploadIsSoundlySorted(text: string)
    ensures
      var parsed, table := ParseOf(text), Csv.Parse(text);
      parsed.Accepted? ==>
        && Partitions(parsed.rows, parsed.skipped, |table|)
        && |parsed.rows| + |parsed.skipped| == |table| - 1
        && PairwiseDisjoint(parsed.rows)
        && forall i :: 0 <= i < |parsed.rows| ==> Contactable(parsed.rows[i].email, parsed.rows[i].phone)
  {
    var parsed, table := ParseOf(text), Csv.Parse(text);
    if parsed.Accepted? {
      var verdicts := JudgeAll(table, PlanOf(Classify(table[0])).columns);
      JudgeAllIsWellJudged(table, PlanOf(Classify(table[0])).columns);
      LinesArePartitioned(verdicts);
      RowsAreDistinctContacts(verdicts);
    }
  }
}
