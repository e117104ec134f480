// Which uploads are taken and which of their lines become contacts, on the texts
// themselves (parseRoster in src/corporate/roster-csv.ts).

module RosterLines {
  import opened Wrappers
  import opened Text
  import Csv
  import Phone
  import opened RosterCsv
  import opened RosterHeaders
  import opened RosterRows

  // ── One line ──────────────────────────────────────────────────────

  // The line says something in the column of this field.
  predicate Fills(cells: seq<string>, columns: Columns, f: RosterField) {
    f in columns && columns[f] < |cells| && Trim(cells[columns[f]]) != ""
  }

  function TextIn(cells: seq<string>, columns: Columns, f: RosterField): string
    requires Fills(cells, columns, f)
  {
    Trim(cells[columns[f]])
  }

  // Something without white space or @ in it, an @, something of that kind, a dot,
  // and two or more such characters.
  ghost predicate IsMailAddress(s: string) {
    exists user: string, host: string, top: string :: IsMailAddressOf(s, user, host, top)
  }

  predicate IsMailAddressOf(s: string, user: string, host: string, top: string) {
    && s == user + "@" + host + "." + top
    && |user| >= 1 && |host| >= 1 && |top| >= 2
    && (forall c :: c in user + host + top ==> !IsWhitespace(c) && c != '@')
  }

  lemma EmailExactlyWhen(s: string)
    ensures IsEmail(s) <==> IsMailAddress(s)
  {
    if IsEmail(s) {
      var at, dot :| 0 < at < dot < |s| && SplitsAt(s, at, dot);
      var user, host, top := s[..at], s[at + 1..dot], s[dot + 1..];
      assert s == user + "@" + host + "." + top;
      PartsAreAddressChars(user, host, top);
      assert IsMailAddressOf(s, user, host, top);
    }
    if user: string, host: string, top: string :| IsMailAddressOf(s, user, host, top) {
      var at, dot := |user|, |user| + 1 + |host|;
      assert s[..at] == user && s[at + 1..dot] == host && s[dot + 1..] == top;
      CharsOfParts(user, host, top);
      assert SplitsAt(s, at, dot);
    }
  }

  lemma PartsAreAddressChars(user: string, host: string, top: string)
    requires AllAddressChars(user) && AllAddressChars(host) && AllAddressChars(top)
    ensures forall c :: c in user + host + top ==> !IsWhitespace(c) && c != '@'
  {
    hide IsWhitespace;
    forall c | c in user + host + top ensures IsAddressChar(c) {
      assert c in user || c in host || c in top;
    }
  }

  lemma CharsOfParts(user: string, host: string, top: string)
    requires forall c :: c in user + host + top ==> !IsWhitespace(c) && c != '@'
    ensures AllAddressChars(user) && AllAddressChars(host) && AllAddressChars(top)
  {
    hide IsWhitespace;
    forall i | 0 <= i < |user| ensures IsAddressChar(user[i]) {
      assert user[i] in user + host + top;
    }
    forall i | 0 <= i < |host| ensures IsAddressChar(host[i]) {
      assert host[i] in user + host + top;
    }
    forall i | 0 <= i < |top| ensures IsAddressChar(top[i]) {
      assert top[i] in user + host + top;
    }
  }

  predicate HasName(cells: seq<string>, columns: Columns) {
    Fills(cells, columns, FullName) && |TextIn(cells, columns, FullName)| >= 2
  }

  ghost predicate EmailIsFine(cells: seq<string>, columns: Columns) {
    Fills(cells, columns, Email) ==> IsMailAddress(Lower(TextIn(cells, columns, Email)))
  }

  function PhoneIn(cells: seq<string>, columns: Columns): Option<string>
    requires Fills(cells, columns, PhoneNumber)
  {
    Phone.NormalizePhone(Some(TextIn(cells, columns, PhoneNumber)), Phone.SA)
  }

  predicate PhoneIsFine(cells: seq<string>, columns: Columns) {
    Fills(cells, columns, PhoneNumber) ==>
      PhoneIn(cells, columns).Some? && Phone.ValidateMobile(PhoneIn(cells, columns), None) == Phone.Mobile
  }

  predicate HasChannel(cells: seq<string>, columns: Columns) {
    Fills(cells, columns, Email) || Fills(cells, columns, PhoneNumber)
  }

  // The row holds what its line says, field by field.
  predicate ReadsLine(row: RosterRow, line: nat, cells: seq<string>, columns: Columns) {
    && row.line == line
    && Fills(cells, columns, FullName) && row.fullName == TextIn(cells, columns, FullName)
    && row.email == (if Fills(cells, columns, Email) then Some(Lower(TextIn(cells, columns, Email))) else None)
    && row.phone == (if Fills(cells, columns, PhoneNumber) then PhoneIn(cells, columns) else None)
    && row.department == (if Fills(cells, columns, Department) then Some(TextIn(cells, columns, Department)) else None)
    && row.employeeRef ==
         (if Fills(cells, columns, EmployeeRef) then Some(TextIn(cells, columns, EmployeeRef)) else None)
  }

  // A line is valid exactly if it has a name, some channel, and what it gives of
  // email and phone is one; the first of these it misses is the reason otherwise.
  lemma JudgesExactlyWhen(line: nat, cells: seq<string>, columns: Columns)
    ensures
      var v := Judge(line, cells, columns);
      var name, email, phone := HasName(cells, columns), EmailIsFine(cells, columns), PhoneIsFine(cells, columns);
      && (v.Valid? <==> name && email && phone && HasChannel(cells, columns))
      && (v.Valid? ==> ReadsLine(v.row, line, cells, columns))
      && (v == Invalid(NameMissing) <==> !name)
      && (v == Invalid(EmailIsInvalid) <==> name && !email)
      && (v == Invalid(PhoneIsInvalid) <==> name && email && !phone)
      && (v == Invalid(ChannelMissing) <==> name && email && phone && !HasChannel(cells, columns))
  {
    hide Trim;
    hide IsEmail;
    hide IsMailAddress;
    hide Phone.NormalizePhone;
    hide Phone.ValidateMobile;
    if Fills(cells, columns, Email) {
      EmailExactlyWhen(Lower(TextIn(cells, columns, Email)));
    }
  }

  // ── All lines of a file ───────────────────────────────────────────

  // Somebody accepted on an earlier line is reached the same way.
  ghost predicate ClashesEarlier(rows: seq<RosterRow>, row: RosterRow) {
    exists i :: 0 <= i < |rows| && rows[i].line < row.line && SharesChannel(rows[i], row)
  }

  predicate SharesChannel(a: RosterRow, b: RosterRow) {
    (a.email.Some? && a.email == b.email) || (a.phone.Some? && a.phone == b.phone)
  }

  predicate HasNoEmptyChannel(row: RosterRow) {
    row.email != Some("") && row.phone != Some("")
  }

  lemma SharedExactlyWhen(a: RosterRow, b: RosterRow)
    requires HasNoEmptyChannel(a) && HasNoEmptyChannel(b)
    ensures SharesChannel(a, b) <==> !(Keys(a) !! Keys(b))
  {
    if !(Keys(a) !! Keys(b)) {
      var c :| c in Keys(a) && c in Keys(b);
    }
    if a.email.Some? && a.email == b.email {
      assert EmailChannel(a.email.value) in Keys(a) * Keys(b);
    }
    if a.phone.Some? && a.phone == b.phone {
      assert PhoneChannel(a.phone.value) in Keys(a) * Keys(b);
    }
  }

  ghost predicate NoneIsEmpty(verdicts: seq<Verdict>) {
    forall k :: 0 <= k < |verdicts| && verdicts[k].Valid? ==>
      HasNoEmptyChannel(verdicts[k].row) && verdicts[k].row.line == k + 2
  }

  ghost predicate NoRowIsEmpty(rows: seq<RosterRow>) {
    forall i :: 0 <= i < |rows| ==> HasNoEmptyChannel(rows[i])
  }

  predicate IsTaken(rows: seq<RosterRow>, line: nat) {
    exists i :: 0 <= i < |rows| && rows[i].line == line
  }

  // How line k + 2 is sorted.
  ghost predicate SortedAs(so: Sorted, line: nat, v: Verdict) {
    match v
    case Invalid(reason) => SkippedRow(line, reason) in so.skipped && !IsTaken(so.rows, line)
    case Valid(row) =>
      if ClashesEarlier(so.rows, row) then SkippedRow(line, DuplicateInFile) in so.skipped && !IsTaken(so.rows, line)
      else row in so.rows
  }

  ghost predicate LinesUpTo(so: Sorted, last: nat) {
    forall i :: 0 <= i < |so.rows| ==> so.rows[i].line <= last
  }

  lemma OneLineSorted(before: Sorted, line: nat, v: Verdict)
    requires line >= 1 && LinesUpTo(before, line - 1) && SeenExactly(before) && NoRowIsEmpty(before.rows)
    requires v.Valid? ==> v.row.line == line && HasNoEmptyChannel(v.row)
    ensures SortedAs(SortOne(before, line, v), line, v)
    ensures LinesUpTo(SortOne(before, line, v), line) && NoRowIsEmpty(SortOne(before, line, v).rows)
  {
    var so := SortOne(before, line, v);
    if v.Valid? {
      forall i | 0 <= i < |before.rows|
        ensures SharesChannel(before.rows[i], v.row) <==> !(Keys(before.rows[i]) !! Keys(v.row))
      {
        SharedExactlyWhen(before.rows[i], v.row);
      }
      SeenClash(before, v.row);
      if Keys(v.row) * before.seen == {} {
        assert so.rows[|before.rows|] == v.row;
      }
    }
  }

  lemma SeenClash(before: Sorted, row: RosterRow)
    requires SeenExactly(before)
    ensures Keys(row) * before.seen != {} <==>
      exists i :: 0 <= i < |before.rows| && !(Keys(before.rows[i]) !! Keys(row))
  {
    if Keys(row) * before.seen != {} {
      var c :| c in Keys(row) * before.seen;
      var i :| 0 <= i < |before.rows| && c in Keys(before.rows[i]);
    }
    if i :| 0 <= i < |before.rows| && !(Keys(before.rows[i]) !! Keys(row)) {
      var c :| c in Keys(before.rows[i]) && c in Keys(row);
      assert c in Keys(row) * before.seen;
    }
  }

  // Later lines change nothing about an earlier one.
  lemma StaysSorted(before: Sorted, line: nat, v: Verdict, later: nat, w: Verdict)
    requires SortedAs(before, line, v) && line < later && (v.Valid? ==> v.row.line == line)
    requires w.Valid? ==> w.row.line == later
    ensures SortedAs(SortOne(before, later, w), line, v)
  {
    var so := SortOne(before, later, w);
    assert forall i :: 0 <= i < |before.rows| ==> so.rows[i] == before.rows[i];
    assert forall s :: s in before.skipped ==> s in so.skipped;
    if v.Valid? {
      assert ClashesEarlier(so.rows, v.row) <==> ClashesEarlier(before.rows, v.row);
      if v.row in before.rows {
        var i :| 0 <= i < |before.rows| && before.rows[i] == v.row;
        assert so.rows[i] == v.row;
      }
    }
  }

  lemma {:induction false} EveryLineIsSorted(verdicts: seq<Verdict>, k: nat)
    requires NoneIsEmpty(verdicts) && k < |verdicts| && WellJudged(verdicts)
    ensures SortedAs(SortLines(verdicts), k + 2, verdicts[k])
  {
    hide SortedAs;
    hide SortOne;
    hide WellJudged;
    var n := |verdicts| - 1;
    WellJudgedBefore(verdicts, n);
    RowsAreDistinctContacts(verdicts[..n]);
    LinesUpToLast(verdicts[..n]);
    if k < n {
      EveryLineIsSorted(verdicts[..n], k);
      StaysSorted(SortLines(verdicts[..n]), k + 2, verdicts[k], n + 2, verdicts[n]);
    } else {
      OneLineSorted(SortLines(verdicts[..n]), n + 2, verdicts[n]);
    }
  }

  lemma WellJudgedBefore(verdicts: seq<Verdict>, n: nat)
    requires n <= |verdicts| && WellJudged(verdicts)
    ensures WellJudged(verdicts[..n])
  {
    hide Contactable;
  }

  lemma {:induction false} LinesUpToLast(verdicts: seq<Verdict>)
    requires NoneIsEmpty(verdicts) && WellJudged(verdicts)
    ensures LinesUpTo(SortLines(verdicts), |verdicts| + 1) && NoRowIsEmpty(SortLines(verdicts).rows)
  {
    hide SortOne;
    hide WellJudged;
    if verdicts != [] {
      var n := |verdicts| - 1;
      WellJudgedBefore(verdicts, n);
      LinesUpToLast(verdicts[..n]);
      RowsAreDistinctContacts(verdicts[..n]);
      OneLineSorted(SortLines(verdicts[..n]), n + 2, verdicts[n]);
    }
  }

  // The columns of the fields: the first header that names each.
  ghost predicate ColumnsAre(headers: seq<string>, columns: Columns) {
    && (forall f :: f in columns <==> SomeNames(headers, f))
    && (forall f :: f in columns ==> FirstNames(headers, f, columns[f]))
  }

  // A file is taken exactly if it is no longer than 512 kB, has a header and one
  // to 2000 lines, no column of it mentions an address, and some column names the
  // person and some a channel.
  lemma AcceptsExactlyWhen(text: string)
    ensures
      var parsed, table := ParseOf(text), Csv.Parse(text);
      && (parsed == Rejected("roster_file_too_large", []) <==> ByteLength(text) > 524288)
      && (parsed == Rejected("roster_empty", []) <==> ByteLength(text) <= 524288 && |table| < 2)
      && (parsed == Rejected("roster_too_many_rows", []) <==> ByteLength(text) <= 524288 && |table| > 2001)
      && (parsed.Accepted? <==>
            && ByteLength(text) <= 524288 && 2 <= |table| <= 2001
            && (forall k :: 0 <= k < |table[0]| ==> !MentionsAddress(table[0][k]))
            && SomeNames(table[0], FullName) && (SomeNames(table[0], Email) || SomeNames(table[0], PhoneNumber)))
  {
    hide Csv.Parse;
    hide ByteLength;
    hide PlanOf;
    hide Classify;
    hide SortLines;
    hide MentionsAddress;
    hide SomeNames;
    CodesDiffer();
    if |Csv.Parse(text)| >= 2 {
      PrivacyGateOnTexts(Csv.Parse(text)[0]);
    }
  }

  lemma CodesDiffer()
    ensures
      var codes := ["roster_file_too_large", "roster_empty", "roster_too_many_rows", "roster_address_columns_forbidden",
                    "roster_headers_unusable"];
      forall i, j :: 0 <= i < j < |codes| ==> codes[i] != codes[j]
  {
    assert |"roster_file_too_large"| == 21 && |"roster_empty"| == 12 && |"roster_too_many_rows"| == 20;
    assert |"roster_address_columns_forbidden"| == 32 && |"roster_headers_unusable"| == 23;
  }

  lemma AcceptedColumns(text: string) returns (columns: Columns)
    requires ParseOf(text).Accepted?
    ensures
      var table := Csv.Parse(text);
      && |table| >= 2 && ColumnsAre(table[0], columns)
      && ParseOf(text).rows == SortLines(JudgeAll(table, columns)).rows
      && ParseOf(text).skipped == SortLines(JudgeAll(table, columns)).skipped
  {
    hide Csv.Parse;
    hide ByteLength;
    hide PlanOf;
    hide Classify;
    hide SortLines;
    hide MentionsAddress;
    hide SomeNames;
    hide FirstNames;
    var table := Csv.Parse(text);
    columns := PlanOf(Classify(table[0])).columns;
    PrivacyGateOnTexts(table[0]);
  }

  // In an accepted file, the line's row is the one its texts say, it is taken
  // exactly if the line is valid and nobody accepted before it is reached the same
  // way, and otherwise it is reported with its reason.
  lemma LineIsTakenExactlyWhen(text: string, k: nat) returns (columns: Columns)
    requires ParseOf(text).Accepted? && 1 <= k < |Csv.Parse(text)|
    ensures |Csv.Parse(text)| >= 2 && ColumnsAre(Csv.Parse(text)[0], columns)
    ensures
      var parsed, cells := ParseOf(text), Csv.Parse(text)[k];
      var v := Judge(k + 1, cells, columns);
      && (v.Valid? ==> ReadsLine(v.row, k + 1, cells, columns))
      && (IsTaken(parsed.rows, k + 1) <==> v.Valid? && !ClashesEarlier(parsed.rows, v.row))
      && (IsTaken(parsed.rows, k + 1) ==> v.row in parsed.rows)
      && (v.Invalid? ==> SkippedRow(k + 1, v.reason) in parsed.skipped)
      && (v.Valid? && ClashesEarlier(parsed.rows, v.row) ==> SkippedRow(k + 1, DuplicateInFile) in parsed.skipped)
  {
    hide Csv.Parse;
    hide ParseOf;
    hide SortLines;
    hide ColumnsAre;
    hide Judge;
    hide ReadsLine;
    hide WellJudged;
    hide ClashesEarlier;
    columns := AcceptedColumns(text);
    var table := Csv.Parse(text);
    var verdicts := JudgeAll(table, columns);
    JudgeAllIsWellJudged(table, columns);
    NoChannelIsEmpty(verdicts);
    EveryLineIsSorted(verdicts, k - 1);
    JudgesExactlyWhen(k + 1, table[k], columns);
    var v := Judge(k + 1, table[k], columns);
    if v.Valid? && v.row in ParseOf(text).rows {
      assert v.row.line == k + 1 by { ReadLine(v.row, k + 1, table[k], columns); }
    }
  }

  lemma ReadLine(row: RosterRow, line: nat, cells: seq<string>, columns: Columns)
    requires ReadsLine(row, line, cells, columns)
    ensures row.line == line
  {
  }

  lemma NoChannelIsEmpty(verdicts: seq<Verdict>)
    requires WellJudged(verdicts)
    ensures NoneIsEmpty(verdicts)
  {
    forall k | 0 <= k < |verdicts| && verdicts[k].Valid?
      ensures HasNoEmptyChannel(verdicts[k].row) && verdicts[k].row.line == k + 2
    {
      assert Contactable(verdicts[k].row.email, verdicts[k].row.phone);
      NothingIsNoEmail();
      NothingIsNoPhone();
    }
  }

  lemma NothingIsNoEmail()
    ensures !IsEmail("")
  {
  }

  lemma NothingIsNoPhone()
    ensures !IsRosterPhone(Some(""))
  {
  }
}
