// Importing a parsed upload into an organization's roster, and archiving
// (src/corporate/roster.service.ts). Each call is one atomic step; what a
// second import in between its read and its insert would do is stated apart.

module RosterStore {
  import opened Wrappers
  import opened Text
  import opened RosterRows
  import Csv

  datatype ContactStatus = Active | Archived

  datatype Contact = Contact(
    orgId: nat, fullName: string, email: Option<string>, phone: Option<string>,
    department: Option<string>, employeeRef: Option<string>,
    status: ContactStatus, purgeAfter: int)

  datatype Roster = Roster(contacts: map<nat, Contact>, nextId: nat)

  datatype ImportReply =
    | Imported(count: nat, skipped: seq<SkippedRow>, ignoredColumns: seq<string>)
    | Refused(code: string, columns: seq<string>)

  function ContactChannels(c: Contact): set<Channel> {
    ChannelsOf(c.email, c.phone)
  }

  predicate ActiveIn(contacts: map<nat, Contact>, id: nat, orgId: nat) {
    id in contacts && contacts[id].orgId == orgId && contacts[id].status.Active?
  }

  // Every channel some active contact of the organization already answers on.
  function Taken(contacts: map<nat, Contact>, orgId: nat): set<Channel> {
    set id, c | id in contacts && ActiveIn(contacts, id, orgId) && c in ContactChannels(contacts[id]) :: c
  }

  predicate IsNew(row: RosterRow, taken: set<Channel>) {
    Keys(row) !! taken
  }

  function NewRows(rows: seq<RosterRow>, taken: set<Channel>): seq<RosterRow> {
    if rows == [] then []
    else
      var n := |rows| - 1;
      NewRows(rows[..n], taken) + if IsNew(rows[n], taken) then [rows[n]] else []
  }

  function ExistingSkips(rows: seq<RosterRow>, taken: set<Channel>): seq<SkippedRow> {
    if rows == [] then []
    else
      var n := |rows| - 1;
      ExistingSkips(rows[..n], taken) +
        if IsNew(rows[n], taken) then [] else [SkippedRow(rows[n].line, DuplicateExisting)]
  }

  function InsertByLine(skip: SkippedRow, sorted: seq<SkippedRow>): seq<SkippedRow> {
    if sorted == [] || skip.line < sorted[0].line then [skip] + sorted
    else [sorted[0]] + InsertByLine(skip, sorted[1..])
  }

  // skipped.sort by line, which is stable.
  function SortByLine(skipped: seq<SkippedRow>): seq<SkippedRow> {
    if skipped == [] then []
    else InsertByLine(skipped[|skipped| - 1], SortByLine(skipped[..|skipped| - 1]))
  }

  function ContactOf(orgId: nat, row: RosterRow, purgeAfter: int): Contact {
    Contact(orgId, row.fullName, row.email, row.phone, row.department, row.employeeRef, Active, purgeAfter)
  }

  // createMany: each row gets an id nobody has had.
  function Insert(roster: Roster, orgId: nat, rows: seq<RosterRow>, purgeAfter: int): (r: Roster)
    ensures r.nextId == roster.nextId + |rows|
  {
    if rows == [] then roster
    else
      var n := |rows| - 1;
      var r := Insert(roster, orgId, rows[..n], purgeAfter);
      Roster(r.contacts[r.nextId := ContactOf(orgId, rows[n], purgeAfter)], r.nextId + 1)
  }

  function OrgRefusal(orgStatus: map<nat, string>, orgId: nat, csv: Option<string>): Option<string> {
    if csv.None? || IsBlank(csv.value) then Some("roster_csv_required")
    else if orgId !in orgStatus then Some("org_not_found")
    else if orgStatus[orgId] != "approved" then Some("org_not_approved")
    else None
  }

  function ReplyTo(
    orgStatus: map<nat, string>, contacts: map<nat, Contact>, orgId: nat, csv: Option<string>): ImportReply {
    var refusal := OrgRefusal(orgStatus, orgId, csv);
    if refusal.Some? then Refused(refusal.value, [])
    else
      match ParseOf(csv.value)
      case Rejected(code, columns) => Refused(code, columns)
      case Accepted(rows, skipped, ignored) =>
        var taken := Taken(contacts, orgId);
        Imported(|NewRows(rows, taken)|, SortByLine(skipped + ExistingSkips(rows, taken)), ignored)
  }

  function AfterImport(
    orgStatus: map<nat, string>, roster: Roster, orgId: nat, csv: Option<string>, purgeAfter: int): Roster
  {
    if ReplyTo(orgStatus, roster.contacts, orgId, csv).Refused? then roster
    else Insert(roster, orgId, NewRows(ParseOf(csv.value).rows, Taken(roster.contacts, orgId)), purgeAfter)
  }

  function AfterArchive(roster: Roster, orgId: nat, id: nat, purgeAfter: int): Roster {
    if ActiveIn(roster.contacts, id, orgId)
    then roster.(contacts := roster.contacts[id :=
      roster.contacts[id].(status := Archived, purgeAfter := purgeAfter)])
    else roster
  }

  // The filter over the parsed rows, which collects the skips as it goes.
  method SiftExisting(rows: seq<RosterRow>, parsedSkips: seq<SkippedRow>, taken: set<Channel>)
    returns (toInsert: seq<RosterRow>, skipped: seq<SkippedRow>)
    ensures toInsert == NewRows(rows, taken)
    ensures skipped == parsedSkips + ExistingSkips(rows, taken)
  {
    toInsert, skipped := [], parsedSkips;
    for i := 0 to |rows|
      invariant toInsert == NewRows(rows[..i], taken)
      invariant skipped == parsedSkips + ExistingSkips(rows[..i], taken)
    {
      assert rows[..i + 1][..i] == rows[..i];
      if IsNew(rows[i], taken) {
        toInsert := toInsert + [rows[i]];
      } else {
        skipped := skipped + [SkippedRow(rows[i].line, DuplicateExisting)];
      }
    }
    assert rows[..|rows|] == rows;
  }

  class RosterService {
    var roster: Roster
    const orgStatus: map<nat, string>

    constructor (orgStatus: map<nat, string>)
      ensures roster == Roster(map[], 0) && this.orgStatus == orgStatus
    {
      roster := Roster(map[], 0);
      this.orgStatus := orgStatus;
    }

    method ImportRoster(orgId: nat, csv: Option<string>, now: int, retention: nat) returns (reply: ImportReply)
      modifies this
      ensures reply == ReplyTo(orgStatus, old(roster.contacts), orgId, csv)
      ensures roster == AfterImport(orgStatus, old(roster), orgId, csv, now + retention)
    {
      var refusal := OrgRefusal(orgStatus, orgId, csv);
      if refusal.Some? {
        return Refused(refusal.value, []);
      }
      var parsed := ParseRoster(csv.value);
      if parsed.Rejected? {
        return Refused(parsed.code, parsed.columns);
      }
      var toInsert, skipped := SiftExisting(parsed.rows, parsed.skipped, Taken(roster.contacts, orgId));
      if |toInsert| > 0 {
        roster := Insert(roster, orgId, toInsert, now + retention);
      }
      reply := Imported(|toInsert|, SortByLine(skipped), parsed.ignoredColumns);
    }

    method ArchiveContact(orgId: nat, id: nat, now: int, grace: nat) returns (r: Result<bool>)
      modifies this
      ensures roster == AfterArchive(old(roster), orgId, id, now + grace)
      ensures r == if ActiveIn(old(roster.contacts), id, orgId) then Success(true) else Failure("contact_not_found")
    {
      if !ActiveIn(roster.contacts, id, orgId) {
        return Failure("contact_not_found");
      }
      roster := roster.(contacts := roster.contacts[id :=
        roster.contacts[id].(status := Archived, purgeAfter := now + grace)]);
      r := Success(true);
    }
  }

  // ── Every line is answered for ────────────────────────────────────

  predicate DistinctLines(skipped: seq<SkippedRow>) {
    forall i, j :: 0 <= i < j < |skipped| ==> skipped[i].line != skipped[j].line
  }

  lemma {:induction false} InsertedInOrder(skip: SkippedRow, sorted: seq<SkippedRow>)
    requires Increasing(SkippedLines(sorted)) && skip.line !in SkippedLines(sorted)
    ensures Increasing(SkippedLines(InsertByLine(skip, sorted)))
    ensures forall s :: s in InsertByLine(skip, sorted) <==> s == skip || s in sorted
    ensures |InsertByLine(skip, sorted)| == |sorted| + 1
  {
    if sorted != [] && skip.line >= sorted[0].line {
      assert SkippedLines(sorted)[0] in SkippedLines(sorted);
      assert SkippedLines(sorted[1..]) == SkippedLines(sorted)[1..];
      InsertedInOrder(skip, sorted[1..]);
      var tail := InsertByLine(skip, sorted[1..]);
      forall k | 0 <= k < |tail| ensures tail[k].line > sorted[0].line {
        assert tail[k] in tail;
        if tail[k] != skip {
          var m :| 0 <= m < |sorted[1..]| && sorted[1..][m] == tail[k];
          assert SkippedLines(sorted)[m + 1] == tail[k].line;
        }
      }
      assert forall s :: s in sorted <==> s == sorted[0] || s in sorted[1..];
    }
  }

  // The reported skips are the collected ones, in file order.
  lemma {:induction false} SortedSkips(skipped: seq<SkippedRow>)
    requires DistinctLines(skipped)
    ensures Increasing(SkippedLines(SortByLine(skipped)))
    ensures forall s :: s in SortByLine(skipped) <==> s in skipped
    ensures |SortByLine(skipped)| == |skipped|
  {
    if skipped != [] {
      var n := |skipped| - 1;
      SortedSkips(skipped[..n]);
      var sorted := SortByLine(skipped[..n]);
      forall k | 0 <= k < |sorted| ensures sorted[k].line != skipped[n].line {
        assert sorted[k] in sorted;
      }
      InsertedInOrder(skipped[n], sorted);
      assert forall s :: s in skipped <==> s == skipped[n] || s in skipped[..n];
    }
  }

  // Two lists in order share out the lines of a third.
  ghost predicate Shares(whole: seq<nat>, some: seq<nat>, others: seq<nat>) {
    && |some| + |others| == |whole|
    && Increasing(some) && Increasing(others)
    && (forall line :: line in some ==> line !in others)
    && (forall line :: line in whole <==> line in some || line in others)
  }

  lemma ShareOneMore(whole: seq<nat>, some: seq<nat>, others: seq<nat>, line: nat)
    requires Increasing(whole + [line]) && Shares(whole, some, others)
    ensures Shares(whole + [line], some + [line], others)
    ensures Shares(whole + [line], some, others + [line])
  {
    forall l | l in whole ensures l < line {
      var k :| 0 <= k < |whole| && whole[k] == l;
      assert (whole + [line])[k] < (whole + [line])[|whole|];
    }
    forall k | 0 <= k < |some| ensures some[k] < line {
      assert some[k] in some;
    }
    forall k | 0 <= k < |others| ensures others[k] < line {
      assert others[k] in others;
    }
    AppendIncreasing(some, line);
    AppendIncreasing(others, line);
  }

  lemma RowLinesAppend(rows: seq<RosterRow>, row: RosterRow)
    ensures RowLines(rows + [row]) == RowLines(rows) + [row.line]
  {
  }

  lemma SkippedLinesAppend(skipped: seq<SkippedRow>, skip: SkippedRow)
    ensures SkippedLines(skipped + [skip]) == SkippedLines(skipped) + [skip.line]
  {
  }

  // Deduplication against the roster splits the rows in two, in order.
  lemma {:induction false} RowsSplit(rows: seq<RosterRow>, taken: set<Channel>)
    requires Increasing(RowLines(rows))
    ensures Shares(RowLines(rows), RowLines(NewRows(rows, taken)), SkippedLines(ExistingSkips(rows, taken)))
  {
    if rows != [] {
      var n := |rows| - 1;
      var before, row := rows[..n], rows[n];
      assert rows == before + [row];
      RowLinesAppend(before, row);
      assert RowLines(before) == RowLines(rows)[..n];
      RowsSplit(before, taken);
      var some, others := NewRows(before, taken), ExistingSkips(before, taken);
      ShareOneMore(RowLines(before), RowLines(some), SkippedLines(others), row.line);
      if IsNew(row, taken) {
        RowLinesAppend(some, row);
        assert others + [] == others;
      } else {
        SkippedLinesAppend(others, SkippedRow(row.line, DuplicateExisting));
        assert some + [] == some;
      }
    }
  }

  // Every data line of an accepted upload is imported or reported as skipped,
  // exactly once, and both lists keep the order of the file.
  lemma ImportPartitionsTheFile(
    orgStatus: map<nat, string>, contacts: map<nat, Contact>, orgId: nat, csv: Option<string>)
    ensures
      var reply := ReplyTo(orgStatus, contacts, orgId, csv);
      reply.Imported? ==>
        var imported := NewRows(ParseOf(csv.value).rows, Taken(contacts, orgId));
        && reply.count == |imported|
        && Partitions(imported, reply.skipped, |Csv.Parse(csv.value)|)
        && |imported| + |reply.skipped| == |Csv.Parse(csv.value)| - 1
  {
    var reply := ReplyTo(orgStatus, contacts, orgId, csv);
    if reply.Imported? {
      UploadIsSoundlySorted(csv.value);
      var parsed := ParseOf(csv.value);
      var taken := Taken(contacts, orgId);
      RowsSplit(parsed.rows, taken);
      SkipsPartition(parsed.rows, parsed.skipped, NewRows(parsed.rows, taken), ExistingSkips(parsed.rows, taken),
                     |Csv.Parse(csv.value)|);
    }
  }

  lemma SkipsPartition(
    rows: seq<RosterRow>, skipped: seq<SkippedRow>, imported: seq<RosterRow>, existing: seq<SkippedRow>, last: nat)
    requires Partitions(rows, skipped, last)
    requires Shares(RowLines(rows), RowLines(imported), SkippedLines(existing))
    ensures Partitions(imported, SortByLine(skipped + existing), last)
    ensures |SortByLine(skipped + existing)| == |skipped| + |existing|
  {
    var all := skipped + existing;
    assert SkippedLines(all) == SkippedLines(skipped) + SkippedLines(existing);
    AllSkipsDistinct(RowLines(rows), SkippedLines(skipped), RowLines(imported), SkippedLines(existing), last);
    forall i, j | 0 <= i < j < |all| ensures all[i].line != all[j].line {
      assert SkippedLines(all)[i] != SkippedLines(all)[j];
    }
    SortedSkips(all);
    SameLines(SortByLine(all), all);
    SplitsAgain(RowLines(rows), SkippedLines(skipped), RowLines(imported), SkippedLines(existing),
                SkippedLines(SortByLine(all)), last);
  }

  lemma AllSkipsDistinct(rows: seq<nat>, skipped: seq<nat>, imported: seq<nat>, existing: seq<nat>, last: nat)
    requires Splits(rows, skipped, last) && Shares(rows, imported, existing)
    ensures var all := skipped + existing; forall i, j :: 0 <= i < j < |all| ==> all[i] != all[j]
  {
    var all := skipped + existing;
    forall i, j | 0 <= i < j < |all| ensures all[i] != all[j] {
      if i < |skipped| <= j {
        assert skipped[i] in skipped && existing[j - |skipped|] in existing;
      }
    }
  }

  lemma SplitsAgain(
    rows: seq<nat>, skipped: seq<nat>, imported: seq<nat>, existing: seq<nat>, all: seq<nat>, last: nat)
    requires Splits(rows, skipped, last) && Shares(rows, imported, existing)
    requires Increasing(all) && forall line :: line in all <==> line in skipped + existing
    ensures Splits(imported, all, last)
  {
  }

  lemma SameLines(a: seq<SkippedRow>, b: seq<SkippedRow>)
    requires forall s :: s in a <==> s in b
    ensures forall line :: line in SkippedLines(a) <==> line in SkippedLines(b)
  {
    forall line | line in SkippedLines(a) ensures line in SkippedLines(b) {
      var i :| 0 <= i < |a| && a[i].line == line;
      assert a[i] in b;
      var j :| 0 <= j < |b| && b[j] == a[i];
      assert SkippedLines(b)[j] == line;
    }
    forall line | line in SkippedLines(b) ensures line in SkippedLines(a) {
      var i :| 0 <= i < |b| && b[i].line == line;
      assert b[i] in a;
      var j :| 0 <= j < |a| && a[j] == b[i];
      assert SkippedLines(a)[j] == line;
    }
  }

  // ── The roster over any run ───────────────────────────────────────

  ghost predicate Disjoint(contacts: map<nat, Contact>) {
    forall a, b, orgId :: a != b && ActiveIn(contacts, a, orgId) && ActiveIn(contacts, b, orgId) ==>
      ContactChannels(contacts[a]) !! ContactChannels(contacts[b])
  }

  ghost predicate AllContactable(contacts: map<nat, Contact>) {
    forall id :: id in contacts ==> Contactable(contacts[id].email, contacts[id].phone)
  }

  ghost predicate Sound(roster: Roster) {
    && (forall id :: id in roster.contacts ==> id < roster.nextId)
    && Disjoint(roster.contacts)
    && AllContactable(roster.contacts)
  }

  datatype Op =
    | Import(orgStatus: map<nat, string>, orgId: nat, csv: Option<string>, purgeAfter: int)
    | Archive(orgId: nat, id: nat, purgeAfter: int)

  function Apply(roster: Roster, op: Op): Roster {
    match op
    case Import(orgStatus, orgId, csv, purgeAfter) => AfterImport(orgStatus, roster, orgId, csv, purgeAfter)
    case Archive(orgId, id, purgeAfter) => AfterArchive(roster, orgId, id, purgeAfter)
  }

  function Run(ops: seq<Op>): Roster {
    if ops == [] then Roster(map[], 0) else Apply(Run(ops[..|ops| - 1]), ops[|ops| - 1])
  }

  // What an insertion leaves in the table, row by row.
  ghost predicate Extends(before: Roster, orgId: nat, rows: seq<RosterRow>, purgeAfter: int, after: Roster) {
    && after.nextId == before.nextId + |rows|
    && (forall id :: id in before.contacts ==> id in after.contacts && after.contacts[id] == before.contacts[id])
    && (forall id :: id in after.contacts && id !in before.contacts ==> before.nextId <= id < after.nextId)
    && (forall id :: before.nextId <= id < after.nextId ==>
          id in after.contacts && after.contacts[id] == ContactOf(orgId, rows[id - before.nextId], purgeAfter))
  }

  lemma {:induction false} InsertExtends(roster: Roster, orgId: nat, rows: seq<RosterRow>, purgeAfter: int)
    requires forall id :: id in roster.contacts ==> id < roster.nextId
    ensures Extends(roster, orgId, rows, purgeAfter, Insert(roster, orgId, rows, purgeAfter))
  {
    if rows != [] {
      InsertExtends(roster, orgId, rows[..|rows| - 1], purgeAfter);
    }
  }

  // Inserting distinct rows keeps the roster disjoint exactly when none of them
  // clashes with somebody active: that is what the check against the roster
  // must establish at the moment of the insert.
  lemma InsertKeepsDisjoint(before: Roster, orgId: nat, rows: seq<RosterRow>, purgeAfter: int, after: Roster)
    requires (forall id :: id in before.contacts ==> id < before.nextId) && Disjoint(before.contacts)
    requires PairwiseDisjoint(rows)
    requires Extends(before, orgId, rows, purgeAfter, after)
    ensures Disjoint(after.contacts) <==> forall r :: r in rows ==> IsNew(r, Taken(before.contacts, orgId))
  {
    if forall r :: r in rows ==> IsNew(r, Taken(before.contacts, orgId)) {
      forall a, b, o | a != b && ActiveIn(after.contacts, a, o) && ActiveIn(after.contacts, b, o)
        ensures ContactChannels(after.contacts[a]) !! ContactChannels(after.contacts[b])
      {
        TwoContactsApart(before, orgId, rows, purgeAfter, after, a, b, o);
      }
    }
    if Disjoint(after.contacts) {
      forall r | r in rows ensures IsNew(r, Taken(before.contacts, orgId)) {
        var k :| 0 <= k < |rows| && rows[k] == r;
        NewIfApart(before, orgId, rows, purgeAfter, after, k);
      }
    }
  }

  lemma TwoContactsApart(
    before: Roster, orgId: nat, rows: seq<RosterRow>, purgeAfter: int, after: Roster, a: nat, b: nat, o: nat)
    requires forall id :: id in before.contacts ==> id < before.nextId
    requires Disjoint(before.contacts) && PairwiseDisjoint(rows)
    requires Extends(before, orgId, rows, purgeAfter, after)
    requires forall r :: r in rows ==> IsNew(r, Taken(before.contacts, orgId))
    requires a != b && ActiveIn(after.contacts, a, o) && ActiveIn(after.contacts, b, o)
    ensures ContactChannels(after.contacts[a]) !! ContactChannels(after.contacts[b])
  {
    hide ChannelsOf;
    hide Taken;
    var base := before.nextId;
    if a in before.contacts && b in before.contacts {
      assert ActiveIn(before.contacts, a, o) && ActiveIn(before.contacts, b, o);
    } else if a in before.contacts {
      assert after.contacts[b] == ContactOf(orgId, rows[b - base], purgeAfter);
      OldAndNewApart(before, orgId, rows, a, b - base);
    } else if b in before.contacts {
      assert after.contacts[a] == ContactOf(orgId, rows[a - base], purgeAfter);
      OldAndNewApart(before, orgId, rows, b, a - base);
    } else {
      var i, j := a - base, b - base;
      assert after.contacts[a] == ContactOf(orgId, rows[i], purgeAfter);
      assert after.contacts[b] == ContactOf(orgId, rows[j], purgeAfter);
      if i < j {
        assert Keys(rows[i]) !! Keys(rows[j]);
      } else {
        assert Keys(rows[j]) !! Keys(rows[i]);
      }
    }
  }

  lemma OldAndNewApart(before: Roster, orgId: nat, rows: seq<RosterRow>, id: nat, k: nat)
    requires ActiveIn(before.contacts, id, orgId) && k < |rows|
    requires forall r :: r in rows ==> IsNew(r, Taken(before.contacts, orgId))
    ensures ContactChannels(before.contacts[id]) !! Keys(rows[k])
  {
    assert rows[k] in rows;
    forall c | c in ContactChannels(before.contacts[id]) ensures c !in Keys(rows[k]) {
      assert c in Taken(before.contacts, orgId);
    }
  }

  lemma NewIfApart(
    before: Roster, orgId: nat, rows: seq<RosterRow>, purgeAfter: int, after: Roster, k: nat)
    requires forall id :: id in before.contacts ==> id < before.nextId
    requires Extends(before, orgId, rows, purgeAfter, after) && Disjoint(after.contacts)
    requires k < |rows|
    ensures IsNew(rows[k], Taken(before.contacts, orgId))
  {
    forall c | c in Taken(before.contacts, orgId) ensures c !in Keys(rows[k]) {
      var id :| id in before.contacts && ActiveIn(before.contacts, id, orgId) && c in ContactChannels(before.contacts[id]);
      assert ActiveIn(after.contacts, id, orgId) && ActiveIn(after.contacts, before.nextId + k, orgId);
    }
  }

  lemma {:induction false} NewRowsAreSound(rows: seq<RosterRow>, taken: set<Channel>)
    requires PairwiseDisjoint(rows)
    ensures PairwiseDisjoint(NewRows(rows, taken))
    ensures forall r :: r in NewRows(rows, taken) ==> r in rows && IsNew(r, taken)
  {
    if rows != [] {
      var n := |rows| - 1;
      NewRowsAreSound(rows[..n], taken);
      var earlier := NewRows(rows[..n], taken);
      forall i | 0 <= i < |earlier| ensures Keys(earlier[i]) !! Keys(rows[n]) {
        assert earlier[i] in rows[..n];
      }
    }
  }

  lemma ImportKeepsSound(
    orgStatus: map<nat, string>, roster: Roster, orgId: nat, csv: Option<string>, purgeAfter: int)
    requires Sound(roster)
    ensures Sound(AfterImport(orgStatus, roster, orgId, csv, purgeAfter))
  {
    if ReplyTo(orgStatus, roster.contacts, orgId, csv).Imported? {
      UploadIsSoundlySorted(csv.value);
      var rows := ParseOf(csv.value).rows;
      NewRowsAreSound(rows, Taken(roster.contacts, orgId));
      InsertKeepsSound(roster, orgId, NewRows(rows, Taken(roster.contacts, orgId)), purgeAfter);
    }
  }

  lemma InsertKeepsSound(roster: Roster, orgId: nat, rows: seq<RosterRow>, purgeAfter: int)
    requires Sound(roster) && PairwiseDisjoint(rows)
    requires forall r :: r in rows ==> Contactable(r.email, r.phone) && IsNew(r, Taken(roster.contacts, orgId))
    ensures Sound(Insert(roster, orgId, rows, purgeAfter))
  {
    var after := Insert(roster, orgId, rows, purgeAfter);
    InsertExtends(roster, orgId, rows, purgeAfter);
    InsertKeepsDisjoint(roster, orgId, rows, purgeAfter, after);
    forall id | id in after.contacts
      ensures Contactable(after.contacts[id].email, after.contacts[id].phone)
    {
      if id !in roster.contacts {
        var k := id - roster.nextId;
        assert after.contacts[roster.nextId + k] == ContactOf(orgId, rows[k], purgeAfter);
        assert rows[k] in rows;
      }
    }
  }

  lemma ArchiveKeepsSound(roster: Roster, orgId: nat, id: nat, purgeAfter: int)
    requires Sound(roster)
    ensures Sound(AfterArchive(roster, orgId, id, purgeAfter))
  {
    var after := AfterArchive(roster, orgId, id, purgeAfter);
    forall a, b, o | a != b && ActiveIn(after.contacts, a, o) && ActiveIn(after.contacts, b, o)
      ensures ContactChannels(after.contacts[a]) !! ContactChannels(after.contacts[b])
    {
      assert ActiveIn(roster.contacts, a, o) && ActiveIn(roster.contacts, b, o);
    }
  }

  // Over any run of imports and archives, an organization's active contacts
  // share no channel, and every stored contact can be reached: a lowercase
  // email or a phone the normalizer leaves as it is.
  lemma {:induction false} RosterStaysSound(ops: seq<Op>)
    ensures Sound(Run(ops))
  {
    if ops != [] {
      RosterStaysSound(ops[..|ops| - 1]);
      var roster := Run(ops[..|ops| - 1]);
      match ops[|ops| - 1]
      case Import(orgStatus, orgId, csv, purgeAfter) => ImportKeepsSound(orgStatus, roster, orgId, csv, purgeAfter);
      case Archive(orgId, id, purgeAfter) => ArchiveKeepsSound(roster, orgId, id, purgeAfter);
    }
  }
}
