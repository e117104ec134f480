// Where the contacts of the roster come from and when they go, read off whole
// runs of the protocol (src/corporate/roster.service.ts and
// src/corporate/roster-purge.service.ts).

module RosterOrigins {
  import opened Wrappers
  import opened Text
  import opened RosterRows
  import opened RosterStore
  import opened Campaigns
  import opened Protocol
  import opened Invariants
  import RosterPurge
  import RosterSteps
  import RosterLines
  import ClaimSteps
  import CampaignRecipients

  // ── Imports ───────────────────────────────────────────────────────

  // Somebody active in the organization is reached the same way.
  predicate IsReached(contacts: map<nat, Contact>, orgId: nat, row: RosterRow) {
    exists id :: id in contacts && ReachesSame(contacts[id], orgId, row)
  }

  predicate ReachesSame(c: Contact, orgId: nat, row: RosterRow) {
    && c.orgId == orgId && c.status == Active
    && ((c.email.Some? && c.email == row.email) || (c.phone.Some? && c.phone == row.phone))
  }

  // An upload is let in for an approved organization, if it says something and its
  // file is accepted.
  predicate LetIn(orgStatus: map<nat, string>, orgId: nat, csv: Option<string>) {
    && Shows(csv) && orgId in orgStatus && orgStatus[orgId] == "approved" && ParseOf(csv.value).Accepted?
  }

  lemma ImportedExactlyWhen(orgStatus: map<nat, string>, contacts: map<nat, Contact>, orgId: nat, csv: Option<string>)
    ensures ReplyTo(orgStatus, contacts, orgId, csv).Imported? <==> LetIn(orgStatus, orgId, csv)
  {
    hide ParseOf;
    hide Trim;
    hide Taken;
    hide NewRows;
    hide ExistingSkips;
    hide SortByLine;
  }

  lemma {:induction false} NewRowsExactlyWhen(rows: seq<RosterRow>, taken: set<Channel>, row: RosterRow)
    ensures row in NewRows(rows, taken) <==> row in rows && IsNew(row, taken)
  {
    hide IsNew;
    if rows != [] {
      var n := |rows| - 1;
      NewRowsExactlyWhen(rows[..n], taken, row);
      assert rows == rows[..n] + [rows[n]];
    }
  }

  predicate SpokenChannels(email: Option<string>, phone: Option<string>) {
    email != Some("") && phone != Some("")
  }

  lemma NewExactlyWhen(contacts: map<nat, Contact>, orgId: nat, row: RosterRow)
    requires SpokenChannels(row.email, row.phone)
    requires forall id :: id in contacts ==> SpokenChannels(contacts[id].email, contacts[id].phone)
    ensures IsNew(row, Taken(contacts, orgId)) <==> !IsReached(contacts, orgId, row)
  {
    if !IsNew(row, Taken(contacts, orgId)) {
      var c :| c in Keys(row) && c in Taken(contacts, orgId);
      var id :| id in contacts && ActiveIn(contacts, id, orgId) && c in ContactChannels(contacts[id]);
      assert ReachesSame(contacts[id], orgId, row);
    }
    if id :| id in contacts && ReachesSame(contacts[id], orgId, row) {
      var c := if contacts[id].email.Some? && contacts[id].email == row.email then EmailChannel(row.email.value)
               else PhoneChannel(row.phone.value);
      assert ActiveIn(contacts, id, orgId) && c in ContactChannels(contacts[id]);
      assert c in Taken(contacts, orgId) && c in Keys(row);
    }
  }

  lemma ContactableSpeaks(email: Option<string>, phone: Option<string>)
    requires Contactable(email, phone)
    ensures SpokenChannels(email, phone)
  {
    RosterLines.NothingIsNoEmail();
    RosterLines.NothingIsNoPhone();
  }

  // The contact holds the row of an upload.
  predicate HoldsRow(c: Contact, orgId: nat, row: RosterRow, purgeAfter: int) {
    && c.orgId == orgId && c.fullName == row.fullName && c.email == row.email && c.phone == row.phone
    && c.department == row.department && c.employeeRef == row.employeeRef
    && c.status == Active && c.purgeAfter == purgeAfter
  }

  // One import: whoever was there stays as they were, and a row of the file gets a
  // new contact exactly if the upload is let in and nobody active in the
  // organization is reached the same way.
  lemma ImportAddsExactly(
    orgStatus: map<nat, string>, roster: Roster, orgId: nat, csv: Option<string>, purgeAfter: int, row: RosterRow)
    requires Sound(roster) && csv.Some? && ParseOf(csv.value).Accepted? && row in ParseOf(csv.value).rows
    ensures
      var after := AfterImport(orgStatus, roster, orgId, csv, purgeAfter);
      && (forall id :: id in roster.contacts ==> id in after.contacts && after.contacts[id] == roster.contacts[id])
      && ((exists id :: id in after.contacts && id !in roster.contacts
                        && HoldsRow(after.contacts[id], orgId, row, purgeAfter)) <==>
            LetIn(orgStatus, orgId, csv) && !IsReached(roster.contacts, orgId, row))
  {
    hide ParseOf;
    hide ReplyTo;
    hide LetIn;
    hide Taken;
    hide IsReached;
    hide NewRows;
    var after := AfterImport(orgStatus, roster, orgId, csv, purgeAfter);
    var parsed := ParseOf(csv.value);
    ImportedExactlyWhen(orgStatus, roster.contacts, orgId, csv);
    var rows := NewRows(parsed.rows, Taken(roster.contacts, orgId));
    InsertExtends(roster, orgId, rows, purgeAfter);
    AllSpeak(roster, csv.value);
    SameRowSameNews(roster.contacts, orgId, parsed.rows);
    if LetIn(orgStatus, orgId, csv) {
      if !IsReached(roster.contacts, orgId, row) {
        NewRowsExactlyWhen(parsed.rows, Taken(roster.contacts, orgId), row);
        var k :| 0 <= k < |rows| && rows[k] == row;
        assert after.contacts[roster.nextId + k] == ContactOf(orgId, row, purgeAfter);
      }
      if id :| id in after.contacts && id !in roster.contacts && HoldsRow(after.contacts[id], orgId, row, purgeAfter) {
        var other := rows[id - roster.nextId];
        assert other in rows && after.contacts[id] == ContactOf(orgId, other, purgeAfter);
        NewRowsExactlyWhen(parsed.rows, Taken(roster.contacts, orgId), other);
        SameChannelsSameReach(roster.contacts, orgId, other, row);
      }
    }
  }

  lemma AllSpeak(roster: Roster, text: string)
    requires Sound(roster) && ParseOf(text).Accepted?
    ensures forall id :: id in roster.contacts ==> SpokenChannels(roster.contacts[id].email, roster.contacts[id].phone)
    ensures forall row :: row in ParseOf(text).rows ==> SpokenChannels(row.email, row.phone)
  {
    hide ParseOf;
    hide Disjoint;
    hide Contactable;
    hide SpokenChannels;
    forall id | id in roster.contacts ensures SpokenChannels(roster.contacts[id].email, roster.contacts[id].phone) {
      ContactableSpeaks(roster.contacts[id].email, roster.contacts[id].phone);
    }
    UploadIsSoundlySorted(text);
    var rows := ParseOf(text).rows;
    forall row | row in rows ensures SpokenChannels(row.email, row.phone) {
      var i :| 0 <= i < |rows| && rows[i] == row;
      ContactableSpeaks(row.email, row.phone);
    }
  }

  lemma SameRowSameNews(contacts: map<nat, Contact>, orgId: nat, rows: seq<RosterRow>)
    requires forall id :: id in contacts ==> SpokenChannels(contacts[id].email, contacts[id].phone)
    requires forall row :: row in rows ==> SpokenChannels(row.email, row.phone)
    ensures forall row :: row in rows ==> (IsNew(row, Taken(contacts, orgId)) <==> !IsReached(contacts, orgId, row))
  {
    forall row | row in rows ensures IsNew(row, Taken(contacts, orgId)) <==> !IsReached(contacts, orgId, row) {
      NewExactlyWhen(contacts, orgId, row);
    }
  }

  lemma SameChannelsSameReach(contacts: map<nat, Contact>, orgId: nat, a: RosterRow, b: RosterRow)
    requires a.email == b.email && a.phone == b.phone
    ensures IsReached(contacts, orgId, a) <==> IsReached(contacts, orgId, b)
  {
    if id :| id in contacts && ReachesSame(contacts[id], orgId, a) {
      assert ReachesSame(contacts[id], orgId, b);
    }
    if id :| id in contacts && ReachesSame(contacts[id], orgId, b) {
      assert ReachesSame(contacts[id], orgId, a);
    }
  }

  // ── One step ──────────────────────────────────────────────────────

  predicate Archives(s: State, e: Event, x: nat) {
    && e.ArchiveContact? && e.contactId == x && x in s.roster.contacts
    && s.roster.contacts[x].orgId == e.orgId && s.roster.contacts[x].status == Active
  }

  // The import wrote a row nobody of the organization had been reached by.
  predicate Imports(s: State, e: Event, row: RosterRow) {
    && e.ImportRoster? && LetIn(e.orgStatus, e.orgId, e.csv) && row in ParseOf(e.csv.value).rows
    && !IsReached(s.roster.contacts, e.orgId, row)
  }

  lemma OldContactStep(s: State, e: Event, x: nat)
    requires Inv(s) && x in s.roster.contacts && x in Protocol.Apply(s, e).roster.contacts
    ensures
      Protocol.Apply(s, e).roster.contacts[x] ==
        if Archives(s, e, x) then s.roster.contacts[x].(status := Archived, purgeAfter := e.purgeAfter)
        else s.roster.contacts[x]
  {
    hide PurgeStep;
    hide ReviseStep;
    hide CommitStep;
    hide WorkStep;
    hide ReturnStep;
    hide AfterImport;
    hide Inv;
    match e
    case ImportRoster(orgStatus, orgId, csv, purgeAfter) => ImportKeepsContact(s, e, x);
    case PurgeRoster(now) => PurgeKeepsContact(s, now, x);
    case ReviseCampaign(orgId, id, actor, catalog, action) =>
      CampaignRecipients.ReviseKeepsRoster(s, orgId, id, actor, catalog, action);
    case CommitRows(d) => CampaignRecipients.CommitKeepsRoster(s, d);
    case Work(w, step) => CampaignRecipients.WorkKeepsRoster(s, w, step);
    case Return(c, otpOk, session, now) => CampaignRecipients.ReturnKeepsRoster(s, c, otpOk, session, now);
    case _ =>
  }

  lemma ImportKeepsContact(s: State, e: Event, x: nat)
    requires Inv(s) && e.ImportRoster? && x in s.roster.contacts
    ensures
      var after := AfterImport(e.orgStatus, s.roster, e.orgId, e.csv, e.purgeAfter);
      x in after.contacts && after.contacts[x] == s.roster.contacts[x]
  {
    hide ParseOf;
    hide ReplyTo;
    hide NewRows;
    hide Inv;
    CampaignRecipients.RosterIsSound(s);
    if ReplyTo(e.orgStatus, s.roster.contacts, e.orgId, e.csv).Imported? {
      RosterSteps.ReplyMeansParsed(e.orgStatus, s.roster.contacts, e.orgId, e.csv);
      InsertExtends(
        s.roster, e.orgId, NewRows(ParseOf(e.csv.value).rows, Taken(s.roster.contacts, e.orgId)), e.purgeAfter);
    }
  }

  lemma PurgeKeepsContact(s: State, now: int, x: nat)
    requires x in PurgeStep(s, now).roster.contacts
    ensures x in s.roster.contacts && PurgeStep(s, now).roster.contacts[x] == s.roster.contacts[x]
  {
    hide RosterPurge.Purgeable;
  }

  lemma NewContactStep(s: State, e: Event, x: nat) returns (row: RosterRow)
    requires Inv(s) && x !in s.roster.contacts && x in Protocol.Apply(s, e).roster.contacts
    ensures Imports(s, e, row) && HoldsRow(Protocol.Apply(s, e).roster.contacts[x], e.orgId, row, e.purgeAfter)
  {
    hide PurgeStep;
    hide ReviseStep;
    hide CommitStep;
    hide WorkStep;
    hide ReturnStep;
    hide AfterImport;
    hide Inv;
    hide Imports;
    hide HoldsRow;
    match e
    case ImportRoster(orgStatus, orgId, csv, purgeAfter) => row := ImportedRow(s, e, x);
    case PurgeRoster(now) =>
      PurgeKeepsContact(s, now, x);
      assert false;
    case ReviseCampaign(orgId, id, actor, catalog, action) =>
      CampaignRecipients.ReviseKeepsRoster(s, orgId, id, actor, catalog, action);
      assert false;
    case CommitRows(d) =>
      CampaignRecipients.CommitKeepsRoster(s, d);
      assert false;
    case Work(w, step) =>
      CampaignRecipients.WorkKeepsRoster(s, w, step);
      assert false;
    case Return(c, otpOk, session, now) =>
      CampaignRecipients.ReturnKeepsRoster(s, c, otpOk, session, now);
      assert false;
    case _ =>
      assert false;
  }

  lemma ImportedRow(s: State, e: Event, x: nat) returns (row: RosterRow)
    requires Inv(s) && e.ImportRoster? && x !in s.roster.contacts
    requires x in AfterImport(e.orgStatus, s.roster, e.orgId, e.csv, e.purgeAfter).contacts
    ensures Imports(s, e, row)
    ensures HoldsRow(
      AfterImport(e.orgStatus, s.roster, e.orgId, e.csv, e.purgeAfter).contacts[x], e.orgId, row, e.purgeAfter)
  {
    hide ParseOf;
    hide ReplyTo;
    hide NewRows;
    hide Inv;
    hide Taken;
    hide IsReached;
    hide LetIn;
    CampaignRecipients.RosterIsSound(s);
    var contacts := s.roster.contacts;
    ImportedExactlyWhen(e.orgStatus, contacts, e.orgId, e.csv);
    RosterSteps.ReplyMeansParsed(e.orgStatus, contacts, e.orgId, e.csv);
    var parsed := ParseOf(e.csv.value);
    var rows := NewRows(parsed.rows, Taken(contacts, e.orgId));
    InsertExtends(s.roster, e.orgId, rows, e.purgeAfter);
    row := rows[x - s.roster.nextId];
    assert row in rows;
    NewRowsExactlyWhen(parsed.rows, Taken(contacts, e.orgId), row);
    AllSpeak(s.roster, e.csv.value);
    NewExactlyWhen(contacts, e.orgId, row);
  }

  // A contact leaves the roster only by the retention sweep, and exactly if it is
  // overdue and no recipient of a campaign that was submitted, is approved or is
  // being dispatched.
  lemma LeavesExactlyWhen(s: State, e: Event, x: nat)
    requires Inv(s) && x in s.roster.contacts
    ensures
      x !in Protocol.Apply(s, e).roster.contacts <==>
        && e.PurgeRoster? && s.roster.contacts[x].purgeAfter < e.now
        && forall c :: 0 <= c < |s.campaigns| && x in s.campaigns[c].recipients ==>
             s.campaigns[c].status in {Draft, ChangesRequested, Completed, Cancelled}
  {
    hide PurgeStep;
    hide ReviseStep;
    hide CommitStep;
    hide WorkStep;
    hide ReturnStep;
    hide AfterImport;
    hide Inv;
    match e
    case ImportRoster(orgStatus, orgId, csv, purgeAfter) => ImportKeepsContact(s, e, x);
    case PurgeRoster(now) => PurgeTakesExactly(s, now, x);
    case ReviseCampaign(orgId, id, actor, catalog, action) =>
      CampaignRecipients.ReviseKeepsRoster(s, orgId, id, actor, catalog, action);
    case CommitRows(d) => CampaignRecipients.CommitKeepsRoster(s, d);
    case Work(w, step) => CampaignRecipients.WorkKeepsRoster(s, w, step);
    case Return(c, otpOk, session, now) => CampaignRecipients.ReturnKeepsRoster(s, c, otpOk, session, now);
    case _ =>
  }

  lemma PurgeTakesExactly(s: State, now: int, x: nat)
    requires x in s.roster.contacts
    ensures
      x !in PurgeStep(s, now).roster.contacts <==>
        && s.roster.contacts[x].purgeAfter < now
        && forall c :: 0 <= c < |s.campaigns| && x in s.campaigns[c].recipients ==>
             s.campaigns[c].status in {Draft, ChangesRequested, Completed, Cancelled}
  {
    forall status: CampaignStatus
      ensures status in {Draft, ChangesRequested, Completed, Cancelled} <==>
        status !in RosterPurge.PURGE_PROTECTING_CAMPAIGN_STATES
    {
      match status
      case Draft =>
      case _ =>
    }
  }

  // ── Over a run ────────────────────────────────────────────────────

  ghost predicate ArchivedAt(events: seq<Event>, m: nat, x: nat) {
    m < |events| && Archives(Protocol.Run(events[..m]), events[m], x)
  }

  ghost predicate ImportedAt(events: seq<Event>, n: nat, row: RosterRow) {
    n < |events| && Imports(Protocol.Run(events[..n]), events[n], row)
  }

  // Whose row it is, and whether it is active or was archived since.
  ghost predicate CameFrom(events: seq<Event>, n: nat, row: RosterRow, c: Contact, x: nat) {
    && ImportedAt(events, n, row) && n < |events| && events[n].ImportRoster?
    && HoldsRow(c.(status := Active, purgeAfter := 0), events[n].orgId, row, 0)
    && match c.status
       case Active =>
         c.purgeAfter == events[n].purgeAfter && forall m: nat :: n < m < |events| ==> !ArchivedAt(events, m, x)
       case Archived => exists m: nat :: n < m < |events| && ArchivedAt(events, m, x) && ArchivedUntil(events[m], c)
  }

  predicate ArchivedUntil(e: Event, c: Contact) {
    e.ArchiveContact? && c.purgeAfter == e.purgeAfter
  }

  lemma OneEventMore(events: seq<Event>, n: nat, row: RosterRow, c: Contact, x: nat)
    requires events != [] && CameFrom(events[..|events| - 1], n, row, c, x)
    ensures
      if ArchivedAt(events, |events| - 1, x)
      then CameFrom(events, n, row, c.(status := Archived, purgeAfter := events[|events| - 1].purgeAfter), x)
      else CameFrom(events, n, row, c, x)
  {
    hide Protocol.Run;
    hide Imports;
    var last := |events| - 1;
    var before := events[..last];
    forall m: nat | m < last
      ensures ArchivedAt(events, m, x) <==> ArchivedAt(before, m, x)
      ensures ImportedAt(events, m, row) <==> ImportedAt(before, m, row)
    {
      assert before[..m] == events[..m];
    }
    if ArchivedAt(events, last, x) {
      var now := c.(status := Archived, purgeAfter := events[last].purgeAfter);
      assert ArchivedUntil(events[last], now);
    } else if c.status == Archived {
      var m: nat :| n < m < last && ArchivedAt(before, m, x) && ArchivedUntil(before[m], c);
      assert ArchivedAt(events, m, x) && ArchivedUntil(events[m], c);
    }
  }

  lemma JustImported(events: seq<Event>, row: RosterRow, c: Contact, x: nat)
    requires events != [] && Imports(Protocol.Run(events[..|events| - 1]), events[|events| - 1], row)
    requires HoldsRow(c, events[|events| - 1].orgId, row, events[|events| - 1].purgeAfter)
    ensures CameFrom(events, |events| - 1, row, c, x)
  {
    hide Protocol.Run;
    hide IsReached;
    hide LetIn;
  }

  // In every run, each contact on the roster is a row of an accepted upload of its
  // approved organization, column by column, that nobody active was reached by
  // then, and it is active, or was archived since and keeps until that says.
  lemma {:induction false} ContactsCameFromUploads(events: seq<Event>, x: nat) returns (n: nat, row: RosterRow)
    requires x in Protocol.Run(events).roster.contacts
    ensures CameFrom(events, n, row, Protocol.Run(events).roster.contacts[x], x)
  {
    hide Protocol.Apply;
    hide Inv;
    hide CameFrom;
    hide Archives;
    hide Imports;
    if events == [] {
      assert false;
    } else {
      var last := |events| - 1;
      var s := Protocol.Run(events[..last]);
      ClaimSteps.ReachableStatesAreSound(events[..last]);
      if x in s.roster.contacts {
        n, row := ContactsCameFromUploads(events[..last], x);
        OldContactStep(s, events[last], x);
        OneEventMore(events, n, row, s.roster.contacts[x], x);
      } else {
        row := NewContactStep(s, events[last], x);
        n := last;
        JustImported(events, row, Protocol.Run(events).roster.contacts[x], x);
      }
    }
  }
}
