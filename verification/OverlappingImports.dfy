// Imports that overlap (importRoster in src/corporate/roster.service.ts): the
// call looks the organization's channels up and later inserts its rows, and
// another import may insert in between.

module OverlappingImports {
  import opened Wrappers
  import opened RosterRows
  import opened RosterStore
  import opened SampleUpload

  // What an import has decided to insert.
  datatype Batch = Batch(orgId: nat, rows: seq<RosterRow>, purgeAfter: int)

  datatype Desk = Desk(roster: Roster, held: map<nat, Batch>)

  datatype Step =
    | Look(call: nat, orgStatus: map<nat, string>, orgId: nat, csv: Option<string>, purgeAfter: int)
    | InsertRows(call: nat)
    | ArchiveOne(orgId: nat, id: nat, purgeAfter: int)

  function BatchOf(roster: Roster, orgId: nat, csv: string, purgeAfter: int): Batch
    requires ParseOf(csv).Accepted?
  {
    Batch(orgId, NewRows(ParseOf(csv).rows, Taken(roster.contacts, orgId)), purgeAfter)
  }

  predicate Accepts(d: Desk, s: Step) {
    s.Look? && s.call !in d.held && ReplyTo(s.orgStatus, d.roster.contacts, s.orgId, s.csv).Imported?
  }

  function Apply(d: Desk, s: Step): Desk {
    match s
    case Look(c, _, orgId, csv, purgeAfter) =>
      if Accepts(d, s) then d.(held := d.held[c := BatchOf(d.roster, orgId, csv.value, purgeAfter)]) else d
    case InsertRows(c) =>
      if c in d.held
      then Desk(Insert(d.roster, d.held[c].orgId, d.held[c].rows, d.held[c].purgeAfter), d.held - {c}) else d
    case ArchiveOne(orgId, id, purgeAfter) => d.(roster := AfterArchive(d.roster, orgId, id, purgeAfter))
  }

  const START := Desk(Roster(map[], 0), map[])

  function Run(steps: seq<Step>): Desk {
    if steps == [] then START else Apply(Run(steps[..|steps| - 1]), steps[|steps| - 1])
  }

  // The call on its own is both steps in a row.
  lemma AtomicImportIsBothSteps(
    d: Desk, c: nat, orgStatus: map<nat, string>, orgId: nat, csv: Option<string>, purgeAfter: int)
    requires c !in d.held
    ensures
      Apply(Apply(d, Look(c, orgStatus, orgId, csv, purgeAfter)), InsertRows(c)) ==
      Desk(AfterImport(orgStatus, d.roster, orgId, csv, purgeAfter), d.held)
  {
    hide Insert;
    hide Taken;
    hide NewRows;
    if Accepts(d, Look(c, orgStatus, orgId, csv, purgeAfter)) {
      var batch := BatchOf(d.roster, orgId, csv.value, purgeAfter);
      assert d.held[c := batch] - {c} == d.held;
    }
  }

  // ── What every run keeps ──────────────────────────────────────────

  predicate ReachableRow(r: RosterRow) {
    Contactable(r.email, r.phone)
  }

  ghost predicate GoodBatch(b: Batch) {
    PairwiseDisjoint(b.rows) && forall r :: r in b.rows ==> ReachableRow(r)
  }

  ghost predicate DeskOk(d: Desk) {
    && (forall id :: id in d.roster.contacts ==> id < d.roster.nextId)
    && AllContactable(d.roster.contacts)
    && forall c :: c in d.held ==> GoodBatch(d.held[c])
  }

  // The rows a call is about to insert are still new.
  ghost predicate Fresh(d: Desk, c: nat) {
    c in d.held ==> forall r :: r in d.held[c].rows ==> IsNew(r, Taken(d.roster.contacts, d.held[c].orgId))
  }

  lemma LookIsGood(d: Desk, s: Step)
    requires Accepts(d, s)
    ensures GoodBatch(BatchOf(d.roster, s.orgId, s.csv.value, s.purgeAfter))
    ensures Fresh(Apply(d, s), s.call)
  {
    hide Taken;
    UploadIsSoundlySorted(s.csv.value);
    var rows := ParseOf(s.csv.value).rows;
    NewRowsAreSound(rows, Taken(d.roster.contacts, s.orgId));
    forall r | r in NewRows(rows, Taken(d.roster.contacts, s.orgId)) ensures ReachableRow(r) {
      var i :| 0 <= i < |rows| && rows[i] == r;
    }
  }

  lemma InsertIsGood(d: Desk, c: nat)
    requires DeskOk(d) && c in d.held
    ensures DeskOk(Apply(d, InsertRows(c)))
    ensures Disjoint(d.roster.contacts) ==>
      (Disjoint(Apply(d, InsertRows(c)).roster.contacts) <==> Fresh(d, c))
  {
    hide Taken;
    hide Contactable;
    hide PairwiseDisjoint;
    hide Disjoint;
    var b, after := d.held[c], Apply(d, InsertRows(c));
    InsertExtends(d.roster, b.orgId, b.rows, b.purgeAfter);
    if Disjoint(d.roster.contacts) {
      InsertKeepsDisjoint(d.roster, b.orgId, b.rows, b.purgeAfter, after.roster);
    }
    forall id | id in after.roster.contacts
      ensures Contactable(after.roster.contacts[id].email, after.roster.contacts[id].phone)
    {
      if id !in d.roster.contacts {
        var k := id - d.roster.nextId;
        assert after.roster.contacts[d.roster.nextId + k] == ContactOf(b.orgId, b.rows[k], b.purgeAfter);
        assert ReachableRow(b.rows[k]);
      }
    }
  }

  lemma StepKeepsDesk(d: Desk, s: Step)
    requires DeskOk(d)
    ensures DeskOk(Apply(d, s))
    ensures Disjoint(d.roster.contacts) ==>
      (Disjoint(Apply(d, s).roster.contacts) <==> (s.InsertRows? ==> Fresh(d, s.call)))
  {
    hide GoodBatch;
    hide Fresh;
    hide Disjoint;
    hide BatchOf;
    hide AllContactable;
    hide Insert;
    hide AfterArchive;
    hide ReplyTo;
    match s
    case Look(_, _, _, _, _) => if Accepts(d, s) { LookIsGood(d, s); }
    case InsertRows(c) => if c in d.held { InsertIsGood(d, c); } else { NothingHeldIsFresh(d, c); }
    case ArchiveOne(orgId, id, purgeAfter) => ArchiveIsGood(d.roster, orgId, id, purgeAfter);
  }

  lemma NothingHeldIsFresh(d: Desk, c: nat)
    requires c !in d.held
    ensures Fresh(d, c)
  {
  }

  lemma ArchiveIsGood(roster: Roster, orgId: nat, id: nat, purgeAfter: int)
    requires AllContactable(roster.contacts)
    ensures AllContactable(AfterArchive(roster, orgId, id, purgeAfter).contacts)
    ensures AfterArchive(roster, orgId, id, purgeAfter).nextId == roster.nextId
    ensures AfterArchive(roster, orgId, id, purgeAfter).contacts.Keys == roster.contacts.Keys
    ensures Disjoint(roster.contacts) ==> Disjoint(AfterArchive(roster, orgId, id, purgeAfter).contacts)
  {
    var after := AfterArchive(roster, orgId, id, purgeAfter);
    if Disjoint(roster.contacts) {
      forall a, b, o | a != b && ActiveIn(after.contacts, a, o) && ActiveIn(after.contacts, b, o)
        ensures ContactChannels(after.contacts[a]) !! ContactChannels(after.contacts[b])
      {
        assert ActiveIn(roster.contacts, a, o) && ActiveIn(roster.contacts, b, o);
      }
    }
  }

  lemma ArchiveTakesNothing(roster: Roster, orgId: nat, id: nat, purgeAfter: int, other: nat)
    ensures Taken(AfterArchive(roster, orgId, id, purgeAfter).contacts, other) <= Taken(roster.contacts, other)
  {
    hide ContactChannels;
    var after := AfterArchive(roster, orgId, id, purgeAfter);
    forall c | c in Taken(after.contacts, other) ensures c in Taken(roster.contacts, other) {
      var k :| k in after.contacts && ActiveIn(after.contacts, k, other) && c in ContactChannels(after.contacts[k]);
      assert ActiveIn(roster.contacts, k, other);
    }
  }

  lemma {:induction false} RunsKeepDesk(steps: seq<Step>)
    ensures DeskOk(Run(steps))
  {
    hide Apply;
    hide GoodBatch;
    if steps != [] {
      RunsKeepDesk(steps[..|steps| - 1]);
      StepKeepsDesk(Run(steps[..|steps| - 1]), steps[|steps| - 1]);
    }
  }

  // ── When the roster stays disjoint ────────────────────────────────

  predicate InsertsAt(steps: seq<Step>, k: nat) {
    k < |steps| && steps[k].InsertRows?
  }

  ghost predicate FreshAt(steps: seq<Step>, k: nat) {
    InsertsAt(steps, k) ==> Fresh(Run(steps[..k]), steps[k].call)
  }

  ghost predicate DisjointAt(steps: seq<Step>, k: nat) {
    k <= |steps| ==> Disjoint(Run(steps[..k]).roster.contacts)
  }

  lemma NextMoment(steps: seq<Step>, k: nat)
    requires k < |steps| && DisjointAt(steps, k)
    ensures DisjointAt(steps, k + 1) <==> FreshAt(steps, k)
  {
    hide Apply;
    hide Fresh;
    hide Disjoint;
    assert steps[..k + 1][..k] == steps[..k];
    RunsKeepDesk(steps[..k]);
    StepKeepsDesk(Run(steps[..k]), steps[k]);
  }

  lemma {:induction false} DisjointSoFar(steps: seq<Step>, k: nat)
    requires k <= |steps| && forall m: nat :: m < k ==> FreshAt(steps, m)
    ensures DisjointAt(steps, k)
  {
    hide FreshAt;
    if k == 0 {
      assert steps[..0] == [];
    } else {
      DisjointSoFar(steps, k - 1);
      NextMoment(steps, k - 1);
    }
  }

  // At no moment of a run do two active contacts of an organization share a
  // channel, exactly if every insert's rows are still new when it happens.
  lemma RosterStaysDisjointExactlyWhen(steps: seq<Step>)
    ensures (forall k: nat :: DisjointAt(steps, k)) <==> (forall k: nat :: FreshAt(steps, k))
  {
    hide FreshAt;
    hide DisjointAt;
    if forall k: nat :: FreshAt(steps, k) {
      forall k: nat ensures DisjointAt(steps, k) {
        if k <= |steps| {
          DisjointSoFar(steps, k);
        } else {
          BeyondTheEnd(steps, k);
        }
      }
    }
    if forall k: nat :: DisjointAt(steps, k) {
      forall k: nat ensures FreshAt(steps, k) {
        if k < |steps| {
          NextMoment(steps, k);
          assert DisjointAt(steps, k + 1);
        } else {
          BeyondTheEnd(steps, k);
        }
      }
    }
  }

  lemma BeyondTheEnd(steps: seq<Step>, k: nat)
    ensures k >= |steps| ==> FreshAt(steps, k)
    ensures k > |steps| ==> DisjointAt(steps, k)
  {
  }

  // ── One import at a time ──────────────────────────────────────────

  // No two imports of one organization are in flight.
  predicate OneAtATime(d: Desk) {
    forall a, b :: a in d.held && b in d.held && a != b ==> d.held[a].orgId != d.held[b].orgId
  }

  ghost predicate AllFresh(d: Desk) {
    forall c: nat :: Fresh(d, c)
  }

  lemma InsertedElsewhere(roster: Roster, orgId: nat, rows: seq<RosterRow>, purgeAfter: int, other: nat)
    requires (forall id :: id in roster.contacts ==> id < roster.nextId) && other != orgId
    ensures Taken(Insert(roster, orgId, rows, purgeAfter).contacts, other) == Taken(roster.contacts, other)
  {
    InsertExtends(roster, orgId, rows, purgeAfter);
    var after := Insert(roster, orgId, rows, purgeAfter);
    forall id: nat ensures ActiveIn(after.contacts, id, other) <==> ActiveIn(roster.contacts, id, other) {
      if id in after.contacts && id !in roster.contacts {
        assert after.contacts[id] == ContactOf(orgId, rows[id - roster.nextId], purgeAfter);
      }
    }
  }

  lemma StepKeepsFresh(d: Desk, s: Step)
    requires DeskOk(d) && AllFresh(d) && OneAtATime(d)
    ensures AllFresh(Apply(d, s))
  {
    hide Taken;
    hide Insert;
    hide BatchOf;
    hide GoodBatch;
    var after := Apply(d, s);
    forall c: nat ensures Fresh(after, c) {
      assert Fresh(d, c);
      if s.Look? && Accepts(d, s) && c == s.call {
        LookIsGood(d, s);
      } else if s.InsertRows? && s.call in d.held && c in after.held {
        var b := d.held[s.call];
        InsertedElsewhere(d.roster, b.orgId, b.rows, b.purgeAfter, d.held[c].orgId);
      } else if s.ArchiveOne? && c in d.held {
        ArchiveTakesNothing(d.roster, s.orgId, s.id, s.purgeAfter, d.held[c].orgId);
      }
    }
  }

  // If an organization's imports do not overlap, its roster is sound after any
  // run, whatever other organizations and archives do in between.
  lemma {:induction false} OneImportAtATimeIsSound(steps: seq<Step>)
    requires forall k: nat :: k <= |steps| ==> OneAtATime(Run(steps[..k]))
    ensures Sound(Run(steps).roster) && AllFresh(Run(steps))
  {
    hide Apply;
    hide Disjoint;
    hide OneAtATime;
    hide AllFresh;
    RunsKeepDesk(steps);
    if steps == [] {
      EmptyIsFresh();
    } else {
      var n := |steps| - 1;
      forall k: nat | k <= n ensures OneAtATime(Run(steps[..n][..k])) {
        assert steps[..n][..k] == steps[..k];
      }
      assert steps[..n][..n] == steps[..n];
      OneImportAtATimeIsSound(steps[..n]);
      RunsKeepDesk(steps[..n]);
      assert OneAtATime(Run(steps[..n]));
      StepKeepsFresh(Run(steps[..n]), steps[n]);
      StepKeepsDesk(Run(steps[..n]), steps[n]);
      ItIsFresh(Run(steps[..n]), steps[n]);
    }
  }

  lemma ItIsFresh(d: Desk, s: Step)
    requires AllFresh(d)
    ensures s.InsertRows? ==> Fresh(d, s.call)
  {
  }

  lemma EmptyIsFresh()
    ensures AllFresh(START) && Disjoint(START.roster.contacts)
  {
  }

  // ── Two that overlap ──────────────────────────────────────────────

  // The same file, uploaded twice at once.
  function Twice(): seq<Step> {
    var file := Some(Upload());
    [Look(0, map[7 := "approved"], 7, file, 30), Look(1, map[7 := "approved"], 7, file, 30),
     InsertRows(0), InsertRows(1)]
  }

  lemma NothingTaken()
    ensures Taken(map[], 7) == {} && NewRows([ANN], {}) == [ANN]
  {
    assert [ANN][..0] == [];
  }

  lemma UploadIsLookedAt(d: Desk, c: nat)
    requires d.roster == START.roster && c !in d.held
    ensures
      Apply(d, Look(c, map[7 := "approved"], 7, Some(Upload()), 30)) == d.(held := d.held[c := Batch(7, [ANN], 30)])
  {
    hide Taken;
    hide NewRows;
    hide ParseOf;
    hide Upload;
    UploadIsAccepted();
    NothingTaken();
  }

  lemma InsertOne(roster: Roster)
    ensures Insert(roster, 7, [ANN], 30) ==
      Roster(roster.contacts[roster.nextId := ContactOf(7, ANN, 30)], roster.nextId + 1)
  {
    assert [ANN][..0] == [];
  }

  const HELD := Batch(7, [ANN], 30)

  lemma BothLook()
    ensures Run(Twice()[..2]) == START.(held := map[0 := HELD, 1 := HELD])
  {
    hide Run;
    hide Upload;
    hide Apply;
    Started();
    OneMore(Twice(), 0, START);
    UploadIsLookedAt(START, 0);
    OneMore(Twice(), 1, START.(held := map[0 := HELD]));
    UploadIsLookedAt(START.(held := map[0 := HELD]), 1);
  }

  lemma BothInsert()
    requires Run(Twice()[..2]) == START.(held := map[0 := HELD, 1 := HELD])
    ensures Run(Twice()).roster.contacts == map[0 := ContactOf(7, ANN, 30), 1 := ContactOf(7, ANN, 30)]
  {
    hide Run;
    hide Upload;
    hide Insert;
    var ann := ContactOf(7, ANN, 30);
    OneMore(Twice(), 2, START.(held := map[0 := HELD, 1 := HELD]));
    InsertOne(START.roster);
    assert map[0 := HELD, 1 := HELD] - {0} == map[1 := HELD];
    OneMore(Twice(), 3, Desk(Roster(map[0 := ann], 1), map[1 := HELD]));
    InsertOne(Roster(map[0 := ann], 1));
    assert Twice()[..4] == Twice();
  }

  // One person is on the roster twice.
  lemma OverlappingImportsCollide()
    ensures
      var end := Run(Twice()).roster;
      && ActiveIn(end.contacts, 0, 7) && ActiveIn(end.contacts, 1, 7)
      && EmailChannel("ann@x.co") in ContactChannels(end.contacts[0]) * ContactChannels(end.contacts[1])
      && !Disjoint(end.contacts)
  {
    hide Run;
    hide Twice;
    hide Upload;
    UploadIsAccepted();
    BothLook();
    BothInsert();
    BothThere(Run(Twice()).roster);
  }

  lemma Started()
    ensures Run(Twice()[..0]) == START
  {
  }

  lemma BothThere(roster: Roster)
    requires roster.contacts == map[0 := ContactOf(7, ANN, 30), 1 := ContactOf(7, ANN, 30)]
    requires Keys(ANN) == {EmailChannel("ann@x.co")}
    ensures
      && ActiveIn(roster.contacts, 0, 7) && ActiveIn(roster.contacts, 1, 7)
      && EmailChannel("ann@x.co") in ContactChannels(roster.contacts[0]) * ContactChannels(roster.contacts[1])
      && !Disjoint(roster.contacts)
  {
    var channel := EmailChannel("ann@x.co");
    assert ActiveIn(roster.contacts, 0, 7) && ActiveIn(roster.contacts, 1, 7);
    assert channel in ContactChannels(roster.contacts[0]) && channel in ContactChannels(roster.contacts[1]);
  }

  lemma OneMore(steps: seq<Step>, k: nat, d: Desk)
    requires k < |steps| && Run(steps[..k]) == d
    ensures Run(steps[..k + 1]) == Apply(d, steps[k])
  {
    assert steps[..k + 1][..k] == steps[..k];
  }
}
