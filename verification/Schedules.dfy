// Runs of the whole protocol, from the first upload on, that show what the
// theorems leave possible: a completed campaign that loses its recipients, a
// declined claim that gets a new token, and overlapping sweeps that try a job
// more often than three times.

module Schedules {
  import opened Wrappers
  import opened Text
  import opened RosterStore
  import opened RosterPurge
  import opened RosterRows
  import opened SampleUpload
  import opened Campaigns
  import opened Dispatch
  import opened ClaimFlow
  import opened Protocol
  import Invariants
  import OverlappingImports
  import ClaimSteps
  import Evolution
  import Guarantees
  import SweepProgress
  import SweepRefinement

  // ── From the upload to the first job ──────────────────────────────

  const PERSON := ContactOf(7, ANN, 30)
  const APPROVED_ORGS: map<nat, string> := map[7 := "approved"]
  const SHELF: Catalog :=
    map[5 := Product("Rose", 100.0, None, "flowers", true, "in_stock", 3, Some(Store("Florist", "approved")))]
  const PICTURE := GiftSnapshot(5, "Rose", 100.0, None, "flowers", 3, "Florist")

  const DRAFTED := Campaign(7, "Spring", None, None, Draft, 1, None, None, None, None, {})
  const CHOSEN := DRAFTED.(option := Some(GiftOption(5, None)))
  const ADDRESSED := CHOSEN.(recipients := {0})
  const SUBMITTED := ADDRESSED.(status := PendingApproval)
  const SEALED := SUBMITTED.(
    status := Approved, approvedBy := Some(2), option := Some(GiftOption(5, Some(PICTURE))))
  const SENDING := SEALED.(status := CampaignStatus.Dispatching)
  const QUEUED := Job(0, 0, Pending, 0, None, None)

  function Launch(): seq<Event> {
    [ImportRoster(APPROVED_ORGS, 7, Some(Upload()), 30),
     CreateCampaign(APPROVED_ORGS, 1, 7, Some("Spring"), None, None),
     ReviseCampaign(7, 0, 1, SHELF, SetGiftOption(Some(5))),
     ReviseCampaign(7, 0, 1, SHELF, AddRecipients([0])),
     ReviseCampaign(7, 0, 1, SHELF, Submit),
     ReviseCampaign(7, 0, 2, SHELF, Approve),
     BeginDispatch(0, 7, 0), LoadRows(0, [0]), CommitRows(0)]
  }

  function Staffed(campaigns: seq<Campaign>): State {
    START.(roster := Roster(map[0 := PERSON], 1), campaigns := campaigns)
  }

  const LAUNCHED := Staffed([SENDING]).(
    jobs := [QUEUED], dispatchers := map[0 := Answered(Success(1))])

  lemma OneMore(s: State, events: seq<Event>, k: nat, before: State)
    requires k < |events| && RunFrom(s, events[..k]) == before
    ensures RunFrom(s, events[..k + 1]) == Protocol.Apply(before, events[k])
  {
    assert events[..k + 1][..k] == events[..k];
  }

  lemma Imported()
    ensures AfterImport(APPROVED_ORGS, Roster(map[], 0), 7, Some(Upload()), 30) == Roster(map[0 := PERSON], 1)
  {
    hide Upload;
    hide ParseOf;
    hide Taken;
    hide NewRows;
    UploadIsAccepted();
    OverlappingImports.NothingTaken();
    assert [ANN][..0] == [];
  }

  lemma Drafted()
    ensures Create(APPROVED_ORGS, 1, 7, Some("Spring"), None, None) == Success(DRAFTED)
  {
    Visible("Spring");
  }

  lemma Revisions(contacts: map<nat, Contact>)
    requires contacts == map[0 := PERSON]
    ensures Revise([DRAFTED], 7, 0, 1, contacts, SHELF, SetGiftOption(Some(5))) == Success(CHOSEN)
    ensures Revise([CHOSEN], 7, 0, 1, contacts, SHELF, AddRecipients([0])) == Success(ADDRESSED)
    ensures Revise([ADDRESSED], 7, 0, 1, contacts, SHELF, Submit) == Success(SUBMITTED)
    ensures Revise([SUBMITTED], 7, 0, 2, contacts, SHELF, Approve) == Success(SEALED)
  {
    assert ValidContacts(contacts, 7, [0]) == {0};
    assert {} + {0} == {0};
  }

  lemma UpToDraft()
    ensures RunFrom(START, Launch()[..2]) == Staffed([DRAFTED])
  {
    hide RunFrom;
    hide Upload;
    hide Create;
    hide AfterImport;
    Imported();
    Drafted();
    NothingYet(Launch());
    OneMore(START, Launch(), 0, START);
    OneMore(START, Launch(), 1, Staffed([]));
    assert [] + [DRAFTED] == [DRAFTED];
  }

  lemma NothingYet(events: seq<Event>)
    ensures RunFrom(START, events[..0]) == START
  {
  }

  lemma OneRevision(c: Campaign, after: Campaign, actor: nat, action: Campaigns.Action)
    requires Revise([c], 7, 0, actor, map[0 := PERSON], SHELF, action) == Success(after)
    ensures Protocol.Apply(Staffed([c]), ReviseCampaign(7, 0, actor, SHELF, action)) == Staffed([after])
  {
    hide Revise;
    assert [c][0 := after] == [after];
  }

  lemma UpToApproval()
    requires RunFrom(START, Launch()[..2]) == Staffed([DRAFTED])
    ensures RunFrom(START, Launch()[..6]) == Staffed([SEALED])
  {
    hide RunFrom;
    hide Upload;
    hide Protocol.Apply;
    hide Revise;
    hide Staffed;
    Revisions(map[0 := PERSON]);
    OneRevision(DRAFTED, CHOSEN, 1, SetGiftOption(Some(5)));
    OneMore(START, Launch(), 2, Staffed([DRAFTED]));
    OneRevision(CHOSEN, ADDRESSED, 1, AddRecipients([0]));
    OneMore(START, Launch(), 3, Staffed([CHOSEN]));
    OneRevision(ADDRESSED, SUBMITTED, 1, Submit);
    OneMore(START, Launch(), 4, Staffed([ADDRESSED]));
    OneRevision(SUBMITTED, SEALED, 2, Approve);
    OneMore(START, Launch(), 5, Staffed([SUBMITTED]));
  }

  lemma Enqueued()
    ensures Enqueue([], 0, [0]) == [QUEUED]
  {
    assert [0][..0] == [];
    assert !HasJob([], 0, 0);
  }

  lemma DispatchedInThreeSteps()
    ensures
      var s := Staffed([SEALED]);
      var checked := s.(dispatchers := map[0 := Checked(0)]);
      var loaded := s.(dispatchers := map[0 := Loaded(0, [0])]);
      && Protocol.Apply(s, BeginDispatch(0, 7, 0)) == checked
      && Protocol.Apply(checked, LoadRows(0, [0])) == loaded
      && Protocol.Apply(loaded, CommitRows(0)) == LAUNCHED
  {
    hide Enqueue;
    Enqueued();
    assert Distinct([0]) == {0};
    assert [SEALED][0 := SENDING] == [SENDING];
  }

  lemma Launched()
    ensures Protocol.Run(Launch()) == LAUNCHED
  {
    hide RunFrom;
    hide Upload;
    hide Protocol.Apply;
    hide Staffed;
    UpToDraft();
    UpToApproval();
    DispatchedInThreeSteps();
    var s := Staffed([SEALED]);
    OneMore(START, Launch(), 6, s);
    OneMore(START, Launch(), 7, s.(dispatchers := map[0 := Checked(0)]));
    OneMore(START, Launch(), 8, s.(dispatchers := map[0 := Loaded(0, [0])]));
    assert Launch()[..9] == Launch();
  }

  // ── A worker's way through the one row ────────────────────────────

  // What a worker sees of the launched state, with these jobs and claims.
  function Tabs(job: Job, claims: seq<Claim>): Tables {
    Tables(map[0 := PERSON], [SENDING], [job], claims)
  }

  // The job of the launch, with any history.
  predicate IsTheJob(job: Job) {
    job.campaignId == 0 && job.contactId == 0
  }

  const LOOK_UP := [ClaimJob, ReadChannel, MintLookup]

  lemma {:induction false} Advances(p: Progress, steps: seq<WorkerStep>, k: nat, before: Progress)
    requires k < |steps| && AdvanceAll(p, steps[..k]) == before
    ensures AdvanceAll(p, steps[..k + 1]) == Advance(before, steps[k])
  {
    hide Advance;
    assert steps[..k + 1][..k] == steps[..k];
  }

  lemma NotYet(p: Progress, steps: seq<WorkerStep>)
    ensures AdvanceAll(p, steps[..0]) == p
  {
  }

  lemma PersonIsReachable()
    ensures ChannelOf(PERSON) == Some(EmailChannel("ann@x.co")) && Reachable(map[0 := PERSON], 0)
  {
  }

  lemma ClaimsTheJob(job: Job, claims: seq<Claim>, row: BatchRow)
    requires IsTheJob(job) && job.status == Pending && row.jobId == 0
    ensures
      Advance(Progress(Tabs(job, claims), Busy([row], 0, Next)), ClaimJob) ==
      Progress(Tabs(SweepProgress.Taken(job), claims), Busy([row], row.attempts + 1, Claiming))
  {
    assert [job][0 := SweepProgress.Taken(job)] == [SweepProgress.Taken(job)];
  }

  lemma ReadsTheChannel(job: Job, claims: seq<Claim>, row: BatchRow, n: nat)
    requires IsTheJob(job) && row.jobId == 0
    ensures
      Advance(Progress(Tabs(job, claims), Busy([row], n, Claiming)), ReadChannel) ==
      Progress(Tabs(job, claims), Busy([row], n, Reached))
  {
    hide ChannelOf;
    PersonIsReachable();
  }

  lemma LooksTheClaimUp(job: Job, claims: seq<Claim>, row: BatchRow, n: nat)
    requires row.jobId == 0
    requires ClaimOfJob(claims, 0).Some? ==> claims[ClaimOfJob(claims, 0).value].status == Open
    ensures
      Advance(Progress(Tabs(job, claims), Busy([row], n, Reached)), MintLookup) ==
      Progress(Tabs(job, claims), Busy([row], n, LookedUp(ClaimOfJob(claims, 0))))
  {
  }

  lemma RowLooksUp(job: Job, claims: seq<Claim>, row: BatchRow)
    requires IsTheJob(job) && job.status == Pending && row.jobId == 0
    requires ClaimOfJob(claims, 0).Some? ==> claims[ClaimOfJob(claims, 0).value].status == Open
    ensures
      AdvanceAll(Progress(Tabs(job, claims), Busy([row], 0, Next)), LOOK_UP) ==
      Progress(Tabs(SweepProgress.Taken(job), claims), Busy([row], row.attempts + 1, LookedUp(ClaimOfJob(claims, 0))))
  {
    hide Advance;
    hide AdvanceAll;
    hide Tabs;
    var p, n, held := Progress(Tabs(job, claims), Busy([row], 0, Next)), row.attempts + 1, SweepProgress.Taken(job);
    NotYet(p, LOOK_UP);
    Advances(p, LOOK_UP, 0, p);
    ClaimsTheJob(job, claims, row);
    Advances(p, LOOK_UP, 1, Progress(Tabs(held, claims), Busy([row], n, Claiming)));
    ReadsTheChannel(held, claims, row, n);
    Advances(p, LOOK_UP, 2, Progress(Tabs(held, claims), Busy([row], n, Reached)));
    LooksTheClaimUp(held, claims, row, n);
    assert LOOK_UP[..3] == LOOK_UP;
  }

  // From the look-up to the settling write.
  function MintAndDeliver(token: string, reference: string, outcome: Delivery): seq<WorkerStep> {
    [MintContact, MintCampaign, MintWrite(token, reference, 100), Deliver(outcome), Settle]
  }

  function Ready(existing: Option<nat>): Stage {
    MintReady(existing, PERSON, None, PICTURE)
  }

  lemma ReadsForTheMint(job: Job, claims: seq<Claim>, row: BatchRow, n: nat, existing: Option<nat>)
    requires IsTheJob(job) && row.jobId == 0
    ensures
      var read := Progress(Tabs(job, claims), Busy([row], n, ContactRead(existing, PERSON)));
      && Advance(Progress(Tabs(job, claims), Busy([row], n, LookedUp(existing))), MintContact) == read
      && Advance(read, MintCampaign) == Progress(Tabs(job, claims), Busy([row], n, Ready(existing)))
  {
    hide ChannelOf;
    PersonIsReachable();
  }

  // The claim of the job after its mint.
  function MintedClaim(job: Job, claims: seq<Claim>, token: string, reference: string): seq<Claim>
    requires claims == [] || |claims| == 1
  {
    PersonIsReachable();
    if claims == [] then [FirstMint(0, job, Ready(None), token, reference, 100)]
    else [Rotated(claims[0], job, Ready(Some(0)), token, 100)]
  }

  lemma Mints(job: Job, claims: seq<Claim>, row: BatchRow, n: nat, token: string, reference: string)
    requires IsTheJob(job) && row.jobId == 0 && (claims == [] || |claims| == 1)
    ensures
      Advance(
        Progress(Tabs(job, claims), Busy([row], n, Ready(if claims == [] then None else Some(0)))),
        MintWrite(token, reference, 100)) ==
      Progress(Tabs(job, MintedClaim(job, claims, token, reference)), Busy([row], n, Minted(0)))
  {
    hide ChannelOf;
    hide FirstMint;
    hide Rotated;
    PersonIsReachable();
  }

  lemma DeliversAndSettles(job: Job, claims: seq<Claim>, row: BatchRow, n: nat, outcome: Delivery)
    requires IsTheJob(job) && row.jobId == 0 && job.status == Processing
    ensures
      var sent := Progress(Tabs(job, claims), Busy([row], n, Sent(0, outcome)));
      && Advance(Progress(Tabs(job, claims), Busy([row], n, Minted(0))), Deliver(outcome)) == sent
      && Advance(sent, Settle) ==
           Progress(Tabs(Settled(job, n, Sent(0, outcome)), claims), Busy([], 0, Next))
  {
    var settled := Settled(job, n, Sent(0, outcome));
    assert [job][0 := settled] == [settled];
    assert [row][1..] == [];
  }

  lemma RowMintsAndSettles(
    job: Job, claims: seq<Claim>, row: BatchRow, n: nat, token: string, reference: string, outcome: Delivery)
    requires IsTheJob(job) && row.jobId == 0 && job.status == Processing && (claims == [] || |claims| == 1)
    ensures
      var existing := if claims == [] then None else Some(0);
      AdvanceAll(
        Progress(Tabs(job, claims), Busy([row], n, LookedUp(existing))), MintAndDeliver(token, reference, outcome)) ==
      Progress(
        Tabs(Settled(job, n, Sent(0, outcome)), MintedClaim(job, claims, token, reference)), Busy([], 0, Next))
  {
    hide Advance;
    hide AdvanceAll;
    hide Tabs;
    hide Ready;
    hide MintedClaim;
    hide Settled;
    var existing := if claims == [] then None else Some(0);
    var steps, after := MintAndDeliver(token, reference, outcome), MintedClaim(job, claims, token, reference);
    var p := Progress(Tabs(job, claims), Busy([row], n, LookedUp(existing)));
    NotYet(p, steps);
    Advances(p, steps, 0, p);
    ReadsForTheMint(job, claims, row, n, existing);
    Advances(p, steps, 1, Progress(Tabs(job, claims), Busy([row], n, ContactRead(existing, PERSON))));
    Advances(p, steps, 2, Progress(Tabs(job, claims), Busy([row], n, Ready(existing))));
    Mints(job, claims, row, n, token, reference);
    Advances(p, steps, 3, Progress(Tabs(job, after), Busy([row], n, Minted(0))));
    DeliversAndSettles(job, after, row, n, outcome);
    Advances(p, steps, 4, Progress(Tabs(job, after), Busy([row], n, Sent(0, outcome))));
    assert steps[..5] == steps;
  }

  // ── Its steps as events ───────────────────────────────────────────

  lemma OneStepOfWork(s: State, w: nat, step: WorkerStep)
    requires w in s.workers
    ensures
      var p := Advance(Progress(TablesOf(s), s.workers[w]), step);
      && p.tables.contacts == s.roster.contacts
      && Protocol.Apply(s, Work(w, step)) ==
           s.(campaigns := p.tables.campaigns, jobs := p.tables.jobs, claims := p.tables.claims,
              workers := s.workers[w := p.worker])
  {
    hide ClaimStep;
    hide ReadChannelStep;
    hide MintLookupStep;
    hide MintContactStep;
    hide MintCampaignStep;
    hide MintWriteStep;
    hide SettleStep;
    hide DeliverStep;
    hide Complete;
  }

  // Working moves the tables and the worker, and nothing else.
  lemma {:induction false} WorkingIs(s: State, w: nat, steps: seq<WorkerStep>)
    requires w in s.workers
    ensures
      var p := AdvanceAll(Progress(TablesOf(s), s.workers[w]), steps);
      && p.tables.contacts == s.roster.contacts
      && RunFrom(s, SweepRefinement.WorkEvents(w, steps)) ==
           s.(campaigns := p.tables.campaigns, jobs := p.tables.jobs, claims := p.tables.claims,
              workers := s.workers[w := p.worker])
  {
    hide Protocol.Apply;
    hide Advance;
    if steps == [] {
      assert s.workers[w := s.workers[w]] == s.workers;
    } else {
      var n := |steps| - 1;
      WorkingIs(s, w, steps[..n]);
      assert SweepRefinement.WorkEvents(w, steps)[..n] == SweepRefinement.WorkEvents(w, steps[..n]);
      var before := RunFrom(s, SweepRefinement.WorkEvents(w, steps[..n]));
      OneStepOfWork(before, w, steps[n]);
    }
  }

  // A worker takes the job through the whole row.
  function RowEvents(w: nat, token: string, reference: string, outcome: Delivery): seq<Event> {
    SweepRefinement.WorkEvents(w, LOOK_UP) + SweepRefinement.WorkEvents(w, MintAndDeliver(token, reference, outcome))
  }

  // The launched state, further on.
  predicate IsLaunched(s: State, job: Job, claims: seq<Claim>) {
    && s.roster.contacts == map[0 := PERSON] && s.campaigns == [SENDING] && s.jobs == [job] && s.claims == claims
    && IsTheJob(job) && (claims == [] || (|claims| == 1 && claims[0].jobId == 0 && claims[0].status == Open))
  }

  lemma TheOneClaim(claims: seq<Claim>)
    requires claims == [] || (|claims| == 1 && claims[0].jobId == 0)
    ensures ClaimOfJob(claims, 0) == if claims == [] then None else Some(0)
  {
  }

  lemma LookingUp(s: State, w: nat, row: BatchRow, job: Job, claims: seq<Claim>)
    requires IsLaunched(s, job, claims) && job.status == Pending && row.jobId == 0
    requires w in s.workers && s.workers[w] == Busy([row], 0, Next)
    ensures
      RunFrom(s, SweepRefinement.WorkEvents(w, LOOK_UP)) == s.(
        jobs := [SweepProgress.Taken(job)],
        workers := s.workers[w :=
          Busy([row], row.attempts + 1, LookedUp(if claims == [] then None else Some(0)))])
  {
    hide RunFrom;
    hide AdvanceAll;
    TheOneClaim(claims);
    RowLooksUp(job, claims, row);
    WorkingIs(s, w, LOOK_UP);
  }

  lemma MintingAndSettling(
    s: State, w: nat, row: BatchRow, n: nat, job: Job, claims: seq<Claim>,
    token: string, reference: string, outcome: Delivery)
    requires IsLaunched(s, job, claims) && job.status == Processing && row.jobId == 0
    requires w in s.workers && s.workers[w] == Busy([row], n, LookedUp(if claims == [] then None else Some(0)))
    ensures
      RunFrom(s, SweepRefinement.WorkEvents(w, MintAndDeliver(token, reference, outcome))) == s.(
        jobs := [Settled(job, n, Sent(0, outcome))],
        claims := MintedClaim(job, claims, token, reference),
        workers := s.workers[w := Busy([], 0, Next)])
  {
    hide RunFrom;
    hide AdvanceAll;
    hide MintedClaim;
    RowMintsAndSettles(job, claims, row, n, token, reference, outcome);
    WorkingIs(s, w, MintAndDeliver(token, reference, outcome));
  }

  lemma WholeRow(
    s: State, w: nat, row: BatchRow, job: Job, claims: seq<Claim>,
    token: string, reference: string, outcome: Delivery)
    requires IsLaunched(s, job, claims) && job.status == Pending && row.jobId == 0
    requires w in s.workers && s.workers[w] == Busy([row], 0, Next)
    ensures
      var held := SweepProgress.Taken(job);
      var end := RunFrom(s, RowEvents(w, token, reference, outcome));
      && end == s.(
           jobs := [Settled(held, row.attempts + 1, Sent(0, outcome))],
           claims := MintedClaim(held, claims, token, reference),
           workers := s.workers[w := Busy([], 0, Next)])
      && IsLaunched(end, end.jobs[0], end.claims)
  {
    hide RunFrom;
    var held, n := SweepProgress.Taken(job), row.attempts + 1;
    var looking, minting :=
      SweepRefinement.WorkEvents(w, LOOK_UP), SweepRefinement.WorkEvents(w, MintAndDeliver(token, reference, outcome));
    LookingUp(s, w, row, job, claims);
    var s1 := RunFrom(s, looking);
    Evolution.RunSplits(s, looking, minting);
    MintingAndSettling(s1, w, row, n, held, claims, token, reference, outcome);
    assert s1.workers[w := Busy([], 0, Next)] == s.workers[w := Busy([], 0, Next)];
  }

  lemma BatchOfOne(job: Job)
    requires job.status == Pending
    ensures Batch([job]) == [BatchRow(0, job.attempts)]
  {
    assert [job][..0] == [];
    assert PendingRows([]) == [];
    assert PendingRows([job]) == [BatchRow(0, job.attempts)];
  }

  lemma Sweeping(s: State, w: nat, job: Job)
    requires s.jobs == [job] && job.status == Pending && WorkerOf(s, w).Idle?
    ensures
      Protocol.Apply(s, BeginSweep(w)) == s.(workers := s.workers[w := Busy([BatchRow(0, job.attempts)], 0, Next)])
  {
    hide Batch;
    BatchOfOne(job);
  }

  lemma One(s: State, e: Event)
    ensures RunFrom(s, [e]) == Protocol.Apply(s, e)
  {
    hide Protocol.Apply;
    assert [e][..0] == [];
  }

  // ── A completed campaign without recipients ───────────────────────

  function DeliveredRun(): seq<Event> {
    Launch() + [BeginSweep(0)] + RowEvents(0, "the first token of Ann", "QG-1", Delivered) + [Work(0, Finish)]
  }

  const ARRIVED := SweepProgress.Taken(QUEUED).(status := Dispatched, claimRef := Some(0))

  lemma NobodyLeft(s: State)
    requires s.campaigns == [SENDING] && s.jobs == [ARRIVED] && 0 in s.workers && s.workers[0] == Busy([], 0, Next)
    ensures
      Protocol.Apply(s, Work(0, Finish)) ==
      s.(campaigns := [SENDING.(status := Completed)], workers := s.workers[0 := Idle])
  {
    assert !HasLiveJob([ARRIVED], 0);
    assert Complete([SENDING], [ARRIVED]) == [SENDING.(status := Completed)];
  }

  lemma Delivering()
    ensures
      var end := Protocol.Run(DeliveredRun());
      && end.campaigns == [SENDING.(status := Completed)] && end.roster.contacts == map[0 := PERSON]
      && end.jobs == [ARRIVED]
  {
    hide RunFrom;
    hide Protocol.Apply;
    hide Launch;
    hide RowEvents;
    var row := RowEvents(0, "the first token of Ann", "QG-1", Delivered);
    Launched();
    Evolution.RunSplits(START, Launch(), [BeginSweep(0)]);
    One(LAUNCHED, BeginSweep(0));
    Sweeping(LAUNCHED, 0, QUEUED);
    var begun := LAUNCHED.(workers := map[0 := Busy([BatchRow(0, 0)], 0, Next)]);
    assert LAUNCHED.workers[0 := Busy([BatchRow(0, 0)], 0, Next)] == begun.workers;
    Evolution.RunSplits(START, Launch() + [BeginSweep(0)], row);
    WholeRow(begun, 0, BatchRow(0, 0), QUEUED, [], "the first token of Ann", "QG-1", Delivered);
    var settled := RunFrom(begun, row);
    Evolution.RunSplits(START, Launch() + [BeginSweep(0)] + row, [Work(0, Finish)]);
    One(settled, Work(0, Finish));
    NobodyLeft(settled);
  }

  lemma PurgeTakesAnn(s: State)
    requires s.roster.contacts == map[0 := PERSON] && s.campaigns == [SENDING.(status := Completed)]
    ensures
      var after := Protocol.Apply(s, PurgeRoster(31));
      after.campaigns == [SENDING.(status := Completed, recipients := {})] && after.roster.contacts == map[]
  {
    var contacts, campaigns := s.roster.contacts, s.campaigns;
    assert Purgeable(contacts, campaigns, 0, 31);
    var left := Remaining(contacts, campaigns, 31);
    assert left == map[];
    assert {0} * left.Keys == {};
    assert Cascade(campaigns, left) == [SENDING.(status := Completed, recipients := {})];
  }

  // The job is delivered, the campaign completed, and then its contact's
  // retention ends.
  lemma CompletedCampaignLosesItsRecipients()
    ensures
      var before, after := Protocol.Run(DeliveredRun()), Protocol.Run(DeliveredRun() + [PurgeRoster(31)]);
      && |before.campaigns| == 1 == |after.campaigns|
      && before.campaigns[0].status == Completed == after.campaigns[0].status
      && before.campaigns[0].recipients == {0} && after.campaigns[0].recipients == {}
  {
    hide RunFrom;
    hide Protocol.Apply;
    hide DeliveredRun;
    Delivering();
    Evolution.RunSplits(START, DeliveredRun(), [PurgeRoster(31)]);
    One(Protocol.Run(DeliveredRun()), PurgeRoster(31));
    PurgeTakesAnn(Protocol.Run(DeliveredRun()));
  }

  // ── Overlapping sweeps ────────────────────────────────────────────

  const BUSY := Delivery.Rejected("busy", false)

  // Three workers read the queue before any of them claims, and the provider is
  // busy every time.
  function OverlappingRun(): seq<Event> {
    Launch() + [BeginSweep(0), BeginSweep(1), BeginSweep(2)]
      + RowEvents(0, "the first token of Ann", "QG-1", BUSY)
      + RowEvents(1, "the second token of Ann", "QG-1", BUSY)
      + RowEvents(2, "the third token of Ann", "QG-1", BUSY)
  }

  function TriedAgain(attempts: nat): Job {
    QUEUED.(attempts := attempts, lastError := if attempts == 0 then None else Some(Provider("busy")))
  }

  lemma ThreeBegin()
    ensures
      var row := Busy([BatchRow(0, 0)], 0, Next);
      RunFrom(LAUNCHED, [BeginSweep(0), BeginSweep(1), BeginSweep(2)]) ==
      LAUNCHED.(workers := map[0 := row, 1 := row, 2 := row])
  {
    hide RunFrom;
    hide Protocol.Apply;
    var events := [BeginSweep(0), BeginSweep(1), BeginSweep(2)];
    var row := Busy([BatchRow(0, 0)], 0, Next);
    NothingFrom(LAUNCHED, events);
    OneMore(LAUNCHED, events, 0, LAUNCHED);
    Sweeping(LAUNCHED, 0, QUEUED);
    OneMore(LAUNCHED, events, 1, LAUNCHED.(workers := map[0 := row]));
    Sweeping(LAUNCHED.(workers := map[0 := row]), 1, QUEUED);
    OneMore(LAUNCHED, events, 2, LAUNCHED.(workers := map[0 := row, 1 := row]));
    Sweeping(LAUNCHED.(workers := map[0 := row, 1 := row]), 2, QUEUED);
    assert events[..3] == events;
  }

  lemma NothingFrom(s: State, events: seq<Event>)
    ensures RunFrom(s, events[..0]) == s
  {
  }

  // A worker with a stale row tries the job once more, as if for the first time.
  lemma TriesOnceMore(s: State, w: nat, attempts: nat, token: string)
    requires IsLaunched(s, TriedAgain(attempts), s.claims)
    requires w in s.workers && s.workers[w] == Busy([BatchRow(0, 0)], 0, Next)
    ensures
      var after := RunFrom(s, RowEvents(w, token, "QG-1", BUSY));
      && IsLaunched(after, TriedAgain(attempts + 1), after.claims)
      && after.workers == s.workers[w := Busy([], 0, Next)]
  {
    hide RunFrom;
    hide RowEvents;
    WholeRow(s, w, BatchRow(0, 0), TriedAgain(attempts), s.claims, token, "QG-1", BUSY);
  }

  // So the limit of three attempts rests on sweeps not overlapping: here a job
  // goes back to the queue after its third.
  lemma OverlappingSweepsExceedTheLimit()
    ensures
      var end := Protocol.Run(OverlappingRun());
      |end.jobs| == 1 && end.jobs[0].status == Pending && end.jobs[0].attempts == MAX_DISPATCH_ATTEMPTS
  {
    hide RunFrom;
    hide Protocol.Apply;
    hide Launch;
    hide RowEvents;
    var begins := [BeginSweep(0), BeginSweep(1), BeginSweep(2)];
    var r0 := RowEvents(0, "the first token of Ann", "QG-1", BUSY);
    var r1 := RowEvents(1, "the second token of Ann", "QG-1", BUSY);
    var r2 := RowEvents(2, "the third token of Ann", "QG-1", BUSY);
    Launched();
    Evolution.RunSplits(START, Launch(), begins);
    ThreeBegin();
    var s0 := RunFrom(LAUNCHED, begins);
    Evolution.RunSplits(START, Launch() + begins, r0);
    TriesOnceMore(s0, 0, 0, "the first token of Ann");
    Evolution.RunSplits(START, Launch() + begins + r0, r1);
    TriesOnceMore(RunFrom(s0, r0), 1, 1, "the second token of Ann");
    Evolution.RunSplits(START, Launch() + begins + r0 + r1, r2);
    TriesOnceMore(RunFrom(RunFrom(s0, r0), r1), 2, 2, "the third token of Ann");
  }

  // ── A declined claim with a new token ─────────────────────────────

  const TOKEN := "the first token of Ann"
  const ROTATED := "the second token of Ann"

  // The first sweep mints, and its delivery fails for now; the second looks the
  // claim up again.
  function LookedUpAgain(): seq<Event> {
    Launch() + [BeginSweep(0)] + RowEvents(0, TOKEN, "QG-1", BUSY) + [Work(0, Finish), BeginSweep(0)]
      + SweepRefinement.WorkEvents(0, LOOK_UP)
  }

  // Meanwhile the recipient proves the channel and is about to decline.
  function AboutToDecline(): seq<Event> {
    [Call(0, TOKEN, VerifyOtp(true), 10), Return(0, true, "session", 10),
     Call(0, TOKEN, Act(Some("session"), Decline), 10)]
  }

  function DeclineAndMint(): seq<Event> {
    [Return(0, true, "", 0), Work(0, MintContact), Work(0, MintCampaign), Work(0, MintWrite(ROTATED, "QG-2", 100))]
  }

  function AnnsFirstClaim(): Claim {
    MintedClaim(SweepProgress.Taken(QUEUED), [], TOKEN, "QG-1")[0]
  }

  lemma AnnsClaim()
    ensures MintedClaim(SweepProgress.Taken(QUEUED), [], TOKEN, "QG-1") == [AnnsFirstClaim()]
    ensures
      var claim := AnnsFirstClaim();
      && claim.jobId == 0 && claim.token == TOKEN && claim.status == Open
      && claim.expiresAt == 100 && claim.session.None? && claim.otpVerifiedAt.None?
  {
  }

  lemma SweepEndsEmptyHanded(s: State)
    requires s.campaigns == [SENDING] && s.jobs == [TriedAgain(1)] && 0 in s.workers && s.workers[0] == Busy([], 0, Next)
    ensures Protocol.Apply(s, Work(0, Finish)) == s.(workers := s.workers[0 := Idle])
  {
    var jobs := [TriedAgain(1)];
    assert jobs[0].campaignId == 0 && Live(jobs[0]);
    assert HasLiveJob(jobs, 0);
    assert Complete([SENDING], [TriedAgain(1)]) == [SENDING];
  }

  lemma TwoMore(s: State, e: Event, f: Event)
    ensures RunFrom(s, [e, f]) == Protocol.Apply(Protocol.Apply(s, e), f)
  {
    hide Protocol.Apply;
    NothingFrom(s, [e, f]);
    OneMore(s, [e, f], 0, s);
    OneMore(s, [e, f], 1, Protocol.Apply(s, e));
    assert [e, f][..2] == [e, f];
  }

  // After the first sweep.
  lemma MintedOnce()
    ensures
      var events := Launch() + [BeginSweep(0)] + RowEvents(0, TOKEN, "QG-1", BUSY);
      Protocol.Run(events) == LAUNCHED.(
        jobs := [TriedAgain(1)], claims := [AnnsFirstClaim()], workers := map[0 := Busy([], 0, Next)])
  {
    hide RunFrom;
    hide Protocol.Apply;
    hide Launch;
    hide RowEvents;
    hide MintedClaim;
    hide AnnsFirstClaim;
    var row := RowEvents(0, TOKEN, "QG-1", BUSY);
    Launched();
    AnnsClaim();
    Evolution.RunSplits(START, Launch(), [BeginSweep(0)]);
    One(LAUNCHED, BeginSweep(0));
    Sweeping(LAUNCHED, 0, QUEUED);
    var begun := LAUNCHED.(workers := map[0 := Busy([BatchRow(0, 0)], 0, Next)]);
    assert LAUNCHED.workers[0 := Busy([BatchRow(0, 0)], 0, Next)] == begun.workers;
    Evolution.RunSplits(START, Launch() + [BeginSweep(0)], row);
    WholeRow(begun, 0, BatchRow(0, 0), QUEUED, [], TOKEN, "QG-1", BUSY);
    assert begun.workers[0 := Busy([], 0, Next)] == map[0 := Busy([], 0, Next)];
  }

  // The second sweep has looked Ann's claim up.
  const WAITING := Busy([BatchRow(0, 1)], 2, LookedUp(Some(0)))

  lemma LookingUpAgain()
    ensures
      Protocol.Run(LookedUpAgain()) == LAUNCHED.(
        jobs := [SweepProgress.Taken(TriedAgain(1))], claims := [AnnsFirstClaim()], workers := map[0 := WAITING])
  {
    hide RunFrom;
    hide Protocol.Apply;
    hide Launch;
    hide RowEvents;
    hide MintedClaim;
    hide AnnsFirstClaim;
    var first := Launch() + [BeginSweep(0)] + RowEvents(0, TOKEN, "QG-1", BUSY);
    MintedOnce();
    AnnsClaim();
    var s := Protocol.Run(first);
    SweepEndsEmptyHanded(s);
    var idle := s.(workers := map[0 := Idle]);
    assert s.workers[0 := Idle] == idle.workers;
    Sweeping(idle, 0, TriedAgain(1));
    var begun := idle.(workers := map[0 := Busy([BatchRow(0, 1)], 0, Next)]);
    assert idle.workers[0 := Busy([BatchRow(0, 1)], 0, Next)] == begun.workers;
    TwoMore(s, Work(0, Finish), BeginSweep(0));
    Evolution.RunSplits(START, first, [Work(0, Finish), BeginSweep(0)]);
    Evolution.RunSplits(
      START, first + [Work(0, Finish), BeginSweep(0)], SweepRefinement.WorkEvents(0, LOOK_UP));
    LookingUp(begun, 0, BatchRow(0, 1), TriedAgain(1), [AnnsFirstClaim()]);
    assert begun.workers[0 := WAITING] == map[0 := WAITING];
  }

  lemma AnnSendsHerCode(s: State, claim: Claim)
    requires s.claims == [claim] && s.clients == map[]
    requires claim.token == TOKEN && claim.status == Open && claim.expiresAt == 100 && claim.otpVerifiedAt.None?
    ensures
      Protocol.Apply(s, Call(0, TOKEN, VerifyOtp(true), 10)) == s.(clients := map[0 := Verifying(0, None)])
  {
    assert ClaimByToken([claim], TOKEN) == Some(0);
  }

  lemma AnnProvesTheChannel(s: State, claim: Claim)
    requires s.claims == [claim] && s.clients == map[0 := Verifying(0, None)]
    ensures
      var proved := claim.(session := Some(Session("session", 10 + SESSION_TTL_MS)), otpVerifiedAt := Some(10));
      Protocol.Apply(s, Return(0, true, "session", 10)) ==
      s.(claims := [proved], clients := map[0 := Replied(Success("session"))])
  {
    var proved := claim.(session := Some(Session("session", 10 + SESSION_TTL_MS)), otpVerifiedAt := Some(10));
    assert [claim][0 := proved] == [proved];
    assert s.wins + [] == s.wins;
  }

  lemma AnnIsAboutToDecline(s: State, claim: Claim)
    requires s.claims == [claim] && 0 in s.clients
    requires claim.token == TOKEN && claim.status == Open && claim.expiresAt == 100
    requires claim.session == Some(Session("session", 10 + SESSION_TTL_MS)) && claim.otpVerifiedAt == Some(10)
    ensures
      Protocol.Apply(s, Call(0, TOKEN, Act(Some("session"), Decline), 10)) ==
      s.(clients := s.clients[0 := Acting(0, Decline)])
  {
    assert ClaimByToken([claim], TOKEN) == Some(0);
  }

  // The state the schedule needs is reached.
  lemma DeclineMeetsLookup()
    ensures
      var s := Protocol.Run(LookedUpAgain() + AboutToDecline());
      && WorkerOf(s, 0) == WAITING && ClientOf(s, 0) == Acting(0, Decline)
      && |s.claims| == 1 && s.claims[0].status == Open && s.claims[0].token == TOKEN
  {
    hide RunFrom;
    hide Protocol.Apply;
    hide LookedUpAgain;
    hide MintedClaim;
    hide AnnsFirstClaim;
    LookingUpAgain();
    AnnsClaim();
    var s, claim, calls := Protocol.Run(LookedUpAgain()), AnnsFirstClaim(), AboutToDecline();
    var proved := claim.(session := Some(Session("session", 10 + SESSION_TTL_MS)), otpVerifiedAt := Some(10));
    var back := s.(claims := [proved], clients := map[0 := Replied(Success("session"))]);
    AnnSendsHerCode(s, claim);
    AnnProvesTheChannel(s.(clients := map[0 := Verifying(0, None)]), claim);
    AnnIsAboutToDecline(back, proved);
    NothingFrom(s, calls);
    OneMore(s, calls, 0, s);
    OneMore(s, calls, 1, s.(clients := map[0 := Verifying(0, None)]));
    OneMore(s, calls, 2, back);
    assert calls[..3] == calls;
    Evolution.RunSplits(START, LookedUpAgain(), calls);
  }

  lemma FourEvents(s: State)
    ensures
      RunFrom(s, DeclineAndMint()) ==
      WorkStep(
        WorkStep(WorkStep(ReturnStep(s, 0, true, "", 0), 0, MintContact), 0, MintCampaign),
        0, MintWrite(ROTATED, "QG-2", 100))
  {
    hide RunFrom;
    hide WorkStep;
    hide ReturnStep;
    var events := DeclineAndMint();
    var s1 := ReturnStep(s, 0, true, "", 0);
    var s2 := WorkStep(s1, 0, MintContact);
    NothingFrom(s, events);
    OneMore(s, events, 0, s);
    OneMore(s, events, 1, s1);
    OneMore(s, events, 2, s2);
    OneMore(s, events, 3, WorkStep(s2, 0, MintCampaign));
    assert events[..4] == events;
  }

  lemma TokenIsNew(s: State)
    requires |s.claims| == 1 && s.claims[0].token == TOKEN
    ensures !TokenTaken(s.claims, ROTATED, None)
  {
    assert TOKEN[4] != ROTATED[4];
  }

  // Ann declines, and her declined claim gets a new token.
  lemma DeclinedClaimIsRotated()
    ensures
      var end := Protocol.Run(LookedUpAgain() + AboutToDecline() + DeclineAndMint());
      |end.claims| > 0 && end.claims[0].status == Declined && end.claims[0].token == ROTATED
  {
    hide RunFrom;
    hide WorkStep;
    hide ReturnStep;
    hide Invariants.Inv;
    hide LookedUpAgain;
    hide AboutToDecline;
    hide DeclineAndMint;
    hide TokenTaken;
    DeclineMeetsLookup();
    var events := LookedUpAgain() + AboutToDecline();
    var s := Protocol.Run(events);
    TokenIsNew(s);
    ClaimSteps.ReachableStatesAreSound(events);
    FourEvents(s);
    Evolution.RunSplits(START, events, DeclineAndMint());
    Guarantees.DeclineBetweenLookupAndMint(s, 0, 0, 0, ROTATED, "QG-2", 100);
  }
}
