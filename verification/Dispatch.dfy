// Dispatching a campaign and delivering its jobs, step by step: the dispatcher
// (src/corporate/dispatch.service.ts), the sweep worker
// (src/corporate/dispatch-worker.service.ts) and the minting of claims
// (src/corporate/claim-mint.service.ts). Each function is one database call, or
// one decision between two of them; anything may happen in between.

module Dispatch {
  import opened Wrappers
  import opened RosterStore
  import opened RosterRows
  import opened Campaigns

  // ── Tables ────────────────────────────────────────────────────────

  datatype JobStatus = Pending | Processing | Dispatched | Failed

  datatype FailReason =
    | ContactUnreachable | SnapshotMissing | AlreadyFinalized
    | Provider(error: string)

  datatype Job = Job(
    campaignId: nat, contactId: nat, status: JobStatus, attempts: nat,
    lastError: Option<FailReason>, claimRef: Option<nat>)

  datatype ClaimStatus = Open | Claimed | Declined | Mismatch | Expired

  datatype Session = Session(hash: string, expiresAt: int)

  // Hashing is injective, so the row holds the token itself.
  datatype Claim = Claim(
    jobId: nat, campaignId: nat, contactId: nat, token: string, reference: string,
    status: ClaimStatus, recipientName: string, channel: Channel, message: Option<string>,
    snapshot: GiftSnapshot, expiresAt: int, session: Option<Session>, otpVerifiedAt: Option<int>)

  predicate Live(job: Job) {
    job.status == Pending || job.status == Processing
  }

  predicate HasJob(jobs: seq<Job>, campaignId: nat, contactId: nat) {
    exists j :: 0 <= j < |jobs| && jobs[j].campaignId == campaignId && jobs[j].contactId == contactId
  }

  // ── Dispatching a campaign ────────────────────────────────────────

  datatype Dispatcher =
    | Away
    | Checked(campaignId: nat)
    | Loaded(campaignId: nat, recipients: seq<nat>)
    | Answered(reply: Result<nat>)

  function CheckDispatch(campaigns: seq<Campaign>, orgId: nat, id: nat): Dispatcher {
    if id >= |campaigns| || campaigns[id].orgId != orgId then Answered(Failure("campaign_not_found"))
    else if campaigns[id].status != Approved then Answered(Failure("campaign_not_dispatchable"))
    else Checked(id)
  }

  predicate Lists(order: seq<nat>, members: set<nat>) {
    && (forall i, j :: 0 <= i < j < |order| ==> order[i] != order[j])
    && Distinct(order) == members
  }

  // The recipient rows, in whatever order the database returns them.
  function LoadRecipients(campaigns: seq<Campaign>, d: Dispatcher, order: seq<nat>): Dispatcher {
    if !d.Checked? || d.campaignId >= |campaigns| || !Lists(order, campaigns[d.campaignId].recipients) then d
    else if order == [] then Answered(Failure("campaign_recipients_required"))
    else Loaded(d.campaignId, order)
  }

  // createMany with skipDuplicates on the (campaign, contact) key.
  function Enqueue(jobs: seq<Job>, campaignId: nat, recipients: seq<nat>): seq<Job> {
    if recipients == [] then jobs
    else
      var before := Enqueue(jobs, campaignId, recipients[..|recipients| - 1]);
      var contactId := recipients[|recipients| - 1];
      if HasJob(before, campaignId, contactId) then before
      else before + [Job(campaignId, contactId, Pending, 0, None, None)]
  }

  datatype Committed = Committed(campaigns: seq<Campaign>, jobs: seq<Job>, dispatcher: Dispatcher)

  // One transaction: flip the campaign if it is still approved, and enqueue.
  function CommitDispatch(campaigns: seq<Campaign>, jobs: seq<Job>, d: Dispatcher): Committed {
    if !d.Loaded? then Committed(campaigns, jobs, d)
    else if d.campaignId >= |campaigns| || campaigns[d.campaignId].status != Approved then
      Committed(campaigns, jobs, Answered(Failure("campaign_not_dispatchable")))
    else
      var after := Enqueue(jobs, d.campaignId, d.recipients);
      Committed(
        campaigns[d.campaignId := campaigns[d.campaignId].(status := CampaignStatus.Dispatching)],
        after, Answered(Success(if |after| >= |jobs| then |after| - |jobs| else 0)))
  }

  class DispatchService {
    var campaigns: seq<Campaign>
    var jobs: seq<Job>

    constructor (campaigns: seq<Campaign>, jobs: seq<Job>)
      ensures this.campaigns == campaigns && this.jobs == jobs
    {
      this.campaigns, this.jobs := campaigns, jobs;
    }

    // An undisturbed call: check, load and commit in a row.
    method DispatchCampaign(orgId: nat, id: nat, order: seq<nat>) returns (reply: Result<nat>)
      requires id < |campaigns| ==> Lists(order, campaigns[id].recipients)
      modifies this
      ensures
        var checked := CheckDispatch(old(campaigns), orgId, id);
        var loaded := LoadRecipients(old(campaigns), checked, order);
        Committed(campaigns, jobs, Answered(reply)) == CommitDispatch(old(campaigns), old(jobs), loaded)
    {
      if id >= |campaigns| || campaigns[id].orgId != orgId {
        return Failure("campaign_not_found");
      }
      if campaigns[id].status != Approved {
        return Failure("campaign_not_dispatchable");
      }
      if |order| == 0 {
        return Failure("campaign_recipients_required");
      }
      campaigns := campaigns[id := campaigns[id].(status := CampaignStatus.Dispatching)];
      ghost var before, flipped := jobs, campaigns;
      var created := 0;
      for i := 0 to |order|
        invariant campaigns == flipped
        invariant jobs == Enqueue(before, id, order[..i])
        invariant |jobs| == |before| + created
      {
        assert order[..i + 1][..i] == order[..i];
        if !HasJob(jobs, id, order[i]) {
          jobs := jobs + [Job(id, order[i], Pending, 0, None, None)];
          created := created + 1;
        }
      }
      assert order[..|order|] == order;
      reply := Success(created);
    }
  }

  // ── The sweep worker ──────────────────────────────────────────────

  const BATCH_SIZE := 25
  const MAX_DISPATCH_ATTEMPTS := 3

  // A row of the batch as it was read; the attempt count may be stale.
  datatype BatchRow = BatchRow(jobId: nat, attempts: nat)

  datatype Delivery = Delivered | Rejected(error: string, permanent: bool)

  // How far the worker is with the first row of its batch.
  datatype Stage =
    | Next
    | Claiming                      // the job is ours; its channel is not read yet
    | Reached
    | LookedUp(existing: Option<nat>)
    | ContactRead(existing: Option<nat>, contact: Contact)
    | MintReady(existing: Option<nat>, contact: Contact, message: Option<string>, snapshot: GiftSnapshot)
    | Minted(claimId: nat)
    | Sent(claimId: nat, outcome: Delivery)
    | Failing(reason: FailReason)

  datatype Worker = Idle | Busy(batch: seq<BatchRow>, attemptNo: nat, stage: Stage)

  function PendingRows(jobs: seq<Job>): seq<BatchRow> {
    if jobs == [] then []
    else
      var n := |jobs| - 1;
      PendingRows(jobs[..n]) + if jobs[n].status == Pending then [BatchRow(n, jobs[n].attempts)] else []
  }

  function Batch(jobs: seq<Job>): seq<BatchRow> {
    var rows := PendingRows(jobs);
    if |rows| <= BATCH_SIZE then rows else rows[..BATCH_SIZE]
  }

  // What a worker sees of the database.
  datatype Tables = Tables(
    contacts: map<nat, Contact>, campaigns: seq<Campaign>, jobs: seq<Job>, claims: seq<Claim>)

  datatype Progress = Progress(tables: Tables, worker: Worker)

  datatype WorkerStep =
    | ClaimJob | ClaimThrows | ReadChannel | MintLookup | MintContact | MintCampaign
    | MintWrite(token: string, reference: string, expiresAt: int)
    | Deliver(outcome: Delivery) | Settle | Throw | Finish

  // Whether the worker holds a job, and which.
  predicate Holds(w: Worker) {
    w.Busy? && w.batch != [] && !w.stage.Next?
  }

  function HeldJob(w: Worker): nat
    requires Holds(w)
  {
    w.batch[0].jobId
  }

  function NextRow(w: Worker): Worker
    requires w.Busy? && w.batch != []
  {
    Busy(w.batch[1..], 0, Next)
  }

  function ChannelOf(contact: Contact): Option<Channel> {
    if contact.phone.Some? && contact.phone.value != "" then Some(PhoneChannel(contact.phone.value))
    else if contact.email.Some? && contact.email.value != "" then Some(EmailChannel(contact.email.value))
    else None
  }

  predicate Reachable(contacts: map<nat, Contact>, id: nat) {
    id in contacts && ChannelOf(contacts[id]).Some?
  }

  function SnapshotOfCampaign(campaigns: seq<Campaign>, id: nat): Option<GiftSnapshot> {
    if id < |campaigns| && campaigns[id].option.Some? then campaigns[id].option.value.snapshot else None
  }

  // The one claim row of a job, if there is one.
  function ClaimOfJob(claims: seq<Claim>, jobId: nat): (r: Option<nat>)
    ensures r.Some? <==> exists k :: 0 <= k < |claims| && claims[k].jobId == jobId
    ensures r.Some? ==> r.value < |claims| && claims[r.value].jobId == jobId
  {
    if claims == [] then None
    else if claims[|claims| - 1].jobId == jobId then Some(|claims| - 1)
    else ClaimOfJob(claims[..|claims| - 1], jobId)
  }

  // The conditional claim: it succeeds on a pending job only.
  function ClaimStep(jobs: seq<Job>, w: Worker): (seq<Job>, Worker) {
    if !w.Busy? || !w.stage.Next? || w.batch == [] then (jobs, w)
    else
      var row := w.batch[0];
      if row.jobId < |jobs| && jobs[row.jobId].status == Pending then
        (jobs[row.jobId := jobs[row.jobId].(status := Processing, attempts := jobs[row.jobId].attempts + 1)],
         Busy(w.batch, row.attempts + 1, Claiming))
      else (jobs, NextRow(w))
  }

  function ReadChannelStep(t: Tables, w: Worker): Worker {
    if !Holds(w) || !w.stage.Claiming? || HeldJob(w) >= |t.jobs| then w
    else if Reachable(t.contacts, t.jobs[HeldJob(w)].contactId) then w.(stage := Reached)
    else w.(stage := Failing(ContactUnreachable))
  }

  function MintLookupStep(claims: seq<Claim>, w: Worker): Worker {
    if !Holds(w) || !w.stage.Reached? then w
    else
      var existing := ClaimOfJob(claims, HeldJob(w));
      if existing.Some? && claims[existing.value].status != Open then w.(stage := Failing(AlreadyFinalized))
      else w.(stage := LookedUp(existing))
  }

  function MintContactStep(t: Tables, w: Worker): Worker {
    if !Holds(w) || !w.stage.LookedUp? || HeldJob(w) >= |t.jobs| then w
    else
      var contactId := t.jobs[HeldJob(w)].contactId;
      if !Reachable(t.contacts, contactId) then w.(stage := Failing(ContactUnreachable))
      else w.(stage := ContactRead(w.stage.existing, t.contacts[contactId]))
  }

  function MintCampaignStep(t: Tables, w: Worker): Worker {
    if !Holds(w) || !w.stage.ContactRead? || HeldJob(w) >= |t.jobs| then w
    else
      var campaignId := t.jobs[HeldJob(w)].campaignId;
      var snapshot := SnapshotOfCampaign(t.campaigns, campaignId);
      if snapshot.None? then w.(stage := Failing(SnapshotMissing))
      else w.(stage := MintReady(
        w.stage.existing, w.stage.contact, t.campaigns[campaignId].message, snapshot.value))
  }

  // Whether another row already has this token or reference.
  predicate TokenTaken(claims: seq<Claim>, token: string, except: Option<nat>) {
    exists k :: 0 <= k < |claims| && Some(k) != except && claims[k].token == token
  }

  predicate ReferenceTaken(claims: seq<Claim>, reference: string) {
    exists k :: 0 <= k < |claims| && claims[k].reference == reference
  }

  // The minted columns: everything but status, reference, session and OTP mark.
  function Rotated(claim: Claim, job: Job, ready: Stage, token: string, expiresAt: int): Claim
    requires ready.MintReady? && ChannelOf(ready.contact).Some?
  {
    claim.(
      campaignId := job.campaignId, contactId := job.contactId, token := token,
      recipientName := ready.contact.fullName, channel := ChannelOf(ready.contact).value,
      message := ready.message, snapshot := ready.snapshot, expiresAt := expiresAt)
  }

  function FirstMint(jobId: nat, job: Job, ready: Stage, token: string, reference: string, expiresAt: int): Claim
    requires ready.MintReady? && ChannelOf(ready.contact).Some?
  {
    Claim(
      jobId, job.campaignId, job.contactId, token, reference, Open, ready.contact.fullName,
      ChannelOf(ready.contact).value, ready.message, ready.snapshot, expiresAt, None, None)
  }

  // Create the claim, or overwrite the one the look-up found, whatever has
  // become of it since. A unique collision throws, and the job is left behind.
  function MintWriteStep(jobs: seq<Job>, claims: seq<Claim>, w: Worker, token: string, reference: string, expiresAt: int)
    : (seq<Claim>, Worker)
  {
    if !Holds(w) || !w.stage.MintReady? || HeldJob(w) >= |jobs| || ChannelOf(w.stage.contact).None? then (claims, w)
    else
      var existing := w.stage.existing;
      var job := jobs[HeldJob(w)];
      if TokenTaken(claims, token, existing) then (claims, NextRow(w))
      else if existing.Some? then
        if existing.value < |claims| then
          (claims[existing.value := Rotated(claims[existing.value], job, w.stage, token, expiresAt)],
           w.(stage := Minted(existing.value)))
        else (claims, NextRow(w))
      else if ReferenceTaken(claims, reference) || ClaimOfJob(claims, HeldJob(w)).Some? then (claims, NextRow(w))
      else
        (claims + [FirstMint(HeldJob(w), job, w.stage, token, reference, expiresAt)], w.(stage := Minted(|claims|)))
  }

  function DeliverStep(w: Worker, outcome: Delivery): Worker {
    if Holds(w) && w.stage.Minted? then w.(stage := Sent(w.stage.claimId, outcome)) else w
  }

  // What the settling write makes of a job still in processing.
  function Settled(job: Job, attemptNo: nat, stage: Stage): Job
    requires stage.Sent? || stage.Failing?
  {
    if stage.Failing? then job.(status := Failed, lastError := Some(stage.reason))
    else
      match stage.outcome
      case Delivered => job.(status := Dispatched, lastError := None, claimRef := Some(stage.claimId))
      case Rejected(error, permanent) =>
        job.(status := if !permanent && attemptNo < MAX_DISPATCH_ATTEMPTS then Pending else Failed,
             lastError := Some(Provider(error)))
  }

  function SettleStep(jobs: seq<Job>, w: Worker): (seq<Job>, Worker) {
    if !Holds(w) || !(w.stage.Sent? || w.stage.Failing?) then (jobs, w)
    else
      var j := HeldJob(w);
      if j < |jobs| && jobs[j].status == Processing
      then (jobs[j := Settled(jobs[j], w.attemptNo, w.stage)], NextRow(w))
      else (jobs, NextRow(w))
  }

  predicate HasLiveJob(jobs: seq<Job>, campaignId: nat) {
    exists j :: 0 <= j < |jobs| && jobs[j].campaignId == campaignId && Live(jobs[j])
  }

  predicate Finished(c: Campaign, id: nat, jobs: seq<Job>) {
    c.status == CampaignStatus.Dispatching && !HasLiveJob(jobs, id)
  }

  // completeFinishedCampaigns
  function Complete(campaigns: seq<Campaign>, jobs: seq<Job>): (after: seq<Campaign>)
    ensures |after| == |campaigns|
    ensures forall c :: 0 <= c < |campaigns| ==>
      after[c] == if Finished(campaigns[c], c, jobs) then campaigns[c].(status := Completed) else campaigns[c]
  {
    seq(|campaigns|, c requires 0 <= c < |campaigns| =>
      if Finished(campaigns[c], c, jobs) then campaigns[c].(status := Completed) else campaigns[c])
  }

  function Advance(p: Progress, s: WorkerStep): Progress {
    var t, w := p.tables, p.worker;
    match s
    case ClaimJob =>
      var (jobs, after) := ClaimStep(t.jobs, w);
      Progress(t.(jobs := jobs), after)
    case ClaimThrows => if w.Busy? && w.stage.Next? && w.batch != [] then Progress(t, NextRow(w)) else p
    case ReadChannel => Progress(t, ReadChannelStep(t, w))
    case MintLookup => Progress(t, MintLookupStep(t.claims, w))
    case MintContact => Progress(t, MintContactStep(t, w))
    case MintCampaign => Progress(t, MintCampaignStep(t, w))
    case MintWrite(token, reference, expiresAt) =>
      var (claims, after) := MintWriteStep(t.jobs, t.claims, w, token, reference, expiresAt);
      Progress(t.(claims := claims), after)
    case Deliver(outcome) => Progress(t, DeliverStep(w, outcome))
    case Settle =>
      var (jobs, after) := SettleStep(t.jobs, w);
      Progress(t.(jobs := jobs), after)
    case Throw => if Holds(w) then Progress(t, NextRow(w)) else p
    case Finish =>
      if w.Busy? && w.batch == [] then Progress(t.(campaigns := Complete(t.campaigns, t.jobs)), Idle) else p
  }

  function AdvanceAll(p: Progress, steps: seq<WorkerStep>): Progress {
    if steps == [] then p else Advance(AdvanceAll(p, steps[..|steps| - 1]), steps[|steps| - 1])
  }
}
