// What every reachable state of the corporate protocol satisfies, table by
// table.

module Invariants {
  import opened RosterStore
  import opened Campaigns
  import opened Dispatch
  import opened ClaimFlow
  import opened Protocol

  predicate InFlight(status: CampaignStatus) {
    status == CampaignStatus.Dispatching || status == Completed
  }

  // Approved at some point and not cancelled.
  predicate Sealed(status: CampaignStatus) {
    status == Approved || InFlight(status)
  }

  // ── Campaigns ─────────────────────────────────────────────────────

  // Whoever approved a campaign is not its creator, and what was approved is
  // frozen; nothing without recipients is submitted, approved or dispatching.
  predicate WellFormed(c: Campaign) {
    && (Sealed(c.status) ==>
          && c.approvedBy.Some? && c.approvedBy.value != c.createdBy
          && c.option.Some? && c.option.value.snapshot.Some?)
    && (c.status == PendingApproval ==> c.option.Some?)
    && (c.status in {PendingApproval, Approved, CampaignStatus.Dispatching} ==> c.recipients != {})
  }

  ghost predicate CampaignsOk(contacts: map<nat, Contact>, campaigns: seq<Campaign>) {
    forall c :: 0 <= c < |campaigns| ==>
      WellFormed(campaigns[c]) && campaigns[c].recipients <= contacts.Keys
  }

  // ── Jobs ──────────────────────────────────────────────────────────

  predicate NeverUnprepared(reason: FailReason) {
    reason != ContactUnreachable && reason != SnapshotMissing
  }

  // A job belongs to a campaign that was dispatched and, while it is live, is
  // still dispatching; its contact is a recipient for as long as the contact
  // exists, and exists for as long as the campaign is dispatching.
  predicate JobOk(roster: Roster, campaigns: seq<Campaign>, job: Job) {
    && job.campaignId < |campaigns| && InFlight(campaigns[job.campaignId].status)
    && job.contactId < roster.nextId
    && (Live(job) ==> campaigns[job.campaignId].status == CampaignStatus.Dispatching)
    && (campaigns[job.campaignId].status == CampaignStatus.Dispatching ==> job.contactId in roster.contacts)
    && (job.contactId in roster.contacts ==> job.contactId in campaigns[job.campaignId].recipients)
    && (job.lastError.Some? ==> NeverUnprepared(job.lastError.value))
  }

  ghost predicate DistinctJobs(jobs: seq<Job>) {
    forall i, j :: 0 <= i < j < |jobs| ==>
      !(jobs[i].campaignId == jobs[j].campaignId && jobs[i].contactId == jobs[j].contactId)
  }

  ghost predicate Covered(campaigns: seq<Campaign>, jobs: seq<Job>) {
    forall c, x :: 0 <= c < |campaigns| && InFlight(campaigns[c].status) && x in campaigns[c].recipients ==>
      HasJob(jobs, c, x)
  }

  ghost predicate JobsOk(roster: Roster, campaigns: seq<Campaign>, jobs: seq<Job>) {
    && (forall j :: 0 <= j < |jobs| ==> JobOk(roster, campaigns, jobs[j]))
    && DistinctJobs(jobs)
    && Covered(campaigns, jobs)
  }

  // ── Claims ────────────────────────────────────────────────────────

  predicate ActedOn(status: ClaimStatus) {
    status == Claimed || status == Declined || status == Mismatch
  }

  predicate ClaimOk(jobs: seq<Job>, claim: Claim) {
    && claim.jobId < |jobs|
    && claim.campaignId == jobs[claim.jobId].campaignId && claim.contactId == jobs[claim.jobId].contactId
    && (ActedOn(claim.status) ==> claim.otpVerifiedAt.Some?)
  }

  predicate Clash(a: Claim, b: Claim) {
    a.jobId == b.jobId || a.token == b.token || a.reference == b.reference
  }

  ghost predicate ClaimsOk(jobs: seq<Job>, claims: seq<Claim>) {
    && (forall k :: 0 <= k < |claims| ==> ClaimOk(jobs, claims[k]))
    && (forall i, k :: 0 <= i < k < |claims| ==> !Clash(claims[i], claims[k]))
  }

  // A dispatched job names its claim.
  predicate RefOk(claims: seq<Claim>, j: nat, job: Job) {
    job.status == Dispatched ==>
      job.claimRef.Some? && job.claimRef.value < |claims| && claims[job.claimRef.value].jobId == j
  }

  ghost predicate RefsOk(jobs: seq<Job>, claims: seq<Claim>) {
    forall j :: 0 <= j < |jobs| ==> RefOk(claims, j, jobs[j])
  }

  // There is an address exactly for the claimed.
  ghost predicate AddressesOk(claims: seq<Claim>, addresses: map<nat, Address>) {
    forall k: nat :: k in addresses <==> k < |claims| && claims[k].status == Claimed
  }

  predicate WonBy(wins: seq<Win>, k: nat) {
    exists i :: 0 <= i < |wins| && wins[i].claimId == k
  }

  // Exactly one write finalized each claim that is no longer open, and the claim
  // still has the status that write gave it.
  ghost predicate WinsOk(claims: seq<Claim>, wins: seq<Win>) {
    && (forall i :: 0 <= i < |wins| ==>
          && wins[i].claimId < |claims| && claims[wins[i].claimId].status == wins[i].status
          && wins[i].status != ClaimStatus.Open)
    && (forall i, j :: 0 <= i < j < |wins| ==> wins[i].claimId != wins[j].claimId)
    && (forall k :: 0 <= k < |claims| && claims[k].status != ClaimStatus.Open ==> WonBy(wins, k))
  }

  // ── Actors ────────────────────────────────────────────────────────

  predicate StageOk(claims: seq<Claim>, w: Worker)
    requires Holds(w)
  {
    match w.stage
    case LookedUp(existing) => existing == ClaimOfJob(claims, HeldJob(w))
    case ContactRead(existing, contact) =>
      existing == ClaimOfJob(claims, HeldJob(w)) && ChannelOf(contact).Some?
    case MintReady(existing, contact, _, _) =>
      existing == ClaimOfJob(claims, HeldJob(w)) && ChannelOf(contact).Some?
    case Minted(k) => k < |claims| && claims[k].jobId == HeldJob(w)
    case Sent(k, _) => k < |claims| && claims[k].jobId == HeldJob(w)
    case Failing(reason) => NeverUnprepared(reason)
    case _ => true
  }

  predicate WorkerOk(jobs: seq<Job>, claims: seq<Claim>, w: Worker) {
    Holds(w) ==> HeldJob(w) < |jobs| && jobs[HeldJob(w)].status == Processing && StageOk(claims, w)
  }

  predicate SameJob(a: Worker, b: Worker) {
    Holds(a) && Holds(b) && HeldJob(a) == HeldJob(b)
  }

  // A job in processing is in at most one worker's hands.
  ghost predicate WorkersOk(jobs: seq<Job>, claims: seq<Claim>, workers: map<nat, Worker>) {
    && (forall w :: w in workers ==> WorkerOk(jobs, claims, workers[w]))
    && (forall v, w :: v in workers && w in workers && v != w ==> !SameJob(workers[v], workers[w]))
  }

  predicate OnceApproved(status: CampaignStatus) {
    Sealed(status) || status == Cancelled
  }

  predicate DispatcherOk(campaigns: seq<Campaign>, d: Dispatcher) {
    match d
    case Checked(c) => c < |campaigns| && OnceApproved(campaigns[c].status)
    case Loaded(c, recipients) =>
      && c < |campaigns| && OnceApproved(campaigns[c].status)
      && (campaigns[c].status == Approved ==> Lists(recipients, campaigns[c].recipients))
    case _ => true
  }

  ghost predicate DispatchersOk(campaigns: seq<Campaign>, dispatchers: map<nat, Dispatcher>) {
    forall d :: d in dispatchers ==> DispatcherOk(campaigns, dispatchers[d])
  }

  predicate ClientOk(claims: seq<Claim>, c: Client) {
    match c
    case Expiring(k) => k < |claims|
    case Verifying(k, _) => k < |claims|
    case Acting(k, _) => k < |claims| && claims[k].otpVerifiedAt.Some?
    case _ => true
  }

  ghost predicate ClientsOk(claims: seq<Claim>, clients: map<nat, Client>) {
    forall c :: c in clients ==> ClientOk(claims, clients[c])
  }

  ghost predicate Inv(s: State) {
    && Sound(s.roster)
    && CampaignsOk(s.roster.contacts, s.campaigns)
    && JobsOk(s.roster, s.campaigns, s.jobs)
    && ClaimsOk(s.jobs, s.claims)
    && RefsOk(s.jobs, s.claims)
    && AddressesOk(s.claims, s.addresses)
    && WinsOk(s.claims, s.wins)
    && WorkersOk(s.jobs, s.claims, s.workers)
    && DispatchersOk(s.campaigns, s.dispatchers)
    && ClientsOk(s.claims, s.clients)
  }
}
