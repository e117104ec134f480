// How the tables may change over a run: what is final, what is frozen and what
// only grows.

module Evolution {
  import opened Wrappers
  import opened RosterStore
  import opened RosterPurge
  import opened Campaigns
  import opened Dispatch
  import opened ClaimFlow
  import opened Protocol
  import opened Invariants
  import RosterSteps
  import CampaignSteps
  import ClaimSteps

  // ── Campaigns ─────────────────────────────────────────────────────

  // The statuses a campaign may still reach.
  predicate StatusMay(before: CampaignStatus, after: CampaignStatus) {
    match before
    case Approved => OnceApproved(after)
    case Dispatching => InFlight(after)
    case Completed => after == Completed
    case Cancelled => after == Cancelled
    case _ => true
  }

  predicate AwaitsDispatch(status: CampaignStatus) {
    status == Approved || status == CampaignStatus.Dispatching
  }

  // Who made a campaign never changes. Once it was approved its content is
  // frozen; its recipients can only be purged, and not before it is over.
  predicate CampaignEvolves(a: Campaign, b: Campaign) {
    && a.orgId == b.orgId && a.createdBy == b.createdBy && StatusMay(a.status, b.status)
    && (OnceApproved(a.status) ==>
          && a.name == b.name && a.occasion == b.occasion && a.message == b.message
          && a.option == b.option && a.approvedBy == b.approvedBy && b.recipients <= a.recipients)
    && (AwaitsDispatch(a.status) && AwaitsDispatch(b.status) ==> a.recipients == b.recipients)
  }

  ghost predicate CampaignsEvolve(a: seq<Campaign>, b: seq<Campaign>) {
    |a| <= |b| && forall c :: 0 <= c < |a| ==> CampaignEvolves(a[c], b[c])
  }

  // ── Jobs ──────────────────────────────────────────────────────────

  predicate Over(status: JobStatus) {
    status == Dispatched || status == Failed
  }

  // Dispatched and failed jobs stay exactly as they are.
  predicate JobEvolves(a: Job, b: Job) {
    && a.campaignId == b.campaignId && a.contactId == b.contactId && a.attempts <= b.attempts
    && (Over(a.status) ==> a == b)
  }

  // New jobs come from campaigns that had not been dispatched.
  predicate MayEnqueue(campaigns: seq<Campaign>, campaignId: nat) {
    campaignId < |campaigns| ==> !InFlight(campaigns[campaignId].status) && campaigns[campaignId].status != Cancelled
  }

  ghost predicate JobsEvolve(campaigns: seq<Campaign>, a: seq<Job>, b: seq<Job>) {
    && |a| <= |b|
    && (forall j :: 0 <= j < |a| ==> JobEvolves(a[j], b[j]))
    && (forall j :: |a| <= j < |b| ==> MayEnqueue(campaigns, b[j].campaignId))
  }

  // ── Claims ────────────────────────────────────────────────────────

  predicate ClaimEvolves(a: Claim, b: Claim) {
    && a.jobId == b.jobId && a.reference == b.reference
    && (a.status != ClaimStatus.Open ==> b.status == a.status)
    && (a.otpVerifiedAt.Some? ==> b.otpVerifiedAt.Some?)
  }

  ghost predicate ClaimsEvolve(a: seq<Claim>, b: seq<Claim>) {
    |a| <= |b| && forall k :: 0 <= k < |a| ==> ClaimEvolves(a[k], b[k])
  }

  ghost predicate AddressesEvolve(a: map<nat, Address>, b: map<nat, Address>) {
    forall k :: k in a ==> k in b && b[k] == a[k]
  }

  ghost predicate Evolves(a: State, b: State) {
    && CampaignsEvolve(a.campaigns, b.campaigns)
    && JobsEvolve(a.campaigns, a.jobs, b.jobs)
    && ClaimsEvolve(a.claims, b.claims)
    && AddressesEvolve(a.addresses, b.addresses)
    && a.wins <= b.wins
  }

  lemma EvolvesIsReflexive(s: State)
    ensures Evolves(s, s)
  {
  }

  lemma CampaignEvolvesTransitively(a: Campaign, b: Campaign, c: Campaign)
    requires CampaignEvolves(a, b) && CampaignEvolves(b, c)
    ensures CampaignEvolves(a, c)
  {
  }

  lemma EvolvesIsTransitive(a: State, b: State, c: State)
    requires Evolves(a, b) && Evolves(b, c)
    ensures Evolves(a, c)
  {
    hide CampaignEvolves;
    hide MayEnqueue;
    hide JobEvolves;
    hide ClaimEvolves;
    forall k | 0 <= k < |a.campaigns| ensures CampaignEvolves(a.campaigns[k], c.campaigns[k]) {
      CampaignEvolvesTransitively(a.campaigns[k], b.campaigns[k], c.campaigns[k]);
    }
    forall j | 0 <= j < |a.jobs| ensures JobEvolves(a.jobs[j], c.jobs[j]) {
      JobEvolvesTransitively(a.jobs[j], b.jobs[j], c.jobs[j]);
    }
    forall j | |a.jobs| <= j < |c.jobs| ensures MayEnqueue(a.campaigns, c.jobs[j].campaignId) {
      NewJobsTransitively(a, b, c, j);
    }
    forall k | 0 <= k < |a.claims| ensures ClaimEvolves(a.claims[k], c.claims[k]) {
      ClaimEvolvesTransitively(a.claims[k], b.claims[k], c.claims[k]);
    }
  }

  lemma JobEvolvesTransitively(a: Job, b: Job, c: Job)
    requires JobEvolves(a, b) && JobEvolves(b, c)
    ensures JobEvolves(a, c)
  {
  }

  lemma ClaimEvolvesTransitively(a: Claim, b: Claim, c: Claim)
    requires ClaimEvolves(a, b) && ClaimEvolves(b, c)
    ensures ClaimEvolves(a, c)
  {
  }

  lemma NewJobsTransitively(a: State, b: State, c: State, j: nat)
    requires CampaignsEvolve(a.campaigns, b.campaigns)
    requires JobsEvolve(a.campaigns, a.jobs, b.jobs) && JobsEvolve(b.campaigns, b.jobs, c.jobs)
    requires |a.jobs| <= j < |c.jobs|
    ensures MayEnqueue(a.campaigns, c.jobs[j].campaignId)
  {
    if j < |b.jobs| {
      assert JobEvolves(b.jobs[j], c.jobs[j]);
    } else {
      assert MayEnqueue(b.campaigns, c.jobs[j].campaignId);
      var k := c.jobs[j].campaignId;
      if k < |a.campaigns| {
        assert CampaignEvolves(a.campaigns[k], b.campaigns[k]);
      }
    }
  }

  // ── Every step is such a change ───────────────────────────────────

  lemma PurgeEvolves(s: State, now: int)
    requires Inv(s)
    ensures Evolves(s, PurgeStep(s, now))
  {
    hide Sound;
    hide JobsOk;
    hide ClaimsOk;
    hide WorkersOk;
    hide WellFormed;
    hide Remaining;
    var after := PurgeStep(s, now);
    forall c | 0 <= c < |s.campaigns| ensures CampaignEvolves(s.campaigns[c], after.campaigns[c]) {
      if AwaitsDispatch(s.campaigns[c].status) {
        RosterSteps.ProtectedRecipientsStay(s.roster.contacts, s.campaigns, now, c);
      }
    }
  }

  lemma ReviseEvolves(
    s: State, orgId: nat, id: nat, actor: nat, catalog: Catalog, action: Campaigns.Action)
    requires Inv(s)
    ensures Evolves(s, ReviseStep(s, orgId, id, actor, catalog, action))
  {
    hide Sound;
    hide JobsOk;
    hide ClaimsOk;
    hide WorkersOk;
    hide WellFormed;
    hide Revised;
    hide Revise;
    if Revise(s.campaigns, orgId, id, actor, s.roster.contacts, catalog, action).Success? {
      CampaignSteps.ReviseIsRevised(s.campaigns, orgId, id, actor, s.roster.contacts, catalog, action);
      CampaignSteps.RevisionIsWellFormed(s.campaigns[id], actor, s.roster.contacts, catalog, action);
    }
  }

  lemma CommitEvolves(s: State, d: nat)
    requires Inv(s)
    ensures Evolves(s, CommitStep(s, d))
  {
    hide Sound;
    hide ClaimsOk;
    hide WorkersOk;
    hide CampaignsOk;
    hide JobsOk;
    hide Enqueue;
    hide Lists;
    var dispatcher := DispatcherOf(s, d);
    if dispatcher.Loaded? && dispatcher.campaignId < |s.campaigns| && s.campaigns[dispatcher.campaignId].status == Approved {
      CampaignSteps.LoadedListsRecipients(s, d);
      CampaignSteps.NoJobsBeforeDispatch(s.roster, s.campaigns, s.jobs, dispatcher.campaignId);
      CampaignSteps.EnqueueAddsOnePerRecipient(s.jobs, dispatcher.campaignId, dispatcher.recipients);
    }
  }

  lemma ClaimJobEvolves(s: State, w: nat)
    ensures Evolves(s, WorkStep(s, w, ClaimJob))
  {
  }

  lemma SettleEvolves(s: State, w: nat)
    ensures Evolves(s, WorkStep(s, w, Settle))
  {
  }

  lemma MintWriteEvolves(s: State, w: nat, token: string, reference: string, expiresAt: int)
    ensures Evolves(s, WorkStep(s, w, MintWrite(token, reference, expiresAt)))
  {
    hide TokenTaken;
    hide ReferenceTaken;
  }

  lemma FinishEvolves(s: State, w: nat)
    ensures Evolves(s, WorkStep(s, w, Finish))
  {
    hide HasLiveJob;
  }

  lemma OneClaimEvolves(claims: seq<Claim>, k: nat, claim: Claim)
    requires k < |claims| && ClaimEvolves(claims[k], claim)
    ensures ClaimsEvolve(claims, claims[k := claim])
  {
  }

  lemma ActEvolves(claims: seq<Claim>, addresses: map<nat, Address>, client: Client)
    requires AddressesOk(claims, addresses) && client.Acting?
    ensures
      var written := ActStep(claims, addresses, client);
      ClaimsEvolve(claims, written.claims) && AddressesEvolve(addresses, written.addresses)
  {
    hide AddressOf;
    hide ClaimFlow.Refusal;
    hide ClaimsEvolve;
    NoClaimChanges(claims);
    if client.claimId < |claims| && claims[client.claimId].status == ClaimStatus.Open {
      OneClaimEvolves(claims, client.claimId, claims[client.claimId].(status := FinalStatus(client.action)));
    }
  }

  lemma NoClaimChanges(claims: seq<Claim>)
    ensures ClaimsEvolve(claims, claims)
  {
  }

  lemma WriteEvolves(
    claims: seq<Claim>, addresses: map<nat, Address>, client: Client, otpOk: bool, session: string, now: int)
    requires AddressesOk(claims, addresses)
    ensures
      var written := Write(claims, addresses, client, otpOk, session, now);
      ClaimsEvolve(claims, written.claims) && AddressesEvolve(addresses, written.addresses)
  {
    hide ActStep;
    hide ClaimsEvolve;
    NoClaimChanges(claims);
    match client
    case Acting(_, _) => ActEvolves(claims, addresses, client);
    case Expiring(k) =>
      if k < |claims| && claims[k].status == ClaimStatus.Open {
        OneClaimEvolves(claims, k, claims[k].(status := Expired));
      }
    case Verifying(k, previous) =>
      if k < |claims| {
        OneClaimEvolves(claims, k, claims[k].(
          session := Some(Session(session, now + SESSION_TTL_MS)),
          otpVerifiedAt := if previous.Some? then previous else Some(now)));
      }
    case _ =>
  }

  lemma ReturnEvolves(s: State, c: nat, otpOk: bool, session: string, now: int)
    requires Inv(s)
    ensures Evolves(s, ReturnStep(s, c, otpOk, session, now))
  {
    hide Sound;
    hide CampaignsOk;
    hide JobsOk;
    hide ClaimsOk;
    hide WorkersOk;
    hide WinsOk;
    hide DispatchersOk;
    hide Write;
    hide ClaimsEvolve;
    WriteEvolves(s.claims, s.addresses, ClientOf(s, c), otpOk, session, now);
  }

  lemma WorkEvolves(s: State, w: nat, step: WorkerStep)
    ensures Evolves(s, WorkStep(s, w, step))
  {
    hide Evolves;
    match step
    case ClaimJob => ClaimJobEvolves(s, w);
    case Settle => SettleEvolves(s, w);
    case MintWrite(token, reference, expiresAt) => MintWriteEvolves(s, w, token, reference, expiresAt);
    case Finish => FinishEvolves(s, w);
    case _ => ReadingEvolves(s, w, step);
  }

  lemma ReadingEvolves(s: State, w: nat, step: WorkerStep)
    requires !step.ClaimJob? && !step.Settle? && !step.MintWrite? && !step.Finish?
    ensures Evolves(s, WorkStep(s, w, step))
  {
    hide ReadChannelStep;
    hide MintLookupStep;
    hide MintContactStep;
    hide MintCampaignStep;
    hide DeliverStep;
    EvolvesIsReflexive(s);
  }

  lemma SameTablesEvolve(s: State, after: State)
    requires after.campaigns == s.campaigns && after.jobs == s.jobs && after.claims == s.claims
    requires after.addresses == s.addresses && after.wins == s.wins
    ensures Evolves(s, after)
  {
  }

  lemma CreateEvolves(s: State, c: Campaign)
    ensures Evolves(s, s.(campaigns := s.campaigns + [c]))
  {
  }

  lemma StepEvolves(s: State, e: Event)
    requires Inv(s)
    ensures Evolves(s, Protocol.Apply(s, e))
  {
    hide Inv;
    hide Evolves;
    hide PurgeStep;
    hide ReviseStep;
    hide CommitStep;
    hide WorkStep;
    hide ReturnStep;
    match e
    case PurgeRoster(now) => PurgeEvolves(s, now);
    case ReviseCampaign(orgId, id, actor, catalog, action) => ReviseEvolves(s, orgId, id, actor, catalog, action);
    case CommitRows(d) => CommitEvolves(s, d);
    case Work(w, step) => WorkEvolves(s, w, step);
    case Return(c, otpOk, session, now) => ReturnEvolves(s, c, otpOk, session, now);
    case CreateCampaign(orgStatus, actor, orgId, name, occasion, message) =>
      var created := Create(orgStatus, actor, orgId, name, occasion, message);
      if created.Success? {
        CreateEvolves(s, created.value);
      } else {
        SameTablesEvolve(s, s);
      }
    case _ => SameTablesEvolve(s, Protocol.Apply(s, e));
  }

  lemma {:induction false} RunEvolves(s: State, events: seq<Event>)
    requires Inv(s)
    ensures Evolves(s, RunFrom(s, events))
  {
    hide Inv;
    hide Evolves;
    hide Protocol.Apply;
    if events == [] {
      EvolvesIsReflexive(s);
    } else {
      var before := RunFrom(s, events[..|events| - 1]);
      RunEvolves(s, events[..|events| - 1]);
      ClaimSteps.EveryRunKeepsInv(s, events[..|events| - 1]);
      StepEvolves(before, events[|events| - 1]);
      EvolvesIsTransitive(s, before, RunFrom(s, events));
    }
  }

  lemma {:induction false} RunSplits(s: State, events: seq<Event>, more: seq<Event>)
    ensures RunFrom(s, events + more) == RunFrom(RunFrom(s, events), more)
  {
    hide Protocol.Apply;
    if more == [] {
      assert events + more == events;
    } else {
      var n := |more| - 1;
      assert (events + more)[..|events + more| - 1] == events + more[..n];
      RunSplits(s, events, more[..n]);
    }
  }

  // Anything reachable evolves into anything reachable from it.
  lemma ReachableEvolves(events: seq<Event>, more: seq<Event>)
    ensures Evolves(Protocol.Run(events), Protocol.Run(events + more))
    ensures Inv(Protocol.Run(events)) && Inv(Protocol.Run(events + more))
  {
    hide Inv;
    hide Evolves;
    ClaimSteps.ReachableStatesAreSound(events);
    ClaimSteps.ReachableStatesAreSound(events + more);
    RunSplits(START, events, more);
    RunEvolves(Protocol.Run(events), more);
  }
}
