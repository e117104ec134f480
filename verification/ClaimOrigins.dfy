// What a claim says and where it points, read off whole runs of the protocol: the
// recipient's name and channel come from the roster, the message and the snapshot
// from what was approved, token and expiry from the write that minted it last
// (src/corporate/claim-mint.service.ts).

module ClaimOrigins {
  import opened Wrappers
  import opened RosterStore
  import opened RosterRows
  import opened Campaigns
  import opened Dispatch
  import opened Protocol
  import opened Invariants
  import ClaimFlow
  import Evolution
  import RosterPurge
  import WorkerSteps
  import ClaimSteps

  // The contact was on the roster at some point of the run.
  ghost predicate WasOnRoster(events: seq<Event>, id: nat, contact: Contact) {
    exists n: nat :: OnRosterAt(events, n, id, contact)
  }

  predicate OnRosterAt(events: seq<Event>, n: nat, id: nat, contact: Contact) {
    && n <= |events| && id in Protocol.Run(events[..n]).roster.contacts
    && Protocol.Run(events[..n]).roster.contacts[id] == contact
  }

  // The phone, if there is one, and else the email.
  predicate BoundTo(channel: Channel, contact: Contact) {
    match contact.phone
    case Some(phone) => phone != "" && channel == PhoneChannel(phone)
    case None => contact.email.Some? && contact.email.value != "" && channel == EmailChannel(contact.email.value)
  }

  // Whose roster entry the claim was cut from.
  ghost predicate NamesContact(events: seq<Event>, claim: Claim) {
    exists contact: Contact ::
      && WasOnRoster(events, claim.contactId, contact)
      && claim.recipientName == contact.fullName && BoundTo(claim.channel, contact)
  }

  // What was approved for the campaign, and still stands.
  predicate SaysApproved(campaigns: seq<Campaign>, id: nat, message: Option<string>, snapshot: GiftSnapshot) {
    && id < |campaigns| && InFlight(campaigns[id].status)
    && campaigns[id].message == message
    && campaigns[id].option.Some? && campaigns[id].option.value.snapshot == Some(snapshot)
  }

  // Token and expiry are those of one minting write, the reference of another or
  // the same.
  predicate WritesToken(e: Event, claim: Claim) {
    e.Work? && e.step.MintWrite? && claim.token == e.step.token && claim.expiresAt == e.step.expiresAt
  }

  predicate WritesReference(e: Event, claim: Claim) {
    e.Work? && e.step.MintWrite? && claim.reference == e.step.reference
  }

  ghost predicate WasMinted(events: seq<Event>, claim: Claim) {
    && (exists n: nat :: n < |events| && WritesToken(events[n], claim))
    && (exists n: nat :: n < |events| && WritesReference(events[n], claim))
  }

  ghost predicate ClaimFounded(events: seq<Event>, campaigns: seq<Campaign>, claim: Claim) {
    && NamesContact(events, claim) && WasMinted(events, claim)
    && SaysApproved(campaigns, claim.campaignId, claim.message, claim.snapshot)
  }

  // A contact that the roster can hold: a phone or an email that is not empty.
  predicate Spoken(contact: Contact) {
    && (contact.phone.Some? ==> contact.phone.value != "")
    && (contact.email.Some? ==> contact.email.value != "")
  }

  // What a worker in the middle of a mint has read.
  ghost predicate StageFounded(events: seq<Event>, s: State, w: Worker) {
    Holds(w) && HeldJob(w) < |s.jobs| ==>
      match w.stage
      case ContactRead(_, contact) => WasOnRoster(events, s.jobs[HeldJob(w)].contactId, contact) && Spoken(contact)
      case MintReady(_, contact, message, snapshot) =>
        && WasOnRoster(events, s.jobs[HeldJob(w)].contactId, contact) && Spoken(contact)
        && SaysApproved(s.campaigns, s.jobs[HeldJob(w)].campaignId, message, snapshot)
      case _ => true
  }

  lemma StillWasOnRoster(events: seq<Event>, n: nat, id: nat, contact: Contact)
    requires n <= |events| && WasOnRoster(events[..n], id, contact)
    ensures WasOnRoster(events, id, contact)
  {
    hide Protocol.Run;
    var m: nat :| OnRosterAt(events[..n], m, id, contact);
    assert events[..n][..m] == events[..m];
    assert OnRosterAt(events, m, id, contact);
  }

  lemma OnRosterBefore(events: seq<Event>, id: nat)
    requires events != [] && id in Protocol.Run(events[..|events| - 1]).roster.contacts
    ensures WasOnRoster(events, id, Protocol.Run(events[..|events| - 1]).roster.contacts[id])
  {
    hide Protocol.Run;
    assert OnRosterAt(events, |events| - 1, id, Protocol.Run(events[..|events| - 1]).roster.contacts[id]);
  }

  lemma NamesStillContact(events: seq<Event>, n: nat, claim: Claim)
    requires n <= |events| && NamesContact(events[..n], claim)
    ensures NamesContact(events, claim)
  {
    hide WasOnRoster;
    hide BoundTo;
    var contact: Contact :|
      && WasOnRoster(events[..n], claim.contactId, contact)
      && claim.recipientName == contact.fullName && BoundTo(claim.channel, contact);
    StillWasOnRoster(events, n, claim.contactId, contact);
  }

  // What was approved stands for good.
  lemma StillSaysApproved(s: State, e: Event, id: nat, message: Option<string>, snapshot: GiftSnapshot)
    requires Inv(s) && SaysApproved(s.campaigns, id, message, snapshot)
    ensures SaysApproved(Protocol.Apply(s, e).campaigns, id, message, snapshot)
  {
    hide Inv;
    hide Protocol.Apply;
    Evolution.StepEvolves(s, e);
    assert Evolution.CampaignEvolves(s.campaigns[id], Protocol.Apply(s, e).campaigns[id]);
  }

  lemma RosterSpeaks(roster: Roster, id: nat)
    requires Sound(roster) && id in roster.contacts
    ensures Spoken(roster.contacts[id])
  {
    hide Disjoint;
    assert Contactable(roster.contacts[id].email, roster.contacts[id].phone);
  }

  // ── One step ──────────────────────────────────────────────────────

  predicate SameMint(a: Claim, b: Claim) {
    && a.contactId == b.contactId && a.campaignId == b.campaignId && a.recipientName == b.recipientName
    && a.channel == b.channel && a.message == b.message && a.snapshot == b.snapshot
    && a.token == b.token && a.expiresAt == b.expiresAt && a.reference == b.reference
  }

  // The worker wrote the claim from what it had read.
  predicate CutFrom(s: State, e: Event, claim: Claim) {
    && e.Work? && e.step.MintWrite? && Holds(WorkerOf(s, e.worker)) && WorkerOf(s, e.worker).stage.MintReady?
    && HeldJob(WorkerOf(s, e.worker)) < |s.jobs|
    && var job, ready := s.jobs[HeldJob(WorkerOf(s, e.worker))], WorkerOf(s, e.worker).stage;
    && claim.contactId == job.contactId && claim.campaignId == job.campaignId
    && claim.recipientName == ready.contact.fullName && ChannelOf(ready.contact) == Some(claim.channel)
    && claim.message == ready.message && claim.snapshot == ready.snapshot && WritesToken(e, claim)
  }

  predicate ClaimStepped(s: State, e: Event, after: State, k: nat) {
    k < |after.claims| ==>
      || (k < |s.claims| && SameMint(s.claims[k], after.claims[k]))
      || (CutFrom(s, e, after.claims[k])
          && (WritesReference(e, after.claims[k])
              || (k < |s.claims| && s.claims[k].reference == after.claims[k].reference)))
  }

  lemma MintSteps(s: State, e: Event, k: nat)
    requires e.Work? && e.step.MintWrite?
    ensures ClaimStepped(s, e, WorkStep(s, e.worker, e.step), k)
  {
    hide TokenTaken;
    hide ReferenceTaken;
    hide ClaimOfJob;
    hide ChannelOf;
  }

  lemma OtherWorkSteps(s: State, w: nat, step: WorkerStep)
    requires !step.MintWrite?
    ensures WorkStep(s, w, step).claims == s.claims
  {
    hide Complete;
  }

  lemma ReturnSteps(s: State, c: nat, otpOk: bool, session: string, now: int, k: nat)
    ensures
      var after := ReturnStep(s, c, otpOk, session, now).claims;
      |after| == |s.claims| && (k < |after| ==> SameMint(s.claims[k], after[k]))
  {
    hide WinOf;
    hide ClaimFlow.AddressOf;
    hide ClaimFlow.Refusal;
  }

  lemma ClaimStep(s: State, e: Event, k: nat)
    ensures ClaimStepped(s, e, Protocol.Apply(s, e), k)
  {
    hide PurgeStep;
    hide ReviseStep;
    hide CommitStep;
    hide WorkStep;
    hide ReturnStep;
    hide CutFrom;
    match e
    case Work(w, step) =>
      if step.MintWrite? {
        MintSteps(s, e, k);
      } else {
        OtherWorkSteps(s, w, step);
      }
    case Return(c, otpOk, session, now) => ReturnSteps(s, c, otpOk, session, now, k);
    case PurgeRoster(_) => QuietClaims(s, e);
    case ReviseCampaign(_, _, _, _, _) => QuietClaims(s, e);
    case CommitRows(_) => QuietClaims(s, e);
    case _ =>
  }

  lemma QuietClaims(s: State, e: Event)
    requires e.PurgeRoster? || e.ReviseCampaign? || e.CommitRows?
    ensures Protocol.Apply(s, e).claims == s.claims
  {
    hide Enqueue;
    hide RosterPurge.Remaining;
    hide Revise;
  }

  // A worker that has just read the contact, or the campaign, or something else.
  predicate WorkerStepped(t: Tables, before: Worker, after: Worker) {
    || after == before || !Holds(after)
    || (Holds(before) && HeldJob(before) == HeldJob(after) && HeldJob(after) < |t.jobs|
        && match after.stage
           case ContactRead(_, contact) =>
             var id := t.jobs[HeldJob(after)].contactId;
             id in t.contacts && t.contacts[id] == contact
           case MintReady(_, contact, message, snapshot) =>
             && before.stage.ContactRead? && before.stage.contact == contact
             && var id := t.jobs[HeldJob(after)].campaignId;
             && id < |t.campaigns| && t.campaigns[id].message == message
             && t.campaigns[id].option.Some? && t.campaigns[id].option.value.snapshot == Some(snapshot)
           case _ => true)
    || (!Holds(before) && after.stage.Claiming?)
  }

  lemma ReadingMovesWorker(t: Tables, w: Worker, step: WorkerStep)
    requires step.MintContact? || step.MintCampaign?
    requires Holds(w) ==> HeldJob(w) < |t.jobs|
    ensures WorkerStepped(t, w, Advance(Progress(t, w), step).worker)
  {
    hide ChannelOf;
  }

  lemma OtherMovesWorker(t: Tables, w: Worker, step: WorkerStep)
    requires !step.MintContact? && !step.MintCampaign?
    requires Holds(w) ==> HeldJob(w) < |t.jobs|
    ensures WorkerStepped(t, w, Advance(Progress(t, w), step).worker)
  {
    hide TokenTaken;
    hide ReferenceTaken;
    hide ClaimOfJob;
    hide Complete;
    hide ChannelOf;
    hide Reachable;
  }

  lemma WorkMovesWorker(s: State, w: nat, step: WorkerStep)
    requires WorkersOk(s.jobs, s.claims, s.workers)
    ensures WorkerStepped(TablesOf(s), WorkerOf(s, w), WorkerOf(WorkStep(s, w, step), w))
  {
    hide Advance;
    hide WorkerStepped;
    hide StageOk;
    if Holds(WorkerOf(s, w)) {
      WorkerSteps.HeldIsOk(s, w);
    }
    if step.MintContact? || step.MintCampaign? {
      ReadingMovesWorker(TablesOf(s), WorkerOf(s, w), step);
    } else {
      OtherMovesWorker(TablesOf(s), WorkerOf(s, w), step);
    }
  }

  lemma WorkerMoves(s: State, e: Event, w: nat)
    requires Inv(s)
    ensures WorkerStepped(TablesOf(s), WorkerOf(s, w), WorkerOf(Protocol.Apply(s, e), w))
  {
    hide PurgeStep;
    hide ReviseStep;
    hide CommitStep;
    hide ReturnStep;
    hide WorkStep;
    hide Inv;
    match e
    case Work(v, step) =>
      OthersStay(s, v, step, w);
      if v == w {
        WorkersAreOk(s);
        WorkMovesWorker(s, w, step);
      }
    case PurgeRoster(_) => QuietWorkers(s, e);
    case ReviseCampaign(_, _, _, _, _) => QuietWorkers(s, e);
    case CommitRows(_) => QuietWorkers(s, e);
    case Return(_, _, _, _) => QuietWorkers(s, e);
    case _ =>
  }

  lemma OthersStay(s: State, v: nat, step: WorkerStep, w: nat)
    ensures v != w ==> WorkerOf(WorkStep(s, v, step), w) == WorkerOf(s, w)
  {
    hide Advance;
  }

  lemma WorkersAreOk(s: State)
    requires Inv(s)
    ensures WorkersOk(s.jobs, s.claims, s.workers)
  {
    hide WorkersOk;
  }

  lemma QuietWorkers(s: State, e: Event)
    requires e.PurgeRoster? || e.ReviseCampaign? || e.CommitRows? || e.Return?
    ensures Protocol.Apply(s, e).workers == s.workers
  {
    hide Enqueue;
    hide RosterPurge.Remaining;
    hide Revise;
    hide WinOf;
    hide ClaimFlow.AddressOf;
    hide ClaimFlow.Refusal;
  }

  // ── Over a run ────────────────────────────────────────────────────

  // The held job, before the step and after it.
  lemma HeldJobStays(s: State, e: Event, w: nat)
    requires Inv(s) && Holds(WorkerOf(s, w))
    ensures
      var j, after := HeldJob(WorkerOf(s, w)), Protocol.Apply(s, e);
      && j < |s.jobs| && j < |after.jobs|
      && after.jobs[j].campaignId == s.jobs[j].campaignId && after.jobs[j].contactId == s.jobs[j].contactId
      && s.jobs[j].campaignId < |s.campaigns| && InFlight(s.campaigns[s.jobs[j].campaignId].status)
      && Sound(s.roster)
  {
    hide Protocol.Apply;
    hide Sound;
    hide StageOk;
    hide ClaimsOk;
    hide WellFormed;
    hide DispatchersOk;
    Evolution.StepEvolves(s, e);
    WorkerSteps.HeldIsOk(s, w);
    var j := HeldJob(WorkerOf(s, w));
    assert JobOk(s.roster, s.campaigns, s.jobs[j]);
    assert Evolution.JobEvolves(s.jobs[j], Protocol.Apply(s, e).jobs[j]);
  }

  lemma StageStaysFounded(events: seq<Event>, w: nat)
    requires events != [] && Inv(Protocol.Run(events[..|events| - 1]))
    requires
      var s := Protocol.Run(events[..|events| - 1]);
      StageFounded(events[..|events| - 1], s, WorkerOf(s, w))
    ensures StageFounded(events, Protocol.Run(events), WorkerOf(Protocol.Run(events), w))
  {
    hide Protocol.Apply;
    hide Inv;
    hide WasOnRoster;
    hide Spoken;
    hide SaysApproved;
    hide Sound;
    var n := |events| - 1;
    var s, e := Protocol.Run(events[..n]), events[n];
    var after := Protocol.Run(events);
    var was, now := WorkerOf(s, w), WorkerOf(after, w);
    WorkerMoves(s, e, w);
    if Holds(now) && (now.stage.ContactRead? || now.stage.MintReady?) {
      HeldJobStays(s, e, w);
      var job := s.jobs[HeldJob(now)];
      if now.stage.MintReady? {
        if now != was {
          FreshlyApproved(s, job.campaignId, now.stage.message, now.stage.snapshot);
        }
        StillSaysApproved(s, e, job.campaignId, now.stage.message, now.stage.snapshot);
      }
      if now != was && now.stage.ContactRead? {
        OnRosterBefore(events, job.contactId);
        RosterSpeaks(s.roster, job.contactId);
      } else {
        StillWasOnRoster(events, n, job.contactId, now.stage.contact);
      }
    }
  }

  lemma FreshlyApproved(s: State, id: nat, message: Option<string>, snapshot: GiftSnapshot)
    requires id < |s.campaigns| && InFlight(s.campaigns[id].status) && s.campaigns[id].message == message
    requires s.campaigns[id].option.Some? && s.campaigns[id].option.value.snapshot == Some(snapshot)
    ensures SaysApproved(s.campaigns, id, message, snapshot)
  {
  }

  lemma SpokenIsBound(contact: Contact, channel: Channel)
    requires Spoken(contact) && ChannelOf(contact) == Some(channel)
    ensures BoundTo(channel, contact)
  {
  }

  lemma StillMinted(events: seq<Event>, n: nat, a: Claim, b: Claim)
    requires n <= |events| && WasMinted(events[..n], a)
    requires a.token == b.token && a.expiresAt == b.expiresAt && a.reference == b.reference
    ensures WasMinted(events, b)
  {
    var i: nat :| i < n && WritesToken(events[..n][i], a);
    assert WritesToken(events[i], b);
    var j: nat :| j < n && WritesReference(events[..n][j], a);
    assert WritesReference(events[j], b);
  }

  lemma MintedNow(events: seq<Event>, k: nat)
    requires events != []
    requires
      var s, after := Protocol.Run(events[..|events| - 1]), Protocol.Run(events);
      && k < |after.claims| && WritesToken(events[|events| - 1], after.claims[k])
      && (WritesReference(events[|events| - 1], after.claims[k])
          || (k < |s.claims| && s.claims[k].reference == after.claims[k].reference
              && WasMinted(events[..|events| - 1], s.claims[k])))
    ensures WasMinted(events, Protocol.Run(events).claims[k])
  {
    hide Protocol.Run;
    var n := |events| - 1;
    var s, claim := Protocol.Run(events[..n]), Protocol.Run(events).claims[k];
    assert WritesToken(events[n], claim);
    if !WritesReference(events[n], claim) {
      var j: nat :| j < n && WritesReference(events[..n][j], s.claims[k]);
      assert WritesReference(events[j], claim);
    }
  }

  lemma ClaimStaysFounded(events: seq<Event>, k: nat)
    requires events != [] && Inv(Protocol.Run(events[..|events| - 1])) && k < |Protocol.Run(events).claims|
    requires
      var s := Protocol.Run(events[..|events| - 1]);
      && (k < |s.claims| ==> ClaimFounded(events[..|events| - 1], s.campaigns, s.claims[k]))
      && forall w: nat :: StageFounded(events[..|events| - 1], s, WorkerOf(s, w))
    ensures ClaimFounded(events, Protocol.Run(events).campaigns, Protocol.Run(events).claims[k])
  {
    hide Protocol.Apply;
    hide Inv;
    hide WasOnRoster;
    hide WasMinted;
    hide BoundTo;
    hide Spoken;
    hide SaysApproved;
    hide WritesToken;
    hide WritesReference;
    var n := |events| - 1;
    var s, e := Protocol.Run(events[..n]), events[n];
    var claim := Protocol.Run(events).claims[k];
    ClaimStep(s, e, k);
    if k < |s.claims| && SameMint(s.claims[k], claim) {
      NamesStillContact(events, n, s.claims[k]);
      StillSaysApproved(s, e, claim.campaignId, claim.message, claim.snapshot);
      StillMinted(events, n, s.claims[k], claim);
    } else {
      assert StageFounded(events[..n], s, WorkerOf(s, e.worker));
      var contact := WorkerOf(s, e.worker).stage.contact;
      StillSaysApproved(s, e, claim.campaignId, claim.message, claim.snapshot);
      StillWasOnRoster(events, n, claim.contactId, contact);
      SpokenIsBound(contact, claim.channel);
      MintedNow(events, k);
    }
  }

  lemma {:induction false} AllIsFounded(events: seq<Event>)
    ensures
      var s := Protocol.Run(events);
      && (forall k :: 0 <= k < |s.claims| ==> ClaimFounded(events, s.campaigns, s.claims[k]))
      && (forall w: nat :: StageFounded(events, s, WorkerOf(s, w)))
  {
    hide Protocol.Apply;
    hide Inv;
    hide ClaimFounded;
    hide StageFounded;
    if events == [] {
      IdleIsFounded();
    } else {
      var n := |events| - 1;
      var s := Protocol.Run(events);
      AllIsFounded(events[..n]);
      ClaimSteps.ReachableStatesAreSound(events[..n]);
      forall k | 0 <= k < |s.claims| ensures ClaimFounded(events, s.campaigns, s.claims[k]) {
        ClaimStaysFounded(events, k);
      }
      forall w: nat ensures StageFounded(events, s, WorkerOf(s, w)) {
        StageStaysFounded(events, w);
      }
    }
  }

  lemma IdleIsFounded()
    ensures forall w: nat :: StageFounded([], START, WorkerOf(START, w))
  {
  }

  // In every run, a claim is addressed as the roster had its contact at some
  // point, by phone if there was one and else by email, it carries the message and
  // the snapshot that were approved for its campaign and still stand, and token,
  // expiry and reference come from minting writes.
  lemma ClaimsAreFounded(events: seq<Event>, k: nat)
    requires k < |Protocol.Run(events).claims|
    ensures
      var s, claim := Protocol.Run(events), Protocol.Run(events).claims[k];
      && NamesContact(events, claim) && WasMinted(events, claim)
      && SaysApproved(s.campaigns, claim.campaignId, claim.message, claim.snapshot)
  {
    hide Protocol.Run;
    hide NamesContact;
    hide WasMinted;
    hide SaysApproved;
    AllIsFounded(events);
    assert ClaimFounded(events, Protocol.Run(events).campaigns, Protocol.Run(events).claims[k]);
  }
}
