// The campaign calls and the dispatchers keep the protocol's invariant.

module CampaignSteps {
  import opened Wrappers
  import opened RosterStore
  import opened Campaigns
  import opened Dispatch
  import opened Protocol
  import opened Invariants

  // ── One campaign at a time ────────────────────────────────────────

  // How a call may move a campaign's status. Dispatching and completion are not
  // a call's to give, and a campaign once approved can only be cancelled.
  predicate CallMoves(before: CampaignStatus, after: CampaignStatus) {
    match before
    case Draft => after in {Draft, PendingApproval, Cancelled}
    case ChangesRequested => after in {ChangesRequested, PendingApproval, Cancelled}
    case PendingApproval => after in {Approved, ChangesRequested, Cancelled}
    case Approved => after == Cancelled
    case _ => false
  }

  // What each call does to a campaign in order.
  predicate GoodRevision(c: Campaign, after: Campaign, contacts: map<nat, Contact>) {
    && WellFormed(after) && after.recipients <= contacts.Keys
    && CallMoves(c.status, after.status)
    && after.createdBy == c.createdBy && after.orgId == c.orgId
    && (c.status == Approved ==> after == c.(status := Cancelled, cancelledBy := after.cancelledBy))
  }

  lemma EditIsGood(c: Campaign, contacts: map<nat, Contact>, catalog: Catalog, action: Campaigns.Action)
    requires WellFormed(c) && c.recipients <= contacts.Keys && Malformed(action).None?
    requires action.Update? || action.SetGiftOption? || action.AddRecipients? || action.RemoveRecipient?
    requires Revised(c, 0, contacts, catalog, action).Success?
    ensures GoodRevision(c, Revised(c, 0, contacts, catalog, action).value, contacts)
  {
    hide OrNull;
    hide Sellable;
    match action
    case Update(name, occasion, message) => assert c.status in EDITABLE;
    case SetGiftOption(productId) => assert c.status in EDITABLE;
    case AddRecipients(ids) => assert c.status in EDITABLE;
    case RemoveRecipient(contactId) => assert c.status in EDITABLE;
    case _ =>
  }

  lemma MoveIsGood(c: Campaign, actor: nat, contacts: map<nat, Contact>, catalog: Catalog, action: Campaigns.Action)
    requires WellFormed(c) && c.recipients <= contacts.Keys && Malformed(action).None?
    requires action.Submit? || action.Approve? || action.RequestChanges? || action.Cancel?
    requires Revised(c, actor, contacts, catalog, action).Success?
    ensures GoodRevision(c, Revised(c, actor, contacts, catalog, action).value, contacts)
  {
    hide SnapshotOf;
    hide Approvable;
  }

  lemma RevisionIsWellFormed(
    c: Campaign, actor: nat, contacts: map<nat, Contact>, catalog: Catalog, action: Campaigns.Action)
    requires WellFormed(c) && c.recipients <= contacts.Keys && Malformed(action).None?
    requires Revised(c, actor, contacts, catalog, action).Success?
    ensures GoodRevision(c, Revised(c, actor, contacts, catalog, action).value, contacts)
  {
    hide WellFormed;
    hide GoodRevision;
    if action.Submit? || action.Approve? || action.RequestChanges? || action.Cancel? {
      MoveIsGood(c, actor, contacts, catalog, action);
    } else {
      EditIsGood(c, contacts, catalog, action);
    }
  }

  // The edit gate and the lock on approval: a call changes what a campaign says
  // or whom it reaches only while it is editable, replaces the chosen product
  // only then, and freezes a snapshot only for somebody else than the creator, of
  // the chosen product as it is on sale at that moment.
  lemma ContentChangesBehindTheGates(
    c: Campaign, actor: nat, contacts: map<nat, Contact>, catalog: Catalog, action: Campaigns.Action)
    requires Malformed(action).None? && Revised(c, actor, contacts, catalog, action).Success?
    ensures
      var after := Revised(c, actor, contacts, catalog, action).value;
      var content := after.(status := c.status, approvedBy := c.approvedBy, cancelledBy := c.cancelledBy,
                            reviewNote := c.reviewNote, option := c.option);
      && (content != c ==> c.status in EDITABLE)
      && (after.option.None? ==> c.option.None?)
      && (after.option.Some? && (c.option.None? || after.option.value.productId != c.option.value.productId) ==>
            c.status in EDITABLE)
      && (after.option.Some? && after.option.value.snapshot.Some? && after.option != c.option ==>
            var id, snapshot := after.option.value.productId, after.option.value.snapshot.value;
            && c.status == PendingApproval && after.status == Approved
            && actor != c.createdBy && after.approvedBy == Some(actor)
            && id in catalog && catalog[id].stockStatus == "in_stock" && catalog[id].isAvailable
            && snapshot.productId == id && snapshot.price == catalog[id].price
            && snapshot.storeId == catalog[id].storeId && snapshot.category == catalog[id].category)
  {
  }

  lemma ReviseIsRevised(
    campaigns: seq<Campaign>, orgId: nat, id: nat, actor: nat,
    contacts: map<nat, Contact>, catalog: Catalog, action: Campaigns.Action)
    requires Revise(campaigns, orgId, id, actor, contacts, catalog, action).Success?
    ensures Malformed(action).None? && id < |campaigns|
    ensures Revise(campaigns, orgId, id, actor, contacts, catalog, action)
         == Revised(campaigns[id], actor, contacts, catalog, action)
  {
    hide Revised;
  }

  // Replacing a campaign that has not been dispatched, by one that has not.
  lemma ReplaceKeepsJobs(roster: Roster, campaigns: seq<Campaign>, jobs: seq<Job>, id: nat, c: Campaign)
    requires JobsOk(roster, campaigns, jobs) && id < |campaigns|
    requires !InFlight(campaigns[id].status) && !InFlight(c.status)
    ensures JobsOk(roster, campaigns[id := c], jobs)
  {
    hide HasJob;
    var after := campaigns[id := c];
    forall j | 0 <= j < |jobs| ensures JobOk(roster, after, jobs[j]) {
      assert JobOk(roster, campaigns, jobs[j]);
    }
    forall k, x | 0 <= k < |after| && InFlight(after[k].status) && x in after[k].recipients
      ensures HasJob(jobs, k, x)
    {
      assert k != id && after[k] == campaigns[k];
    }
  }

  lemma ReplaceKeepsDispatchers(
    campaigns: seq<Campaign>, dispatchers: map<nat, Dispatcher>, id: nat, c: Campaign)
    requires DispatchersOk(campaigns, dispatchers) && id < |campaigns|
    requires CallMoves(campaigns[id].status, c.status)
    ensures DispatchersOk(campaigns[id := c], dispatchers)
  {
    hide Lists;
    forall d | d in dispatchers ensures DispatcherOk(campaigns[id := c], dispatchers[d]) {
      assert DispatcherOk(campaigns, dispatchers[d]);
    }
  }

  lemma ReviseKeepsInv(
    s: State, orgId: nat, id: nat, actor: nat, catalog: Catalog, action: Campaigns.Action)
    requires Inv(s)
    ensures Inv(ReviseStep(s, orgId, id, actor, catalog, action))
  {
    hide Sound;
    hide Revised;
    hide Revise;
    hide WellFormed;
    hide JobsOk;
    hide DispatchersOk;
    if Revise(s.campaigns, orgId, id, actor, s.roster.contacts, catalog, action).Success? {
      ReviseIsRevised(s.campaigns, orgId, id, actor, s.roster.contacts, catalog, action);
      RevisionIsWellFormed(s.campaigns[id], actor, s.roster.contacts, catalog, action);
      var after := Revised(s.campaigns[id], actor, s.roster.contacts, catalog, action).value;
      ReplaceKeepsJobs(s.roster, s.campaigns, s.jobs, id, after);
      ReplaceKeepsDispatchers(s.campaigns, s.dispatchers, id, after);
    }
  }

  lemma CreateKeepsInv(s: State, c: Campaign)
    requires Inv(s) && c.status == Draft && c.recipients == {} && c.approvedBy == None
    ensures Inv(s.(campaigns := s.campaigns + [c]))
  {
    hide Sound;
    hide HasJob;
    hide Lists;
    var after := s.campaigns + [c];
    forall j | 0 <= j < |s.jobs| ensures JobOk(s.roster, after, s.jobs[j]) {
      assert JobOk(s.roster, s.campaigns, s.jobs[j]);
    }
    forall d | d in s.dispatchers ensures DispatcherOk(after, s.dispatchers[d]) {
      assert DispatcherOk(s.campaigns, s.dispatchers[d]);
    }
  }

  // ── Dispatchers ───────────────────────────────────────────────────

  // The rows a dispatch adds: one pending job for each recipient, in order.
  function NewJobs(campaignId: nat, recipients: seq<nat>): (js: seq<Job>)
    ensures |js| == |recipients|
    ensures forall i :: 0 <= i < |js| ==> js[i] == Job(campaignId, recipients[i], Pending, 0, None, None)
  {
    seq(|recipients|, i requires 0 <= i < |recipients| => Job(campaignId, recipients[i], Pending, 0, None, None))
  }

  predicate AllDiffer(order: seq<nat>) {
    forall i, j :: 0 <= i < j < |order| ==> order[i] != order[j]
  }

  // A campaign without jobs gets exactly one for each of its recipients.
  lemma {:induction false} EnqueueAddsOnePerRecipient(jobs: seq<Job>, campaignId: nat, recipients: seq<nat>)
    requires AllDiffer(recipients)
    requires forall j :: 0 <= j < |jobs| ==> jobs[j].campaignId != campaignId
    ensures Enqueue(jobs, campaignId, recipients) == jobs + NewJobs(campaignId, recipients)
  {
    if recipients != [] {
      var n := |recipients| - 1;
      EnqueueAddsOnePerRecipient(jobs, campaignId, recipients[..n]);
      var before := jobs + NewJobs(campaignId, recipients[..n]);
      assert !HasJob(before, campaignId, recipients[n]);
      assert NewJobs(campaignId, recipients) ==
        NewJobs(campaignId, recipients[..n]) + [Job(campaignId, recipients[n], Pending, 0, None, None)];
    } else {
      assert NewJobs(campaignId, recipients) == [];
      assert jobs + [] == jobs;
    }
  }

  lemma NoJobsBeforeDispatch(roster: Roster, campaigns: seq<Campaign>, jobs: seq<Job>, id: nat)
    requires JobsOk(roster, campaigns, jobs) && id < |campaigns| && !InFlight(campaigns[id].status)
    ensures forall j :: 0 <= j < |jobs| ==> jobs[j].campaignId != id
  {
    forall j | 0 <= j < |jobs| ensures jobs[j].campaignId != id {
      assert JobOk(roster, campaigns, jobs[j]);
    }
  }

  lemma DispatchKeepsJobs(roster: Roster, campaigns: seq<Campaign>, jobs: seq<Job>, id: nat, order: seq<nat>)
    requires Sound(roster) && CampaignsOk(roster.contacts, campaigns) && JobsOk(roster, campaigns, jobs)
    requires id < |campaigns| && campaigns[id].status == Approved && Lists(order, campaigns[id].recipients)
    ensures
      JobsOk(roster, campaigns[id := campaigns[id].(status := CampaignStatus.Dispatching)], jobs + NewJobs(id, order))
  {
    hide WellFormed;
    hide Disjoint;
    hide AllContactable;
    var after, all := campaigns[id := campaigns[id].(status := CampaignStatus.Dispatching)], jobs + NewJobs(id, order);
    NoJobsBeforeDispatch(roster, campaigns, jobs, id);
    forall j | 0 <= j < |all| ensures JobOk(roster, after, all[j]) {
      if j < |jobs| {
        assert JobOk(roster, campaigns, jobs[j]);
      } else {
        assert order[j - |jobs|] in Distinct(order);
        assert campaigns[id].recipients <= roster.contacts.Keys;
      }
    }
    NewlyCovered(campaigns, jobs, id, order);
  }

  lemma NewlyCovered(campaigns: seq<Campaign>, jobs: seq<Job>, id: nat, order: seq<nat>)
    requires Covered(campaigns, jobs) && id < |campaigns| && Lists(order, campaigns[id].recipients)
    ensures Covered(campaigns[id := campaigns[id].(status := CampaignStatus.Dispatching)], jobs + NewJobs(id, order))
  {
    var after, all := campaigns[id := campaigns[id].(status := CampaignStatus.Dispatching)], jobs + NewJobs(id, order);
    forall c, x | 0 <= c < |after| && InFlight(after[c].status) && x in after[c].recipients
      ensures HasJob(all, c, x)
    {
      if c == id {
        assert x in Distinct(order);
        var i :| 0 <= i < |order| && order[i] == x;
        assert all[|jobs| + i].contactId == x && all[|jobs| + i].campaignId == id;
      } else {
        assert HasJob(jobs, c, x);
        var j :| 0 <= j < |jobs| && jobs[j].campaignId == c && jobs[j].contactId == x;
        assert all[j] == jobs[j];
      }
    }
  }

  lemma FlipKeepsOthers(campaigns: seq<Campaign>, id: nat, contacts: map<nat, Contact>, dispatchers: map<nat, Dispatcher>)
    requires id < |campaigns| && campaigns[id].status == Approved
    requires CampaignsOk(contacts, campaigns) && DispatchersOk(campaigns, dispatchers)
    ensures
      var after := campaigns[id := campaigns[id].(status := CampaignStatus.Dispatching)];
      CampaignsOk(contacts, after) && DispatchersOk(after, dispatchers)
  {
    hide Lists;
    var after := campaigns[id := campaigns[id].(status := CampaignStatus.Dispatching)];
    forall d | d in dispatchers ensures DispatcherOk(after, dispatchers[d]) {
      assert DispatcherOk(campaigns, dispatchers[d]);
    }
  }

  // Claims and workers look at earlier rows only.
  lemma MoreJobsKeepTheRest(s: State, more: seq<Job>)
    requires ClaimsOk(s.jobs, s.claims) && RefsOk(s.jobs, s.claims) && WorkersOk(s.jobs, s.claims, s.workers)
    requires forall i :: 0 <= i < |more| ==> more[i].status == Pending
    ensures
      var all := s.jobs + more;
      ClaimsOk(all, s.claims) && RefsOk(all, s.claims) && WorkersOk(all, s.claims, s.workers)
  {
    hide StageOk;
    hide Clash;
    var all := s.jobs + more;
    forall k | 0 <= k < |s.claims| ensures ClaimOk(all, s.claims[k]) {
      assert ClaimOk(s.jobs, s.claims[k]);
    }
    forall w | w in s.workers ensures WorkerOk(all, s.claims, s.workers[w]) {
      assert WorkerOk(s.jobs, s.claims, s.workers[w]);
    }
  }

  lemma CommitKeepsInv(s: State, d: nat)
    requires Inv(s)
    ensures Inv(CommitStep(s, d))
  {
    hide Sound;
    hide CampaignsOk;
    hide JobsOk;
    hide ClaimsOk;
    hide RefsOk;
    hide WorkersOk;
    hide DispatcherOk;
    hide Enqueue;
    var dispatcher := DispatcherOf(s, d);
    if dispatcher.Loaded? && dispatcher.campaignId < |s.campaigns| && s.campaigns[dispatcher.campaignId].status == Approved {
      var id, order := dispatcher.campaignId, dispatcher.recipients;
      LoadedListsRecipients(s, d);
      NoJobsBeforeDispatch(s.roster, s.campaigns, s.jobs, id);
      EnqueueAddsOnePerRecipient(s.jobs, id, order);
      DispatchKeepsJobs(s.roster, s.campaigns, s.jobs, id, order);
      FlipKeepsOthers(s.campaigns, id, s.roster.contacts, s.dispatchers);
      MoreJobsKeepTheRest(s, NewJobs(id, order));
      AnsweredIsOk(CommitStep(s, d).campaigns, s.dispatchers, d, CommitStep(s, d).dispatchers[d]);
    } else {
      AnsweredIsOk(s.campaigns, s.dispatchers, d, CommitStep(s, d).dispatchers[d]);
    }
  }

  lemma LoadedListsRecipients(s: State, d: nat)
    requires DispatchersOk(s.campaigns, s.dispatchers)
    requires DispatcherOf(s, d).Loaded? && DispatcherOf(s, d).campaignId < |s.campaigns|
    requires s.campaigns[DispatcherOf(s, d).campaignId].status == Approved
    ensures Lists(DispatcherOf(s, d).recipients, s.campaigns[DispatcherOf(s, d).campaignId].recipients)
    ensures AllDiffer(DispatcherOf(s, d).recipients)
  {
    assert DispatcherOk(s.campaigns, s.dispatchers[d]);
  }

  lemma AnsweredIsOk(campaigns: seq<Campaign>, dispatchers: map<nat, Dispatcher>, d: nat, after: Dispatcher)
    requires DispatchersOk(campaigns, dispatchers)
    requires after.Answered? || after.Away? || (d in dispatchers && after == dispatchers[d])
          || DispatcherOk(campaigns, after)
    ensures DispatchersOk(campaigns, dispatchers[d := after])
  {
    hide Lists;
  }

  lemma ReadsKeepInv(s: State, e: Event)
    requires Inv(s) && (e.BeginDispatch? || e.LoadRows?)
    ensures Inv(Protocol.Apply(s, e))
  {
    hide Sound;
    hide CampaignsOk;
    hide JobsOk;
    hide ClaimsOk;
    hide WorkersOk;
    match e
    case BeginDispatch(d, orgId, id) =>
      AnsweredIsOk(s.campaigns, s.dispatchers, d, CheckDispatch(s.campaigns, orgId, id));
    case LoadRows(d, order) =>
      if d in s.dispatchers {
        assert DispatcherOk(s.campaigns, s.dispatchers[d]);
      }
      AnsweredIsOk(s.campaigns, s.dispatchers, d, LoadRecipients(s.campaigns, DispatcherOf(s, d), order));
  }

  lemma CampaignEventKeepsInv(s: State, e: Event)
    requires Inv(s)
    requires e.CreateCampaign? || e.ReviseCampaign? || e.BeginDispatch? || e.LoadRows? || e.CommitRows?
    ensures Inv(Protocol.Apply(s, e))
  {
    hide Inv;
    hide ReviseStep;
    hide CommitStep;
    match e
    case CreateCampaign(orgStatus, actor, orgId, name, occasion, message) =>
      if Create(orgStatus, actor, orgId, name, occasion, message).Success? {
        CreateKeepsInv(s, Create(orgStatus, actor, orgId, name, occasion, message).value);
      }
    case ReviseCampaign(orgId, id, actor, catalog, action) => ReviseKeepsInv(s, orgId, id, actor, catalog, action);
    case CommitRows(d) => CommitKeepsInv(s, d);
    case _ => ReadsKeepInv(s, e);
  }
}
