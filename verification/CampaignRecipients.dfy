// Who is a recipient of a campaign, read off whole runs of the protocol: exactly
// the contacts that an accepted call added, no later one removed, and the
// retention sweep has not deleted (src/corporate/campaign.service.ts).

module CampaignRecipients {
  import opened RosterStore
  import opened Campaigns
  import opened Dispatch
  import opened Protocol
  import opened Invariants
  import opened CampaignOrigins
  import RosterPurge
  import RosterSteps
  import ClaimSteps

  // Event n added x, then an active contact of the campaign's organization.
  ghost predicate AddedAt(events: seq<Event>, n: nat, c: nat, x: nat) {
    && n < |events| && Calls(events[n], c) && events[n].action.AddRecipients?
    && Accepted(Protocol.Run(events[..n]), events[n])
    && x in OwnActive(Protocol.Run(events[..n]).roster.contacts, events[n].orgId, events[n].action.contactIds)
  }

  ghost predicate RemovedAt(events: seq<Event>, n: nat, c: nat, x: nat) {
    && n < |events| && Calls(events[n], c) && events[n].action == Campaigns.Action.RemoveRecipient(x)
    && Accepted(Protocol.Run(events[..n]), events[n])
  }

  // Added, and not removed since.
  ghost predicate Listed(events: seq<Event>, c: nat, x: nat) {
    exists n: nat :: ListedSince(events, n, c, x)
  }

  ghost predicate ListedSince(events: seq<Event>, n: nat, c: nat, x: nat) {
    AddedAt(events, n, c, x) && forall m: nat :: n < m < |events| ==> !RemovedAt(events, m, c, x)
  }

  lemma InPrefix(events: seq<Event>, n: nat, m: nat, c: nat, x: nat)
    requires m < n <= |events|
    ensures AddedAt(events, m, c, x) <==> AddedAt(events[..n], m, c, x)
    ensures RemovedAt(events, m, c, x) <==> RemovedAt(events[..n], m, c, x)
  {
    hide Protocol.Run;
    hide Accepted;
    assert events[..n][..m] == events[..m];
  }

  // One more event.
  lemma ListedNow(events: seq<Event>, c: nat, x: nat)
    requires events != []
    ensures
      var n := |events| - 1;
      Listed(events, c, x) <==>
        AddedAt(events, n, c, x) || (Listed(events[..n], c, x) && !RemovedAt(events, n, c, x))
  {
    hide AddedAt;
    hide RemovedAt;
    var n := |events| - 1;
    forall m: nat | m < n
      ensures AddedAt(events, m, c, x) <==> AddedAt(events[..n], m, c, x)
      ensures RemovedAt(events, m, c, x) <==> RemovedAt(events[..n], m, c, x)
    {
      InPrefix(events, n, m, c, x);
    }
    if m: nat :| ListedSince(events, m, c, x) {
      AddedInRange(events, m, c, x);
      if m < n {
        assert ListedSince(events[..n], m, c, x);
      }
    }
    if AddedAt(events, n, c, x) {
      assert ListedSince(events, n, c, x);
    }
    if m: nat :| ListedSince(events[..n], m, c, x) {
      AddedInRange(events[..n], m, c, x);
      if !RemovedAt(events, n, c, x) {
        assert ListedSince(events, m, c, x);
      }
    }
  }

  lemma AddedInRange(events: seq<Event>, m: nat, c: nat, x: nat)
    requires AddedAt(events, m, c, x)
    ensures m < |events|
  {
    hide Accepted;
  }

  // ── One step ──────────────────────────────────────────────────────

  // Ids are never given out again: a contact once gone stays gone.
  predicate NoReturn(before: Roster, after: Roster) {
    && before.nextId <= after.nextId
    && forall id :: id in after.contacts && id < before.nextId ==> id in before.contacts
  }

  predicate Known(roster: Roster, x: nat) {
    x < roster.nextId
  }

  lemma NobodyReturns(s: State, e: Event)
    requires Inv(s)
    ensures NoReturn(s.roster, Protocol.Apply(s, e).roster)
  {
    hide PurgeStep;
    hide ReviseStep;
    hide CommitStep;
    hide WorkStep;
    hide ReturnStep;
    hide Inv;
    match e
    case ImportRoster(orgStatus, orgId, csv, purgeAfter) =>
      RosterIsSound(s);
      RosterSteps.ImportGrows(orgStatus, s.roster, orgId, csv, purgeAfter);
    case PurgeRoster(now) => PurgeReturnsNobody(s, now);
    case ReviseCampaign(orgId, id, actor, catalog, action) => ReviseKeepsRoster(s, orgId, id, actor, catalog, action);
    case CommitRows(d) => CommitKeepsRoster(s, d);
    case Work(w, step) => WorkKeepsRoster(s, w, step);
    case Return(c, otpOk, session, now) => ReturnKeepsRoster(s, c, otpOk, session, now);
    case _ =>
  }

  lemma RosterIsSound(s: State)
    requires Inv(s)
    ensures Sound(s.roster)
  {
    hide Sound;
  }

  lemma PurgeReturnsNobody(s: State, now: int)
    ensures NoReturn(s.roster, PurgeStep(s, now).roster)
  {
    hide RosterPurge.Purgeable;
  }

  lemma ReviseKeepsRoster(s: State, orgId: nat, id: nat, actor: nat, catalog: Catalog, action: Campaigns.Action)
    ensures ReviseStep(s, orgId, id, actor, catalog, action).roster == s.roster
  {
    hide Revise;
  }

  lemma CommitKeepsRoster(s: State, d: nat)
    ensures CommitStep(s, d).roster == s.roster
  {
    hide CommitDispatch;
  }

  lemma WorkKeepsRoster(s: State, w: nat, step: WorkerStep)
    ensures WorkStep(s, w, step).roster == s.roster
  {
    hide Advance;
  }

  lemma ReturnKeepsRoster(s: State, c: nat, otpOk: bool, session: string, now: int)
    ensures ReturnStep(s, c, otpOk, session, now).roster == s.roster
  {
  }

  predicate AddsNow(s: State, e: Event, c: nat, x: nat) {
    && Calls(e, c) && e.action.AddRecipients? && Accepted(s, e)
    && x in OwnActive(s.roster.contacts, e.orgId, e.action.contactIds)
  }

  predicate RemovesNow(s: State, e: Event, c: nat, x: nat) {
    Calls(e, c) && e.action == Campaigns.Action.RemoveRecipient(x) && Accepted(s, e)
  }

  // An accepted call takes on whom it adds and lets go whom it removes.
  lemma RevisionRecipients(s: State, e: Event, after: Campaign, x: nat)
    requires e.ReviseCampaign? && Accepted(s, e) && RevisesTo(s, e, after)
    ensures
      x in after.recipients <==>
        AddsNow(s, e, e.campaignId, x)
        || (x in s.campaigns[e.campaignId].recipients && !RemovesNow(s, e, e.campaignId, x))
  {
    hide SnapshotOf;
    hide Approvable;
    if e.action.AddRecipients? {
      SameValid(s.roster.contacts, e.orgId, e.action.contactIds);
    }
  }

  // A step of the dispatch loses nobody; the purge loses whom it deletes.
  lemma MovedRecipients(s: State, e: Event, c: nat, x: nat)
    requires Inv(s) && c < |s.campaigns| && !(Calls(e, c) && Accepted(s, e))
    ensures
      var after := Protocol.Apply(s, e);
      && c < |after.campaigns|
      && (x in s.campaigns[c].recipients && x in after.roster.contacts ==> x in after.campaigns[c].recipients)
  {
    hide PurgeStep;
    hide ReviseStep;
    hide CommitStep;
    hide WorkStep;
    hide ReturnStep;
    hide Accepted;
    hide Inv;
    match e
    case ReviseCampaign(_, _, _, _, _) => RefusedOrOther(s, e, c);
    case CommitRows(d) => CommitKeepsRecipients(s, d, c);
    case PurgeRoster(now) => PurgeKeepsTheRest(s, now, c, x);
    case Work(w, step) => WorkKeepsRecipients(s, w, step, c);
    case Return(c', otpOk, session, now) => ReturnKeepsCampaigns(s, c', otpOk, session, now);
    case _ =>
  }

  lemma RefusedOrOther(s: State, e: Event, c: nat)
    requires e.ReviseCampaign? && c < |s.campaigns| && !(Calls(e, c) && Accepted(s, e))
    ensures c < |Protocol.Apply(s, e).campaigns| && Protocol.Apply(s, e).campaigns[c] == s.campaigns[c]
  {
    hide Revised;
    hide Accepted;
    RevisesExactlyWhen(s, e);
  }

  lemma CommitKeepsRecipients(s: State, d: nat, c: nat)
    requires c < |s.campaigns|
    ensures
      c < |CommitStep(s, d).campaigns| && CommitStep(s, d).campaigns[c].recipients == s.campaigns[c].recipients
  {
    hide Enqueue;
  }

  lemma PurgeKeepsTheRest(s: State, now: int, c: nat, x: nat)
    requires c < |s.campaigns|
    ensures
      var after := PurgeStep(s, now);
      && c < |after.campaigns|
      && (x in s.campaigns[c].recipients && x in after.roster.contacts ==> x in after.campaigns[c].recipients)
  {
    hide RosterPurge.Remaining;
  }

  lemma WorkKeepsRecipients(s: State, w: nat, step: WorkerStep, c: nat)
    requires c < |s.campaigns|
    ensures
      c < |WorkStep(s, w, step).campaigns|
      && WorkStep(s, w, step).campaigns[c].recipients == s.campaigns[c].recipients
  {
    hide HasLiveJob;
    hide MintWriteStep;
    hide SettleStep;
    hide ClaimStep;
  }

  // ── Over a run ────────────────────────────────────────────────────

  lemma {:induction false} ListedIsKnown(events: seq<Event>, c: nat, x: nat)
    requires Listed(events, c, x)
    ensures Known(Protocol.Run(events).roster, x) && c < |Protocol.Run(events).campaigns|
    decreases |events|
  {
    hide Protocol.Apply;
    hide Inv;
    hide Accepted;
    hide Listed;
    if events == [] {
      NobodyListed(c, x);
    } else {
      var n := |events| - 1;
      var s := Protocol.Run(events[..n]);
      ListedNow(events, c, x);
      ClaimSteps.ReachableStatesAreSound(events[..n]);
      NobodyReturns(s, events[n]);
      CampaignStep(s, events[n], c);
      if AddedAt(events, n, c, x) {
        AddedIsKnown(s, events[n], c, x);
      } else {
        ListedIsKnown(events[..n], c, x);
      }
    }
  }

  lemma NobodyListed(c: nat, x: nat)
    ensures !Listed([], c, x)
  {
  }

  lemma AddedIsKnown(s: State, e: Event, c: nat, x: nat)
    requires Inv(s) && AddsNow(s, e, c, x)
    ensures Known(s.roster, x) && c < |s.campaigns|
  {
    hide Disjoint;
    hide AllContactable;
    hide CampaignsOk;
    hide JobsOk;
    hide ClaimsOk;
    hide WorkersOk;
  }

  // In every run the recipients of a campaign are exactly the contacts still on
  // the roster that a call added and none has removed since.
  lemma {:induction false} RecipientsExactlyWhen(events: seq<Event>, c: nat, x: nat)
    requires c < |Protocol.Run(events).campaigns|
    ensures
      x in Protocol.Run(events).campaigns[c].recipients <==>
        x in Protocol.Run(events).roster.contacts && Listed(events, c, x)
  {
    hide Protocol.Apply;
    hide Inv;
    hide Accepted;
    hide Listed;
    if events == [] {
    } else {
      var n := |events| - 1;
      var s, e := Protocol.Run(events[..n]), events[n];
      var after := Protocol.Run(events);
      ClaimSteps.ReachableStatesAreSound(events[..n]);
      ClaimSteps.ReachableStatesAreSound(events);
      RecipientsAreContacts(after, c);
      ListedNow(events, c, x);
      CampaignStep(s, e, c);
      NobodyReturns(s, e);
      if Listed(events[..n], c, x) {
        ListedIsKnown(events[..n], c, x);
      }
      if c < |s.campaigns| {
        RecipientsExactlyWhen(events[..n], c, x);
        if Calls(e, c) && Accepted(s, e) {
          RevisionRecipients(s, e, after.campaigns[c], x);
          ReviseKeepsRoster(s, e.orgId, c, e.actor, e.catalog, e.action);
          CallKeepsRoster(s, e);
        } else {
          MovedRecipients(s, e, c, x);
        }
      }
    }
  }

  lemma CallKeepsRoster(s: State, e: Event)
    requires e.ReviseCampaign?
    ensures Protocol.Apply(s, e).roster == s.roster
  {
    ReviseKeepsRoster(s, e.orgId, e.campaignId, e.actor, e.catalog, e.action);
  }

  lemma RecipientsAreContacts(s: State, c: nat)
    requires Inv(s) && c < |s.campaigns|
    ensures s.campaigns[c].recipients <= s.roster.contacts.Keys
  {
    hide Sound;
    hide WellFormed;
  }

  // No campaign ever has more recipients than the cap allows.
  lemma {:induction false} NoCampaignExceedsTheCap(events: seq<Event>, c: nat)
    requires c < |Protocol.Run(events).campaigns|
    ensures |Protocol.Run(events).campaigns[c].recipients| <= 1000
  {
    hide Protocol.Apply;
    hide Accepted;
    hide RevisesTo;
    hide Begins;
    if events != [] {
      var n := |events| - 1;
      var s, e := Protocol.Run(events[..n]), events[n];
      var after := Protocol.Run(events).campaigns[c];
      CampaignStep(s, e, c);
      if c < |s.campaigns| {
        NoCampaignExceedsTheCap(events[..n], c);
        if Calls(e, c) && Accepted(s, e) {
          RevisionKeepsTheCap(s, e, after);
        } else {
          SubsetCounts(after.recipients, s.campaigns[c].recipients);
        }
      } else {
        BeginsWithNobody(e, after);
      }
    }
  }

  lemma BeginsWithNobody(e: Event, c: Campaign)
    requires Begins(e, c)
    ensures c.recipients == {}
  {
  }

  lemma SubsetCounts(some: set<nat>, all: set<nat>)
    requires some <= all
    ensures |some| <= |all|
  {
    assert all == some + (all - some);
  }

  lemma UnionCounts(a: set<nat>, b: set<nat>)
    ensures |a + b| <= |a| + |b|
  {
    assert a + b == a + (b - a);
    SubsetCounts(b - a, b);
  }

  lemma RevisionKeepsTheCap(s: State, e: Event, after: Campaign)
    requires e.ReviseCampaign? && Accepted(s, e) && RevisesTo(s, e, after)
    requires |s.campaigns[e.campaignId].recipients| <= 1000
    ensures |after.recipients| <= 1000
  {
    hide RevisesTo;
    hide OnSale;
    hide StoreIsApproved;
    var c := s.campaigns[e.campaignId];
    RevisedRecipients(s, e, after);
    if e.action.AddRecipients? {
      UnionCounts(c.recipients, OwnActive(s.roster.contacts, e.orgId, e.action.contactIds));
    } else {
      SubsetCounts(after.recipients, c.recipients);
    }
  }

  lemma RevisedRecipients(s: State, e: Event, after: Campaign)
    requires e.ReviseCampaign? && Accepted(s, e) && RevisesTo(s, e, after)
    ensures
      var c := s.campaigns[e.campaignId];
      if e.action.AddRecipients?
      then after.recipients == c.recipients + OwnActive(s.roster.contacts, e.orgId, e.action.contactIds)
      else after.recipients <= c.recipients
  {
    hide OnSale;
    hide StoreIsApproved;
    hide SnapshotOf;
    hide Approvable;
    if e.action.AddRecipients? {
      SameValid(s.roster.contacts, e.orgId, e.action.contactIds);
    }
  }
}
