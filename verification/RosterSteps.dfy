// The roster's events keep the protocol's invariant.

module RosterSteps {
  import opened RosterStore
  import opened RosterPurge
  import opened Campaigns
  import opened Dispatch
  import opened Protocol
  import opened Invariants
  import RosterRows
  import Wrappers

  // ── Growth: imports and archives ──────────────────────────────────

  // No contact is lost, and every new one has an id nobody has had.
  predicate GrownFrom(before: Roster, after: Roster) {
    && before.contacts.Keys <= after.contacts.Keys
    && before.nextId <= after.nextId
    && (forall id :: id in after.contacts && id !in before.contacts ==> id >= before.nextId)
  }

  lemma ImportGrows(
    orgStatus: map<nat, string>, roster: Roster, orgId: nat, csv: Wrappers.Option<string>, purgeAfter: int)
    requires Sound(roster)
    ensures GrownFrom(roster, AfterImport(orgStatus, roster, orgId, csv, purgeAfter))
  {
    hide ReplyTo;
    hide NewRows;
    hide Disjoint;
    hide AllContactable;
    if ReplyTo(orgStatus, roster.contacts, orgId, csv).Imported? {
      ReplyMeansParsed(orgStatus, roster.contacts, orgId, csv);
      var rows := NewRows(RosterRows.ParseOf(csv.value).rows, Taken(roster.contacts, orgId));
      InsertExtends(roster, orgId, rows, purgeAfter);
    }
  }


  lemma ReplyMeansParsed(
    orgStatus: map<nat, string>, contacts: map<nat, Contact>, orgId: nat, csv: Wrappers.Option<string>)
    requires ReplyTo(orgStatus, contacts, orgId, csv).Imported?
    ensures csv.Some? && RosterRows.ParseOf(csv.value).Accepted?
  {
    hide RosterRows.ParseOf;
    hide Taken;
    hide NewRows;
  }

  lemma GrowthKeepsTables(before: Roster, after: Roster, campaigns: seq<Campaign>, jobs: seq<Job>)
    requires GrownFrom(before, after)
    requires CampaignsOk(before.contacts, campaigns) && JobsOk(before, campaigns, jobs)
    ensures CampaignsOk(after.contacts, campaigns) && JobsOk(after, campaigns, jobs)
  {
    hide WellFormed;
    forall j | 0 <= j < |jobs| ensures JobOk(after, campaigns, jobs[j]) {
      assert JobOk(before, campaigns, jobs[j]);
    }
  }

  // ── Purge ─────────────────────────────────────────────────────────

  lemma PurgeKeepsSound(roster: Roster, campaigns: seq<Campaign>, now: int)
    requires Sound(roster)
    ensures Sound(roster.(contacts := Remaining(roster.contacts, campaigns, now)))
  {
    hide Purgeable;
    hide RosterRows.Contactable;
    hide ContactChannels;
    var left := Remaining(roster.contacts, campaigns, now);
    forall a, b, o | a != b && ActiveIn(left, a, o) && ActiveIn(left, b, o)
      ensures ContactChannels(left[a]) !! ContactChannels(left[b])
    {
      assert ActiveIn(roster.contacts, a, o) && ActiveIn(roster.contacts, b, o);
    }
  }

  // The recipients of a submitted, approved or dispatching campaign stay.
  lemma ProtectedRecipientsStay(contacts: map<nat, Contact>, campaigns: seq<Campaign>, now: int, c: nat)
    requires c < |campaigns| && campaigns[c].recipients <= contacts.Keys
    requires campaigns[c].status in PURGE_PROTECTING_CAMPAIGN_STATES
    ensures campaigns[c].recipients <= Remaining(contacts, campaigns, now).Keys
    ensures Cascade(campaigns, Remaining(contacts, campaigns, now))[c] == campaigns[c]
  {
    forall id | id in campaigns[c].recipients ensures id in Remaining(contacts, campaigns, now) {
      assert Protected(campaigns, id);
    }
    assert campaigns[c].recipients * Remaining(contacts, campaigns, now).Keys == campaigns[c].recipients;
  }

  lemma PurgeKeepsCampaigns(contacts: map<nat, Contact>, campaigns: seq<Campaign>, now: int)
    requires CampaignsOk(contacts, campaigns)
    ensures
      var left := Remaining(contacts, campaigns, now);
      CampaignsOk(left, Cascade(campaigns, left))
  {
    hide Remaining;
    var left := Remaining(contacts, campaigns, now);
    var after := Cascade(campaigns, left);
    forall c | 0 <= c < |after| ensures WellFormed(after[c]) {
      if campaigns[c].status in PURGE_PROTECTING_CAMPAIGN_STATES {
        ProtectedRecipientsStay(contacts, campaigns, now, c);
      }
    }
  }

  lemma PurgeKeepsJobs(roster: Roster, campaigns: seq<Campaign>, jobs: seq<Job>, now: int)
    requires CampaignsOk(roster.contacts, campaigns) && JobsOk(roster, campaigns, jobs)
    ensures
      var left := Remaining(roster.contacts, campaigns, now);
      JobsOk(roster.(contacts := left), Cascade(campaigns, left), jobs)
  {
    hide Purgeable;
    hide WellFormed;
    hide HasJob;
    var left := Remaining(roster.contacts, campaigns, now);
    var after := Cascade(campaigns, left);
    forall j | 0 <= j < |jobs| ensures JobOk(roster.(contacts := left), after, jobs[j]) {
      assert JobOk(roster, campaigns, jobs[j]);
      var c := jobs[j].campaignId;
      if campaigns[c].status == CampaignStatus.Dispatching {
        ProtectedRecipientsStay(roster.contacts, campaigns, now, c);
      }
    }
  }

  lemma PurgeKeepsDispatchers(
    contacts: map<nat, Contact>, campaigns: seq<Campaign>, now: int, dispatchers: map<nat, Dispatcher>)
    requires CampaignsOk(contacts, campaigns) && DispatchersOk(campaigns, dispatchers)
    ensures DispatchersOk(Cascade(campaigns, Remaining(contacts, campaigns, now)), dispatchers)
  {
    hide Remaining;
    hide WellFormed;
    var after := Cascade(campaigns, Remaining(contacts, campaigns, now));
    forall d | d in dispatchers ensures DispatcherOk(after, dispatchers[d]) {
      var dispatcher := dispatchers[d];
      assert DispatcherOk(campaigns, dispatcher);
      if dispatcher.Loaded? && campaigns[dispatcher.campaignId].status == Approved {
        ProtectedRecipientsStay(contacts, campaigns, now, dispatcher.campaignId);
      }
    }
  }

  lemma RosterEventKeepsInv(s: State, e: Event)
    requires Inv(s) && (e.ImportRoster? || e.ArchiveContact? || e.PurgeRoster?)
    ensures Inv(Protocol.Apply(s, e))
  {
    hide Sound;
    hide CampaignsOk;
    hide JobsOk;
    hide DispatchersOk;
    hide AfterImport;
    hide Remaining;
    match e
    case ImportRoster(orgStatus, orgId, csv, purgeAfter) =>
      ImportKeepsSound(orgStatus, s.roster, orgId, csv, purgeAfter);
      ImportGrows(orgStatus, s.roster, orgId, csv, purgeAfter);
      GrowthKeepsTables(s.roster, AfterImport(orgStatus, s.roster, orgId, csv, purgeAfter), s.campaigns, s.jobs);
    case ArchiveContact(orgId, contactId, purgeAfter) =>
      ArchiveKeepsSound(s.roster, orgId, contactId, purgeAfter);
      GrowthKeepsTables(s.roster, AfterArchive(s.roster, orgId, contactId, purgeAfter), s.campaigns, s.jobs);
    case PurgeRoster(now) =>
      PurgeKeepsSound(s.roster, s.campaigns, now);
      PurgeKeepsCampaigns(s.roster.contacts, s.campaigns, now);
      PurgeKeepsJobs(s.roster, s.campaigns, s.jobs, now);
      PurgeKeepsDispatchers(s.roster.contacts, s.campaigns, now, s.dispatchers);
  }
}
