// The retention sweep over the roster (src/corporate/roster-purge.service.ts):
// one delete, which takes the contact's recipient rows with it.

module RosterPurge {
  import opened RosterStore
  import opened Campaigns

  const PURGE_PROTECTING_CAMPAIGN_STATES: set<CampaignStatus> := {PendingApproval, Approved, CampaignStatus.Dispatching}

  predicate Protected(campaigns: seq<Campaign>, id: nat) {
    exists c :: 0 <= c < |campaigns| &&
      campaigns[c].status in PURGE_PROTECTING_CAMPAIGN_STATES && id in campaigns[c].recipients
  }

  predicate Purgeable(contacts: map<nat, Contact>, campaigns: seq<Campaign>, id: nat, now: int) {
    id in contacts && contacts[id].purgeAfter < now && !Protected(campaigns, id)
  }

  function Remaining(contacts: map<nat, Contact>, campaigns: seq<Campaign>, now: int): map<nat, Contact> {
    map id | id in contacts && !Purgeable(contacts, campaigns, id, now) :: contacts[id]
  }

  // Recipient rows follow their contact.
  function Cascade(campaigns: seq<Campaign>, left: map<nat, Contact>): (after: seq<Campaign>)
    ensures |after| == |campaigns|
    ensures forall c :: 0 <= c < |campaigns| ==>
      after[c] == campaigns[c].(recipients := campaigns[c].recipients * left.Keys)
  {
    seq(|campaigns|, c requires 0 <= c < |campaigns| =>
      campaigns[c].(recipients := campaigns[c].recipients * left.Keys))
  }

  class RosterPurgeService {
    var contacts: map<nat, Contact>
    var campaigns: seq<Campaign>

    constructor (contacts: map<nat, Contact>, campaigns: seq<Campaign>)
      ensures this.contacts == contacts && this.campaigns == campaigns
    {
      this.contacts, this.campaigns := contacts, campaigns;
    }

    method RunOnce(now: int) returns (deleted: nat)
      modifies this
      ensures contacts == Remaining(old(contacts), old(campaigns), now)
      ensures campaigns == Cascade(old(campaigns), contacts)
      ensures deleted == |old(contacts)| - |contacts|
      ensures forall id :: Purgeable(old(contacts), old(campaigns), id, now) <==>
        id in old(contacts) && id !in contacts
    {
      var left := Remaining(contacts, campaigns, now);
      assert left.Keys <= contacts.Keys;
      RowsLost(contacts, left);
      deleted := |contacts| - |left|;
      contacts, campaigns := left, Cascade(campaigns, left);
    }
  }

  lemma RowsLost(before: map<nat, Contact>, after: map<nat, Contact>)
    requires after.Keys <= before.Keys
    ensures |after| <= |before|
  {
    assert before.Keys == after.Keys + (before.Keys - after.Keys);
    assert |before.Keys| == |after.Keys| + |before.Keys - after.Keys|;
    assert |before| == |before.Keys| && |after| == |after.Keys|;
  }
}
