// The campaign lifecycle (src/corporate/campaign.service.ts). A call checks the
// campaign and then writes it unconditionally, so each call is modelled as one
// atomic step.

module Campaigns {
  import opened Wrappers
  import opened Text
  import opened RosterStore

  datatype CampaignStatus =
    | Draft | PendingApproval | ChangesRequested | Approved | Dispatching | Completed | Cancelled

  datatype GiftSnapshot = GiftSnapshot(
    productId: nat, productName: string, price: real, imageUrl: Option<string>,
    category: string, storeId: nat, storeName: string)

  // The single gift option; the snapshot is frozen at approval.
  datatype GiftOption = GiftOption(productId: nat, snapshot: Option<GiftSnapshot>)

  datatype Campaign = Campaign(
    orgId: nat, name: string, occasion: Option<string>, message: Option<string>,
    status: CampaignStatus, createdBy: nat, approvedBy: Option<nat>, cancelledBy: Option<nat>,
    reviewNote: Option<string>, option: Option<GiftOption>, recipients: set<nat>)

  datatype Store = Store(name: string, status: string)

  datatype Product = Product(
    name: string, price: real, imageUrl: Option<string>, category: string,
    isAvailable: bool, stockStatus: string, storeId: nat, store: Option<Store>)

  type Catalog = map<nat, Product>

  const EDITABLE: set<CampaignStatus> := {Draft, ChangesRequested}
  const CANCELLABLE: set<CampaignStatus> := {Draft, PendingApproval, ChangesRequested, Approved}
  const MAX_CAMPAIGN_RECIPIENTS := 1000

  // What a seat holder asks of an existing campaign.
  datatype Action =
    | Update(newName: Option<string>, newOccasion: Option<string>, newMessage: Option<string>)
    | SetGiftOption(productId: Option<nat>)
    | AddRecipients(contactIds: seq<nat>)
    | RemoveRecipient(contactId: nat)
    | Submit
    | Approve
    | RequestChanges(note: string)
    | Cancel

  function OrNull(s: string): Option<string> {
    if IsBlank(s) then None else Some(Trim(s))
  }

  predicate Sellable(catalog: Catalog, productId: nat) {
    productId in catalog && catalog[productId].isAvailable && catalog[productId].stockStatus == "in_stock"
  }

  predicate Approvable(catalog: Catalog, productId: nat) {
    && Sellable(catalog, productId)
    && catalog[productId].store.Some? && catalog[productId].store.value.status == "approved"
  }

  function SnapshotOf(catalog: Catalog, productId: nat): GiftSnapshot
    requires Approvable(catalog, productId)
  {
    var p := catalog[productId];
    GiftSnapshot(productId, p.name, p.price, p.imageUrl, p.category, p.storeId, p.store.value.name)
  }

  function ValidContacts(contacts: map<nat, Contact>, orgId: nat, ids: seq<nat>): set<nat> {
    set id | id in ids && ActiveIn(contacts, id, orgId)
  }

  function Distinct(ids: seq<nat>): set<nat> {
    set id | id in ids
  }

  // ── One function per call, on the campaign's row ──────────────────

  function Updated(c: Campaign, name: Option<string>, occasion: Option<string>, message: Option<string>)
    : Result<Campaign>
  {
    if c.status !in EDITABLE then Failure("campaign_not_editable")
    else if name.Some? && |Trim(name.value)| < 3 then Failure("campaign_name_required")
    else Success(c.(
      name := if name.Some? then Trim(name.value) else c.name,
      occasion := if occasion.Some? then OrNull(occasion.value) else c.occasion,
      message := if message.Some? then OrNull(message.value) else c.message))
  }

  function WithOption(c: Campaign, catalog: Catalog, productId: nat): Result<Campaign> {
    if c.status !in EDITABLE then Failure("campaign_not_editable")
    else if !Sellable(catalog, productId) then Failure("product_unavailable")
    else Success(c.(option := Some(GiftOption(productId, None))))
  }

  function WithRecipients(c: Campaign, contacts: map<nat, Contact>, ids: seq<nat>): Result<Campaign> {
    var valid := ValidContacts(contacts, c.orgId, ids);
    if c.status !in EDITABLE then Failure("campaign_not_editable")
    else if |c.recipients| + |valid| > MAX_CAMPAIGN_RECIPIENTS then Failure("campaign_recipient_cap_exceeded")
    else Success(c.(recipients := c.recipients + valid))
  }

  function WithoutRecipient(c: Campaign, contactId: nat): Result<Campaign> {
    if c.status !in EDITABLE then Failure("campaign_not_editable")
    else if contactId !in c.recipients then Failure("recipient_not_found")
    else Success(c.(recipients := c.recipients - {contactId}))
  }

  function Submitted(c: Campaign): Result<Campaign> {
    if c.status !in EDITABLE then Failure("campaign_not_editable")
    else if c.option.None? then Failure("campaign_option_required")
    else if c.recipients == {} then Failure("campaign_recipients_required")
    else Success(c.(status := PendingApproval, reviewNote := None))
  }

  function ApprovedBy(c: Campaign, actor: nat, catalog: Catalog): Result<Campaign> {
    if c.status != PendingApproval then Failure("campaign_not_pending")
    else if c.createdBy == actor then Failure("campaign_sod_creator_cannot_approve")
    else if c.option.None? then Failure("campaign_option_required")
    else if !Approvable(catalog, c.option.value.productId) then Failure("product_unavailable")
    else Success(c.(
      status := Approved, approvedBy := Some(actor),
      option := Some(c.option.value.(snapshot := Some(SnapshotOf(catalog, c.option.value.productId))))))
  }

  function SentBack(c: Campaign, actor: nat, note: string): Result<Campaign> {
    if c.status != PendingApproval then Failure("campaign_not_pending")
    else if c.createdBy == actor then Failure("campaign_sod_creator_cannot_approve")
    else Success(c.(status := ChangesRequested, reviewNote := Some(Trim(note))))
  }

  function CancelledBy(c: Campaign, actor: nat): Result<Campaign> {
    if c.status !in CANCELLABLE then Failure("campaign_not_cancellable")
    else Success(c.(status := Cancelled, cancelledBy := Some(actor)))
  }

  // Checks on the request itself, which come before the campaign is loaded.
  function Malformed(action: Action): Option<string> {
    match action
    case SetGiftOption(productId) => if productId.None? then Some("product_id_required") else None
    case AddRecipients(ids) => if ids == [] then Some("contact_ids_required") else None
    case RequestChanges(note) => if IsBlank(note) then Some("campaign_review_note_required") else None
    case _ => None
  }

  function Revised(c: Campaign, actor: nat, contacts: map<nat, Contact>, catalog: Catalog, action: Action)
    : Result<Campaign>
    requires Malformed(action).None?
  {
    match action
    case Update(name, occasion, message) => Updated(c, name, occasion, message)
    case SetGiftOption(productId) => WithOption(c, catalog, productId.value)
    case AddRecipients(ids) => WithRecipients(c, contacts, ids)
    case RemoveRecipient(contactId) => WithoutRecipient(c, contactId)
    case Submit => Submitted(c)
    case Approve => ApprovedBy(c, actor, catalog)
    case RequestChanges(note) => SentBack(c, actor, note)
    case Cancel => CancelledBy(c, actor)
  }

  // A campaign id of another organization is as good as none.
  function Revise(
    campaigns: seq<Campaign>, orgId: nat, id: nat, actor: nat,
    contacts: map<nat, Contact>, catalog: Catalog, action: Action): Result<Campaign>
  {
    if Malformed(action).Some? then Failure(Malformed(action).value)
    else if id >= |campaigns| || campaigns[id].orgId != orgId then Failure("campaign_not_found")
    else Revised(campaigns[id], actor, contacts, catalog, action)
  }

  function Create(
    orgStatus: map<nat, string>, actor: nat, orgId: nat,
    name: Option<string>, occasion: Option<string>, message: Option<string>): Result<Campaign>
  {
    if name.None? || |Trim(name.value)| < 3 then Failure("campaign_name_required")
    else if orgId !in orgStatus then Failure("org_not_found")
    else if orgStatus[orgId] != "approved" then Failure("org_not_approved")
    else Success(Campaign(
      orgId, Trim(name.value), if occasion.Some? then OrNull(occasion.value) else None,
      if message.Some? then OrNull(message.value) else None,
      Draft, actor, None, None, None, None, {}))
  }

  class CampaignService {
    var campaigns: seq<Campaign>

    constructor ()
      ensures campaigns == []
    {
      campaigns := [];
    }

    method CreateCampaign(
      orgStatus: map<nat, string>, actor: nat, orgId: nat,
      name: Option<string>, occasion: Option<string>, message: Option<string>) returns (r: Result<nat>)
      modifies this
      ensures
        var created := Create(orgStatus, actor, orgId, name, occasion, message);
        && r == (if created.Success? then Success(|old(campaigns)|) else Failure(created.error))
        && campaigns == old(campaigns) + if created.Success? then [created.value] else []
    {
      if name.None? || |Trim(name.value)| < 3 {
        return Failure("campaign_name_required");
      }
      if orgId !in orgStatus {
        return Failure("org_not_found");
      }
      if orgStatus[orgId] != "approved" {
        return Failure("org_not_approved");
      }
      r := Success(|campaigns|);
      campaigns := campaigns + [Campaign(
        orgId, Trim(name.value), if occasion.Some? then OrNull(occasion.value) else None,
        if message.Some? then OrNull(message.value) else None,
        Draft, actor, None, None, None, None, {})];
    }

    method LoadCampaign(orgId: nat, id: nat) returns (r: Result<Campaign>)
      ensures r.Success? <==> id < |campaigns| && campaigns[id].orgId == orgId
      ensures r.Success? ==> r.value == campaigns[id]
      ensures r.Failure? ==> r.error == "campaign_not_found"
    {
      if id < |campaigns| && campaigns[id].orgId == orgId {
        r := Success(campaigns[id]);
      } else {
        r := Failure("campaign_not_found");
      }
    }

    method SubmitForApproval(orgId: nat, id: nat, actor: nat) returns (r: Result<Campaign>)
      modifies this
      ensures r == Revise(old(campaigns), orgId, id, actor, map[], map[], Submit)
      ensures campaigns == if r.Success? then old(campaigns)[id := r.value] else old(campaigns)
    {
      var campaign :- LoadCampaign(orgId, id);
      if campaign.status !in EDITABLE {
        return Failure("campaign_not_editable");
      }
      if campaign.option.None? {
        return Failure("campaign_option_required");
      }
      if campaign.recipients == {} {
        return Failure("campaign_recipients_required");
      }
      campaigns := campaigns[id := campaign.(status := PendingApproval, reviewNote := None)];
      r := Success(campaigns[id]);
    }

    method ApproveCampaign(orgId: nat, id: nat, actor: nat, catalog: Catalog) returns (r: Result<Campaign>)
      modifies this
      ensures r == Revise(old(campaigns), orgId, id, actor, map[], catalog, Approve)
      ensures campaigns == if r.Success? then old(campaigns)[id := r.value] else old(campaigns)
    {
      var campaign :- LoadCampaign(orgId, id);
      if campaign.status != PendingApproval {
        return Failure("campaign_not_pending");
      }
      if campaign.createdBy == actor {
        return Failure("campaign_sod_creator_cannot_approve");
      }
      if campaign.option.None? {
        return Failure("campaign_option_required");
      }
      var option := campaign.option.value;
      if !Approvable(catalog, option.productId) {
        return Failure("product_unavailable");
      }
      var snapshot := SnapshotOf(catalog, option.productId);
      campaigns := campaigns[id := campaign.(
        status := Approved, approvedBy := Some(actor), option := Some(option.(snapshot := Some(snapshot))))];
      r := Success(campaigns[id]);
    }

    method RequestChanges(orgId: nat, id: nat, actor: nat, note: string) returns (r: Result<Campaign>)
      modifies this
      ensures r == Revise(old(campaigns), orgId, id, actor, map[], map[], Action.RequestChanges(note))
      ensures campaigns == if r.Success? then old(campaigns)[id := r.value] else old(campaigns)
    {
      if IsBlank(note) {
        return Failure("campaign_review_note_required");
      }
      var campaign :- LoadCampaign(orgId, id);
      if campaign.status != PendingApproval {
        return Failure("campaign_not_pending");
      }
      if campaign.createdBy == actor {
        return Failure("campaign_sod_creator_cannot_approve");
      }
      campaigns := campaigns[id := campaign.(status := ChangesRequested, reviewNote := Some(Trim(note)))];
      r := Success(campaigns[id]);
    }

    method CancelCampaign(orgId: nat, id: nat, actor: nat) returns (r: Result<Campaign>)
      modifies this
      ensures r == Revise(old(campaigns), orgId, id, actor, map[], map[], Cancel)
      ensures campaigns == if r.Success? then old(campaigns)[id := r.value] else old(campaigns)
    {
      var campaign :- LoadCampaign(orgId, id);
      if campaign.status !in CANCELLABLE {
        return Failure("campaign_not_cancellable");
      }
      campaigns := campaigns[id := campaign.(status := Cancelled, cancelledBy := Some(actor))];
      r := Success(campaigns[id]);
    }

    method SetGiftOption(orgId: nat, id: nat, actor: nat, catalog: Catalog, productId: Option<nat>)
      returns (r: Result<Campaign>)
      modifies this
      ensures r == Revise(old(campaigns), orgId, id, actor, map[], catalog, Action.SetGiftOption(productId))
      ensures campaigns == if r.Success? then old(campaigns)[id := r.value] else old(campaigns)
    {
      if productId.None? {
        return Failure("product_id_required");
      }
      var campaign :- LoadCampaign(orgId, id);
      if campaign.status !in EDITABLE {
        return Failure("campaign_not_editable");
      }
      if !Sellable(catalog, productId.value) {
        return Failure("product_unavailable");
      }
      campaigns := campaigns[id := campaign.(option := Some(GiftOption(productId.value, None)))];
      r := Success(campaigns[id]);
    }

    method UpdateCampaign(
      orgId: nat, id: nat, actor: nat, name: Option<string>, occasion: Option<string>, message: Option<string>)
      returns (r: Result<Campaign>)
      modifies this
      ensures r == Revise(old(campaigns), orgId, id, actor, map[], map[], Update(name, occasion, message))
      ensures campaigns == if r.Success? then old(campaigns)[id := r.value] else old(campaigns)
    {
      var campaign :- LoadCampaign(orgId, id);
      if campaign.status !in EDITABLE {
        return Failure("campaign_not_editable");
      }
      var updated := campaign;
      if name.Some? {
        if |Trim(name.value)| < 3 {
          return Failure("campaign_name_required");
        }
        updated := updated.(name := Trim(name.value));
      }
      if occasion.Some? {
        updated := updated.(occasion := OrNull(occasion.value));
      }
      if message.Some? {
        updated := updated.(message := OrNull(message.value));
      }
      campaigns := campaigns[id := updated];
      r := Success(updated);
    }

    method RemoveRecipient(orgId: nat, id: nat, actor: nat, contactId: nat) returns (r: Result<Campaign>)
      modifies this
      ensures r == Revise(old(campaigns), orgId, id, actor, map[], map[], Action.RemoveRecipient(contactId))
      ensures campaigns == if r.Success? then old(campaigns)[id := r.value] else old(campaigns)
    {
      var campaign :- LoadCampaign(orgId, id);
      if campaign.status !in EDITABLE {
        return Failure("campaign_not_editable");
      }
      if contactId !in campaign.recipients {
        return Failure("recipient_not_found");
      }
      campaigns := campaigns[id := campaign.(recipients := campaign.recipients - {contactId})];
      r := Success(campaigns[id]);
    }

    // Answers how many were added and how many skipped.
    method AddRecipients(orgId: nat, id: nat, actor: nat, contacts: map<nat, Contact>, contactIds: seq<nat>)
      returns (r: Result<(nat, nat)>)
      modifies this
      ensures
        var revised := Revise(old(campaigns), orgId, id, actor, contacts, map[], Action.AddRecipients(contactIds));
        && (r.Success? <==> revised.Success?)
        && (r.Failure? ==> r.error == revised.error && campaigns == old(campaigns))
        && (r.Success? ==>
              && campaigns == old(campaigns)[id := revised.value]
              && r.value.0 == |campaigns[id].recipients| - |old(campaigns)[id].recipients|
              && r.value.0 + r.value.1 == |Distinct(contactIds)|)
    {
      if contactIds == [] {
        return Failure("contact_ids_required");
      }
      var campaign :- LoadCampaign(orgId, id);
      if campaign.status !in EDITABLE {
        return Failure("campaign_not_editable");
      }
      var unique := Distinct(contactIds);
      var validIds := ValidContacts(contacts, orgId, contactIds);
      if |campaign.recipients| + |validIds| > MAX_CAMPAIGN_RECIPIENTS {
        return Failure("campaign_recipient_cap_exceeded");
      }
      var added := validIds - campaign.recipients;
      AddedCount(campaign.recipients, validIds, unique);
      campaigns := campaigns[id := campaign.(recipients := campaign.recipients + validIds)];
      r := Success((|added|, |unique| - |added|));
    }
  }

  lemma AddedCount(current: set<nat>, valid: set<nat>, unique: set<nat>)
    requires valid <= unique
    ensures |current + valid| == |current| + |valid - current|
    ensures |valid - current| <= |unique|
  {
    var added := valid - current;
    assert current + valid == current + added;
    assert unique == added + (unique - added);
  }
}
