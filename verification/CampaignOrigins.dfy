// What a campaign holds comes from the calls that were made to it: read off whole
// runs of the protocol, in terms of the requests, the campaigns they met and the
// catalogs they saw (src/corporate/campaign.service.ts).

module CampaignOrigins {
  import opened Wrappers
  import opened Text
  import opened RosterStore
  import opened Campaigns
  import opened Dispatch
  import opened Protocol
  import opened Invariants
  import RosterPurge

  // ── Which calls are accepted ──────────────────────────────────────

  predicate IsEditable(c: Campaign) {
    c.status == Draft || c.status == ChangesRequested
  }

  predicate OnSale(catalog: Catalog, id: nat) {
    id in catalog && catalog[id].isAvailable && catalog[id].stockStatus == "in_stock"
  }

  predicate StoreIsApproved(catalog: Catalog, id: nat) {
    id in catalog && match catalog[id].store case None => false case Some(store) => store.status == "approved"
  }

  // The organization's active contacts among these.
  function OwnActive(contacts: map<nat, Contact>, orgId: nat, ids: seq<nat>): set<nat> {
    set id | id in ids && id in contacts && contacts[id].orgId == orgId && contacts[id].status == Active
  }

  predicate Accepted(s: State, e: Event) {
    && e.ReviseCampaign? && e.campaignId < |s.campaigns| && s.campaigns[e.campaignId].orgId == e.orgId
    && var c := s.campaigns[e.campaignId];
    match e.action
    case Update(name, _, _) => IsEditable(c) && (name.Some? ==> |Trim(name.value)| >= 3)
    case SetGiftOption(product) => IsEditable(c) && product.Some? && OnSale(e.catalog, product.value)
    case AddRecipients(ids) =>
      IsEditable(c) && ids != [] && |c.recipients| + |OwnActive(s.roster.contacts, e.orgId, ids)| <= 1000
    case RemoveRecipient(x) => IsEditable(c) && x in c.recipients
    case Submit => IsEditable(c) && c.option.Some? && c.recipients != {}
    case Approve =>
      && c.status == PendingApproval && e.actor != c.createdBy && c.option.Some?
      && OnSale(e.catalog, c.option.value.productId) && StoreIsApproved(e.catalog, c.option.value.productId)
    case RequestChanges(note) => c.status == PendingApproval && e.actor != c.createdBy && Trim(note) != ""
    case Cancel => IsEditable(c) || c.status == PendingApproval || c.status == Approved
  }

  lemma SameValid(contacts: map<nat, Contact>, orgId: nat, ids: seq<nat>)
    ensures ValidContacts(contacts, orgId, ids) == OwnActive(contacts, orgId, ids)
  {
  }

  // A call is accepted exactly under these conditions.
  lemma RevisesExactlyWhen(s: State, e: Event)
    requires e.ReviseCampaign?
    ensures
      Revise(s.campaigns, e.orgId, e.campaignId, e.actor, s.roster.contacts, e.catalog, e.action).Success? <==>
      Accepted(s, e)
  {
    if e.action.AddRecipients? {
      SameValid(s.roster.contacts, e.orgId, e.action.contactIds);
    }
  }

  // ── One step, one campaign ────────────────────────────────────────

  // All that dispatch, completion and the purge may change.
  predicate OnlyMoved(a: Campaign, b: Campaign) {
    && b == a.(status := b.status, recipients := b.recipients) && b.recipients <= a.recipients
    && (b.status == a.status || (a.status == Approved && b.status == CampaignStatus.Dispatching)
        || (a.status == CampaignStatus.Dispatching && b.status == Completed))
  }

  predicate RevisesTo(s: State, e: Event, after: Campaign) {
    && e.ReviseCampaign? && Malformed(e.action).None? && e.campaignId < |s.campaigns|
    && Revised(s.campaigns[e.campaignId], e.actor, s.roster.contacts, e.catalog, e.action) == Success(after)
  }

  predicate Calls(e: Event, c: nat) {
    e.ReviseCampaign? && e.campaignId == c
  }

  // A campaign changes by an accepted call to it, or is moved on by the dispatch.
  ghost predicate Stepped(s: State, e: Event, after: State, c: nat) {
    && |s.campaigns| <= |after.campaigns|
    && (c < |s.campaigns| ==>
          if Calls(e, c) && Accepted(s, e) then RevisesTo(s, e, after.campaigns[c])
          else OnlyMoved(s.campaigns[c], after.campaigns[c]))
    && (|s.campaigns| <= c < |after.campaigns| ==> c == |s.campaigns| && Begins(e, after.campaigns[c]))
  }

  // A draft of its creator, for an approved organization, with the given texts.
  predicate Begins(e: Event, c: Campaign) {
    && e.CreateCampaign? && e.orgId in e.orgStatus && e.orgStatus[e.orgId] == "approved"
    && c.orgId == e.orgId && c.createdBy == e.actor && c.status == Draft
    && e.name.Some? && c.name == Trim(e.name.value) && |c.name| >= 3
    && Keeps(e.occasion, c.occasion) && Keeps(e.message, c.message)
    && c.option.None? && c.recipients == {} && c.approvedBy.None? && c.cancelledBy.None? && c.reviewNote.None?
  }

  lemma ReviseSteps(s: State, e: Event, c: nat)
    requires e.ReviseCampaign?
    ensures Stepped(s, e, Protocol.Apply(s, e), c)
  {
    hide Revised;
    hide Accepted;
    hide WellFormed;
    RevisesExactlyWhen(s, e);
  }

  lemma CreateSteps(s: State, e: Event, c: nat)
    requires e.CreateCampaign?
    ensures Stepped(s, e, Protocol.Apply(s, e), c)
  {
    hide PurgeStep;
    hide ReviseStep;
    hide CommitStep;
    hide WorkStep;
    hide ReturnStep;
    hide AfterImport;
    hide AfterArchive;
    hide CheckDispatch;
    hide LoadRecipients;
    hide Accepted;
    hide RevisesTo;
  }

  lemma CommitSteps(s: State, e: Event, c: nat)
    requires e.CommitRows?
    ensures Stepped(s, e, Protocol.Apply(s, e), c)
  {
    hide PurgeStep;
    hide ReviseStep;
    hide WorkStep;
    hide ReturnStep;
    hide AfterImport;
    hide AfterArchive;
    hide CheckDispatch;
    hide LoadRecipients;
    hide Accepted;
    hide Enqueue;
    hide RevisesTo;
    hide Begins;
  }

  lemma PurgeSteps(s: State, e: Event, c: nat)
    requires e.PurgeRoster?
    ensures Stepped(s, e, Protocol.Apply(s, e), c)
  {
    hide ReviseStep;
    hide CommitStep;
    hide WorkStep;
    hide ReturnStep;
    hide AfterImport;
    hide AfterArchive;
    hide CheckDispatch;
    hide LoadRecipients;
    hide Accepted;
    hide RosterPurge.Remaining;
    hide RevisesTo;
    hide Begins;
  }

  lemma WorkSteps(s: State, e: Event, c: nat)
    requires e.Work?
    ensures Stepped(s, e, Protocol.Apply(s, e), c)
  {
    hide PurgeStep;
    hide ReviseStep;
    hide CommitStep;
    hide ReturnStep;
    hide AfterImport;
    hide AfterArchive;
    hide CheckDispatch;
    hide LoadRecipients;
    hide Accepted;
    hide HasLiveJob;
    hide MintWriteStep;
    hide SettleStep;
    hide ClaimStep;
    hide RevisesTo;
    hide Begins;
  }

  lemma CampaignStep(s: State, e: Event, c: nat)
    ensures Stepped(s, e, Protocol.Apply(s, e), c)
  {
    hide PurgeStep;
    hide ReviseStep;
    hide CommitStep;
    hide WorkStep;
    hide ReturnStep;
    hide Accepted;
    hide RevisesTo;
    hide Begins;
    hide AfterImport;
    hide AfterArchive;
    hide Create;
    match e
    case ReviseCampaign(_, _, _, _, _) => ReviseSteps(s, e, c);
    case CreateCampaign(_, _, _, _, _, _) => CreateSteps(s, e, c);
    case CommitRows(_) => CommitSteps(s, e, c);
    case PurgeRoster(_) => PurgeSteps(s, e, c);
    case Work(_, _) => WorkSteps(s, e, c);
    case Return(c', otpOk, session, now) => ReturnKeepsCampaigns(s, c', otpOk, session, now);
    case _ =>
  }

  lemma ReturnKeepsCampaigns(s: State, c: nat, otpOk: bool, session: string, now: int)
    ensures ReturnStep(s, c, otpOk, session, now).campaigns == s.campaigns
  {
  }

  // ── What the calls leave behind ───────────────────────────────────

  datatype Column = NameColumn | OccasionColumn | MessageColumn | OptionColumn | ApprovalColumn | StatusColumn

  // Which column of the campaign's row a call writes.
  predicate Writes(action: Campaigns.Action, column: Column) {
    match column
    case NameColumn => action.Update? && action.newName.Some?
    case OccasionColumn => action.Update? && action.newOccasion.Some?
    case MessageColumn => action.Update? && action.newMessage.Some?
    case OptionColumn => action.SetGiftOption?
    case ApprovalColumn => action.Approve?
    case StatusColumn => action.Submit? || action.Approve? || action.RequestChanges? || action.Cancel?
  }

  // The snapshot is the catalog's entry of a product on sale at an approved store.
  predicate Freezes(catalog: Catalog, snapshot: GiftSnapshot) {
    && OnSale(catalog, snapshot.productId) && StoreIsApproved(catalog, snapshot.productId)
    && var p := catalog[snapshot.productId];
    && snapshot.productName == p.name && snapshot.price == p.price && snapshot.imageUrl == p.imageUrl
    && snapshot.category == p.category && snapshot.storeId == p.storeId && Some(snapshot.storeName) == StoreName(p)
  }

  function StoreName(p: Product): Option<string> {
    match p.store case None => None case Some(store) => Some(store.name)
  }

  function SnapshotHeld(c: Campaign): Option<GiftSnapshot> {
    if c.option.Some? then c.option.value.snapshot else None
  }

  // The status and its marks, given the last call that moved the campaign.
  predicate StatusIs(last: Option<Event>, c: Campaign)
    requires last.Some? ==> last.value.ReviseCampaign?
  {
    if last.None? then c.status == Draft && c.reviewNote.None? && c.cancelledBy.None?
    else
      var e := last.value;
      match e.action
      case Submit => c.status == PendingApproval && c.reviewNote.None?
      case RequestChanges(note) =>
        c.status == ChangesRequested && c.reviewNote == Some(Trim(note)) && e.actor != c.createdBy
      case Approve => Sealed(c.status)
      case Cancel => c.status == Cancelled && c.cancelledBy == Some(e.actor)
      case _ => false
  }

  // A column holds what the last call that wrote it asked for, or what the
  // campaign began with.
  predicate Agrees(born: Event, last: Option<Event>, column: Column, c: Campaign)
    requires last.Some? ==> last.value.ReviseCampaign?
  {
    && born.CreateCampaign? && c.orgId == born.orgId && c.createdBy == born.actor
    && (last.Some? ==> Writes(last.value.action, column))
    && match column
       case NameColumn =>
         Some(c.name) == TrimmedName(if last.None? then born.name else last.value.action.newName) && |c.name| >= 3
       case OccasionColumn =>
         Keeps(if last.None? then born.occasion else last.value.action.newOccasion, c.occasion)
       case MessageColumn =>
         Keeps(if last.None? then born.message else last.value.action.newMessage, c.message)
       case OptionColumn =>
         if last.None? then c.option.None?
         else
           && c.option.Some? && Some(c.option.value.productId) == last.value.action.productId
           && OnSale(last.value.catalog, c.option.value.productId)
       case ApprovalColumn =>
         if last.None? then c.approvedBy.None? && SnapshotHeld(c).None?
         else
           && c.approvedBy == Some(last.value.actor) && last.value.actor != c.createdBy && OnceApproved(c.status)
           && SnapshotHeld(c).Some? && SnapshotHeld(c).value.productId == c.option.value.productId
           && Freezes(last.value.catalog, SnapshotHeld(c).value)
       case StatusColumn => StatusIs(last, c)
  }

  function TrimmedName(given: Option<string>): Option<string> {
    match given case None => None case Some(text) => Some(Trim(text))
  }

  lemma BeginningAgrees(e: Event, column: Column, c: Campaign)
    requires Begins(e, c)
    ensures Agrees(e, None, column, c)
  {
  }

  lemma MovingKeepsAgreement(born: Event, last: Option<Event>, column: Column, a: Campaign, b: Campaign)
    requires last.Some? ==> last.value.ReviseCampaign?
    requires Agrees(born, last, column, a) && OnlyMoved(a, b)
    ensures Agrees(born, last, column, b)
  {
    hide Freezes;
    hide OnSale;
    hide Keeps;
  }

  lemma WritingAgrees(s: State, e: Event, born: Event, last: Option<Event>, column: Column, after: Campaign)
    requires last.Some? ==> last.value.ReviseCampaign?
    requires Accepted(s, e) && RevisesTo(s, e, after) && Writes(e.action, column)
    requires Agrees(born, last, column, s.campaigns[e.campaignId])
    ensures Agrees(born, Some(e), column, after)
  {
  }

  lemma OtherCallsAgree(s: State, e: Event, born: Event, last: Option<Event>, column: Column, after: Campaign)
    requires last.Some? ==> last.value.ReviseCampaign?
    requires Accepted(s, e) && RevisesTo(s, e, after) && !Writes(e.action, column)
    requires Agrees(born, last, column, s.campaigns[e.campaignId])
    ensures Agrees(born, last, column, after)
  {
    hide Freezes;
    hide SnapshotOf;
    hide Approvable;
    hide OwnActive;
  }

  // ── Over a run ────────────────────────────────────────────────────

  ghost predicate WrittenAt(events: seq<Event>, n: nat, c: nat, column: Column) {
    && n < |events| && Calls(events[n], c) && Writes(events[n].action, column)
    && Accepted(Protocol.Run(events[..n]), events[n])
  }

  // The last accepted call that wrote the column.
  ghost function LastWrite(events: seq<Event>, c: nat, column: Column): (r: Option<nat>)
    ensures r.Some? ==> r.value < |events| && events[r.value].ReviseCampaign?
  {
    if events == [] then None
    else if WrittenAt(events, |events| - 1, c, column) then Some(|events| - 1)
    else LastWrite(events[..|events| - 1], c, column)
  }

  ghost function LastEvent(events: seq<Event>, c: nat, column: Column): (r: Option<Event>)
    ensures r.Some? ==> r.value.ReviseCampaign?
  {
    var last := LastWrite(events, c, column);
    if last.Some? then Some(events[last.value]) else None
  }

  lemma {:induction false} LastWriteIsLast(events: seq<Event>, c: nat, column: Column)
    ensures
      match LastWrite(events, c, column)
      case Some(n) =>
        WrittenAt(events, n, c, column) && forall m: nat :: n < m < |events| ==> !WrittenAt(events, m, c, column)
      case None => forall m: nat :: m < |events| ==> !WrittenAt(events, m, c, column)
  {
    hide Accepted;
    hide Protocol.Run;
    if events != [] {
      var n := |events| - 1;
      LastWriteIsLast(events[..n], c, column);
      forall m: nat | m < n ensures WrittenAt(events, m, c, column) <==> WrittenAt(events[..n], m, c, column) {
        assert events[..n][..m] == events[..m];
      }
    }
  }

  // Event b created the campaign.
  ghost predicate BornAt(events: seq<Event>, b: nat, c: nat) {
    && b < |events| && events[b].CreateCampaign? && |Protocol.Run(events[..b]).campaigns| == c
    && c < |Protocol.Run(events[..b + 1]).campaigns|
  }

  lemma BornInPrefix(events: seq<Event>, n: nat, b: nat, c: nat)
    requires n <= |events| && BornAt(events[..n], b, c)
    ensures BornAt(events, b, c)
  {
    hide Protocol.Run;
    assert events[..n][..b] == events[..b] && events[..n][..b + 1] == events[..b + 1];
  }

  // In every run, every column of every campaign holds what the last accepted
  // call that writes it asked for, and failing that what the campaign was created
  // with.
  lemma {:induction false} CampaignsHoldWhatWasLastWritten(events: seq<Event>, c: nat, column: Column) returns (b: nat)
    requires c < |Protocol.Run(events).campaigns|
    ensures BornAt(events, b, c)
    ensures Agrees(events[b], LastEvent(events, c, column), column, Protocol.Run(events).campaigns[c])
  {
    hide Protocol.Apply;
    hide Accepted;
    hide Agrees;
    hide Begins;
    hide OnlyMoved;
    hide RevisesTo;
    if events != [] {
      var n := |events| - 1;
      var s, e := Protocol.Run(events[..n]), events[n];
      var after := Protocol.Run(events).campaigns[c];
      assert events[..n + 1] == events;
      CampaignStep(s, e, c);
      if c < |s.campaigns| {
        b := CampaignsHoldWhatWasLastWritten(events[..n], c, column);
        BornInPrefix(events, n, b, c);
        var last := LastEvent(events[..n], c, column);
        if !(Calls(e, c) && Accepted(s, e)) {
          MovingKeepsAgreement(events[b], last, column, s.campaigns[c], after);
        } else if Writes(e.action, column) {
          WritingAgrees(s, e, events[b], last, column, after);
        } else {
          OtherCallsAgree(s, e, events[b], last, column, after);
        }
      } else {
        b := n;
        BornIsCreate(e, after);
        NothingWrittenYet(events, c, column);
        BeginningAgrees(e, column, after);
      }
    }
  }

  lemma BornIsCreate(e: Event, c: Campaign)
    requires Begins(e, c)
    ensures e.CreateCampaign?
  {
  }

  lemma {:induction false} NothingWrittenYet(events: seq<Event>, c: nat, column: Column)
    requires events != [] && |Protocol.Run(events[..|events| - 1]).campaigns| <= c
    ensures LastWrite(events, c, column).None?
  {
    hide Protocol.Apply;
    var n := |events| - 1;
    if n > 0 {
      CampaignStep(Protocol.Run(events[..n][..n - 1]), events[n - 1], c);
      assert events[..n][..n - 1] == events[..n - 1];
      NothingWrittenYet(events[..n], c, column);
    }
  }
}
