// What the callers of the two invoice services read comes from the campaigns of
// the corporate protocol, where what was approved is frozen. Hence the merchant
// has one goods invoice per campaign although its unique index is on campaign and
// store, and the two legs that were issued for a campaign agree.

module MerchantFacts {
  import opened Wrappers
  import Campaigns
  import Protocol
  import Evolution
  import Guarantees
  import Money
  import Numbering = InvoiceNumbering
  import Issuing = MerchantIssuing

  // The moments of a protocol run at which a caller read the campaign's status,
  // then its option, and then counted its recipients.
  datatype Moments = Moments(status: nat, option: nat, count: nat)

  function CampaignAt(run: seq<Protocol.Event>, at: nat, id: nat): Option<Campaigns.Campaign>
    requires at <= |run|
  {
    var campaigns := Protocol.Run(run[..at]).campaigns;
    if id < |campaigns| then Some(campaigns[id]) else None
  }

  function SnapshotIn(c: Option<Campaigns.Campaign>): Option<Campaigns.GiftSnapshot> {
    if c.Some? && c.value.option.Some? then c.value.option.value.snapshot else None
  }

  // What a caller was told about a campaign is what the tables held then.
  ghost predicate Read(
    run: seq<Protocol.Event>, id: nat, found: bool, status: string, price: Option<real>, recipients: nat, m: Moments)
  {
    && m.status <= m.option <= m.count <= |run|
    && var read, seen := CampaignAt(run, m.status, id), CampaignAt(run, m.option, id);
    && var counted := CampaignAt(run, m.count, id);
    && (found ==> read.Some? && (status == "approved" <==> read.value.status == Campaigns.Approved))
    && (SnapshotIn(seen).Some? ==> price == Some(SnapshotIn(seen).value.price))
    && (counted.Some? ==> recipients == |counted.value.recipients|)
  }

  ghost predicate MerchantRead(run: seq<Protocol.Event>, e: Issuing.Event, m: Moments) {
    e.Begin? ==>
      && Read(run, e.campaignId, e.facts.found, e.facts.status, e.facts.price, e.facts.recipients, m)
      && var seen := CampaignAt(run, m.option, e.campaignId);
      SnapshotIn(seen).Some? ==> e.facts.snapshotStore == Some(SnapshotIn(seen).value.storeId)
  }

  ghost predicate QiftRead(run: seq<Protocol.Event>, e: Numbering.Event, m: Moments) {
    e.Begin? ==> Read(run, e.campaignId, e.facts.found, e.facts.status, e.facts.price, e.facts.recipients, m)
  }

  ghost predicate AllReadFrom(run: seq<Protocol.Event>, events: seq<Issuing.Event>, moments: seq<Moments>) {
    |moments| == |events| && forall i :: 0 <= i < |events| ==> MerchantRead(run, events[i], moments[i])
  }

  ghost predicate QiftReadFrom(run: seq<Protocol.Event>, events: seq<Numbering.Event>, moments: seq<Moments>) {
    |moments| == |events| && forall i :: 0 <= i < |events| ==> QiftRead(run, events[i], moments[i])
  }

  // The store of a campaign's snapshot at the end of the run.
  function StoreOfCampaign(run: seq<Protocol.Event>): nat -> nat {
    id =>
      var snapshot := SnapshotIn(CampaignAt(run, |run|, id));
      if snapshot.Some? then snapshot.value.storeId else 0
  }

  predicate ApprovedAt(run: seq<Protocol.Event>, at: nat, id: nat)
    requires at <= |run|
  {
    CampaignAt(run, at, id).Some? && CampaignAt(run, at, id).value.status == Campaigns.Approved
  }

  lemma FrozenSince(run: seq<Protocol.Event>, at: nat, later: nat, id: nat)
    requires at <= later <= |run| && ApprovedAt(run, at, id)
    ensures SnapshotIn(CampaignAt(run, later, id)).Some?
    ensures SnapshotIn(CampaignAt(run, later, id)) == SnapshotIn(CampaignAt(run, at, id))
  {
    hide Protocol.Run;
    assert run[..at] + run[at..later] == run[..later];
    Guarantees.ApprovalIsFrozen(run[..at], run[at..later], id);
  }

  // ── One goods invoice ─────────────────────────────────────────────

  lemma ReadersAgree(run: seq<Protocol.Event>, e: Issuing.Event, m: Moments)
    requires MerchantRead(run, e, m)
    ensures Issuing.ReadsStore(e, StoreOfCampaign(run))
  {
    hide Protocol.Run;
    if e.Begin? && Issuing.Refusal(e.facts).None? {
      FrozenSince(run, m.status, m.option, e.campaignId);
      FrozenSince(run, m.status, |run|, e.campaignId);
    }
  }

  lemma AllReadersAgree(run: seq<Protocol.Event>, events: seq<Issuing.Event>, moments: seq<Moments>)
    requires AllReadFrom(run, events, moments)
    ensures Issuing.AllRead(events, StoreOfCampaign(run))
  {
    hide MerchantRead;
    hide StoreOfCampaign;
    forall i | 0 <= i < |events| ensures Issuing.ReadsStore(events[i], StoreOfCampaign(run)) {
      ReadersAgree(run, events[i], moments[i]);
    }
  }

  // Whenever the callers of any schedule read the campaigns of any run of the
  // protocol, a campaign has at most one goods invoice.
  lemma OneGoodsInvoiceInEveryRun(
    run: seq<Protocol.Event>, events: seq<Issuing.Event>, moments: seq<Moments>, i: nat, j: nat)
    requires AllReadFrom(run, events, moments)
    requires i < |Issuing.Run(events).invoices| && j < |Issuing.Run(events).invoices|
    requires Issuing.Run(events).invoices[i].campaignId == Issuing.Run(events).invoices[j].campaignId
    ensures i == j
  {
    hide Issuing.Run;
    AllReadersAgree(run, events, moments);
    Issuing.OneGoodsInvoicePerCampaign(events, StoreOfCampaign(run), i, j);
  }

  // And whoever is answered, at whatever two times, is answered with that one.
  lemma CallersShareItInEveryRun(
    run: seq<Protocol.Event>, events: seq<Issuing.Event>, more: seq<Issuing.Event>, moments: seq<Moments>,
    c: nat, d: nat)
    requires AllReadFrom(run, events + more, moments)
    requires Issuing.CallerOf(Issuing.Run(events), c).Returned?
    requires Issuing.CallerOf(Issuing.Run(events + more), d).Returned?
    requires
      Issuing.CallerOf(Issuing.Run(events), c).campaignId == Issuing.CallerOf(Issuing.Run(events + more), d).campaignId
    ensures
      var a, b := Issuing.CallerOf(Issuing.Run(events), c), Issuing.CallerOf(Issuing.Run(events + more), d);
      && a.at == b.at && a.at < |Issuing.Run(events).invoices| && b.at < |Issuing.Run(events + more).invoices|
      && Issuing.Run(events).invoices[a.at] == Issuing.Run(events + more).invoices[b.at]
  {
    hide Issuing.Run;
    AllReadersAgree(run, events + more, moments);
    Issuing.CallersShareTheGoodsInvoice(events, more, StoreOfCampaign(run), c, d);
  }

  // ── Two legs of one campaign ──────────────────────────────────────

  function RecipientsAt(run: seq<Protocol.Event>, at: nat, id: nat): set<nat>
    requires at <= |run|
  {
    if CampaignAt(run, at, id).Some? then CampaignAt(run, at, id).value.recipients else {}
  }

  // The price and recipients that the campaign was approved with.
  ghost predicate ApprovedWith(run: seq<Protocol.Event>, id: nat, price: real, recipients: set<nat>) {
    exists at: nat :: at <= |run| && ApprovedAt(run, at, id) && RecipientsAt(run, at, id) == recipients
      && SnapshotIn(CampaignAt(run, at, id)).Some? && SnapshotIn(CampaignAt(run, at, id)).value.price == price
  }

  lemma ApprovedOnce(run: seq<Protocol.Event>, at: nat, later: nat, id: nat)
    requires at <= later <= |run| && ApprovedAt(run, at, id)
    ensures CampaignAt(run, later, id).Some? && RecipientsAt(run, later, id) <= RecipientsAt(run, at, id)
    ensures
      CampaignAt(run, later, id).value.status in {Campaigns.Approved, Campaigns.CampaignStatus.Dispatching} ==>
        RecipientsAt(run, later, id) == RecipientsAt(run, at, id)
  {
    hide Protocol.Run;
    assert run[..at] + run[at..later] == run[..later];
    Evolution.ReachableEvolves(run[..at], run[at..later]);
    var a, b := Protocol.Run(run[..at]).campaigns, Protocol.Run(run[..later]).campaigns;
    assert Evolution.CampaignEvolves(a[id], b[id]);
  }

  lemma ApprovedWithIsOne(
    run: seq<Protocol.Event>, id: nat, price: real, recipients: set<nat>, price': real, recipients': set<nat>)
    requires ApprovedWith(run, id, price, recipients) && ApprovedWith(run, id, price', recipients')
    ensures price == price' && recipients == recipients'
  {
    hide Protocol.Run;
    hide CampaignAt;
    var a: nat :| a <= |run| && ApprovedAt(run, a, id) && RecipientsAt(run, a, id) == recipients
      && SnapshotIn(CampaignAt(run, a, id)).Some? && SnapshotIn(CampaignAt(run, a, id)).value.price == price;
    var b: nat :| b <= |run| && ApprovedAt(run, b, id) && RecipientsAt(run, b, id) == recipients'
      && SnapshotIn(CampaignAt(run, b, id)).Some? && SnapshotIn(CampaignAt(run, b, id)).value.price == price';
    var early, late := if a < b then a else b, if a < b then b else a;
    FrozenSince(run, early, late, id);
    ApprovedOnce(run, early, late, id);
  }

  lemma SubsetCounts(some: set<nat>, all: set<nat>)
    requires some <= all
    ensures |some| <= |all| && (|some| == |all| <==> some == all)
  {
    assert all == some + (all - some);
    assert |all| == |some| + |all - some|;
  }

  // What was read of an approved campaign: its price, and everybody it was
  // approved for, unless somebody had been purged by the time of the count.
  ghost predicate ReadsApproved(run: seq<Protocol.Event>, id: nat, price: real, count: nat, m: Moments) {
    exists recipients: set<nat> ::
      ApprovedWith(run, id, price, recipients) && m.count <= |run| && CountsFor(run, id, recipients, count, m)
  }

  ghost predicate CountsFor(run: seq<Protocol.Event>, id: nat, recipients: set<nat>, count: nat, m: Moments)
    requires m.count <= |run|
  {
    && count <= |recipients|
    && (count == |recipients| <==> RecipientsAt(run, m.count, id) == recipients)
    && (CampaignAt(run, m.count, id).Some?
        && CampaignAt(run, m.count, id).value.status in {Campaigns.Approved, Campaigns.CampaignStatus.Dispatching} ==>
          count == |recipients|)
  }

  lemma ReadingApproved(run: seq<Protocol.Event>, id: nat, price: Option<real>, count: nat, m: Moments)
    requires Read(run, id, true, "approved", price, count, m)
    ensures price.Some? && ReadsApproved(run, id, price.value, count, m)
  {
    hide Protocol.Run;
    hide CampaignAt;
    FrozenSince(run, m.status, m.option, id);
    ApprovedOnce(run, m.status, m.count, id);
    var recipients := RecipientsAt(run, m.status, id);
    SubsetCounts(RecipientsAt(run, m.count, id), recipients);
    FrozenSince(run, m.status, m.status, id);
    assert ApprovedWith(run, id, price.value, recipients);
    assert CountsFor(run, id, recipients, count, m);
  }

  // Whatever the schedules of the two services, the two rows issued for one
  // campaign carry the same price; each goes back to a call that read its campaign, and if
  // neither count was taken after the campaign was over they bill the same
  // recipients and the same goods, to the halala.
  lemma IssuedLegsAgree(
    run: seq<Protocol.Event>,
    qift: seq<Numbering.Event>, qiftMoments: seq<Moments>, merchant: seq<Issuing.Event>, merchantMoments: seq<Moments>,
    i: nat, j: nat) returns (k: nat, l: nat)
    requires QiftReadFrom(run, qift, qiftMoments) && AllReadFrom(run, merchant, merchantMoments)
    requires i < |Numbering.Run(qift).invoices| && j < |Issuing.Run(merchant).invoices|
    requires Numbering.Run(qift).invoices[i].campaignId == Issuing.Run(merchant).invoices[j].campaignId
    ensures k < |qift| && qift[k].Begin? && qiftMoments[k].count <= |run|
    ensures l < |merchant| && merchant[l].Begin? && merchantMoments[l].count <= |run|
    ensures
      var a, b := Numbering.Run(qift).invoices[i].amounts, Issuing.Run(merchant).invoices[j].amounts;
      var id, m, n := Numbering.Run(qift).invoices[i].campaignId, qiftMoments[k], merchantMoments[l];
      && qift[k].campaignId == id == merchant[l].campaignId && a.unitAmount == b.unitAmount
      && (BeforeTheEnd(run, m.count, id) && BeforeTheEnd(run, n.count, id) ==>
            && a.recipientCount == b.recipientCount
            && Money.ToMinor(a.subtotalAmount, Money.SAR) == Money.ToMinor(b.subtotalAmount, Money.SAR))
  {
    hide Protocol.Run;
    hide Numbering.Run;
    hide Issuing.Run;
    hide Read;
    hide ApprovedWith;
    hide ApprovedAt;
    var a, b := Numbering.Run(qift).invoices[i], Issuing.Run(merchant).invoices[j];
    k := Numbering.InvoicesBillTheirCampaign(qift, i);
    l := Issuing.InvoicesBillTheirCampaign(merchant, j);
    var m, n := qiftMoments[k], merchantMoments[l];
    assert QiftRead(run, qift[k], m) && MerchantRead(run, merchant[l], n);
    var id, p, q := a.campaignId, qift[k].facts, merchant[l].facts;
    ReadingApproved(run, id, p.price, p.recipients, m);
    ReadingApproved(run, id, q.price, q.recipients, n);
    CountInRange(run, m, n, qift[k], merchant[l]);
    var r: set<nat> :| ApprovedWith(run, id, p.price.value, r) && CountsFor(run, id, r, p.recipients, m);
    var t: set<nat> :| ApprovedWith(run, id, q.price.value, t) && CountsFor(run, id, t, q.recipients, n);
    ApprovedWithIsOne(run, id, p.price.value, r, q.price.value, t);
  }

  lemma CountInRange(run: seq<Protocol.Event>, m: Moments, n: Moments, e: Numbering.Event, f: Issuing.Event)
    requires e.Begin? && f.Begin? && QiftRead(run, e, m) && MerchantRead(run, f, n)
    ensures m.count <= |run| && n.count <= |run|
  {
  }

  // The campaign is approved or dispatching.
  predicate BeforeTheEnd(run: seq<Protocol.Event>, at: nat, id: nat)
    requires at <= |run|
  {
    && CampaignAt(run, at, id).Some?
    && CampaignAt(run, at, id).value.status in {Campaigns.Approved, Campaigns.CampaignStatus.Dispatching}
  }
}
