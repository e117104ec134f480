// Issuing the merchant's goods invoice under concurrency
// (ensureMerchantInvoiceForCampaign in src/corporate/merchant-invoice.service.ts):
// a look-up by campaign, an insert under the unique (campaign, store) index, and
// a second look-up for whoever loses the race.

module MerchantIssuing {
  import opened Wrappers
  import Billing
  import Money
  import TaxEngine

  // What a caller reads: the campaign, its snapshot, the live product's store as
  // a fallback for the snapshot's, and the store's VAT facts (unregistered and
  // inclusive if the store row is gone).
  datatype Facts = Facts(
    found: bool, status: string, price: Option<real>, snapshotStore: Option<nat>, productStore: Option<nat>,
    recipients: nat, vatRegistered: bool, pricesIncludeVat: bool)

  datatype Invoice = Invoice(
    campaignId: nat, storeId: nat, amounts: Billing.InvoiceAmounts, goodsTax: TaxEngine.GoodsTax)

  datatype Caller =
    | Idle
    | Prepared(invoice: Invoice)
    | LostRace(campaignId: nat)
    | Returned(campaignId: nat, at: nat)
    | Threw(error: string)

  datatype State = State(invoices: seq<Invoice>, callers: map<nat, Caller>)

  datatype Event =
    | Begin(caller: nat, campaignId: nat, facts: Facts)
    | Insert(caller: nat)
    | Refetch(caller: nat)
    | Crash(caller: nat)

  function StoreOf(facts: Facts): Option<nat> {
    if facts.snapshotStore.Some? then facts.snapshotStore else facts.productStore
  }

  function Refusal(facts: Facts): Option<string> {
    if !facts.found then Some("campaign_not_found")
    else if facts.status != "approved" then Some("campaign_not_approved")
    else if facts.price.None? then Some("campaign_no_snapshot")
    else if StoreOf(facts).None? then Some("campaign_no_store")
    else if facts.recipients == 0 then Some("campaign_recipients_required")
    else None
  }

  // The same decomposition as Qift's own invoice; its goods leg is what the
  // merchant's VAT applies to.
  function Draft(campaignId: nat, facts: Facts): Result<Invoice>
    requires Refusal(facts).None?
  {
    var amounts := Billing.ComputeInvoiceAmounts(facts.price.value, facts.recipients);
    var tax :- TaxEngine.ComputeMerchantGoodsTax(
      amounts.subtotalAmount, facts.vatRegistered, facts.pricesIncludeVat, TaxEngine.SAUDI_VAT_RATE);
    Success(Invoice(campaignId, StoreOf(facts).value, amounts, tax))
  }

  function FirstOf(invoices: seq<Invoice>, campaignId: nat): (r: Option<nat>)
    ensures r.Some? <==> exists i :: 0 <= i < |invoices| && invoices[i].campaignId == campaignId
    ensures r.Some? ==> r.value < |invoices| && invoices[r.value].campaignId == campaignId
    ensures r.Some? ==> forall i :: 0 <= i < r.value ==> invoices[i].campaignId != campaignId
  {
    if invoices == [] then None
    else
      var earlier := FirstOf(invoices[..|invoices| - 1], campaignId);
      if earlier.Some? then earlier
      else if invoices[|invoices| - 1].campaignId == campaignId then Some(|invoices| - 1)
      else None
  }

  predicate PairTaken(invoices: seq<Invoice>, campaignId: nat, storeId: nat) {
    exists i :: 0 <= i < |invoices| && invoices[i].campaignId == campaignId && invoices[i].storeId == storeId
  }

  function BeginStep(invoices: seq<Invoice>, campaignId: nat, facts: Facts): Caller {
    var existing := FirstOf(invoices, campaignId);
    if existing.Some? then Returned(campaignId, existing.value)
    else if Refusal(facts).Some? then Threw(Refusal(facts).value)
    else if Draft(campaignId, facts).Failure? then Threw(Draft(campaignId, facts).error)
    else Prepared(Draft(campaignId, facts).value)
  }

  function InsertStep(invoices: seq<Invoice>, c: Caller): (seq<Invoice>, Caller) {
    if !c.Prepared? then (invoices, c)
    else if PairTaken(invoices, c.invoice.campaignId, c.invoice.storeId) then
      (invoices, LostRace(c.invoice.campaignId))
    else (invoices + [c.invoice], Returned(c.invoice.campaignId, |invoices|))
  }

  function RefetchStep(invoices: seq<Invoice>, c: Caller): Caller {
    if !c.LostRace? then c
    else
      var raced := FirstOf(invoices, c.campaignId);
      if raced.Some? then Returned(c.campaignId, raced.value) else Threw("P2002")
  }

  function CallerOf(s: State, c: nat): Caller {
    if c in s.callers then s.callers[c] else Idle
  }

  function Apply(s: State, e: Event): State {
    match e
    case Begin(c, campaignId, facts) => s.(callers := s.callers[c := BeginStep(s.invoices, campaignId, facts)])
    case Insert(c) =>
      var (invoices, after) := InsertStep(s.invoices, CallerOf(s, c));
      State(invoices, s.callers[c := after])
    case Refetch(c) => s.(callers := s.callers[c := RefetchStep(s.invoices, CallerOf(s, c))])
    case Crash(c) => s.(callers := s.callers[c := Idle])
  }

  function Run(events: seq<Event>): State {
    if events == [] then State([], map[]) else Apply(Run(events[..|events| - 1]), events[|events| - 1])
  }

  class MerchantInvoiceIssuer {
    var invoices: seq<Invoice>

    constructor ()
      ensures invoices == []
    {
      invoices := [];
    }

    // One call from start to end, undisturbed.
    method EnsureMerchantInvoiceForCampaign(campaignId: nat, facts: Facts) returns (r: Result<Invoice>)
      modifies this
      ensures
        var (after, ended) := InsertStep(old(invoices), BeginStep(old(invoices), campaignId, facts));
        && invoices == after && (r.Success? <==> ended.Returned?)
        && (r.Success? ==> ended.at < |invoices| && r.value == invoices[ended.at])
        && (r.Failure? ==> ended == Threw(r.error))
    {
      var existing := FirstOf(invoices, campaignId);
      if existing.Some? {
        return Success(invoices[existing.value]);
      }
      var refusal := Refusal(facts);
      if refusal.Some? {
        return Failure(refusal.value);
      }
      var invoice :- Draft(campaignId, facts);
      invoices := invoices + [invoice];
      r := Success(invoice);
    }
  }

  // A call is answered at once exactly if its campaign has a goods invoice, and
  // goes on exactly if it has none, was approved with a price, has a store and
  // recipients, and its goods can be taxed.
  lemma BeginsExactlyWhen(invoices: seq<Invoice>, campaignId: nat, facts: Facts)
    ensures
      var after := BeginStep(invoices, campaignId, facts);
      && (after.Returned? <==> exists i :: 0 <= i < |invoices| && invoices[i].campaignId == campaignId)
      && (after.Prepared? <==>
            && (forall i :: 0 <= i < |invoices| ==> invoices[i].campaignId != campaignId)
            && facts.found && facts.status == "approved" && facts.price.Some? && facts.recipients > 0
            && (facts.snapshotStore.Some? || facts.productStore.Some?)
            && (facts.vatRegistered ==> Money.ToMinor(facts.price.value, Money.SAR) * facts.recipients >= 0))
  {
    hide TaxEngine.SplitCharge;
    hide Billing.ComputeInvoiceAmounts;
    if Refusal(facts).None? {
      Billing.AmountsInMinor(facts.price.value, facts.recipients);
      var goods := Billing.ComputeInvoiceAmounts(facts.price.value, facts.recipients).subtotalAmount;
      TaxableExactlyWhen(goods, facts.vatRegistered, facts.pricesIncludeVat);
    }
  }

  lemma TaxableExactlyWhen(goods: real, registered: bool, inclusive: bool)
    ensures
      TaxEngine.ComputeMerchantGoodsTax(goods, registered, inclusive, TaxEngine.SAUDI_VAT_RATE).Success? <==>
      (registered ==> Money.ToMinor(goods, Money.SAR) >= 0)
  {
    var minor := Money.ToMinor(goods, Money.SAR);
    if registered && minor >= 0 {
      TaxEngine.SplitIs(minor, inclusive, TaxEngine.RateBasisPoints(TaxEngine.SAUDI_VAT_RATE));
    }
  }

  // ── One goods invoice per campaign ────────────────────────────────

  ghost predicate PairsUnique(invoices: seq<Invoice>) {
    forall i, j :: 0 <= i < j < |invoices| ==>
      !(invoices[i].campaignId == invoices[j].campaignId && invoices[i].storeId == invoices[j].storeId)
  }

  // The callers' reads agree on each campaign's store, as they do when it comes
  // from the snapshot frozen at approval.
  predicate ReadsStore(e: Event, storeOf: nat -> nat) {
    e.Begin? && Refusal(e.facts).None? ==> StoreOf(e.facts) == Some(storeOf(e.campaignId))
  }

  ghost predicate AllRead(events: seq<Event>, storeOf: nat -> nat) {
    forall i :: 0 <= i < |events| ==> ReadsStore(events[i], storeOf)
  }

  predicate CallerOk(invoices: seq<Invoice>, c: Caller, storeOf: nat -> nat) {
    match c
    case Prepared(invoice) => invoice.storeId == storeOf(invoice.campaignId)
    case LostRace(campaignId) => FirstOf(invoices, campaignId).Some?
    case Returned(campaignId, at) => at < |invoices| && invoices[at].campaignId == campaignId
    case _ => true
  }

  ghost predicate Sound(s: State, storeOf: nat -> nat) {
    && PairsUnique(s.invoices)
    && (forall i :: 0 <= i < |s.invoices| ==> s.invoices[i].storeId == storeOf(s.invoices[i].campaignId))
    && (forall c :: c in s.callers ==> CallerOk(s.invoices, s.callers[c], storeOf))
  }

  lemma CallerSurvives(invoices: seq<Invoice>, more: Invoice, c: Caller, storeOf: nat -> nat)
    requires CallerOk(invoices, c, storeOf)
    ensures CallerOk(invoices + [more], c, storeOf)
  {
    if c.LostRace? {
      var i :| 0 <= i < |invoices| && invoices[i].campaignId == c.campaignId;
      assert (invoices + [more])[i].campaignId == c.campaignId;
    }
  }

  lemma BeginIsOk(invoices: seq<Invoice>, campaignId: nat, facts: Facts, storeOf: nat -> nat)
    requires Refusal(facts).None? ==> StoreOf(facts) == Some(storeOf(campaignId))
    ensures CallerOk(invoices, BeginStep(invoices, campaignId, facts), storeOf)
  {
    hide Refusal;
    hide StoreOf;
    hide TaxEngine.ComputeMerchantGoodsTax;
    hide Billing.ComputeInvoiceAmounts;
  }

  lemma StepKeepsSound(s: State, e: Event, storeOf: nat -> nat)
    requires Sound(s, storeOf) && ReadsStore(e, storeOf)
    ensures Sound(Apply(s, e), storeOf) && s.invoices <= Apply(s, e).invoices
  {
    hide BeginStep;
    hide Refusal;
    hide StoreOf;
    match e
    case Begin(c, campaignId, facts) => BeginIsOk(s.invoices, campaignId, facts, storeOf);
    case Insert(c) =>
      var caller := CallerOf(s, c);
      if caller.Prepared? && !PairTaken(s.invoices, caller.invoice.campaignId, caller.invoice.storeId) {
        forall k | k in s.callers ensures CallerOk(s.invoices + [caller.invoice], s.callers[k], storeOf) {
          CallerSurvives(s.invoices, caller.invoice, s.callers[k], storeOf);
        }
      }
    case _ =>
  }

  lemma {:induction false} RunsAreSound(events: seq<Event>, storeOf: nat -> nat)
    requires AllRead(events, storeOf)
    ensures Sound(Run(events), storeOf)
  {
    hide Apply;
    hide ReadsStore;
    if events != [] {
      var n := |events| - 1;
      assert forall i :: 0 <= i < n ==> events[..n][i] == events[i];
      RunsAreSound(events[..n], storeOf);
      StepKeepsSound(Run(events[..n]), events[n], storeOf);
    }
  }

  // The index on (campaign, store) makes one goods invoice per campaign because
  // the store is frozen with the snapshot: in every interleaving a campaign has
  // at most one, and whoever asked for it was given that one.
  lemma OneGoodsInvoicePerCampaign(events: seq<Event>, storeOf: nat -> nat, i: nat, j: nat)
    requires AllRead(events, storeOf)
    requires i < |Run(events).invoices| && j < |Run(events).invoices|
    requires Run(events).invoices[i].campaignId == Run(events).invoices[j].campaignId
    ensures i == j
  {
    hide Run;
    RunsAreSound(events, storeOf);
  }

  lemma {:induction false} InvoicesStay(events: seq<Event>, more: seq<Event>, storeOf: nat -> nat)
    requires AllRead(events + more, storeOf)
    ensures Run(events).invoices <= Run(events + more).invoices
  {
    hide Apply;
    hide ReadsStore;
    if more == [] {
      assert events + more == events;
    } else {
      var all, n := events + more, |more| - 1;
      assert all[..|all| - 1] == events + more[..n];
      PrefixReads(all, |all| - 1, storeOf);
      InvoicesStay(events, more[..n], storeOf);
      RunsAreSound(events + more[..n], storeOf);
      StepKeepsSound(Run(events + more[..n]), all[|all| - 1], storeOf);
    }
  }

  lemma PrefixReads(events: seq<Event>, n: nat, storeOf: nat -> nat)
    requires AllRead(events, storeOf) && n <= |events|
    ensures AllRead(events[..n], storeOf)
  {
    hide ReadsStore;
    forall i | 0 <= i < n ensures ReadsStore(events[..n][i], storeOf) {
      assert events[..n][i] == events[i];
    }
  }

  // Whoever is answered for a campaign, then or at any later time, is answered
  // with the same invoice, and it stays as it was.
  lemma CallersShareTheGoodsInvoice(
    events: seq<Event>, more: seq<Event>, storeOf: nat -> nat, c: nat, d: nat)
    requires AllRead(events + more, storeOf)
    requires CallerOf(Run(events), c).Returned? && CallerOf(Run(events + more), d).Returned?
    requires CallerOf(Run(events), c).campaignId == CallerOf(Run(events + more), d).campaignId
    ensures
      var a, b := CallerOf(Run(events), c), CallerOf(Run(events + more), d);
      && a.at == b.at && a.at < |Run(events).invoices| && b.at < |Run(events + more).invoices|
      && Run(events).invoices[a.at] == Run(events + more).invoices[b.at]
  {
    hide Run;
    var all := events + more;
    assert all[..|events|] == events;
    PrefixReads(all, |events|, storeOf);
    RunsAreSound(events, storeOf);
    RunsAreSound(all, storeOf);
    InvoicesStay(events, more, storeOf);
    var a, b := CallerOf(Run(events), c), CallerOf(Run(all), d);
    assert CallerOk(Run(events).invoices, a, storeOf) && CallerOk(Run(all).invoices, b, storeOf);
    OneGoodsInvoicePerCampaign(all, storeOf, a.at, b.at);
  }

  // ── What an invoice bills ─────────────────────────────────────────

  // The invoice is for the campaign and the facts that the call read: the goods
  // of an approved campaign for every one of its recipients, under the store's
  // own VAT facts at 15%.
  predicate BillsFor(invoice: Invoice, e: Event) {
    && e.Begin? && e.campaignId == invoice.campaignId
    && e.facts.found && e.facts.status == "approved" && e.facts.recipients > 0
    && e.facts.price.Some? && Billing.Bills(invoice.amounts, e.facts.price.value, e.facts.recipients)
    && TaxEngine.TaxesGoods(
         invoice.goodsTax, invoice.amounts.subtotalAmount, e.facts.vatRegistered, e.facts.pricesIncludeVat, 0.15, 1500)
    && Some(invoice.storeId) == (if e.facts.snapshotStore.Some? then e.facts.snapshotStore else e.facts.productStore)
  }

  lemma DraftBills(c: nat, campaignId: nat, facts: Facts)
    requires Refusal(facts).None? && Draft(campaignId, facts).Success?
    ensures BillsFor(Draft(campaignId, facts).value, Begin(c, campaignId, facts))
  {
    hide Billing.ComputeInvoiceAmounts;
    hide Billing.Bills;
    hide TaxEngine.ComputeMerchantGoodsTax;
    hide TaxEngine.TaxesGoods;
    Billing.ComputedAmountsBill(facts.price.value, facts.recipients);
    assert TaxEngine.InBasisPoints(TaxEngine.SAUDI_VAT_RATE, 1500);
    TaxEngine.GoodsTaxIs(
      Billing.ComputeInvoiceAmounts(facts.price.value, facts.recipients).subtotalAmount,
      facts.vatRegistered, facts.pricesIncludeVat, TaxEngine.SAUDI_VAT_RATE, 1500);
  }

  lemma StepOfTheDraft(s: State, e: Event, c: nat)
    requires CallerOf(Apply(s, e), c).Prepared?
    ensures
      var before, after := CallerOf(s, c), CallerOf(Apply(s, e), c);
      BillsFor(after.invoice, e) || before == after
  {
    hide Draft;
    hide BillsFor;
    hide Refusal;
    if e.Begin? && Refusal(e.facts).None? && Draft(e.campaignId, e.facts).Success? {
      DraftBills(e.caller, e.campaignId, e.facts);
    }
  }

  lemma StepOfTheRows(s: State, e: Event, i: nat)
    requires i < |Apply(s, e).invoices|
    ensures
      var after := Apply(s, e).invoices[i];
      || (i < |s.invoices| && s.invoices[i] == after)
      || (e.Insert? && CallerOf(s, e.caller) == Prepared(after))
  {
    hide BeginStep;
  }

  lemma {:induction false} DraftsWereRead(events: seq<Event>, c: nat) returns (b: nat)
    requires CallerOf(Run(events), c).Prepared?
    ensures b < |events| && BillsFor(CallerOf(Run(events), c).invoice, events[b])
  {
    hide Apply;
    hide BillsFor;
    if events == [] {
      assert false;
    } else {
      var n := |events| - 1;
      StepOfTheDraft(Run(events[..n]), events[n], c);
      if BillsFor(CallerOf(Run(events), c).invoice, events[n]) {
        b := n;
      } else {
        b := DraftsWereRead(events[..n], c);
      }
    }
  }

  // In every run a goods invoice goes back to a call that read its campaign as
  // approved, and bills what that call read.
  lemma {:induction false} InvoicesBillTheirCampaign(events: seq<Event>, i: nat) returns (b: nat)
    requires i < |Run(events).invoices|
    ensures b < |events| && BillsFor(Run(events).invoices[i], events[b])
  {
    hide Apply;
    hide BillsFor;
    if events == [] {
      assert false;
    } else {
      var n := |events| - 1;
      StepOfTheRows(Run(events[..n]), events[n], i);
      if i < |Run(events[..n]).invoices| && Run(events[..n]).invoices[i] == Run(events).invoices[i] {
        b := InvoicesBillTheirCampaign(events[..n], i);
      } else {
        b := DraftsWereRead(events[..n], events[n].caller);
      }
    }
  }
}
