// Finding and repairing documents without a ledger posting
// (src/financial/ledger-reconciliation.service.ts). Between any two database
// calls of a sweep, other producers may write to the ledger: `others(t)` is what
// they write before the sweep's call number t. The documents stand still.

module Reconciliation {
  import opened Wrappers
  import opened Seqs
  import opened Text
  import opened FinancialLedger
  import opened LedgerMetadata
  import opened OrderLedger
  import Money

  datatype InvoiceKind = Corporate | Merchant

  datatype Invoice = Invoice(
    id: Id, campaignId: string, orgId: string, storeId: string, status: string,
    totalAmount: int, currency: string, recipientCount: int)

  datatype Books = Books(corporate: seq<Invoice>, merchant: seq<Invoice>, orders: seq<Order>)

  function InvoicesOf(books: Books, kind: InvoiceKind): seq<Invoice> {
    if kind.Corporate? then books.corporate else books.merchant
  }

  function EventOf(kind: InvoiceKind): FinancialEvent {
    if kind.Corporate? then CorporateInvoiceIssued else MerchantInvoiceIssued
  }

  function ReasonOf(kind: InvoiceKind): string {
    if kind.Corporate? then "CORPORATE_RECEIVABLE" else "MERCHANT_GOODS_INVOICED"
  }

  function InvoiceKey(kind: InvoiceKind, id: string): string {
    LedgerIdempotencyKey(EventOf(kind), id)
  }

  function OrderKey(id: string): string {
    LedgerIdempotencyKey(OrderPaid, id)
  }

  // ── What is missing ───────────────────────────────────────────────

  // By its own key, or by a row of an older era for the same campaign.
  predicate Posted(kind: InvoiceKind, ledger: Ledger, inv: Invoice) {
    exists i :: 0 <= i < |ledger| && ledger[i].reasonCode == ReasonOf(kind)
      && (ledger[i].idempotencyKey == Some(InvoiceKey(kind, inv.id)) || ledger[i].campaignId == Some(inv.campaignId))
  }

  predicate OrderPosted(ledger: Ledger, order: Order) {
    exists i :: 0 <= i < |ledger| && ledger[i].reasonCode == "ORDER_PAID" && ledger[i].orderId == Some(order.id)
  }

  predicate InvoiceMissing(kind: InvoiceKind, ledger: Ledger, inv: Invoice) {
    inv.status == "issued" && !Posted(kind, ledger, inv)
  }

  predicate OrderMissing(ledger: Ledger, order: Order) {
    order.status == "paid" && !OrderPosted(ledger, order)
  }

  function MissingInvoices(kind: InvoiceKind, ledger: Ledger, invoices: seq<Invoice>): (missing: seq<Invoice>)
    ensures forall inv :: inv in missing <==> inv in invoices && InvoiceMissing(kind, ledger, inv)
    ensures missing == [] <==> forall inv :: inv in invoices ==> !InvoiceMissing(kind, ledger, inv)
  {
    if invoices == [] then []
    else
      var n := |invoices| - 1;
      assert invoices == invoices[..n] + [invoices[n]];
      MissingInvoices(kind, ledger, invoices[..n])
        + if InvoiceMissing(kind, ledger, invoices[n]) then [invoices[n]] else []
  }

  function MissingOrders(ledger: Ledger, orders: seq<Order>): (missing: seq<Order>)
    ensures forall o :: o in missing <==> o in orders && OrderMissing(ledger, o)
    ensures missing == [] <==> forall o :: o in orders ==> !OrderMissing(ledger, o)
  {
    if orders == [] then []
    else
      var n := |orders| - 1;
      assert orders == orders[..n] + [orders[n]];
      MissingOrders(ledger, orders[..n]) + if OrderMissing(ledger, orders[n]) then [orders[n]] else []
  }

  predicate NothingMissing(ledger: Ledger, books: Books) {
    && MissingInvoices(Corporate, ledger, books.corporate) == []
    && MissingInvoices(Merchant, ledger, books.merchant) == []
    && MissingOrders(ledger, books.orders) == []
  }

  // An issued invoice is missing exactly if no row for such an invoice carries its
  // key or its campaign.
  lemma InvoiceMissesExactlyWhen(kind: InvoiceKind, ledger: Ledger, inv: Invoice)
    ensures
      var reason := if kind.Corporate? then "CORPORATE_RECEIVABLE" else "MERCHANT_GOODS_INVOICED";
      var event := if kind.Corporate? then "corporate.invoice.issued" else "merchant.invoice.issued";
      InvoiceMissing(kind, ledger, inv) <==>
        inv.status == "issued" && forall row :: row in ledger && row.reasonCode == reason ==>
          row.idempotencyKey != Some(event + ":" + inv.id) && row.campaignId != Some(inv.campaignId)
  {
    if !Posted(kind, ledger, inv) {
      forall row | row in ledger && row.reasonCode == ReasonOf(kind)
        ensures row.idempotencyKey != Some(InvoiceKey(kind, inv.id)) && row.campaignId != Some(inv.campaignId)
      {
        var i :| 0 <= i < |ledger| && ledger[i] == row;
      }
    }
  }

  // A paid order is missing exactly if the ledger has no payment of it.
  lemma OrderMissesExactlyWhen(ledger: Ledger, order: Order)
    ensures OrderMissing(ledger, order) <==>
      && order.status == "paid"
      && forall row :: row in ledger && row.orderId == Some(order.id) ==> row.reasonCode != "ORDER_PAID"
  {
    if !OrderPosted(ledger, order) {
      forall row | row in ledger && row.orderId == Some(order.id) ensures row.reasonCode != "ORDER_PAID" {
        var i :| 0 <= i < |ledger| && ledger[i] == row;
      }
    }
  }

  // ── What a repair posts ───────────────────────────────────────────

  function PostingOf(kind: InvoiceKind, inv: Invoice): RecordInput {
    RecordInput(
      EventName(EventOf(kind)), ReasonOf(kind), "system", None,
      Finite(Money.FromMinor(inv.totalAmount, Money.SAR)), inv.currency, "credit", Some("company"),
      None, None, Some(inv.campaignId), Some(inv.orgId), if kind.Merchant? then Some(inv.storeId) else None,
      Some(Obj(
        [Field("invoiceId", Str(inv.id)), Field("recipientCount", Number(inv.recipientCount as real))]
        + (if kind.Merchant? then [Field("passThrough", Bool(true))] else [])
        + [Field("repairedBackfill", Bool(true))])),
      Some(InvoiceKey(kind, inv.id)))
  }

  // The entry's own metadata with the backfill marker added.
  function Backfill(order: Order, entry: RecordInput): (r: RecordInput)
    ensures r.idempotencyKey == entry.idempotencyKey && r.reasonCode == entry.reasonCode
    ensures r.orderId == entry.orderId && r.amount == entry.amount && r.currency == entry.currency
    ensures r.eventType == entry.eventType && r.actorType == entry.actorType && r.direction == entry.direction
  {
    entry.(metadata := Some(Obj(OrderMetadata(order).fields + [Field("repairedBackfill", Bool(true))])))
  }

  function RepairLeg(order: Order, event: LegEvent): RecordInput {
    Backfill(order, LegOf(order, event))
  }

  function InvoicePostings(kind: InvoiceKind, invoices: seq<Invoice>): (ps: seq<RecordInput>)
    ensures |ps| == |invoices| && forall i :: 0 <= i < |ps| ==> ps[i] == PostingOf(kind, invoices[i])
  {
    seq(|invoices|, i requires 0 <= i < |invoices| => PostingOf(kind, invoices[i]))
  }

  function Backfills(order: Order, entries: seq<RecordInput>): (ps: seq<RecordInput>)
    ensures |ps| == |entries| && forall i :: 0 <= i < |ps| ==> ps[i] == Backfill(order, entries[i])
  {
    seq(|entries|, i requires 0 <= i < |entries| => Backfill(order, entries[i]))
  }

  function LegRepairs(order: Order): (ps: seq<RecordInput>)
    ensures |ps| == |EventsOf(order)| && forall i :: 0 <= i < |ps| ==> ps[i] == RepairLeg(order, EventsOf(order)[i])
  {
    Backfills(order, LegsFor(order, EventsOf(order)))
  }

  function OrderRepairs(orders: seq<Order>): seq<RecordInput> {
    if orders == [] then []
    else OrderRepairs(orders[..|orders| - 1]) + LegRepairs(orders[|orders| - 1])
  }

  // The row a repair posts for an invoice: its document, its parties, its total to
  // the halala, on the credit side, marked as repaired.
  lemma PostingNamesItsInvoice(kind: InvoiceKind, inv: Invoice)
    ensures
      var e := EntryOf(PostingOf(kind, inv));
      && e.amount == inv.totalAmount && e.currency == Upper(Trim(inv.currency)) && e.direction == "credit"
      && e.counterpartyType == Some("company") && e.orderId.None? && e.paymentId.None?
      && e.campaignId == Some(inv.campaignId) && e.orgId == Some(inv.orgId)
      && e.storeId == (if kind.Merchant? then Some(inv.storeId) else None)
      && PostingOf(kind, inv).metadata.Some? && Repaired(PostingOf(kind, inv).metadata.value)
  {
    hide Trim;
    hide StripSensitive;
    Money.MinorRoundTrip(inv.totalAmount, Money.SAR);
    var fields := PostingOf(kind, inv).metadata.value.fields;
    assert fields[|fields| - 1] == Field("repairedBackfill", Bool(true));
  }

  // The row a repair posts for a leg of an order is the leg's own, marked as
  // repaired.
  lemma RepairedLegNamesItsOrder(order: Order, event: LegEvent)
    ensures
      var e, leg := EntryOf(RepairLeg(order, event)), EntryOf(LegOf(order, event));
      && e == leg.(metadata := e.metadata) && e.orderId == Some(order.id)
      && e.paymentId == order.paymentId && e.storeId == order.storeId && e.currency == Upper(Trim(order.currency))
      && e.actorId == (if event.OrderPaid? then Some(order.userId) else None)
      && RepairLeg(order, event).metadata.Some? && Repaired(RepairLeg(order, event).metadata.value)
  {
    hide Trim;
    hide StripSensitive;
    var fields := RepairLeg(order, event).metadata.value.fields;
    assert fields[|fields| - 1] == Field("repairedBackfill", Bool(true));
  }

  predicate Repaired(metadata: Json) {
    metadata.Obj? && Field("repairedBackfill", Bool(true)) in metadata.fields
  }

  // ── The sweep ─────────────────────────────────────────────────────

  // Where a sweep stands: the ledger, its next call, what it counted, and the
  // error that ended it, if one did.
  datatype Sweep = Sweep(ledger: Ledger, tick: nat, posted: nat, alreadyPresent: nat, error: Option<string>)

  function AfterOthers(s: Sweep, others: nat -> seq<RecordInput>): Sweep {
    s.(ledger := RecordAll(s.ledger, others(s.tick)), tick := s.tick + 1)
  }

  // Look the key up; if it is missing, record.
  function EnsureOne(s: Sweep, input: RecordInput, others: nat -> seq<RecordInput>): Sweep
    requires input.idempotencyKey.Some?
  {
    if s.error.Some? then s
    else
      var read := AfterOthers(s, others);
      if FindByKey(read.ledger, input.idempotencyKey.value).Some? then
        read.(alreadyPresent := read.alreadyPresent + 1)
      else
        var write := AfterOthers(read, others);
        var recorded := RecordOf(write.ledger, input);
        if recorded.reply.Success? then write.(ledger := recorded.ledger, posted := write.posted + 1)
        else write.(ledger := recorded.ledger, error := Some(recorded.reply.error))
  }

  predicate AllKeyed(inputs: seq<RecordInput>) {
    forall i :: 0 <= i < |inputs| ==> inputs[i].idempotencyKey.Some?
  }

  function EnsureAll(s: Sweep, inputs: seq<RecordInput>, others: nat -> seq<RecordInput>): Sweep
    requires AllKeyed(inputs)
  {
    if inputs == [] then s
    else EnsureOne(EnsureAll(s, inputs[..|inputs| - 1], others), inputs[|inputs| - 1], others)
  }

  datatype Scan = Scan(s: Sweep, corporate: seq<Invoice>, merchant: seq<Invoice>, orders: seq<Order>)

  // The three scans, each against the ledger of its own moment.
  function ScanOf(ledger: Ledger, books: Books, others: nat -> seq<RecordInput>): Scan {
    var s0 := AfterOthers(Sweep(ledger, 0, 0, 0, None), others);
    var s1 := AfterOthers(s0, others);
    var s2 := AfterOthers(s1, others);
    Scan(s2,
         MissingInvoices(Corporate, s0.ledger, books.corporate),
         MissingInvoices(Merchant, s1.ledger, books.merchant),
         MissingOrders(s2.ledger, books.orders))
  }

  lemma {:induction false} OrderRepairsAreKeyed(orders: seq<Order>)
    ensures AllKeyed(OrderRepairs(orders))
  {
    if orders != [] {
      OrderRepairsAreKeyed(orders[..|orders| - 1]);
    }
  }

  function Repairs(scan: Scan): (inputs: seq<RecordInput>)
    ensures AllKeyed(inputs)
  {
    OrderRepairsAreKeyed(scan.orders);
    InvoicePostings(Corporate, scan.corporate) + InvoicePostings(Merchant, scan.merchant) + OrderRepairs(scan.orders)
  }

  function RepairAllOf(ledger: Ledger, books: Books, others: nat -> seq<RecordInput>): Sweep {
    var scan := ScanOf(ledger, books, others);
    EnsureAll(scan.s, Repairs(scan), others)
  }

  // ── The service ───────────────────────────────────────────────────

  function FindInvoice(invoices: seq<Invoice>, id: Id): Option<Invoice> {
    if invoices == [] then None
    else if invoices[0].id == id then Some(invoices[0])
    else FindInvoice(invoices[1..], id)
  }

  function FindOrder(orders: seq<Order>, id: Id): Option<Order> {
    if orders == [] then None
    else if orders[0].id == id then Some(orders[0])
    else FindOrder(orders[1..], id)
  }

  // Ids are primary keys.
  predicate DistinctIds(books: Books) {
    && (forall i, j :: 0 <= i < j < |books.corporate| ==> books.corporate[i].id != books.corporate[j].id)
    && (forall i, j :: 0 <= i < j < |books.merchant| ==> books.merchant[i].id != books.merchant[j].id)
    && (forall i, j :: 0 <= i < j < |books.orders| ==> books.orders[i].id != books.orders[j].id)
  }

  lemma {:induction false} InvoiceIsFound(invoices: seq<Invoice>, inv: Invoice)
    requires inv in invoices && forall i, j :: 0 <= i < j < |invoices| ==> invoices[i].id != invoices[j].id
    ensures FindInvoice(invoices, inv.id) == Some(inv)
  {
    if invoices[0] != inv {
      var k :| 0 < k < |invoices| && invoices[k] == inv;
      assert invoices[1..][k - 1] == inv;
      InvoiceIsFound(invoices[1..], inv);
    }
  }

  lemma {:induction false} OrderIsFound(orders: seq<Order>, order: Order)
    requires order in orders && forall i, j :: 0 <= i < j < |orders| ==> orders[i].id != orders[j].id
    ensures FindOrder(orders, order.id) == Some(order)
  {
    if orders[0] != order {
      var k :| 0 < k < |orders| && orders[k] == order;
      assert orders[1..][k - 1] == order;
      OrderIsFound(orders[1..], order);
    }
  }

  // Writes go through the one write path, which FinancialLedgerService.Record
  // implements; `run` is the ledger together with what the sweep has counted.
  class LedgerReconciliationService {
    const books: Books
    const others: nat -> seq<RecordInput>
    var run: Sweep

    constructor (ledger: Ledger, books: Books, others: nat -> seq<RecordInput>)
      ensures this.books == books && this.others == others
      ensures run == Sweep(ledger, 0, 0, 0, None)
    {
      this.books, this.others := books, others;
      run := Sweep(ledger, 0, 0, 0, None);
    }

    // Look a posting up by its key and record it if it is not there.
    method Ensure(input: RecordInput)
      requires input.idempotencyKey.Some? && run.error.None?
      modifies this
      ensures run == EnsureOne(old(run), input, others)
    {
      run := AfterOthers(run, others);
      var existing := FindByKey(run.ledger, input.idempotencyKey.value);
      if existing.Some? {
        run := run.(alreadyPresent := run.alreadyPresent + 1);
      } else {
        run := AfterOthers(run, others);
        var recorded := RecordOf(run.ledger, input);
        run := run.(ledger := recorded.ledger);
        if recorded.reply.Success? {
          run := run.(posted := run.posted + 1);
        } else {
          run := run.(error := Some(recorded.reply.error));
        }
      }
    }

    // Both repairInvoice methods, for an id that may name no invoice.
    method RepairInvoice(kind: InvoiceKind, id: Id)
      requires run.error.None?
      modifies this
      ensures
        var row := FindInvoice(InvoicesOf(books, kind), id);
        run == if row.Some? then EnsureOne(old(run), PostingOf(kind, row.value), others)
                   else old(run).(error := Some("invoice_not_found"))
    {
      var row := FindInvoice(InvoicesOf(books, kind), id);
      if row.None? {
        run := run.(error := Some("invoice_not_found"));
      } else {
        Ensure(PostingOf(kind, row.value));
      }
    }

    method RepairOrder(id: Id)
      requires run.error.None?
      modifies this
      ensures
        var row := FindOrder(books.orders, id);
        run ==
          if row.None? then old(run).(error := Some("order_not_found"))
          else if row.value.status != "paid" then old(run)
          else EnsureAll(old(run), LegRepairs(row.value), others)
    {
      var row := FindOrder(books.orders, id);
      if row.None? {
        run := run.(error := Some("order_not_found"));
      } else if row.value.status == "paid" {
        var entries := BuildOrderLedgerEntries(row.value);
        RepairLegs(row.value, entries);
      }
    }

    method RepairLegs(order: Order, entries: seq<RecordInput>)
      requires AllKeyed(entries)
      modifies this
      ensures AllKeyed(Backfills(order, entries)) && run == EnsureAll(old(run), Backfills(order, entries), others)
    {
      hide EnsureOne;
      hide Backfill;
      ghost var inputs := Backfills(order, entries);
      for i := 0 to |entries|
        invariant AllKeyed(inputs[..i])
        invariant run == EnsureAll(old(run), inputs[..i], others)
      {
        assert inputs[..i + 1][..i] == inputs[..i];
        if run.error.None? {
          Ensure(Backfill(order, entries[i]));
        } else {
          OneStuckAtError(run, inputs[i], others);
        }
      }
      assert inputs[..|entries|] == inputs;
    }

    method FindMissing() returns (corporate: seq<Invoice>, merchant: seq<Invoice>, orders: seq<Order>)
      requires run.(ledger := []) == Sweep([], 0, 0, 0, None)
      modifies this
      ensures Scan(run, corporate, merchant, orders) == ScanOf(old(run.ledger), books, others)
    {
      run := AfterOthers(run, others);
      corporate := MissingInvoices(Corporate, run.ledger, books.corporate);
      run := AfterOthers(run, others);
      merchant := MissingInvoices(Merchant, run.ledger, books.merchant);
      run := AfterOthers(run, others);
      orders := MissingOrders(run.ledger, books.orders);
    }

    method RepairAll()
      requires DistinctIds(books)
      requires run.(ledger := []) == Sweep([], 0, 0, 0, None)
      modifies this
      ensures run == RepairAllOf(old(run.ledger), books, others)
    {
      var corporate, merchant, orders := FindMissing();
      ghost var start := run;
      RepairInvoices(Corporate, corporate);
      RepairInvoices(Merchant, merchant);
      OrderRepairsAreKeyed(orders);
      RepairOrders(orders);
      EnsureConcat(start, InvoicePostings(Corporate, corporate), InvoicePostings(Merchant, merchant), others);
      EnsureConcat(start, InvoicePostings(Corporate, corporate) + InvoicePostings(Merchant, merchant),
                   OrderRepairs(orders), others);
    }

    method RepairOrders(orders: seq<Order>)
      requires DistinctIds(books) && AllKeyed(OrderRepairs(orders))
      requires forall o :: o in orders ==> o in books.orders && o.status == "paid"
      modifies this
      ensures run == EnsureAll(old(run), OrderRepairs(orders), others)
    {
      hide EnsureOne;
      hide EnsureAll;
      hide OrderRepairs;
      hide LegRepairs;
      NoOrdersNoRepairs(run, others);
      for i := 0 to |orders|
        invariant AllKeyed(OrderRepairs(orders[..i]))
        invariant run == EnsureAll(old(run), OrderRepairs(orders[..i]), others)
      {
        OrderIsFound(books.orders, orders[i]);
        OneOrderMore(orders, i);
        EnsureConcat(old(run), OrderRepairs(orders[..i]), LegRepairs(orders[i]), others);
        if run.error.None? {
          RepairOrder(orders[i].id);
        } else {
          StuckAtError(run, LegRepairs(orders[i]), others);
        }
      }
      assert orders[..|orders|] == orders;
    }

    method RepairInvoices(kind: InvoiceKind, invoices: seq<Invoice>)
      requires DistinctIds(books)
      requires forall inv :: inv in invoices ==> inv in InvoicesOf(books, kind)
      modifies this
      ensures run == EnsureAll(old(run), InvoicePostings(kind, invoices), others)
    {
      hide EnsureOne;
      ghost var postings := InvoicePostings(kind, invoices);
      for i := 0 to |invoices|
        invariant run == EnsureAll(old(run), postings[..i], others)
      {
        assert postings[..i + 1][..i] == postings[..i];
        if run.error.None? {
          InvoiceIsFound(InvoicesOf(books, kind), invoices[i]);
          RepairInvoice(kind, invoices[i].id);
        } else {
          OneStuckAtError(run, postings[i], others);
        }
      }
      assert postings[..|invoices|] == postings;
    }
  }

  lemma NoOrdersNoRepairs(s: Sweep, others: nat -> seq<RecordInput>)
    ensures OrderRepairs([]) == [] && EnsureAll(s, [], others) == s
  {
  }

  lemma OneOrderMore(orders: seq<Order>, i: nat)
    requires i < |orders|
    ensures OrderRepairs(orders[..i + 1]) == OrderRepairs(orders[..i]) + LegRepairs(orders[i])
    ensures AllKeyed(OrderRepairs(orders[..i + 1])) && AllKeyed(LegRepairs(orders[i]))
  {
    hide LegRepairs;
    assert orders[..i + 1][..i] == orders[..i];
    OrderRepairsAreKeyed(orders[..i + 1]);
    LegRepairsAreKeyed(orders[i]);
  }

  lemma LegRepairsAreKeyed(order: Order)
    ensures AllKeyed(LegRepairs(order))
  {
    hide EventsOf;
  }

  lemma OneStuckAtError(s: Sweep, input: RecordInput, others: nat -> seq<RecordInput>)
    requires input.idempotencyKey.Some? && s.error.Some?
    ensures EnsureOne(s, input, others) == s
  {
  }

  // Nothing runs after the error that ended a sweep.
  lemma {:induction false} StuckAtError(s: Sweep, inputs: seq<RecordInput>, others: nat -> seq<RecordInput>)
    requires AllKeyed(inputs) && s.error.Some?
    ensures EnsureAll(s, inputs, others) == s
  {
    if inputs != [] {
      StuckAtError(s, inputs[..|inputs| - 1], others);
    }
  }

  lemma {:induction false} EnsureConcat(
    s: Sweep, a: seq<RecordInput>, b: seq<RecordInput>, others: nat -> seq<RecordInput>)
    requires AllKeyed(a) && AllKeyed(b)
    ensures EnsureAll(s, a + b, others) == EnsureAll(EnsureAll(s, a, others), b, others)
  {
    if b == [] {
      EmptyRight(a);
    } else {
      var n := |b| - 1;
      assert (a + b)[..|a + b| - 1] == a + b[..n];
      assert (a + b)[|a + b| - 1] == b[n];
      EnsureConcat(s, a, b[..n], others);
    }
  }
}
