// What the repair sweep guarantees, whoever else writes meanwhile.

module Convergence {
  import opened Wrappers
  import opened Text
  import opened FinancialLedger
  import opened OrderLedger
  import opened Reconciliation

  // ── Rows filed under their event ──────────────────────────────────

  // A row holding the key of an invoice or of an order's payment carries that
  // event's reason and, for an order, its id. Every producer in the repository
  // writes such rows.
  ghost predicate Filed(e: Entry) {
    && (forall kind, id: string :: e.idempotencyKey == Some(InvoiceKey(kind, id)) ==> e.reasonCode == ReasonOf(kind))
    && (forall id: string :: e.idempotencyKey == Some(OrderKey(id)) ==>
          e.reasonCode == "ORDER_PAID" && e.orderId == Some(id))
  }

  ghost predicate AllFiled(ledger: Ledger) {
    forall i :: 0 <= i < |ledger| ==> Filed(ledger[i])
  }

  ghost predicate FilesItself(input: RecordInput) {
    Filed(EntryOf(input))
  }

  ghost predicate OthersFile(others: nat -> seq<RecordInput>) {
    forall t: nat, i :: 0 <= i < |others(t)| ==> FilesItself(others(t)[i])
  }

  ghost predicate Sane(ledger: Ledger) {
    Unique(ledger) && AllFiled(ledger)
  }

  lemma RecordKeepsSane(ledger: Ledger, input: RecordInput)
    requires Sane(ledger) && FilesItself(input)
    ensures Sane(RecordOf(ledger, input).ledger)
    ensures ledger <= RecordOf(ledger, input).ledger
  {
    hide EntryOf;
    hide Refusal;
    if Refusal(input).None? {
      CommitKeepsUnique(ledger, EntryOf(input));
    }
  }

  lemma {:induction false} RecordAllKeepsSane(ledger: Ledger, inputs: seq<RecordInput>)
    requires Sane(ledger) && forall i :: 0 <= i < |inputs| ==> FilesItself(inputs[i])
    ensures Sane(RecordAll(ledger, inputs))
    ensures ledger <= RecordAll(ledger, inputs)
  {
    hide RecordOf;
    hide FilesItself;
    if inputs != [] {
      var n := |inputs| - 1;
      RecordAllKeepsSane(ledger, inputs[..n]);
      RecordKeepsSane(RecordAll(ledger, inputs[..n]), inputs[n]);
    }
  }

  // ── What the postings look like as rows ───────────────────────────

  lemma InvoiceRow(kind: InvoiceKind, inv: Invoice)
    ensures
      var e := EntryOf(PostingOf(kind, inv));
      && KeyOf(PostingOf(kind, inv)) == Some(InvoiceKey(kind, inv.id)) == e.idempotencyKey
      && e.reasonCode == ReasonOf(kind) && e.orderId == None && e.campaignId == Some(inv.campaignId)
  {
    KeysAreStoredAsIs(EventOf(kind), inv.id);
    Visible(ReasonOf(kind));
  }

  lemma LegRow(order: Order, event: LegEvent)
    ensures
      var e := EntryOf(RepairLeg(order, event));
      && KeyOf(RepairLeg(order, event)) == Some(LedgerIdempotencyKey(event, order.id)) == e.idempotencyKey
      && e.reasonCode == LegReason(event) && e.orderId == Some(order.id)
  {
    KeysAreStoredAsIs(event, order.id);
    Visible(LegReason(event));
  }

  lemma InvoicePostingFilesItself(kind: InvoiceKind, inv: Invoice)
    ensures FilesItself(PostingOf(kind, inv))
  {
    hide EntryOf;
    InvoiceRow(kind, inv);
    forall k: InvoiceKind, id: string
      ensures InvoiceKey(k, id) == InvoiceKey(kind, inv.id) ==> k == kind
    {
      KeysNameTheirPosting(EventOf(k), id, EventOf(kind), inv.id);
    }
    forall id: string ensures OrderKey(id) != InvoiceKey(kind, inv.id) {
      KeysNameTheirPosting(OrderPaid, id, EventOf(kind), inv.id);
    }
  }

  lemma LegFilesItself(order: Order, event: LegEvent)
    ensures FilesItself(RepairLeg(order, event))
  {
    hide EntryOf;
    LegRow(order, event);
    var key := LedgerIdempotencyKey(event, order.id);
    forall k: InvoiceKind, id: string ensures InvoiceKey(k, id) != key {
      KeysNameTheirPosting(EventOf(k), id, event, order.id);
    }
    forall id: string ensures OrderKey(id) == key ==> event == OrderPaid && id == order.id {
      KeysNameTheirPosting(OrderPaid, id, event, order.id);
    }
  }

  // ── One repair, and a list of them ────────────────────────────────

  // The key the sweep looks up is the key the ledger stores.
  predicate StableKey(input: RecordInput) {
    input.idempotencyKey.Some? && KeyOf(input) == input.idempotencyKey
  }

  predicate Held(ledger: Ledger, input: RecordInput) {
    input.idempotencyKey.Some? && FindByKey(ledger, input.idempotencyKey.value).Some?
  }

  lemma HeldStays(ledger: Ledger, later: Ledger, input: RecordInput)
    requires ledger <= later && Held(ledger, input)
    ensures Held(later, input)
  {
    FoundStaysFound(ledger, later, input.idempotencyKey.value);
  }

  lemma OneRepair(s: Sweep, input: RecordInput, others: nat -> seq<RecordInput>)
    requires Sane(s.ledger) && OthersFile(others) && FilesItself(input) && StableKey(input)
    ensures
      var after := EnsureOne(s, input, others);
      && Sane(after.ledger) && s.ledger <= after.ledger
      && (after.error.None? ==> s.error.None? && Held(after.ledger, input))
  {
    hide RecordOf;
    hide Sane;
    hide FilesItself;
    if s.error.None? {
      RecordAllKeepsSane(s.ledger, others(s.tick));
      var read := AfterOthers(s, others);
      if FindByKey(read.ledger, input.idempotencyKey.value).None? {
        RecordAllKeepsSane(read.ledger, others(read.tick));
        var write := AfterOthers(read, others);
        RecordKeepsSane(write.ledger, input);
        if RecordOf(write.ledger, input).reply.Success? {
          FoundAfterRecord(write.ledger, input);
        }
      }
    }
  }

  ghost predicate Orderly(inputs: seq<RecordInput>) {
    forall i :: 0 <= i < |inputs| ==> StableKey(inputs[i]) && FilesItself(inputs[i])
  }

  lemma {:induction false} ManyRepairs(s: Sweep, inputs: seq<RecordInput>, others: nat -> seq<RecordInput>)
    requires Sane(s.ledger) && OthersFile(others) && Orderly(inputs)
    ensures
      var after := EnsureAll(s, inputs, others);
      && Sane(after.ledger) && s.ledger <= after.ledger
      && (after.error.None? ==> s.error.None? && forall i :: 0 <= i < |inputs| ==> Held(after.ledger, inputs[i]))
  {
    hide EnsureOne;
    hide Sane;
    hide FilesItself;
    hide KeyOf;
    if inputs != [] {
      var n := |inputs| - 1;
      ManyRepairs(s, inputs[..n], others);
      var before := EnsureAll(s, inputs[..n], others);
      OneRepair(before, inputs[n], others);
      var after := EnsureOne(before, inputs[n], others);
      if after.error.None? {
        forall i | 0 <= i < n ensures Held(after.ledger, inputs[i]) {
          assert Held(before.ledger, inputs[..n][i]);
          HeldStays(before.ledger, after.ledger, inputs[i]);
        }
      }
    }
  }

  // ── A completed sweep leaves nothing missing ──────────────────────

  lemma PostedStays(kind: InvoiceKind, ledger: Ledger, later: Ledger, inv: Invoice)
    requires ledger <= later && Posted(kind, ledger, inv)
    ensures Posted(kind, later, inv)
  {
    var i :| 0 <= i < |ledger| && ledger[i].reasonCode == ReasonOf(kind)
      && (ledger[i].idempotencyKey == Some(InvoiceKey(kind, inv.id)) || ledger[i].campaignId == Some(inv.campaignId));
    assert later[i] == ledger[i];
  }

  lemma OrderPostedStays(ledger: Ledger, later: Ledger, order: Order)
    requires ledger <= later && OrderPosted(ledger, order)
    ensures OrderPosted(later, order)
  {
    var i :| 0 <= i < |ledger| && ledger[i].reasonCode == "ORDER_PAID" && ledger[i].orderId == Some(order.id);
    assert later[i] == ledger[i];
  }

  lemma HeldInvoiceIsPosted(kind: InvoiceKind, ledger: Ledger, inv: Invoice)
    requires AllFiled(ledger) && Held(ledger, PostingOf(kind, inv))
    ensures Posted(kind, ledger, inv)
  {
    var key := InvoiceKey(kind, inv.id);
    var i :| 0 <= i < |ledger| && ledger[i].idempotencyKey == Some(key);
    assert Filed(ledger[i]);
  }

  lemma HeldOrderIsPosted(ledger: Ledger, order: Order)
    requires AllFiled(ledger) && Held(ledger, RepairLeg(order, OrderPaid))
    ensures OrderPosted(ledger, order)
  {
    var key := OrderKey(order.id);
    var i :| 0 <= i < |ledger| && ledger[i].idempotencyKey == Some(key);
    assert Filed(ledger[i]);
  }

  lemma InvoicesAreCleared(kind: InvoiceKind, scanned: Ledger, end: Ledger, invoices: seq<Invoice>)
    requires scanned <= end && AllFiled(end)
    requires forall inv :: inv in MissingInvoices(kind, scanned, invoices) ==> Held(end, PostingOf(kind, inv))
    ensures MissingInvoices(kind, end, invoices) == []
  {
    hide PostingOf;
    hide AllFiled;
    hide Held;
    hide Posted;
    forall inv | inv in invoices && inv.status == "issued" ensures Posted(kind, end, inv) {
      if Posted(kind, scanned, inv) {
        PostedStays(kind, scanned, end, inv);
      } else {
        assert inv in MissingInvoices(kind, scanned, invoices);
        HeldInvoiceIsPosted(kind, end, inv);
      }
    }
  }

  lemma OrdersAreCleared(scanned: Ledger, end: Ledger, orders: seq<Order>)
    requires scanned <= end && AllFiled(end)
    requires forall o :: o in MissingOrders(scanned, orders) ==> Held(end, RepairLeg(o, OrderPaid))
    ensures MissingOrders(end, orders) == []
  {
    hide RepairLeg;
    hide AllFiled;
    hide Held;
    hide OrderPosted;
    forall o | o in orders && o.status == "paid" ensures OrderPosted(end, o) {
      if OrderPosted(scanned, o) {
        OrderPostedStays(scanned, end, o);
      } else {
        assert o in MissingOrders(scanned, orders);
        HeldOrderIsPosted(end, o);
      }
    }
  }

  lemma InvoicePostingsAreOrderly(kind: InvoiceKind, invoices: seq<Invoice>)
    ensures Orderly(InvoicePostings(kind, invoices))
  {
    hide FilesItself;
    hide KeyOf;
    forall i | 0 <= i < |invoices|
      ensures StableKey(PostingOf(kind, invoices[i])) && FilesItself(PostingOf(kind, invoices[i]))
    {
      InvoiceRow(kind, invoices[i]);
      InvoicePostingFilesItself(kind, invoices[i]);
    }
  }

  lemma LegRepairsAreOrderly(order: Order)
    ensures Orderly(LegRepairs(order))
  {
    hide FilesItself;
    hide KeyOf;
    hide EventsOf;
    forall i | 0 <= i < |EventsOf(order)|
      ensures StableKey(RepairLeg(order, EventsOf(order)[i])) && FilesItself(RepairLeg(order, EventsOf(order)[i]))
    {
      LegRow(order, EventsOf(order)[i]);
      LegFilesItself(order, EventsOf(order)[i]);
    }
  }

  lemma OrderlyConcat(a: seq<RecordInput>, b: seq<RecordInput>)
    requires Orderly(a) && Orderly(b)
    ensures Orderly(a + b)
  {
    hide FilesItself;
    hide StableKey;
  }

  lemma {:induction false} OrderRepairsAreOrderly(orders: seq<Order>)
    ensures Orderly(OrderRepairs(orders))
    ensures forall o :: o in orders ==> RepairLeg(o, OrderPaid) in OrderRepairs(orders)
  {
    hide Orderly;
    hide LegRepairs;
    hide RepairLeg;
    if orders == [] {
      NothingToRepair();
    } else {
      var n := |orders| - 1;
      OrderRepairsAreOrderly(orders[..n]);
      LegRepairsAreOrderly(orders[n]);
      OrderlyConcat(OrderRepairs(orders[..n]), LegRepairs(orders[n]));
      assert LegRepairs(orders[n])[0] == RepairLeg(orders[n], OrderPaid) by { HeadLegComesFirst(orders[n]); }
      assert orders == orders[..n] + [orders[n]];
    }
  }

  lemma NothingToRepair()
    ensures Orderly([])
  {
  }

  lemma HeadLegComesFirst(order: Order)
    ensures |LegRepairs(order)| > 0 && LegRepairs(order)[0] == RepairLeg(order, OrderPaid)
  {
    hide RepairLeg;
  }

  lemma RepairsAreOrderly(scan: Scan)
    ensures Orderly(Repairs(scan))
    ensures forall inv :: inv in scan.corporate ==> PostingOf(Corporate, inv) in Repairs(scan)
    ensures forall inv :: inv in scan.merchant ==> PostingOf(Merchant, inv) in Repairs(scan)
    ensures forall o :: o in scan.orders ==> RepairLeg(o, OrderPaid) in Repairs(scan)
  {
    hide FilesItself;
    hide StableKey;
    hide PostingOf;
    InvoicePostingsAreOrderly(Corporate, scan.corporate);
    InvoicePostingsAreOrderly(Merchant, scan.merchant);
    OrderRepairsAreOrderly(scan.orders);
    PostingsCover(Corporate, scan.corporate);
    PostingsCover(Merchant, scan.merchant);
  }

  lemma PostingsCover(kind: InvoiceKind, invoices: seq<Invoice>)
    ensures forall inv :: inv in invoices ==> PostingOf(kind, inv) in InvoicePostings(kind, invoices)
  {
    hide PostingOf;
    forall inv | inv in invoices ensures PostingOf(kind, inv) in InvoicePostings(kind, invoices) {
      var i :| 0 <= i < |invoices| && invoices[i] == inv;
      assert InvoicePostings(kind, invoices)[i] == PostingOf(kind, inv);
    }
  }

  lemma ScansAreSane(ledger: Ledger, books: Books, others: nat -> seq<RecordInput>)
    requires Sane(ledger) && OthersFile(others)
    ensures
      var s0 := AfterOthers(Sweep(ledger, 0, 0, 0, None), others);
      var s1 := AfterOthers(s0, others);
      var s2 := AfterOthers(s1, others);
      ledger <= s0.ledger <= s1.ledger <= s2.ledger && Sane(s2.ledger)
  {
    hide Sane;
    hide FilesItself;
    hide RecordAll;
    var s0 := AfterOthers(Sweep(ledger, 0, 0, 0, None), others);
    var s1 := AfterOthers(s0, others);
    RecordAllKeepsSane(ledger, others(0));
    RecordAllKeepsSane(s0.ledger, others(1));
    RecordAllKeepsSane(s1.ledger, others(2));
  }

  // Whoever writes to the ledger during a sweep: rows are only ever added, no
  // (event, document) pair gets a second row, and a sweep that runs to its end
  // leaves nothing missing.
  lemma RepairConverges(ledger: Ledger, books: Books, others: nat -> seq<RecordInput>)
    requires Sane(ledger) && OthersFile(others)
    ensures
      var end := RepairAllOf(ledger, books, others);
      && ledger <= end.ledger && Sane(end.ledger)
      && (end.error.None? ==> NothingMissing(end.ledger, books))
  {
    hide Sane;
    hide Orderly;
    hide PostingOf;
    hide RepairLeg;
    hide Held;
    var scan := ScanOf(ledger, books, others);
    ScansAreSane(ledger, books, others);
    RepairsAreOrderly(scan);
    ManyRepairs(scan.s, Repairs(scan), others);
    var end := EnsureAll(scan.s, Repairs(scan), others);
    if end.error.None? {
      AllCleared(ledger, books, others, end.ledger);
    }
  }

  lemma AllCleared(ledger: Ledger, books: Books, others: nat -> seq<RecordInput>, end: Ledger)
    requires Sane(ledger) && OthersFile(others) && Sane(end)
    requires var scan := ScanOf(ledger, books, others);
      scan.s.ledger <= end && forall i :: 0 <= i < |Repairs(scan)| ==> Held(end, Repairs(scan)[i])
    ensures NothingMissing(end, books)
  {
    hide PostingOf;
    hide RepairLeg;
    hide Held;
    hide Filed;
    hide OthersFile;
    hide Unique;
    var scan := ScanOf(ledger, books, others);
    var inputs := Repairs(scan);
    RepairsAreOrderly(scan);
    ScansAreSane(ledger, books, others);
    var s0 := AfterOthers(Sweep(ledger, 0, 0, 0, None), others);
    var s1 := AfterOthers(s0, others);
    assert forall x :: x in inputs ==> Held(end, x);
    InvoicesAreCleared(Corporate, s0.ledger, end, books.corporate);
    InvoicesAreCleared(Merchant, s1.ledger, end, books.merchant);
    OrdersAreCleared(scan.s.ledger, end, books.orders);
  }
}
