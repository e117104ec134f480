// When a sweep completes, what it counts, and what the one after it does.

module RepairOutcome {
  import opened Wrappers
  import opened Text
  import opened FinancialLedger
  import opened OrderLedger
  import opened Reconciliation
  import opened Convergence
  import Money

  // ── The next run ──────────────────────────────────────────────────

  // Once nothing is missing, a further sweep only watches: it posts nothing and
  // leaves exactly what the other producers write.
  lemma NextRunPostsNothing(ledger: Ledger, books: Books, others: nat -> seq<RecordInput>)
    requires NothingMissing(ledger, books)
    ensures RepairAllOf(ledger, books, others) ==
      Sweep(RecordAll(RecordAll(RecordAll(ledger, others(0)), others(1)), others(2)), 3, 0, 0, None)
  {
    hide RecordAll;
    hide Posted;
    hide OrderPosted;
    var l0 := RecordAll(ledger, others(0));
    var l1 := RecordAll(l0, others(1));
    RecordAllExtends(ledger, others(0));
    RecordAllExtends(l0, others(1));
    RecordAllExtends(l1, others(2));
    StillNoInvoices(Corporate, ledger, l0, books.corporate);
    StillNoInvoices(Merchant, ledger, l1, books.merchant);
    StillNoOrders(ledger, RecordAll(l1, others(2)), books.orders);
    assert Repairs(ScanOf(ledger, books, others)) == [];
  }

  lemma StillNoInvoices(kind: InvoiceKind, ledger: Ledger, later: Ledger, invoices: seq<Invoice>)
    requires ledger <= later && MissingInvoices(kind, ledger, invoices) == []
    ensures MissingInvoices(kind, later, invoices) == []
  {
    hide Posted;
    forall inv | inv in invoices && inv.status == "issued" ensures Posted(kind, later, inv) {
      assert !InvoiceMissing(kind, ledger, inv);
      PostedStays(kind, ledger, later, inv);
    }
  }

  lemma StillNoOrders(ledger: Ledger, later: Ledger, orders: seq<Order>)
    requires ledger <= later && MissingOrders(ledger, orders) == []
    ensures MissingOrders(later, orders) == []
  {
    hide OrderPosted;
    forall o | o in orders && o.status == "paid" ensures OrderPosted(later, o) {
      assert !OrderMissing(ledger, o);
      OrderPostedStays(ledger, later, o);
    }
  }

  // ── What `posted` counts ──────────────────────────────────────────

  // A repair is counted as posted although the row is somebody else's exactly
  // when that producer wrote it between the look-up and the write.
  lemma PostedCountsLostRaces(s: Sweep, input: RecordInput, others: nat -> seq<RecordInput>)
    requires s.error.None? && StableKey(input) && Refusal(input).None?
    ensures
      var read := AfterOthers(s, others);
      var write := AfterOthers(read, others);
      var after := EnsureOne(s, input, others);
      after.posted == s.posted + 1 && after.ledger == write.ledger
      <==> !Held(read.ledger, input) && Held(write.ledger, input)
  {
    hide Refusal;
    hide RecordAll;
    hide LegTaken;
    var read := AfterOthers(s, others);
    var write := AfterOthers(read, others);
    assert KeyHeld(write.ledger, EntryOf(input)) <==> Held(write.ledger, input);
    assert RecordOf(write.ledger, input).reply.Success? && !Held(write.ledger, input) ==>
      |RecordOf(write.ledger, input).ledger| == |write.ledger| + 1;
  }

  // Another producer writes the same posting right before the repair does: the
  // row is that producer's, and the repair counts it as its own.
  function LostRace(input: RecordInput): nat -> seq<RecordInput> {
    t => if t == 1 then [input] else []
  }

  lemma LostRaceIsCounted(kind: InvoiceKind, inv: Invoice)
    requires 0 < inv.totalAmount < 1_000_000_000_000 && !IsBlank(inv.currency)
    ensures
      var input := PostingOf(kind, inv);
      var after := EnsureOne(Sweep([], 0, 0, 0, None), input, LostRace(input));
      after.posted == 1 && after.error.None? && after.ledger == RecordAll([], [input]) == [EntryOf(input)]
  {
    hide PostingOf;
    hide Refusal;
    hide EntryOf;
    hide IsBlank;
    var input, s := PostingOf(kind, inv), Sweep([], 0, 0, 0, None);
    InvoiceRow(kind, inv);
    InvoiceRefusal(kind, inv);
    PostingKey(kind, inv);
    assert RecordAll([], []) == [];
    assert [input][..0] == [];
    assert RecordAll([], [input]) == [EntryOf(input)];
    PostedCountsLostRaces(s, input, LostRace(input));
  }

  lemma PostingKey(kind: InvoiceKind, inv: Invoice)
    ensures PostingOf(kind, inv).idempotencyKey == Some(InvoiceKey(kind, inv.id))
  {
  }

  lemma SomeRaceIsLost()
    ensures
      var input := PostingOf(Corporate, Invoice("inv1", "c1", "o1", "s1", "issued", 11500, "SAR", 1));
      EnsureOne(Sweep([], 0, 0, 0, None), input, LostRace(input)).posted == 1
  {
    LostRaceIsCounted(Corporate, Invoice("inv1", "c1", "o1", "s1", "issued", 11500, "SAR", 1));
  }

  // ── Completion, undisturbed ───────────────────────────────────────

  function Nobody(t: nat): seq<RecordInput> {
    []
  }

  // This posting exists, or can be written.
  predicate Ready(ledger: Ledger, input: RecordInput) {
    Held(ledger, input) || (Refusal(input).None? && !LegTaken(ledger, EntryOf(input)))
  }

  predicate AllReady(ledger: Ledger, inputs: seq<RecordInput>) {
    forall i :: 0 <= i < |inputs| ==> Ready(ledger, inputs[i])
  }

  predicate Apart(a: Entry, b: Entry) {
    !SameKey(a, b) && !SameLeg(a, b)
  }

  ghost predicate AllApart(inputs: seq<RecordInput>) {
    forall i, j :: 0 <= i < j < |inputs| ==> Apart(EntryOf(inputs[i]), EntryOf(inputs[j]))
  }

  ghost predicate AllStable(inputs: seq<RecordInput>) {
    forall i :: 0 <= i < |inputs| ==> StableKey(inputs[i])
  }

  // The rows a list of repairs added are its own, one for each posting counted.
  ghost predicate GrewBy(before: Sweep, after: Sweep, inputs: seq<RecordInput>) {
    && before.ledger <= after.ledger
    && after.posted - before.posted == |after.ledger| - |before.ledger|
    && forall k :: |before.ledger| <= k < |after.ledger| ==>
         exists i :: 0 <= i < |inputs| && after.ledger[k] == EntryOf(inputs[i])
  }

  lemma QuietOne(s: Sweep, input: RecordInput)
    requires s.error.None? && StableKey(input)
    ensures
      var after := EnsureOne(s, input, Nobody);
      && (after.error.None? <==> Ready(s.ledger, input))
      && ((after.ledger == s.ledger && after.posted == s.posted)
          || (after.ledger == s.ledger + [EntryOf(input)] && after.posted == s.posted + 1))
  {
    hide Refusal;
    hide LegTaken;
    assert RecordAll(s.ledger, []) == s.ledger;
    var write := AfterOthers(AfterOthers(s, Nobody), Nobody);
    assert write.ledger == s.ledger;
    assert KeyHeld(s.ledger, EntryOf(input)) <==> Held(s.ledger, input);
  }

  // Rows apart from a posting neither provide it nor stand in its way.
  lemma ReadyUnmoved(ledger: Ledger, later: Ledger, input: RecordInput)
    requires ledger <= later && StableKey(input)
    requires forall k :: |ledger| <= k < |later| ==> Apart(later[k], EntryOf(input))
    ensures Ready(later, input) <==> Ready(ledger, input)
  {
    hide Refusal;
    var e, key := EntryOf(input), input.idempotencyKey.value;
    if Held(ledger, input) {
      HeldStays(ledger, later, input);
    }
    if Held(later, input) {
      var k :| 0 <= k < |later| && later[k].idempotencyKey == Some(key);
      assert SameKey(later[k], e);
      assert ledger[k] == later[k];
    }
    if LegTaken(ledger, e) {
      var k :| 0 <= k < |ledger| && SameLeg(ledger[k], e);
      assert SameLeg(later[k], e);
    }
    if LegTaken(later, e) {
      var k :| 0 <= k < |later| && SameLeg(later[k], e);
      assert ledger[k] == later[k];
    }
  }

  lemma {:induction false} QuietMany(s: Sweep, inputs: seq<RecordInput>)
    requires s.error.None? && AllStable(inputs) && AllApart(inputs) && AllKeyed(inputs)
    ensures
      var after := EnsureAll(s, inputs, Nobody);
      && (after.error.None? <==> AllReady(s.ledger, inputs))
      && GrewBy(s, after, inputs)
  {
    hide EnsureOne;
    hide Ready;
    hide Apart;
    hide StableKey;
    hide GrewBy;
    hide EntryOf;
    if inputs == [] {
      NothingGrew(s);
    } else {
      var n := |inputs| - 1;
      QuietMany(s, inputs[..n]);
      QuietLast(s, EnsureAll(s, inputs[..n], Nobody), inputs);
    }
  }

  lemma QuietLast(s: Sweep, before: Sweep, inputs: seq<RecordInput>)
    requires inputs != [] && AllStable(inputs) && AllApart(inputs)
    requires GrewBy(s, before, inputs[..|inputs| - 1])
    requires before.error.None? <==> AllReady(s.ledger, inputs[..|inputs| - 1])
    ensures
      var after := EnsureOne(before, inputs[|inputs| - 1], Nobody);
      && (after.error.None? <==> AllReady(s.ledger, inputs))
      && GrewBy(s, after, inputs)
  {
    hide EnsureOne;
    hide Ready;
    hide Apart;
    hide StableKey;
    hide GrewBy;
    hide EntryOf;
    var n := |inputs| - 1;
    assert StableKey(inputs[n]);
    StableIsKeyed(inputs[n]);
    ReadyLast(s.ledger, inputs);
    if before.error.None? {
      GrewApart(s, before, inputs);
      ReadyUnmoved(s.ledger, before.ledger, inputs[n]);
      QuietOne(before, inputs[n]);
      GrewOneMore(s, before, EnsureOne(before, inputs[n], Nobody), inputs);
    } else {
      OneStuckAtError(before, inputs[n], Nobody);
      GrewOneMore(s, before, before, inputs);
    }
  }

  lemma ReadyLast(ledger: Ledger, inputs: seq<RecordInput>)
    requires inputs != []
    ensures AllReady(ledger, inputs) <==>
      AllReady(ledger, inputs[..|inputs| - 1]) && Ready(ledger, inputs[|inputs| - 1])
  {
    hide Ready;
    var n := |inputs| - 1;
    if AllReady(ledger, inputs[..n]) {
      assert forall i :: 0 <= i < n ==> inputs[i] == inputs[..n][i];
    }
  }

  lemma StableIsKeyed(input: RecordInput)
    ensures StableKey(input) ==> input.idempotencyKey.Some?
  {
  }

  lemma NothingGrew(s: Sweep)
    ensures GrewBy(s, s, [])
  {
  }

  lemma GrewApart(s: Sweep, before: Sweep, inputs: seq<RecordInput>)
    requires inputs != [] && AllApart(inputs) && GrewBy(s, before, inputs[..|inputs| - 1])
    ensures s.ledger <= before.ledger
    ensures forall k :: |s.ledger| <= k < |before.ledger| ==>
      Apart(before.ledger[k], EntryOf(inputs[|inputs| - 1]))
  {
    hide EntryOf;
    hide Apart;
    var n := |inputs| - 1;
    forall k | |s.ledger| <= k < |before.ledger| ensures Apart(before.ledger[k], EntryOf(inputs[n])) {
      var i :| 0 <= i < n && before.ledger[k] == EntryOf(inputs[..n][i]);
      assert Apart(EntryOf(inputs[i]), EntryOf(inputs[n]));
    }
  }

  lemma GrewOneMore(s: Sweep, before: Sweep, after: Sweep, inputs: seq<RecordInput>)
    requires inputs != [] && GrewBy(s, before, inputs[..|inputs| - 1])
    requires
      || (after.ledger == before.ledger && after.posted == before.posted)
      || (after.ledger == before.ledger + [EntryOf(inputs[|inputs| - 1])] && after.posted == before.posted + 1)
    ensures GrewBy(s, after, inputs)
  {
    hide EntryOf;
    var n := |inputs| - 1;
    forall k | |s.ledger| <= k < |after.ledger|
      ensures exists i :: 0 <= i < |inputs| && after.ledger[k] == EntryOf(inputs[i])
    {
      if k < |before.ledger| {
        var i :| 0 <= i < n && before.ledger[k] == EntryOf(inputs[..n][i]);
        assert after.ledger[k] == EntryOf(inputs[i]);
      } else {
        assert after.ledger[k] == EntryOf(inputs[n]);
      }
    }
  }

  // ── The sweep's postings never stand in each other's way ──────────

  ghost predicate Across(a: seq<RecordInput>, b: seq<RecordInput>) {
    forall i, j :: 0 <= i < |a| && 0 <= j < |b| ==> Apart(EntryOf(a[i]), EntryOf(b[j]))
  }

  lemma ApartConcat(a: seq<RecordInput>, b: seq<RecordInput>)
    requires AllApart(a) && AllApart(b) && Across(a, b)
    ensures AllApart(a + b)
  {
    hide EntryOf;
    hide Apart;
  }

  lemma AcrossConcat(a: seq<RecordInput>, b: seq<RecordInput>, c: seq<RecordInput>)
    requires Across(a, c) && Across(b, c)
    ensures Across(a + b, c)
  {
    hide EntryOf;
    hide Apart;
  }

  lemma InvoicesApart(kind: InvoiceKind, inv: Invoice, kind': InvoiceKind, inv': Invoice)
    requires kind != kind' || inv.id != inv'.id
    ensures Apart(EntryOf(PostingOf(kind, inv)), EntryOf(PostingOf(kind', inv')))
  {
    hide EntryOf;
    hide PostingOf;
    InvoiceRow(kind, inv);
    InvoiceRow(kind', inv');
    KeysNameTheirPosting(EventOf(kind), inv.id, EventOf(kind'), inv'.id);
  }

  lemma InvoiceAndLegApart(kind: InvoiceKind, inv: Invoice, order: Order, event: LegEvent)
    ensures Apart(EntryOf(PostingOf(kind, inv)), EntryOf(RepairLeg(order, event)))
  {
    hide EntryOf;
    hide PostingOf;
    hide RepairLeg;
    InvoiceRow(kind, inv);
    LegRow(order, event);
    KeysNameTheirPosting(EventOf(kind), inv.id, event, order.id);
  }

  lemma LegsApart(order: Order, event: LegEvent, order': Order, event': LegEvent)
    requires order.id != order'.id || event != event'
    ensures Apart(EntryOf(RepairLeg(order, event)), EntryOf(RepairLeg(order', event')))
  {
    hide EntryOf;
    hide RepairLeg;
    LegRow(order, event);
    LegRow(order', event');
    KeysNameTheirPosting(event, order.id, event', order'.id);
    ReasonsDiffer(event, event');
  }

  predicate DistinctInvoices(invoices: seq<Invoice>) {
    forall i, j :: 0 <= i < j < |invoices| ==> invoices[i].id != invoices[j].id
  }

  predicate DistinctOrders(orders: seq<Order>) {
    forall i, j :: 0 <= i < j < |orders| ==> orders[i].id != orders[j].id
  }

  lemma {:induction false} MissingInvoicesAreDistinct(kind: InvoiceKind, ledger: Ledger, invoices: seq<Invoice>)
    requires DistinctInvoices(invoices)
    ensures DistinctInvoices(MissingInvoices(kind, ledger, invoices))
  {
    hide InvoiceMissing;
    if invoices != [] {
      var n := |invoices| - 1;
      MissingInvoicesAreDistinct(kind, ledger, invoices[..n]);
      var some := MissingInvoices(kind, ledger, invoices[..n]);
      forall i | 0 <= i < |some| ensures some[i].id != invoices[n].id {
        assert some[i] in invoices[..n];
      }
    }
  }

  lemma {:induction false} MissingOrdersAreDistinct(ledger: Ledger, orders: seq<Order>)
    requires DistinctOrders(orders)
    ensures DistinctOrders(MissingOrders(ledger, orders))
  {
    hide OrderMissing;
    if orders != [] {
      var n := |orders| - 1;
      MissingOrdersAreDistinct(ledger, orders[..n]);
      var some := MissingOrders(ledger, orders[..n]);
      forall i | 0 <= i < |some| ensures some[i].id != orders[n].id {
        assert some[i] in orders[..n];
      }
    }
  }

  lemma InvoicePostingsApart(kind: InvoiceKind, invoices: seq<Invoice>)
    requires DistinctInvoices(invoices)
    ensures AllApart(InvoicePostings(kind, invoices))
  {
    hide EntryOf;
    hide PostingOf;
    hide Apart;
    forall i, j | 0 <= i < j < |invoices|
      ensures Apart(EntryOf(PostingOf(kind, invoices[i])), EntryOf(PostingOf(kind, invoices[j])))
    {
      InvoicesApart(kind, invoices[i], kind, invoices[j]);
    }
  }

  lemma KindsApart(corporate: seq<Invoice>, merchant: seq<Invoice>)
    ensures Across(InvoicePostings(Corporate, corporate), InvoicePostings(Merchant, merchant))
  {
    hide EntryOf;
    hide PostingOf;
    hide Apart;
    forall i, j | 0 <= i < |corporate| && 0 <= j < |merchant|
      ensures Apart(EntryOf(PostingOf(Corporate, corporate[i])), EntryOf(PostingOf(Merchant, merchant[j])))
    {
      InvoicesApart(Corporate, corporate[i], Merchant, merchant[j]);
    }
  }

  ghost predicate IsLegOfOne(orders: seq<Order>, input: RecordInput) {
    exists o, e: LegEvent :: o in orders && input == RepairLeg(o, e)
  }

  // Every repair of a list of orders is a leg of one of them.
  lemma {:induction false} OrderRepairsAreLegs(orders: seq<Order>)
    ensures forall j :: 0 <= j < |OrderRepairs(orders)| ==> IsLegOfOne(orders, OrderRepairs(orders)[j])
  {
    hide RepairLeg;
    hide EventsOf;
    if orders != [] {
      var n := |orders| - 1;
      OrderRepairsAreLegs(orders[..n]);
      var all, early := OrderRepairs(orders), OrderRepairs(orders[..n]);
      forall j | 0 <= j < |all| ensures IsLegOfOne(orders, all[j]) {
        if j < |early| {
          assert IsLegOfOne(orders[..n], early[j]);
        } else {
          assert all[j] == LegRepairs(orders[n])[j - |early|];
          assert all[j] == RepairLeg(orders[n], EventsOf(orders[n])[j - |early|]);
        }
      }
    }
  }

  lemma InvoicesAndLegsApart(kind: InvoiceKind, invoices: seq<Invoice>, orders: seq<Order>)
    ensures Across(InvoicePostings(kind, invoices), OrderRepairs(orders))
  {
    hide EntryOf;
    hide PostingOf;
    hide RepairLeg;
    hide Apart;
    OrderRepairsAreLegs(orders);
    var legs := OrderRepairs(orders);
    forall i, j | 0 <= i < |invoices| && 0 <= j < |legs|
      ensures Apart(EntryOf(PostingOf(kind, invoices[i])), EntryOf(legs[j]))
    {
      assert IsLegOfOne(orders, legs[j]);
      var o, e: LegEvent :| o in orders && legs[j] == RepairLeg(o, e);
      InvoiceAndLegApart(kind, invoices[i], o, e);
    }
  }

  lemma OneOrdersLegsApart(order: Order)
    ensures AllApart(LegRepairs(order))
  {
    hide EntryOf;
    hide RepairLeg;
    hide Apart;
    hide EventsOf;
    hide LegRepairs;
    var legs := LegRepairs(order);
    forall i, j | 0 <= i < j < |legs| ensures Apart(EntryOf(legs[i]), EntryOf(legs[j])) {
      EventsAreDistinct(order, i, j);
      LegsApart(order, EventsOf(order)[i], order, EventsOf(order)[j]);
    }
  }

  lemma {:induction false} OrderRepairsApart(orders: seq<Order>)
    requires DistinctOrders(orders)
    ensures AllApart(OrderRepairs(orders))
  {
    hide EntryOf;
    hide RepairLeg;
    hide Apart;
    hide EventsOf;
    if orders != [] {
      var n := |orders| - 1;
      OrderRepairsApart(orders[..n]);
      OneOrdersLegsApart(orders[n]);
      EarlierOrdersApart(orders);
      ApartConcat(OrderRepairs(orders[..n]), LegRepairs(orders[n]));
    }
  }

  lemma EarlierOrdersApart(orders: seq<Order>)
    requires orders != [] && DistinctOrders(orders)
    ensures Across(OrderRepairs(orders[..|orders| - 1]), LegRepairs(orders[|orders| - 1]))
  {
    hide EntryOf;
    hide RepairLeg;
    hide Apart;
    hide EventsOf;
    var n := |orders| - 1;
    var early, last := OrderRepairs(orders[..n]), LegRepairs(orders[n]);
    OrderRepairsAreLegs(orders[..n]);
    forall i, j | 0 <= i < |early| && 0 <= j < |last|
      ensures Apart(EntryOf(early[i]), EntryOf(last[j]))
    {
      assert IsLegOfOne(orders[..n], early[i]);
      var o, e: LegEvent :| o in orders[..n] && early[i] == RepairLeg(o, e);
      var k :| 0 <= k < n && orders[..n][k] == o;
      assert orders[k].id != orders[n].id;
      LegsApart(o, e, orders[n], EventsOf(orders[n])[j]);
    }
  }

  lemma RepairsApart(scan: Scan)
    requires DistinctInvoices(scan.corporate) && DistinctInvoices(scan.merchant) && DistinctOrders(scan.orders)
    ensures AllApart(Repairs(scan))
  {
    hide AllApart;
    hide Across;
    var c, m := InvoicePostings(Corporate, scan.corporate), InvoicePostings(Merchant, scan.merchant);
    var o := OrderRepairs(scan.orders);
    InvoicePostingsApart(Corporate, scan.corporate);
    InvoicePostingsApart(Merchant, scan.merchant);
    OrderRepairsApart(scan.orders);
    KindsApart(scan.corporate, scan.merchant);
    InvoicesAndLegsApart(Corporate, scan.corporate, scan.orders);
    InvoicesAndLegsApart(Merchant, scan.merchant, scan.orders);
    ApartConcat(c, m);
    AcrossConcat(c, m, o);
    ApartConcat(c + m, o);
  }

  // An undisturbed sweep runs to its end exactly when each posting it found
  // missing can be written, and it then counts the rows it added.
  lemma QuietRepairCompletesExactlyWhen(ledger: Ledger, books: Books)
    requires DistinctIds(books)
    ensures
      var needed := Repairs(ScanOf(ledger, books, Nobody));
      var end := RepairAllOf(ledger, books, Nobody);
      && (end.error.None? <==> AllReady(ledger, needed))
      && end.posted == |end.ledger| - |ledger|
  {
    hide Ready;
    hide AllApart;
    hide AllReady;
    hide EnsureAll;
    hide Orderly;
    var scan := ScanOf(ledger, books, Nobody);
    NobodyWrites(ledger);
    MissingInvoicesAreDistinct(Corporate, ledger, books.corporate);
    MissingInvoicesAreDistinct(Merchant, ledger, books.merchant);
    MissingOrdersAreDistinct(ledger, books.orders);
    RepairsApart(scan);
    RepairsAreOrderly(scan);
    OrderlyIsStable(Repairs(scan));
    QuietMany(scan.s, Repairs(scan));
  }

  lemma NobodyWrites(ledger: Ledger)
    ensures RecordAll(ledger, []) == ledger
  {
  }

  lemma OrderlyIsStable(inputs: seq<RecordInput>)
    requires Orderly(inputs)
    ensures AllStable(inputs)
  {
    hide FilesItself;
    hide KeyOf;
  }

  // An invoice can be posted if its total is positive and fits, and its currency
  // is not blank.
  lemma InvoiceReadyExactlyWhen(kind: InvoiceKind, ledger: Ledger, inv: Invoice)
    ensures Ready(ledger, PostingOf(kind, inv)) <==>
      Held(ledger, PostingOf(kind, inv))
      || (0 < inv.totalAmount < 1_000_000_000_000 && !IsBlank(inv.currency))
  {
    InvoiceRow(kind, inv);
    InvoiceRefusal(kind, inv);
    hide EntryOf;
    hide PostingOf;
    hide Refusal;
    hide IsBlank;
  }

  lemma InvoiceRefusal(kind: InvoiceKind, inv: Invoice)
    ensures Refusal(PostingOf(kind, inv)).None? <==>
      0 < inv.totalAmount < 1_000_000_000_000 && !IsBlank(inv.currency)
  {
    hide IsBlank;
    hide Refusal;
    hide IsMarker;
    Money.MinorRoundTrip(inv.totalAmount, Money.SAR);
    NotMarker(EventOf(kind), PostingOf(kind, inv));
    Visible(EventName(EventOf(kind)));
    Visible(ReasonOf(kind));
    Visible("system");
    RefusalOfWorded(PostingOf(kind, inv));
  }

  // With its texts in order, a posting is judged on its amount and currency.
  lemma RefusalOfWorded(input: RecordInput)
    requires !IsMarker(input) && input.direction in ["credit", "debit"]
    requires !IsBlank(input.eventType) && !IsBlank(input.reasonCode) && !IsBlank(input.actorType)
    ensures Refusal(input).None? <==>
      ValueOf(input.amount) > 0.0 && Stored(input.amount) < 1_000_000_000_000 && !IsBlank(input.currency)
  {
    hide IsBlank;
    hide IsMarker;
  }

  // A leg can be posted if its amount and currency are in order and no row
  // without its key already claims that order and reason.
  lemma LegReadyExactlyWhen(ledger: Ledger, order: Order, event: LegEvent)
    ensures
      var leg := LegOf(order, event);
      Ready(ledger, RepairLeg(order, event)) <==>
        Held(ledger, RepairLeg(order, event))
        || (&& ValueOf(leg.amount) > 0.0 && Stored(leg.amount) < 1_000_000_000_000 && !IsBlank(order.currency)
            && forall i :: 0 <= i < |ledger| ==>
                 !(ledger[i].orderId == Some(order.id) && ledger[i].reasonCode == LegReason(event)))
  {
    LegRow(order, event);
    LegRefusal(order, event);
    var e := EntryOf(RepairLeg(order, event));
    assert forall i :: 0 <= i < |ledger| ==>
      (SameLeg(ledger[i], e) <==> ledger[i].orderId == Some(order.id) && ledger[i].reasonCode == LegReason(event));
  }

  lemma LegRefusal(order: Order, event: LegEvent)
    ensures
      var leg := LegOf(order, event);
      Refusal(RepairLeg(order, event)).None? <==>
        ValueOf(leg.amount) > 0.0 && Stored(leg.amount) < 1_000_000_000_000 && !IsBlank(order.currency)
  {
    hide IsBlank;
    hide Refusal;
    hide IsMarker;
    hide Backfill;
    hide LegOf;
    LegIsWorded(order, event);
    NotMarker(event, RepairLeg(order, event));
    RefusalOfWorded(RepairLeg(order, event));
  }

  lemma LegIsWorded(order: Order, event: LegEvent)
    ensures
      var leg := LegOf(order, event);
      && leg.eventType == EventName(event) && leg.currency == order.currency && leg.direction in ["credit", "debit"]
      && !IsBlank(leg.eventType) && !IsBlank(leg.reasonCode) && !IsBlank(leg.actorType)
  {
    hide IsBlank;
    Visible(EventName(event));
    Visible(LegReason(event));
    Visible(LegOf(order, event).actorType);
  }

  lemma NotMarker(event: FinancialEvent, input: RecordInput)
    requires input.eventType == EventName(event)
    requires !event.SettlementStarted? && !event.SettlementCompleted? && !event.SettlementSuperseded?
    ensures !IsMarker(input)
  {
    assert EventName(event)[0] != 's';
  }

  // ── Whose posting it is ───────────────────────────────────────────

  predicate CampaignAnswered(kind: InvoiceKind, ledger: Ledger, inv: Invoice) {
    exists i :: 0 <= i < |ledger| && ledger[i].reasonCode == ReasonOf(kind) && ledger[i].campaignId == Some(inv.campaignId)
  }

  // After a completed sweep an issued invoice has a row under its own key,
  // unless a row for its campaign stood in for it when it was scanned.
  lemma CompletedRunPostsEveryInvoice(
    ledger: Ledger, books: Books, others: nat -> seq<RecordInput>, kind: InvoiceKind, inv: Invoice)
    requires Sane(ledger) && OthersFile(others)
    requires inv in InvoicesOf(books, kind) && inv.status == "issued"
    requires RepairAllOf(ledger, books, others).error.None?
    ensures
      var end := RepairAllOf(ledger, books, others).ledger;
      Held(end, PostingOf(kind, inv)) || CampaignAnswered(kind, end, inv)
  {
    hide Orderly;
    hide PostingOf;
    hide RepairLeg;
    hide Sane;
    hide CampaignAnswered;
    var scan := ScanOf(ledger, books, others);
    ScansAreSane(ledger, books, others);
    RepairsAreOrderly(scan);
    ManyRepairs(scan.s, Repairs(scan), others);
    var end := EnsureAll(scan.s, Repairs(scan), others);
    var s0 := AfterOthers(Sweep(ledger, 0, 0, 0, None), others);
    var seen := if kind.Corporate? then s0.ledger else AfterOthers(s0, others).ledger;
    if InvoiceMissing(kind, seen, inv) {
      assert inv in MissingInvoices(kind, seen, InvoicesOf(books, kind));
      assert PostingOf(kind, inv) in Repairs(scan);
    } else {
      SeenIsHeldOrAnswered(kind, seen, end.ledger, inv);
    }
  }

  lemma SeenIsHeldOrAnswered(kind: InvoiceKind, seen: Ledger, end: Ledger, inv: Invoice)
    requires seen <= end && Posted(kind, seen, inv)
    ensures Held(end, PostingOf(kind, inv)) || CampaignAnswered(kind, end, inv)
  {
    var i :| 0 <= i < |seen| && seen[i].reasonCode == ReasonOf(kind)
      && (seen[i].idempotencyKey == Some(InvoiceKey(kind, inv.id)) || seen[i].campaignId == Some(inv.campaignId));
    assert end[i] == seen[i];
  }
}
