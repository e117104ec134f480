// The append-only ledger: its event vocabulary and deterministic keys
// (src/financial/financial-events.ts) and its one write path, record
// (src/financial/financial-ledger.service.ts).

module FinancialLedger {
  import opened Wrappers
  import opened Text
  import opened LedgerMetadata
  import Money

  // The events that the code modelled here posts or singles out.
  datatype FinancialEvent =
    | OrderPaid | QiftServiceFeeAccrued | MerchantPayableAccrued | DeliveryFeeAccrued
    | CorporateInvoiceIssued | MerchantInvoiceIssued
    | SettlementStarted | SettlementCompleted | SettlementSuperseded

  function EventName(e: FinancialEvent): string {
    match e
    case OrderPaid => "order.paid"
    case QiftServiceFeeAccrued => "qift.service_fee.accrued"
    case MerchantPayableAccrued => "merchant.payable.accrued"
    case DeliveryFeeAccrued => "delivery.fee.accrued"
    case CorporateInvoiceIssued => "corporate.invoice.issued"
    case MerchantInvoiceIssued => "merchant.invoice.issued"
    case SettlementStarted => "settlement.started"
    case SettlementCompleted => "settlement.completed"
    case SettlementSuperseded => "settlement.superseded"
  }

  // Row ids are generated tokens: never empty and never ending in white space.
  type Id = s: string | s != "" && !IsWhitespace(s[|s| - 1]) witness "a"

  function LedgerIdempotencyKey(event: FinancialEvent, anchorId: string): string {
    EventName(event) + ":" + anchorId
  }

  // A number as the caller may pass one.
  datatype JsNumber = Finite(value: real) | NegativeZero | NotFinite

  datatype RecordInput = RecordInput(
    eventType: string, reasonCode: string, actorType: string, actorId: Option<string>,
    amount: JsNumber, currency: string, direction: string, counterpartyType: Option<string>,
    orderId: Option<string>, paymentId: Option<string>, campaignId: Option<string>,
    orgId: Option<string>, storeId: Option<string>,
    metadata: Option<Json>, idempotencyKey: Option<string>)

  // A row. The amount column holds two decimals, so the row holds halalas.
  datatype Entry = Entry(
    eventType: string, reasonCode: string, actorType: string, actorId: Option<string>,
    amount: int, currency: string, direction: string, counterpartyType: Option<string>,
    orderId: Option<string>, paymentId: Option<string>, campaignId: Option<string>,
    orgId: Option<string>, storeId: Option<string>,
    metadata: Option<Json>, idempotencyKey: Option<string>)

  type Ledger = seq<Entry>

  predicate IsMarker(input: RecordInput) {
    && input.eventType in [EventName(SettlementStarted), EventName(SettlementCompleted), EventName(SettlementSuperseded)]
    && input.amount == Finite(0.0)
  }

  function KeyOf(input: RecordInput): Option<string> {
    if input.idempotencyKey.Some? && !IsBlank(input.idempotencyKey.value)
    then Some(Trim(input.idempotencyKey.value)) else None
  }

  function ValueOf(n: JsNumber): real {
    if n.Finite? then n.value else 0.0
  }

  // What the two-decimal column makes of an amount.
  function Stored(amount: JsNumber): int {
    Money.ToMinor(ValueOf(amount), Money.SAR)
  }

  function Refusal(input: RecordInput): Option<string> {
    if IsMarker(input) && KeyOf(input).None? then
      Some("settlement lifecycle markers require a deterministic idempotencyKey")
    else if !IsMarker(input) && ValueOf(input.amount) <= 0.0 then
      Some("ledger amount must be a positive, finite number")
    else if IsBlank(input.currency) then Some("ledger currency is required")
    else if input.direction != "credit" && input.direction != "debit" then
      Some("ledger direction must be 'credit' or 'debit'")
    else if IsBlank(input.eventType) || IsBlank(input.reasonCode) || IsBlank(input.actorType) then
      Some("ledger eventType, reasonCode and actorType are required")
    else if Stored(input.amount) >= 1_000_000_000_000 then Some("numeric field overflow")
    else None
  }

  function EntryOf(input: RecordInput): Entry {
    Entry(
      Trim(input.eventType), Trim(input.reasonCode), Trim(input.actorType), input.actorId,
      Stored(input.amount), Upper(Trim(input.currency)), input.direction, input.counterpartyType,
      input.orderId, input.paymentId, input.campaignId, input.orgId, input.storeId,
      if input.metadata.None? then None else Some(StripSensitive(input.metadata.value)),
      KeyOf(input))
  }

  // ── The two unique indexes ────────────────────────────────────────

  predicate SameKey(a: Entry, b: Entry) {
    a.idempotencyKey.Some? && a.idempotencyKey == b.idempotencyKey
  }

  predicate SameLeg(a: Entry, b: Entry) {
    a.orderId.Some? && a.orderId == b.orderId && a.reasonCode == b.reasonCode
  }

  predicate LegTaken(ledger: Ledger, e: Entry) {
    exists i :: 0 <= i < |ledger| && SameLeg(ledger[i], e)
  }

  ghost predicate Unique(ledger: Ledger) {
    forall i, j :: 0 <= i < j < |ledger| ==> !SameKey(ledger[i], ledger[j]) && !SameLeg(ledger[i], ledger[j])
  }

  function FindByKey(ledger: Ledger, key: string): (r: Option<Entry>)
    ensures r.Some? <==> exists i :: 0 <= i < |ledger| && ledger[i].idempotencyKey == Some(key)
    ensures r.Some? ==> r.value in ledger && r.value.idempotencyKey == Some(key)
  {
    if ledger == [] then None
    else if ledger[0].idempotencyKey == Some(key) then Some(ledger[0])
    else
      var rest := FindByKey(ledger[1..], key);
      assert forall i :: 0 < i < |ledger| ==> ledger[i] == ledger[1..][i - 1];
      rest
  }

  predicate KeyHeld(ledger: Ledger, e: Entry) {
    e.idempotencyKey.Some? && FindByKey(ledger, e.idempotencyKey.value).Some?
  }

  // ── record ────────────────────────────────────────────────────────

  datatype Recorded = Recorded(ledger: Ledger, reply: Result<Entry>)

  // The insert, with the unique-violation recovery.
  function Commit(ledger: Ledger, e: Entry): Recorded {
    if KeyHeld(ledger, e) then Recorded(ledger, Success(FindByKey(ledger, e.idempotencyKey.value).value))
    else if LegTaken(ledger, e) then Recorded(ledger, Failure("P2002"))
    else Recorded(ledger + [e], Success(e))
  }

  function RecordOf(ledger: Ledger, input: RecordInput): Recorded {
    if Refusal(input).Some? then Recorded(ledger, Failure(Refusal(input).value))
    else Commit(ledger, EntryOf(input))
  }

  // Any sequence of writes, whoever makes them.
  function RecordAll(ledger: Ledger, inputs: seq<RecordInput>): Ledger {
    if inputs == [] then ledger
    else RecordOf(RecordAll(ledger, inputs[..|inputs| - 1]), inputs[|inputs| - 1]).ledger
  }

  class FinancialLedgerService {
    var ledger: Ledger

    constructor ()
      ensures ledger == []
    {
      ledger := [];
    }

    // create, under the table's two unique indexes.
    method Create(e: Entry) returns (created: bool)
      modifies this
      ensures created == (!KeyHeld(old(ledger), e) && !LegTaken(old(ledger), e))
      ensures ledger == if created then old(ledger) + [e] else old(ledger)
    {
      created := !KeyHeld(ledger, e) && !LegTaken(ledger, e);
      if created {
        ledger := ledger + [e];
      }
    }

    method Record(input: RecordInput) returns (reply: Result<Entry>)
      modifies this
      ensures Recorded(ledger, reply) == RecordOf(old(ledger), input)
    {
      var refusal := Refusal(input);
      if refusal.Some? {
        return Failure(refusal.value);
      }
      var e := EntryOf(input);
      var created := Create(e);
      if created {
        return Success(e);
      }
      if e.idempotencyKey.Some? {
        var existing := FindByKey(ledger, e.idempotencyKey.value);
        if existing.Some? {
          return Success(existing.value);
        }
      }
      reply := Failure("P2002");
    }
  }

  // ── Keys ──────────────────────────────────────────────────────────

  predicate NoColonBefore(s: string, k: int) {
    forall i :: 0 <= i < |s| && i < k ==> s[i] != ':'
  }

  lemma EventNamesAreColonFree(e: FinancialEvent)
    ensures NoColonBefore(EventName(e), |EventName(e)|)
  {
    match e
    case OrderPaid => assert NoColonBefore("order.paid", 10);
    case QiftServiceFeeAccrued => assert NoColonBefore("qift.service_fee.accrued", 24);
    case MerchantPayableAccrued => assert NoColonBefore("merchant.payable.accrued", 24);
    case DeliveryFeeAccrued => assert NoColonBefore("delivery.fee.accrued", 20);
    case CorporateInvoiceIssued => assert NoColonBefore("corporate.invoice.issued", 24);
    case MerchantInvoiceIssued => assert NoColonBefore("merchant.invoice.issued", 23);
    case SettlementStarted => assert NoColonBefore("settlement.started", 18);
    case SettlementCompleted => assert NoColonBefore("settlement.completed", 20);
    case SettlementSuperseded => assert NoColonBefore("settlement.superseded", 21);
  }

  // The first colon separates, whatever the anchor contains.
  lemma ColonSeparates(a: string, x: string, b: string, y: string)
    requires NoColonBefore(a, |a|) && NoColonBefore(b, |b|)
    requires a + ":" + x == b + ":" + y
    ensures a == b && x == y
  {
    var s, t := a + ":" + x, b + ":" + y;
    assert s[|a|] == ':' && NoColonBefore(s, |a|) && t[|b|] == ':' && NoColonBefore(t, |b|);
    assert a == s[..|a|] && b == t[..|b|] && x == s[|a| + 1..] && y == t[|b| + 1..];
  }

  lemma EventNamesDiffer(e: FinancialEvent, f: FinancialEvent)
    requires EventName(e) == EventName(f)
    ensures e == f
  {
    // Where two names have the same length they differ at the first letter or in the middle.
    var s, t := EventName(e), EventName(f);
    assert |s| == |t| && s[0] == t[0] && s[|s| - 10] == t[|t| - 10] && s[|s| - 1] == t[|t| - 1];
  }

  // Two postings share a key only if they are about the same event of the same
  // document.
  lemma KeysNameTheirPosting(e: FinancialEvent, x: string, f: FinancialEvent, y: string)
    ensures LedgerIdempotencyKey(e, x) == LedgerIdempotencyKey(f, y) <==> e == f && x == y
  {
    if LedgerIdempotencyKey(e, x) == LedgerIdempotencyKey(f, y) {
      EventNamesAreColonFree(e);
      EventNamesAreColonFree(f);
      ColonSeparates(EventName(e), x, EventName(f), y);
      EventNamesDiffer(e, f);
    }
  }

  // The key a service looks up is the key the ledger stores.
  lemma KeysAreStoredAsIs(e: FinancialEvent, id: Id)
    ensures Trim(LedgerIdempotencyKey(e, id)) == LedgerIdempotencyKey(e, id) != ""
  {
    var key := LedgerIdempotencyKey(e, id);
    assert key[0] == EventName(e)[0] && key[|key| - 1] == id[|id| - 1];
  }

  // ── Amounts ───────────────────────────────────────────────────────

  // A row that is not a lifecycle marker carries a positive amount exactly when
  // the caller passed at least half a halala: a smaller one passes the guard
  // and is stored as nothing.
  lemma StoredAmountIsPositiveExactlyWhen(input: RecordInput)
    requires Refusal(input).None? && !IsMarker(input)
    ensures EntryOf(input).amount >= 0
    ensures EntryOf(input).amount > 0 <==> ValueOf(input.amount) >= 0.005
  {
    Money.RoundingIsHalfUp(ValueOf(input.amount), EntryOf(input).amount, Money.SAR);
  }

  // A tenth of a halala is accepted and stored as nothing.
  const TINY := RecordInput(
    "order.paid", "ORDER_PAID", "system", None, Finite(0.001), "SAR", "credit", None,
    None, None, None, None, None, None, None)

  lemma TinyIsAccepted()
    ensures Refusal(TINY).None? && !IsMarker(TINY) && EntryOf(TINY).orderId.None? && EntryOf(TINY).idempotencyKey.None?
  {
    hide IsBlank;
    hide Trim;
    hide Upper;
    Visible("SAR");
    Visible("order.paid");
    Visible("ORDER_PAID");
    Visible("system");
    TinyRoundsToNothing();
  }

  lemma TinyRoundsToNothing()
    ensures Stored(TINY.amount) == 0 && !(ValueOf(TINY.amount) <= 0.0)
  {
    assert 0.001 * 100.0 == 0.1;
    Money.RoundingIsHalfUp(0.001, 0, Money.SAR);
  }

  lemma TinyAmountIsStoredAsNothing(ledger: Ledger)
    ensures
      var recorded := RecordOf(ledger, TINY);
      recorded.reply.Success? && recorded.reply.value.amount == 0 && recorded.ledger == ledger + [recorded.reply.value]
  {
    hide Refusal;
    hide IsMarker;
    TinyIsAccepted();
    StoredAmountIsPositiveExactlyWhen(TINY);
  }

  // Only a keyed marker may be recorded at nothing, and negative zero never is.
  lemma ZeroIsForMarkers(input: RecordInput)
    requires Refusal(input).None? && ValueOf(input.amount) == 0.0
    ensures input.amount == Finite(0.0) && IsMarker(input) && EntryOf(input).idempotencyKey.Some?
  {
  }

  // ── What is recorded at all ───────────────────────────────────────

  // The start, the end and the replacement of a settlement, at nothing.
  predicate IsSettlementMark(input: RecordInput) {
    && input.amount == Finite(0.0)
    && input.eventType in {"settlement.started", "settlement.completed", "settlement.superseded"}
  }

  // A write is valid exactly if it moves a positive amount below ten thousand
  // million, or marks a settlement under a key, and says in which currency, to
  // which side, for what event and reason, and who acts.
  lemma ValidExactlyWhen(input: RecordInput)
    ensures
      Refusal(input).None? <==>
        && (if IsSettlementMark(input) then Shows(input.idempotencyKey)
            else input.amount.Finite? && input.amount.value > 0.0)
        && ValueOf(input.amount) * 100.0 < 999_999_999_999.5
        && Trim(input.currency) != "" && input.direction in {"credit", "debit"}
        && Trim(input.eventType) != "" && Trim(input.reasonCode) != "" && Trim(input.actorType) != ""
  {
    hide Trim;
    MarkerNames(input.eventType);
    Money.RoundingIsHalfUp(ValueOf(input.amount), Stored(input.amount), Money.SAR);
  }

  lemma MarkerNames(s: string)
    ensures
      s in [EventName(SettlementStarted), EventName(SettlementCompleted), EventName(SettlementSuperseded)] <==>
      s in {"settlement.started", "settlement.completed", "settlement.superseded"}
  {
  }

  // ── Columns ───────────────────────────────────────────────────────

  // The row carries what its caller passed, column by column: texts trimmed, the
  // currency in capitals, the amount to the nearest halala.
  predicate CarriesInput(row: Entry, input: RecordInput) {
    && row.eventType == Trim(input.eventType) && row.reasonCode == Trim(input.reasonCode)
    && row.actorType == Trim(input.actorType) && row.actorId == input.actorId
    && row.amount as real - 0.5 <= ValueOf(input.amount) * 100.0 < row.amount as real + 0.5
    && row.currency == Upper(Trim(input.currency))
    && row.direction == input.direction && row.counterpartyType == input.counterpartyType
    && row.orderId == input.orderId && row.paymentId == input.paymentId && row.campaignId == input.campaignId
    && row.orgId == input.orgId && row.storeId == input.storeId
    && (row.metadata.Some? <==> input.metadata.Some?)
    && Keeps(input.idempotencyKey, row.idempotencyKey)
  }

  lemma EntryCarriesInput(input: RecordInput)
    ensures CarriesInput(EntryOf(input), input)
  {
    hide StripSensitive;
    Money.RoundingIsHalfUp(ValueOf(input.amount), EntryOf(input).amount, Money.SAR);
  }

  // Whatever a write adds to the ledger is one row that carries its input, on the
  // credit or the debit side as asked.
  lemma WritesCarryTheirInput(ledger: Ledger, input: RecordInput)
    requires RecordOf(ledger, input).ledger != ledger
    ensures
      var after := RecordOf(ledger, input).ledger;
      && |after| == |ledger| + 1 && after[..|ledger|] == ledger
      && CarriesInput(after[|ledger|], input) && after[|ledger|].direction in {"credit", "debit"}
  {
    hide EntryOf;
    hide CarriesInput;
    EntryCarriesInput(input);
    DirectionIsKept(input);
    assert RecordOf(ledger, input).ledger == ledger + [EntryOf(input)];
  }

  lemma DirectionIsKept(input: RecordInput)
    ensures EntryOf(input).direction == input.direction
  {
  }

  // ── Histories ─────────────────────────────────────────────────────

  ghost predicate AllClean(ledger: Ledger) {
    forall i :: 0 <= i < |ledger| && ledger[i].metadata.Some? ==> IsClean(ledger[i].metadata.value)
  }

  lemma CommitKeepsUnique(ledger: Ledger, e: Entry)
    requires Unique(ledger)
    ensures Unique(Commit(ledger, e).ledger)
    ensures ledger <= Commit(ledger, e).ledger
  {
    if !KeyHeld(ledger, e) && !LegTaken(ledger, e) {
      assert forall i :: 0 <= i < |ledger| ==> !SameKey(ledger[i], e) && !SameLeg(ledger[i], e);
    }
  }

  lemma RecordKeeps(ledger: Ledger, input: RecordInput)
    requires Unique(ledger) && AllClean(ledger)
    ensures Unique(RecordOf(ledger, input).ledger) && AllClean(RecordOf(ledger, input).ledger)
  {
    if Refusal(input).None? {
      CommitKeepsUnique(ledger, EntryOf(input));
      if input.metadata.Some? {
        StrippedIsClean(input.metadata.value);
      }
    }
  }

  lemma RecordExtends(ledger: Ledger, input: RecordInput)
    ensures ledger <= RecordOf(ledger, input).ledger
  {
  }

  // Whatever is recorded, in whatever order and however often: earlier rows
  // stay as they are, no two rows share a key or an (order, reason) leg, and no
  // row carries a sensitive key at any depth.
  lemma {:induction false} HistoryOnlyGrows(ledger: Ledger, inputs: seq<RecordInput>)
    requires Unique(ledger) && AllClean(ledger)
    ensures ledger <= RecordAll(ledger, inputs)
    ensures Unique(RecordAll(ledger, inputs)) && AllClean(RecordAll(ledger, inputs))
  {
    if inputs != [] {
      var n := |inputs| - 1;
      HistoryOnlyGrows(ledger, inputs[..n]);
      RecordKeeps(RecordAll(ledger, inputs[..n]), inputs[n]);
      RecordExtends(RecordAll(ledger, inputs[..n]), inputs[n]);
    }
  }

  lemma {:induction false} RecordAllExtends(ledger: Ledger, inputs: seq<RecordInput>)
    ensures ledger <= RecordAll(ledger, inputs)
  {
    if inputs != [] {
      var n := |inputs| - 1;
      RecordAllExtends(ledger, inputs[..n]);
      RecordExtends(RecordAll(ledger, inputs[..n]), inputs[n]);
    }
  }

  lemma FoundStaysFound(ledger: Ledger, later: Ledger, key: string)
    requires ledger <= later && FindByKey(ledger, key).Some?
    ensures FindByKey(later, key) == FindByKey(ledger, key)
  {
    if ledger[0].idempotencyKey != Some(key) {
      assert ledger[1..] <= later[1..];
      FoundStaysFound(ledger[1..], later[1..], key);
    }
  }

  // A keyed posting that succeeded once is settled for good: after any writes by
  // anyone, repeating it, with whatever content, answers the first row and
  // writes nothing.
  lemma RetriesReturnTheFirstRow(
    ledger: Ledger, input: RecordInput, others: seq<RecordInput>, retry: RecordInput)
    requires RecordOf(ledger, input).reply.Success? && KeyOf(input).Some?
    requires Refusal(retry).None? && KeyOf(retry) == KeyOf(input)
    ensures
      var first := RecordOf(ledger, input);
      var later := RecordAll(first.ledger, others);
      RecordOf(later, retry) == Recorded(later, first.reply)
  {
    var first := RecordOf(ledger, input);
    var key := KeyOf(input).value;
    RecordAllExtends(first.ledger, others);
    FoundAfterRecord(ledger, input);
    FoundStaysFound(first.ledger, RecordAll(first.ledger, others), key);
  }

  lemma FoundAfterRecord(ledger: Ledger, input: RecordInput)
    requires RecordOf(ledger, input).reply.Success? && KeyOf(input).Some?
    ensures FindByKey(RecordOf(ledger, input).ledger, KeyOf(input).value) == Some(RecordOf(ledger, input).reply.value)
  {
    var e := EntryOf(input);
    if !KeyHeld(ledger, e) {
      AppendedIsFound(ledger, e, KeyOf(input).value);
    }
  }

  lemma AppendedIsFound(ledger: Ledger, e: Entry, key: string)
    requires e.idempotencyKey == Some(key) && FindByKey(ledger, key).None?
    ensures FindByKey(ledger + [e], key) == Some(e)
  {
    var all := ledger + [e];
    assert all[|ledger|].idempotencyKey == Some(key);
    assert forall i :: 0 <= i < |ledger| ==> all[i].idempotencyKey != Some(key);
  }

  // A keyed write fails, if it is valid, only on the older (order, reason)
  // constraint; a keyless one on nothing else either.
  lemma RecordSucceedsExactlyWhen(ledger: Ledger, input: RecordInput)
    ensures RecordOf(ledger, input).reply.Success?
       <==> Refusal(input).None? && (KeyHeld(ledger, EntryOf(input)) || !LegTaken(ledger, EntryOf(input)))
    ensures RecordOf(ledger, input).ledger == ledger
         || (RecordOf(ledger, input).ledger == ledger + [EntryOf(input)] && RecordOf(ledger, input).reply.Success?)
  {
  }
}
