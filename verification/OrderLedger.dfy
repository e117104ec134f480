// The allocation of a paid order's captured total to its ledger legs
// (src/financial/order-ledger.ts).

module OrderLedger {
  import opened Wrappers
  import opened Money
  import opened FinancialLedger
  import opened LedgerMetadata
  import Billing

  const FEE_POLICY_VERSION := "fee-v1"

  datatype Order = Order(
    id: Id, userId: string, storeId: Option<string>,
    productPrice: real, serviceFee: real, deliveryFee: real, totalAmount: real,
    currency: string, paymentProvider: string, status: string, paymentId: Option<string>)

  predicate StoreLinked(order: Order) {
    order.storeId.Some? && order.storeId.value != ""
  }

  function OrderMetadata(order: Order): Json {
    Obj([Field("feePolicyVersion", Str(FEE_POLICY_VERSION)), Field("paymentProvider", Str(order.paymentProvider))])
  }

  // The four legs of an order, each an event with its own reason code.
  type LegEvent = e: FinancialEvent |
    e.OrderPaid? || e.QiftServiceFeeAccrued? || e.MerchantPayableAccrued? || e.DeliveryFeeAccrued?
    witness OrderPaid

  function LegReason(event: LegEvent): string {
    match event
    case OrderPaid => "ORDER_PAID"
    case QiftServiceFeeAccrued => "QIFT_SERVICE_FEE"
    case MerchantPayableAccrued => "MERCHANT_PAYABLE"
    case DeliveryFeeAccrued => "DELIVERY_FEE"
  }

  function Leg(
    order: Order, event: LegEvent, actorType: string, actorId: Option<string>,
    amount: real, direction: string, counterparty: string): RecordInput
  {
    RecordInput(
      EventName(event), LegReason(event), actorType, actorId, Finite(amount), order.currency, direction,
      Some(counterparty), Some(order.id), order.paymentId, None, None, order.storeId,
      Some(OrderMetadata(order)), Some(LedgerIdempotencyKey(event, order.id)))
  }

  function LegOf(order: Order, event: LegEvent): RecordInput {
    match event
    case OrderPaid => Leg(order, event, "user", Some(order.userId), order.totalAmount, "credit", "sender")
    case QiftServiceFeeAccrued => Leg(order, event, "system", None, order.serviceFee, "credit", "qift")
    case MerchantPayableAccrued => Leg(order, event, "system", None, order.productPrice, "debit", "merchant")
    case DeliveryFeeAccrued => Leg(order, event, "system", None, order.deliveryFee, "debit", "merchant")
  }

  // The events an order gives rise to besides its payment, in posting order.
  function AllocationEvents(order: Order): seq<LegEvent> {
    (if order.serviceFee > 0.0 then [QiftServiceFeeAccrued] else [])
    + (if StoreLinked(order) && order.productPrice > 0.0 then [MerchantPayableAccrued] else [])
    + (if order.deliveryFee > 0.0 then [DeliveryFeeAccrued] else [])
  }

  function LegsFor(order: Order, events: seq<LegEvent>): (legs: seq<RecordInput>)
    ensures |legs| == |events|
    ensures forall i :: 0 <= i < |events| ==> legs[i] == LegOf(order, events[i])
  {
    seq(|events|, i requires 0 <= i < |events| => LegOf(order, events[i]))
  }

  function EventsOf(order: Order): seq<LegEvent> {
    [OrderPaid] + AllocationEvents(order)
  }

  method BuildOrderLedgerEntries(order: Order) returns (entries: seq<RecordInput>)
    ensures entries == LegsFor(order, EventsOf(order))
  {
    entries := [LegOf(order, OrderPaid)];
    if order.serviceFee > 0.0 {
      entries := entries + [LegOf(order, QiftServiceFeeAccrued)];
    }
    if StoreLinked(order) && order.productPrice > 0.0 {
      entries := entries + [LegOf(order, MerchantPayableAccrued)];
    }
    if order.deliveryFee > 0.0 {
      entries := entries + [LegOf(order, DeliveryFeeAccrued)];
    }
  }

  // ── The allocation is exhaustive ──────────────────────────────────

  // An order as the fee engine prices it.
  predicate EnginePriced(order: Order, speed: Billing.DeliverySpeed) {
    var fees := Billing.ComputeFees(order.productPrice, speed);
    && order.serviceFee == fees.serviceFee
    && order.deliveryFee == fees.deliveryFee
    && order.totalAmount == fees.grandTotal
  }

  // What a list of legs adds up to in the ledger, in halalas.
  function SumStored(legs: seq<RecordInput>): int {
    if legs == [] then 0 else Stored(legs[0].amount) + SumStored(legs[1..])
  }

  // Every riyal captured is accounted for: the fee, merchant and delivery legs
  // add up to the captured total exactly when the goods have a merchant to go to
  // or round to nothing.
  lemma LegsSumToTheCapturedTotal(order: Order, speed: Billing.DeliverySpeed)
    requires EnginePriced(order, speed)
    ensures SumStored(LegsFor(order, AllocationEvents(order))) == Stored(LegOf(order, OrderPaid).amount)
       <==> (StoreLinked(order) && order.productPrice > 0.0) || ToMinor(order.productPrice, SAR) == 0
  {
    var price, delivery, fee := order.productPrice, order.deliveryFee, order.serviceFee;
    Billing.SumOfThree(price, delivery, fee);
    MinorRoundTrip(SumMinor([price, delivery, fee], SAR), SAR);
    Billing.FeesAreOnGrid(price, speed);
    Billing.WholeRiyalsAreOnGrid(0);
    SumOfAllocation(order);
  }

  lemma SumOfAllocation(order: Order)
    ensures SumStored(LegsFor(order, AllocationEvents(order))) ==
      (if order.serviceFee > 0.0 then ToMinor(order.serviceFee, SAR) else 0)
      + (if StoreLinked(order) && order.productPrice > 0.0 then ToMinor(order.productPrice, SAR) else 0)
      + (if order.deliveryFee > 0.0 then ToMinor(order.deliveryFee, SAR) else 0)
  {
    var fee := if order.serviceFee > 0.0 then [QiftServiceFeeAccrued] else [];
    var merchant := if StoreLinked(order) && order.productPrice > 0.0 then [MerchantPayableAccrued] else [];
    var delivery := if order.deliveryFee > 0.0 then [DeliveryFeeAccrued] else [];
    SumOfConcat(order, fee + merchant, delivery);
    SumOfConcat(order, fee, merchant);
    SumOfAtMostOne(order, fee);
    SumOfAtMostOne(order, merchant);
    SumOfAtMostOne(order, delivery);
  }

  lemma SumOfAtMostOne(order: Order, events: seq<LegEvent>)
    requires |events| <= 1
    ensures SumStored(LegsFor(order, events)) == if events == [] then 0 else Stored(LegOf(order, events[0]).amount)
  {
    if events != [] {
      assert LegsFor(order, events)[1..] == [];
    }
  }

  lemma {:induction false} SumOfConcat(order: Order, a: seq<LegEvent>, b: seq<LegEvent>)
    ensures SumStored(LegsFor(order, a + b)) == SumStored(LegsFor(order, a)) + SumStored(LegsFor(order, b))
  {
    if a == [] {
      assert a + b == b;
    } else {
      assert LegsFor(order, a + b)[1..] == LegsFor(order, a[1..] + b);
      assert LegsFor(order, a)[1..] == LegsFor(order, a[1..]);
      SumOfConcat(order, a[1..], b);
    }
  }

  // ── Who gets what ─────────────────────────────────────────────────

  function RowsOf(order: Order, events: seq<LegEvent>): (rows: seq<Entry>)
    ensures |rows| == |events|
    ensures forall i :: 0 <= i < |events| ==> rows[i] == EntryOf(LegOf(order, events[i]))
  {
    seq(|events|, i requires 0 <= i < |events| => EntryOf(LegOf(order, events[i])))
  }

  // What Qift receives from a counterparty less what it owes to it.
  function Balance(rows: seq<Entry>, counterparty: string): int {
    if rows == [] then 0
    else
      var first :=
        if rows[0].counterpartyType != Some(counterparty) then 0
        else if rows[0].direction == "credit" then rows[0].amount
        else -rows[0].amount;
      first + Balance(rows[1..], counterparty)
  }

  // What one leg does to a counterparty's balance.
  function Effect(order: Order, event: LegEvent, counterparty: string): int {
    match event
    case OrderPaid => if counterparty == "sender" then ToMinor(order.totalAmount, SAR) else 0
    case QiftServiceFeeAccrued => if counterparty == "qift" then ToMinor(order.serviceFee, SAR) else 0
    case MerchantPayableAccrued => if counterparty == "merchant" then -ToMinor(order.productPrice, SAR) else 0
    case DeliveryFeeAccrued => if counterparty == "merchant" then -ToMinor(order.deliveryFee, SAR) else 0
  }

  lemma BalanceOfOne(order: Order, event: LegEvent, counterparty: string)
    requires counterparty in {"sender", "qift", "merchant"}
    ensures Balance(RowsOf(order, [event]), counterparty) == Effect(order, event, counterparty)
  {
    hide StripSensitive;
    var row := EntryOf(LegOf(order, event));
    assert RowsOf(order, [event])[1..] == [];
    assert "credit" != "debit" && "sender" != "qift" && "sender" != "merchant" && "qift" != "merchant";
  }

  lemma {:induction false} BalanceOfConcat(order: Order, a: seq<LegEvent>, b: seq<LegEvent>, counterparty: string)
    ensures Balance(RowsOf(order, a + b), counterparty) ==
      Balance(RowsOf(order, a), counterparty) + Balance(RowsOf(order, b), counterparty)
  {
    hide EntryOf;
    hide LegOf;
    if a == [] {
      assert a + b == b;
    } else {
      assert RowsOf(order, a + b)[1..] == RowsOf(order, a[1..] + b);
      assert RowsOf(order, a)[1..] == RowsOf(order, a[1..]);
      BalanceOfConcat(order, a[1..], b, counterparty);
    }
  }

  lemma BalanceOfMaybe(order: Order, events: seq<LegEvent>, counterparty: string)
    requires |events| <= 1 && counterparty in {"sender", "qift", "merchant"}
    ensures Balance(RowsOf(order, events), counterparty) ==
      if events == [] then 0 else Effect(order, events[0], counterparty)
  {
    hide EntryOf;
    hide LegOf;
    if |events| == 1 {
      assert events == [events[0]];
      BalanceOfOne(order, events[0], counterparty);
    }
  }

  lemma BalanceOfOrder(order: Order, counterparty: string)
    requires counterparty in {"sender", "qift", "merchant"}
    ensures Balance(RowsOf(order, EventsOf(order)), counterparty) ==
      Effect(order, OrderPaid, counterparty)
      + (if order.serviceFee > 0.0 then Effect(order, QiftServiceFeeAccrued, counterparty) else 0)
      + (if StoreLinked(order) && order.productPrice > 0.0
         then Effect(order, MerchantPayableAccrued, counterparty) else 0)
      + (if order.deliveryFee > 0.0 then Effect(order, DeliveryFeeAccrued, counterparty) else 0)
  {
    hide Balance;
    hide Effect;
    hide RowsOf;
    var paid: seq<LegEvent> := [OrderPaid];
    var fee: seq<LegEvent> := if order.serviceFee > 0.0 then [QiftServiceFeeAccrued] else [];
    var merchant: seq<LegEvent> :=
      if StoreLinked(order) && order.productPrice > 0.0 then [MerchantPayableAccrued] else [];
    var delivery: seq<LegEvent> := if order.deliveryFee > 0.0 then [DeliveryFeeAccrued] else [];
    BalanceOfConcat(order, paid, fee + merchant + delivery, counterparty);
    BalanceOfConcat(order, fee + merchant, delivery, counterparty);
    BalanceOfConcat(order, fee, merchant, counterparty);
    BalanceOfMaybe(order, paid, counterparty);
    BalanceOfMaybe(order, fee, counterparty);
    BalanceOfMaybe(order, merchant, counterparty);
    BalanceOfMaybe(order, delivery, counterparty);
  }

  // The stored rows of an engine-priced order put the captured total to the
  // sender's credit, the fee to Qift's, and the goods, if a store is linked, and
  // the delivery to the merchant's debit.
  lemma RowsSplitTheCapturedTotal(order: Order, speed: Billing.DeliverySpeed)
    requires EnginePriced(order, speed)
    ensures
      var rows := RowsOf(order, EventsOf(order));
      && Balance(rows, "sender") == ToMinor(order.totalAmount, SAR)
      && Balance(rows, "qift") == ToMinor(order.serviceFee, SAR) > 0
      && Balance(rows, "merchant") ==
           -(if StoreLinked(order) && order.productPrice > 0.0 then ToMinor(order.productPrice, SAR) else 0)
           - ToMinor(order.deliveryFee, SAR)
  {
    hide EventsOf;
    hide RowsOf;
    hide Balance;
    hide EnginePriced;
    hide StoreLinked;
    EngineFees(order, speed);
    BalanceOfOrder(order, "sender");
    BalanceOfOrder(order, "qift");
    BalanceOfOrder(order, "merchant");
  }

  lemma EngineFees(order: Order, speed: Billing.DeliverySpeed)
    requires EnginePriced(order, speed)
    ensures order.serviceFee > 0.0 && ToMinor(order.serviceFee, SAR) > 0
    ensures order.deliveryFee >= 0.0 && (order.deliveryFee == 0.0 ==> ToMinor(order.deliveryFee, SAR) == 0)
  {
    Billing.FeesAreOnGrid(order.productPrice, speed);
    RoundingIsHalfUp(order.serviceFee, ToMinor(order.serviceFee, SAR), SAR);
    RoundingIsHalfUp(0.0, 0, SAR);
  }

  // Each leg of an order answers to its own key and its own reason.
  lemma LegsAreDistinct(order: Order, i: nat, j: nat)
    requires i < j < |EventsOf(order)|
    ensures
      var legs := LegsFor(order, EventsOf(order));
      legs[i].idempotencyKey != legs[j].idempotencyKey && legs[i].reasonCode != legs[j].reasonCode
  {
    var e, f := EventsOf(order)[i], EventsOf(order)[j];
    EventsAreDistinct(order, i, j);
    KeysNameTheirPosting(e, order.id, f, order.id);
    ReasonsDiffer(e, f);
  }

  lemma EventsAreDistinct(order: Order, i: nat, j: nat)
    requires i < j < |EventsOf(order)|
    ensures EventsOf(order)[i] != EventsOf(order)[j]
  {
  }

  lemma ReasonsDiffer(e: LegEvent, f: LegEvent)
    ensures LegReason(e) == LegReason(f) <==> e == f
  {
    var s, t := LegReason(e), LegReason(f);
    assert |s| == |t| && s[0] == t[0] ==> e == f;
  }
}
