// The commercial totals of a campaign and of an order: the fee engine
// (src/fees/fee-engine.ts), the two-leg invoice decomposition
// (src/corporate/invoice-amounts.ts) and the company-facing billing summary
// (src/corporate/billing-summary.service.ts).

module Billing {
  import opened Wrappers
  import opened Money
  import opened TaxEngine

  const QIFT_SERVICE_FEE_RATE := 0.03
  const QIFT_MIN_SERVICE_FEE := 5
  const FAST_DELIVERY_FEE := 15
  const STANDARD_DELIVERY_FEE := 0

  datatype DeliverySpeed = SameDay | Fast

  datatype FeeBreakdown = FeeBreakdown(
    itemSubtotal: real, deliveryFee: real, serviceFee: real, grandTotal: real)

  function ServiceFeeFor(itemSubtotal: real): real {
    var rounded := Round(itemSubtotal * QIFT_SERVICE_FEE_RATE);
    (if rounded > QIFT_MIN_SERVICE_FEE then rounded else QIFT_MIN_SERVICE_FEE) as real
  }

  function DeliveryFeeFor(speed: DeliverySpeed): real {
    (if speed.Fast? then FAST_DELIVERY_FEE else STANDARD_DELIVERY_FEE) as real
  }

  function ComputeFees(itemSubtotal: real, speed: DeliverySpeed): FeeBreakdown {
    var deliveryFee := DeliveryFeeFor(speed);
    var serviceFee := ServiceFeeFor(itemSubtotal);
    FeeBreakdown(itemSubtotal, deliveryFee, serviceFee, AddMoney([itemSubtotal, deliveryFee, serviceFee], SAR))
  }

  // A fee is a whole number of riyals, never below the floor.
  lemma FeesAreOnGrid(itemSubtotal: real, speed: DeliverySpeed)
    ensures ServiceFeeFor(itemSubtotal) >= QIFT_MIN_SERVICE_FEE as real
    ensures OnGrid(ServiceFeeFor(itemSubtotal), SAR) && OnGrid(DeliveryFeeFor(speed), SAR)
  {
    WholeRiyalsAreOnGrid(ServiceFeeFor(itemSubtotal).Floor);
    WholeRiyalsAreOnGrid(DeliveryFeeFor(speed).Floor);
  }

  lemma WholeRiyalsAreOnGrid(riyals: int)
    ensures ToMinor(riyals as real, SAR) == 100 * riyals
    ensures OnGrid(riyals as real, SAR)
  {
    assert (100 * riyals) as real / 100.0 == riyals as real;
    MinorRoundTrip(100 * riyals, SAR);
  }

  lemma SumOfThree(x: real, y: real, z: real)
    ensures SumMinor([x, y, z], SAR) == ToMinor(x, SAR) + ToMinor(y, SAR) + ToMinor(z, SAR)
  {
    SumSingleton(x, SAR);
    SumSingleton(y, SAR);
    SumSingleton(z, SAR);
    SumConcat([x], [y], SAR);
    SumConcat([x, y], [z], SAR);
    assert [x] + [y] == [x, y] && [x, y] + [z] == [x, y, z];
  }

  // The fee is 3% of the price in whole riyals, halves going up, but at least 5.
  lemma ServiceFeeIs(itemSubtotal: real)
    ensures
      var fee, share := ServiceFeeFor(itemSubtotal), itemSubtotal * 0.03;
      && fee == fee.Floor as real
      && if share < 5.5 then fee == 5.0 else fee - 0.5 <= share < fee + 0.5
  {
    var shifted := itemSubtotal * QIFT_SERVICE_FEE_RATE + 0.5;
    var rounded := shifted.Floor;
    assert rounded as real <= shifted < rounded as real + 1.0;
    assert rounded == Round(itemSubtotal * QIFT_SERVICE_FEE_RATE);
  }

  // Fast delivery costs 15 riyals and same-day delivery nothing.
  lemma GrandTotalOfAnOrder(itemSubtotal: real, speed: DeliverySpeed)
    ensures
      ToMinor(ComputeFees(itemSubtotal, speed).grandTotal, SAR) ==
      ToMinor(itemSubtotal, SAR) + (if speed.Fast? then 1500 else 0) + ToMinor(ServiceFeeFor(itemSubtotal), SAR)
  {
    var delivery, fee := DeliveryFeeFor(speed), ServiceFeeFor(itemSubtotal);
    SumOfThree(itemSubtotal, delivery, fee);
    MinorRoundTrip(ToMinor(itemSubtotal, SAR) + ToMinor(delivery, SAR) + ToMinor(fee, SAR), SAR);
  }

  // ── Invoice decomposition ─────────────────────────────────────────

  datatype InvoiceAmounts = InvoiceAmounts(
    unitAmount: real, recipientCount: int,
    subtotalAmount: real, platformFeeAmount: real, totalAmount: real)

  function ComputeInvoiceAmounts(unitAmount: real, recipientCount: int): InvoiceAmounts {
    var subtotal := MulMoney(unitAmount, recipientCount, SAR);
    var fee := MulMoney(ServiceFeeFor(unitAmount), recipientCount, SAR);
    InvoiceAmounts(unitAmount, recipientCount, subtotal, fee, AddMoney([subtotal, fee], SAR))
  }

  lemma AmountsInMinor(unitAmount: real, n: int)
    ensures
      var all := ComputeInvoiceAmounts(unitAmount, n);
      var goods, fee := ToMinor(unitAmount, SAR), ToMinor(ServiceFeeFor(unitAmount), SAR);
      && ToMinor(all.subtotalAmount, SAR) == goods * n
      && ToMinor(all.platformFeeAmount, SAR) == fee * n
      && all.totalAmount == FromMinor((goods + fee) * n, SAR)
  {
    var all := ComputeInvoiceAmounts(unitAmount, n);
    var goods, fee := ToMinor(unitAmount, SAR), ToMinor(ServiceFeeFor(unitAmount), SAR);
    MinorRoundTrip(goods * n, SAR);
    MinorRoundTrip(fee * n, SAR);
    SumOfTwo(all.subtotalAmount, all.platformFeeAmount);
    Distribute(goods, fee, n);
  }

  // What the amounts say, for one price and number of recipients: both legs in
  // halalas, each for every recipient.
  predicate Bills(amounts: InvoiceAmounts, price: real, recipients: int) {
    && amounts.unitAmount == price && amounts.recipientCount == recipients
    && ToMinor(amounts.subtotalAmount, SAR) == ToMinor(price, SAR) * recipients
    && ToMinor(amounts.platformFeeAmount, SAR) == ToMinor(ServiceFeeFor(price), SAR) * recipients
    && ToMinor(amounts.totalAmount, SAR)
         == ToMinor(amounts.subtotalAmount, SAR) + ToMinor(amounts.platformFeeAmount, SAR)
  }

  lemma ComputedAmountsBill(price: real, recipients: int)
    ensures Bills(ComputeInvoiceAmounts(price, recipients), price, recipients)
  {
    AmountsInMinor(price, recipients);
    var goods, fee := ToMinor(price, SAR), ToMinor(ServiceFeeFor(price), SAR);
    Distribute(goods, fee, recipients);
    MinorRoundTrip((goods + fee) * recipients, SAR);
  }

  lemma Distribute(x: int, y: int, n: int)
    ensures (x + y) * n == x * n + y * n
  {
  }

  // A campaign of n gifts costs what n single-gift campaigns cost together,
  // leg by leg and in total.
  lemma AmountsScaleWithRecipients(unitAmount: real, n: nat)
    ensures
      var one, all := ComputeInvoiceAmounts(unitAmount, 1), ComputeInvoiceAmounts(unitAmount, n);
      && all.subtotalAmount == AddMoney(seq(n, _ => one.subtotalAmount), SAR)
      && all.platformFeeAmount == AddMoney(seq(n, _ => one.platformFeeAmount), SAR)
      && all.totalAmount == AddMoney(seq(n, _ => one.totalAmount), SAR)
  {
    var one := ComputeInvoiceAmounts(unitAmount, 1);
    var goods, fee := ToMinor(unitAmount, SAR), ToMinor(ServiceFeeFor(unitAmount), SAR);
    AmountsInMinor(unitAmount, 1);
    AmountsInMinor(unitAmount, n);
    MinorRoundTrip(goods + fee, SAR);
    SumOfCopies(one.subtotalAmount, n, SAR);
    SumOfCopies(one.platformFeeAmount, n, SAR);
    SumOfCopies(one.totalAmount, n, SAR);
  }

  lemma SumOfTwo(x: real, y: real)
    ensures SumMinor([x, y], SAR) == ToMinor(x, SAR) + ToMinor(y, SAR)
  {
    SumSingleton(x, SAR);
    SumSingleton(y, SAR);
    SumConcat([x], [y], SAR);
    assert [x] + [y] == [x, y];
  }

  // ── Billing summary ───────────────────────────────────────────────

  datatype LegTotals = LegTotals(currency: Currency, vatAmount: real, totalAmount: real)

  datatype MissingLeg = MerchantInvoiceMissing | QiftServiceInvoiceMissing

  datatype BillingSummary = BillingSummary(
    currency: Currency, grandTotal: Option<real>, complete: bool, missing: seq<MissingLeg>)

  // What the summary says of the two legs. A grand total appears only when both
  // exist in one currency, and is then their exact sum.
  predicate Summarizes(summary: BillingSummary, qift: Option<LegTotals>, merchant: Option<LegTotals>) {
    && (summary.complete <==> qift.Some? && merchant.Some?)
    && (MerchantInvoiceMissing in summary.missing <==> merchant.None?)
    && (QiftServiceInvoiceMissing in summary.missing <==> qift.None?)
    && |summary.missing| <= 2
    && (summary.grandTotal.Some? <==>
          qift.Some? && merchant.Some? && merchant.value.currency == qift.value.currency)
    && (summary.grandTotal.Some? ==>
          ToMinor(summary.grandTotal.value, SAR)
            == ToMinor(merchant.value.totalAmount, SAR) + ToMinor(qift.value.totalAmount, SAR))
    && summary.currency ==
         if qift.Some? then qift.value.currency else if merchant.Some? then merchant.value.currency else SAR
  }

  // The legs are those of one campaign; a campaign that the organization does
  // not have is refused, not summarized.
  method GetCampaignBillingSummary(campaignFound: bool, qift: Option<LegTotals>, merchant: Option<LegTotals>)
    returns (r: Result<BillingSummary>)
    ensures !campaignFound ==> r == Failure("campaign_not_found")
    ensures campaignFound ==> r.Success? && Summarizes(r.value, qift, merchant)
  {
    if !campaignFound {
      return Failure("campaign_not_found");
    }
    var missing := [];
    if merchant.None? {
      missing := missing + [MerchantInvoiceMissing];
    }
    if qift.None? {
      missing := missing + [QiftServiceInvoiceMissing];
    }
    var grandTotal := None;
    if merchant.Some? && qift.Some? {
      if merchant.value.currency == qift.value.currency {
        grandTotal := Some(AddMoney([merchant.value.totalAmount, qift.value.totalAmount], SAR));
        SumOfTwo(merchant.value.totalAmount, qift.value.totalAmount);
        MinorRoundTrip(ToMinor(merchant.value.totalAmount, SAR) + ToMinor(qift.value.totalAmount, SAR), SAR);
      }
    }
    var currency :=
      if qift.Some? then qift.value.currency else if merchant.Some? then merchant.value.currency else SAR;
    r := Success(BillingSummary(currency, grandTotal, missing == [], missing));
  }

  // What the two issued invoices of a campaign add up to, in halalas: the
  // goods, the goods VAT when the merchant is registered and prices exclude
  // it, the fee, and the VAT on the fee. Nothing else, and nothing twice.
  lemma GrandTotalIsConserved(unitAmount: real, recipientCount: nat, registered: bool, inclusive: bool)
    requires ToMinor(unitAmount, SAR) >= 0
    ensures
      var amounts := ComputeInvoiceAmounts(unitAmount, recipientCount);
      var service := ComputeTax(DefaultInput(amounts.subtotalAmount, amounts.platformFeeAmount));
      var goods := ComputeMerchantGoodsTax(amounts.subtotalAmount, registered, inclusive, SAUDI_VAT_RATE);
      var g := ToMinor(unitAmount, SAR) * recipientCount;
      var f := ToMinor(ServiceFeeFor(unitAmount), SAR) * recipientCount;
      && service.Success? && goods.Success?
      && VatOnMinor(g, 1500).Success? && VatOnMinor(f, 1500).Success?
      && ToMinor(service.value.totalAmount, SAR) + ToMinor(goods.value.totalAmount, SAR)
           == g + (if registered && !inclusive then VatOnMinor(g, 1500).value else 0)
            + f + VatOnMinor(f, 1500).value
  {
    var g := ToMinor(unitAmount, SAR) * recipientCount;
    var fee := ToMinor(ServiceFeeFor(unitAmount), SAR);
    FeesAreOnGrid(unitAmount, SameDay);
    WholeRiyalsAreOnGrid(ServiceFeeFor(unitAmount).Floor);
    NatProduct(ToMinor(unitAmount, SAR), recipientCount);
    NatProduct(fee, recipientCount);
    var f := fee * recipientCount;
    assert RateBasisPoints(SAUDI_VAT_RATE) == 1500;
    MinorRoundTrip(g, SAR);
    MinorRoundTrip(f, SAR);
    MinorRoundTrip(f + VatOnMinor(f, 1500).value, SAR);
    MinorRoundTrip(g + VatOnMinor(g, 1500).value, SAR);
  }
}
