// Saudi VAT under the agent model (src/fees/tax-engine.ts): integer halalas,
// rates in basis points, one half-up division per computation.

module TaxEngine {
  import opened Wrappers
  import opened Money

  const RATE_SCALE := 10_000
  const SAUDI_VAT_RATE: Rate := 0.15

  // Rates are server-side constants and never negative.
  type Rate = r: real | r >= 0.0

  function RateBasisPoints(rate: Rate): (bp: nat) {
    Round(rate * RATE_SCALE as real)
  }

  // The division both VAT formulas end with: floor, then up when twice the
  // remainder reaches the divisor.
  function DivideHalfUp(num: nat, den: int): nat
    requires den > 0
  {
    num / den + if 2 * (num % den) >= den then 1 else 0
  }

  function VatOnMinor(baseMinor: int, rateBp: nat): Result<int> {
    if baseMinor < 0 then Failure("tax_engine_negative_base_unsupported")
    else NatProduct(baseMinor, rateBp); Success(DivideHalfUp(baseMinor * rateBp, RATE_SCALE))
  }

  function ExtractNetMinor(grossMinor: int, rateBp: nat): Result<int> {
    if grossMinor < 0 then Failure("tax_engine_negative_base_unsupported")
    else Success(DivideHalfUp(grossMinor * RATE_SCALE, RATE_SCALE + rateBp))
  }

  lemma NatProduct(x: nat, y: nat)
    ensures x * y >= 0
  {
  }

  // ── The half-up quotient, independently of how it is computed ─────

  // q is num / den rounded to the nearest integer, halves going up.
  predicate IsHalfUp(num: int, den: int, q: int) {
    (2 * q - 1) * den <= 2 * num < (2 * q + 1) * den
  }

  lemma CancelFactor(x: int, y: int, den: int)
    requires den > 0 && x * den < y * den
    ensures x < y
  {
  }

  lemma HalfUpIsUnique(num: int, den: int, p: int, q: int)
    requires den > 0 && IsHalfUp(num, den, p) && IsHalfUp(num, den, q)
    ensures p == q
  {
    CancelFactor(2 * p - 1, 2 * q + 1, den);
    CancelFactor(2 * q - 1, 2 * p + 1, den);
  }

  lemma DivideHalfUpIsHalfUp(num: nat, den: int, q: int)
    requires den > 0
    ensures DivideHalfUp(num, den) == q <==> IsHalfUp(num, den, q)
  {
    var p := DivideHalfUp(num, den);
    var f, r := num / den, num % den;
    assert num == den * f + r;
    assert (2 * f - 1) * den == 2 * (den * f) - den;
    assert (2 * f + 1) * den == 2 * (den * f) + den;
    assert (2 * (f + 1) - 1) * den == 2 * (den * f) + den;
    assert (2 * (f + 1) + 1) * den == 2 * (den * f) + 3 * den;
    assert IsHalfUp(num, den, p);
    if IsHalfUp(num, den, q) {
      HalfUpIsUnique(num, den, p, q);
    }
  }

  // VAT is the unique half-up quotient, or the stated refusal.
  lemma VatIsHalfUp(base: int, rateBp: nat, vat: int)
    ensures VatOnMinor(base, rateBp) == Success(vat)
       <==> base >= 0 && IsHalfUp(base * rateBp, RATE_SCALE, vat)
  {
    if base >= 0 {
      NatProduct(base, rateBp);
      DivideHalfUpIsHalfUp(base * rateBp, RATE_SCALE, vat);
    }
  }

  lemma NetIsHalfUp(gross: int, rateBp: nat, net: int)
    ensures ExtractNetMinor(gross, rateBp) == Success(net)
       <==> gross >= 0 && IsHalfUp(gross * RATE_SCALE, RATE_SCALE + rateBp, net)
  {
    if gross >= 0 {
      DivideHalfUpIsHalfUp(gross * RATE_SCALE, RATE_SCALE + rateBp, net);
    }
  }

  lemma HalfUpIsMonotone(num: int, num': int, den: int, q: int, q': int)
    requires den > 0 && num <= num'
    requires IsHalfUp(num, den, q) && IsHalfUp(num', den, q')
    ensures q <= q'
  {
    CancelFactor(2 * q - 1, 2 * q' + 1, den);
  }

  // ── Splitting one charge ──────────────────────────────────────────

  // The branch both invoices share: extract VAT from an inclusive charge or
  // add it on top of an exclusive one.
  datatype Split = Split(net: int, vat: int, total: int)

  function SplitCharge(chargeMinor: int, pricesIncludeVat: bool, rateBp: nat): Result<Split> {
    if pricesIncludeVat then
      var net :- ExtractNetMinor(chargeMinor, rateBp);
      Success(Split(net, chargeMinor - net, chargeMinor))
    else
      var vat :- VatOnMinor(chargeMinor, rateBp);
      Success(Split(chargeMinor, vat, chargeMinor + vat))
  }

  // Adding VAT to any net and extracting again recovers exactly that net and
  // that VAT, at every rate.
  lemma AddThenExtract(net: nat, rateBp: nat, vat: int)
    requires VatOnMinor(net, rateBp) == Success(vat)
    ensures ExtractNetMinor(net + vat, rateBp) == Success(net)
  {
    var due := net * rateBp;
    VatIsHalfUp(net, rateBp, vat);
    assert (2 * net - 1) * (RATE_SCALE + rateBp) == 2 * RATE_SCALE * net + 2 * due - RATE_SCALE - rateBp;
    assert (2 * net + 1) * (RATE_SCALE + rateBp) == 2 * RATE_SCALE * net + 2 * due + RATE_SCALE + rateBp;
    if rateBp == 0 {
      assert due == 0;
    }
    NatProduct(net, rateBp);
    assert vat >= 0;
    NetIsHalfUp(net + vat, rateBp, net);
  }

  // Extracting and adding again misses the gross by less than a bound that
  // grows with the rate ...
  lemma ExtractThenAddDrift(gross: nat, rateBp: nat, net: int, vat: int)
    requires ExtractNetMinor(gross, rateBp) == Success(net)
    requires VatOnMinor(net, rateBp) == Success(vat)
    ensures -(2 * RATE_SCALE + rateBp) < 2 * RATE_SCALE * (net + vat - gross) <= 2 * RATE_SCALE + rateBp
  {
    var due := net * rateBp;
    NetIsHalfUp(gross, rateBp, net);
    VatIsHalfUp(net, rateBp, vat);
    assert (2 * net - 1) * (RATE_SCALE + rateBp) == 2 * RATE_SCALE * net + 2 * due - RATE_SCALE - rateBp;
    assert (2 * net + 1) * (RATE_SCALE + rateBp) == 2 * RATE_SCALE * net + 2 * due + RATE_SCALE + rateBp;
  }

  // ... so it is off by at most one halala up to a rate of 200% ...
  lemma ExtractThenAdd(gross: nat, rateBp: nat, net: int, vat: int)
    requires rateBp <= 20_000
    requires ExtractNetMinor(gross, rateBp) == Success(net)
    requires VatOnMinor(net, rateBp) == Success(vat)
    ensures -1 <= net + vat - gross <= 1
  {
    if rateBp < 20_000 {
      ExtractThenAddDrift(gross, rateBp, net, vat);
      assert -40_000 < 20_000 * (net + vat - gross) < 40_000;
    } else {
      TripledPrice(gross, net, vat);
    }
  }

  lemma TripledPrice(gross: nat, net: int, vat: int)
    requires ExtractNetMinor(gross, 20_000) == Success(net)
    requires VatOnMinor(net, 20_000) == Success(vat)
    ensures vat == 2 * net && -1 <= 3 * net - gross <= 1
  {
    NetIsHalfUp(gross, 20_000, net);
    VatIsHalfUp(net, 20_000, vat);
    assert (2 * vat - 1) * 10_000 <= 40_000 * net < (2 * vat + 1) * 10_000;
    assert (2 * net - 1) * 30_000 <= 20_000 * gross < (2 * net + 1) * 30_000;
  }

  // How far extracting and adding again misses a gross.
  function Miss(gross: nat, rateBp: nat): int {
    var net := ExtractNetMinor(gross, rateBp).value;
    assert net >= 0 by {
      NatProduct(gross, RATE_SCALE);
    }
    net + VatOnMinor(net, rateBp).value - gross
  }

  lemma MissIs(gross: nat, rateBp: nat, net: nat, total: nat)
    requires IsHalfUp(gross * RATE_SCALE, RATE_SCALE + rateBp, net)
    requires IsHalfUp(net * (RATE_SCALE + rateBp), RATE_SCALE, total)
    ensures Miss(gross, rateBp) == total - gross
  {
    NetIsHalfUp(gross, rateBp, net);
    assert net * (RATE_SCALE + rateBp) == net * RATE_SCALE + net * rateBp;
    VatIsHalfUp(net, rateBp, total - net);
  }

  // ... while every rate above loses two on some gross: one whose net puts the
  // exact total closest to half a halala ...
  lemma MissedByTwo(rateBp: nat) returns (gross: nat)
    requires rateBp > 20_000
    ensures Miss(gross, rateBp) in {-2, 2}
  {
    var s := rateBp - 20_000;
    if s >= RATE_SCALE {
      gross := RATE_SCALE + rateBp - 2;
      MissIs(gross, rateBp, RATE_SCALE, RATE_SCALE + rateBp);
    } else {
      var n := (RATE_SCALE + s) / (2 * s);
      gross := MissedNearHalf(s, n);
    }
  }

  lemma MissedNearHalf(s: nat, n: nat) returns (gross: nat)
    requires 0 < s < RATE_SCALE && n == (RATE_SCALE + s) / (2 * s)
    ensures Miss(gross, 20_000 + s) in {-2, 2}
  {
    var part := n * s;
    NearestMultiple(s, n);
    assert n >= 1;
    assert n * (30_000 + s) == 30_000 * n + part;
    assert (2 * n - 1) * (30_000 + s) == 60_000 * n + 2 * part - 30_000 - s;
    assert (2 * n + 1) * (30_000 + s) == 60_000 * n + 2 * part + 30_000 + s;
    if 2 * part >= RATE_SCALE {
      gross := 3 * n - 1;
      MissIs(gross, 20_000 + s, n, 3 * n + 1);
    } else {
      gross := 3 * n + 2;
      MissIs(gross, 20_000 + s, n, 3 * n);
    }
  }

  lemma NearestMultiple(s: nat, n: nat)
    requires 0 < s < RATE_SCALE && n == (RATE_SCALE + s) / (2 * s)
    ensures RATE_SCALE - s < 2 * (n * s) <= RATE_SCALE + s && n >= 1
  {
    var r := (RATE_SCALE + s) % (2 * s);
    assert RATE_SCALE + s == 2 * s * n + r;
    assert 2 * s * n == 2 * (n * s);
    if n == 0 {
      assert false;
    }
  }

  // The very next rate already loses two, on a gross of 149.99.
  lemma ExtractThenAddThresholdIsSharp()
    ensures ExtractNetMinor(14999, 20001) == Success(5000)
    ensures VatOnMinor(5000, 20001) == Success(10001)
    ensures 5000 + 10001 - 14999 == 2
  {
  }

  // ... so the round trip stays within one halala on every gross exactly up to a
  // rate of 200%.
  lemma ExtractThenAddWithinOneExactlyWhen(rateBp: nat)
    ensures (forall gross: nat :: -1 <= Miss(gross, rateBp) <= 1) <==> rateBp <= 20_000
  {
    if rateBp <= 20_000 {
      forall gross: nat ensures -1 <= Miss(gross, rateBp) <= 1 {
        NatProduct(gross, RATE_SCALE);
        var net := ExtractNetMinor(gross, rateBp).value;
        ExtractThenAdd(gross, rateBp, net, VatOnMinor(net, rateBp).value);
      }
    } else {
      var gross := MissedByTwo(rateBp);
      assert !(-1 <= Miss(gross, rateBp) <= 1);
    }
  }

  ghost predicate Reachable(gross: nat, rateBp: nat) {
    exists net: nat :: VatOnMinor(net, rateBp) == Success(gross - net)
  }

  // A gross is what some net becomes once VAT is added exactly when extracting
  // and adding gives it back: on those grosses the two conventions agree.
  lemma ReachableGrosses(gross: nat, rateBp: nat)
    ensures Reachable(gross, rateBp) <==>
      var net := ExtractNetMinor(gross, rateBp).value;
      VatOnMinor(net, rateBp) == Success(gross - net)
  {
    if Reachable(gross, rateBp) {
      var net: nat :| VatOnMinor(net, rateBp) == Success(gross - net);
      AddThenExtract(net, rateBp, gross - net);
    }
  }

  // A larger gross never carries less VAT: the net grows no faster than it.
  lemma NetGrowsNoFaster(gross: nat, more: nat, rateBp: nat, net: int, net': int)
    requires ExtractNetMinor(gross, rateBp) == Success(net)
    requires ExtractNetMinor(gross + more, rateBp) == Success(net')
    ensures net <= net' <= net + more
  {
    var den := RATE_SCALE + rateBp;
    NetIsHalfUp(gross, rateBp, net);
    NetIsHalfUp(gross + more, rateBp, net');
    CancelFactor(2 * net - 1, 2 * net' + 1, den);
    NatProduct(more, rateBp);
    assert 2 * more * den == 2 * more * RATE_SCALE + 2 * (more * rateBp);
    assert (2 * net' - 1) * den < (2 * net + 1) * den + 2 * more * den;
    assert (2 * net + 1) * den + 2 * more * den == (2 * net + 1 + 2 * more) * den;
    CancelFactor(2 * net' - 1, 2 * net + 1 + 2 * more, den);
  }

  // Both parts of a split never decrease when the charge grows, and the parts
  // always sum to the total.
  lemma SplitIsMonotone(charge: nat, charge': nat, inclusive: bool, rateBp: nat, s: Split, s': Split)
    requires charge <= charge'
    requires SplitCharge(charge, inclusive, rateBp) == Success(s)
    requires SplitCharge(charge', inclusive, rateBp) == Success(s')
    ensures s.net <= s'.net && s.vat <= s'.vat
    ensures s.net + s.vat == s.total && s'.net + s'.vat == s'.total
  {
    if inclusive {
      NetGrowsNoFaster(charge, charge' - charge, rateBp, s.net, s'.net);
    } else {
      hide VatOnMinor;
      VatIsMonotone(charge, charge', rateBp, s.vat, s'.vat);
    }
  }

  lemma VatIsMonotone(net: nat, net': nat, rateBp: nat, vat: int, vat': int)
    requires net <= net' && VatOnMinor(net, rateBp) == Success(vat) && VatOnMinor(net', rateBp) == Success(vat')
    ensures vat <= vat'
  {
    VatIsHalfUp(net, rateBp, vat);
    VatIsHalfUp(net', rateBp, vat');
    MoreTimesRate(net, net', rateBp);
    HalfUpIsMonotone(net * rateBp, net' * rateBp, RATE_SCALE, vat, vat');
  }

  lemma MoreTimesRate(net: nat, net': nat, rateBp: nat)
    requires net <= net'
    ensures net * rateBp <= net' * rateBp
  {
  }

  // ── Exactness in a double ─────────────────────────────────────────

  const TWO_53 := 0x20_0000_0000_0000
  const EXACT_GROSS_LIMIT := 900_719_925_474
  const NUMERIC_12_2_LIMIT := 999_999_999_999

  // Every intermediate product of both formulas is an exactly representable
  // integer up to this gross and a 100% rate; one halala more already leaves
  // the exact range, and so do the largest storable amounts.
  lemma IntermediatesAreExact(minor: nat, rateBp: nat)
    requires rateBp <= RATE_SCALE
    ensures minor * RATE_SCALE < TWO_53 <==> minor <= EXACT_GROSS_LIMIT
    ensures minor <= EXACT_GROSS_LIMIT ==> minor * rateBp < TWO_53
    ensures 2 * (minor * rateBp % RATE_SCALE) < TWO_53
    ensures 2 * (minor * RATE_SCALE % (RATE_SCALE + rateBp)) < TWO_53
    ensures NUMERIC_12_2_LIMIT * RATE_SCALE > TWO_53
  {
    NatProduct(minor, RATE_SCALE - rateBp);
    assert minor * RATE_SCALE == minor * rateBp + minor * (RATE_SCALE - rateBp);
    var den := RATE_SCALE + rateBp;
    assert 0 <= minor * RATE_SCALE % den < den;
  }

  // ── The Qift service leg ──────────────────────────────────────────

  datatype Treatment = FullValueStandard | AgentFeeOnly

  datatype TaxInput = TaxInput(
    subtotalAmount: real, platformFeeAmount: real,
    treatment: Treatment, pricesIncludeVat: bool, vatRate: Rate)

  datatype TaxBreakdown = TaxBreakdown(
    taxableAmount: real, vatRate: real, vatAmount: real,
    totalBeforeVat: real, totalAmount: real, facilitatedValue: real)

  function QiftCharge(input: TaxInput): real {
    if input.treatment.AgentFeeOnly? then input.platformFeeAmount
    else input.subtotalAmount + input.platformFeeAmount
  }

  function ComputeTax(input: TaxInput): Result<TaxBreakdown> {
    var facilitated := if input.treatment.AgentFeeOnly? then RoundMoney(input.subtotalAmount, SAR) else 0.0;
    var split :- SplitCharge(ToMinor(QiftCharge(input), SAR), input.pricesIncludeVat, RateBasisPoints(input.vatRate));
    Success(TaxBreakdown(
      FromMinor(split.net, SAR), input.vatRate, FromMinor(split.vat, SAR),
      FromMinor(split.net, SAR), FromMinor(split.total, SAR), facilitated))
  }

  // The defaults an invoice is issued under.
  function DefaultInput(subtotalAmount: real, platformFeeAmount: real): TaxInput {
    TaxInput(subtotalAmount, platformFeeAmount, AgentFeeOnly, false, SAUDI_VAT_RATE)
  }

  // As an agent Qift never taxes or bills the goods: two campaigns with the
  // same fee are charged the same whatever the goods are worth, and the goods
  // are only recorded.
  lemma AgentIgnoresGoods(a: TaxInput, b: TaxInput)
    requires a.treatment.AgentFeeOnly? && b == a.(subtotalAmount := b.subtotalAmount)
    ensures ComputeTax(a).Success? == ComputeTax(b).Success?
    ensures ComputeTax(a).Success? ==>
      ComputeTax(b).value == ComputeTax(a).value.(facilitatedValue := RoundMoney(b.subtotalAmount, SAR))
  {
  }

  // Before-VAT plus VAT is the total, to the halala, and only a charge below
  // zero is refused.
  lemma TaxIsConserved(input: TaxInput)
    ensures ComputeTax(input).Success? <==> ToMinor(QiftCharge(input), SAR) >= 0
    ensures ComputeTax(input).Success? ==>
      var tax := ComputeTax(input).value;
      && tax.totalAmount == tax.totalBeforeVat + tax.vatAmount
      && OnGrid(tax.totalAmount, SAR) && OnGrid(tax.vatAmount, SAR) && OnGrid(tax.totalBeforeVat, SAR)
  {
    var split := SplitCharge(ToMinor(QiftCharge(input), SAR), input.pricesIncludeVat, RateBasisPoints(input.vatRate));
    if split.Success? {
      FromMinorAdds(split.value.net, split.value.vat, SAR);
      MinorRoundTrip(split.value.net, SAR);
      MinorRoundTrip(split.value.vat, SAR);
      MinorRoundTrip(split.value.total, SAR);
    }
  }

  // What a charge is split into, in halalas, with nothing said about how: an
  // inclusive price holds its net as the half-up share and the rest is VAT; an
  // exclusive one is the net and the VAT is its half-up share.
  predicate Splits(charge: int, inclusive: bool, rateBp: int, net: int, vat: int) {
    if inclusive then IsHalfUp(charge * 10_000, 10_000 + rateBp, net) && vat == charge - net
    else net == charge && IsHalfUp(charge * rateBp, 10_000, vat)
  }

  // The rate in basis points, to the nearest, halves going up.
  predicate InBasisPoints(rate: real, bp: int) {
    bp as real - 0.5 <= rate * 10_000.0 < bp as real + 0.5
  }

  lemma RateIsInBasisPoints(rate: Rate)
    ensures InBasisPoints(rate, RateBasisPoints(rate))
  {
    var shifted := rate * 10_000.0 + 0.5;
    assert shifted.Floor as real <= shifted < shifted.Floor as real + 1.0;
  }

  lemma SplitIs(charge: int, inclusive: bool, rateBp: nat)
    requires charge >= 0
    ensures
      var split := SplitCharge(charge, inclusive, rateBp);
      && split.Success? && Splits(charge, inclusive, rateBp, split.value.net, split.value.vat)
      && split.value.total == split.value.net + split.value.vat
  {
    if inclusive {
      NetIsHalfUp(charge, rateBp, ExtractNetMinor(charge, rateBp).value);
    } else {
      VatIsHalfUp(charge, rateBp, VatOnMinor(charge, rateBp).value);
    }
  }

  // Column by column, what a service invoice freezes. Qift's own charge is the
  // fee alone as an agent, and goods plus fee otherwise.
  lemma TaxIs(input: TaxInput, bp: int)
    requires InBasisPoints(input.vatRate, bp) && ComputeTax(input).Success?
    ensures
      var tax := ComputeTax(input).value;
      var charge := if input.treatment.AgentFeeOnly? then input.platformFeeAmount
                    else input.subtotalAmount + input.platformFeeAmount;
      && Splits(
           ToMinor(charge, SAR), input.pricesIncludeVat, bp,
           ToMinor(tax.taxableAmount, SAR), ToMinor(tax.vatAmount, SAR))
      && tax.totalBeforeVat == tax.taxableAmount && tax.vatRate == input.vatRate
      && tax.totalAmount == tax.taxableAmount + tax.vatAmount
      && ToMinor(tax.facilitatedValue, SAR) ==
           if input.treatment.AgentFeeOnly? then ToMinor(input.subtotalAmount, SAR) else 0
  {
    RateIsInBasisPoints(input.vatRate);
    assert bp == RateBasisPoints(input.vatRate);
    TaxIsConserved(input);
    SplitIs(ToMinor(QiftCharge(input), SAR), input.pricesIncludeVat, bp);
    var split := SplitCharge(ToMinor(QiftCharge(input), SAR), input.pricesIncludeVat, bp).value;
    MinorRoundTrip(split.net, SAR);
    MinorRoundTrip(split.vat, SAR);
    MinorRoundTrip(ToMinor(input.subtotalAmount, SAR), SAR);
  }

  // Re-reading an exclusive total as a VAT-inclusive price changes nothing.
  lemma InclusiveAgreesWithExclusive(fee: real, rate: Rate)
    requires ToMinor(fee, SAR) >= 0
    ensures
      var exclusive := ComputeTax(TaxInput(0.0, fee, AgentFeeOnly, false, rate));
      exclusive.Success? &&
      ComputeTax(TaxInput(0.0, exclusive.value.totalAmount, AgentFeeOnly, true, rate)) == exclusive
  {
    var bp := RateBasisPoints(rate);
    var net := ToMinor(fee, SAR);
    var vat := VatOnMinor(net, bp).value;
    AddThenExtract(net, bp, vat);
    MinorRoundTrip(net + vat, SAR);
  }

  // ── The merchant goods leg ────────────────────────────────────────

  datatype GoodsTax = GoodsTax(
    registered: bool, taxableAmount: real, vatRate: real, vatAmount: real, totalAmount: real)

  function ComputeMerchantGoodsTax(
    goods: real, vatRegistered: bool, pricesIncludeVat: bool, vatRate: Rate): Result<GoodsTax>
  {
    if !vatRegistered then
      var total := RoundMoney(goods, SAR);
      Success(GoodsTax(false, total, 0.0, 0.0, total))
    else
      var split :- SplitCharge(ToMinor(goods, SAR), pricesIncludeVat, RateBasisPoints(vatRate));
      Success(GoodsTax(true, FromMinor(split.net, SAR), vatRate, FromMinor(split.vat, SAR), FromMinor(split.total, SAR)))
  }

  // Column by column, what a goods invoice freezes.
  predicate TaxesGoods(tax: GoodsTax, goods: real, registered: bool, inclusive: bool, rate: real, bp: int) {
    && tax.registered == registered && tax.totalAmount == tax.taxableAmount + tax.vatAmount
    && if registered then
         && tax.vatRate == rate
         && Splits(ToMinor(goods, SAR), inclusive, bp, ToMinor(tax.taxableAmount, SAR), ToMinor(tax.vatAmount, SAR))
       else tax.vatRate == 0.0 && tax.vatAmount == 0.0 && ToMinor(tax.taxableAmount, SAR) == ToMinor(goods, SAR)
  }

  lemma GoodsTaxIs(goods: real, registered: bool, inclusive: bool, rate: Rate, bp: int)
    requires InBasisPoints(rate, bp) && ComputeMerchantGoodsTax(goods, registered, inclusive, rate).Success?
    ensures TaxesGoods(
      ComputeMerchantGoodsTax(goods, registered, inclusive, rate).value, goods, registered, inclusive, rate, bp)
  {
    RateIsInBasisPoints(rate);
    assert bp == RateBasisPoints(rate);
    var minor := ToMinor(goods, SAR);
    if registered {
      SplitIs(minor, inclusive, bp);
      var split := SplitCharge(minor, inclusive, bp).value;
      FromMinorAdds(split.net, split.vat, SAR);
      MinorRoundTrip(split.net, SAR);
      MinorRoundTrip(split.vat, SAR);
    } else {
      MinorRoundTrip(minor, SAR);
    }
  }

  // What the company owes the merchant. VAT moves the total only for a
  // registered merchant with exclusive prices, and then by exactly the half-up
  // VAT on the goods.
  lemma MerchantTotal(goods: real, registered: bool, inclusive: bool, rate: Rate)
    requires ToMinor(goods, SAR) >= 0
    ensures
      var tax := ComputeMerchantGoodsTax(goods, registered, inclusive, rate);
      && tax.Success?
      && tax.value.totalAmount == tax.value.taxableAmount + tax.value.vatAmount
      && (registered && !inclusive ==>
           exists vat :: IsHalfUp(ToMinor(goods, SAR) * RateBasisPoints(rate), RATE_SCALE, vat)
                      && tax.value.totalAmount == FromMinor(ToMinor(goods, SAR) + vat, SAR))
      && (!(registered && !inclusive) ==> tax.value.totalAmount == RoundMoney(goods, SAR))
      && (!registered ==> tax.value.vatAmount == 0.0)
  {
    var minor := ToMinor(goods, SAR);
    var bp := RateBasisPoints(rate);
    if registered {
      var split := SplitCharge(minor, inclusive, bp).value;
      FromMinorAdds(split.net, split.vat, SAR);
      VatIsHalfUp(minor, bp, VatOnMinor(minor, bp).value);
    }
  }
}
