// The money policy (src/fees/money.ts): every computation happens in integer
// minor units. Major-unit amounts are modelled as exact reals; binary rounding
// is not part of this model.

module Money {

  datatype Currency = SAR | AED | QAR | BHD | KWD | OMR

  function Scale(c: Currency): (scale: int)
    ensures scale == 100 || scale == 1000
  {
    match c
    case SAR => 100
    case AED => 100
    case QAR => 100
    case BHD => 1000
    case KWD => 1000
    case OMR => 1000
  }

  // JavaScript's Math.round: halves go up.
  function Round(x: real): int {
    (x + 0.5).Floor
  }

  function ToMinor(amount: real, c: Currency): int {
    Round(amount * Scale(c) as real)
  }

  function FromMinor(minor: int, c: Currency): real {
    minor as real / Scale(c) as real
  }

  function RoundMoney(amount: real, c: Currency): real {
    FromMinor(ToMinor(amount, c), c)
  }

  // The sum of the addends' minor units: the accumulator of the reduction.
  function SumMinor(amounts: seq<real>, c: Currency): int {
    if amounts == [] then 0
    else SumMinor(amounts[..|amounts| - 1], c) + ToMinor(amounts[|amounts| - 1], c)
  }

  function AddMoney(amounts: seq<real>, c: Currency): real {
    FromMinor(SumMinor(amounts, c), c)
  }

  function MulMoney(unitAmount: real, count: int, c: Currency): real {
    FromMinor(ToMinor(unitAmount, c) * count, c)
  }

  // An amount with no digits below the minor unit.
  predicate OnGrid(amount: real, c: Currency) {
    FromMinor(ToMinor(amount, c), c) == amount
  }

  // ── Rounding ──────────────────────────────────────────────────────

  // Minor units survive the trip through the wire format unchanged.
  lemma MinorRoundTrip(minor: int, c: Currency)
    ensures ToMinor(FromMinor(minor, c), c) == minor
  {
    assert FromMinor(minor, c) * Scale(c) as real == minor as real;
    assert (minor as real + 0.5).Floor == minor;
  }

  // Rounding picks the one minor-unit amount within half a unit, halves going up.
  lemma RoundingIsHalfUp(amount: real, minor: int, c: Currency)
    ensures ToMinor(amount, c) == minor
       <==> minor as real - 0.5 <= amount * Scale(c) as real < minor as real + 0.5
  {
    var shifted := amount * Scale(c) as real + 0.5;
    assert shifted.Floor as real <= shifted < shifted.Floor as real + 1.0;
  }

  lemma RoundMoneyIsIdempotent(amount: real, c: Currency)
    ensures OnGrid(RoundMoney(amount, c), c)
    ensures RoundMoney(RoundMoney(amount, c), c) == RoundMoney(amount, c)
  {
    MinorRoundTrip(ToMinor(amount, c), c);
  }

  // ── Exact sums ────────────────────────────────────────────────────

  lemma {:induction false} SumConcat(a: seq<real>, b: seq<real>, c: Currency)
    ensures SumMinor(a + b, c) == SumMinor(a, c) + SumMinor(b, c)
  {
    if b == [] {
      assert a + b == a;
    } else {
      var n := |b| - 1;
      assert (a + b)[..|a + b| - 1] == a + b[..n];
      SumConcat(a, b[..n], c);
    }
  }

  lemma SumSingleton(x: real, c: Currency)
    ensures SumMinor([x], c) == ToMinor(x, c)
  {
    assert [x][..0] == [];
    assert SumMinor([x][..0], c) == 0;
  }

  lemma SumWithout(b: seq<real>, k: nat, c: Currency)
    requires k < |b|
    ensures SumMinor(b, c) == SumMinor(b[..k] + b[k + 1..], c) + ToMinor(b[k], c)
    ensures multiset(b[..k] + b[k + 1..]) == multiset(b) - multiset{b[k]}
  {
    assert b == b[..k] + [b[k]] + b[k + 1..];
    SumConcat(b[..k] + [b[k]], b[k + 1..], c);
    SumConcat(b[..k], [b[k]], c);
    SumConcat(b[..k], b[k + 1..], c);
    SumSingleton(b[k], c);
  }

  // Order does not matter.
  lemma {:induction false} SumIgnoresOrder(a: seq<real>, b: seq<real>, c: Currency)
    requires multiset(a) == multiset(b)
    ensures SumMinor(a, c) == SumMinor(b, c)
    ensures AddMoney(a, c) == AddMoney(b, c)
    decreases |a|
  {
    assert |multiset(a)| == |a| && |multiset(b)| == |b|;
    if a != [] {
      var n := |a| - 1;
      assert a[n] in multiset(b);
      var k :| 0 <= k < |b| && b[k] == a[n];
      SumWithout(b, k, c);
      SumWithout(a, n, c);
      assert a[..n] + a[n + 1..] == a[..n];
      SumIgnoresOrder(a[..n], b[..k] + b[k + 1..], c);
    }
  }

  // Neither does grouping: summing partial sums is summing everything.
  lemma SumIgnoresGrouping(a: seq<real>, b: seq<real>, c: Currency)
    ensures AddMoney([AddMoney(a, c), AddMoney(b, c)], c) == AddMoney(a + b, c)
  {
    SumConcat(a, b, c);
    MinorRoundTrip(SumMinor(a, c), c);
    MinorRoundTrip(SumMinor(b, c), c);
    SumConcat([AddMoney(a, c)], [AddMoney(b, c)], c);
    assert [AddMoney(a, c)] + [AddMoney(b, c)] == [AddMoney(a, c), AddMoney(b, c)];
    SumSingleton(AddMoney(a, c), c);
    SumSingleton(AddMoney(b, c), c);
  }

  // On amounts that are whole minor units the sum is the sum of the reals.
  lemma {:induction false} SumIsExactOnGrid(amounts: seq<real>, c: Currency)
    requires forall x :: x in amounts ==> OnGrid(x, c)
    ensures AddMoney(amounts, c) == RealSum(amounts)
  {
    if amounts != [] {
      var n := |amounts| - 1;
      assert OnGrid(amounts[n], c);
      SumIsExactOnGrid(amounts[..n], c);
      FromMinorAdds(SumMinor(amounts[..n], c), ToMinor(amounts[n], c), c);
    }
  }

  function RealSum(amounts: seq<real>): real {
    if amounts == [] then 0.0
    else RealSum(amounts[..|amounts| - 1]) + amounts[|amounts| - 1]
  }

  lemma FromMinorAdds(x: int, y: int, c: Currency)
    ensures FromMinor(x + y, c) == FromMinor(x, c) + FromMinor(y, c)
  {
  }

  // ── Exact multiples ───────────────────────────────────────────────

  lemma {:induction false} SumOfCopies(x: real, n: nat, c: Currency)
    ensures SumMinor(seq(n, _ => x), c) == ToMinor(x, c) * n
  {
    if n > 0 {
      var copies := seq(n, _ => x);
      assert copies[..n - 1] == seq(n - 1, _ => x);
      SumOfCopies(x, n - 1, c);
      assert ToMinor(x, c) * (n - 1) + ToMinor(x, c) == ToMinor(x, c) * n;
    }
  }

  // A multiple is the n-fold sum of its unit amount.
  lemma MulIsRepeatedAdd(unitAmount: real, n: nat, c: Currency)
    ensures MulMoney(unitAmount, n, c) == AddMoney(seq(n, _ => unitAmount), c)
  {
    SumOfCopies(unitAmount, n, c);
  }
}
