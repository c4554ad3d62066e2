/** The lease amortisation schedule.  Amounts are real numbers of cents, so that
    rounding to two places is rounding to a whole cent; rates are fractions. */
module LeaseSchedule {
  import opened Money
  import Algebra

  /** Rounded to 10^-places: scale is 10^places. */
  function RoundTo(x: real, scale: real): real
    requires scale > 0.0
  {
    RoundReal(x * scale) as real / scale
  }

  function Cents(x: real): real {
    RoundReal(x) as real
  }

  const SCALE_12 := 1000000000000.0
  const SCALE_16 := 10000000000000000.0

  function MonthlyRate(annualRate: real): real {
    RoundTo(annualRate / 12.0, SCALE_16)
  }

  /** One month's discounting, rounded to twelve places. */
  function NextFactor(df: real, r: real): real
    requires r >= 0.0
  {
    RoundTo(df / (1.0 + r), SCALE_12)
  }

  function Discounted(payment: real, df: real): real {
    payment * df
  }

  function Interest(opening: real, r: real): real {
    Cents(opening * r)
  }

  function Even(total: real, n: nat): real
    requires n > 0
  {
    total / n as real
  }

  function Factor(r: real, i: nat): real
    requires r >= 0.0
  {
    if i == 0 then 1.0 else NextFactor(Factor(r, i - 1), r)
  }

  function DiscountedSum(payment: real, r: real, n: nat): real
    requires r >= 0.0
  {
    if n == 0 then 0.0 else DiscountedSum(payment, r, n - 1) + Discounted(payment, Factor(r, n))
  }

  function PresentValue(payment: real, r: real, n: nat): real
    requires r >= 0.0
  {
    Cents(DiscountedSum(payment, r, n))
  }

  /** The liability before payment k + 1, for every k below the term. */
  function Opening(payment: real, r: real, pv: real, k: nat): real {
    if k == 0 then pv
    else Opening(payment, r, pv, k - 1) - (payment - Interest(Opening(payment, r, pv, k - 1), r))
  }

  /** x added n times. */
  function Repeat(n: nat, x: real): real {
    if n == 0 then 0.0 else Repeat(n - 1, x) + x
  }

  datatype Row = Row(period: int, opening: real, interest: real, payment: real, principal: real,
                     closing: real, depreciation: real)

  /** What the schedule holds for month k of n. */
  function RowAt(payment: real, r: real, pv: real, n: nat, start: int, k: nat): Row
    requires k < n
  {
    var o := Opening(payment, r, pv, k);
    var interest := Interest(o, r);
    var principal := if k == n - 1 then o else payment - interest;
    var each := Cents(Even(pv, n));
    Row(start + k, o, interest, interest + principal, principal, o - principal,
        if k == n - 1 then pv - Repeat(n - 1, each) else each)
  }

  predicate IsSchedule(rows: seq<Row>, payment: real, r: real, pv: real, n: nat, start: int) {
    |rows| == n && forall k :: 0 <= k < n ==> rows[k] == RowAt(payment, r, pv, n, start, k)
  }

  lemma {:induction false} NoDiscountAtZero(i: nat)
    ensures Factor(0.0, i) == 1.0
  {
    if i > 0 {
      NoDiscountAtZero(i - 1);
      RoundRealWhole(SCALE_12, 1000000000000);
    }
  }

  /** Periods are months counted from an origin. */
  method BuildLeaseSchedule(payment: real, annualRate: real, term: nat, start: int)
    returns (pv: real, rows: seq<Row>)
    requires annualRate >= 0.0 && term >= 1
    ensures MonthlyRate(annualRate) >= 0.0 && pv == PresentValue(payment, MonthlyRate(annualRate), term)
    ensures IsSchedule(rows, payment, MonthlyRate(annualRate), pv, term, start)
    ensures payment >= 0.0 ==> Within(pv - payment * Annuity(annualRate / 12.0, term), RecognitionError(payment, term))
    ensures payment >= 0.0 ==> AtAnnualRate(rows, payment, annualRate, pv, start)
  {
    hide AtAnnualRate;
    if payment >= 0.0 {
      PresentValueNear(payment, annualRate, term);
    }
    hide Annuity, RecognitionError;
    var monthly := MonthlyRate(annualRate);
    assert monthly >= 0.0 by {
      RoundRealNearest(annualRate / 12.0 * SCALE_16);
    }
    pv := 0.0;
    var df := 1.0;
    for i := 0 to term
      invariant df == Factor(monthly, i)
      invariant pv == DiscountedSum(payment, monthly, i)
    {
      if monthly == 0.0 {
        NoDiscountAtZero(i);
        NoDiscountAtZero(i + 1);
        pv := pv + payment;
      } else {
        df := NextFactor(df, monthly);
        pv := pv + Discounted(payment, df);
      }
    }
    pv := Cents(pv);
    rows := Amortise(payment, monthly, pv, term, start);
    if payment >= 0.0 {
      ScheduleAtAnnualRate(rows, payment, annualRate, term, start);
    }
  }

  method Amortise(payment: real, monthly: real, pv: real, term: nat, start: int) returns (rows: seq<Row>)
    requires term >= 1
    ensures IsSchedule(rows, payment, monthly, pv, term, start)
  {
    var each := Cents(Even(pv, term));
    var opening, accumulated := pv, 0.0;
    rows := [];
    for i := 0 to term
      invariant |rows| == i
      invariant i < term ==> opening == Opening(payment, monthly, pv, i)
      invariant i < term ==> accumulated == Repeat(i, each)
      invariant forall k :: 0 <= k < i ==> rows[k] == RowAt(payment, monthly, pv, term, start, k)
    {
      var interest := Interest(opening, monthly);
      var principal, depreciation := payment - interest, each;
      if i == term - 1 {
        principal := opening;
        depreciation := pv - accumulated;
      }
      var closing := opening - principal;
      accumulated := accumulated + depreciation;
      rows := rows + [Row(start + i, opening, interest, interest + principal, principal, closing, depreciation)];
      opening := closing;
    }
  }

  // ----- the schedule closes

  function PrincipalTo(rows: seq<Row>, n: nat): real
    requires n <= |rows|
  {
    if n == 0 then 0.0 else PrincipalTo(rows, n - 1) + rows[n - 1].principal
  }

  function DepreciationTo(rows: seq<Row>, n: nat): real
    requires n <= |rows|
  {
    if n == 0 then 0.0 else DepreciationTo(rows, n - 1) + rows[n - 1].depreciation
  }

  lemma {:induction false} PrincipalSoFar(rows: seq<Row>, payment: real, r: real, pv: real, n: nat, start: int, k: nat)
    requires IsSchedule(rows, payment, r, pv, n, start) && k < n
    ensures PrincipalTo(rows, k) == pv - Opening(payment, r, pv, k)
    ensures DepreciationTo(rows, k) == Repeat(k, Cents(Even(pv, n)))
  {
    if k > 0 {
      PrincipalSoFar(rows, payment, r, pv, n, start, k - 1);
      assert rows[k - 1] == RowAt(payment, r, pv, n, start, k - 1);
    }
  }

  /** Each opening is the previous closing, every payment is interest plus
      principal, the principals repay exactly the recognised liability, it closes
      at zero, and depreciation adds up to the right-of-use asset. */
  lemma ScheduleCloses(rows: seq<Row>, payment: real, r: real, pv: real, n: nat, start: int)
    requires IsSchedule(rows, payment, r, pv, n, start) && n >= 1
    ensures forall k :: 1 <= k < n ==> rows[k].opening == rows[k - 1].closing
    ensures forall k :: 0 <= k < n ==> rows[k].payment == rows[k].interest + rows[k].principal
    ensures rows[0].opening == pv && rows[n - 1].closing == 0.0
    ensures PrincipalTo(rows, n) == pv && DepreciationTo(rows, n) == pv
  {
    forall k | 1 <= k < n
      ensures rows[k].opening == rows[k - 1].closing
    {
      assert rows[k] == RowAt(payment, r, pv, n, start, k);
      assert rows[k - 1] == RowAt(payment, r, pv, n, start, k - 1);
    }
    PrincipalSoFar(rows, payment, r, pv, n, start, n - 1);
    assert rows[n - 1] == RowAt(payment, r, pv, n, start, n - 1);
  }

  lemma {:induction false} RepeatIsProduct(n: nat, x: real)
    ensures Repeat(n, x) == n as real * x
  {
    if n > 0 {
      RepeatIsProduct(n - 1, x);
      assert n as real == (n - 1) as real + 1.0;
      Algebra.Times(x, (n - 1) as real, 1.0);
    }
  }

  lemma {:induction false} RepeatApart(n: nat, x: real, y: real, b: real)
    requires -b <= x - y <= b
    ensures -Repeat(n, b) <= Repeat(n, x) - Repeat(n, y) <= Repeat(n, b)
  {
    if n > 0 {
      RepeatApart(n - 1, x, y, b);
    }
  }

  /** The last depreciation absorbs at most half a cent per earlier month. */
  lemma LastDepreciation(rows: seq<Row>, payment: real, r: real, pv: real, n: nat, start: int)
    requires IsSchedule(rows, payment, r, pv, n, start) && n >= 1
    ensures var bound := (n - 1) as real * 0.5;
            -bound <= rows[n - 1].depreciation - Even(pv, n) <= bound
  {
    hide Opening, Interest, RoundReal, Even;
    var even := Even(pv, n);
    assert rows[n - 1] == RowAt(payment, r, pv, n, start, n - 1);
    EvenTimes(pv, n);
    CentsNear(even);
    RepeatApart(n - 1, Cents(even), even, 0.5);
    RepeatIsProduct(n - 1, 0.5);
    RepeatIsProduct(n, even);
  }

  lemma EvenTimes(total: real, n: nat)
    requires n > 0
    ensures n as real * Even(total, n) == total
  {
    Algebra.DivideBack(total, n as real);
  }

  // ----- how far rounding can push the final payment

  function Pow(x: real, n: nat): real {
    if n == 0 then 1.0 else x * Pow(x, n - 1)
  }

  /** Sum of the first n powers. */
  function Geometric(x: real, n: nat): real {
    if n == 0 then 0.0 else Geometric(x, n - 1) + Pow(x, n - 1)
  }

  lemma {:induction false} GeometricStep(x: real, n: nat)
    ensures Geometric(x, n + 1) == x * Geometric(x, n) + 1.0
  {
    if n > 0 {
      GeometricStep(x, n - 1);
      Algebra.Times(x, Geometric(x, n - 1), Pow(x, n - 1));
    }
  }

  /** The exact discount factor, and the exact annuity of n unit payments. */
  function Discount(r: real, i: nat): real
    requires r >= 0.0
  {
    if i == 0 then 1.0 else Discount(r, i - 1) / (1.0 + r)
  }

  function SumOf(f: nat -> real, n: nat): real {
    if n == 0 then 0.0 else SumOf(f, n - 1) + f(n)
  }

  function Weighted(p: real, f: nat -> real, n: nat): real {
    if n == 0 then 0.0 else Weighted(p, f, n - 1) + p * f(n)
  }

  function Annuity(r: real, n: nat): real
    requires r >= 0.0
  {
    SumOf((i: nat) => Discount(r, i), n)
  }

  lemma AnnuityArith(a: real, a0: real, d: real, d0: real, q: real)
    requires q > 0.0 && d == d0 / q && a * q == a0 + 1.0 && a == a0 + d0
    ensures (a + d) * q == a + 1.0
  {
    Algebra.DivideBack(d0, q);
    Algebra.Times(q, a, d);
  }

  lemma {:induction false} AnnuityStep(r: real, n: nat)
    requires r >= 0.0 && n >= 1
    ensures Annuity(r, n) * (1.0 + r) == Annuity(r, n - 1) + 1.0
  {
    if n == 1 {
      Algebra.DivideBack(1.0, 1.0 + r);
    } else {
      AnnuityStep(r, n - 1);
      AnnuityArith(Annuity(r, n - 1), Annuity(r, n - 2), Discount(r, n), Discount(r, n - 1), 1.0 + r);
    }
  }

  const HALF_ULP := 0.5 / SCALE_12

  lemma NextFactorNearest(df: real, r: real)
    requires r >= 0.0
    ensures -HALF_ULP <= NextFactor(df, r) - df / (1.0 + r) <= HALF_ULP
  {
    RoundRealNearest(df / (1.0 + r) * SCALE_12);
  }

  lemma {:induction false} FactorError(r: real, i: nat)
    requires r >= 0.0
    ensures 0.0 <= Repeat(i, HALF_ULP)
    ensures -Repeat(i, HALF_ULP) <= Factor(r, i) - Discount(r, i) <= Repeat(i, HALF_ULP)
  {
    if i > 0 {
      FactorError(r, i - 1);
      NextFactorNearest(Factor(r, i - 1), r);
      Algebra.Shrink(Factor(r, i - 1), Discount(r, i - 1), 1.0 + r, Repeat(i - 1, HALF_ULP));
    }
  }

  /** (1 + 2 + ... + n) times half the last discounting place. */
  function Triangle(n: nat): real {
    SumOf((i: nat) => Repeat(i, HALF_ULP), n)
  }

  lemma {:induction false} TriangleClosed(n: nat)
    ensures Triangle(n) == (n * (n + 1)) as real / 2.0 * HALF_ULP
  {
    if n > 0 {
      TriangleClosed(n - 1);
      RepeatIsProduct(n, HALF_ULP);
      assert n * (n + 1) == (n - 1) * n + 2 * n;
    }
  }

  lemma {:induction false} WeightedIsProduct(p: real, f: nat -> real, n: nat)
    ensures Weighted(p, f, n) == p * SumOf(f, n)
  {
    if n > 0 {
      WeightedIsProduct(p, f, n - 1);
      Algebra.Times(p, SumOf(f, n - 1), f(n));
    }
  }

  lemma {:induction false} WeightedError(p: real, f: nat -> real, d: nat -> real, b: nat -> real, n: nat)
    requires p >= 0.0 && forall i: nat :: 1 <= i <= n ==> -b(i) <= f(i) - d(i) <= b(i)
    ensures -Weighted(p, b, n) <= Weighted(p, f, n) - Weighted(p, d, n) <= Weighted(p, b, n)
  {
    if n > 0 {
      WeightedError(p, f, d, b, n - 1);
      Algebra.WeightedStep(p, f(n), d(n), b(n));
    }
  }

  lemma {:induction false} DiscountedSumIsWeighted(payment: real, r: real, n: nat)
    requires r >= 0.0
    ensures DiscountedSum(payment, r, n) == Weighted(payment, (i: nat) => Factor(r, i), n)
  {
    hide Factor;
    if n > 0 {
      DiscountedSumIsWeighted(payment, r, n - 1);
    }
  }

  lemma SumError(payment: real, r: real, n: nat)
    requires payment >= 0.0 && r >= 0.0
    ensures -(payment * Triangle(n)) <= DiscountedSum(payment, r, n) - payment * Annuity(r, n) <= payment * Triangle(n)
  {
    hide Factor, Discount, Repeat, Weighted, DiscountedSum, SumOf;
    var f, d, b := (i: nat) => Factor(r, i), (i: nat) => Discount(r, i), (i: nat) => Repeat(i, HALF_ULP);
    forall i: nat | 1 <= i <= n
      ensures -b(i) <= f(i) - d(i) <= b(i)
    {
      FactorError(r, i);
    }
    WeightedError(payment, f, d, b, n);
    DiscountedSumIsWeighted(payment, r, n);
    WeightedIsProduct(payment, d, n);
    WeightedIsProduct(payment, b, n);
  }

  /** How far the recognised liability can be from the exact present value: half
      a cent, and P n(n+1)/4 10^-12. */
  function InitialError(payment: real, n: nat): real {
    0.5 + payment * ((n * (n + 1)) as real / 2.0 * HALF_ULP)
  }

  lemma CentsNear(x: real)
    ensures -0.5 <= Cents(x) - x <= 0.5
  {
    RoundRealNearest(x);
  }

  lemma InitialDrift(payment: real, r: real, n: nat)
    requires payment >= 0.0 && r >= 0.0
    ensures -InitialError(payment, n) <= PresentValue(payment, r, n) - payment * Annuity(r, n) <= InitialError(payment, n)
  {
    hide DiscountedSum, Annuity, Triangle, Cents;
    SumError(payment, r, n);
    CentsNear(DiscountedSum(payment, r, n));
    TriangleClosed(n);
    Algebra.Same(payment, Triangle(n), (n * (n + 1)) as real / 2.0 * HALF_ULP);
  }

  /** One compounded rounding a month on top of it. */
  function DriftBound(initial: real, r: real, k: nat): real {
    if k == 0 then initial else (1.0 + r) * DriftBound(initial, r, k - 1) + 0.5
  }

  lemma PowerOf(initial: real, r: real, k: nat)
    ensures Pow(1.0 + r, k + 1) == (1.0 + r) * Pow(1.0 + r, k)
    ensures DriftBound(initial, r, k + 1) == (1.0 + r) * DriftBound(initial, r, k) + 0.5
  {
  }

  predicate Closed(initial: real, r: real, k: nat) {
    DriftBound(initial, r, k) == Pow(1.0 + r, k) * initial + 0.5 * Geometric(1.0 + r, k)
  }

  lemma ClosedStep(initial: real, r: real, k: nat)
    requires Closed(initial, r, k)
    ensures Closed(initial, r, k + 1)
  {
    hide Pow, Geometric, DriftBound;
    var q := 1.0 + r;
    PowerOf(initial, r, k);
    GeometricStep(q, k);
    Algebra.Compound(q, Pow(q, k), initial, Geometric(q, k), DriftBound(initial, r, k), Pow(q, k + 1), Geometric(q, k + 1));
  }

  lemma {:induction false} DriftBoundClosed(initial: real, r: real, k: nat)
    ensures Closed(initial, r, k)
  {
    if k > 0 {
      DriftBoundClosed(initial, r, k - 1);
      ClosedStep(initial, r, k - 1);
    }
  }

  /** The exact liability after k payments of p, out of b0 at the start. */
  function Exact(p: real, r: real, b0: real, k: nat): real {
    if k == 0 then b0 else Exact(p, r, b0, k - 1) * (1.0 + r) - p
  }

  /** n payments of p repay the exact present value exactly. */
  lemma {:induction false} ExactIsAnnuity(p: real, r: real, n: nat, k: nat)
    requires r >= 0.0 && k <= n
    ensures Exact(p, r, p * Annuity(r, n), k) == p * Annuity(r, n - k)
  {
    hide Annuity;
    if k > 0 {
      ExactIsAnnuity(p, r, n, k - 1);
      AnnuityStep(r, n - k + 1);
      Algebra.ExactStep(p, Annuity(r, n - k + 1), Annuity(r, n - k), 1.0 + r);
    }
  }

  predicate Within(x: real, b: real) {
    -b <= x <= b
  }

  lemma DriftMonth(payment: real, r: real, pv: real, b0: real, d0: real, k: nat)
    requires r >= 0.0 && k > 0
    requires Within(Opening(payment, r, pv, k - 1) - Exact(payment, r, b0, k - 1), DriftBound(d0, r, k - 1))
    ensures Within(Opening(payment, r, pv, k) - Exact(payment, r, b0, k), DriftBound(d0, r, k))
  {
    hide Opening, Exact, DriftBound, Interest;
    var o, e, b := Opening(payment, r, pv, k - 1), Exact(payment, r, b0, k - 1), DriftBound(d0, r, k - 1);
    MonthOf(payment, r, pv, b0, d0, k);
    InterestNear(o, r);
    Algebra.DriftStep(o, e, Interest(o, r), payment, r, b);
  }

  lemma {:induction false} DriftOfSchedule(payment: real, r: real, pv: real, b0: real, d0: real, k: nat)
    requires r >= 0.0 && -d0 <= pv - b0 <= d0
    ensures Within(Opening(payment, r, pv, k) - Exact(payment, r, b0, k), DriftBound(d0, r, k))
  {
    if k > 0 {
      DriftOfSchedule(payment, r, pv, b0, d0, k - 1);
      DriftMonth(payment, r, pv, b0, d0, k);
    }
  }

  lemma InterestNear(o: real, r: real)
    ensures -0.5 <= Interest(o, r) - o * r <= 0.5
  {
    CentsNear(o * r);
  }

  lemma MonthOf(payment: real, r: real, pv: real, b0: real, d0: real, k: nat)
    requires k > 0
    ensures var o := Opening(payment, r, pv, k - 1);
            Opening(payment, r, pv, k) == o - (payment - Interest(o, r))
    ensures Exact(payment, r, b0, k) == Exact(payment, r, b0, k - 1) * (1.0 + r) - payment
    ensures DriftBound(d0, r, k) == (1.0 + r) * DriftBound(d0, r, k - 1) + 0.5
  {
    hide Interest;
  }

  /** The liability an n-th ordinary payment would leave is within the bound. */
  lemma OpeningDrift(payment: real, r: real, n: nat)
    requires payment >= 0.0 && r >= 0.0
    ensures var b := DriftBound(InitialError(payment, n), r, n);
            -b <= Opening(payment, r, PresentValue(payment, r, n), n) <= b
  {
    InitialDrift(payment, r, n);
    ExactIsAnnuity(payment, r, n, n);
    assert Annuity(r, 0) == 0.0;
    hide Opening, Exact, DriftBound, Annuity, PresentValue, InitialError;
    DriftOfSchedule(payment, r, PresentValue(payment, r, n), payment * Annuity(r, n), InitialError(payment, n), n);
  }

  /** What the last payment has over the contract is what an ordinary one would
      have left unpaid. */
  lemma LastPaymentIsOpening(rows: seq<Row>, payment: real, r: real, pv: real, n: nat, start: int)
    requires IsSchedule(rows, payment, r, pv, n, start) && n >= 1
    ensures rows[n - 1].payment - payment == Opening(payment, r, pv, n)
  {
    assert rows[n - 1] == RowAt(payment, r, pv, n, start, n - 1);
  }

  /** (1+r)^n times the initial error, plus half a cent per compounded month. */
  function FinalBound(payment: real, r: real, n: nat): real {
    Pow(1.0 + r, n) * InitialError(payment, n) + 0.5 * Geometric(1.0 + r, n)
  }

  lemma FinalBoundIs(payment: real, r: real, n: nat)
    ensures DriftBound(InitialError(payment, n), r, n) == FinalBound(payment, r, n)
  {
    hide InitialError, Pow, Geometric, DriftBound;
    DriftBoundClosed(InitialError(payment, n), r, n);
  }

  /** The final payment, which absorbs every rounding, differs from the contract
      payment by no more than that. */
  lemma FinalPaymentDrift(rows: seq<Row>, payment: real, r: real, n: nat, start: int)
    requires payment >= 0.0 && r >= 0.0 && n >= 1
    requires IsSchedule(rows, payment, r, PresentValue(payment, r, n), n, start)
    ensures Within(rows[n - 1].payment - payment, FinalBound(payment, r, n))
  {
    hide Opening, PresentValue, InitialError, FinalBound, DriftBound, RowAt;
    OpeningDrift(payment, r, n);
    LastPaymentIsOpening(rows, payment, r, PresentValue(payment, r, n), n, start);
    FinalBoundIs(payment, r, n);
  }

  // ----- in terms of the annual rate

  /** The monthly rate is a twelfth of the annual one, to sixteen places. */
  lemma MonthlyRateIs(annualRate: real)
    ensures -0.000_000_000_000_000_6 <= 12.0 * MonthlyRate(annualRate) - annualRate <= 0.000_000_000_000_000_6
    ensures annualRate >= 0.0 ==> MonthlyRate(annualRate) >= 0.0
  {
    RoundRealNearest(annualRate / 12.0 * SCALE_16);
  }

  const HALF_RATE := 0.000_000_000_000_000_05

  lemma MonthlyRateNear(annualRate: real)
    ensures Within(MonthlyRate(annualRate) - annualRate / 12.0, HALF_RATE)
  {
    MonthlyRateIs(annualRate);
  }

  lemma {:induction false} DiscountRange(r: real, i: nat)
    requires r >= 0.0
    ensures 0.0 < Discount(r, i) <= 1.0
  {
    if i > 0 {
      DiscountRange(r, i - 1);
      Algebra.Quotient(Discount(r, i - 1), 1.0 + r);
    }
  }

  /** A rate that is a little off discounts by at most that much more a month. */
  lemma {:induction false} DiscountNear(r: real, q: real, e: real, i: nat)
    requires r >= 0.0 && q >= 0.0 && Within(r - q, e)
    ensures Within(Discount(r, i) - Discount(q, i), Repeat(i, e))
  {
    if i > 0 {
      DiscountNear(r, q, e, i - 1);
      DiscountRange(r, i - 1);
      DiscountRange(q, i - 1);
      Algebra.QuotientsNear(Discount(r, i - 1), Discount(q, i - 1), 1.0 + r, 1.0 + q, Repeat(i - 1, e), e);
    }
  }

  /** (1 + 2 + ... + n) times e. */
  function RateTriangle(e: real, n: nat): real {
    if n == 0 then 0.0 else RateTriangle(e, n - 1) + Repeat(n, e)
  }

  lemma {:induction false} RateTriangleIs(e: real, n: nat)
    ensures RateTriangle(e, n) == (n * (n + 1)) as real / 2.0 * e
  {
    if n > 0 {
      RateTriangleIs(e, n - 1);
      RepeatIsProduct(n, e);
      assert n * (n + 1) == (n - 1) * n + 2 * n;
    }
  }

  lemma {:induction false} AnnuityNear(r: real, q: real, e: real, n: nat)
    requires r >= 0.0 && q >= 0.0 && Within(r - q, e)
    ensures Within(Annuity(r, n) - Annuity(q, n), RateTriangle(e, n))
  {
    hide Discount;
    if n > 0 {
      AnnuityNear(r, q, e, n - 1);
      DiscountNear(r, q, e, n);
      AnnuitySnoc(r, n);
      AnnuitySnoc(q, n);
    }
  }

  lemma AnnuitySnoc(r: real, n: nat)
    requires r >= 0.0 && n > 0
    ensures Annuity(r, n) == Annuity(r, n - 1) + Discount(r, n)
  {
    hide Discount;
  }

  /** How far the recognised liability can be from the exact present value at a twelfth
      of the annual rate: half a cent, the rounding of the discount factors, and that of
      the rate. */
  function RecognitionError(payment: real, n: nat): real {
    InitialError(payment, n) + payment * RateTriangle(HALF_RATE, n)
  }

  lemma RecognitionErrorIs(payment: real, n: nat)
    ensures RecognitionError(payment, n)
            == 0.5 + payment * ((n * (n + 1)) as real / 2.0 * 0.000_000_000_000_5)
               + payment * ((n * (n + 1)) as real / 2.0 * 0.000_000_000_000_000_05)
  {
    RateTriangleIs(HALF_RATE, n);
    assert HALF_ULP == 0.000_000_000_000_5;
  }

  lemma PresentValueNear(payment: real, annualRate: real, n: nat)
    requires payment >= 0.0 && annualRate >= 0.0
    ensures MonthlyRate(annualRate) >= 0.0
    ensures Within(PresentValue(payment, MonthlyRate(annualRate), n) - payment * Annuity(annualRate / 12.0, n),
                   RecognitionError(payment, n))
  {
    hide PresentValue, Annuity, InitialError, MonthlyRate, RateTriangle;
    var r, q := MonthlyRate(annualRate), annualRate / 12.0;
    MonthlyRateIs(annualRate);
    MonthlyRateNear(annualRate);
    InitialDrift(payment, r, n);
    AnnuityNear(r, q, HALF_RATE, n);
    Algebra.ScaledNear(payment, Annuity(r, n), Annuity(q, n), RateTriangle(HALF_RATE, n));
  }

  lemma {:induction false} PowMonotone(x: real, y: real, n: nat)
    requires 0.0 <= x <= y
    ensures 0.0 <= Pow(x, n) <= Pow(y, n)
    ensures 0.0 <= Geometric(x, n) <= Geometric(y, n)
  {
    if n > 0 {
      PowMonotone(x, y, n - 1);
      Algebra.ProductsOrdered(x, y, Pow(x, n - 1), Pow(y, n - 1));
    }
  }

  lemma FinalBoundMonotone(payment: real, r: real, q: real, n: nat)
    requires payment >= 0.0 && 0.0 <= r <= q
    ensures FinalBound(payment, r, n) <= FinalBound(payment, q, n)
  {
    hide Pow, Geometric, InitialError;
    PowMonotone(1.0 + r, 1.0 + q, n);
    InitialErrorSign(payment, n);
    Algebra.ProductsOrdered(Pow(1.0 + r, n), Pow(1.0 + q, n), InitialError(payment, n), InitialError(payment, n));
  }

  lemma InitialErrorSign(payment: real, n: nat)
    requires payment >= 0.0
    ensures InitialError(payment, n) >= 0.0
  {
    assert n * (n + 1) >= 0;
    Algebra.ProductsOrdered(0.0, payment, 0.0, (n * (n + 1)) as real / 2.0 * HALF_ULP);
  }

  ghost predicate AtAnnualRate(rows: seq<Row>, payment: real, annualRate: real, pv: real, start: int) {
    var n := |rows|;
    && n >= 1
    && (forall k :: 0 <= k < n ==> rows[k].period == start + k && InterestFits(rows[k], annualRate))
    && (forall k :: 0 <= k < n - 1 ==> rows[k].payment == payment && Within(rows[k].depreciation - pv / n as real, 0.5))
    && Within(rows[n - 1].payment - payment, FinalBound(payment, annualRate / 12.0 + HALF_RATE, n))
  }

  /** What the schedule charges, in terms of the annual rate: every month's interest is
      a twelfth of it on the opening liability, to half a cent and the rate's rounding;
      every depreciation but the last is an equal share to half a cent; the months are
      consecutive; and the final payment differs from the contract payment by no more
      than the bound at a twelfth of the annual rate, rounded up in its last place. */
  lemma ScheduleAtAnnualRate(rows: seq<Row>, payment: real, annualRate: real, n: nat, start: int)
    requires payment >= 0.0 && annualRate >= 0.0 && n >= 1 && MonthlyRate(annualRate) >= 0.0
    requires IsSchedule(rows, payment, MonthlyRate(annualRate), PresentValue(payment, MonthlyRate(annualRate), n), n, start)
    ensures AtAnnualRate(rows, payment, annualRate, PresentValue(payment, MonthlyRate(annualRate), n), start)
    ensures forall k :: 0 <= k < n ==>
              && rows[k].period == start + k
              && Within(rows[k].interest - rows[k].opening * (annualRate / 12.0),
                        0.5 + (if rows[k].opening < 0.0 then -rows[k].opening else rows[k].opening) * 0.000_000_000_000_000_05)
    ensures forall k :: 0 <= k < n - 1 ==>
              && rows[k].payment == payment
              && Within(rows[k].depreciation - PresentValue(payment, MonthlyRate(annualRate), n) / n as real, 0.5)
    ensures Within(rows[n - 1].payment - payment, FinalBound(payment, annualRate / 12.0 + 0.000_000_000_000_000_05, n))
  {
    hide FinalBound, PresentValue, MonthlyRate, Opening, Interest;
    var r := MonthlyRate(annualRate);
    var pv := PresentValue(payment, r, n);
    MonthlyRateNear(annualRate);
    forall k | 0 <= k < n
      ensures rows[k].period == start + k && InterestFits(rows[k], annualRate)
      ensures k < n - 1 ==> rows[k].payment == payment && Within(rows[k].depreciation - pv / n as real, 0.5)
    {
      assert rows[k] == RowAt(payment, r, pv, n, start, k);
      InterestAtRate(Opening(payment, r, pv, k), r, annualRate);
      CentsNear(Even(pv, n));
    }
    FinalPaymentDrift(rows, payment, r, n, start);
    FinalBoundMonotone(payment, r, annualRate / 12.0 + HALF_RATE, n);
  }

  function Magnitude(x: real): real {
    if x < 0.0 then -x else x
  }

  /** The month's interest is a twelfth of the annual rate on its opening liability. */
  predicate InterestFits(row: Row, annualRate: real) {
    Within(row.interest - row.opening * (annualRate / 12.0), 0.5 + Magnitude(row.opening) * HALF_RATE)
  }

  lemma InterestAtRate(o: real, r: real, annualRate: real)
    requires Within(r - annualRate / 12.0, HALF_RATE)
    ensures Within(Interest(o, r) - o * (annualRate / 12.0), 0.5 + Magnitude(o) * HALF_RATE)
  {
    InterestNear(o, r);
    Algebra.RateNear(o, r, annualRate / 12.0, HALF_RATE);
  }
}
