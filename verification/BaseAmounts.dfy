/** Converting an entry to base currency at its one rate, line by line.  The comment
    on the booking primitive says base debits equal base credits whenever nominal
    ones do; the lines are rounded one by one, so that depends on the rate, and an
    entry that comes out unbalanced in base is refused when its booking commits. */
module BaseAmounts {
  import opened Ledger
  import opened Money
  import opened Settlement
  import J = Journal

  /** What a rate of one is worth: eight decimals for amounts in cents, ten for the
      four-place amounts the nominal columns also hold. */
  const CENTS := RATE_UNIT
  const FOUR_PLACES := 100 * RATE_UNIT

  /** A nominal amount to whole base cents. */
  function Convert(amount: int, rate: int, unit: int): int
    requires unit > 0
  {
    RoundDiv(amount * rate, unit)
  }

  /** The base side of a line can be set outright, in whole cents. */
  datatype Resolved = Resolved(line: Line, debitBase: Option<int>, creditBase: Option<int>)

  function Or(given: Option<int>, computed: int): int {
    if given.Some? then given.value else computed
  }

  function BaseAmount(l: Resolved, rate: int, unit: int): Line
    requires unit > 0
  {
    Line(l.line.account, Or(l.debitBase, Convert(l.line.debit, rate, unit)), Or(l.creditBase, Convert(l.line.credit, rate, unit)))
  }

  function Plain(lines: Entry): (r: seq<Resolved>)
    ensures |r| == |lines| && forall k :: 0 <= k < |r| ==> r[k] == Resolved(lines[k], None, None)
  {
    seq(|lines|, k requires 0 <= k < |lines| => Resolved(lines[k], None, None))
  }

  function BaseOf(lines: seq<Resolved>, rate: int, unit: int): (b: Entry)
    requires unit > 0
    ensures |b| == |lines| && forall k :: 0 <= k < |b| ==> b[k] == BaseAmount(lines[k], rate, unit)
  {
    seq(|lines|, k requires 0 <= k < |lines| => BaseAmount(lines[k], rate, unit))
  }

  /** What is stored for lines that set nothing themselves. */
  function BaseLines(lines: Entry, rate: int, unit: int): Entry
    requires unit > 0
  {
    BaseOf(Plain(lines), rate, unit)
  }

  /** The insert, a line at a time. */
  method InsertLines(lines: seq<Resolved>, rate: int, unit: int) returns (stored: Entry)
    requires unit > 0
    ensures stored == BaseOf(lines, rate, unit)
  {
    stored := [];
    for k := 0 to |lines|
      invariant |stored| == k && forall j :: 0 <= j < k ==> stored[j] == BaseAmount(lines[j], rate, unit)
    {
      var debit := Convert(lines[k].line.debit, rate, unit);
      if lines[k].debitBase.Some? {
        debit := lines[k].debitBase.value;
      }
      var credit := Convert(lines[k].line.credit, rate, unit);
      if lines[k].creditBase.Some? {
        credit := lines[k].creditBase.value;
      }
      stored := stored + [Line(lines[k].line.account, debit, credit)];
    }
  }

  lemma ConvertNear(amount: int, rate: int, unit: int)
    requires unit > 0
    ensures 2 * Abs(unit * Convert(amount, rate, unit) - amount * rate) <= unit
    ensures amount == 0 ==> Convert(amount, rate, unit) == 0
  {
    RoundDivNearest(amount * rate, unit);
    if amount == 0 {
      assert amount * rate == 0;
    }
  }

  // ----- how far base can be out

  /** One line's base difference is within half a cent of its exact value. */
  lemma LineNear(l: Line, rate: int, unit: int)
    requires unit > 0 && (l.debit == 0 || l.credit == 0)
    ensures var b := BaseAmount(Resolved(l, None, None), rate, unit);
            2 * Abs(unit * (b.debit - b.credit) - (l.debit - l.credit) * rate) <= unit
  {
    hide Convert;
    ConvertNear(l.debit, rate, unit);
    ConvertNear(l.credit, rate, unit);
    var d, c := Convert(l.debit, rate, unit), Convert(l.credit, rate, unit);
    assert unit * (d - c) == unit * d - unit * c;
    assert (l.debit - l.credit) * rate == l.debit * rate - l.credit * rate;
  }

  lemma AddNear(e: int, x: int, b: int, y: int, rate: int, unit: int, n: nat)
    requires unit > 0
    requires 2 * Abs(unit * e - x * rate) <= n * unit
    requires 2 * Abs(unit * b - y * rate) <= unit
    ensures 2 * Abs(unit * (e + b) - (x + y) * rate) <= (n + 1) * unit
  {
    assert (x + y) * rate == x * rate + y * rate;
    assert unit * (e + b) == unit * e + unit * b;
    assert (n + 1) * unit == n * unit + unit;
  }

  lemma {:induction false} ExcessNear(lines: Entry, rate: int, unit: int, n: nat)
    requires unit > 0 && OneSided(lines) && n <= |lines|
    ensures 2 * Abs(unit * ExcessTo(BaseLines(lines, rate, unit), n) - ExcessTo(lines, n) * rate) <= n * unit
  {
    hide Convert, Abs, BaseAmount;
    if n == 0 {
      NothingNear(rate, unit);
    } else {
      var l := lines[n - 1];
      var b := BaseAmount(Resolved(l, None, None), rate, unit);
      ExcessNear(lines, rate, unit, n - 1);
      LineNear(l, rate, unit);
      AddNear(ExcessTo(BaseLines(lines, rate, unit), n - 1), ExcessTo(lines, n - 1), b.debit - b.credit, l.debit - l.credit,
              rate, unit, n - 1);
      assert ExcessTo(BaseLines(lines, rate, unit), n) == ExcessTo(BaseLines(lines, rate, unit), n - 1) + (b.debit - b.credit);
      assert ExcessTo(lines, n) == ExcessTo(lines, n - 1) + (l.debit - l.credit);
    }
  }

  lemma NothingNear(rate: int, unit: int)
    ensures 2 * Abs(unit * 0 - 0 * rate) <= 0 * unit
  {
  }

  /** A balanced entry is out of balance in base by at most half a cent a line. */
  lemma BaseNearlyBalances(lines: Entry, rate: int, unit: int)
    requires unit > 0 && OneSided(lines) && Balanced(lines)
    ensures 2 * Abs(Excess(BaseLines(lines, rate, unit))) <= |lines|
  {
    hide Convert, Abs;
    ExcessNear(lines, rate, unit, |lines|);
    assert unit * Excess(BaseLines(lines, rate, unit)) - ExcessTo(lines, |lines|) * rate == unit * Excess(BaseLines(lines, rate, unit));
    CancelUnit(Excess(BaseLines(lines, rate, unit)), |lines|, unit);
  }

  lemma CancelUnit(e: int, n: nat, unit: int)
    requires unit > 0 && 2 * Abs(unit * e) <= n * unit
    ensures 2 * Abs(e) <= n
  {
    var k := 2 * Abs(e) - n;
    assert Abs(unit * e) == unit * Abs(e);
    assert unit * k == 2 * (unit * Abs(e)) - n * unit;
    if k >= 1 {
      AtLeast(unit, k);
    }
  }

  lemma AtLeast(unit: int, d: int)
    requires unit > 0 && d >= 1
    ensures unit * d >= unit
  {
    assert unit * d == unit + unit * (d - 1);
  }

  // ----- exactly which rates keep every entry in balance

  /** Base debits equal base credits for every entry whose nominal ones do. */
  ghost predicate KeepsBalance(rate: int, unit: int)
    requires unit > 0
  {
    forall lines :: OneSided(lines) && Balanced(lines) ==> Balanced(BaseLines(lines, rate, unit))
  }

  lemma Exactly(x: int, y: int, unit: int)
    requires unit > 0
    ensures 2 * Abs(unit * x - y * unit) <= unit ==> x == y
  {
    assert unit * x - y * unit == unit * (x - y) == -(unit * (y - x));
    if x > y {
      AtLeast(unit, x - y);
    } else if y > x {
      AtLeast(unit, y - x);
    }
  }

  lemma WholeRate(amount: int, r: int, unit: int)
    requires unit > 0
    ensures Convert(amount, r * unit, unit) == amount * r
  {
    hide Convert;
    assert amount * (r * unit) == (amount * r) * unit;
    ConvertNear(amount, r * unit, unit);
    Exactly(Convert(amount, r * unit, unit), amount * r, unit);
  }

  lemma {:induction false} WholeRateExcess(lines: Entry, r: int, unit: int, n: nat)
    requires unit > 0 && n <= |lines|
    ensures ExcessTo(BaseLines(lines, r * unit, unit), n) == ExcessTo(lines, n) * r
  {
    hide Convert;
    if n > 0 {
      var l := lines[n - 1];
      WholeRateExcess(lines, r, unit, n - 1);
      WholeRate(l.debit, r, unit);
      WholeRate(l.credit, r, unit);
      assert ExcessTo(lines, n) * r == ExcessTo(lines, n - 1) * r + l.debit * r - l.credit * r;
    }
  }

  function ThreeLines(a: int, b: int): Entry {
    [Dr(Cash, a + b), Cr(Revenue, a), Cr(OutputVat, b)]
  }

  lemma ThreeLinesExcess(x: Line, y: Line, z: Line)
    ensures Excess([x, y, z]) == x.debit - x.credit + y.debit - y.credit + z.debit - z.credit
  {
    NetSnoc([x, y], z, Cash);
    TwoLines(x, y, Cash);
    assert [x, y] + [z] == [x, y, z];
  }

  lemma ThreeLinesBase(a: int, b: int, rate: int, unit: int)
    requires unit > 0
    ensures Excess(BaseLines(ThreeLines(a, b), rate, unit))
            == Convert(a + b, rate, unit) - Convert(a, rate, unit) - Convert(b, rate, unit)
  {
    hide Convert, Excess;
    var base := BaseLines(ThreeLines(a, b), rate, unit);
    ConvertNear(0, rate, unit);
    assert base == [base[0], base[1], base[2]];
    ThreeLinesExcess(base[0], base[1], base[2]);
  }

  lemma ThreeLinesGood(a: int, b: int)
    requires a > 0 && b > 0
    ensures OneSided(ThreeLines(a, b)) && Balanced(ThreeLines(a, b))
  {
    var l := ThreeLines(a, b);
    ThreeLinesExcess(l[0], l[1], l[2]);
  }

  /** A rate that keeps three-line entries in balance converts sums to sums. */
  lemma Additive(rate: int, unit: int, a: int, b: int)
    requires unit > 0 && a > 0 && b > 0 && KeepsBalance(rate, unit)
    ensures Convert(a + b, rate, unit) == Convert(a, rate, unit) + Convert(b, rate, unit)
  {
    hide Convert, Excess, OneSided, ThreeLines, BaseLines;
    ThreeLinesGood(a, b);
    ThreeLinesBase(a, b, rate, unit);
  }

  lemma {:induction false} Multiples(rate: int, unit: int, n: nat)
    requires unit > 0 && n > 0 && KeepsBalance(rate, unit)
    ensures Convert(n, rate, unit) == n * Convert(1, rate, unit)
  {
    hide Convert, KeepsBalance;
    if n > 1 {
      Multiples(rate, unit, n - 1);
      Additive(rate, unit, n - 1, 1);
      assert n * Convert(1, rate, unit) == (n - 1) * Convert(1, rate, unit) + Convert(1, rate, unit);
    }
  }

  lemma UnitConverts(rate: int, unit: int, one: int)
    requires unit > 0 && Convert(unit, rate, unit) == unit * one
    ensures rate == one * unit
  {
    hide Convert;
    ConvertNear(unit, rate, unit);
    assert unit * rate == rate * unit;
    Exactly(Convert(unit, rate, unit), rate, unit);
  }

  lemma WholeRateKeeps(r: int, unit: int)
    requires unit > 0
    ensures KeepsBalance(r * unit, unit)
  {
    hide Convert, OneSided;
    forall lines | OneSided(lines) && Balanced(lines)
      ensures Balanced(BaseLines(lines, r * unit, unit))
    {
      WholeRateExcess(lines, r, unit, |lines|);
      assert Excess(lines) * r == 0;
    }
  }

  /** So the comment is right exactly when the rate is a whole number of cents for
      one unit of the amounts: a whole number for amounts in cents, a multiple of one
      hundred for amounts with four places. */
  lemma BalanceKeptIffWholeRate(rate: int, unit: int)
    requires unit > 0
    ensures KeepsBalance(rate, unit) <==> rate % unit == 0
  {
    hide KeepsBalance, Convert;
    if rate % unit == 0 {
      assert rate == (rate / unit) * unit;
      WholeRateKeeps(rate / unit, unit);
    }
    if KeepsBalance(rate, unit) {
      Multiples(rate, unit, unit);
      UnitConverts(rate, unit, Convert(1, rate, unit));
      Divides(rate, unit, Convert(1, rate, unit));
    }
  }

  lemma Divides(rate: int, unit: int, one: int)
    requires unit > 0 && rate == one * unit
    ensures rate % unit == 0
  {
    var q, m := rate / unit, rate % unit;
    assert rate == q * unit + m && 0 <= m < unit;
    assert unit * (one - q) == m == -(unit * (q - one));
    if one > q {
      AtLeast(unit, one - q);
    } else if q > one {
      AtLeast(unit, q - one);
    }
  }

  // ----- what is booked and what is refused

  /** Every entry balanced in nominal amounts can be booked. */
  ghost predicate AllBookable(rate: int, unit: int)
    requires unit > 0
  {
    forall book, lines :: OneSided(lines) && Balanced(lines) ==> Accepted(book, lines, rate, unit)
  }

  /** The booking commits: its base amounts pass the trigger. */
  predicate Accepted(book: J.Book, lines: Entry, rate: int, unit: int)
    requires unit > 0
  {
    J.Refusal(book, J.Create(J.Posted, lines, BaseLines(lines, rate, unit), None, None)).None?
  }

  /** So for any other rate some balanced entry is refused at commit. */
  lemma AllBookableIffWholeRate(rate: int, unit: int)
    requires unit > 0
    ensures AllBookable(rate, unit) <==> rate % unit == 0
  {
    hide BaseLines, OneSided, Balanced;
    BalanceKeptIffWholeRate(rate, unit);
    if AllBookable(rate, unit) {
      forall lines | OneSided(lines) && Balanced(lines)
        ensures Balanced(BaseLines(lines, rate, unit))
      {
        assert Accepted(J.EMPTY, lines, rate, unit);
      }
    }
  }

  /** Two cents against one and one, at a rate of one half: refused. */
  lemma HalfRateRefused(book: J.Book)
    ensures OneSided(ThreeLines(1, 1)) && Balanced(ThreeLines(1, 1))
    ensures !Accepted(book, ThreeLines(1, 1), RATE_UNIT / 2, CENTS)
  {
    ThreeLinesGood(1, 1);
    hide Excess, BaseLines, ThreeLines;
    ThreeLinesBase(1, 1, RATE_UNIT / 2, CENTS);
  }

  /** With four places it happens in base currency itself, at a rate of one: one cent
      against two halves. */
  lemma FourPlacesRefusedAtPar(book: J.Book)
    ensures OneSided(ThreeLines(50, 50)) && Balanced(ThreeLines(50, 50))
    ensures !Accepted(book, ThreeLines(50, 50), RATE_UNIT, FOUR_PLACES)
  {
    ThreeLinesGood(50, 50);
    hide Excess, BaseLines, ThreeLines;
    ThreeLinesBase(50, 50, RATE_UNIT, FOUR_PLACES);
  }

  /** Two-line entries, one debit against one credit, are booked at every rate. */
  lemma PairKeepsBalance(debit: Account, credit: Account, amount: int, rate: int, unit: int)
    requires unit > 0
    ensures Balanced(BaseLines(Pair(debit, credit, amount), rate, unit))
  {
    hide Convert;
    var b := BaseLines(Pair(debit, credit, amount), rate, unit);
    ConvertNear(0, rate, unit);
    assert b == [b[0], b[1]];
    TwoLines(b[0], b[1], Cash);
  }

  // ----- settlements set their base amounts themselves

  function FxResolved(residual: int): seq<Resolved> {
    if residual > 0 then [Resolved(Cr(FxGain, residual), None, Some(residual))]
    else if residual < 0 then [Resolved(Dr(FxLoss, -residual), Some(-residual), None)] else []
  }

  /** A settlement's lines as they are handed over: both legs at the amount paid, each
      with its own base amount, and the base difference. */
  function SettlementResolved(side: Side, p: Payment, docRate: int): seq<Resolved> {
    var cash, clear := CashLeg(p, docRate), ClearingLeg(p, docRate);
    match side
    case AR =>
      [Resolved(Dr(Cash, p.amount), Some(cash), None), Resolved(Cr(Receivables, p.amount), None, Some(clear))]
      + FxResolved(cash - clear)
    case AP =>
      [Resolved(Dr(Payables, p.amount), Some(clear), None), Resolved(Cr(Cash, p.amount), None, Some(cash))]
      + FxResolved(clear - cash)
  }

  function Nominal(lines: seq<Resolved>): (n: Entry)
    ensures |n| == |lines| && forall k :: 0 <= k < |n| ==> n[k] == lines[k].line
  {
    seq(|lines|, k requires 0 <= k < |lines| => lines[k].line)
  }

  /** So they are booked at any two rates, although their nominal amounts balance only
      when there is no exchange difference. */
  lemma SettlementBooked(book: J.Book, side: Side, p: Payment, docRate: int)
    ensures var lines := SettlementResolved(side, p, docRate);
            var base := BaseOf(lines, docRate, CENTS);
            && base == SettlementLines(side, p, docRate)
            && J.Refusal(book, J.Create(J.Posted, Nominal(lines), base, None, None)).None?
            && (Balanced(Nominal(lines)) <==> CashLeg(p, docRate) == ClearingLeg(p, docRate))
  {
    hide Convert, CashLeg, ClearingLeg, Excess;
    var lines := SettlementResolved(side, p, docRate);
    ConvertNear(0, docRate, CENTS);
    assert BaseOf(lines, docRate, CENTS) == SettlementLines(side, p, docRate);
    SettlementBalances(side, p, docRate);
    var n := Nominal(lines);
    if |n| == 2 {
      assert n == [n[0], n[1]];
      TwoLines(n[0], n[1], Cash);
    } else {
      assert n == [n[0], n[1], n[2]];
      ThreeLinesExcess(n[0], n[1], n[2]);
    }
  }
}
