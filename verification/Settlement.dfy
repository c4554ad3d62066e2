/** Settling a foreign document in parts: the cash leg at the payment-date rate,
    the clearing leg at the document's booked rate, the base difference to
    realised exchange gain or loss. */
module Settlement {
  import opened Ledger
  import opened Money

  datatype Side = AR | AP

  /** Rates are stored to eight places. */
  const RATE_UNIT := 100000000

  /** amount in cents of the document currency; rate None when none is quoted. */
  datatype Payment = Payment(amount: int, rate: Option<int>)

  function ToBase(amount: int, rate: int): int {
    RoundDiv(amount * rate, RATE_UNIT)
  }

  /** A missing current rate falls back to the document's, never to one. */
  function PayRate(p: Payment, docRate: int): int {
    if p.rate.Some? then p.rate.value else docRate
  }

  function CashLeg(p: Payment, docRate: int): int {
    ToBase(p.amount, PayRate(p, docRate))
  }

  function ClearingLeg(p: Payment, docRate: int): int {
    ToBase(p.amount, docRate)
  }

  function FxLines(residual: int): Entry {
    if residual > 0 then [Cr(FxGain, residual)] else if residual < 0 then [Dr(FxLoss, Abs(residual))] else []
  }

  /** The settlement entry in base currency. */
  function SettlementLines(side: Side, p: Payment, docRate: int): Entry {
    var cash, clear := CashLeg(p, docRate), ClearingLeg(p, docRate);
    match side
    case AR => [Dr(Cash, cash), Cr(Receivables, clear)] + FxLines(cash - clear)
    case AP => [Dr(Payables, clear), Cr(Cash, cash)] + FxLines(clear - cash)
  }

  function Control(side: Side): Account {
    if side.AR? then Receivables else Payables
  }

  /** A receipt counts as it stands, a disbursement the other way round. */
  function Signed(side: Side, x: int): int {
    if side.AR? then x else -x
  }

  /** Realised gain less loss that an entry books. */
  function Realised(lines: Entry): int {
    -Net(lines, FxGain) - Net(lines, FxLoss)
  }

  lemma FxLinesNet(residual: int, a: Account)
    ensures Excess(FxLines(residual)) == -residual
    ensures Net(FxLines(residual), a)
            == (if a == FxGain && residual > 0 then -residual else 0) + (if a == FxLoss && residual < 0 then -residual else 0)
  {
    NetOne(Cr(FxGain, residual), a);
    NetOne(Dr(FxLoss, Abs(residual)), a);
  }

  lemma TwoLines(x: Line, y: Line, a: Account)
    ensures Net([x, y], a) == (if x.account == a then x.debit - x.credit else 0) + (if y.account == a then y.debit - y.credit else 0)
    ensures Excess([x, y]) == x.debit - x.credit + y.debit - y.credit
  {
    NetSnoc([x], y, a);
    NetOne(x, a);
    assert [x] + [y] == [x, y];
  }

  lemma SettlementNet(side: Side, p: Payment, docRate: int, a: Account)
    ensures var lines := SettlementLines(side, p, docRate);
            var cash, clear := CashLeg(p, docRate), ClearingLeg(p, docRate);
            && Excess(lines) == 0
            && Net(lines, a) == (if a == Cash then Signed(side, cash) else 0) - (if a == Control(side) then Signed(side, clear) else 0)
                                + Net(FxLines(Signed(side, cash - clear)), a)
  {
    hide Net, Excess, FxLines, ToBase;
    var cash, clear := CashLeg(p, docRate), ClearingLeg(p, docRate);
    match side
    case AR =>
      TwoLines(Dr(Cash, cash), Cr(Receivables, clear), a);
      NetConcat([Dr(Cash, cash), Cr(Receivables, clear)], FxLines(cash - clear), a);
      FxLinesNet(cash - clear, a);
    case AP =>
      TwoLines(Dr(Payables, clear), Cr(Cash, cash), a);
      NetConcat([Dr(Payables, clear), Cr(Cash, cash)], FxLines(clear - cash), a);
      FxLinesNet(clear - cash, a);
  }

  /** Every settlement entry balances exactly in base, whatever the two rates and
      the direction, and books the legs' difference as exchange gain or loss. */
  lemma SettlementBalances(side: Side, p: Payment, docRate: int)
    ensures var lines := SettlementLines(side, p, docRate);
            && Balanced(lines)
            && Realised(lines) == Signed(side, CashLeg(p, docRate) - ClearingLeg(p, docRate))
            && (p.rate.None? || p.rate == Some(docRate) ==> |lines| == 2)
  {
    SettlementNet(side, p, docRate, FxGain);
    SettlementNet(side, p, docRate, FxLoss);
    var residual := Signed(side, CashLeg(p, docRate) - ClearingLeg(p, docRate));
    FxLinesNet(residual, FxGain);
    FxLinesNet(residual, FxLoss);
    hide ToBase, Net, Excess;
  }

  lemma OnePayment(side: Side, p: Payment, docRate: int)
    ensures var lines := SettlementLines(side, p, docRate);
            && Net(lines, Cash) == Signed(side, CashLeg(p, docRate))
            && Net(lines, Control(side)) == -Signed(side, ClearingLeg(p, docRate))
  {
    hide ToBase, Net;
    var residual := Signed(side, CashLeg(p, docRate) - ClearingLeg(p, docRate));
    SettlementNet(side, p, docRate, Cash);
    SettlementNet(side, p, docRate, Control(side));
    FxLinesNet(residual, Cash);
    FxLinesNet(residual, Control(side));
  }

  /** A converted amount: the product with the rate, to half a cent. */
  ghost predicate Converts(base: int, amount: int, rate: int) {
    -50000000 <= 100000000 * base - amount * rate <= 50000000
  }

  lemma ToBaseConverts(amount: int, rate: int)
    ensures Converts(ToBase(amount, rate), amount, rate)
  {
    RoundDivNearest(amount * rate, RATE_UNIT);
  }

  /** A receipt and a disbursement in their own figures: the money moves at the rate
      quoted on the day, or at the document's when none is, the item is cleared at the
      document's, and what is left over is a gain on 7200 or a loss on 7210. */
  lemma SettlementFigures(amount: int, quoted: Option<int>, docRate: int)
    ensures var payRate := if quoted == None then docRate else quoted.value;
            var receipt := SettlementLines(AR, Payment(amount, quoted), docRate);
            var disbursement := SettlementLines(AP, Payment(amount, quoted), docRate);
            var got, closed := Net(receipt, Cash), -Net(receipt, Receivables);
            var gave, settled := -Net(disbursement, Cash), Net(disbursement, Payables);
            && Converts(got, amount, payRate) && Converts(closed, amount, docRate)
            && Converts(gave, amount, payRate) && Converts(settled, amount, docRate)
            && Net(receipt, FxGain) == -Max(0, got - closed) && Net(receipt, FxLoss) == Max(0, closed - got)
            && Net(disbursement, FxGain) == -Max(0, settled - gave) && Net(disbursement, FxLoss) == Max(0, gave - settled)
  {
    hide ToBase, Converts, Net, SettlementLines, FxLines;
    var p := Payment(amount, quoted);
    var cash, clear := CashLeg(p, docRate), ClearingLeg(p, docRate);
    ToBaseConverts(amount, if quoted == None then docRate else quoted.value);
    ToBaseConverts(amount, docRate);
    OnePayment(AR, p, docRate);
    OnePayment(AP, p, docRate);
    SettlementNet(AR, p, docRate, FxGain);
    SettlementNet(AR, p, docRate, FxLoss);
    SettlementNet(AP, p, docRate, FxGain);
    SettlementNet(AP, p, docRate, FxLoss);
    FxLinesNet(cash - clear, FxGain);
    FxLinesNet(cash - clear, FxLoss);
    FxLinesNet(clear - cash, FxGain);
    FxLinesNet(clear - cash, FxLoss);
  }

  // ----- closing a document in parts

  function Entries(side: Side, ps: seq<Payment>, docRate: int): seq<Entry> {
    if ps == [] then []
    else Entries(side, ps[..|ps| - 1], docRate) + [SettlementLines(side, ps[|ps| - 1], docRate)]
  }

  function PaidTotal(ps: seq<Payment>): int {
    if ps == [] then 0 else PaidTotal(ps[..|ps| - 1]) + ps[|ps| - 1].amount
  }

  function CashTotal(ps: seq<Payment>, docRate: int): int {
    if ps == [] then 0 else CashTotal(ps[..|ps| - 1], docRate) + CashLeg(ps[|ps| - 1], docRate)
  }

  function ClearedTotal(ps: seq<Payment>, docRate: int): int {
    if ps == [] then 0 else ClearedTotal(ps[..|ps| - 1], docRate) + ClearingLeg(ps[|ps| - 1], docRate)
  }

  /** What the ledger shows after any number of part payments. */
  lemma {:induction false} PartPayments(side: Side, ps: seq<Payment>, docRate: int)
    ensures var j := Entries(side, ps, docRate);
            && Balance(j, Cash) == Signed(side, CashTotal(ps, docRate))
            && Balance(j, Control(side)) == -Signed(side, ClearedTotal(ps, docRate))
            && CreditBalance(j, FxGain) + CreditBalance(j, FxLoss)
               == Signed(side, CashTotal(ps, docRate) - ClearedTotal(ps, docRate))
  {
    hide SettlementLines, CashLeg, ClearingLeg, Net;
    if ps != [] {
      var init, p := ps[..|ps| - 1], ps[|ps| - 1];
      var j, e := Entries(side, init, docRate), SettlementLines(side, p, docRate);
      PartPayments(side, init, docRate);
      BalanceSnoc(j, e, Cash);
      BalanceSnoc(j, e, Control(side));
      BalanceSnoc(j, e, FxGain);
      BalanceSnoc(j, e, FxLoss);
      SettlementBalances(side, p, docRate);
      OnePayment(side, p, docRate);
    }
  }

  lemma LegNear(p: Payment, docRate: int)
    ensures 2 * Abs(RATE_UNIT * ClearingLeg(p, docRate) - p.amount * docRate) <= RATE_UNIT
  {
    RoundDivNearest(p.amount * docRate, RATE_UNIT);
  }

  lemma {:induction false} ClearedNear(ps: seq<Payment>, docRate: int)
    ensures 2 * Abs(RATE_UNIT * ClearedTotal(ps, docRate) - PaidTotal(ps) * docRate) <= |ps| * RATE_UNIT
  {
    hide ClearingLeg;
    if ps != [] {
      var init, p := ps[..|ps| - 1], ps[|ps| - 1];
      ClearedNear(init, docRate);
      LegNear(p, docRate);
      assert PaidTotal(ps) * docRate == PaidTotal(init) * docRate + p.amount * docRate;
    }
  }

  lemma BothNear(cleared: int, booked: int, exact: int, n: nat)
    requires 2 * Abs(RATE_UNIT * cleared - exact) <= n * RATE_UNIT
    requires 2 * Abs(RATE_UNIT * booked - exact) <= RATE_UNIT
    ensures 2 * Abs(cleared - booked) <= n + 1
  {
  }

  lemma BookedNear(amount: int, docRate: int)
    ensures 2 * Abs(RATE_UNIT * ToBase(amount, docRate) - amount * docRate) <= RATE_UNIT
  {
    RoundDivNearest(amount * docRate, RATE_UNIT);
  }

  /** When n payments close an item of a given amount, what they clear is within
      half a cent each of amount times document rate, and within one half more of
      the base amount the document was booked at. */
  lemma FullyClosed(side: Side, ps: seq<Payment>, amount: int, docRate: int)
    requires PaidTotal(ps) == amount
    ensures var cleared := -Signed(side, Balance(Entries(side, ps, docRate), Control(side)));
            && cleared == ClearedTotal(ps, docRate)
            && 2 * Abs(RATE_UNIT * cleared - amount * docRate) <= |ps| * RATE_UNIT
            && 2 * Abs(cleared - ToBase(amount, docRate)) <= |ps| + 1
  {
    hide ToBase, Balance, ClearedTotal, Entries, PaidTotal;
    PartPayments(side, ps, docRate);
    ClearedNear(ps, docRate);
    BookedNear(amount, docRate);
    BothNear(ClearedTotal(ps, docRate), ToBase(amount, docRate), amount * docRate, |ps|);
  }
}
