/** Journal lines and the sums every report is made of. */
module Ledger {

  datatype Option<+T> = None | Some(value: T)

  /** The accounts the bookings name; the comment is the chart-of-accounts code. */
  datatype Account =
    | Cash              // 1000
    | Receivables       // 1100
    | InputVat          // 1300
    | Inventory         // 1400
    | WorkInProgress    // 1450
    | FixedAssets       // 1500
    | AccumDepreciation // 1510
    | RouAsset          // 1600
    | RouAccumDep       // 1610
    | Payables          // 2000
    | OutputVat         // 2100
    | GrIr              // 2150
    | LeaseLiability    // 2500
    | RetainedEarnings  // 3000
    | RevalSurplus      // 3100
    | Revenue           // 4000
    | DisposalGain      // 4200
    | Cogs              // 5000
    | VendorNotes       // 5100
    | DisposalLoss      // 5200
    | DepExpense        // 5300
    | ImpairmentLoss    // 5310
    | RouDepExpense     // 5320
    | LeaseInterest     // 5600
    | FxGain            // 7200
    | FxLoss            // 7210
    | Other(code: string)

  datatype AccountType = AssetType | LiabilityType | EquityType | RevenueType | ExpenseType

  datatype Line = Line(account: Account, debit: int, credit: int)

  function Dr(a: Account, amount: int): Line { Line(a, amount, 0) }

  function Cr(a: Account, amount: int): Line { Line(a, 0, amount) }

  type Entry = seq<Line>

  function Pair(debit: Account, credit: Account, amount: int): Entry {
    [Dr(debit, amount), Cr(credit, amount)]
  }

  function DrIfPositive(a: Account, amount: int): Entry {
    if amount > 0 then [Dr(a, amount)] else []
  }

  function CrIfPositive(a: Account, amount: int): Entry {
    if amount > 0 then [Cr(a, amount)] else []
  }

  /** Debits less credits that the first n lines put on one account. */
  function NetTo(lines: Entry, n: nat, a: Account): int
    requires n <= |lines|
  {
    if n == 0 then 0
    else NetTo(lines, n - 1, a) + if lines[n - 1].account == a then lines[n - 1].debit - lines[n - 1].credit else 0
  }

  function ExcessTo(lines: Entry, n: nat): int
    requires n <= |lines|
  {
    if n == 0 then 0 else ExcessTo(lines, n - 1) + lines[n - 1].debit - lines[n - 1].credit
  }

  /** Debits less credits that an entry puts on one account. */
  function Net(lines: Entry, a: Account): int {
    NetTo(lines, |lines|, a)
  }

  /** Debits less credits over every account. */
  function Excess(lines: Entry): int {
    ExcessTo(lines, |lines|)
  }

  /** What the constraint trigger asserts of a posted entry's base amounts; for an
      entry in base currency they are its nominal ones. */
  predicate Balanced(lines: Entry) {
    Excess(lines) == 0
  }

  /** Every line has exactly one positive side, as the table constraint demands. */
  predicate OneSided(lines: Entry) {
    forall k :: 0 <= k < |lines| ==>
      (lines[k].debit > 0 && lines[k].credit == 0) || (lines[k].debit == 0 && lines[k].credit > 0)
  }

  /** Debit balance of one account over a whole journal. */
  function Balance(journal: seq<Entry>, a: Account): int {
    if journal == [] then 0
    else Balance(journal[..|journal| - 1], a) + Net(journal[|journal| - 1], a)
  }

  function CreditBalance(journal: seq<Entry>, a: Account): int {
    -Balance(journal, a)
  }

  lemma {:induction false} SamePrefix(xs: Entry, ys: Entry, n: nat, a: Account)
    requires n <= |xs| && n <= |ys| && forall k :: 0 <= k < n ==> xs[k] == ys[k]
    ensures NetTo(xs, n, a) == NetTo(ys, n, a) && ExcessTo(xs, n) == ExcessTo(ys, n)
  {
    if n > 0 {
      SamePrefix(xs, ys, n - 1, a);
    }
  }

  lemma {:induction false} ConcatTo(xs: Entry, ys: Entry, n: nat, a: Account)
    requires n <= |ys|
    ensures NetTo(xs + ys, |xs| + n, a) == Net(xs, a) + NetTo(ys, n, a)
    ensures ExcessTo(xs + ys, |xs| + n) == Excess(xs) + ExcessTo(ys, n)
  {
    if n == 0 {
      SamePrefix(xs + ys, xs, |xs|, a);
    } else {
      ConcatTo(xs, ys, n - 1, a);
    }
  }

  lemma NetConcat(xs: Entry, ys: Entry, a: Account)
    ensures Net(xs + ys, a) == Net(xs, a) + Net(ys, a)
    ensures Excess(xs + ys) == Excess(xs) + Excess(ys)
  {
    ConcatTo(xs, ys, |ys|, a);
  }

  lemma NetSnoc(lines: Entry, l: Line, a: Account)
    ensures Net(lines + [l], a) == Net(lines, a) + if l.account == a then l.debit - l.credit else 0
    ensures Excess(lines + [l]) == Excess(lines) + l.debit - l.credit
  {
    SamePrefix(lines + [l], lines, |lines|, a);
  }

  lemma BalanceSnoc(journal: seq<Entry>, e: Entry, a: Account)
    ensures Balance(journal + [e], a) == Balance(journal, a) + Net(e, a)
  {
    assert (journal + [e])[..|journal|] == journal;
  }

  lemma NetOne(l: Line, a: Account)
    ensures Net([l], a) == if l.account == a then l.debit - l.credit else 0
    ensures Excess([l]) == l.debit - l.credit
    ensures Net([], a) == 0 && Excess([]) == 0
  {
    NetSnoc([], l, a);
    assert [] + [l] == [l];
  }

  lemma PairNet(debit: Account, credit: Account, amount: int, a: Account)
    ensures Net(Pair(debit, credit, amount), a)
            == (if a == debit then amount else 0) - (if a == credit then amount else 0)
    ensures Balanced(Pair(debit, credit, amount))
  {
    NetSnoc([Dr(debit, amount)], Cr(credit, amount), a);
    NetOne(Dr(debit, amount), a);
    assert [Dr(debit, amount)] + [Cr(credit, amount)] == Pair(debit, credit, amount);
  }

  lemma IfPositiveNet(b: Account, amount: int, a: Account)
    ensures Net(DrIfPositive(b, amount), a) == (if a == b && amount > 0 then amount else 0)
    ensures Excess(DrIfPositive(b, amount)) == if amount > 0 then amount else 0
    ensures Net(CrIfPositive(b, amount), a) == (if a == b && amount > 0 then -amount else 0)
    ensures Excess(CrIfPositive(b, amount)) == if amount > 0 then -amount else 0
  {
    NetOne(Dr(b, amount), a);
    NetOne(Cr(b, amount), a);
  }
}
