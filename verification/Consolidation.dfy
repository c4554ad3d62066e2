/** Group statements: the aggregate over the entities in scope, and the adjustments
    that take intra-group activity back out of it. */
module Consolidation {
  import opened Ledger
  import opened Money

  const INVESTMENT := Other("1800")
  const GOODWILL := Other("1900")
  const NCI := Other("3200")
  const ELIMINATED_EQUITY := Other("ELIM-EQ")

  datatype ChartRow = ChartRow(account: Account, kind: AccountType)

  /** Amounts are base amounts, dates numbered days. */
  datatype GroupEntry = GroupEntry(entity: int, counterparty: Option<int>, date: int, posted: bool, lines: Entry)

  /** Signed in the account type's natural direction. */
  datatype Row = Row(account: Account, kind: AccountType, amount: int)

  /** owned is the parent's fraction in ten-thousandths, as the column stores it. */
  datatype Subsidiary = Subsidiary(id: int, parent: int, owned: int)

  datatype Window = Window(from: Option<int>, to: Option<int>, scope: set<int>)

  type Pick = GroupEntry -> bool

  // ----- statements

  predicate DebitNormal(kind: AccountType) {
    kind.AssetType? || kind.ExpenseType?
  }

  function Natural(kind: AccountType, net: int): int {
    if DebitNormal(kind) then net else -net
  }

  /** Assets and expenses less liabilities, equity and revenue. */
  function Gap(rows: seq<Row>): int {
    if rows == [] then 0 else
      var r := rows[|rows| - 1];
      Gap(rows[..|rows| - 1]) + Natural(r.kind, r.amount)
  }

  /** What a set of rows says of one account. */
  function Amount(rows: seq<Row>, a: Account): int {
    if rows == [] then 0 else
      var r := rows[|rows| - 1];
      Amount(rows[..|rows| - 1], a) + if r.account == a then r.amount else 0
  }

  lemma {:induction false} RowsConcat(xs: seq<Row>, ys: seq<Row>, a: Account)
    ensures Gap(xs + ys) == Gap(xs) + Gap(ys)
    ensures Amount(xs + ys, a) == Amount(xs, a) + Amount(ys, a)
  {
    if ys == [] {
      assert xs + ys == xs;
    } else {
      assert (xs + ys)[..|xs + ys| - 1] == xs + ys[..|ys| - 1];
      RowsConcat(xs, ys[..|ys| - 1], a);
    }
  }

  lemma RowsSnoc(rows: seq<Row>, r: Row, a: Account)
    ensures Gap(rows + [r]) == Gap(rows) + Natural(r.kind, r.amount)
    ensures Amount(rows + [r], a) == Amount(rows, a) + if r.account == a then r.amount else 0
  {
    assert (rows + [r])[..|rows|] == rows;
  }

  /** Debits less credits that the picked entries put on an account. */
  function PickedNet(journal: seq<GroupEntry>, pick: Pick, a: Account): int {
    if journal == [] then 0 else
      var e := journal[|journal| - 1];
      PickedNet(journal[..|journal| - 1], pick, a) + if pick(e) then Net(e.lines, a) else 0
  }

  predicate InWindow(w: Window, e: GroupEntry) {
    && e.posted && e.entity in w.scope
    && (w.from.Some? ==> w.from.value <= e.date)
    && (w.to.Some? ==> e.date <= w.to.value)
  }

  predicate TouchesControl(lines: Entry) {
    exists k :: 0 <= k < |lines| && lines[k].account in {INVESTMENT, GOODWILL, NCI}
  }

  predicate IntraGroup(w: Window, e: GroupEntry) {
    InWindow(w, e) && e.counterparty.Some? && e.counterparty.value in w.scope && !TouchesControl(e.lines)
  }

  function Aggregated(w: Window): Pick {
    e => InWindow(w, e)
  }

  function Intra(w: Window): Pick {
    e => IntraGroup(w, e)
  }

  function Outside(w: Window): Pick {
    e => InWindow(w, e) && !IntraGroup(w, e)
  }

  /** The aggregated statement of the picked entries. */
  function StatementTo(chart: seq<ChartRow>, n: nat, journal: seq<GroupEntry>, pick: Pick): seq<Row>
    requires n <= |chart|
  {
    if n == 0 then []
    else
      var c := chart[n - 1];
      StatementTo(chart, n - 1, journal, pick) + [Row(c.account, c.kind, Natural(c.kind, PickedNet(journal, pick, c.account)))]
  }

  function Statement(chart: seq<ChartRow>, journal: seq<GroupEntry>, pick: Pick): seq<Row> {
    StatementTo(chart, |chart|, journal, pick)
  }

  // ----- transactional eliminations

  function EliminationsTo(chart: seq<ChartRow>, n: nat, journal: seq<GroupEntry>, w: Window): seq<Row>
    requires n <= |chart|
  {
    if n == 0 then []
    else
      var c := chart[n - 1];
      var b := Natural(c.kind, PickedNet(journal, Intra(w), c.account));
      EliminationsTo(chart, n - 1, journal, w) + if b == 0 then [] else [Row(c.account, c.kind, -b)]
  }

  function TransactionalEliminations(chart: seq<ChartRow>, journal: seq<GroupEntry>, w: Window): seq<Row> {
    EliminationsTo(chart, |chart|, journal, w)
  }

  /** Reads one grouped sum per account and skips the zeros. */
  method ListEliminations(chart: seq<ChartRow>, journal: seq<GroupEntry>, w: Window) returns (rows: seq<Row>)
    ensures rows == TransactionalEliminations(chart, journal, w)
    ensures forall k :: 0 <= k < |rows| ==> rows[k].amount != 0
  {
    rows := [];
    for k := 0 to |chart|
      invariant rows == EliminationsTo(chart, k, journal, w)
      invariant forall j :: 0 <= j < |rows| ==> rows[j].amount != 0
    {
      var balance := Natural(chart[k].kind, PickedNet(journal, Intra(w), chart[k].account));
      if balance == 0 {
        continue;
      }
      rows := rows + [Row(chart[k].account, chart[k].kind, -balance)];
    }
  }

  predicate Distinct(chart: seq<ChartRow>) {
    forall i, j :: 0 <= i < j < |chart| ==> chart[i].account != chart[j].account
  }

  /** Every line is on an account of the chart, as the foreign key demands. */
  predicate Covers(chart: seq<ChartRow>, lines: Entry) {
    forall k :: 0 <= k < |lines| ==> exists j :: 0 <= j < |chart| && chart[j].account == lines[k].account
  }

  predicate GoodBooks(chart: seq<ChartRow>, journal: seq<GroupEntry>) {
    Distinct(chart) && forall k :: 0 <= k < |journal| ==> Covers(chart, journal[k].lines)
  }

  /** What the picked entries are out of balance by. */
  function PickedExcess(journal: seq<GroupEntry>, pick: Pick): int {
    if journal == [] then 0 else
      var e := journal[|journal| - 1];
      PickedExcess(journal[..|journal| - 1], pick) + if pick(e) then Excess(e.lines) else 0
  }

  function ChartNetTo(chart: seq<ChartRow>, n: nat, lines: Entry, m: nat): int
    requires n <= |chart| && m <= |lines|
  {
    if n == 0 then 0 else ChartNetTo(chart, n - 1, lines, m) + NetTo(lines, m, chart[n - 1].account)
  }

  predicate ListedTo(chart: seq<ChartRow>, n: nat, a: Account)
    requires n <= |chart|
  {
    exists j :: 0 <= j < n && chart[j].account == a
  }

  lemma {:induction false} ChartNetStep(chart: seq<ChartRow>, n: nat, lines: Entry, m: nat)
    requires Distinct(chart) && n <= |chart| && 0 < m <= |lines|
    ensures ChartNetTo(chart, n, lines, m)
            == ChartNetTo(chart, n, lines, m - 1)
               + if ListedTo(chart, n, lines[m - 1].account) then lines[m - 1].debit - lines[m - 1].credit else 0
  {
    if n > 0 {
      ChartNetStep(chart, n - 1, lines, m);
      var a := lines[m - 1].account;
      assert ListedTo(chart, n, a) <==> ListedTo(chart, n - 1, a) || chart[n - 1].account == a;
      assert chart[n - 1].account == a ==> !ListedTo(chart, n - 1, a);
    }
  }

  lemma {:induction false} ChartNetZero(chart: seq<ChartRow>, n: nat, lines: Entry)
    requires n <= |chart|
    ensures ChartNetTo(chart, n, lines, 0) == 0
  {
    if n > 0 {
      ChartNetZero(chart, n - 1, lines);
    }
  }

  /** Summed over the whole chart, an entry's account totals are its excess. */
  lemma {:induction false} ChartNetIsExcess(chart: seq<ChartRow>, lines: Entry, m: nat)
    requires Distinct(chart) && Covers(chart, lines) && m <= |lines|
    ensures ChartNetTo(chart, |chart|, lines, m) == ExcessTo(lines, m)
  {
    if m == 0 {
      ChartNetZero(chart, |chart|, lines);
    } else {
      ChartNetIsExcess(chart, lines, m - 1);
      ChartNetStep(chart, |chart|, lines, m);
      assert ListedTo(chart, |chart|, lines[m - 1].account);
    }
  }

  lemma {:induction false} StatementGrows(chart: seq<ChartRow>, n: nat, journal: seq<GroupEntry>, pick: Pick)
    requires n <= |chart| && journal != []
    ensures var e := journal[|journal| - 1];
            Gap(StatementTo(chart, n, journal, pick))
            == Gap(StatementTo(chart, n, journal[..|journal| - 1], pick))
               + if pick(e) then ChartNetTo(chart, n, e.lines, |e.lines|) else 0
  {
    if n > 0 {
      var before := journal[..|journal| - 1];
      StatementGrows(chart, n - 1, journal, pick);
      StatementGap(chart, n, journal, pick);
      StatementGap(chart, n, before, pick);
    }
  }

  lemma StatementGap(chart: seq<ChartRow>, n: nat, journal: seq<GroupEntry>, pick: Pick)
    requires 0 < n <= |chart|
    ensures Gap(StatementTo(chart, n, journal, pick))
            == Gap(StatementTo(chart, n - 1, journal, pick)) + PickedNet(journal, pick, chart[n - 1].account)
  {
    var rows := StatementTo(chart, n, journal, pick);
    assert rows[..|rows| - 1] == StatementTo(chart, n - 1, journal, pick);
  }

  lemma {:induction false} EmptyStatement(chart: seq<ChartRow>, n: nat, pick: Pick)
    requires n <= |chart|
    ensures Gap(StatementTo(chart, n, [], pick)) == 0
  {
    if n > 0 {
      EmptyStatement(chart, n - 1, pick);
      StatementGap(chart, n, [], pick);
    }
  }

  /** The statement of any choice of entries misses the accounting equation by what
      those entries are out of balance by. */
  lemma {:induction false} StatementGapIsExcess(chart: seq<ChartRow>, journal: seq<GroupEntry>, pick: Pick)
    requires GoodBooks(chart, journal)
    ensures Gap(Statement(chart, journal, pick)) == PickedExcess(journal, pick)
  {
    if journal == [] {
      EmptyStatement(chart, |chart|, pick);
    } else {
      var e := journal[|journal| - 1];
      StatementGapIsExcess(chart, journal[..|journal| - 1], pick);
      StatementGrows(chart, |chart|, journal, pick);
      if pick(e) {
        ChartNetIsExcess(chart, e.lines, |e.lines|);
      }
    }
  }

  lemma {:induction false} SplitNet(journal: seq<GroupEntry>, w: Window, a: Account)
    ensures PickedNet(journal, Aggregated(w), a) == PickedNet(journal, Intra(w), a) + PickedNet(journal, Outside(w), a)
  {
    if journal != [] {
      SplitNet(journal[..|journal| - 1], w, a);
    }
  }

  lemma NoRows(a: Account)
    ensures Gap([]) == 0 && Amount([], a) == 0
  {
  }

  lemma {:induction false} EliminationAmount(chart: seq<ChartRow>, n: nat, journal: seq<GroupEntry>, w: Window, a: Account)
    requires n <= |chart|
    ensures Gap(EliminationsTo(chart, n, journal, w)) == -Gap(StatementTo(chart, n, journal, Intra(w)))
    ensures Amount(EliminationsTo(chart, n, journal, w), a) == -Amount(StatementTo(chart, n, journal, Intra(w)), a)
  {
    hide PickedNet, Gap, Amount, Intra;
    if n == 0 {
      NoRows(a);
    } else {
      var c := chart[n - 1];
      var b := Natural(c.kind, PickedNet(journal, Intra(w), c.account));
      EliminationAmount(chart, n - 1, journal, w, a);
      RowsSnoc(StatementTo(chart, n - 1, journal, Intra(w)), Row(c.account, c.kind, b), a);
      if b != 0 {
        RowsSnoc(EliminationsTo(chart, n - 1, journal, w), Row(c.account, c.kind, -b), a);
      } else {
        assert EliminationsTo(chart, n, journal, w) == EliminationsTo(chart, n - 1, journal, w);
      }
    }
  }

  lemma {:induction false} StatementAmount(chart: seq<ChartRow>, n: nat, journal: seq<GroupEntry>, pick: Pick, a: Account)
    requires Distinct(chart) && n <= |chart|
    ensures !ListedTo(chart, n, a) ==> Amount(StatementTo(chart, n, journal, pick), a) == 0
    ensures forall k :: 0 <= k < n && chart[k].account == a ==>
              Amount(StatementTo(chart, n, journal, pick), a) == Natural(chart[k].kind, PickedNet(journal, pick, a))
  {
    hide PickedNet, Gap, Amount, Natural;
    if n == 0 {
      NoRows(a);
    } else {
      var c := chart[n - 1];
      StatementAmount(chart, n - 1, journal, pick, a);
      RowsSnoc(StatementTo(chart, n - 1, journal, pick), Row(c.account, c.kind, Natural(c.kind, PickedNet(journal, pick, c.account))), a);
      assert c.account == a ==> !ListedTo(chart, n - 1, a);
      assert ListedTo(chart, n, a) <==> ListedTo(chart, n - 1, a) || c.account == a;
    }
  }

  /** Adding the transactional rows leaves, on every account, exactly the statement
      of the entries that are not intra-group. */
  lemma EliminationRemovesIntraGroup(chart: seq<ChartRow>, journal: seq<GroupEntry>, w: Window, a: Account)
    requires Distinct(chart)
    ensures Amount(Statement(chart, journal, Aggregated(w)) + TransactionalEliminations(chart, journal, w), a)
            == Amount(Statement(chart, journal, Outside(w)), a)
  {
    var n := |chart|;
    RowsConcat(Statement(chart, journal, Aggregated(w)), TransactionalEliminations(chart, journal, w), a);
    EliminationAmount(chart, n, journal, w, a);
    SplitNet(journal, w, a);
    StatementAmount(chart, n, journal, Aggregated(w), a);
    StatementAmount(chart, n, journal, Intra(w), a);
    StatementAmount(chart, n, journal, Outside(w), a);
    assert ListedTo(chart, n, a) ==> exists k :: 0 <= k < n && chart[k].account == a;
  }

  // ----- structural eliminations

  function OwnedEquity(equity: int, owned: int): int {
    RoundDiv(equity * owned, 10000)
  }

  function InvestmentEquityRows(invest: int, equity: int, owned: int): seq<Row> {
    var part := OwnedEquity(equity, owned);
    [Row(INVESTMENT, AssetType, -invest), Row(GOODWILL, AssetType, invest - part),
     Row(ELIMINATED_EQUITY, EquityType, -equity), Row(NCI, EquityType, equity - part)]
  }

  function EquityTo(chart: seq<ChartRow>, n: nat, journal: seq<GroupEntry>, pick: Pick): int
    requires n <= |chart|
  {
    if n == 0 then 0
    else EquityTo(chart, n - 1, journal, pick)
         - if chart[n - 1].kind.EquityType? then PickedNet(journal, pick, chart[n - 1].account) else 0
  }

  predicate ByDate(e: GroupEntry, asOf: Option<int>) {
    e.posted && (asOf.Some? ==> e.date <= asOf.value)
  }

  function OwnEntries(sub: Subsidiary, asOf: Option<int>): Pick {
    e => ByDate(e, asOf) && e.entity == sub.id
  }

  function ParentEntries(sub: Subsidiary, asOf: Option<int>): Pick {
    e => ByDate(e, asOf) && e.entity == sub.parent && e.counterparty == Some(sub.id)
  }

  function SubEquity(chart: seq<ChartRow>, journal: seq<GroupEntry>, sub: Subsidiary, asOf: Option<int>): int {
    EquityTo(chart, |chart|, journal, OwnEntries(sub, asOf))
  }

  function InvestmentInSub(journal: seq<GroupEntry>, sub: Subsidiary, asOf: Option<int>): int {
    PickedNet(journal, ParentEntries(sub, asOf), INVESTMENT)
  }

  lemma RowAmounts(invest: int, equity: int, owned: int, a: Account)
    ensures var rows, part := InvestmentEquityRows(invest, equity, owned), OwnedEquity(equity, owned);
            && Gap(rows) == 0
            && Amount(rows, a) == (if a == INVESTMENT then -invest else 0) + (if a == GOODWILL then invest - part else 0)
                                  + (if a == ELIMINATED_EQUITY then -equity else 0) + (if a == NCI then equity - part else 0)
  {
    hide Gap, Amount, OwnedEquity;
    var part := OwnedEquity(equity, owned);
    var x, y := Row(INVESTMENT, AssetType, -invest), Row(GOODWILL, AssetType, invest - part);
    var z, t := Row(ELIMINATED_EQUITY, EquityType, -equity), Row(NCI, EquityType, equity - part);
    NoRows(a);
    RowsSnoc([], x, a);
    RowsSnoc([x], y, a);
    RowsSnoc([x, y], z, a);
    RowsSnoc([x, y, z], t, a);
    assert [] + [x] == [x] && [x] + [y] == [x, y] && [x, y] + [z] == [x, y, z];
    assert [x, y, z] + [t] == InvestmentEquityRows(invest, equity, owned);
  }

  lemma OwnedShare(equity: int, owned: int)
    ensures 2 * Abs(10000 * (equity - OwnedEquity(equity, owned)) - equity * (10000 - owned)) <= 10000
    ensures owned == 10000 ==> OwnedEquity(equity, owned) == equity
  {
    RoundDivNearest(equity * owned, 10000);
    assert equity * (10000 - owned) == 10000 * equity - equity * owned;
  }

  /** One subsidiary's rows balance; what is left of its equity is the minority's
      share to within half a cent, and goodwill is what the investment cost beyond
      the parent's share. */
  lemma InvestmentRowsBalance(invest: int, equity: int, owned: int)
    requires 0 < owned <= 10000
    ensures var rows := InvestmentEquityRows(invest, equity, owned);
            && Gap(rows) == 0
            && 2 * Abs(10000 * Amount(rows, NCI) - equity * (10000 - owned)) <= 10000
            && Amount(rows, GOODWILL) - Amount(rows, NCI) == invest - equity
            && Amount(rows, INVESTMENT) == -invest && Amount(rows, ELIMINATED_EQUITY) == -equity
            && (owned == 10000 ==> Amount(rows, NCI) == 0)
  {
    hide Gap, Amount, OwnedEquity, InvestmentEquityRows, Abs;
    RowAmounts(invest, equity, owned, NCI);
    RowAmounts(invest, equity, owned, GOODWILL);
    RowAmounts(invest, equity, owned, INVESTMENT);
    RowAmounts(invest, equity, owned, ELIMINATED_EQUITY);
    OwnedShare(equity, owned);
  }

  function StructuralTo(chart: seq<ChartRow>, journal: seq<GroupEntry>, subs: seq<Subsidiary>, asOf: Option<int>): seq<Row> {
    if subs == [] then []
    else
      var s := subs[|subs| - 1];
      var equity, invest := SubEquity(chart, journal, s, asOf), InvestmentInSub(journal, s, asOf);
      StructuralTo(chart, journal, subs[..|subs| - 1], asOf)
      + if equity == 0 && invest == 0 then [] else InvestmentEquityRows(invest, equity, s.owned)
  }

  predicate GoodSubs(subs: seq<Subsidiary>) {
    && (forall k :: 0 <= k < |subs| ==> 0 < subs[k].owned <= 10000)
    && (forall i, j :: 0 <= i < j < |subs| ==> subs[i].id != subs[j].id)
  }

  /** Walks the subsidiaries once, keeping the running totals the summary reports. */
  method StructuralEliminations(chart: seq<ChartRow>, journal: seq<GroupEntry>, subs: seq<Subsidiary>, asOf: Option<int>)
    returns (rows: seq<Row>, totalNci: int, totalGoodwill: int)
    requires GoodSubs(subs)
    ensures rows == StructuralTo(chart, journal, subs, asOf)
    ensures totalNci == Amount(rows, NCI) && totalGoodwill == Amount(rows, GOODWILL)
    ensures Gap(rows) == 0
  {
    hide SubEquity, InvestmentInSub, InvestmentEquityRows, OwnedEquity, Gap, Amount;
    rows, totalNci, totalGoodwill := [], 0, 0;
    NoRows(NCI);
    NoRows(GOODWILL);
    for k := 0 to |subs|
      invariant rows == StructuralTo(chart, journal, subs[..k], asOf)
      invariant totalNci == Amount(rows, NCI) && totalGoodwill == Amount(rows, GOODWILL)
      invariant Gap(rows) == 0
    {
      assert subs[..k + 1][..k] == subs[..k];
      var sub := subs[k];
      var equity := SubEquity(chart, journal, sub, asOf);
      var invest := InvestmentInSub(journal, sub, asOf);
      if equity == 0 && invest == 0 {
        continue;
      }
      var part := OwnedEquity(equity, sub.owned);
      var subRows := InvestmentEquityRows(invest, equity, sub.owned);
      RowAmounts(invest, equity, sub.owned, NCI);
      RowAmounts(invest, equity, sub.owned, GOODWILL);
      RowsConcat(rows, subRows, NCI);
      RowsConcat(rows, subRows, GOODWILL);
      rows := rows + subRows;
      totalNci := totalNci + (equity - part);
      totalGoodwill := totalGoodwill + (invest - part);
    }
    assert subs[..|subs|] == subs;
  }

  lemma {:induction false} StructuralBalances(chart: seq<ChartRow>, journal: seq<GroupEntry>, subs: seq<Subsidiary>, asOf: Option<int>)
    requires GoodSubs(subs)
    ensures Gap(StructuralTo(chart, journal, subs, asOf)) == 0
  {
    if subs != [] {
      var s, before := subs[|subs| - 1], subs[..|subs| - 1];
      var equity, invest := SubEquity(chart, journal, s, asOf), InvestmentInSub(journal, s, asOf);
      StructuralBalances(chart, journal, before, asOf);
      InvestmentRowsBalance(invest, equity, s.owned);
      var rows := if equity == 0 && invest == 0 then [] else InvestmentEquityRows(invest, equity, s.owned);
      RowsConcat(StructuralTo(chart, journal, before, asOf), rows, NCI);
    }
  }

  lemma {:induction false} SplitExcess(journal: seq<GroupEntry>, w: Window)
    ensures PickedExcess(journal, Aggregated(w)) == PickedExcess(journal, Intra(w)) + PickedExcess(journal, Outside(w))
  {
    if journal != [] {
      SplitExcess(journal[..|journal| - 1], w);
    }
  }

  function Consolidated(chart: seq<ChartRow>, journal: seq<GroupEntry>, w: Window, subs: seq<Subsidiary>, asOf: Option<int>): seq<Row> {
    Statement(chart, journal, Aggregated(w)) + TransactionalEliminations(chart, journal, w)
    + StructuralTo(chart, journal, subs, asOf)
  }

  /** For any scope, window and subsidiaries, no elimination disturbs assets +
      expenses = liabilities + equity + revenue: the consolidated statement misses
      it by exactly what the entries left in are out of balance by. */
  lemma ConsolidatedGap(chart: seq<ChartRow>, journal: seq<GroupEntry>, w: Window, subs: seq<Subsidiary>, asOf: Option<int>)
    requires GoodBooks(chart, journal) && GoodSubs(subs)
    ensures Gap(Consolidated(chart, journal, w, subs, asOf)) == PickedExcess(journal, Outside(w))
  {
    var x, y, z := Statement(chart, journal, Aggregated(w)), TransactionalEliminations(chart, journal, w),
                   StructuralTo(chart, journal, subs, asOf);
    StatementGapIsExcess(chart, journal, Aggregated(w));
    StatementGapIsExcess(chart, journal, Intra(w));
    SplitExcess(journal, w);
    EliminationAmount(chart, |chart|, journal, w, NCI);
    StructuralBalances(chart, journal, subs, asOf);
    RowsConcat(x, y, NCI);
    RowsConcat(x + y, z, NCI);
  }

  lemma {:induction false} NoExcess(journal: seq<GroupEntry>, pick: Pick)
    requires forall k :: 0 <= k < |journal| && pick(journal[k]) ==> Balanced(journal[k].lines)
    ensures PickedExcess(journal, pick) == 0
  {
    if journal != [] {
      NoExcess(journal[..|journal| - 1], pick);
    }
  }

  /** With every posted entry balanced in base, the accounting equation holds. */
  lemma ConsolidatedBalances(chart: seq<ChartRow>, journal: seq<GroupEntry>, w: Window, subs: seq<Subsidiary>, asOf: Option<int>)
    requires GoodBooks(chart, journal) && GoodSubs(subs)
    requires forall k :: 0 <= k < |journal| && journal[k].posted ==> Balanced(journal[k].lines)
    ensures Gap(Consolidated(chart, journal, w, subs, asOf)) == 0
  {
    ConsolidatedGap(chart, journal, w, subs, asOf);
    NoExcess(journal, Outside(w));
  }

  // ----- the investment disappears

  predicate InSub(subs: seq<Subsidiary>, e: GroupEntry) {
    exists k :: 0 <= k < |subs| && e.entity == subs[k].parent && e.counterparty == Some(subs[k].id)
  }

  function InvestmentEntries(subs: seq<Subsidiary>, asOf: Option<int>): Pick {
    e => ByDate(e, asOf) && InSub(subs, e)
  }

  lemma {:induction false} OneMoreSub(journal: seq<GroupEntry>, subs: seq<Subsidiary>, asOf: Option<int>, a: Account)
    requires GoodSubs(subs) && subs != []
    ensures PickedNet(journal, InvestmentEntries(subs, asOf), a)
            == PickedNet(journal, InvestmentEntries(subs[..|subs| - 1], asOf), a)
               + PickedNet(journal, ParentEntries(subs[|subs| - 1], asOf), a)
  {
    if journal != [] {
      OneMoreSub(journal[..|journal| - 1], subs, asOf, a);
      var e, s, before := journal[|journal| - 1], subs[|subs| - 1], subs[..|subs| - 1];
      assert InSub(subs, e) <==> InSub(before, e) || (e.entity == s.parent && e.counterparty == Some(s.id)) by {
        assert forall k :: 0 <= k < |before| ==> before[k] == subs[k];
      }
      assert e.counterparty == Some(s.id) ==> !InSub(before, e);
    }
  }

  /** The structural rows take out of account 1800 the whole of what the parents
      booked on it against the subsidiaries in scope. */
  lemma {:induction false} InvestmentEliminated(chart: seq<ChartRow>, journal: seq<GroupEntry>, subs: seq<Subsidiary>, asOf: Option<int>)
    requires GoodSubs(subs)
    ensures Amount(StructuralTo(chart, journal, subs, asOf), INVESTMENT)
            == -PickedNet(journal, InvestmentEntries(subs, asOf), INVESTMENT)
  {
    if subs == [] {
      NoSubs(journal, asOf, INVESTMENT);
    } else {
      var s, before := subs[|subs| - 1], subs[..|subs| - 1];
      var equity, invest := SubEquity(chart, journal, s, asOf), InvestmentInSub(journal, s, asOf);
      InvestmentEliminated(chart, journal, before, asOf);
      OneMoreSub(journal, subs, asOf, INVESTMENT);
      InvestmentRowsBalance(invest, equity, s.owned);
      var rows := if equity == 0 && invest == 0 then [] else InvestmentEquityRows(invest, equity, s.owned);
      RowsConcat(StructuralTo(chart, journal, before, asOf), rows, INVESTMENT);
    }
  }

  lemma {:induction false} NoSubs(journal: seq<GroupEntry>, asOf: Option<int>, a: Account)
    ensures PickedNet(journal, InvestmentEntries([], asOf), a) == 0
  {
    if journal != [] {
      NoSubs(journal[..|journal| - 1], asOf, a);
    }
  }

  // ----- one more entry, one more subsidiary

  /** What the aggregate and the transactional eliminations together say of an account. */
  function LeftIn(chart: seq<ChartRow>, journal: seq<GroupEntry>, w: Window, a: Account): int {
    Amount(Statement(chart, journal, Aggregated(w)) + TransactionalEliminations(chart, journal, w), a)
  }

  lemma PickedSnoc(journal: seq<GroupEntry>, e: GroupEntry, pick: Pick, a: Account)
    ensures PickedNet(journal + [e], pick, a) == PickedNet(journal, pick, a) + if pick(e) then Net(e.lines, a) else 0
    ensures PickedNet([], pick, a) == 0
  {
    assert (journal + [e])[..|journal|] == journal;
  }

  lemma StatementOn(chart: seq<ChartRow>, journal: seq<GroupEntry>, pick: Pick, k: nat)
    requires Distinct(chart) && k < |chart|
    ensures Amount(Statement(chart, journal, pick), chart[k].account)
            == Natural(chart[k].kind, PickedNet(journal, pick, chart[k].account))
  {
    hide Amount, StatementTo, PickedNet, Natural;
    StatementAmount(chart, |chart|, journal, pick, chart[k].account);
  }

  /** An entry counts in the aggregate when it is posted, belongs to an entity in scope
      and is dated in the window.  It stays in after the eliminations unless its
      counterparty is in scope too and it leaves 1800, 1900 and 3200 alone. */
  lemma OneMoreEntry(chart: seq<ChartRow>, journal: seq<GroupEntry>, e: GroupEntry, w: Window, k: nat)
    requires Distinct(chart) && k < |chart|
    ensures var a := chart[k].account;
            var moved := if chart[k].kind.AssetType? || chart[k].kind.ExpenseType? then Net(e.lines, a) else -Net(e.lines, a);
            var counted := e.posted && e.entity in w.scope && (w.from == None || w.from.value <= e.date)
                           && (w.to == None || e.date <= w.to.value);
            var internal := e.counterparty != None && e.counterparty.value in w.scope
                            && forall l :: 0 <= l < |e.lines| ==>
                                 e.lines[l].account != Other("1800") && e.lines[l].account != Other("1900")
                                 && e.lines[l].account != Other("3200");
            && Amount(Statement(chart, journal + [e], Aggregated(w)), a)
               == Amount(Statement(chart, journal, Aggregated(w)), a) + (if counted then moved else 0)
            && LeftIn(chart, journal + [e], w, a) == LeftIn(chart, journal, w, a) + (if counted && !internal then moved else 0)
            && LeftIn(chart, [], w, a) == 0
  {
    hide Amount, Statement, TransactionalEliminations, PickedNet, Net;
    var a := chart[k].account;
    PickedSnoc(journal, e, Aggregated(w), a);
    PickedSnoc(journal, e, Outside(w), a);
    StatementOn(chart, journal, Aggregated(w), k);
    StatementOn(chart, journal, Outside(w), k);
    StatementOn(chart, journal + [e], Aggregated(w), k);
    StatementOn(chart, journal + [e], Outside(w), k);
    StatementOn(chart, [], Outside(w), k);
    EliminationRemovesIntraGroup(chart, journal, w, a);
    EliminationRemovesIntraGroup(chart, journal + [e], w, a);
    EliminationRemovesIntraGroup(chart, [], w, a);
  }

  predicate OnEquity(chart: seq<ChartRow>, n: nat, a: Account)
    requires n <= |chart|
  {
    exists j :: 0 <= j < n && chart[j].account == a && chart[j].kind.EquityType?
  }

  /** Credits less debits of the first m lines on the equity accounts of the chart. */
  function EquityCredits(chart: seq<ChartRow>, n: nat, lines: Entry, m: nat): int
    requires n <= |chart| && m <= |lines|
  {
    if m == 0 then 0
    else EquityCredits(chart, n, lines, m - 1)
         + if OnEquity(chart, n, lines[m - 1].account) then lines[m - 1].credit - lines[m - 1].debit else 0
  }

  lemma {:induction false} NoEquity(chart: seq<ChartRow>, lines: Entry, m: nat)
    requires m <= |lines|
    ensures EquityCredits(chart, 0, lines, m) == 0
  {
    if m > 0 {
      NoEquity(chart, lines, m - 1);
    }
  }

  lemma {:induction false} EquityCreditsRow(chart: seq<ChartRow>, n: nat, lines: Entry, m: nat)
    requires Distinct(chart) && 0 < n <= |chart| && m <= |lines|
    ensures EquityCredits(chart, n, lines, m)
            == EquityCredits(chart, n - 1, lines, m)
               - if chart[n - 1].kind.EquityType? then NetTo(lines, m, chart[n - 1].account) else 0
  {
    if m > 0 {
      EquityCreditsRow(chart, n, lines, m - 1);
      var a := lines[m - 1].account;
      assert OnEquity(chart, n, a) <==> OnEquity(chart, n - 1, a) || (chart[n - 1].account == a && chart[n - 1].kind.EquityType?);
      assert chart[n - 1].account == a ==> !OnEquity(chart, n - 1, a);
    }
  }

  lemma {:induction false} EquitySnoc(chart: seq<ChartRow>, n: nat, journal: seq<GroupEntry>, e: GroupEntry, pick: Pick)
    requires Distinct(chart) && n <= |chart|
    ensures EquityTo(chart, n, journal + [e], pick)
            == EquityTo(chart, n, journal, pick) + if pick(e) then EquityCredits(chart, n, e.lines, |e.lines|) else 0
    ensures EquityTo(chart, n, [], pick) == 0
  {
    hide PickedNet, EquityCredits;
    if n == 0 {
      NoEquity(chart, e.lines, |e.lines|);
    } else {
      EquitySnoc(chart, n - 1, journal, e, pick);
      PickedSnoc(journal, e, pick, chart[n - 1].account);
      EquityCreditsRow(chart, n, e.lines, |e.lines|);
    }
  }

  /** A subsidiary's equity grows by what its own posted entries up to the date credit to
      equity accounts, and the investment in it by what its parent's entries against it
      debit to 1800. */
  lemma InvestmentFigures(chart: seq<ChartRow>, journal: seq<GroupEntry>, e: GroupEntry, sub: Subsidiary, asOf: Option<int>)
    requires Distinct(chart)
    ensures var counted := e.posted && (asOf == None || e.date <= asOf.value);
            && SubEquity(chart, journal + [e], sub, asOf)
               == SubEquity(chart, journal, sub, asOf)
                  + (if counted && e.entity == sub.id then EquityCredits(chart, |chart|, e.lines, |e.lines|) else 0)
            && InvestmentInSub(journal + [e], sub, asOf)
               == InvestmentInSub(journal, sub, asOf)
                  + (if counted && e.entity == sub.parent && e.counterparty == Some(sub.id) then Net(e.lines, Other("1800")) else 0)
            && SubEquity(chart, [], sub, asOf) == 0 && InvestmentInSub([], sub, asOf) == 0
  {
    hide PickedNet, EquityTo, EquityCredits, Net;
    EquitySnoc(chart, |chart|, journal, e, OwnEntries(sub, asOf));
    PickedSnoc(journal, e, ParentEntries(sub, asOf), INVESTMENT);
  }

  /** Each subsidiary takes its investment out of 1800 and its equity out of the group's,
      and leaves the minority its own share of that equity, to half a cent, and goodwill
      what the investment cost beyond the parent's share. */
  lemma OneMoreSubsidiary(chart: seq<ChartRow>, journal: seq<GroupEntry>, subs: seq<Subsidiary>, s: Subsidiary, asOf: Option<int>)
    requires 0 < s.owned <= 10000
    ensures var before, after := StructuralTo(chart, journal, subs, asOf), StructuralTo(chart, journal, subs + [s], asOf);
            var equity, invest := SubEquity(chart, journal, s, asOf), InvestmentInSub(journal, s, asOf);
            var minority := Amount(after, Other("3200")) - Amount(before, Other("3200"));
            && -5000 <= 10000 * minority - equity * (10000 - s.owned) <= 5000
            && Amount(after, Other("1900")) - Amount(before, Other("1900")) == invest - equity + minority
            && Amount(after, Other("1800")) == Amount(before, Other("1800")) - invest
            && Amount(after, Other("ELIM-EQ")) == Amount(before, Other("ELIM-EQ")) - equity
  {
    hide Amount, Gap, SubEquity, InvestmentInSub, InvestmentEquityRows, OwnedEquity;
    assert (subs + [s])[..|subs|] == subs;
    var before := StructuralTo(chart, journal, subs, asOf);
    var equity, invest := SubEquity(chart, journal, s, asOf), InvestmentInSub(journal, s, asOf);
    var rows := if equity == 0 && invest == 0 then [] else InvestmentEquityRows(invest, equity, s.owned);
    assert StructuralTo(chart, journal, subs + [s], asOf) == before + rows;
    InvestmentRowsBalance(invest, equity, s.owned);
    NoRows(NCI);
    NoRows(GOODWILL);
    NoRows(INVESTMENT);
    NoRows(ELIMINATED_EQUITY);
    RowsConcat(before, rows, NCI);
    RowsConcat(before, rows, GOODWILL);
    RowsConcat(before, rows, INVESTMENT);
    RowsConcat(before, rows, ELIMINATED_EQUITY);
  }
}
