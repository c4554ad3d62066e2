/** The consolidated balance sheet as it is printed: balance-sheet accounts, one line
    of earnings over all entities, and only those transactional eliminations that are
    on balance-sheet accounts. */
module GroupBalanceSheet {
  import opened Ledger
  import opened Consolidation

  const NET_INCOME := Other("NET-INCOME")

  predicate Earning(kind: AccountType) {
    kind.RevenueType? || kind.ExpenseType?
  }

  /** Revenue less expense of the picked entries. */
  function NetIncomeTo(chart: seq<ChartRow>, n: nat, journal: seq<GroupEntry>, pick: Pick): int
    requires n <= |chart|
  {
    if n == 0 then 0
    else NetIncomeTo(chart, n - 1, journal, pick)
         - if Earning(chart[n - 1].kind) then PickedNet(journal, pick, chart[n - 1].account) else 0
  }

  function NetIncome(chart: seq<ChartRow>, journal: seq<GroupEntry>, pick: Pick): int {
    NetIncomeTo(chart, |chart|, journal, pick)
  }

  function SheetTo(chart: seq<ChartRow>, n: nat, journal: seq<GroupEntry>, pick: Pick): seq<Row>
    requires n <= |chart|
  {
    if n == 0 then []
    else
      var c := chart[n - 1];
      SheetTo(chart, n - 1, journal, pick)
      + if Earning(c.kind) then [] else [Row(c.account, c.kind, Natural(c.kind, PickedNet(journal, pick, c.account)))]
  }

  /** The eliminations the balance sheet takes over. */
  function SheetEliminationsTo(chart: seq<ChartRow>, n: nat, journal: seq<GroupEntry>, w: Window): seq<Row>
    requires n <= |chart|
  {
    if n == 0 then []
    else
      var c := chart[n - 1];
      var b := Natural(c.kind, PickedNet(journal, Intra(w), c.account));
      SheetEliminationsTo(chart, n - 1, journal, w) + if Earning(c.kind) || b == 0 then [] else [Row(c.account, c.kind, -b)]
  }

  function Earnings(chart: seq<ChartRow>, journal: seq<GroupEntry>, w: Window): seq<Row> {
    var income := NetIncome(chart, journal, Aggregated(w));
    if income == 0 then [] else [Row(NET_INCOME, EquityType, income)]
  }

  /** As of a date: everything up to it. */
  function BalanceSheet(chart: seq<ChartRow>, journal: seq<GroupEntry>, scope: set<int>, subs: seq<Subsidiary>, asOf: Option<int>): seq<Row> {
    var w := Window(None, asOf, scope);
    SheetTo(chart, |chart|, journal, Aggregated(w)) + Earnings(chart, journal, w)
    + SheetEliminationsTo(chart, |chart|, journal, w) + StructuralTo(chart, journal, subs, asOf)
  }

  /** Leaving the earning accounts out shifts a statement by their net income. */
  lemma {:induction false} SheetGap(chart: seq<ChartRow>, n: nat, journal: seq<GroupEntry>, pick: Pick)
    requires n <= |chart|
    ensures Gap(SheetTo(chart, n, journal, pick)) == Gap(StatementTo(chart, n, journal, pick)) + NetIncomeTo(chart, n, journal, pick)
  {
    hide PickedNet, Gap;
    if n == 0 {
      NoRows(NET_INCOME);
    } else {
      var c := chart[n - 1];
      var row := Row(c.account, c.kind, Natural(c.kind, PickedNet(journal, pick, c.account)));
      SheetGap(chart, n - 1, journal, pick);
      RowsSnoc(StatementTo(chart, n - 1, journal, pick), row, NET_INCOME);
      if Earning(c.kind) {
        assert SheetTo(chart, n, journal, pick) == SheetTo(chart, n - 1, journal, pick);
      } else {
        RowsSnoc(SheetTo(chart, n - 1, journal, pick), row, NET_INCOME);
      }
    }
  }

  lemma {:induction false} SheetEliminationsGap(chart: seq<ChartRow>, n: nat, journal: seq<GroupEntry>, w: Window)
    requires n <= |chart|
    ensures Gap(SheetEliminationsTo(chart, n, journal, w)) == -Gap(SheetTo(chart, n, journal, Intra(w)))
  {
    hide PickedNet, Gap, Intra;
    if n == 0 {
      NoRows(NET_INCOME);
    } else {
      var c := chart[n - 1];
      var b := Natural(c.kind, PickedNet(journal, Intra(w), c.account));
      SheetEliminationsGap(chart, n - 1, journal, w);
      if Earning(c.kind) {
        assert SheetTo(chart, n, journal, Intra(w)) == SheetTo(chart, n - 1, journal, Intra(w));
        assert SheetEliminationsTo(chart, n, journal, w) == SheetEliminationsTo(chart, n - 1, journal, w);
      } else {
        RowsSnoc(SheetTo(chart, n - 1, journal, Intra(w)), Row(c.account, c.kind, b), NET_INCOME);
        RowsSnoc(SheetEliminationsTo(chart, n - 1, journal, w), Row(c.account, c.kind, -b), NET_INCOME);
        if b == 0 {
          assert SheetEliminationsTo(chart, n, journal, w) == SheetEliminationsTo(chart, n - 1, journal, w);
        }
      }
    }
  }

  lemma EarningsGap(chart: seq<ChartRow>, journal: seq<GroupEntry>, w: Window)
    ensures Gap(Earnings(chart, journal, w)) == -NetIncome(chart, journal, Aggregated(w))
  {
    hide NetIncome;
    var income := NetIncome(chart, journal, Aggregated(w));
    NoRows(NET_INCOME);
    RowsSnoc([], Row(NET_INCOME, EquityType, income), NET_INCOME);
    assert [] + [Row(NET_INCOME, EquityType, income)] == [Row(NET_INCOME, EquityType, income)];
  }

  /** The sheet is off by what the entries left in are out of balance by, less the net
      income of the intra-group entries, which stays in the earnings line. */
  lemma BalanceSheetGap(chart: seq<ChartRow>, journal: seq<GroupEntry>, scope: set<int>, subs: seq<Subsidiary>, asOf: Option<int>)
    requires GoodBooks(chart, journal) && GoodSubs(subs)
    ensures var w := Window(None, asOf, scope);
            Gap(BalanceSheet(chart, journal, scope, subs, asOf))
            == PickedExcess(journal, Outside(w)) - NetIncome(chart, journal, Intra(w))
  {
    hide Gap, PickedNet, PickedExcess, SheetTo, SheetEliminationsTo, StructuralTo, Earnings;
    var w, n := Window(None, asOf, scope), |chart|;
    var x, e := SheetTo(chart, n, journal, Aggregated(w)), Earnings(chart, journal, w);
    var y, z := SheetEliminationsTo(chart, n, journal, w), StructuralTo(chart, journal, subs, asOf);
    SheetGap(chart, n, journal, Aggregated(w));
    SheetGap(chart, n, journal, Intra(w));
    SheetEliminationsGap(chart, n, journal, w);
    StatementGapIsExcess(chart, journal, Aggregated(w));
    StatementGapIsExcess(chart, journal, Intra(w));
    SplitExcess(journal, w);
    EarningsGap(chart, journal, w);
    StructuralBalances(chart, journal, subs, asOf);
    RowsConcat(x, e, NCI);
    RowsConcat(x + e, y, NCI);
    RowsConcat(x + e + y, z, NCI);
  }

  /** The comment on the handler says intra-group earnings cancel for matched trades.
      With balanced books the sheet balances exactly when they do: when the intra-group
      entries up to the date have no net income. */
  lemma BalanceSheetBalancesIff(chart: seq<ChartRow>, journal: seq<GroupEntry>, scope: set<int>, subs: seq<Subsidiary>, asOf: Option<int>)
    requires GoodBooks(chart, journal) && GoodSubs(subs)
    requires forall k :: 0 <= k < |journal| && journal[k].posted ==> Balanced(journal[k].lines)
    ensures Gap(BalanceSheet(chart, journal, scope, subs, asOf)) == 0
            <==> NetIncome(chart, journal, Intra(Window(None, asOf, scope))) == 0
  {
    hide Gap, BalanceSheet, NetIncome;
    BalanceSheetGap(chart, journal, scope, subs, asOf);
    NoExcess(journal, Outside(Window(None, asOf, scope)));
  }

  const SMALL_CHART :=
    [ChartRow(Receivables, AssetType), ChartRow(Inventory, AssetType), ChartRow(Payables, LiabilityType), ChartRow(Revenue, RevenueType)]

  /** One sale within the group of goods the buyer still holds is enough to unbalance
      it: the seller's revenue has no expense against it. */
  lemma GoodsStillHeld(amount: int, date: int)
    requires amount != 0
    ensures var sale := GroupEntry(1, Some(2), date, true, Pair(Receivables, Revenue, amount));
            var purchase := GroupEntry(2, Some(1), date, true, Pair(Inventory, Payables, amount));
            && GoodBooks(SMALL_CHART, [sale, purchase])
            && Gap(BalanceSheet(SMALL_CHART, [sale, purchase], {1, 2}, [], None)) == -amount
  {
    hide Gap, BalanceSheet, Net;
    var sale := GroupEntry(1, Some(2), date, true, Pair(Receivables, Revenue, amount));
    var purchase := GroupEntry(2, Some(1), date, true, Pair(Inventory, Payables, amount));
    var journal, w := [sale, purchase], Window(None, None, {1, 2});
    SmallBooks(sale, purchase, amount, date);
    PairNet(Receivables, Revenue, amount, Revenue);
    PairNet(Inventory, Payables, amount, Revenue);
    assert journal[..1] == [sale] && [sale][..0] == [];
    assert PickedNet([], Intra(w), Revenue) == 0;
    assert PickedNet([sale], Intra(w), Revenue) == -amount;
    assert PickedNet(journal, Intra(w), Revenue) == -amount;
    SmallIncome(journal, Intra(w));
    BalanceSheetGap(SMALL_CHART, journal, {1, 2}, [], None);
    NoExcess(journal, Outside(w));
  }

  lemma SmallIncome(journal: seq<GroupEntry>, pick: Pick)
    ensures NetIncome(SMALL_CHART, journal, pick) == -PickedNet(journal, pick, Revenue)
  {
    hide PickedNet;
    assert NetIncomeTo(SMALL_CHART, 0, journal, pick) == 0;
    assert NetIncomeTo(SMALL_CHART, 1, journal, pick) == 0;
    assert NetIncomeTo(SMALL_CHART, 2, journal, pick) == 0;
    assert NetIncomeTo(SMALL_CHART, 3, journal, pick) == 0;
  }

  lemma SmallBooks(sale: GroupEntry, purchase: GroupEntry, amount: int, date: int)
    requires sale == GroupEntry(1, Some(2), date, true, Pair(Receivables, Revenue, amount))
    requires purchase == GroupEntry(2, Some(1), date, true, Pair(Inventory, Payables, amount))
    ensures GoodBooks(SMALL_CHART, [sale, purchase]) && Balanced(sale.lines) && Balanced(purchase.lines)
    ensures IntraGroup(Window(None, None, {1, 2}), sale) && IntraGroup(Window(None, None, {1, 2}), purchase)
  {
    PairNet(Receivables, Revenue, amount, Cash);
    PairNet(Inventory, Payables, amount, Cash);
    assert SMALL_CHART[0].account == Receivables && SMALL_CHART[1].account == Inventory;
    assert SMALL_CHART[2].account == Payables && SMALL_CHART[3].account == Revenue;
  }
}
