/** The direct cash-flow statement: each cash-touching entry's other legs, split
    by activity.  Amounts are base amounts; dates are numbered days. */
module CashFlow {
  import opened Ledger

  datatype ChartRow = ChartRow(kind: AccountType, cashEquivalent: bool)

  type Chart = Account -> ChartRow

  datatype Category = Operating | Investing | Financing

  datatype Posting = Posting(entity: int, date: int, posted: bool, lines: Entry)

  /** None leaves the window open on that side. */
  datatype Window = Window(from: Option<int>, to: Option<int>, entities: set<int>)

  predicate Within(w: Window, p: Posting) {
    && p.posted && p.entity in w.entities
    && (w.from.Some? ==> w.from.value <= p.date)
    && (w.to.Some? ==> p.date <= w.to.value)
  }

  function CategoryOf(chart: Chart, a: Account): Category {
    if a == FixedAssets || a == AccumDepreciation then Investing
    else if chart(a).kind.EquityType? then Financing
    else Operating
  }

  predicate TouchesCash(chart: Chart, lines: Entry) {
    exists k :: 0 <= k < |lines| && chart(lines[k].account).cashEquivalent
  }

  /** Credits less debits of the non-cash legs in one category. */
  function LegsTo(chart: Chart, lines: Entry, n: nat, c: Category): int
    requires n <= |lines|
  {
    if n == 0 then 0
    else
      var l := lines[n - 1];
      LegsTo(chart, lines, n - 1, c)
      + if !chart(l.account).cashEquivalent && CategoryOf(chart, l.account) == c then l.credit - l.debit else 0
  }

  function Contribution(chart: Chart, lines: Entry, c: Category): int {
    if TouchesCash(chart, lines) then LegsTo(chart, lines, |lines|, c) else 0
  }

  /** One row of the statement. */
  function CashFlow(chart: Chart, journal: seq<Posting>, w: Window, c: Category): int {
    if journal == [] then 0
    else
      var p := journal[|journal| - 1];
      CashFlow(chart, journal[..|journal| - 1], w, c) + if Within(w, p) then Contribution(chart, p.lines, c) else 0
  }

  function Total(chart: Chart, journal: seq<Posting>, w: Window): int {
    CashFlow(chart, journal, w, Operating) + CashFlow(chart, journal, w, Investing) + CashFlow(chart, journal, w, Financing)
  }

  /** Debits less credits of the cash legs: the reference the statement explains. */
  function CashLegsTo(chart: Chart, lines: Entry, n: nat): int
    requires n <= |lines|
  {
    if n == 0 then 0
    else CashLegsTo(chart, lines, n - 1)
         + if chart(lines[n - 1].account).cashEquivalent then lines[n - 1].debit - lines[n - 1].credit else 0
  }

  function CashChange(chart: Chart, journal: seq<Posting>, w: Window): int {
    if journal == [] then 0
    else
      var p := journal[|journal| - 1];
      CashChange(chart, journal[..|journal| - 1], w) + if Within(w, p) then CashLegsTo(chart, p.lines, |p.lines|) else 0
  }

  /** What the cash-touching entries of a window are out of balance by. */
  function Imbalance(chart: Chart, journal: seq<Posting>, w: Window): int {
    if journal == [] then 0
    else
      var p := journal[|journal| - 1];
      Imbalance(chart, journal[..|journal| - 1], w)
      + if Within(w, p) && TouchesCash(chart, p.lines) then Excess(p.lines) else 0
  }

  lemma {:induction false} LegsSplit(chart: Chart, lines: Entry, n: nat)
    requires n <= |lines|
    ensures CashLegsTo(chart, lines, n) - ExcessTo(lines, n)
            == LegsTo(chart, lines, n, Operating) + LegsTo(chart, lines, n, Investing) + LegsTo(chart, lines, n, Financing)
  {
    if n > 0 {
      LegsSplit(chart, lines, n - 1);
    }
  }

  lemma {:induction false} NoCashLegs(chart: Chart, lines: Entry, n: nat)
    requires n <= |lines| && !TouchesCash(chart, lines)
    ensures CashLegsTo(chart, lines, n) == 0
  {
    if n > 0 {
      NoCashLegs(chart, lines, n - 1);
    }
  }

  lemma EntrySplit(chart: Chart, lines: Entry)
    ensures Contribution(chart, lines, Operating) + Contribution(chart, lines, Investing) + Contribution(chart, lines, Financing)
            == CashLegsTo(chart, lines, |lines|) - if TouchesCash(chart, lines) then Excess(lines) else 0
  {
    LegsSplit(chart, lines, |lines|);
    if !TouchesCash(chart, lines) {
      NoCashLegs(chart, lines, |lines|);
    }
  }

  /** The three figures miss the change in cash by exactly what the cash-touching
      entries are out of balance by, and by nothing else. */
  lemma {:induction false} FlowsExplainCash(chart: Chart, journal: seq<Posting>, w: Window)
    ensures Total(chart, journal, w) == CashChange(chart, journal, w) - Imbalance(chart, journal, w)
  {
    if journal != [] {
      FlowsExplainCash(chart, journal[..|journal| - 1], w);
      EntrySplit(chart, journal[|journal| - 1].lines);
    }
  }

  predicate AllBalanced(journal: seq<Posting>) {
    forall k :: 0 <= k < |journal| && journal[k].posted ==> Balanced(journal[k].lines)
  }

  lemma {:induction false} NoImbalance(chart: Chart, journal: seq<Posting>, w: Window)
    requires AllBalanced(journal)
    ensures Imbalance(chart, journal, w) == 0
  {
    if journal != [] {
      NoImbalance(chart, journal[..|journal| - 1], w);
    }
  }

  /** The categories sum to the net change in cash, in every window. */
  lemma CategoriesSumToCashChange(chart: Chart, journal: seq<Posting>, w: Window)
    requires AllBalanced(journal)
    ensures Total(chart, journal, w) == CashChange(chart, journal, w)
  {
    FlowsExplainCash(chart, journal, w);
    NoImbalance(chart, journal, w);
  }

  predicate OnlyCash(chart: Chart, lines: Entry) {
    forall k :: 0 <= k < |lines| ==> chart(lines[k].account).cashEquivalent
  }

  lemma {:induction false} OnlyCashLegs(chart: Chart, lines: Entry, n: nat, c: Category)
    requires n <= |lines| && OnlyCash(chart, lines)
    ensures LegsTo(chart, lines, n, c) == 0
  {
    if n > 0 {
      OnlyCashLegs(chart, lines, n - 1, c);
    }
  }

  /** A transfer between cash accounts appears in no category, wherever it stands
      in the journal. */
  lemma {:induction false} TransfersDoNotAppear(chart: Chart, before: seq<Posting>, p: Posting, after: seq<Posting>,
                                                w: Window, c: Category)
    requires OnlyCash(chart, p.lines)
    ensures CashFlow(chart, before + [p] + after, w, c) == CashFlow(chart, before + after, w, c)
  {
    var with, without := before + [p] + after, before + after;
    if after == [] {
      assert with[..|with| - 1] == without;
      OnlyCashLegs(chart, p.lines, |p.lines|, c);
    } else {
      var rest := after[..|after| - 1];
      assert with[..|with| - 1] == before + [p] + rest;
      assert without[..|without| - 1] == before + rest;
      TransfersDoNotAppear(chart, before, p, rest, w, c);
    }
  }

  /** Cash on hand at the end of a day. */
  function CashAt(chart: Chart, journal: seq<Posting>, day: int, entities: set<int>): int {
    CashChange(chart, journal, Window(None, Some(day), entities))
  }

  lemma {:induction false} ChangeIsDifference(chart: Chart, journal: seq<Posting>, from: int, to: int, entities: set<int>)
    requires from <= to + 1
    ensures CashChange(chart, journal, Window(Some(from), Some(to), entities))
            == CashAt(chart, journal, to, entities) - CashAt(chart, journal, from - 1, entities)
  {
    if journal != [] {
      ChangeIsDifference(chart, journal[..|journal| - 1], from, to, entities);
    }
  }

  /** Opening cash plus the three activities is closing cash. */
  lemma CashRollForward(chart: Chart, journal: seq<Posting>, from: int, to: int, entities: set<int>)
    requires AllBalanced(journal) && from <= to + 1
    ensures CashAt(chart, journal, from - 1, entities) + Total(chart, journal, Window(Some(from), Some(to), entities))
            == CashAt(chart, journal, to, entities)
  {
    CategoriesSumToCashChange(chart, journal, Window(Some(from), Some(to), entities));
    ChangeIsDifference(chart, journal, from, to, entities);
  }

  predicate OtherLegs(chart: Chart, lines: Entry, c: Category) {
    forall k :: 0 <= k < |lines| && !chart(lines[k].account).cashEquivalent ==>
      match c
      case Investing => lines[k].account in {FixedAssets, AccumDepreciation}
      case Financing => lines[k].account !in {FixedAssets, AccumDepreciation} && chart(lines[k].account).kind.EquityType?
      case Operating => lines[k].account !in {FixedAssets, AccumDepreciation} && !chart(lines[k].account).kind.EquityType?
  }

  lemma {:induction false} OneActivityLegs(chart: Chart, lines: Entry, n: nat, c: Category, d: Category)
    requires n <= |lines| && OtherLegs(chart, lines, c) && d != c
    ensures LegsTo(chart, lines, n, d) == 0
  {
    if n > 0 {
      OneActivityLegs(chart, lines, n - 1, c, d);
    }
  }

  /** Cash moved against fixed assets alone is investing, against equity alone
      financing, against anything else operating: all of it, and none elsewhere. */
  lemma OneActivity(chart: Chart, lines: Entry, c: Category)
    requires Balanced(lines) && OtherLegs(chart, lines, c)
    ensures Contribution(chart, lines, c) == CashLegsTo(chart, lines, |lines|)
    ensures forall d :: d != c ==> Contribution(chart, lines, d) == 0
  {
    EntrySplit(chart, lines);
    forall d | d != c
      ensures Contribution(chart, lines, d) == 0
    {
      OneActivityLegs(chart, lines, |lines|, c, d);
    }
    assert forall d: Category :: d.Operating? || d.Investing? || d.Financing?;
  }
}
