/** The year-end close: one entry that empties the year's revenue and expense
    accounts into retained earnings, then twelve period locks. */
module YearEnd {
  import opened Ledger

  datatype ChartRow = ChartRow(account: Account, kind: AccountType, active: bool)

  /** An active revenue or expense account. */
  predicate TakenUp(row: ChartRow) {
    row.active && (row.kind.RevenueType? || row.kind.ExpenseType?)
  }

  datatype Status = Draft | Posted | Reversed

  /** Amounts are base amounts; a day is known by its year and month. */
  datatype Dated = Dated(year: int, month: int, status: Status, lines: Entry)

  /** processed holds the years whose closing event has been booked. */
  datatype State = State(journal: seq<Dated>, processed: set<int>, locked: set<(int, int)>)

  datatype Reply = Closed | YearHasDrafts | NothingToClose | LockFailed

  predicate GoodChart(chart: seq<ChartRow>) {
    && (forall i, j :: 0 <= i < j < |chart| ==> chart[i].account != chart[j].account)
    && (forall k :: 0 <= k < |chart| && chart[k].account == RetainedEarnings ==> chart[k].kind.EquityType?)
  }

  /** Debits less credits that the year's posted entries put on an account. */
  function YearNet(journal: seq<Dated>, year: int, a: Account): int {
    if journal == [] then 0
    else
      var e := journal[|journal| - 1];
      YearNet(journal[..|journal| - 1], year, a) + if e.status.Posted? && e.year == year then Net(e.lines, a) else 0
  }

  /** The account's natural balance, where the close takes it up. */
  function ToClose(row: ChartRow, journal: seq<Dated>, year: int): int {
    if !TakenUp(row) then 0
    else if row.kind.RevenueType? then -YearNet(journal, year, row.account)
    else YearNet(journal, year, row.account)
  }

  /** A negative balance flips the side, so contra balances also close. */
  function ZeroingLine(a: Account, balance: int, debitToClear: bool): Line {
    if (balance < 0) != debitToClear then Dr(a, if balance < 0 then -balance else balance)
    else Cr(a, if balance < 0 then -balance else balance)
  }

  function LinesTo(chart: seq<ChartRow>, n: nat, journal: seq<Dated>, year: int): Entry
    requires n <= |chart|
  {
    if n == 0 then []
    else
      var row := chart[n - 1];
      var b := ToClose(row, journal, year);
      LinesTo(chart, n - 1, journal, year)
      + if b == 0 then [] else [ZeroingLine(row.account, b, row.kind.RevenueType?)]
  }

  function IncomeTo(chart: seq<ChartRow>, n: nat, journal: seq<Dated>, year: int): int
    requires n <= |chart|
  {
    if n == 0 then 0
    else
      var b := ToClose(chart[n - 1], journal, year);
      IncomeTo(chart, n - 1, journal, year) + if chart[n - 1].kind.RevenueType? then b else -b
  }

  /** Revenue less expense of the year. */
  function NetIncome(chart: seq<ChartRow>, journal: seq<Dated>, year: int): int {
    IncomeTo(chart, |chart|, journal, year)
  }

  function ToEquity(income: int): Entry {
    CrIfPositive(RetainedEarnings, income) + DrIfPositive(RetainedEarnings, -income)
  }

  function ClosingEntry(chart: seq<ChartRow>, journal: seq<Dated>, year: int): Entry {
    LinesTo(chart, |chart|, journal, year) + ToEquity(NetIncome(chart, journal, year))
  }

  function Months(year: int, n: nat): set<(int, int)> {
    if n == 0 then {} else Months(year, n - 1) + {(year, n)}
  }

  predicate HasDrafts(journal: seq<Dated>, year: int) {
    exists k :: 0 <= k < |journal| && journal[k].status.Draft? && journal[k].year == year
  }

  predicate NothingOpen(chart: seq<ChartRow>, journal: seq<Dated>, year: int) {
    forall k :: 0 <= k < |chart| ==> ToClose(chart[k], journal, year) == 0
  }

  function ReplyTo(chart: seq<ChartRow>, s: State, year: int, locks: nat): Reply {
    if HasDrafts(s.journal, year) then YearHasDrafts
    else if NothingOpen(chart, s.journal, year) then NothingToClose
    else if locks < 12 then LockFailed else Closed
  }

  /** A close whose period locks fail after `locks` of them; from twelve on none fails.
      An already processed closing event adds no entry. */
  function Close(chart: seq<ChartRow>, s: State, year: int, locks: nat): State {
    if HasDrafts(s.journal, year) || NothingOpen(chart, s.journal, year) then s
    else State(if year in s.processed then s.journal
               else s.journal + [Dated(year, 12, Posted, ClosingEntry(chart, s.journal, year))],
               s.processed + {year},
               s.locked + Months(year, if locks < 12 then locks else 12))
  }

  // ----- the closing entry

  lemma ZeroingLineNet(row: ChartRow, b: int)
    requires b != 0
    ensures var l := ZeroingLine(row.account, b, row.kind.RevenueType?);
            && l.account == row.account
            && l.debit - l.credit == (if row.kind.RevenueType? then b else -b)
            && OneSided([l])
  {
  }

  predicate ListedTo(chart: seq<ChartRow>, n: nat, a: Account)
    requires n <= |chart|
  {
    exists k :: 0 <= k < n && chart[k].account == a
  }

  lemma {:induction false} LinesNet(chart: seq<ChartRow>, n: nat, journal: seq<Dated>, year: int, a: Account)
    requires GoodChart(chart) && n <= |chart|
    ensures Excess(LinesTo(chart, n, journal, year)) == IncomeTo(chart, n, journal, year)
    ensures !ListedTo(chart, n, a) ==> Net(LinesTo(chart, n, journal, year), a) == 0
    ensures forall k :: 0 <= k < n && chart[k].account == a ==>
              Net(LinesTo(chart, n, journal, year), a)
              == if TakenUp(chart[k]) then -YearNet(journal, year, a) else 0
  {
    hide Net, Excess, YearNet, ZeroingLine, TakenUp;
    if n == 0 {
      NetOne(Dr(a, 0), a);
    } else {
      var row := chart[n - 1];
      var b := ToClose(row, journal, year);
      var before := LinesTo(chart, n - 1, journal, year);
      LinesNet(chart, n - 1, journal, year, a);
      assert row.account == a ==> !ListedTo(chart, n - 1, a);
      assert ListedTo(chart, n, a) <==> ListedTo(chart, n - 1, a) || row.account == a;
      if b != 0 {
        ZeroingLineNet(row, b);
        NetSnoc(before, ZeroingLine(row.account, b, row.kind.RevenueType?), a);
      } else {
        assert LinesTo(chart, n, journal, year) == before;
      }
    }
  }

  lemma ToEquityNet(income: int, a: Account)
    ensures Excess(ToEquity(income)) == -income
    ensures Net(ToEquity(income), a) == if a == RetainedEarnings then -income else 0
  {
    NetConcat(CrIfPositive(RetainedEarnings, income), DrIfPositive(RetainedEarnings, -income), a);
    IfPositiveNet(RetainedEarnings, income, a);
    IfPositiveNet(RetainedEarnings, -income, a);
  }

  /** The closing entry balances, clears each account it takes up, moves net income
      to retained earnings, and touches nothing else. */
  lemma ClosingEntryNet(chart: seq<ChartRow>, journal: seq<Dated>, year: int, a: Account)
    requires GoodChart(chart)
    ensures Balanced(ClosingEntry(chart, journal, year))
    ensures Net(ClosingEntry(chart, journal, year), a)
            == (if exists k :: 0 <= k < |chart| && chart[k].account == a && TakenUp(chart[k])
                then -YearNet(journal, year, a) else 0)
               - (if a == RetainedEarnings then NetIncome(chart, journal, year) else 0)
  {
    hide Net, Excess, YearNet, LinesTo, ToEquity, IncomeTo;
    LinesNet(chart, |chart|, journal, year, a);
    ToEquityNet(NetIncome(chart, journal, year), a);
    NetConcat(LinesTo(chart, |chart|, journal, year), ToEquity(NetIncome(chart, journal, year)), a);
  }

  lemma OneSidedSnoc(lines: Entry, l: Line)
    requires OneSided(lines) && OneSided([l])
    ensures OneSided(lines + [l])
  {
    assert [l][0] == l;
  }

  lemma {:induction false} LinesOneSided(chart: seq<ChartRow>, n: nat, journal: seq<Dated>, year: int)
    requires n <= |chart|
    ensures OneSided(LinesTo(chart, n, journal, year))
    ensures LinesTo(chart, n, journal, year) == [] <==> forall k :: 0 <= k < n ==> ToClose(chart[k], journal, year) == 0
  {
    hide ToClose, ZeroingLine, OneSided;
    if n == 0 {
      NoLines();
    } else {
      var row := chart[n - 1];
      var b := ToClose(row, journal, year);
      LinesOneSided(chart, n - 1, journal, year);
      if b != 0 {
        ZeroingLineNet(row, b);
        OneSidedSnoc(LinesTo(chart, n - 1, journal, year), ZeroingLine(row.account, b, row.kind.RevenueType?));
      } else {
        assert LinesTo(chart, n, journal, year) == LinesTo(chart, n - 1, journal, year);
      }
    }
  }

  lemma NoLines()
    ensures OneSided([])
  {
  }

  // ----- over whole histories

  lemma YearNetSnoc(journal: seq<Dated>, e: Dated, year: int, a: Account)
    ensures YearNet(journal + [e], year, a)
            == YearNet(journal, year, a) + if e.status.Posted? && e.year == year then Net(e.lines, a) else 0
  {
    assert (journal + [e])[..|journal|] == journal;
  }

  /** Debits less credits of the year over the active revenue and expense accounts. */
  function YearResult(chart: seq<ChartRow>, journal: seq<Dated>, year: int): int {
    if chart == [] then 0
    else
      var row := chart[|chart| - 1];
      YearResult(chart[..|chart| - 1], journal, year)
      + if row.active && (row.kind.RevenueType? || row.kind.ExpenseType?) then YearNet(journal, year, row.account) else 0
  }

  lemma {:induction false} IncomeIsResult(chart: seq<ChartRow>, n: nat, journal: seq<Dated>, year: int)
    requires n <= |chart|
    ensures IncomeTo(chart, n, journal, year) == -YearResult(chart[..n], journal, year)
  {
    hide YearNet;
    if n > 0 {
      IncomeIsResult(chart, n - 1, journal, year);
      assert chart[..n][..n - 1] == chart[..n - 1];
    }
  }

  /** A year's first close books one balanced entry, after which every active revenue
      and expense account stands at zero for the year and retained earnings has moved
      by exactly what those accounts held; every other account is as before, and so is
      every account in every other year. */
  lemma FirstClose(chart: seq<ChartRow>, s: State, year: int, locks: nat)
    requires GoodChart(chart) && year !in s.processed
    requires forall k :: 0 <= k < |s.journal| ==> s.journal[k].year != year || !s.journal[k].status.Draft?
    requires exists k :: 0 <= k < |chart| && chart[k].active && (chart[k].kind.RevenueType? || chart[k].kind.ExpenseType?)
                         && YearNet(s.journal, year, chart[k].account) != 0
    ensures var t := Close(chart, s, year, locks);
            && |t.journal| == |s.journal| + 1 && t.journal[..|s.journal|] == s.journal
            && Balanced(t.journal[|s.journal|].lines) && OneSided(t.journal[|s.journal|].lines)
            && t.journal[|s.journal|].year == year && t.journal[|s.journal|].month == 12
            && t.journal[|s.journal|].status.Posted?
            && (forall k :: 0 <= k < |chart| && chart[k].active && (chart[k].kind.RevenueType? || chart[k].kind.ExpenseType?)
                  ==> YearNet(t.journal, year, chart[k].account) == 0)
            && YearNet(t.journal, year, RetainedEarnings)
               == YearNet(s.journal, year, RetainedEarnings) + YearResult(chart, s.journal, year)
            && (forall a :: a != RetainedEarnings
                  && (forall k :: 0 <= k < |chart| && chart[k].account == a
                        ==> !chart[k].active || !(chart[k].kind.RevenueType? || chart[k].kind.ExpenseType?))
                  ==> YearNet(t.journal, year, a) == YearNet(s.journal, year, a))
            && (forall y, a :: y != year ==> YearNet(t.journal, y, a) == YearNet(s.journal, y, a))
  {
    hide YearNet, YearResult, Close, Balanced, OneSided;
    OpenIffActive(chart, s.journal, year);
    CloseClears(chart, s, year, locks);
    IncomeIsResult(chart, |chart|, s.journal, year);
    assert chart[..|chart|] == chart;
  }

  lemma OpenIffActive(chart: seq<ChartRow>, journal: seq<Dated>, year: int)
    ensures !NothingOpen(chart, journal, year)
            <==> exists k :: 0 <= k < |chart| && chart[k].active && (chart[k].kind.RevenueType? || chart[k].kind.ExpenseType?)
                             && YearNet(journal, year, chart[k].account) != 0
  {
    hide YearNet;
  }

  lemma CloseClears(chart: seq<ChartRow>, s: State, year: int, locks: nat)
    requires GoodChart(chart) && year !in s.processed
    requires !HasDrafts(s.journal, year) && !NothingOpen(chart, s.journal, year)
    ensures var t := Close(chart, s, year, locks);
            && t.journal == s.journal + [Dated(year, 12, Posted, ClosingEntry(chart, s.journal, year))]
            && Balanced(t.journal[|s.journal|].lines) && OneSided(t.journal[|s.journal|].lines)
            && (forall k :: 0 <= k < |chart| && TakenUp(chart[k]) ==> YearNet(t.journal, year, chart[k].account) == 0)
            && YearNet(t.journal, year, RetainedEarnings)
               == YearNet(s.journal, year, RetainedEarnings) - NetIncome(chart, s.journal, year)
            && (forall a :: a != RetainedEarnings && (forall k :: 0 <= k < |chart| && TakenUp(chart[k]) ==> chart[k].account != a)
                  ==> YearNet(t.journal, year, a) == YearNet(s.journal, year, a))
            && (forall y, a :: y != year ==> YearNet(t.journal, y, a) == YearNet(s.journal, y, a))
  {
    hide Net, Excess, YearNet, LinesTo, ToEquity, IncomeTo, ClosingEntry;
    var e := Dated(year, 12, Posted, ClosingEntry(chart, s.journal, year));
    assert Close(chart, s, year, locks).journal == s.journal + [e];
    ClosingEntryOneSided(chart, s.journal, year);
    forall a
      ensures YearNet(s.journal + [e], year, a) == YearNet(s.journal, year, a) + Net(e.lines, a)
    {
      YearNetSnoc(s.journal, e, year, a);
    }
    forall a
      ensures Net(e.lines, a)
              == (if exists k :: 0 <= k < |chart| && chart[k].account == a && TakenUp(chart[k])
                  then -YearNet(s.journal, year, a) else 0)
                 - (if a == RetainedEarnings then NetIncome(chart, s.journal, year) else 0)
    {
      ClosingEntryNet(chart, s.journal, year, a);
    }
    forall y, a | y != year
      ensures YearNet(s.journal + [e], y, a) == YearNet(s.journal, y, a)
    {
      YearNetSnoc(s.journal, e, y, a);
    }
    ClosingEntryNet(chart, s.journal, year, RetainedEarnings);
  }

  /** A close is refused, and changes nothing, while a draft is dated in the year and
      when no active revenue or expense account has a balance for it.  Otherwise it
      locks the first twelve months as far as its locks get, adds an entry only for a
      year not closed before, and succeeds exactly when all twelve locks did. */
  lemma CloseAnswers(chart: seq<ChartRow>, s: State, year: int, locks: nat)
    ensures var t, r := Close(chart, s, year, locks), ReplyTo(chart, s, year, locks);
            var draft := exists k :: 0 <= k < |s.journal| && s.journal[k].year == year && s.journal[k].status == Draft;
            var open := exists k :: 0 <= k < |chart| && chart[k].active
                                    && (chart[k].kind == RevenueType || chart[k].kind == ExpenseType)
                                    && YearNet(s.journal, year, chart[k].account) != 0;
            && (draft ==> r == YearHasDrafts)
            && (!draft && !open ==> r == NothingToClose)
            && (draft || !open ==> t == s)
            && (!draft && open ==>
                  && r == (if locks >= 12 then Closed else LockFailed)
                  && t.processed == s.processed + {year}
                  && (forall y, m :: (y, m) in t.locked <==> (y, m) in s.locked || (y == year && 1 <= m <= 12 && m <= locks))
                  && (t.journal == s.journal <==> year in s.processed))
  {
    hide YearNet, LinesTo, IncomeTo;
    OpenIffActive(chart, s.journal, year);
    forall y, m
      ensures (y, m) in Months(year, if locks < 12 then locks else 12) <==> y == year && 1 <= m <= 12 && m <= locks
    {
      MonthsAre(year, if locks < 12 then locks else 12, y, m);
    }
    assert |s.journal + [Dated(year, 12, Posted, ClosingEntry(chart, s.journal, year))]| == |s.journal| + 1;
  }

  lemma ClosingEntryOneSided(chart: seq<ChartRow>, journal: seq<Dated>, year: int)
    ensures OneSided(ClosingEntry(chart, journal, year))
  {
    hide LinesTo, IncomeTo;
    LinesOneSided(chart, |chart|, journal, year);
  }

  /** From then on the year has nothing to close: any further call leaves the whole
      state alone and reports an error, although the comment on the code promises
      the existing entry. */
  lemma RepeatChangesNothing(chart: seq<ChartRow>, s: State, year: int, locks: nat, again: nat)
    requires GoodChart(chart) && year !in s.processed
    requires !HasDrafts(s.journal, year) && !NothingOpen(chart, s.journal, year)
    ensures var t := Close(chart, s, year, locks);
            Close(chart, t, year, again) == t && ReplyTo(chart, t, year, again) == NothingToClose
  {
    var t := Close(chart, s, year, locks);
    FirstClose(chart, s, year, locks);
    FirstCloseDrafts(s, t, year);
    assert forall k :: 0 <= k < |chart| ==> ToClose(chart[k], t.journal, year) == 0;
  }

  lemma FirstCloseDrafts(s: State, t: State, year: int)
    requires |t.journal| == |s.journal| + 1 && t.journal[..|s.journal|] == s.journal
    requires !HasDrafts(s.journal, year) && t.journal[|s.journal|].status.Posted?
    ensures !HasDrafts(t.journal, year)
  {
    forall k | 0 <= k < |t.journal|
      ensures !(t.journal[k].status.Draft? && t.journal[k].year == year)
    {
      if k < |s.journal| {
        assert t.journal[k] == s.journal[k];
      }
    }
  }

  function Attempts(chart: seq<ChartRow>, s: State, year: int, locks: seq<nat>): State {
    if locks == [] then s else Close(chart, Attempts(chart, s, year, locks[..|locks| - 1]), year, locks[|locks| - 1])
  }

  /** Any number of attempts is worth the first one. */
  lemma {:induction false} OnlyTheFirstAttemptCounts(chart: seq<ChartRow>, s: State, year: int, locks: seq<nat>)
    requires GoodChart(chart) && year !in s.processed && locks != []
    requires !HasDrafts(s.journal, year) && !NothingOpen(chart, s.journal, year)
    ensures Attempts(chart, s, year, locks) == Close(chart, s, year, locks[0])
  {
    hide Close;
    var before := locks[..|locks| - 1];
    if before == [] {
      assert Attempts(chart, s, year, before) == s;
    } else {
      OnlyTheFirstAttemptCounts(chart, s, year, before);
      RepeatChangesNothing(chart, s, year, locks[0], locks[|locks| - 1]);
    }
  }

  lemma {:induction false} MonthsAre(year: int, n: nat, y: int, m: int)
    ensures (y, m) in Months(year, n) <==> y == year && 1 <= m <= n
  {
    if n > 0 {
      MonthsAre(year, n - 1, y, m);
    }
  }

  /** So the attempts lock the year exactly when the first of them got through all
      its locks: one cut short leaves the remaining months open for good. */
  lemma LockedIffFirstAttemptFinished(chart: seq<ChartRow>, s: State, year: int, locks: seq<nat>)
    requires GoodChart(chart) && year !in s.processed && locks != []
    requires !HasDrafts(s.journal, year) && !NothingOpen(chart, s.journal, year)
    requires (year, 12) !in s.locked
    ensures (forall m :: 1 <= m <= 12 ==> (year, m) in Attempts(chart, s, year, locks).locked) <==> locks[0] >= 12
    ensures forall m :: 1 <= m <= 12 ==>
              ((year, m) in Attempts(chart, s, year, locks).locked <==> (year, m) in s.locked || m <= locks[0])
  {
    OnlyTheFirstAttemptCounts(chart, s, year, locks);
    forall m | 1 <= m <= 12
      ensures (year, m) in Attempts(chart, s, year, locks).locked <==> (year, m) in s.locked || m <= locks[0]
    {
      MonthsAre(year, if locks[0] < 12 then locks[0] else 12, year, m);
    }
    assert (year, 12) in Attempts(chart, s, year, locks).locked <==> locks[0] >= 12;
  }

  /** Such a year: a sale in June, a first close that fails after five locks, and a
      second one that gets no further. */
  lemma HalfLockedYear(year: int, amount: int)
    requires amount > 0
    ensures var chart := [ChartRow(Revenue, RevenueType, true), ChartRow(RetainedEarnings, EquityType, true)];
            var s := State([Dated(year, 6, Posted, Pair(Cash, Revenue, amount))], {}, {});
            var t := Attempts(chart, s, year, [5, 12]);
            && |t.journal| == 2 && (year, 5) in t.locked && (year, 6) !in t.locked && (year, 12) !in t.locked
  {
    hide Net, Close, Attempts, ClosingEntry;
    var chart := [ChartRow(Revenue, RevenueType, true), ChartRow(RetainedEarnings, EquityType, true)];
    var sale := Dated(year, 6, Posted, Pair(Cash, Revenue, amount));
    var s := State([sale], {}, {});
    PairNet(Cash, Revenue, amount, Revenue);
    YearNetSnoc([], sale, year, Revenue);
    assert [] + [sale] == [sale];
    assert ToClose(chart[0], s.journal, year) == amount;
    OnlyTheFirstAttemptCounts(chart, s, year, [5, 12]);
    FirstClose(chart, s, year, 5);
    LockedIffFirstAttemptFinished(chart, s, year, [5, 12]);
  }

  /** A year reopened and traded in again cannot be closed a second time: the call
      books nothing, and what has been posted since stays in its accounts. */
  lemma SecondCloseBooksNothing(chart: seq<ChartRow>, s: State, year: int, locks: nat)
    requires year in s.processed
    ensures Close(chart, s, year, locks).journal == s.journal
    ensures ReplyTo(chart, s, year, locks) == Closed ==>
              exists k :: 0 <= k < |chart| && ToClose(chart[k], Close(chart, s, year, locks).journal, year) != 0
  {
  }

  class YearBook {
    const chart: seq<ChartRow>
    var journal: seq<Dated>
    var processed: set<int>
    var locked: set<(int, int)>

    ghost function View(): State
      reads this
    {
      State(journal, processed, locked)
    }

    constructor (chart: seq<ChartRow>, journal: seq<Dated>)
      ensures this.chart == chart && View() == State(journal, {}, {})
    {
      this.chart, this.journal, processed, locked := chart, journal, {}, {};
    }

    method CountDraftEntriesInYear(year: int) returns (n: nat)
      ensures n > 0 <==> HasDrafts(journal, year)
    {
      n := 0;
      for k := 0 to |journal|
        invariant n > 0 <==> exists j :: 0 <= j < k && journal[j].status.Draft? && journal[j].year == year
      {
        if journal[k].status.Draft? && journal[k].year == year {
          n := n + 1;
        }
      }
    }

    /** The natural balance of one row of the chart over the year's posted entries. */
    method RevenueExpenseBalance(row: ChartRow, year: int) returns (b: int)
      ensures b == ToClose(row, journal, year)
    {
      if !TakenUp(row) {
        return 0;
      }
      b := 0;
      for k := 0 to |journal|
        invariant b == YearNet(journal[..k], year, row.account)
      {
        assert journal[..k + 1] == journal[..k] + [journal[k]];
        YearNetSnoc(journal[..k], journal[k], year, row.account);
        if journal[k].status.Posted? && journal[k].year == year {
          b := b + Net(journal[k].lines, row.account);
        }
      }
      assert journal[..|journal|] == journal;
      if row.kind.RevenueType? {
        b := -b;
      }
    }

    method CloseFiscalYear(year: int, locks: nat) returns (r: Reply)
      requires GoodChart(chart)
      modifies this
      ensures View() == Close(chart, old(View()), year, locks)
      ensures r == ReplyTo(chart, old(View()), year, locks)
    {
      var drafts := CountDraftEntriesInYear(year);
      if drafts > 0 {
        return YearHasDrafts;
      }
      var lines := BuildClosingLines(year);
      if lines == [] {
        return NothingToClose;
      }
      if year !in processed {
        journal := journal + [Dated(year, 12, Posted, lines)];
      }
      processed := processed + {year};
      ghost var before := locked;
      for m := 1 to 13
        invariant locked == before + Months(year, m - 1)
        invariant m - 1 <= locks
        invariant journal == (if year in old(processed) then old(journal) else old(journal) + [Dated(year, 12, Posted, lines)])
        invariant processed == old(processed) + {year}
      {
        if m - 1 == locks {
          return LockFailed;
        }
        locked := locked + {(year, m)};
      }
      return Closed;
    }

    method BuildClosingLines(year: int) returns (lines: Entry)
      requires GoodChart(chart)
      ensures lines == (if NothingOpen(chart, journal, year) then [] else ClosingEntry(chart, journal, year))
      ensures lines == [] <==> NothingOpen(chart, journal, year)
    {
      lines := [];
      var netIncome := 0;
      for k := 0 to |chart|
        invariant lines == LinesTo(chart, k, journal, year)
        invariant netIncome == IncomeTo(chart, k, journal, year)
      {
        var b := RevenueExpenseBalance(chart[k], year);
        if b != 0 {
          if chart[k].kind.RevenueType? {
            lines := lines + [ZeroingLine(chart[k].account, b, true)];
            netIncome := netIncome + b;
          } else {
            lines := lines + [ZeroingLine(chart[k].account, b, false)];
            netIncome := netIncome - b;
          }
        }
      }
      LinesOneSided(chart, |chart|, journal, year);
      if lines == [] {
        return;
      }
      ghost var cleared := lines;
      if netIncome > 0 {
        lines := lines + [Cr(RetainedEarnings, netIncome)];
      } else if netIncome < 0 {
        lines := lines + [Dr(RetainedEarnings, -netIncome)];
      }
      assert lines == cleared + ToEquity(netIncome);
    }
  }
}
