/** What the period runs leave in interest, depreciation expense and cash. */
module LeaseFlows {
  import opened Ledger
  import opened LeaseRuns
  import opened LeaseSchedule

  /** The amount a column has put on its account, in its natural direction. */
  function Flow(journal: seq<Entry>, f: Field): int {
    match f
    case InterestF => Balance(journal, LeaseInterest)
    case PrincipalF => Balance(journal, LeaseLiability)
    case PaymentF => CreditBalance(journal, Cash)
    case DepreciationF => Balance(journal, RouDepExpense)
  }

  function AccountOf(f: Field): Account {
    match f
    case InterestF => LeaseInterest
    case PrincipalF => LeaseLiability
    case PaymentF => Cash
    case DepreciationF => RouDepExpense
  }

  lemma RecogniseFlow(journal: seq<Entry>, liability: int, f: Field)
    requires f != PrincipalF
    ensures Flow(journal + [Pair(RouAsset, LeaseLiability, liability)], f) == Flow(journal, f)
  {
    hide Net;
    BalanceSnoc(journal, Pair(RouAsset, LeaseLiability, liability), AccountOf(f));
    PairNet(RouAsset, LeaseLiability, liability, AccountOf(f));
  }

  lemma RunFlow(journal: seq<Entry>, lines: seq<StoredLine>, period: int, f: Field)
    requires f != PrincipalF
    ensures Flow(journal + [RunEntry(lines, period)], f) == Flow(journal, f) + Sum(lines, f, Due(period))
  {
    hide Net, RunLines, Sum;
    var w := Due(period);
    BalanceSnoc(journal, RunEntry(lines, period), AccountOf(f));
    RunLinesNet(Sum(lines, InterestF, w), Sum(lines, PrincipalF, w), Sum(lines, PaymentF, w), Sum(lines, DepreciationF, w), AccountOf(f));
  }

  lemma StepFlow(s: State, op: Op, f: Field)
    requires f != PrincipalF && Flow(s.journal, f) == Sum(s.lines, f, Booked)
    ensures Flow(Step(s, op).journal, f) == Sum(Step(s, op).lines, f, Booked)
  {
    hide Flow, MonthlyRate, PresentValue, RowAt, RunEntry, Rows, StoredAll;
    var t := Step(s, op);
    if op.CreateLease? && CreateAccepted(s, op) {
      var added := t.lines[|s.lines|..];
      RecogniseFlow(s.journal, t.leases[|s.leases|].liability, f);
      assert t.lines == s.lines + added;
      SumAppend(s.lines, added, |added|, f, Booked);
      SumFresh(added, |added|, f);
    } else if op.RunPeriod? && RunAccepted(s, op) {
      RunFlow(s.journal, s.lines, op.period, f);
      SumMarked(s.lines, op.period, |s.journal|, |s.lines|, f);
    }
  }

  /** Over every sequence of creations and runs: interest, depreciation expense and
      cash paid are the columns of the booked lines. */
  lemma {:induction false} ExpensesAreBookedLines(ops: seq<Op>, f: Field)
    requires f != PrincipalF
    ensures Flow(Run(ops).journal, f) == Sum(Run(ops).lines, f, Booked)
  {
    if ops != [] {
      ExpensesAreBookedLines(ops[..|ops| - 1], f);
      StepFlow(Run(ops[..|ops| - 1]), ops[|ops| - 1], f);
    }
  }
}
