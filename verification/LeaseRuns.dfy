/** Recognising leases and booking their schedules period by period, with skipped
    periods, catch-up, repeats and leases added in between. */
module LeaseRuns {
  import opened Ledger
  import opened Money
  import opened LeaseSchedule

  /** One stored schedule line; the columns hold whole cents. */
  datatype StoredLine = StoredLine(lease: nat, period: int, interest: int, principal: int, payment: int,
                                   depreciation: int, entry: Option<nat>)

  datatype LeaseStatus = Active | Completed

  datatype LeaseRow = LeaseRow(ref: string, liability: int, status: LeaseStatus)

  datatype Event = Recognised(ref: string) | RunOf(period: int)

  datatype State = State(leases: seq<LeaseRow>, lines: seq<StoredLine>, processed: set<Event>, journal: seq<Entry>)

  const EMPTY := State([], [], {}, [])

  datatype Op =
    | CreateLease(ref: string, payment: real, annualRate: real, term: int, start: int, periodOpen: bool)
    | RunPeriod(period: int, periodOpen: bool)

  datatype Field = InterestF | PrincipalF | PaymentF | DepreciationF

  function Get(l: StoredLine, f: Field): int {
    match f
    case InterestF => l.interest
    case PrincipalF => l.principal
    case PaymentF => l.payment
    case DepreciationF => l.depreciation
  }

  datatype Filter = All | Booked | Unbooked | Due(period: int)

  predicate Selected(l: StoredLine, w: Filter) {
    match w
    case All => true
    case Booked => l.entry.Some?
    case Unbooked => l.entry.None?
    case Due(p) => l.entry.None? && l.period <= p
  }

  /** Sum of a column over the selected ones of the first n lines. */
  function SumTo(lines: seq<StoredLine>, n: nat, f: Field, w: Filter): int
    requires n <= |lines|
  {
    if n == 0 then 0 else SumTo(lines, n - 1, f, w) + if Selected(lines[n - 1], w) then Get(lines[n - 1], f) else 0
  }

  function Sum(lines: seq<StoredLine>, f: Field, w: Filter): int {
    SumTo(lines, |lines|, f, w)
  }

  function LiabilityTo(leases: seq<LeaseRow>, n: nat): int
    requires n <= |leases|
  {
    if n == 0 then 0 else LiabilityTo(leases, n - 1) + leases[n - 1].liability
  }

  // ----- the entries

  function Post(a: Account, debit: int, credit: int): Entry {
    if debit == 0 && credit == 0 then [] else [Line(a, debit, credit)]
  }

  function RunLines(interest: int, principal: int, payment: int, depreciation: int): Entry {
    Post(LeaseInterest, interest, 0) + Post(RouDepExpense, depreciation, 0) + Post(LeaseLiability, principal, 0)
    + Post(Cash, 0, payment) + Post(RouAccumDep, 0, depreciation)
  }

  lemma PostNet(a: Account, debit: int, credit: int, b: Account)
    ensures Net(Post(a, debit, credit), b) == if a == b then debit - credit else 0
    ensures Excess(Post(a, debit, credit)) == debit - credit
  {
    NetOne(Line(a, debit, credit), b);
  }

  lemma RunLinesNet(i: int, p: int, m: int, d: int, a: Account)
    ensures Excess(RunLines(i, p, m, d)) == i + p - m
    ensures Net(RunLines(i, p, m, d), a)
            == (match a
                case LeaseInterest => i
                case RouDepExpense => d
                case LeaseLiability => p
                case Cash => -m
                case RouAccumDep => -d
                case _ => 0)
  {
    var x1, x2, x3 := Post(LeaseInterest, i, 0), Post(RouDepExpense, d, 0), Post(LeaseLiability, p, 0);
    var x4, x5 := Post(Cash, 0, m), Post(RouAccumDep, 0, d);
    PostNet(LeaseInterest, i, 0, a);
    PostNet(RouDepExpense, d, 0, a);
    PostNet(LeaseLiability, p, 0, a);
    PostNet(Cash, 0, m, a);
    PostNet(RouAccumDep, 0, d, a);
    NetConcat(x1, x2, a);
    NetConcat(x1 + x2, x3, a);
    NetConcat(x1 + x2 + x3, x4, a);
    NetConcat(x1 + x2 + x3 + x4, x5, a);
  }

  // ----- one transaction

  function Stored(row: Row, lease: nat): StoredLine {
    StoredLine(lease, row.period, RoundReal(row.interest), RoundReal(row.principal), RoundReal(row.payment),
               RoundReal(row.depreciation), None)
  }

  function StoredAll(rows: seq<Row>, lease: nat): (ls: seq<StoredLine>)
    ensures |ls| == |rows| && forall k :: 0 <= k < |ls| ==> ls[k] == Stored(rows[k], lease)
  {
    seq(|rows|, k requires 0 <= k < |rows| => Stored(rows[k], lease))
  }

  function Rows(payment: real, r: real, pv: real, n: nat, start: int): (rows: seq<Row>)
    ensures IsSchedule(rows, payment, r, pv, n, start)
  {
    seq(n, k requires 0 <= k < n => RowAt(payment, r, pv, n, start, k))
  }

  predicate CreateAccepted(s: State, op: Op)
    requires op.CreateLease?
  {
    && op.periodOpen && op.payment > 0.0 && op.term >= 1 && op.annualRate >= 0.0
    && MonthlyRate(op.annualRate) >= 0.0
    && PresentValue(op.payment, MonthlyRate(op.annualRate), op.term) > 0.0
    && Recognised(op.ref) !in s.processed
  }

  /** The table constraints let the run's entry in: it balances, no side negative. */
  predicate RunAccepted(s: State, op: Op)
    requires op.RunPeriod?
  {
    var w := Due(op.period);
    && op.periodOpen && RunOf(op.period) !in s.processed
    && (exists k :: 0 <= k < |s.lines| && Selected(s.lines[k], w))
    && Sum(s.lines, InterestF, w) + Sum(s.lines, PrincipalF, w) == Sum(s.lines, PaymentF, w)
    && Sum(s.lines, InterestF, w) >= 0 && Sum(s.lines, PrincipalF, w) >= 0
    && Sum(s.lines, PaymentF, w) >= 0 && Sum(s.lines, DepreciationF, w) >= 0
  }

  function MarkDue(lines: seq<StoredLine>, period: int, entry: nat): (ls: seq<StoredLine>)
    ensures |ls| == |lines|
    ensures forall k :: 0 <= k < |ls| ==>
              ls[k] == if Selected(lines[k], Due(period)) then lines[k].(entry := Some(entry)) else lines[k]
  {
    seq(|lines|, k requires 0 <= k < |lines| =>
      if Selected(lines[k], Due(period)) then lines[k].(entry := Some(entry)) else lines[k])
  }

  predicate Outstanding(lines: seq<StoredLine>, lease: nat) {
    exists k :: 0 <= k < |lines| && lines[k].lease == lease && lines[k].entry.None?
  }

  function CompleteLeases(leases: seq<LeaseRow>, lines: seq<StoredLine>): (ls: seq<LeaseRow>)
    ensures |ls| == |leases|
    ensures forall k :: 0 <= k < |ls| ==>
              ls[k] == if Outstanding(lines, k) then leases[k] else leases[k].(status := Completed)
  {
    seq(|leases|, k requires 0 <= k < |leases| =>
      if Outstanding(lines, k) then leases[k] else leases[k].(status := Completed))
  }

  function RunEntry(lines: seq<StoredLine>, period: int): Entry {
    var w := Due(period);
    RunLines(Sum(lines, InterestF, w), Sum(lines, PrincipalF, w), Sum(lines, PaymentF, w), Sum(lines, DepreciationF, w))
  }

  /** A refused or repeated transaction changes nothing. */
  function Step(s: State, op: Op): State {
    match op
    case CreateLease(ref, payment, annualRate, term, start, _) =>
      if !CreateAccepted(s, op) then s else
      var r := MonthlyRate(annualRate);
      var pv := PresentValue(payment, r, term);
      State(s.leases + [LeaseRow(ref, RoundReal(pv), Active)],
            s.lines + StoredAll(Rows(payment, r, pv, term, start), |s.leases|),
            s.processed + {Recognised(ref)},
            s.journal + [Pair(RouAsset, LeaseLiability, RoundReal(pv))])
    case RunPeriod(period, _) =>
      if !RunAccepted(s, op) then s else
      var lines := MarkDue(s.lines, period, |s.journal|);
      State(CompleteLeases(s.leases, lines), lines, s.processed + {RunOf(period)},
            s.journal + [RunEntry(s.lines, period)])
  }

  function Run(ops: seq<Op>): State {
    if ops == [] then EMPTY else Step(Run(ops[..|ops| - 1]), ops[|ops| - 1])
  }

  // ----- how the sums move

  lemma {:induction false} SumSame(xs: seq<StoredLine>, ys: seq<StoredLine>, n: nat, f: Field, w: Filter)
    requires n <= |xs| && n <= |ys| && forall k :: 0 <= k < n ==> xs[k] == ys[k]
    ensures SumTo(xs, n, f, w) == SumTo(ys, n, f, w)
  {
    if n > 0 {
      SumSame(xs, ys, n - 1, f, w);
    }
  }

  lemma {:induction false} SumAppend(xs: seq<StoredLine>, ys: seq<StoredLine>, n: nat, f: Field, w: Filter)
    requires n <= |ys|
    ensures SumTo(xs + ys, |xs| + n, f, w) == Sum(xs, f, w) + SumTo(ys, n, f, w)
  {
    if n == 0 {
      SumSame(xs + ys, xs, |xs|, f, w);
    } else {
      SumAppend(xs, ys, n - 1, f, w);
    }
  }

  lemma {:induction false} SumFresh(lines: seq<StoredLine>, n: nat, f: Field)
    requires n <= |lines| && forall k :: 0 <= k < n ==> lines[k].entry.None?
    ensures SumTo(lines, n, f, Unbooked) == SumTo(lines, n, f, All) && SumTo(lines, n, f, Booked) == 0
  {
    if n > 0 {
      SumFresh(lines, n - 1, f);
    }
  }

  lemma {:induction false} SumMarked(lines: seq<StoredLine>, period: int, entry: nat, n: nat, f: Field)
    requires n <= |lines|
    ensures var t := MarkDue(lines, period, entry);
            && SumTo(t, n, f, All) == SumTo(lines, n, f, All)
            && SumTo(t, n, f, Unbooked) == SumTo(lines, n, f, Unbooked) - SumTo(lines, n, f, Due(period))
            && SumTo(t, n, f, Booked) == SumTo(lines, n, f, Booked) + SumTo(lines, n, f, Due(period))
  {
    if n > 0 {
      SumMarked(lines, period, entry, n - 1, f);
    }
  }

  lemma {:induction false} LiabilitySame(xs: seq<LeaseRow>, ys: seq<LeaseRow>, n: nat)
    requires n <= |xs| && n <= |ys| && forall k :: 0 <= k < n ==> xs[k].liability == ys[k].liability
    ensures LiabilityTo(xs, n) == LiabilityTo(ys, n)
  {
    if n > 0 {
      LiabilitySame(xs, ys, n - 1);
    }
  }

  // ----- invariants

  /** What storing in whole cents has lost or gained against the recognised
      liabilities, over all leases. */
  function StorageGap(s: State): int {
    LiabilityTo(s.leases, |s.leases|) - Sum(s.lines, PrincipalF, All)
  }

  ghost predicate Tied(s: State) {
    && CreditBalance(s.journal, LeaseLiability) == Sum(s.lines, PrincipalF, Unbooked) + StorageGap(s)
    && CreditBalance(s.journal, RouAccumDep) == Sum(s.lines, DepreciationF, Booked)
    && Balance(s.journal, RouAsset) == LiabilityTo(s.leases, |s.leases|)
  }

  ghost predicate Valid(s: State) {
    && (forall e :: 0 <= e < |s.journal| ==> Balanced(s.journal[e]))
    && (forall k :: 0 <= k < |s.lines| ==>
          s.lines[k].lease < |s.leases| && (s.lines[k].entry.Some? ==> s.lines[k].entry.value < |s.journal|))
    && (forall l :: 0 <= l < |s.leases| && s.leases[l].status.Completed? ==> !Outstanding(s.lines, l))
  }

  lemma AddLeaseSums(s: State, row: LeaseRow, added: seq<StoredLine>, t: State)
    requires t.leases == s.leases + [row] && t.lines == s.lines + added
    requires forall k :: 0 <= k < |added| ==> added[k].entry.None?
    ensures Sum(t.lines, PrincipalF, Unbooked) + StorageGap(t)
            == Sum(s.lines, PrincipalF, Unbooked) + StorageGap(s) + row.liability
    ensures Sum(t.lines, DepreciationF, Booked) == Sum(s.lines, DepreciationF, Booked)
    ensures LiabilityTo(t.leases, |t.leases|) == LiabilityTo(s.leases, |s.leases|) + row.liability
    ensures StorageGap(t) == StorageGap(s) + row.liability - Sum(added, PrincipalF, All)
  {
    SumAppend(s.lines, added, |added|, PrincipalF, Unbooked);
    SumAppend(s.lines, added, |added|, PrincipalF, All);
    SumAppend(s.lines, added, |added|, DepreciationF, Booked);
    SumFresh(added, |added|, PrincipalF);
    SumFresh(added, |added|, DepreciationF);
    LiabilitySame(t.leases, s.leases, |s.leases|);
  }

  lemma AddLeaseTied(s: State, row: LeaseRow, added: seq<StoredLine>, t: State)
    requires t.leases == s.leases + [row] && t.lines == s.lines + added
    requires t.journal == s.journal + [Pair(RouAsset, LeaseLiability, row.liability)]
    requires forall k :: 0 <= k < |added| ==> added[k].entry.None?
    requires Tied(s)
    ensures Tied(t)
  {
    hide Net, Balance, Sum, StorageGap, LiabilityTo;
    var e := Pair(RouAsset, LeaseLiability, row.liability);
    AddLeaseSums(s, row, added, t);
    BalanceSnoc(s.journal, e, LeaseLiability);
    BalanceSnoc(s.journal, e, RouAccumDep);
    BalanceSnoc(s.journal, e, RouAsset);
    PairNet(RouAsset, LeaseLiability, row.liability, LeaseLiability);
    PairNet(RouAsset, LeaseLiability, row.liability, RouAccumDep);
    PairNet(RouAsset, LeaseLiability, row.liability, RouAsset);
  }

  lemma RunSums(s: State, period: int, t: State)
    requires t.lines == MarkDue(s.lines, period, |s.journal|) && t.leases == CompleteLeases(s.leases, t.lines)
    ensures Sum(t.lines, PrincipalF, Unbooked) + StorageGap(t)
            == Sum(s.lines, PrincipalF, Unbooked) + StorageGap(s) - Sum(s.lines, PrincipalF, Due(period))
    ensures Sum(t.lines, DepreciationF, Booked)
            == Sum(s.lines, DepreciationF, Booked) + Sum(s.lines, DepreciationF, Due(period))
    ensures LiabilityTo(t.leases, |t.leases|) == LiabilityTo(s.leases, |s.leases|)
    ensures StorageGap(t) == StorageGap(s)
  {
    SumMarked(s.lines, period, |s.journal|, |s.lines|, PrincipalF);
    SumMarked(s.lines, period, |s.journal|, |s.lines|, DepreciationF);
    LiabilitySame(t.leases, s.leases, |s.leases|);
  }

  lemma RunEntryNet(lines: seq<StoredLine>, period: int)
    ensures var e, w := RunEntry(lines, period), Due(period);
            && Excess(e) == Sum(lines, InterestF, w) + Sum(lines, PrincipalF, w) - Sum(lines, PaymentF, w)
            && Net(e, LeaseLiability) == Sum(lines, PrincipalF, w)
            && Net(e, RouAccumDep) == -Sum(lines, DepreciationF, w)
            && Net(e, RouAsset) == 0
  {
    var w := Due(period);
    var i, p := Sum(lines, InterestF, w), Sum(lines, PrincipalF, w);
    var m, d := Sum(lines, PaymentF, w), Sum(lines, DepreciationF, w);
    RunLinesNet(i, p, m, d, LeaseLiability);
    RunLinesNet(i, p, m, d, RouAccumDep);
    RunLinesNet(i, p, m, d, RouAsset);
  }

  lemma RunTied(s: State, period: int, t: State)
    requires t.lines == MarkDue(s.lines, period, |s.journal|) && t.leases == CompleteLeases(s.leases, t.lines)
    requires t.journal == s.journal + [RunEntry(s.lines, period)]
    requires Tied(s)
    ensures Tied(t)
  {
    hide Net, Balance, Sum, StorageGap, LiabilityTo, MarkDue, CompleteLeases, RunEntry;
    var e := RunEntry(s.lines, period);
    RunSums(s, period, t);
    RunEntryNet(s.lines, period);
    BalanceSnoc(s.journal, e, LeaseLiability);
    BalanceSnoc(s.journal, e, RouAccumDep);
    BalanceSnoc(s.journal, e, RouAsset);
  }

  lemma OutstandingBefore(xs: seq<StoredLine>, ys: seq<StoredLine>, l: nat)
    requires |xs| <= |ys|
    requires forall k :: 0 <= k < |ys| && ys[k].lease == l && ys[k].entry.None? ==> k < |xs| && xs[k].lease == l && xs[k].entry.None?
    ensures Outstanding(ys, l) ==> Outstanding(xs, l)
  {
  }

  lemma StepKeepsValid(s: State, op: Op)
    requires Valid(s)
    ensures Valid(Step(s, op))
  {
    hide Net, Excess, MonthlyRate, PresentValue, RowAt, RunEntry;
    var t := Step(s, op);
    if op.RunPeriod? && RunAccepted(s, op) {
      RunEntryNet(s.lines, op.period);
    } else if op.CreateLease? && CreateAccepted(s, op) {
      PairNet(RouAsset, LeaseLiability, t.leases[|s.leases|].liability, Cash);
    }
    forall l | 0 <= l < |s.leases|
      ensures Outstanding(t.lines, l) ==> Outstanding(s.lines, l)
    {
      OutstandingBefore(s.lines, t.lines, l);
    }
  }

  lemma StepKeepsTied(s: State, op: Op)
    requires Tied(s)
    ensures Tied(Step(s, op))
  {
    hide Tied, MonthlyRate, PresentValue, RowAt;
    var t := Step(s, op);
    if op.CreateLease? && CreateAccepted(s, op) {
      AddLeaseTied(s, t.leases[|s.leases|], t.lines[|s.lines|..], t);
    } else if op.RunPeriod? && RunAccepted(s, op) {
      RunTied(s, op.period, t);
    }
  }

  lemma {:induction false} ReachableTied(ops: seq<Op>)
    ensures Valid(Run(ops)) && Tied(Run(ops))
  {
    if ops != [] {
      ReachableTied(ops[..|ops| - 1]);
      StepKeepsValid(Run(ops[..|ops| - 1]), ops[|ops| - 1]);
      StepKeepsTied(Run(ops[..|ops| - 1]), ops[|ops| - 1]);
    }
  }

  // ----- main results, over every sequence of creations and runs

  /** The lease liability account is the principal still to be booked, plus what
      storing whole cents gained or lost; accumulated depreciation is what has
      been booked; every entry balances. */
  lemma TieOut(ops: seq<Op>)
    ensures var s := Run(ops);
            && CreditBalance(s.journal, LeaseLiability) == Sum(s.lines, PrincipalF, Unbooked) + StorageGap(s)
            && CreditBalance(s.journal, RouAccumDep) == Sum(s.lines, DepreciationF, Booked)
            && Balance(s.journal, RouAsset) == LiabilityTo(s.leases, |s.leases|)
            && forall e :: 0 <= e < |s.journal| ==> Balanced(s.journal[e])
  {
    ReachableTied(ops);
  }

  /** Once a line names its entry it names it for ever: no line is booked twice. */
  lemma BookedOnce(s: State, op: Op, k: nat)
    requires k < |s.lines| && s.lines[k].entry.Some?
    ensures k < |Step(s, op).lines| && Step(s, op).lines[k] == s.lines[k]
  {
    hide MonthlyRate, PresentValue, RowAt, RunEntry;
  }

  /** A run that books catches up on every earlier period, and marks completed
      exactly the leases with nothing left to book. */
  lemma RunCatchesUp(s: State, op: Op)
    requires Valid(s) && op.RunPeriod? && RunAccepted(s, op)
    ensures var t := Step(s, op);
            && (forall k :: 0 <= k < |t.lines| && t.lines[k].period <= op.period ==> t.lines[k].entry.Some?)
            && (forall l :: 0 <= l < |t.leases| ==> (t.leases[l].status.Completed? <==> !Outstanding(t.lines, l)))
  {
    hide RunEntry;
    StepKeepsValid(s, op);
  }

  // ----- contract payments in whole cents leave no gap

  predicate Whole(x: real) {
    x == RoundReal(x) as real
  }

  lemma WholeDifference(x: real, y: real)
    requires Whole(x) && Whole(y)
    ensures Whole(x - y) && RoundReal(x - y) == RoundReal(x) - RoundReal(y)
    ensures Whole(x + y) && RoundReal(x + y) == RoundReal(x) + RoundReal(y)
  {
    RoundRealWhole(x - y, RoundReal(x) - RoundReal(y));
    RoundRealWhole(x + y, RoundReal(x) + RoundReal(y));
  }

  lemma WholeCents(x: real)
    ensures Whole(Cents(x))
  {
    RoundRealWhole(Cents(x), RoundReal(x));
  }

  lemma InterestWhole(o: real, r: real)
    ensures Whole(Interest(o, r))
  {
    WholeCents(o * r);
  }

  lemma NextOpeningWhole(payment: real, r: real, pv: real, k: nat)
    requires k > 0 && Whole(payment) && Whole(Opening(payment, r, pv, k - 1))
    ensures Whole(Opening(payment, r, pv, k))
  {
    hide Opening, Interest, Whole;
    var o := Opening(payment, r, pv, k - 1);
    MonthOf(payment, r, pv, 0.0, 0.0, k);
    InterestWhole(o, r);
    WholeDifference(payment, Interest(o, r));
    WholeDifference(o, payment - Interest(o, r));
  }

  lemma {:induction false} OpeningWhole(payment: real, r: real, pv: real, k: nat)
    requires Whole(payment) && Whole(pv)
    ensures Whole(Opening(payment, r, pv, k))
  {
    hide Interest, Whole;
    if k > 0 {
      OpeningWhole(payment, r, pv, k - 1);
      NextOpeningWhole(payment, r, pv, k);
    }
  }

  lemma RowWhole(payment: real, r: real, pv: real, n: nat, start: int, k: nat)
    requires Whole(payment) && Whole(pv) && k < n
    ensures var row := RowAt(payment, r, pv, n, start, k);
            Whole(row.principal) && Whole(row.interest)
  {
    hide Interest, Whole, Opening, Cents, Even;
    var o := Opening(payment, r, pv, k);
    OpeningWhole(payment, r, pv, k);
    InterestWhole(o, r);
    WholeDifference(payment, Interest(o, r));
  }

  lemma {:induction false} StoredPrincipal(rows: seq<Row>, lease: nat, n: nat)
    requires n <= |rows| && forall k :: 0 <= k < n ==> Whole(rows[k].principal)
    ensures SumTo(StoredAll(rows, lease), n, PrincipalF, All) as real == PrincipalTo(rows, n)
  {
    if n > 0 {
      StoredPrincipal(rows, lease, n - 1);
    }
  }

  /** Every line's payment is its interest plus its principal, to the cent. */
  ghost predicate LinesAddUp(lines: seq<StoredLine>) {
    forall k :: 0 <= k < |lines| ==> lines[k].payment == lines[k].interest + lines[k].principal
  }

  lemma WholeSchedule(payment: real, r: real, n: nat, start: int, lease: nat)
    requires Whole(payment) && r >= 0.0 && n >= 1
    ensures var pv := PresentValue(payment, r, n);
            var lines := StoredAll(Rows(payment, r, pv, n, start), lease);
            Sum(lines, PrincipalF, All) == RoundReal(pv) && LinesAddUp(lines)
  {
    hide PresentValue, Whole, RowAt;
    var pv := PresentValue(payment, r, n);
    var rows := Rows(payment, r, pv, n, start);
    PresentValueWhole(payment, r, n);
    forall k | 0 <= k < n
      ensures Whole(rows[k].principal) && Whole(rows[k].interest)
    {
      RowWhole(payment, r, pv, n, start, k);
    }
    ScheduleCloses(rows, payment, r, pv, n, start);
    StoredPrincipal(rows, lease, n);
    WholeIs(pv);
    forall k | 0 <= k < n
      ensures RoundReal(rows[k].payment) == RoundReal(rows[k].interest) + RoundReal(rows[k].principal)
    {
      WholeDifference(rows[k].interest, rows[k].principal);
    }
  }

  lemma PresentValueWhole(payment: real, r: real, n: nat)
    requires r >= 0.0
    ensures Whole(PresentValue(payment, r, n))
  {
    WholeCents(DiscountedSum(payment, r, n));
  }

  lemma WholeIs(x: real)
    requires Whole(x)
    ensures x == RoundReal(x) as real
  {
  }

  predicate WholeOp(op: Op) {
    op.CreateLease? ==> Whole(op.payment)
  }

  lemma StepLeavesNoGap(s: State, op: Op)
    requires StorageGap(s) == 0 && LinesAddUp(s.lines) && WholeOp(op)
    ensures StorageGap(Step(s, op)) == 0 && LinesAddUp(Step(s, op).lines)
  {
    hide MonthlyRate, PresentValue, RowAt, RunEntry, StorageGap, Sum, Rows, StoredAll;
    var t := Step(s, op);
    if op.CreateLease? && CreateAccepted(s, op) {
      var r := MonthlyRate(op.annualRate);
      var pv := PresentValue(op.payment, r, op.term);
      var added := StoredAll(Rows(op.payment, r, pv, op.term, op.start), |s.leases|);
      WholeSchedule(op.payment, r, op.term, op.start, |s.leases|);
      AddLeaseSums(s, t.leases[|s.leases|], added, t);
    } else if op.RunPeriod? && RunAccepted(s, op) {
      RunSums(s, op.period, t);
    }
  }

  /** If every contract payment is in whole cents the account and the schedule
      agree exactly, and no run's entry can fail to balance. */
  lemma {:induction false} WholeCentsTieOut(ops: seq<Op>)
    requires forall k :: 0 <= k < |ops| ==> WholeOp(ops[k])
    ensures var s := Run(ops);
            && StorageGap(s) == 0 && LinesAddUp(s.lines)
            && CreditBalance(s.journal, LeaseLiability) == Sum(s.lines, PrincipalF, Unbooked)
  {
    TieOut(ops);
    if ops != [] {
      var init := ops[..|ops| - 1];
      assert forall k :: 0 <= k < |init| ==> init[k] == ops[k];
      WholeCentsTieOut(init);
      StepLeavesNoGap(Run(init), ops[|ops| - 1]);
    }
  }

  lemma SubCentSchedule(start: int)
    ensures MonthlyRate(0.0) == 0.0 && PresentValue(1000.5, 0.0, 2) == 2001.0
    ensures RowAt(1000.5, 0.0, 2001.0, 2, start, 0).principal == 1000.5
    ensures RowAt(1000.5, 0.0, 2001.0, 2, start, 1).principal == 1000.5
  {
    NoDiscountAtZero(1);
    NoDiscountAtZero(2);
    hide Factor;
    assert DiscountedSum(1000.5, 0.0, 0) == 0.0;
    assert DiscountedSum(1000.5, 0.0, 1) == 1000.5;
    assert DiscountedSum(1000.5, 0.0, 2) == 2001.0;
    assert Interest(2001.0, 0.0) == 0.0;
    assert Opening(1000.5, 0.0, 2001.0, 0) == 2001.0;
    assert Opening(1000.5, 0.0, 2001.0, 1) == 1000.5;
  }

  /** A sub-cent contract payment, which recognition accepts, leaves a gap for
      good: two payments of 10.005 are recognised at 20.01 and stored as twice
      10.01. */
  lemma SubCentPaymentLeavesGap(start: int)
    ensures StorageGap(Run([CreateLease("L", 1000.5, 0.0, 2, start, true)])) == -1
  {
    var op := CreateLease("L", 1000.5, 0.0, 2, start, true);
    SubCentSchedule(start);
    hide MonthlyRate, PresentValue, RowAt, Net, Balance;
    var rows := Rows(1000.5, 0.0, 2001.0, 2, start);
    assert rows[0] == RowAt(1000.5, 0.0, 2001.0, 2, start, 0) && rows[1] == RowAt(1000.5, 0.0, 2001.0, 2, start, 1);
    assert RoundReal(1000.5) == 1001 && RoundReal(2001.0) == 2001;
    var t := Step(EMPTY, op);
    assert Run([op]) == t by {
      assert [op][..|[op]| - 1] == [];
      assert Run([]) == EMPTY;
    }
    assert Recognised("L") !in EMPTY.processed && CreateAccepted(EMPTY, op);
    assert t.lines == [] + StoredAll(rows, 0);
    assert SumTo(t.lines, 1, PrincipalF, All) == 1001;
    assert SumTo(t.lines, 2, PrincipalF, All) == 2002;
    assert LiabilityTo(t.leases, 1) == 2001;
  }

  // ----- the transactions, as they run

  class LeaseBook {
    var leases: seq<LeaseRow>
    var lines: seq<StoredLine>
    var processed: set<Event>
    var journal: seq<Entry>

    function Contents(): State
      reads this
    {
      State(leases, lines, processed, journal)
    }

    constructor ()
      ensures Contents() == EMPTY
    {
      leases, lines, processed, journal := [], [], {}, [];
    }

    method RecogniseLease(ref: string, payment: real, annualRate: real, term: int, start: int, periodOpen: bool)
      modifies this
      ensures Contents() == Step(old(Contents()), CreateLease(ref, payment, annualRate, term, start, periodOpen))
    {
      hide MonthlyRate, PresentValue, RowAt;
      if !periodOpen || payment <= 0.0 || term < 1 || annualRate < 0.0 {
        return;
      }
      var pv, schedule := BuildLeaseSchedule(payment, annualRate, term, start);
      if pv <= 0.0 || Recognised(ref) in processed {
        return;
      }
      ghost var rows := Rows(payment, MonthlyRate(annualRate), pv, term, start);
      assert schedule == rows;
      var liability := RoundReal(pv);
      ghost var before := lines;
      var lease := |leases|;
      for k := 0 to |schedule|
        invariant lines == before + StoredAll(rows, lease)[..k]
        invariant leases == old(leases) && processed == old(processed) && journal == old(journal)
      {
        assert StoredAll(rows, lease)[..k + 1] == StoredAll(rows, lease)[..k] + [Stored(schedule[k], lease)];
        lines := lines + [Stored(schedule[k], lease)];
      }
      assert StoredAll(rows, lease)[..|schedule|] == StoredAll(rows, lease);
      journal := journal + [Pair(RouAsset, LeaseLiability, liability)];
      processed := processed + {Recognised(ref)};
      leases := leases + [LeaseRow(ref, liability, Active)];
    }

    /** The scan for due lines: their indices and the four totals. */
    method CollectDue(period: int) returns (due: seq<nat>, interest: int, principal: int, payment: int, depreciation: int)
      ensures forall k :: 0 <= k < |lines| ==> (k in due <==> Selected(lines[k], Due(period)))
      ensures forall k :: k in due ==> k < |lines|
      ensures interest == Sum(lines, InterestF, Due(period)) && principal == Sum(lines, PrincipalF, Due(period))
      ensures payment == Sum(lines, PaymentF, Due(period)) && depreciation == Sum(lines, DepreciationF, Due(period))
    {
      due, interest, principal, payment, depreciation := [], 0, 0, 0, 0;
      for k := 0 to |lines|
        invariant forall j :: 0 <= j < k ==> (j in due <==> Selected(lines[j], Due(period)))
        invariant forall j :: j in due ==> j < k
        invariant interest == SumTo(lines, k, InterestF, Due(period))
        invariant principal == SumTo(lines, k, PrincipalF, Due(period))
        invariant payment == SumTo(lines, k, PaymentF, Due(period))
        invariant depreciation == SumTo(lines, k, DepreciationF, Due(period))
      {
        var l := lines[k];
        if l.period <= period && l.entry.None? {
          due := due + [k];
          interest, principal := interest + l.interest, principal + l.principal;
          payment, depreciation := payment + l.payment, depreciation + l.depreciation;
        }
      }
    }

    method RunLeasePeriod(period: int, periodOpen: bool)
      modifies this
      ensures Contents() == Step(old(Contents()), RunPeriod(period, periodOpen))
    {
      hide RunLines, SumTo;
      if !periodOpen {
        return;
      }
      var due, interest, principal, payment, depreciation := CollectDue(period);
      if |due| == 0 || RunOf(period) in processed {
        assert |due| == 0 ==> forall k :: 0 <= k < |lines| ==> k !in due;
        return;
      }
      assert due[0] in due;
      if interest + principal != payment || interest < 0 || principal < 0 || payment < 0 || depreciation < 0 {
        return;
      }
      var entry := |journal|;
      journal := journal + [RunLines(interest, principal, payment, depreciation)];
      processed := processed + {RunOf(period)};
      ghost var before := lines;
      for i := 0 to |due|
        invariant |lines| == |before| && leases == old(leases)
        invariant journal == old(journal) + [RunEntry(before, period)] && processed == old(processed) + {RunOf(period)}
        invariant forall k :: 0 <= k < |lines| ==>
                    lines[k] == if k in due[..i] then before[k].(entry := Some(entry)) else before[k]
      {
        assert due[..i + 1] == due[..i] + [due[i]];
        assert due[i] in due;
        lines := lines[due[i] := lines[due[i]].(entry := Some(entry))];
      }
      assert due[..|due|] == due;
      assert lines == MarkDue(before, period, entry);
      CompleteFinished();
    }

    method CompleteFinished()
      modifies this`leases
      ensures leases == CompleteLeases(old(leases), lines)
    {
      for l := 0 to |leases|
        invariant |leases| == |old(leases)|
        invariant forall k :: 0 <= k < |leases| ==>
                    leases[k] == if k < l && !Outstanding(lines, k) then old(leases)[k].(status := Completed) else old(leases)[k]
      {
        var k := 0;
        while k < |lines| && !(lines[k].lease == l && lines[k].entry.None?)
          invariant 0 <= k <= |lines|
          invariant forall j :: 0 <= j < k ==> !(lines[j].lease == l && lines[j].entry.None?)
        {
          k := k + 1;
        }
        if k == |lines| && leases[l].status.Active? {
          leases := leases[l := leases[l].(status := Completed)];
        }
      }
    }
  }
}
