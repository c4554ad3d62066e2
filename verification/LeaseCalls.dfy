/** What recognising a lease and running a period do after any history, spelled out. */
module LeaseCalls {
  import opened Ledger
  import opened Money
  import opened LeaseSchedule
  import opened LeaseRuns

  lemma RunSnoc(ops: seq<Op>, op: Op)
    ensures Run(ops + [op]) == Step(Run(ops), op)
  {
    assert (ops + [op])[..|ops|] == ops;
  }

  ghost predicate TookEffect(ops: seq<Op>, k: nat)
    requires k < |ops|
  {
    Run(ops[..k + 1]) != Run(ops[..k])
  }

  /** The period has been run before, and something was booked. */
  ghost predicate RanBefore(ops: seq<Op>, period: int) {
    exists k :: 0 <= k < |ops| && ops[k].RunPeriod? && ops[k].period == period && TookEffect(ops, k)
  }

  ghost predicate HasLease(s: State, ref: string) {
    exists k :: 0 <= k < |s.leases| && s.leases[k].ref == ref
  }

  lemma RanSnoc(ops: seq<Op>, op: Op, period: int)
    ensures RanBefore(ops + [op], period)
            <==> RanBefore(ops, period) || (op.RunPeriod? && op.period == period && Step(Run(ops), op) != Run(ops))
  {
    hide Run, Step;
    var more := ops + [op];
    RunSnoc(ops, op);
    assert more[|ops|] == op && more[..|ops|] == ops && more[..|ops| + 1] == more;
    forall k | 0 <= k < |ops|
      ensures more[k] == ops[k] && (TookEffect(more, k) <==> TookEffect(ops, k))
    {
      assert more[..k] == ops[..k] && more[..k + 1] == ops[..k + 1];
    }
    if RanBefore(ops, period) {
      var k :| 0 <= k < |ops| && ops[k].RunPeriod? && ops[k].period == period && TookEffect(ops, k);
      assert more[k] == ops[k] && TookEffect(more, k);
    }
    if RanBefore(more, period) {
      var k :| 0 <= k < |more| && more[k].RunPeriod? && more[k].period == period && TookEffect(more, k);
      assert k < |ops| ==> ops[k].RunPeriod? && TookEffect(ops, k);
    }
    assert TookEffect(more, |ops|) <==> Step(Run(ops), op) != Run(ops);
  }

  lemma StepRemembers(s: State, op: Op, ref: string, period: int)
    ensures Recognised(ref) in Step(s, op).processed
            <==> Recognised(ref) in s.processed || (op.CreateLease? && op.ref == ref && CreateAccepted(s, op))
    ensures HasLease(Step(s, op), ref)
            <==> HasLease(s, ref) || (op.CreateLease? && op.ref == ref && CreateAccepted(s, op))
    ensures RunOf(period) in Step(s, op).processed
            <==> RunOf(period) in s.processed || (op.RunPeriod? && op.period == period && Step(s, op) != s)
  {
    hide CreateAccepted, RunAccepted, RunEntry, Rows, Outstanding, Selected;
    var t := Step(s, op);
    if op.CreateLease? && CreateAccepted(s, op) {
      assert t.leases[|s.leases|].ref == op.ref;
      assert forall k :: 0 <= k < |s.leases| ==> t.leases[k] == s.leases[k];
    } else {
      assert |t.leases| == |s.leases| && forall k :: 0 <= k < |s.leases| ==> t.leases[k].ref == s.leases[k].ref;
    }
    assert op.RunPeriod? && RunAccepted(s, op) ==> |t.journal| == |s.journal| + 1;
  }

  /** processed_events remembers exactly the leases recognised and the periods run. */
  lemma {:induction false} Remembered(ops: seq<Op>, ref: string, period: int)
    ensures Recognised(ref) in Run(ops).processed <==> HasLease(Run(ops), ref)
    ensures RunOf(period) in Run(ops).processed <==> RanBefore(ops, period)
  {
    hide Step, HasLease, RanBefore;
    if ops == [] {
      NothingYet(ref, period);
    } else {
      var init, op := ops[..|ops| - 1], ops[|ops| - 1];
      assert init + [op] == ops;
      Remembered(init, ref, period);
      StepRemembers(Run(init), op, ref, period);
      RanSnoc(init, op, period);
    }
  }

  lemma NothingYet(ref: string, period: int)
    ensures !HasLease(Run([]), ref) && Recognised(ref) !in Run([]).processed
    ensures !RanBefore([], period) && RunOf(period) !in Run([]).processed
  {
  }

  // ----- recognition

  /** A stored line is the schedule's row in whole cents, open. */
  predicate StoredFrom(l: StoredLine, row: Row, lease: nat) {
    && l.lease == lease && l.period == row.period && l.entry == None
    && Within(l.interest as real - row.interest, 0.5) && Within(l.principal as real - row.principal, 0.5)
    && Within(l.payment as real - row.payment, 0.5) && Within(l.depreciation as real - row.depreciation, 0.5)
  }

  lemma StoredIs(row: Row, lease: nat)
    ensures StoredFrom(Stored(row, lease), row, lease)
  {
    RoundRealNearest(row.interest);
    RoundRealNearest(row.principal);
    RoundRealNearest(row.payment);
    RoundRealNearest(row.depreciation);
  }

  /** A lease is recognised exactly when the period is open, payment, term and present
      value are positive, the rate is not negative and the reference is new.  It starts
      active, with the schedule's lines stored open and the liability on 1600 and 2500. */
  lemma RecognitionCounts(ops: seq<Op>, op: Op, a: Account)
    requires op.CreateLease?
    ensures var s, t := Run(ops), Run(ops + [op]);
            && (t != s <==>
                  && op.periodOpen && op.payment > 0.0 && op.term >= 1 && op.annualRate >= 0.0
                  && MonthlyRate(op.annualRate) >= 0.0
                  && PresentValue(op.payment, MonthlyRate(op.annualRate), op.term) > 0.0 && !HasLease(s, op.ref))
            && (t != s ==>
                  var pv := PresentValue(op.payment, MonthlyRate(op.annualRate), op.term);
                  && t.leases == s.leases + [LeaseRow(op.ref, RoundReal(pv), Active)]
                  && |t.lines| == |s.lines| + op.term && t.lines[..|s.lines|] == s.lines
                  && (exists rows :: IsSchedule(rows, op.payment, MonthlyRate(op.annualRate), pv, op.term, op.start)
                                     && forall k :: 0 <= k < op.term ==>
                                          StoredFrom(t.lines[|s.lines| + k], rows[k], |s.leases|))
                  && Balance(t.journal, a) == Balance(s.journal, a) + (if a == RouAsset then RoundReal(pv) else 0)
                                              - (if a == LeaseLiability then RoundReal(pv) else 0))
  {
    hide Run, PresentValue, MonthlyRate, Net, Balance, HasLease, IsSchedule, StoredFrom, Rows, StoredAll;
    var s := Run(ops);
    RunSnoc(ops, op);
    Remembered(ops, op.ref, 0);
    if CreateAccepted(s, op) {
      var pv := PresentValue(op.payment, MonthlyRate(op.annualRate), op.term);
      var rows := StoresSchedule(s, op, pv);
      PairNet(RouAsset, LeaseLiability, RoundReal(pv), a);
      BalanceSnoc(s.journal, Pair(RouAsset, LeaseLiability, RoundReal(pv)), a);
      assert |Step(s, op).leases| == |s.leases| + 1;
    }
  }

  /** What recognition adds to the stored lines. */
  lemma StoresSchedule(s: State, op: Op, pv: real) returns (rows: seq<Row>)
    requires op.CreateLease? && CreateAccepted(s, op)
    requires pv == PresentValue(op.payment, MonthlyRate(op.annualRate), op.term)
    ensures IsSchedule(rows, op.payment, MonthlyRate(op.annualRate), pv, op.term, op.start) && |rows| == op.term
    ensures var t := Step(s, op);
            && |t.lines| == |s.lines| + op.term && t.lines[..|s.lines|] == s.lines
            && forall k :: 0 <= k < op.term ==> StoredFrom(t.lines[|s.lines| + k], rows[k], |s.leases|)
  {
    hide PresentValue, MonthlyRate, IsSchedule, StoredFrom;
    rows := Rows(op.payment, MonthlyRate(op.annualRate), pv, op.term, op.start);
    ScheduleLength(rows, op.payment, MonthlyRate(op.annualRate), pv, op.term, op.start);
    hide Rows;
    var t := Step(s, op);
    assert t.lines == s.lines + StoredAll(rows, |s.leases|);
    forall k | 0 <= k < op.term
      ensures StoredFrom(t.lines[|s.lines| + k], rows[k], |s.leases|)
    {
      StoredIs(rows[k], |s.leases|);
    }
  }

  lemma ScheduleLength(rows: seq<Row>, payment: real, r: real, pv: real, n: nat, start: int)
    requires IsSchedule(rows, payment, r, pv, n, start)
    ensures |rows| == n
  {
  }

  // ----- a period run

  /** Sum of a column over the lines of the period or before that are still open. */
  function DueSum(lines: seq<StoredLine>, period: int, column: StoredLine -> int): int {
    if lines == [] then 0
    else
      var l := lines[|lines| - 1];
      DueSum(lines[..|lines| - 1], period, column) + if l.entry == None && l.period <= period then column(l) else 0
  }

  lemma {:induction false} DueSumIs(lines: seq<StoredLine>, n: nat, period: int, f: Field)
    requires n <= |lines|
    ensures SumTo(lines, n, f, Due(period)) == DueSum(lines[..n], period, (l: StoredLine) => Get(l, f))
  {
    if n > 0 {
      DueSumIs(lines, n - 1, period, f);
      assert lines[..n][..n - 1] == lines[..n - 1];
    }
  }

  lemma {:induction false} SameColumn(lines: seq<StoredLine>, period: int, f: StoredLine -> int, g: StoredLine -> int)
    requires forall l :: f(l) == g(l)
    ensures DueSum(lines, period, f) == DueSum(lines, period, g)
  {
    if lines != [] {
      SameColumn(lines[..|lines| - 1], period, f, g);
    }
  }

  lemma Columns(lines: seq<StoredLine>, period: int)
    ensures Sum(lines, InterestF, Due(period)) == DueSum(lines, period, (l: StoredLine) => l.interest)
    ensures Sum(lines, PrincipalF, Due(period)) == DueSum(lines, period, (l: StoredLine) => l.principal)
    ensures Sum(lines, PaymentF, Due(period)) == DueSum(lines, period, (l: StoredLine) => l.payment)
    ensures Sum(lines, DepreciationF, Due(period)) == DueSum(lines, period, (l: StoredLine) => l.depreciation)
  {
    hide SumTo, DueSum;
    assert lines[..|lines|] == lines;
    DueSumIs(lines, |lines|, period, InterestF);
    DueSumIs(lines, |lines|, period, PrincipalF);
    DueSumIs(lines, |lines|, period, PaymentF);
    DueSumIs(lines, |lines|, period, DepreciationF);
    SameColumn(lines, period, (l: StoredLine) => Get(l, InterestF), (l: StoredLine) => l.interest);
    SameColumn(lines, period, (l: StoredLine) => Get(l, PrincipalF), (l: StoredLine) => l.principal);
    SameColumn(lines, period, (l: StoredLine) => Get(l, PaymentF), (l: StoredLine) => l.payment);
    SameColumn(lines, period, (l: StoredLine) => Get(l, DepreciationF), (l: StoredLine) => l.depreciation);
  }

  lemma RunLinesOneSided(interest: int, principal: int, payment: int, depreciation: int)
    requires interest >= 0 && principal >= 0 && payment >= 0 && depreciation >= 0
    ensures OneSided(RunLines(interest, principal, payment, depreciation))
  {
  }

  /** A run takes effect once a period, when it is open, some line of the period or
      before is open, and the due columns add up with none negative.  It books exactly
      those lines in one entry, column by column, and completes exactly the leases it
      leaves with no open line. */
  lemma RunCounts(ops: seq<Op>, period: int, periodOpen: bool, a: Account)
    ensures var s, t := Run(ops), Run(ops + [RunPeriod(period, periodOpen)]);
            var interest := DueSum(s.lines, period, (l: StoredLine) => l.interest);
            var principal := DueSum(s.lines, period, (l: StoredLine) => l.principal);
            var payment := DueSum(s.lines, period, (l: StoredLine) => l.payment);
            var depreciation := DueSum(s.lines, period, (l: StoredLine) => l.depreciation);
            && (t != s <==>
                  && periodOpen && !RanBefore(ops, period)
                  && (exists k :: 0 <= k < |s.lines| && s.lines[k].entry == None && s.lines[k].period <= period)
                  && interest + principal == payment
                  && interest >= 0 && principal >= 0 && payment >= 0 && depreciation >= 0)
            && (t != s ==>
                  && |t.lines| == |s.lines| && |t.leases| == |s.leases| && |t.journal| == |s.journal| + 1
                  && (forall k :: 0 <= k < |s.lines| ==>
                        t.lines[k] == if s.lines[k].entry == None && s.lines[k].period <= period
                                      then s.lines[k].(entry := Some(|s.journal|)) else s.lines[k])
                  && (forall l :: 0 <= l < |s.leases| ==>
                        && t.leases[l].ref == s.leases[l].ref && t.leases[l].liability == s.leases[l].liability
                        && (t.leases[l].status == Completed
                            <==> s.leases[l].status == Completed
                                 || forall k :: 0 <= k < |t.lines| && t.lines[k].lease == l ==> t.lines[k].entry != None))
                  && OneSided(t.journal[|s.journal|])
                  && Balance(t.journal, a) == Balance(s.journal, a) + (match a
                                                                       case LeaseInterest => interest
                                                                       case RouDepExpense => depreciation
                                                                       case LeaseLiability => principal
                                                                       case Cash => -payment
                                                                       case RouAccumDep => -depreciation
                                                                       case _ => 0))
  {
    hide Run, Net, Balance, RanBefore, SumTo, DueSum, RunLines;
    var s, op := Run(ops), RunPeriod(period, periodOpen);
    RunSnoc(ops, op);
    Remembered(ops, "", period);
    Columns(s.lines, period);
    if RunAccepted(s, op) {
      var t := Step(s, op);
      var w := Due(period);
      var i, p := Sum(s.lines, InterestF, w), Sum(s.lines, PrincipalF, w);
      var m, d := Sum(s.lines, PaymentF, w), Sum(s.lines, DepreciationF, w);
      RunLinesNet(i, p, m, d, a);
      RunLinesOneSided(i, p, m, d);
      BalanceSnoc(s.journal, RunEntry(s.lines, period), a);
      assert |t.journal| == |s.journal| + 1;
    }
  }
}
