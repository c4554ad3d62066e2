/** What storing a schedule in whole cents does to a contract payment that is not
    in whole cents: recognition rounds once, the lines round one by one. */
module LeaseRounding {
  import opened Ledger
  import opened Money
  import opened LeaseSchedule
  import opened LeaseRuns

  /** The part of a payment below the cent, between -1/2 and 1/2. */
  function SubCent(payment: real): real {
    payment - RoundReal(payment) as real
  }

  /** The stored principals of the first k ordinary months. */
  function OrdinaryTo(payment: real, r: real, pv: real, k: nat): int {
    if k == 0 then 0
    else OrdinaryTo(payment, r, pv, k - 1) + RoundReal(payment) - RoundReal(Interest(Opening(payment, r, pv, k - 1), r))
  }

  lemma {:induction false} OpeningSplit(payment: real, r: real, pv: real, k: nat)
    ensures Opening(payment, r, pv, k) == pv - OrdinaryTo(payment, r, pv, k) as real - Repeat(k, SubCent(payment))
  {
    hide RoundReal, Interest;
    if k > 0 {
      OpeningSplit(payment, r, pv, k - 1);
      InterestWhole(Opening(payment, r, pv, k - 1), r);
    }
  }

  /** A payment that ends in exactly half a cent rounds up, but what it leaves of the
      principal rounds away from zero: a cent less when interest exceeds it. */
  function Shortfall(payment: real, interest: real): int {
    if SubCent(payment) == -0.5 && payment < interest then 1 else 0
  }

  function ShortfallTo(payment: real, r: real, pv: real, k: nat): (n: nat)
    ensures n <= k && (SubCent(payment) != -0.5 ==> n == 0)
  {
    if k == 0 then 0
    else ShortfallTo(payment, r, pv, k - 1) + Shortfall(payment, Interest(Opening(payment, r, pv, k - 1), r))
  }

  /** Apart from that, taking whole cents of interest off a payment commutes with
      rounding. */
  lemma RoundOrdinary(payment: real, interest: int)
    requires payment >= 0.0
    ensures RoundReal(payment - interest as real) == RoundReal(payment) - interest - Shortfall(payment, interest as real)
  {
  }

  lemma OrdinaryPrincipal(payment: real, r: real, pv: real, n: nat, start: int, k: nat)
    requires k < n - 1
    ensures RowAt(payment, r, pv, n, start, k).principal == payment - Interest(Opening(payment, r, pv, k), r)
  {
  }

  lemma {:induction false} StoredOrdinary(payment: real, r: real, pv: real, n: nat, start: int, lease: nat, k: nat)
    requires payment >= 0.0 && k < n
    ensures SumTo(StoredAll(Rows(payment, r, pv, n, start), lease), k, PrincipalF, All)
            == OrdinaryTo(payment, r, pv, k) - ShortfallTo(payment, r, pv, k)
  {
    hide RoundReal, Opening, RowAt, Interest, Shortfall;
    if k > 0 {
      var rows := Rows(payment, r, pv, n, start);
      var interest := RoundReal(Interest(Opening(payment, r, pv, k - 1), r));
      StoredOrdinary(payment, r, pv, n, start, lease, k - 1);
      OrdinaryPrincipal(payment, r, pv, n, start, k - 1);
      InterestWhole(Opening(payment, r, pv, k - 1), r);
      RoundOrdinary(payment, interest);
      assert StoredAll(rows, lease)[k - 1] == Stored(rows[k - 1], lease);
      assert Get(StoredAll(rows, lease)[k - 1], PrincipalF) == RoundReal(payment) - interest - Shortfall(payment, interest as real);
    }
  }

  /** Recognised liability less stored principals, for one lease. */
  function LeaseGap(payment: real, r: real, n: nat, start: int, lease: nat): int
    requires r >= 0.0
  {
    var pv := PresentValue(payment, r, n);
    RoundReal(pv) - Sum(StoredAll(Rows(payment, r, pv, n, start), lease), PrincipalF, All)
  }

  lemma RoundShift(n: int, d: real)
    ensures -0.5 <= n as real - RoundReal(n as real - d) as real - d <= 0.5
    ensures RoundReal(n as real - d) == n
            <==> -0.5 < d < 0.5 || (d == 0.5 && n as real - d >= 0.0) || (d == -0.5 && n as real - d < 0.0)
  {
  }

  /** What storing drifts by, in real cents: the sub-cent part of the payment for each
      ordinary month, and a cent for each shortfall. */
  function StorageDrift(payment: real, r: real, n: nat): real
    requires r >= 0.0 && n >= 1
  {
    Repeat(n - 1, SubCent(payment)) + ShortfallTo(payment, r, PresentValue(payment, r, n), n - 1) as real
  }

  lemma GapSplit(payment: real, r: real, n: nat, start: int, lease: nat)
    requires payment >= 0.0 && r >= 0.0 && n >= 1
    ensures var pv := PresentValue(payment, r, n);
            var m := RoundReal(pv) - OrdinaryTo(payment, r, pv, n - 1) + ShortfallTo(payment, r, pv, n - 1);
            var d := Repeat(n - 1, SubCent(payment)) + ShortfallTo(payment, r, pv, n - 1) as real;
            && LeaseGap(payment, r, n, start, lease) == m - RoundReal(m as real - d)
            && Opening(payment, r, pv, n - 1) == m as real - d
  {
    hide RoundReal, Opening, PresentValue, OrdinaryTo, ShortfallTo, Repeat, SubCent;
    var pv := PresentValue(payment, r, n);
    var lines := StoredAll(Rows(payment, r, pv, n, start), lease);
    OpeningSplit(payment, r, pv, n - 1);
    StoredOrdinary(payment, r, pv, n, start, lease, n - 1);
    PresentValueWhole(payment, r, n);
    assert Rows(payment, r, pv, n, start)[n - 1] == RowAt(payment, r, pv, n, start, n - 1);
    assert lines[n - 1].principal == RoundReal(Opening(payment, r, pv, n - 1));
  }

  /** The gap a lease leaves is that drift to the nearest cent.  So the lines add up to
      the recognised liability exactly when it is under half a cent, the sign of the
      final principal deciding a tie. */
  lemma GapIsRoundedDrift(payment: real, r: real, n: nat, start: int, lease: nat)
    requires payment >= 0.0 && r >= 0.0 && n >= 1
    ensures var gap, d := LeaseGap(payment, r, n, start, lease), StorageDrift(payment, r, n);
            var final := Opening(payment, r, PresentValue(payment, r, n), n - 1);
            && -0.5 <= gap as real - d <= 0.5
            && (gap == 0 <==> -0.5 < d < 0.5 || (d == 0.5 && final >= 0.0) || (d == -0.5 && final < 0.0))
  {
    hide RoundReal, Opening, PresentValue, OrdinaryTo, ShortfallTo, Repeat, SubCent, LeaseGap;
    var pv := PresentValue(payment, r, n);
    var d := StorageDrift(payment, r, n);
    GapSplit(payment, r, n, start, lease);
    RoundShift(RoundReal(pv) - OrdinaryTo(payment, r, pv, n - 1) + ShortfallTo(payment, r, pv, n - 1), d);
  }

  /** Recognition adds the lease's gap to the books' difference; runs add nothing. */
  lemma GapOverSteps(s: State, op: Op)
    ensures StorageGap(Step(s, op)) - StorageGap(s)
            == if op.CreateLease? && CreateAccepted(s, op)
               then LeaseGap(op.payment, MonthlyRate(op.annualRate), op.term, op.start, |s.leases|) else 0
  {
    hide MonthlyRate, PresentValue, RowAt, RunEntry, StorageGap, Sum, Rows, StoredAll;
    var t := Step(s, op);
    if op.CreateLease? && CreateAccepted(s, op) {
      var r := MonthlyRate(op.annualRate);
      var added := StoredAll(Rows(op.payment, r, PresentValue(op.payment, r, op.term), op.term, op.start), |s.leases|);
      AddLeaseSums(s, t.leases[|s.leases|], added, t);
    } else if op.RunPeriod? && RunAccepted(s, op) {
      RunSums(s, op.period, t);
    }
  }

  /** The gaps of the leases a run has recognised. */
  function GapTotal(ops: seq<Op>): int {
    if ops == [] then 0
    else
      var s, op := Run(ops[..|ops| - 1]), ops[|ops| - 1];
      GapTotal(ops[..|ops| - 1])
      + if op.CreateLease? && CreateAccepted(s, op)
        then LeaseGap(op.payment, MonthlyRate(op.annualRate), op.term, op.start, |s.leases|) else 0
  }

  lemma {:induction false} GapOverRuns(ops: seq<Op>)
    ensures StorageGap(Run(ops)) == GapTotal(ops)
  {
    hide Step, StorageGap, LeaseGap, CreateAccepted, MonthlyRate;
    if ops == [] {
      NoGap();
    } else {
      GapOverRuns(ops[..|ops| - 1]);
      GapOverSteps(Run(ops[..|ops| - 1]), ops[|ops| - 1]);
    }
  }

  lemma NoGap()
    ensures StorageGap(EMPTY) == 0
  {
  }

  /** After every run, 2500 is off the unbooked principal by exactly the gaps of the
      leases recognised; it ties out if and only if they add up to nothing. */
  lemma LiabilityTiesOutIff(ops: seq<Op>)
    ensures var s := Run(ops);
            && CreditBalance(s.journal, LeaseLiability) == Sum(s.lines, PrincipalF, Unbooked) + GapTotal(ops)
            && (CreditBalance(s.journal, LeaseLiability) == Sum(s.lines, PrincipalF, Unbooked) <==> GapTotal(ops) == 0)
  {
    hide Run, Sum, Balance;
    TieOut(ops);
    GapOverRuns(ops);
  }
}
