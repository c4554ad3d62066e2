/** Impairments and their reversals over an asset's life.  A reversal is capped by
    accumulated depreciation; that it undoes a prior impairment is left to the caller. */
module ImpairmentHistory {
  import opened Ledger
  import opened Money
  import opened AssetRegister

  function ImpairedSoFar(losses: seq<int>): int {
    if losses == [] then 0 else ImpairedSoFar(losses[..|losses| - 1]) + Max(0, losses[|losses| - 1])
  }

  function ReversedSoFar(losses: seq<int>): int {
    if losses == [] then 0 else ReversedSoFar(losses[..|losses| - 1]) + Max(0, -losses[|losses| - 1])
  }

  /** No more has been reversed than was impaired. */
  predicate Covered(a: Asset) {
    ReversedSoFar(a.impairments) <= ImpairedSoFar(a.impairments)
  }

  predicate AllCovered(assets: seq<Asset>) {
    forall k :: 0 <= k < |assets| ==> Covered(assets[k])
  }

  /** What could still be reversed: the sum of the asset's impairment rows. */
  function Outstanding(a: Asset): int {
    SumOf(a.impairments)
  }

  lemma {:induction false} OutstandingIs(losses: seq<int>)
    ensures SumOf(losses) == ImpairedSoFar(losses) - ReversedSoFar(losses)
  {
    if losses != [] {
      OutstandingIs(losses[..|losses| - 1]);
    }
  }

  lemma HistorySnoc(losses: seq<int>, d: int)
    ensures ImpairedSoFar(losses + [d]) == ImpairedSoFar(losses) + Max(0, d)
    ensures ReversedSoFar(losses + [d]) == ReversedSoFar(losses) + Max(0, -d)
  {
    assert (losses + [d])[..|losses|] == losses;
  }

  predicate Reverses(s: State, op: Op) {
    op.ReverseImpair? && ReplyTo(s, op).Booked?
  }

  /** What a caller can check before the call. */
  predicate WithinImpairments(s: State, op: Op)
    requires Reverses(s, op)
  {
    var a := s.assets[Find(s.assets, op.ref).value];
    Min(op.amount, a.accumulated) <= Outstanding(a)
  }

  /** A booked reversal leaves no more reversed than impaired exactly when what it
      reverses is no more than the impairments outstanding before it. */
  lemma ReversalCoveredIff(s: State, op: Op)
    requires Reverses(s, op)
    ensures Covered(Step(s, op).assets[Find(s.assets, op.ref).value]) <==> WithinImpairments(s, op)
  {
    hide SumOf, ImpairedSoFar, ReversedSoFar;
    var a := s.assets[Find(s.assets, op.ref).value];
    OutstandingIs(a.impairments);
    HistorySnoc(a.impairments, -Min(op.amount, a.accumulated));
  }

  /** Every other step, and a reversal within bounds, keeps all assets covered. */
  lemma StepCoveredIff(s: State, op: Op)
    requires AllCovered(s.assets)
    ensures AllCovered(Step(s, op).assets) <==> (Reverses(s, op) ==> WithinImpairments(s, op))
  {
    hide SumOf, ImpairedSoFar, ReversedSoFar, RevaluationLines, DisposalLines, Charge;
    var t := Step(s, op);
    if Reverses(s, op) {
      ReversalCoveredIff(s, op);
      assert Covered(t.assets[Find(s.assets, op.ref).value]) ==> AllCovered(t.assets);
    } else if op.Impair? && ReplyTo(s, op).Booked? {
      var a := s.assets[Find(s.assets, op.ref).value];
      HistorySnoc(a.impairments, a.cost - a.accumulated - op.recoverable);
    } else if op.Capitalise? {
      NoHistory();
    }
  }

  lemma NoHistory()
    ensures ImpairedSoFar([]) == 0 && ReversedSoFar([]) == 0
  {
  }

  /** The state before the n-th operation. */
  function Before(ops: seq<Op>, n: nat): State
    requires n <= |ops|
  {
    Run(ops[..n])
  }

  lemma BeforeNext(ops: seq<Op>, n: nat)
    requires n < |ops|
    ensures Before(ops, n + 1) == Step(Before(ops, n), ops[n])
  {
    assert ops[..n + 1][..n] == ops[..n];
  }

  ghost predicate AlwaysCovered(ops: seq<Op>) {
    forall n :: 0 <= n <= |ops| ==> AllCovered(Before(ops, n).assets)
  }

  predicate MetAt(ops: seq<Op>, n: nat)
    requires n < |ops|
  {
    Reverses(Before(ops, n), ops[n]) ==> WithinImpairments(Before(ops, n), ops[n])
  }

  lemma {:induction false} MetKeepsCovered(ops: seq<Op>, n: nat)
    requires n <= |ops| && forall m :: 0 <= m < |ops| ==> MetAt(ops, m)
    ensures AllCovered(Before(ops, n).assets)
  {
    hide AllCovered, Step, Before;
    if n == 0 {
      StartCovered(ops);
    } else {
      MetKeepsCovered(ops, n - 1);
      BeforeNext(ops, n - 1);
      assert MetAt(ops, n - 1);
      StepCoveredIff(Before(ops, n - 1), ops[n - 1]);
    }
  }

  lemma StartCovered(ops: seq<Op>)
    ensures AllCovered(Before(ops, 0).assets)
  {
  }

  /** Over every run, no asset ever has more reversed than impaired exactly when every
      booked reversal was within the impairments outstanding. */
  lemma AlwaysCoveredIff(ops: seq<Op>)
    ensures AlwaysCovered(ops) <==> forall n :: 0 <= n < |ops| ==> MetAt(ops, n)
  {
    hide AllCovered, Step, Before;
    if AlwaysCovered(ops) {
      forall n | 0 <= n < |ops|
        ensures MetAt(ops, n)
      {
        BeforeNext(ops, n);
        assert AllCovered(Before(ops, n).assets) && AllCovered(Before(ops, n + 1).assets);
        StepCoveredIff(Before(ops, n), ops[n]);
      }
    }
    if forall n :: 0 <= n < |ops| ==> MetAt(ops, n) {
      forall n | 0 <= n <= |ops|
        ensures AllCovered(Before(ops, n).assets)
      {
        MetKeepsCovered(ops, n);
      }
    }
  }

  /** Depreciated for a month and never impaired, an asset has the month's charge taken
      back as an impairment reversal. */
  lemma NeverImpairedYetReversed()
    ensures var capitalise := Capitalise("A", 1200, 0, 0, 12, StraightLine, Cogs);
            var s := Run([capitalise, Depreciate(1, 31), ReverseImpair("A", 100, 31)]);
            |s.assets| == 1 && s.assets[0].impairments == [-100] && s.assets[0].accumulated == 0 && !AllCovered(s.assets)
  {
    hide Run, Find, ImpairedSoFar, ReversedSoFar;
    var capitalise := Capitalise("A", 1200, 0, 0, 12, StraightLine, Cogs);
    var charge, reverse := Depreciate(1, 31), ReverseImpair("A", 100, 31);
    OneAsset(capitalise);
    var a := Run([capitalise]).assets[0];
    var b := a.(accumulated := 100, depreciated := {1});
    FindOnly(a);
    FindOnly(b);
    assert Charge(a, 1, 31) == 100;
    RunSnoc([capitalise], charge);
    assert [capitalise] + [charge] == [capitalise, charge];
    assert LivesPositive([a]) && DepreciateOne(a, 1, 31) == b;
    assert DepreciateAll([a], 1, 31) == [b];
    RunSnoc([capitalise, charge], reverse);
    assert [capitalise, charge] + [reverse] == [capitalise, charge, reverse];
    HistorySnoc([], -100);
    assert [] + [-100] == [-100];
    NoHistory();
    assert !Covered(Run([capitalise, charge, reverse]).assets[0]);
  }
}
