/** What each operation on the fixed-asset register does after any history, in terms of
    the asset's own figures and of what has happened before. */
module AssetCalls {
  import opened Ledger
  import opened Money
  import opened AssetRegister

  // ----- assets and references

  ghost predicate RefsDiffer(assets: seq<Asset>) {
    forall i, j :: 0 <= i < j < |assets| ==> assets[i].ref != assets[j].ref
  }

  lemma StepKeepsRefs(s: State, op: Op)
    requires RefsDiffer(s.assets) && LivesPositive(s.assets)
    ensures RefsDiffer(Step(s, op).assets) && LivesPositive(Step(s, op).assets)
  {
    hide RevaluationLines, DisposalLines, Charge, SumOf;
  }

  /** Over every run no two assets share a reference and every life is positive. */
  lemma {:induction false} RefsAlwaysDiffer(ops: seq<Op>)
    ensures RefsDiffer(Run(ops).assets) && LivesPositive(Run(ops).assets)
  {
    hide Step;
    if ops != [] {
      RefsAlwaysDiffer(ops[..|ops| - 1]);
      StepKeepsRefs(Run(ops[..|ops| - 1]), ops[|ops| - 1]);
    }
  }

  lemma FindsIt(assets: seq<Asset>, k: nat)
    requires RefsDiffer(assets) && k < |assets|
    ensures Find(assets, assets[k].ref) == Some(k)
  {
  }

  // ----- what has happened before

  function KeyOf(op: Op): Option<Event> {
    match op
    case Impair(ref, _, date) => Some(Impaired(ref, date))
    case ReverseImpair(ref, _, date) => Some(ImpairmentReversed(ref, date))
    case Revalue(ref, _, date) => Some(Revalued(ref, date))
    case Dispose(_, _, Some(id)) => Some(DisposalOf(id))
    case _ => None
  }

  ghost predicate TookEffect(ops: seq<Op>, k: nat)
    requires k < |ops|
  {
    Run(ops[..k + 1]) != Run(ops[..k])
  }

  /** The event has been booked by some earlier operation. */
  ghost predicate Happened(ops: seq<Op>, e: Event) {
    exists k :: 0 <= k < |ops| && KeyOf(ops[k]) == Some(e) && TookEffect(ops, k)
  }

  lemma HappenedSnoc(ops: seq<Op>, op: Op, e: Event)
    ensures Happened(ops + [op], e)
            <==> Happened(ops, e) || (KeyOf(op) == Some(e) && Step(Run(ops), op) != Run(ops))
  {
    hide Run, Step;
    var more := ops + [op];
    RunSnoc(ops, op);
    assert more[|ops|] == op && more[..|ops|] == ops && more[..|ops| + 1] == more;
    forall k | 0 <= k < |ops|
      ensures more[k] == ops[k] && (TookEffect(more, k) <==> TookEffect(ops, k))
    {
      assert more[..k] == ops[..k] && more[..k + 1] == ops[..k + 1];
    }
    if Happened(ops, e) {
      var k :| 0 <= k < |ops| && KeyOf(ops[k]) == Some(e) && TookEffect(ops, k);
      assert KeyOf(more[k]) == Some(e) && TookEffect(more, k);
    }
    if Happened(more, e) {
      var k :| 0 <= k < |more| && KeyOf(more[k]) == Some(e) && TookEffect(more, k);
      assert k < |ops| ==> KeyOf(ops[k]) == Some(e) && TookEffect(ops, k);
    }
    assert TookEffect(more, |ops|) <==> Step(Run(ops), op) != Run(ops);
  }

  lemma StepProcesses(s: State, op: Op, e: Event)
    ensures e in Step(s, op).processed <==> e in s.processed || (KeyOf(op) == Some(e) && Step(s, op) != s)
  {
    hide RevaluationLines, DisposalLines, Charge, SumOf, Find, DepreciateAll;
    assert ReplyTo(s, op).Booked? && KeyOf(op).Some? ==> |Step(s, op).journal| == |s.journal| + 1;
  }

  lemma {:induction false} ProcessedIs(ops: seq<Op>, e: Event)
    ensures e in Run(ops).processed <==> Happened(ops, e)
  {
    hide Step, Happened;
    if ops == [] {
      NothingHappened(e);
    } else {
      var init, op := ops[..|ops| - 1], ops[|ops| - 1];
      assert init + [op] == ops;
      ProcessedIs(init, e);
      StepProcesses(Run(init), op, e);
      HappenedSnoc(init, op, e);
    }
  }

  lemma NothingHappened(e: Event)
    ensures e !in Run([]).processed && !Happened([], e)
  {
  }

  // ----- the operations

  /** One more entry moves an account by its net. */
  lemma Moves(s: State, op: Op, lines: Entry, a: Account)
    requires Step(s, op).journal == s.journal + [lines]
    ensures Balance(Step(s, op).journal, a) == Balance(s.journal, a) + Net(lines, a)
  {
    hide Step;
    BalanceSnoc(s.journal, lines, a);
  }

  /** An asset is capitalised exactly when its reference is new and its life positive;
      it starts active and undepreciated, and its cost moves to 1500. */
  lemma CapitalisationCounts(ops: seq<Op>, op: Op, a: Account)
    requires op.Capitalise?
    ensures var s, t := Run(ops), Run(ops + [op]);
            && (t != s <==> op.life > 0 && forall k :: 0 <= k < |s.assets| ==> s.assets[k].ref != op.ref)
            && (t != s ==>
                  && t.assets == s.assets + [Asset(op.ref, op.cost, op.salvage, op.inService, op.life, op.basis, 0,
                                                   Active, {}, [], [])]
                  && t.processed == s.processed
                  && (op.cost > 0 ==>
                        Balance(t.journal, a) == Balance(s.journal, a) + (if a == FixedAssets then op.cost else 0)
                                                 - (if a == op.from then op.cost else 0))
                  && (op.cost <= 0 ==> t.journal == s.journal))
  {
    hide Run, Net, Balance;
    var s := Run(ops);
    RunSnoc(ops, op);
    PairNet(FixedAssets, op.from, op.cost, a);
    if ReplyTo(s, op).Booked? && op.cost > 0 {
      Moves(s, op, Pair(FixedAssets, op.from, op.cost), a);
    }
    assert ReplyTo(s, op).Booked? ==> |Step(s, op).assets| == |s.assets| + 1;
  }

  /** An impairment counts once a reference and date, on an active asset carried above
      the recoverable amount; it brings the carrying amount down to that. */
  lemma ImpairmentCounts(ops: seq<Op>, k: nat, recoverable: int, date: int, a: Account)
    requires k < |Run(ops).assets|
    ensures var s := Run(ops);
            var x := s.assets[k];
            var t := Run(ops + [Impair(x.ref, recoverable, date)]);
            var loss := x.cost - x.accumulated - recoverable;
            && (t != s <==> !Happened(ops, Impaired(x.ref, date)) && x.status == Active && loss > 0)
            && (t != s ==>
                  && t.assets == s.assets[k := x.(accumulated := x.cost - recoverable,
                                                  impairments := x.impairments + [loss])]
                  && Balance(t.journal, a) == Balance(s.journal, a) + (if a == ImpairmentLoss then loss else 0)
                                              - (if a == AccumDepreciation then loss else 0))
  {
    hide Run, Net, Balance, Happened;
    var s := Run(ops);
    var x := s.assets[k];
    var op := Impair(x.ref, recoverable, date);
    var loss := x.cost - x.accumulated - recoverable;
    Addressed(ops, op, k);
    ProcessedIs(ops, Impaired(x.ref, date));
    PairNet(ImpairmentLoss, AccumDepreciation, loss, a);
    if ReplyTo(s, op).Booked? {
      Moves(s, op, Pair(ImpairmentLoss, AccumDepreciation, loss), a);
      assert |Step(s, op).journal| == |s.journal| + 1;
    }
  }

  lemma Addressed(ops: seq<Op>, op: Op, k: nat)
    requires k < |Run(ops).assets|
    ensures Find(Run(ops).assets, Run(ops).assets[k].ref) == Some(k)
    ensures Run(ops + [op]) == Step(Run(ops), op)
  {
    hide Run, Find, Step;
    RunSnoc(ops, op);
    RefsAlwaysDiffer(ops);
    FindsIt(Run(ops).assets, k);
  }

  /** A reversal counts once a reference and date, on an active asset, for a positive
      amount and while something is accumulated; it takes back the amount, or all that
      is accumulated when that is less. */
  lemma ReversalCounts(ops: seq<Op>, k: nat, amount: int, date: int, a: Account)
    requires k < |Run(ops).assets|
    ensures var s := Run(ops);
            var x := s.assets[k];
            var t := Run(ops + [ReverseImpair(x.ref, amount, date)]);
            var back := if amount <= x.accumulated then amount else x.accumulated;
            && (t != s <==> !Happened(ops, ImpairmentReversed(x.ref, date)) && x.status == Active
                            && amount > 0 && x.accumulated > 0)
            && (t != s ==>
                  && t.assets == s.assets[k := x.(accumulated := x.accumulated - back,
                                                  impairments := x.impairments + [-back])]
                  && Balance(t.journal, a) == Balance(s.journal, a) + (if a == AccumDepreciation then back else 0)
                                              - (if a == ImpairmentLoss then back else 0))
  {
    hide Run, Net, Balance, Happened;
    var s := Run(ops);
    var x := s.assets[k];
    var op := ReverseImpair(x.ref, amount, date);
    var back := if amount <= x.accumulated then amount else x.accumulated;
    Addressed(ops, op, k);
    ProcessedIs(ops, ImpairmentReversed(x.ref, date));
    PairNet(AccumDepreciation, ImpairmentLoss, back, a);
    if ReplyTo(s, op).Booked? {
      Moves(s, op, Pair(AccumDepreciation, ImpairmentLoss, back), a);
      assert |Step(s, op).journal| == |s.journal| + 1;
    }
  }

  /** The sum of the asset's recorded revaluation movements. */
  function Recorded(deltas: seq<int>): int {
    if deltas == [] then 0 else deltas[0] + Recorded(deltas[1..])
  }

  lemma {:induction false} RecordedSnoc(deltas: seq<int>, d: int)
    ensures Recorded(deltas + [d]) == Recorded(deltas) + d
  {
    if deltas != [] {
      assert (deltas + [d])[1..] == deltas[1..] + [d];
      RecordedSnoc(deltas[1..], d);
    }
  }

  lemma {:induction false} RecordedIs(deltas: seq<int>)
    ensures SumOf(deltas) == Recorded(deltas)
  {
    if deltas != [] {
      RecordedIs(deltas[..|deltas| - 1]);
      RecordedSnoc(deltas[..|deltas| - 1], deltas[|deltas| - 1]);
      assert deltas[..|deltas| - 1] + [deltas[|deltas| - 1]] == deltas;
    }
  }

  /** A revaluation counts once a reference and date, on an active asset carried at
      another amount.  What the cost gains goes to surplus; what it loses is taken from
      the surplus the asset's earlier revaluations left, as far as that goes, and is a
      loss beyond. */
  lemma RevaluationCounts(ops: seq<Op>, k: nat, newCarrying: int, date: int, a: Account)
    requires k < |Run(ops).assets|
    ensures var s := Run(ops);
            var x := s.assets[k];
            var t := Run(ops + [Revalue(x.ref, newCarrying, date)]);
            var delta := newCarrying - (x.cost - x.accumulated);
            var absorbed := if delta >= 0 || Recorded(x.surplus) <= 0 then 0
                            else if Recorded(x.surplus) < -delta then Recorded(x.surplus) else -delta;
            && (t != s <==> !Happened(ops, Revalued(x.ref, date)) && x.status == Active && delta != 0)
            && (t != s ==>
                  && t.assets == s.assets[k := x.(cost := newCarrying + x.accumulated, surplus := x.surplus + [delta])]
                  && Balance(t.journal, a) == Balance(s.journal, a) + (if a == FixedAssets then delta else 0)
                                              - (if a == RevalSurplus then Max(0, delta) - absorbed else 0)
                                              + (if a == ImpairmentLoss then Max(0, -delta) - absorbed else 0))
  {
    hide Run, Net, Balance, Happened, RevaluationLines, SumOf, Recorded;
    var s := Run(ops);
    var x := s.assets[k];
    var op := Revalue(x.ref, newCarrying, date);
    var delta := newCarrying - (x.cost - x.accumulated);
    Addressed(ops, op, k);
    ProcessedIs(ops, Revalued(x.ref, date));
    RecordedIs(x.surplus);
    if ReplyTo(s, op).Booked? {
      RevaluationNet(x, delta, a);
      Moves(s, op, RevaluationLines(x, delta), a);
      assert |Step(s, op).journal| == |s.journal| + 1;
    }
  }

  /** A disposal counts once an event, on an active asset and for proceeds that are not
      negative; the cost and what is accumulated leave the books, and the proceeds less
      the carrying amount is a gain or a loss. */
  lemma DisposalCounts(ops: seq<Op>, k: nat, proceeds: int, event: Option<string>, a: Account)
    requires forall i :: 0 <= i < |ops| ==> Sane(ops[i])
    requires k < |Run(ops).assets|
    ensures var s := Run(ops);
            var x := s.assets[k];
            var t := Run(ops + [Dispose(x.ref, proceeds, event)]);
            var gain := proceeds - (x.cost - x.accumulated);
            && (t != s <==> (event == None || !Happened(ops, DisposalOf(event.value))) && x.status == Active
                            && proceeds >= 0)
            && (t != s ==>
                  && t.assets == s.assets[k := x.(status := Disposed)]
                  && Balance(t.journal, a) == Balance(s.journal, a) + (if a == Cash then proceeds else 0)
                                              + (if a == AccumDepreciation then x.accumulated else 0)
                                              - (if a == FixedAssets then x.cost else 0)
                                              - (if a == DisposalGain then Max(0, gain) else 0)
                                              + (if a == DisposalLoss then Max(0, -gain) else 0))
  {
    hide Run, Net, Balance, Happened, DisposalLines, Excess;
    var s := Run(ops);
    var x := s.assets[k];
    var op := Dispose(x.ref, proceeds, event);
    Addressed(ops, op, k);
    DriftIsMisfunded(ops, CostF);
    assert AssetValid(x);
    if event.Some? {
      ProcessedIs(ops, DisposalOf(event.value));
    }
    if x.status == Active {
      DisposalNet(x, proceeds, a);
    }
    if ReplyTo(s, op).Booked? {
      Moves(s, op, DisposalLines(x, proceeds), a);
      assert |Step(s, op).journal| == |s.journal| + 1;
    }
  }

  /** An operation on a reference the register does not hold changes nothing. */
  lemma UnknownReference(ops: seq<Op>, op: Op)
    requires op.Impair? || op.ReverseImpair? || op.Revalue? || op.Dispose?
    requires forall k :: 0 <= k < |Run(ops).assets| ==> Run(ops).assets[k].ref != op.ref
    ensures Run(ops + [op]) == Run(ops)
  {
    hide Run;
    RunSnoc(ops, op);
  }

  // ----- a depreciation run

  /** The month's charge to half a cent, before any cap: a twelfth of the reducing rate,
      in ten-thousandths, of the carrying amount, or an equal share of the life. */
  predicate MonthlyCharge(x: Asset, m: int)
    requires x.life > 0
  {
    match x.basis
    case DecliningBalance(rate) =>
      if rate > 0 then -60000 <= 120000 * m - (x.cost - x.accumulated) * rate <= 60000
      else -x.life <= 2 * (x.life * m - (x.cost - x.salvage)) <= x.life
    case StraightLine => -x.life <= 2 * (x.life * m - (x.cost - x.salvage)) <= x.life
  }

  lemma MonthlyIs(x: Asset)
    requires x.life > 0
    ensures MonthlyCharge(x, Monthly(x))
  {
    RoundDivNearest(x.cost - x.salvage, x.life);
    if x.basis.DecliningBalance? {
      RoundDivNearest((x.cost - x.accumulated) * x.basis.rate, 120000);
    }
  }

  /** What a run leaves of an asset: charged when it is active, in service by the end of
      the period, not charged for the period before and not yet down to its salvage
      value, by the month's charge and no further than that value. */
  ghost predicate ChargedFor(x: Asset, y: Asset, period: int, periodEnd: int)
    requires x.life > 0
  {
    var left := x.cost - x.salvage - x.accumulated;
    if x.status == Active && x.inService <= periodEnd && period !in x.depreciated && left > 0 then
      exists m :: MonthlyCharge(x, m)
                  && y == if m <= 0 then x
                          else x.(accumulated := x.accumulated + (if m <= left then m else left),
                                  depreciated := x.depreciated + {period})
    else y == x
  }

  lemma OneCharged(x: Asset, period: int, periodEnd: int)
    requires x.life > 0
    ensures ChargedFor(x, DepreciateOne(x, period, periodEnd), period, periodEnd)
  {
    MonthlyIs(x);
    hide Monthly, MonthlyCharge;
    assert x.cost - x.salvage - x.accumulated > 0 ==> MonthlyCharge(x, Monthly(x));
  }

  function AccumulatedTo(assets: seq<Asset>, n: nat): int
    requires n <= |assets|
  {
    if n == 0 then 0 else AccumulatedTo(assets, n - 1) + assets[n - 1].accumulated
  }

  lemma {:induction false} ChargeIsGrowth(assets: seq<Asset>, n: nat, period: int, periodEnd: int)
    requires n <= |assets| && LivesPositive(assets)
    ensures ChargeTo(assets, n, period, periodEnd)
            == AccumulatedTo(DepreciateAll(assets, period, periodEnd), n) - AccumulatedTo(assets, n)
  {
    hide Charge;
    if n > 0 {
      ChargeIsGrowth(assets, n - 1, period, periodEnd);
    }
  }

  /** A run charges every asset as ChargedFor says and moves to 5300, out of 1510, what
      the accumulated amounts have grown by. */
  lemma DepreciationCounts(ops: seq<Op>, period: int, periodEnd: int, a: Account)
    ensures var s, t := Run(ops), Run(ops + [Depreciate(period, periodEnd)]);
            && |t.assets| == |s.assets| && t.processed == s.processed
            && (forall k :: 0 <= k < |s.assets| ==>
                  s.assets[k].life > 0 && ChargedFor(s.assets[k], t.assets[k], period, periodEnd))
            && var total := AccumulatedTo(t.assets, |t.assets|) - AccumulatedTo(s.assets, |s.assets|);
               Balance(t.journal, a) == Balance(s.journal, a) + (if a == DepExpense then total else 0)
                                        - (if a == AccumDepreciation then total else 0)
  {
    hide Run, Net, Balance, ChargedFor, DepreciateOne, Charge;
    var s, op := Run(ops), Depreciate(period, periodEnd);
    RunSnoc(ops, op);
    RefsAlwaysDiffer(ops);
    var total := ChargeTo(s.assets, |s.assets|, period, periodEnd);
    ChargeIsGrowth(s.assets, |s.assets|, period, periodEnd);
    ChargeNonNegative(s.assets, |s.assets|, period, periodEnd);
    PairNet(DepExpense, AccumDepreciation, total, a);
    if total > 0 {
      Moves(s, op, Pair(DepExpense, AccumDepreciation, total), a);
    }
    forall k | 0 <= k < |s.assets|
      ensures s.assets[k].life > 0 && ChargedFor(s.assets[k], Step(s, op).assets[k], period, periodEnd)
    {
      OneCharged(s.assets[k], period, periodEnd);
    }
  }
}
