/** The fixed-asset subledger: capitalisation, depreciation, impairment and its
    reversal, revaluation, disposal. */
module AssetRegister {
  import opened Ledger
  import opened Money

  /** rate is the annual reducing-balance rate in ten-thousandths. */
  datatype Basis = StraightLine | DecliningBalance(rate: int)

  datatype AssetStatus = Active | Disposed

  /** depreciated holds the periods of the asset's depreciation rows, surplus the
      deltas of its revaluation rows, impairments the losses of its impairment rows,
      a reversal being a negative one.  Days and periods are numbered. */
  datatype Asset = Asset(ref: string, cost: int, salvage: int, inService: int, life: int, basis: Basis,
                         accumulated: int, status: AssetStatus, depreciated: set<int>, surplus: seq<int>,
                         impairments: seq<int>)

  datatype Event =
    | Impaired(ref: string, date: int)
    | ImpairmentReversed(ref: string, date: int)
    | Revalued(ref: string, date: int)
    | DisposalOf(id: string)

  datatype State = State(assets: seq<Asset>, processed: set<Event>, journal: seq<Entry>)

  const EMPTY := State([], {}, [])

  datatype Op =
    | Capitalise(ref: string, cost: int, salvage: int, inService: int, life: int, basis: Basis, from: Account)
    | Depreciate(period: int, periodEnd: int)
    | Impair(ref: string, recoverable: int, date: int)
    | ReverseImpair(ref: string, amount: int, date: int)
    | Revalue(ref: string, newCarrying: int, date: int)
    | Dispose(ref: string, proceeds: int, event: Option<string>)

  datatype Reply = Booked | Replayed | AssetNotFound | AssetInactive | NoImpairment | Unbalanced | Duplicate | CheckViolation

  // ----- depreciation

  function Depreciable(a: Asset): int {
    a.cost - a.salvage
  }

  function Monthly(a: Asset): int
    requires a.life > 0
  {
    if a.basis.DecliningBalance? && a.basis.rate > 0
    then RoundDiv((a.cost - a.accumulated) * a.basis.rate, 120000)
    else RoundDiv(Depreciable(a), a.life)
  }

  /** What a run charges an asset, capped at cost less salvage. */
  function Charge(a: Asset, period: int, periodEnd: int): int
    requires a.life > 0
  {
    var remaining := Depreciable(a) - a.accumulated;
    if a.status.Disposed? || a.inService > periodEnd || period in a.depreciated || remaining <= 0 then 0
    else Max(0, Min(Monthly(a), remaining))
  }

  function DepreciateOne(a: Asset, period: int, periodEnd: int): Asset
    requires a.life > 0
  {
    var amount := Charge(a, period, periodEnd);
    if amount == 0 then a
    else a.(accumulated := a.accumulated + amount, depreciated := a.depreciated + {period})
  }

  predicate LivesPositive(assets: seq<Asset>) {
    forall k :: 0 <= k < |assets| ==> assets[k].life > 0
  }

  function ChargeTo(assets: seq<Asset>, n: nat, period: int, periodEnd: int): int
    requires n <= |assets| && LivesPositive(assets)
  {
    if n == 0 then 0 else ChargeTo(assets, n - 1, period, periodEnd) + Charge(assets[n - 1], period, periodEnd)
  }

  function DepreciateAll(assets: seq<Asset>, period: int, periodEnd: int): (t: seq<Asset>)
    requires LivesPositive(assets)
    ensures |t| == |assets|
    ensures forall k :: 0 <= k < |t| ==> t[k] == DepreciateOne(assets[k], period, periodEnd)
  {
    seq(|assets|, k requires 0 <= k < |assets| => DepreciateOne(assets[k], period, periodEnd))
  }

  // ----- the entries

  function SumOf(deltas: seq<int>): int {
    if deltas == [] then 0 else SumOf(deltas[..|deltas| - 1]) + deltas[|deltas| - 1]
  }

  /** The part of a downward movement that prior net surplus absorbs. */
  function FromSurplus(deltas: seq<int>, down: int): int {
    Min(down, Max(0, SumOf(deltas)))
  }

  function RevaluationLines(a: Asset, delta: int): Entry {
    if delta > 0 then Pair(FixedAssets, RevalSurplus, delta)
    else
      var down := -delta;
      var released := FromSurplus(a.surplus, down);
      DrIfPositive(RevalSurplus, released) + DrIfPositive(ImpairmentLoss, down - released) + [Cr(FixedAssets, down)]
  }

  function DisposalLines(a: Asset, proceeds: int): Entry {
    var net := proceeds - (a.cost - a.accumulated);
    DrIfPositive(Cash, proceeds) + DrIfPositive(AccumDepreciation, a.accumulated) + CrIfPositive(FixedAssets, a.cost)
    + (CrIfPositive(DisposalGain, net) + DrIfPositive(DisposalLoss, -net))
  }

  // ----- one transaction

  function Find(assets: seq<Asset>, ref: string): (r: Option<nat>)
    ensures r.Some? ==> r.value < |assets| && assets[r.value].ref == ref
    ensures r.None? ==> forall k :: 0 <= k < |assets| ==> assets[k].ref != ref
  {
    if assets == [] then None
    else if assets[|assets| - 1].ref == ref then Some(|assets| - 1)
    else
      var r := Find(assets[..|assets| - 1], ref);
      assert forall k :: 0 <= k < |assets| - 1 ==> assets[k] == assets[..|assets| - 1][k];
      r
  }

  function ReplyTo(s: State, op: Op): Reply {
    match op
    case Capitalise(ref, _, _, _, life, _, _) =>
      if Find(s.assets, ref).Some? then Duplicate else if life <= 0 then CheckViolation else Booked
    case Depreciate(_, _) => if LivesPositive(s.assets) then Booked else CheckViolation
    case Impair(ref, recoverable, date) =>
      if Impaired(ref, date) in s.processed then Replayed
      else if Find(s.assets, ref).None? then AssetNotFound
      else
        var a := s.assets[Find(s.assets, ref).value];
        if a.status.Disposed? then AssetInactive
        else if a.cost - a.accumulated - recoverable <= 0 then NoImpairment else Booked
    case ReverseImpair(ref, amount, date) =>
      if ImpairmentReversed(ref, date) in s.processed then Replayed
      else if Find(s.assets, ref).None? then AssetNotFound
      else
        var a := s.assets[Find(s.assets, ref).value];
        if a.status.Disposed? then AssetInactive
        else if Min(amount, a.accumulated) <= 0 then NoImpairment else Booked
    case Revalue(ref, newCarrying, date) =>
      if Revalued(ref, date) in s.processed then Replayed
      else if Find(s.assets, ref).None? then AssetNotFound
      else
        var a := s.assets[Find(s.assets, ref).value];
        if a.status.Disposed? then AssetInactive
        else if newCarrying == a.cost - a.accumulated then NoImpairment else Booked
    case Dispose(ref, proceeds, event) =>
      if event.Some? && DisposalOf(event.value) in s.processed then Replayed
      else if Find(s.assets, ref).None? then AssetNotFound
      else
        var a := s.assets[Find(s.assets, ref).value];
        if a.status.Disposed? then AssetInactive
        else if !Balanced(DisposalLines(a, proceeds)) then Unbalanced else Booked
  }

  /** One asset row replaced, one entry booked, one event marked. */
  function Change(s: State, i: nat, a: Asset, lines: Entry, events: set<Event>): State
    requires i < |s.assets|
  {
    State(s.assets[i := a], s.processed + events, s.journal + [lines])
  }

  function Step(s: State, op: Op): State {
    if !ReplyTo(s, op).Booked? then s else
    match op
    case Capitalise(ref, cost, salvage, inService, life, basis, from) =>
      State(s.assets + [Asset(ref, cost, salvage, inService, life, basis, 0, Active, {}, [], [])], s.processed,
            if cost > 0 then s.journal + [Pair(FixedAssets, from, cost)] else s.journal)
    case Depreciate(period, periodEnd) =>
      var total := ChargeTo(s.assets, |s.assets|, period, periodEnd);
      State(DepreciateAll(s.assets, period, periodEnd), s.processed,
            if total > 0 then s.journal + [Pair(DepExpense, AccumDepreciation, total)] else s.journal)
    case Impair(ref, recoverable, date) =>
      var i := Find(s.assets, ref).value;
      var a := s.assets[i];
      var loss := a.cost - a.accumulated - recoverable;
      Change(s, i, a.(accumulated := a.accumulated + loss, impairments := a.impairments + [loss]),
             Pair(ImpairmentLoss, AccumDepreciation, loss),
             {Impaired(ref, date)})
    case ReverseImpair(ref, amount, date) =>
      var i := Find(s.assets, ref).value;
      var a := s.assets[i];
      var back := Min(amount, a.accumulated);
      Change(s, i, a.(accumulated := a.accumulated - back, impairments := a.impairments + [-back]),
             Pair(AccumDepreciation, ImpairmentLoss, back),
             {ImpairmentReversed(ref, date)})
    case Revalue(ref, newCarrying, date) =>
      var i := Find(s.assets, ref).value;
      var a := s.assets[i];
      var delta := newCarrying - (a.cost - a.accumulated);
      Change(s, i, a.(cost := a.cost + delta, surplus := a.surplus + [delta]), RevaluationLines(a, delta),
             {Revalued(ref, date)})
    case Dispose(ref, proceeds, event) =>
      var i := Find(s.assets, ref).value;
      var a := s.assets[i];
      Change(s, i, a.(status := Disposed), DisposalLines(a, proceeds),
             if event.Some? then {DisposalOf(event.value)} else {})
  }

  function Run(ops: seq<Op>): State {
    if ops == [] then EMPTY else Step(Run(ops[..|ops| - 1]), ops[|ops| - 1])
  }

  // ----- sums

  datatype Field = CostF | AccumulatedF | SurplusF

  /** What the account holds for an asset's whole revaluation history. */
  function SurplusPosted(deltas: seq<int>): int {
    if deltas == [] then 0 else
      var init, d := deltas[..|deltas| - 1], deltas[|deltas| - 1];
      SurplusPosted(init) + if d > 0 then d else -FromSurplus(init, -d)
  }

  function Get(a: Asset, f: Field): int {
    match f
    case CostF => if a.status.Active? then a.cost else 0
    case AccumulatedF => if a.status.Active? then a.accumulated else 0
    case SurplusF => SurplusPosted(a.surplus)
  }

  function SumTo(assets: seq<Asset>, n: nat, f: Field): int
    requires n <= |assets|
  {
    if n == 0 then 0 else SumTo(assets, n - 1, f) + Get(assets[n - 1], f)
  }

  /** An account in the direction its subledger column counts. */
  function GlOf(journal: seq<Entry>, f: Field): int {
    match f
    case CostF => Balance(journal, FixedAssets)
    case AccumulatedF => CreditBalance(journal, AccumDepreciation)
    case SurplusF => CreditBalance(journal, RevalSurplus)
  }

  function EntryOf(lines: Entry, f: Field): int {
    match f
    case CostF => Net(lines, FixedAssets)
    case AccumulatedF => -Net(lines, AccumDepreciation)
    case SurplusF => -Net(lines, RevalSurplus)
  }

  predicate AssetValid(a: Asset) {
    a.life > 0 && a.salvage >= 0 && (a.status.Active? ==> 0 <= a.accumulated <= a.cost)
  }

  ghost predicate Valid(s: State) {
    && (forall k :: 0 <= k < |s.assets| ==> AssetValid(s.assets[k]))
    && (forall e :: 0 <= e < |s.journal| ==> Balanced(s.journal[e]))
  }

  /** By how much an account is off its subledger column. */
  function Drift(s: State, f: Field): int {
    GlOf(s.journal, f) - SumTo(s.assets, |s.assets|, f)
  }

  /** Signs as the request handlers let them through; a disposal's proceeds may be
      anything, and so may the account an asset is capitalised from. */
  predicate Sane(op: Op) {
    match op
    case Capitalise(_, cost, salvage, _, _, _, _) => cost > 0 && salvage >= 0
    case Impair(_, recoverable, _) => recoverable >= 0
    case Revalue(_, newCarrying, _) => newCarrying >= 0
    case _ => true
  }

  // ----- how the sums move

  lemma {:induction false} SumSame(xs: seq<Asset>, ys: seq<Asset>, n: nat, f: Field)
    requires n <= |xs| && n <= |ys| && forall k :: 0 <= k < n ==> xs[k] == ys[k]
    ensures SumTo(xs, n, f) == SumTo(ys, n, f)
  {
    if n > 0 {
      SumSame(xs, ys, n - 1, f);
    }
  }

  lemma {:induction false} SumUpdate(assets: seq<Asset>, i: nat, a: Asset, n: nat, f: Field)
    requires i < n <= |assets|
    ensures SumTo(assets[i := a], n, f) == SumTo(assets, n, f) + Get(a, f) - Get(assets[i], f)
  {
    if n == i + 1 {
      SumSame(assets[i := a], assets, i, f);
    } else {
      SumUpdate(assets, i, a, n - 1, f);
    }
  }

  lemma {:induction false} SumDepreciated(assets: seq<Asset>, period: int, periodEnd: int, n: nat, f: Field)
    requires n <= |assets| && LivesPositive(assets)
    ensures SumTo(DepreciateAll(assets, period, periodEnd), n, f)
            == SumTo(assets, n, f) + if f.AccumulatedF? then ChargeTo(assets, n, period, periodEnd) else 0
  {
    hide Monthly;
    if n > 0 {
      SumDepreciated(assets, period, periodEnd, n - 1, f);
    }
  }

  lemma {:induction false} ChargeNonNegative(assets: seq<Asset>, n: nat, period: int, periodEnd: int)
    requires n <= |assets| && LivesPositive(assets)
    ensures ChargeTo(assets, n, period, periodEnd) >= 0
  {
    hide Monthly;
    if n > 0 {
      ChargeNonNegative(assets, n - 1, period, periodEnd);
    }
  }

  lemma GlSnoc(journal: seq<Entry>, lines: Entry, f: Field)
    ensures GlOf(journal + [lines], f) == GlOf(journal, f) + EntryOf(lines, f)
  {
    BalanceSnoc(journal, lines, match f case CostF => FixedAssets case AccumulatedF => AccumDepreciation case SurplusF => RevalSurplus);
  }

  function AccountOf(f: Field): Account {
    match f case CostF => FixedAssets case AccumulatedF => AccumDepreciation case SurplusF => RevalSurplus
  }

  /** A transaction that moves the row and the account alike. */
  lemma ChangeDrift(s: State, i: nat, a: Asset, lines: Entry, events: set<Event>, f: Field)
    requires i < |s.assets| && EntryOf(lines, f) == Get(a, f) - Get(s.assets[i], f)
    ensures Drift(Change(s, i, a, lines, events), f) == Drift(s, f)
  {
    hide Net, Balance, EntryOf, Get;
    GlSnoc(s.journal, lines, f);
    SumUpdate(s.assets, i, a, |s.assets|, f);
  }

  lemma PairEffect(debit: Account, credit: Account, amount: int, f: Field)
    ensures Balanced(Pair(debit, credit, amount))
    ensures EntryOf(Pair(debit, credit, amount), f)
            == (if f.CostF? then 1 else -1)
               * ((if debit == AccountOf(f) then amount else 0) - (if credit == AccountOf(f) then amount else 0))
  {
    PairNet(debit, credit, amount, AccountOf(f));
  }

  lemma SurplusSnoc(deltas: seq<int>, d: int)
    ensures SumOf(deltas + [d]) == SumOf(deltas) + d
    ensures SurplusPosted(deltas + [d]) == SurplusPosted(deltas) + if d > 0 then d else -FromSurplus(deltas, -d)
  {
    assert (deltas + [d])[..|deltas|] == deltas;
  }

  /** The revaluation entry, account by account: an increase goes to surplus, a
      decrease takes what surplus the asset has first and the rest to loss. */
  lemma RevaluationNet(a: Asset, delta: int, acc: Account)
    requires delta != 0
    ensures var released := if delta < 0 then FromSurplus(a.surplus, -delta) else 0;
            && Excess(RevaluationLines(a, delta)) == 0
            && Net(RevaluationLines(a, delta), acc)
               == (if acc == FixedAssets then delta else 0)
                  - (if acc == RevalSurplus then Max(0, delta) - Max(0, released) else 0)
                  + (if acc == ImpairmentLoss then Max(0, -delta) - Max(0, released) else 0)
  {
    if delta > 0 {
      PairNet(FixedAssets, RevalSurplus, delta, acc);
    } else {
      var down := -delta;
      var released := FromSurplus(a.surplus, down);
      var x, y := DrIfPositive(RevalSurplus, released), DrIfPositive(ImpairmentLoss, down - released);
      hide Net, Excess, DrIfPositive;
      NetConcat(x, y, acc);
      NetSnoc(x + y, Cr(FixedAssets, down), acc);
      IfPositiveNet(RevalSurplus, released, acc);
      IfPositiveNet(ImpairmentLoss, down - released, acc);
    }
  }

  lemma RevaluationEffect(a: Asset, delta: int, f: Field)
    requires delta != 0
    ensures Balanced(RevaluationLines(a, delta))
    ensures EntryOf(RevaluationLines(a, delta), f)
            == match f
               case CostF => delta
               case AccumulatedF => 0
               case SurplusF => SurplusPosted(a.surplus + [delta]) - SurplusPosted(a.surplus)
  {
    hide Net, Excess, RevaluationLines;
    SurplusSnoc(a.surplus, delta);
    RevaluationNet(a, delta, AccountOf(f));
  }

  /** The disposal entry, account by account: proceeds in, the asset's cost and
      depreciation out, and the difference to gain or loss. */
  lemma DisposalNet(a: Asset, proceeds: int, acc: Account)
    requires 0 <= a.accumulated <= a.cost
    ensures var net := proceeds - (a.cost - a.accumulated);
            && Excess(DisposalLines(a, proceeds)) == Max(0, proceeds) - proceeds
            && Net(DisposalLines(a, proceeds), acc)
               == (if acc == Cash then Max(0, proceeds) else 0) + (if acc == AccumDepreciation then a.accumulated else 0)
                  - (if acc == FixedAssets then a.cost else 0) - (if acc == DisposalGain then Max(0, net) else 0)
                  + (if acc == DisposalLoss then Max(0, -net) else 0)
  {
    var net := proceeds - (a.cost - a.accumulated);
    var w, x := DrIfPositive(Cash, proceeds), DrIfPositive(AccumDepreciation, a.accumulated);
    var y, g, l := CrIfPositive(FixedAssets, a.cost), CrIfPositive(DisposalGain, net), DrIfPositive(DisposalLoss, -net);
    hide Net, Excess, DrIfPositive, CrIfPositive;
    NetConcat(w, x, acc);
    NetConcat(w + x, y, acc);
    NetConcat(w + x + y, g + l, acc);
    NetConcat(g, l, acc);
    IfPositiveNet(Cash, proceeds, acc);
    IfPositiveNet(AccumDepreciation, a.accumulated, acc);
    IfPositiveNet(FixedAssets, a.cost, acc);
    IfPositiveNet(DisposalGain, net, acc);
    IfPositiveNet(DisposalLoss, -net, acc);
  }

  lemma DisposalEffect(a: Asset, proceeds: int, f: Field)
    requires 0 <= a.accumulated <= a.cost
    ensures Balanced(DisposalLines(a, proceeds)) <==> proceeds >= 0
    ensures EntryOf(DisposalLines(a, proceeds), f)
            == match f case CostF => -a.cost case AccumulatedF => -a.accumulated case SurplusF => 0
  {
    hide Net, Excess, DisposalLines;
    DisposalNet(a, proceeds, AccountOf(f));
  }

  // ----- what every step does to the tie

  /** What an operation books out of an account as the cost of a new asset. */
  function CapitalisedFrom(s: State, op: Op, a: Account): int {
    if op.Capitalise? && op.from == a && ReplyTo(s, op).Booked? then op.cost else 0
  }

  function Sign(f: Field): int {
    if f.CostF? then -1 else 1
  }

  lemma CapitaliseDrift(s: State, op: Op, f: Field)
    requires op.Capitalise? && ReplyTo(s, op).Booked? && Sane(op)
    ensures Drift(Step(s, op), f) == Drift(s, f) + Sign(f) * CapitalisedFrom(s, op, AccountOf(f))
    ensures Balanced(Pair(FixedAssets, op.from, op.cost))
  {
    hide Net, Balance;
    var t := Step(s, op);
    GlSnoc(s.journal, Pair(FixedAssets, op.from, op.cost), f);
    SumSame(t.assets, s.assets, |s.assets|, f);
    PairEffect(FixedAssets, op.from, op.cost, f);
  }

  lemma DepreciateDrift(s: State, op: Op, f: Field)
    requires op.Depreciate? && ReplyTo(s, op).Booked?
    ensures Drift(Step(s, op), f) == Drift(s, f)
    ensures Balanced(Pair(DepExpense, AccumDepreciation, ChargeTo(s.assets, |s.assets|, op.period, op.periodEnd)))
  {
    hide Monthly, DepreciateOne, Net, Balance;
    var total := ChargeTo(s.assets, |s.assets|, op.period, op.periodEnd);
    ChargeNonNegative(s.assets, |s.assets|, op.period, op.periodEnd);
    GlSnoc(s.journal, Pair(DepExpense, AccumDepreciation, total), f);
    SumDepreciated(s.assets, op.period, op.periodEnd, |s.assets|, f);
    PairEffect(DepExpense, AccumDepreciation, total, f);
  }

  lemma ImpairDrift(s: State, op: Op, f: Field)
    requires (op.Impair? || op.ReverseImpair?) && ReplyTo(s, op).Booked?
    ensures var t := Step(s, op); Drift(t, f) == Drift(s, f) && Balanced(t.journal[|s.journal|])
  {
    hide Net, Drift;
    var t, i := Step(s, op), Find(s.assets, op.ref).value;
    var lines := t.journal[|s.journal|];
    var events := if op.Impair? then {Impaired(op.ref, op.date)} else {ImpairmentReversed(op.ref, op.date)};
    PairEffect(ImpairmentLoss, AccumDepreciation, t.assets[i].accumulated - s.assets[i].accumulated, f);
    PairEffect(AccumDepreciation, ImpairmentLoss, s.assets[i].accumulated - t.assets[i].accumulated, f);
    ChangeDrift(s, i, t.assets[i], lines, events, f);
    assert t == Change(s, i, t.assets[i], lines, events);
  }

  lemma RevalueDrift(s: State, op: Op, f: Field)
    requires op.Revalue? && ReplyTo(s, op).Booked?
    ensures var t := Step(s, op); Drift(t, f) == Drift(s, f) && Balanced(t.journal[|s.journal|])
  {
    hide RevaluationLines, Net, EntryOf, SurplusPosted, Drift;
    var i := Find(s.assets, op.ref).value;
    var a := s.assets[i];
    var delta := op.newCarrying - (a.cost - a.accumulated);
    var b := a.(cost := a.cost + delta, surplus := a.surplus + [delta]);
    RevaluationEffect(a, delta, f);
    ChangeDrift(s, i, b, RevaluationLines(a, delta), {Revalued(op.ref, op.date)}, f);
  }

  lemma DisposeDrift(s: State, op: Op, f: Field)
    requires op.Dispose? && ReplyTo(s, op).Booked? && Valid(s)
    ensures Drift(Step(s, op), f) == Drift(s, f)
  {
    hide DisposalLines, Net, EntryOf, SurplusPosted, Drift;
    var i := Find(s.assets, op.ref).value;
    var a := s.assets[i];
    DisposalEffect(a, op.proceeds, f);
    ChangeDrift(s, i, a.(status := Disposed), DisposalLines(a, op.proceeds),
                if op.event.Some? then {DisposalOf(op.event.value)} else {}, f);
  }

  lemma ChargeFits(a: Asset, period: int, periodEnd: int)
    requires AssetValid(a)
    ensures 0 <= Charge(a, period, periodEnd)
    ensures Charge(a, period, periodEnd) > 0 ==> a.accumulated + Charge(a, period, periodEnd) <= Depreciable(a)
    ensures AssetValid(DepreciateOne(a, period, periodEnd))
  {
    hide Monthly;
  }

  lemma StepKeepsAssets(s: State, op: Op)
    requires Valid(s) && Sane(op)
    ensures forall k :: 0 <= k < |Step(s, op).assets| ==> AssetValid(Step(s, op).assets[k])
  {
    hide Monthly, RevaluationLines, DisposalLines, Charge, DepreciateOne;
    var t := Step(s, op);
    if op.Depreciate? && ReplyTo(s, op).Booked? {
      forall k | 0 <= k < |t.assets|
        ensures AssetValid(t.assets[k])
      {
        ChargeFits(s.assets[k], op.period, op.periodEnd);
      }
    }
  }

  lemma StepDrift(s: State, op: Op, f: Field)
    requires Valid(s) && Sane(op)
    ensures Drift(Step(s, op), f) == Drift(s, f) + Sign(f) * CapitalisedFrom(s, op, AccountOf(f))
    ensures forall e :: 0 <= e < |Step(s, op).journal| ==> Balanced(Step(s, op).journal[e])
  {
    hide Drift, Balanced, RevaluationLines, DisposalLines, Monthly;
    if ReplyTo(s, op).Booked? {
      match op
      case Capitalise(_, _, _, _, _, _, _) => CapitaliseDrift(s, op, f);
      case Depreciate(_, _) => DepreciateDrift(s, op, f);
      case Impair(_, _, _) => ImpairDrift(s, op, f);
      case ReverseImpair(_, _, _) => ImpairDrift(s, op, f);
      case Revalue(_, _, _) => RevalueDrift(s, op, f);
      case Dispose(_, _, _) => DisposeDrift(s, op, f);
    }
  }

  /** The cost of the assets a run has capitalised from an account. */
  function Misfunded(ops: seq<Op>, a: Account): int {
    if ops == [] then 0
    else Misfunded(ops[..|ops| - 1], a) + CapitalisedFrom(Run(ops[..|ops| - 1]), ops[|ops| - 1], a)
  }

  lemma NothingDrifts(f: Field)
    ensures Drift(EMPTY, f) == 0
  {
  }

  /** After every run each account is off its column by exactly the cost of what was
      capitalised from that account itself. */
  lemma {:induction false} DriftIsMisfunded(ops: seq<Op>, f: Field)
    requires forall k :: 0 <= k < |ops| ==> Sane(ops[k])
    ensures Valid(Run(ops)) && Drift(Run(ops), f) == Sign(f) * Misfunded(ops, AccountOf(f))
  {
    hide Drift, Step;
    if ops == [] {
      NothingDrifts(f);
    } else {
      var init, op := ops[..|ops| - 1], ops[|ops| - 1];
      assert forall k :: 0 <= k < |init| ==> init[k] == ops[k];
      DriftIsMisfunded(init, f);
      StepKeepsAssets(Run(init), op);
      StepDrift(Run(init), op, f);
    }
  }

  /** No booked capitalisation takes its cost from the account. */
  ghost predicate NoneFrom(ops: seq<Op>, a: Account) {
    forall k :: 0 <= k < |ops| ==> CapitalisedFrom(Run(ops[..k]), ops[k], a) == 0
  }

  lemma CapitalisedSign(s: State, op: Op, a: Account)
    requires Sane(op)
    ensures CapitalisedFrom(s, op, a) >= 0
  {
    hide ReplyTo;
  }

  lemma NoneFromSplit(ops: seq<Op>, a: Account)
    requires ops != []
    ensures var m := |ops| - 1;
            NoneFrom(ops, a) <==> NoneFrom(ops[..m], a) && CapitalisedFrom(Run(ops[..m]), ops[m], a) == 0
  {
    hide CapitalisedFrom, Run;
    var m := |ops| - 1;
    var init := ops[..m];
    assert forall k :: 0 <= k < m ==> init[k] == ops[k] && init[..k] == ops[..k];
    if NoneFrom(ops, a) {
      forall k | 0 <= k < m
        ensures CapitalisedFrom(Run(init[..k]), init[k], a) == 0
      {
        assert CapitalisedFrom(Run(ops[..k]), ops[k], a) == 0;
      }
      assert CapitalisedFrom(Run(ops[..m]), ops[m], a) == 0;
    }
    if NoneFrom(init, a) && CapitalisedFrom(Run(ops[..m]), ops[m], a) == 0 {
      forall k | 0 <= k < |ops|
        ensures CapitalisedFrom(Run(ops[..k]), ops[k], a) == 0
      {
        assert k < m ==> CapitalisedFrom(Run(init[..k]), init[k], a) == 0;
      }
    }
  }

  lemma {:induction false} MisfundedZeroIff(ops: seq<Op>, a: Account)
    requires forall k :: 0 <= k < |ops| ==> Sane(ops[k])
    ensures Misfunded(ops, a) >= 0 && (Misfunded(ops, a) == 0 <==> NoneFrom(ops, a))
  {
    hide Run, CapitalisedFrom, Sane;
    if ops != [] {
      var m := |ops| - 1;
      var init := ops[..m];
      assert forall k :: 0 <= k < m ==> init[k] == ops[k];
      MisfundedZeroIff(init, a);
      CapitalisedSign(Run(init), ops[m], a);
      NoneFromSplit(ops, a);
    }
  }

  // ----- main results

  /** Under every sequence of operations, 1500 is the cost of the active assets, 1510
      their accumulated depreciation and 3100 their surplus, each exactly if no asset
      was capitalised from that very account. */
  lemma TiesOutIff(ops: seq<Op>, f: Field)
    requires forall k :: 0 <= k < |ops| ==> Sane(ops[k])
    ensures GlOf(Run(ops).journal, f) == SumTo(Run(ops).assets, |Run(ops).assets|, f) <==> NoneFrom(ops, AccountOf(f))
  {
    hide NoneFrom, Misfunded, GlOf, Run;
    DriftIsMisfunded(ops, f);
    MisfundedZeroIff(ops, AccountOf(f));
  }

  /** For the two asset accounts, spelled out; and no active asset is ever over- or
      negatively depreciated. */
  lemma RegisterTiesOut(ops: seq<Op>)
    requires forall k :: 0 <= k < |ops| ==> Sane(ops[k])
    ensures var s := Run(ops);
            && (Balance(s.journal, FixedAssets) == SumTo(s.assets, |s.assets|, CostF) <==> NoneFrom(ops, FixedAssets))
            && (CreditBalance(s.journal, AccumDepreciation) == SumTo(s.assets, |s.assets|, AccumulatedF)
                <==> NoneFrom(ops, AccumDepreciation))
            && forall k :: 0 <= k < |s.assets| && s.assets[k].status.Active? ==>
                 0 <= s.assets[k].accumulated <= s.assets[k].cost
  {
    hide NoneFrom, Run;
    TiesOutIff(ops, CostF);
    TiesOutIff(ops, AccumulatedF);
    DriftIsMisfunded(ops, CostF);
  }

  /** The repository itself does not check the sign: an impairment it books keeps
      accumulated depreciation within cost exactly when the recoverable amount is
      not negative, and a revaluation exactly when the new carrying amount is not. */
  lemma SignsMatter(s: State, op: Op)
    requires Valid(s) && (op.Impair? || op.Revalue?) && ReplyTo(s, op).Booked?
    ensures var a := Step(s, op).assets[Find(s.assets, op.ref).value];
            0 <= a.accumulated <= a.cost <==> (if op.Impair? then op.recoverable >= 0 else op.newCarrying >= 0)
  {
    hide RevaluationLines;
    assert AssetValid(s.assets[Find(s.assets, op.ref).value]);
  }

  /** Right after an impairment the net book value is the recoverable amount, and
      right after a revaluation the new carrying amount. */
  lemma CarryingAmountReached(s: State, op: Op)
    requires (op.Impair? || op.Revalue?) && ReplyTo(s, op).Booked?
    ensures var a := Step(s, op).assets[Find(s.assets, op.ref).value];
            a.cost - a.accumulated == if op.Impair? then op.recoverable else op.newCarrying
  {
    hide RevaluationLines;
  }

  /** Reversing an impairment is capped by accumulated depreciation, not by earlier
      impairments: on an active asset that was only ever depreciated it takes the
      depreciation back, down to zero. */
  lemma ReversalTakesDepreciation(s: State, ref: string, period: int, periodEnd: int, date: int)
    requires Valid(s) && Find(s.assets, ref).Some? && ImpairmentReversed(ref, date) !in s.processed
    requires var a := s.assets[Find(s.assets, ref).value];
             a.status.Active? && a.accumulated == 0 && Charge(a, period, periodEnd) > 0
    ensures var i := Find(s.assets, ref).value;
            var t := Step(s, Depreciate(period, periodEnd));
            var u := Step(t, ReverseImpair(ref, t.assets[i].accumulated, date));
            && t.assets[i].accumulated == Charge(s.assets[i], period, periodEnd)
            && ReplyTo(t, ReverseImpair(ref, t.assets[i].accumulated, date)).Booked?
            && u.assets[i].accumulated == 0 && |u.journal| == |s.journal| + 2
  {
    hide Monthly, Charge;
    var i := Find(s.assets, ref).value;
    var t := Step(s, Depreciate(period, periodEnd));
    FindSame(s.assets, t.assets, ref);
    ChargeListed(s.assets, i, |s.assets|, period, periodEnd);
  }

  lemma {:induction false} FindSame(xs: seq<Asset>, ys: seq<Asset>, ref: string)
    requires |xs| == |ys| && forall k :: 0 <= k < |xs| ==> xs[k].ref == ys[k].ref
    ensures Find(xs, ref) == Find(ys, ref)
  {
    if xs != [] {
      FindSame(xs[..|xs| - 1], ys[..|ys| - 1], ref);
    }
  }

  lemma {:induction false} ChargeListed(assets: seq<Asset>, i: nat, n: nat, period: int, periodEnd: int)
    requires i < n <= |assets| && LivesPositive(assets)
    ensures Charge(assets[i], period, periodEnd) <= ChargeTo(assets, n, period, periodEnd)
  {
    hide Charge;
    ChargeNonNegative(assets, n - 1, period, periodEnd);
    ChargeNonNegative(assets, n, period, periodEnd);
    if i < n - 1 {
      ChargeListed(assets, i, n - 1, period, periodEnd);
    }
    ChargeFloor(assets[n - 1], period, periodEnd);
  }

  lemma ChargeFloor(a: Asset, period: int, periodEnd: int)
    requires a.life > 0
    ensures Charge(a, period, periodEnd) >= 0
  {
    hide Monthly;
  }

  // ----- revaluation surplus

  /** Upward movements made while earlier decreases were still unrecovered: what
      the standard would return to profit and this booking credits to surplus. */
  function Stranded(deltas: seq<int>): int {
    if deltas == [] then 0 else
      var init, d := deltas[..|deltas| - 1], deltas[|deltas| - 1];
      Stranded(init) + Min(Max(0, d), Max(0, -SumOf(init)))
  }

  /** The surplus an asset's history leaves on 3100 is its net movement, floored at
      zero, plus exactly that; so it never falls below the floor. */
  lemma {:induction false} SurplusNeverNegative(deltas: seq<int>)
    ensures SurplusPosted(deltas) == Max(0, SumOf(deltas)) + Stranded(deltas)
    ensures Stranded(deltas) >= 0
  {
    if deltas != [] {
      SurplusNeverNegative(deltas[..|deltas| - 1]);
    }
  }

  /** The revaluation surplus account is the sum of the assets' surpluses, exactly if
      no asset was capitalised from it. */
  lemma SurplusTiesOut(ops: seq<Op>)
    requires forall k :: 0 <= k < |ops| ==> Sane(ops[k])
    ensures var s := Run(ops);
            CreditBalance(s.journal, RevalSurplus) == SumTo(s.assets, |s.assets|, SurplusF) <==> NoneFrom(ops, RevalSurplus)
  {
    hide NoneFrom, Run;
    TiesOutIff(ops, SurplusF);
  }

  // ----- short runs

  lemma RunSnoc(ops: seq<Op>, op: Op)
    ensures Run(ops + [op]) == Step(Run(ops), op)
  {
    assert (ops + [op])[..|ops|] == ops;
  }

  lemma FindOnly(a: Asset)
    ensures Find([a], a.ref) == Some(0)
  {
    assert [a][0] == a;
  }

  lemma OneAsset(op: Op)
    requires op.Capitalise? && op.cost > 0 && op.life > 0
    ensures Run([op]) == State([Asset(op.ref, op.cost, op.salvage, op.inService, op.life, op.basis, 0, Active, {}, [], [])],
                               {}, [Pair(FixedAssets, op.from, op.cost)])
  {
    assert [op][..0] == [];
    assert Run([]) == EMPTY;
    assert Find([], op.ref).None?;
  }

  /** From an empty register: an asset capitalised out of 1510 leaves it off by the
      whole cost. */
  lemma CapitalisedOutOfDepreciation(op: Op)
    requires op.Capitalise? && op.cost > 0 && op.life > 0 && op.from == AccumDepreciation
    ensures var s := Run([op]);
            CreditBalance(s.journal, AccumDepreciation) == op.cost && SumTo(s.assets, |s.assets|, AccumulatedF) == 0
  {
    hide Run, Net;
    OneAsset(op);
    PairNet(FixedAssets, AccumDepreciation, op.cost, AccumDepreciation);
    BalanceSnoc([], Pair(FixedAssets, AccumDepreciation, op.cost), AccumDepreciation);
    assert [] + [Pair(FixedAssets, AccumDepreciation, op.cost)] == [Pair(FixedAssets, AccumDepreciation, op.cost)];
  }

  // ----- straight-line runs

  datatype PeriodRun = PeriodRun(period: int, periodEnd: int)

  function DepreciateOver(a: Asset, runs: seq<PeriodRun>): (b: Asset)
    requires a.life > 0
    ensures b.life > 0
  {
    if runs == [] then a
    else DepreciateOne(DepreciateOver(a, runs[..|runs| - 1]), runs[|runs| - 1].period, runs[|runs| - 1].periodEnd)
  }

  function Periods(runs: seq<PeriodRun>): set<int> {
    set k | 0 <= k < |runs| :: runs[k].period
  }

  lemma PeriodsSnoc(runs: seq<PeriodRun>)
    requires runs != []
    ensures Periods(runs) == Periods(runs[..|runs| - 1]) + {runs[|runs| - 1].period}
  {
    var init := runs[..|runs| - 1];
    forall p | p in Periods(runs)
      ensures p in Periods(init) + {runs[|runs| - 1].period}
    {
      var k :| 0 <= k < |runs| && runs[k].period == p;
      assert k < |init| ==> init[k].period == p;
    }
    forall p | p in Periods(init)
      ensures p in Periods(runs)
    {
      var k :| 0 <= k < |init| && init[k].period == p;
      assert runs[k].period == p;
    }
  }

  /** After m runs of monthly each, all but the last of which is full. */
  ghost predicate Progress(a: Asset, b: Asset, seen: set<int>)
    requires a.life > 0
  {
    && b == a.(accumulated := b.accumulated, depreciated := b.depreciated)
    && b.accumulated == Min(|seen| * Monthly(a), Depreciable(a))
    && b.depreciated <= seen
    && (Monthly(a) > 0 && b.accumulated < Depreciable(a) ==> b.depreciated == seen)
  }

  lemma OneMoreMonth(n: nat, monthly: int, total: int)
    requires monthly >= 0 && total >= 0
    ensures Min((n + 1) * monthly, total)
            == Min(n * monthly, total) + Min(monthly, total - Min(n * monthly, total))
    ensures n * monthly >= 0 && (n + 1) * monthly == n * monthly + monthly
  {
  }

  lemma ProgressStep(a: Asset, b: Asset, seen: set<int>, period: int, periodEnd: int)
    requires a.life > 0 && a.basis.StraightLine? && a.status.Active? && Depreciable(a) >= 0 && a.inService <= periodEnd
    requires Progress(a, b, seen) && Monthly(a) >= 0
    ensures Progress(a, DepreciateOne(b, period, periodEnd), seen + {period})
  {
    assert Monthly(b) == Monthly(a);
    hide Monthly;
    OneMoreMonth(|seen|, Monthly(a), Depreciable(a));
    if period in seen {
      assert seen + {period} == seen;
    } else {
      assert |seen + {period}| == |seen| + 1;
    }
  }

  /** Straight-line runs over m distinct periods, in any order and repeated at
      will, leave m monthly charges, capped at cost less salvage. */
  lemma {:induction false} StraightLineClosedForm(a: Asset, runs: seq<PeriodRun>)
    requires AssetValid(a) && a.basis.StraightLine? && a.status.Active? && Depreciable(a) >= 0
    requires a.accumulated == 0 && a.depreciated == {}
    requires forall k :: 0 <= k < |runs| ==> a.inService <= runs[k].periodEnd
    ensures DepreciateOver(a, runs).accumulated
            == Min(|Periods(runs)| * RoundDiv(Depreciable(a), a.life), Depreciable(a))
    ensures Progress(a, DepreciateOver(a, runs), Periods(runs))
  {
    RoundDivSign(Depreciable(a), a.life);
    if runs == [] {
      assert Periods(runs) == {};
    } else {
      var init := runs[..|runs| - 1];
      assert forall k :: 0 <= k < |init| ==> init[k] == runs[k];
      StraightLineClosedForm(a, init);
      PeriodsSnoc(runs);
      ProgressStep(a, DepreciateOver(a, init), Periods(init), runs[|runs| - 1].period, runs[|runs| - 1].periodEnd);
    }
  }

  // ----- the transactions, as they run

  class FixedAssetRegister {
    var assets: seq<Asset>
    var processed: set<Event>
    var journal: seq<Entry>

    function Contents(): State
      reads this
    {
      State(assets, processed, journal)
    }

    constructor ()
      ensures Contents() == EMPTY
    {
      assets, processed, journal := [], {}, [];
    }

    method LockAsset(ref: string) returns (r: Option<nat>)
      ensures r == Find(assets, ref)
    {
      var k := |assets|;
      assert assets[..k] == assets;
      while k > 0
        invariant 0 <= k <= |assets|
        invariant Find(assets, ref) == Find(assets[..k], ref)
      {
        assert assets[..k][..k - 1] == assets[..k - 1];
        k := k - 1;
        if assets[k].ref == ref {
          return Some(k);
        }
      }
      return None;
    }

    method CreateFixedAsset(ref: string, cost: int, salvage: int, inService: int, life: int, basis: Basis, from: Account)
      returns (reply: Reply)
      modifies this
      ensures reply == ReplyTo(old(Contents()), Capitalise(ref, cost, salvage, inService, life, basis, from))
      ensures Contents() == Step(old(Contents()), Capitalise(ref, cost, salvage, inService, life, basis, from))
    {
      var clash := LockAsset(ref);
      if clash.Some? {
        return Duplicate;
      }
      if life <= 0 {
        return CheckViolation;
      }
      assets := assets + [Asset(ref, cost, salvage, inService, life, basis, 0, Active, {}, [], [])];
      if cost > 0 {
        journal := journal + [Pair(FixedAssets, from, cost)];
      }
      return Booked;
    }

    /** One pass over the assets accumulates the charge, one entry books it. */
    method RunDepreciation(period: int, periodEnd: int)
      requires LivesPositive(assets)
      modifies this
      ensures Contents() == Step(old(Contents()), Depreciate(period, periodEnd))
    {
      hide Monthly;
      var total := 0;
      ghost var before := assets;
      for k := 0 to |assets|
        invariant |assets| == |before| && processed == old(processed) && journal == old(journal)
        invariant total == ChargeTo(before, k, period, periodEnd)
        invariant forall j :: 0 <= j < |assets| ==>
                    assets[j] == if j < k then DepreciateOne(before[j], period, periodEnd) else before[j]
      {
        var a := assets[k];
        if a.status.Active? && a.inService <= periodEnd && period !in a.depreciated {
          var depreciable := a.cost - a.salvage;
          var remaining := depreciable - a.accumulated;
          if remaining > 0 {
            var amount := Monthly(a);
            if amount > remaining {
              amount := remaining;
            }
            if amount > 0 {
              assets := assets[k := a.(accumulated := a.accumulated + amount, depreciated := a.depreciated + {period})];
              total := total + amount;
            }
          }
        }
      }
      assert assets == DepreciateAll(before, period, periodEnd);
      if total > 0 {
        journal := journal + [Pair(DepExpense, AccumDepreciation, total)];
      }
    }

    method BookImpairment(ref: string, recoverable: int, date: int) returns (reply: Reply)
      modifies this
      ensures reply == ReplyTo(old(Contents()), Impair(ref, recoverable, date))
      ensures Contents() == Step(old(Contents()), Impair(ref, recoverable, date))
    {
      var event := Impaired(ref, date);
      if event in processed {
        return Replayed;
      }
      var found := LockAsset(ref);
      if found.None? {
        return AssetNotFound;
      }
      var a := assets[found.value];
      if a.status.Disposed? {
        return AssetInactive;
      }
      var loss := (a.cost - a.accumulated) - recoverable;
      if loss <= 0 {
        return NoImpairment;
      }
      journal := journal + [Pair(ImpairmentLoss, AccumDepreciation, loss)];
      processed := processed + {event};
      assets := assets[found.value := a.(accumulated := a.accumulated + loss, impairments := a.impairments + [loss])];
      return Booked;
    }

    method ReverseImpairment(ref: string, amount: int, date: int) returns (reply: Reply)
      modifies this
      ensures reply == ReplyTo(old(Contents()), ReverseImpair(ref, amount, date))
      ensures Contents() == Step(old(Contents()), ReverseImpair(ref, amount, date))
    {
      var event := ImpairmentReversed(ref, date);
      if event in processed {
        return Replayed;
      }
      var found := LockAsset(ref);
      if found.None? {
        return AssetNotFound;
      }
      var a := assets[found.value];
      if a.status.Disposed? {
        return AssetInactive;
      }
      var capped := amount;
      if capped > a.accumulated {
        capped := a.accumulated;
      }
      if capped <= 0 {
        return NoImpairment;
      }
      journal := journal + [Pair(AccumDepreciation, ImpairmentLoss, capped)];
      processed := processed + {event};
      assets := assets[found.value := a.(accumulated := a.accumulated - capped, impairments := a.impairments + [-capped])];
      return Booked;
    }

    method BookRevaluation(ref: string, newCarrying: int, date: int) returns (reply: Reply)
      modifies this
      ensures reply == ReplyTo(old(Contents()), Revalue(ref, newCarrying, date))
      ensures Contents() == Step(old(Contents()), Revalue(ref, newCarrying, date))
    {
      var event := Revalued(ref, date);
      if event in processed {
        return Replayed;
      }
      var found := LockAsset(ref);
      if found.None? {
        return AssetNotFound;
      }
      var a := assets[found.value];
      if a.status.Disposed? {
        return AssetInactive;
      }
      var delta := newCarrying - (a.cost - a.accumulated);
      if delta == 0 {
        return NoImpairment;
      }
      var lines: Entry := [];
      if delta > 0 {
        lines := Pair(FixedAssets, RevalSurplus, delta);
      } else {
        var down := -delta;
        var surplus := SumOf(a.surplus);
        if surplus < 0 {
          surplus := 0;
        }
        var fromSurplus := down;
        if surplus < fromSurplus {
          fromSurplus := surplus;
        }
        if fromSurplus > 0 {
          lines := lines + [Dr(RevalSurplus, fromSurplus)];
        }
        if down - fromSurplus > 0 {
          lines := lines + [Dr(ImpairmentLoss, down - fromSurplus)];
        }
        lines := lines + [Cr(FixedAssets, down)];
      }
      assert lines == RevaluationLines(a, delta);
      journal := journal + [lines];
      processed := processed + {event};
      assets := assets[found.value := a.(cost := a.cost + delta, surplus := a.surplus + [delta])];
      return Booked;
    }

    method DisposalEntry(a: Asset, proceeds: int) returns (lines: Entry)
      ensures lines == DisposalLines(a, proceeds)
    {
      lines := [];
      if proceeds > 0 {
        lines := lines + [Dr(Cash, proceeds)];
      }
      if a.accumulated > 0 {
        lines := lines + [Dr(AccumDepreciation, a.accumulated)];
      }
      if a.cost > 0 {
        lines := lines + [Cr(FixedAssets, a.cost)];
      }
      var net := proceeds - (a.cost - a.accumulated);
      if net > 0 {
        lines := lines + [Cr(DisposalGain, net)];
      } else if net < 0 {
        lines := lines + [Dr(DisposalLoss, -net)];
      }
    }

    /** An entry that does not balance is refused by the trigger at commit. */
    method BookDisposal(ref: string, proceeds: int, event: Option<string>) returns (reply: Reply)
      modifies this
      ensures reply == ReplyTo(old(Contents()), Dispose(ref, proceeds, event))
      ensures Contents() == Step(old(Contents()), Dispose(ref, proceeds, event))
    {
      if event.Some? && DisposalOf(event.value) in processed {
        return Replayed;
      }
      var found := LockAsset(ref);
      if found.None? {
        return AssetNotFound;
      }
      var a := assets[found.value];
      if a.status.Disposed? {
        return AssetInactive;
      }
      hide DisposalLines;
      var lines := DisposalEntry(a, proceeds);
      if !Balanced(lines) {
        return Unbalanced;
      }
      journal := journal + [lines];
      if event.Some? {
        processed := processed + {DisposalOf(event.value)};
      }
      assets := assets[found.value := a.(status := Disposed)];
      return Booked;
    }
  }
}
