/** The split of revaluations that paragraphs 39 and 40 of IAS 16 ask for, beside the
    one the register books. */
module RevaluationStandard {
  import opened Ledger
  import opened Money
  import opened AssetRegister

  /** The surplus an asset holds in equity, and the decreases of it charged to profit
      and not yet recovered. */
  datatype Split = Split(surplus: int, charged: int)

  /** An increase first gives back to profit what was charged there, the rest is
      surplus; a decrease first uses up the surplus, the rest is charged to profit. */
  function Move(s: Split, d: int): Split {
    if d > 0 then
      var back := Min(d, s.charged);
      Split(s.surplus + d - back, s.charged - back)
    else
      var released := Min(-d, s.surplus);
      Split(s.surplus - released, s.charged - d - released)
  }

  function Standard(deltas: seq<int>): Split {
    if deltas == [] then Split(0, 0) else Move(Standard(deltas[..|deltas| - 1]), deltas[|deltas| - 1])
  }

  /** Under the standard an asset is in surplus or in loss, never both. */
  lemma {:induction false} StandardIsNet(deltas: seq<int>)
    ensures Standard(deltas) == Split(Max(0, SumOf(deltas)), Max(0, -SumOf(deltas)))
  {
    if deltas != [] {
      StandardIsNet(deltas[..|deltas| - 1]);
    }
  }

  /** The register's surplus is the standard's and what it has stranded there. */
  lemma PostedAgainstStandard(deltas: seq<int>)
    ensures SurplusPosted(deltas) == Standard(deltas).surplus + Stranded(deltas)
  {
    StandardIsNet(deltas);
    SurplusNeverNegative(deltas);
  }

  /** Every increase came when the asset's movements so far were not negative: the sum
      the booking itself reads. */
  predicate NeverRecovers(deltas: seq<int>) {
    forall k :: 0 <= k < |deltas| && deltas[k] > 0 ==> SumOf(deltas[..k]) >= 0
  }

  lemma RecoversSplit(deltas: seq<int>)
    requires deltas != []
    ensures var m := |deltas| - 1;
            NeverRecovers(deltas) <==> NeverRecovers(deltas[..m]) && (deltas[m] > 0 ==> SumOf(deltas[..m]) >= 0)
  {
    hide SumOf;
    var m := |deltas| - 1;
    var init := deltas[..m];
    assert forall k :: 0 <= k < m ==> init[k] == deltas[k] && init[..k] == deltas[..k];
    if NeverRecovers(init) && (deltas[m] > 0 ==> SumOf(deltas[..m]) >= 0) {
      forall k | 0 <= k < |deltas| && deltas[k] > 0
        ensures SumOf(deltas[..k]) >= 0
      {
        assert k < m ==> init[k] > 0 && SumOf(init[..k]) >= 0;
      }
    }
    if NeverRecovers(deltas) {
      forall k | 0 <= k < m && init[k] > 0
        ensures SumOf(init[..k]) >= 0
      {
        assert deltas[k] > 0;
      }
    }
  }

  lemma {:induction false} StrandedZeroIff(deltas: seq<int>)
    ensures Stranded(deltas) == 0 <==> NeverRecovers(deltas)
  {
    hide NeverRecovers;
    if deltas == [] {
      NothingRecovered();
    } else {
      StrandedZeroIff(deltas[..|deltas| - 1]);
      SurplusNeverNegative(deltas[..|deltas| - 1]);
      RecoversSplit(deltas);
    }
  }

  lemma NothingRecovered()
    ensures NeverRecovers([])
  {
  }

  /** The register's surplus of an asset is the standard's exactly when no increase of
      it recovered an earlier decrease. */
  lemma AgreesIff(deltas: seq<int>)
    ensures SurplusPosted(deltas) == Standard(deltas).surplus <==> NeverRecovers(deltas)
  {
    PostedAgainstStandard(deltas);
    StrandedZeroIff(deltas);
  }

  // ----- the account, over every run

  function StandardTo(assets: seq<Asset>, n: nat): int
    requires n <= |assets|
  {
    if n == 0 then 0 else StandardTo(assets, n - 1) + Standard(assets[n - 1].surplus).surplus
  }

  predicate NoneRecovers(assets: seq<Asset>, n: nat)
    requires n <= |assets|
  {
    forall k :: 0 <= k < n ==> NeverRecovers(assets[k].surplus)
  }

  lemma {:induction false} SurplusSums(assets: seq<Asset>, n: nat)
    requires n <= |assets|
    ensures SumTo(assets, n, SurplusF) >= StandardTo(assets, n)
    ensures SumTo(assets, n, SurplusF) == StandardTo(assets, n) <==> NoneRecovers(assets, n)
  {
    hide NeverRecovers, SurplusPosted, Standard, Stranded;
    if n > 0 {
      var deltas := assets[n - 1].surplus;
      SurplusSums(assets, n - 1);
      AgreesIff(deltas);
      PostedAgainstStandard(deltas);
      SurplusNeverNegative(deltas);
    }
  }

  /** After every run that capitalises nothing from 3100, the account never holds less
      than the standard's surplus, and holds exactly that when no asset has recovered an
      earlier decrease. */
  lemma AccountAgreesIff(ops: seq<Op>)
    requires forall k :: 0 <= k < |ops| ==> Sane(ops[k])
    requires NoneFrom(ops, RevalSurplus)
    ensures var s := Run(ops);
            && CreditBalance(s.journal, RevalSurplus) >= StandardTo(s.assets, |s.assets|)
            && (CreditBalance(s.journal, RevalSurplus) == StandardTo(s.assets, |s.assets|)
                <==> NoneRecovers(s.assets, |s.assets|))
  {
    hide Run, NoneFrom, NoneRecovers;
    SurplusTiesOut(ops);
    SurplusSums(Run(ops).assets, |Run(ops).assets|);
  }

  /** Written down by a hundred and up by sixty: sixty in surplus, where the standard
      has none. */
  lemma WrittenDownThenUp()
    ensures var capitalise := Capitalise("A", 1000, 0, 0, 12, StraightLine, Cogs);
            var s := Run([capitalise, Revalue("A", 900, 1), Revalue("A", 960, 2)]);
            && |s.assets| == 1 && s.assets[0].surplus == [-100, 60] && |s.journal| == 3
            && SurplusPosted([-100, 60]) == 60 && Standard([-100, 60]) == Split(0, 40)
  {
    hide Run, Find, RevaluationLines, SumOf, SurplusPosted, Standard;
    var capitalise := Capitalise("A", 1000, 0, 0, 12, StraightLine, Cogs);
    var down, up := Revalue("A", 900, 1), Revalue("A", 960, 2);
    OneAsset(capitalise);
    var a := Run([capitalise]).assets[0];
    var b := a.(cost := 900, surplus := [-100]);
    FindOnly(a);
    FindOnly(b);
    RunSnoc([capitalise], down);
    assert [capitalise] + [down] == [capitalise, down];
    RunSnoc([capitalise, down], up);
    assert [capitalise, down] + [up] == [capitalise, down, up];
    assert [] + [-100] == [-100] && [-100] + [60] == [-100, 60];
    SurplusSnoc([], -100);
    SurplusSnoc([-100], 60);
    NoMovements();
    StandardIsNet([-100, 60]);
  }

  lemma NoMovements()
    ensures SumOf([]) == 0 && SurplusPosted([]) == 0
  {
  }
}
