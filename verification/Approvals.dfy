/** Tiered sign-off of one approval.  Every signature and rejection runs under the
    approval's row lock; the caller whose signature completed the tiers then runs the
    approved action in a transaction of its own and marks the approval executed in
    another. */
module Approvals {
  import opened Ledger

  datatype Tier = Tier(tier: int, minAmount: int, perm: string)

  datatype Status = Pending | Approved | Rejected | Executed

  datatype Decision = Decision(tier: int, actor: string, approved: bool)

  /** finishing counts callers that must still run the action, marking those whose
      action has committed and whose mark has not; runs counts committed actions. */
  datatype State = State(amount: int, requestedBy: string, status: Status, decisions: seq<Decision>,
                         finishing: nat, marking: nat, runs: nat)

  datatype Op =
    | Sign(actor: string, perms: set<string>)
    | Reject(actor: string, perms: set<string>)
    | RunAction(succeeds: bool)
    | MarkExecuted(succeeds: bool)

  datatype Reply = Signed | Finalized | Done | Conflict | Forbidden | NothingToRun

  // ----- actors

  predicate IsSpace(c: char) {
    c == ' ' || c == '\t' || c == '\n' || c == '\r'
  }

  function TrimLeft(s: string): string {
    if s != "" && IsSpace(s[0]) then TrimLeft(s[1..]) else s
  }

  function TrimRight(s: string): string {
    if s != "" && IsSpace(s[|s| - 1]) then TrimRight(s[..|s| - 1]) else s
  }

  function Trim(s: string): string {
    TrimRight(TrimLeft(s))
  }

  function LowerChar(c: char): char {
    if 'A' <= c <= 'Z' then c - 'A' + 'a' else c
  }

  function Lower(s: string): string {
    seq(|s|, i requires 0 <= i < |s| => LowerChar(s[i]))
  }

  predicate Blank(actor: string) {
    Trim(actor) == ""
  }

  /** sameApprovalActor: a blank or unknown actor is nobody in particular. */
  predicate SameActor(a: string, b: string) {
    !Blank(a) && !Blank(b) && Lower(Trim(a)) != "unknown" && Lower(Trim(a)) == Lower(Trim(b))
  }

  // ----- tiers

  /** The bands the amount exceeds, in table order. */
  function Required(tiers: seq<Tier>, amount: int): seq<Tier> {
    if tiers == [] then []
    else Required(tiers[..|tiers| - 1], amount)
         + if amount > tiers[|tiers| - 1].minAmount then [tiers[|tiers| - 1]] else []
  }

  predicate Ascending(tiers: seq<Tier>) {
    forall i, j :: 0 <= i < j < |tiers| ==> tiers[i].tier < tiers[j].tier
  }

  function SignedTiers(ds: seq<Decision>): seq<int> {
    if ds == [] then []
    else SignedTiers(ds[..|ds| - 1]) + if ds[|ds| - 1].approved then [ds[|ds| - 1].tier] else []
  }

  function Signers(ds: seq<Decision>): (r: seq<string>)
    ensures |r| == |SignedTiers(ds)|
  {
    if ds == [] then []
    else Signers(ds[..|ds| - 1]) + if ds[|ds| - 1].approved then [ds[|ds| - 1].actor] else []
  }

  /** The first required tier not yet signed; |required| when there is none. */
  function NextTier(required: seq<Tier>, signed: seq<int>, from: nat): (n: nat)
    requires from <= |required|
    ensures from <= n <= |required|
    ensures n < |required| ==> required[n].tier !in signed
    ensures forall k :: from <= k < n ==> required[k].tier in signed
    decreases |required| - from
  {
    if from == |required| || required[from].tier !in signed then from else NextTier(required, signed, from + 1)
  }

  predicate AllSigned(required: seq<Tier>, signed: seq<int>) {
    forall k :: 0 <= k < |required| ==> required[k].tier in signed
  }

  /** actorApprovedTx: compared case-insensitively, blanks never match. */
  predicate AlreadySigned(ds: seq<Decision>, actor: string) {
    !Blank(actor) && exists k :: 0 <= k < |ds| && ds[k].approved && Lower(ds[k].actor) == Lower(actor)
  }

  // ----- one step

  function ReplyTo(tiers: seq<Tier>, s: State, op: Op): Reply {
    var required, signed := Required(tiers, s.amount), SignedTiers(s.decisions);
    match op
    case Sign(actor, perms) =>
      var n := NextTier(required, signed, 0);
      if !s.status.Pending? then Conflict
      else if SameActor(actor, s.requestedBy) || AlreadySigned(s.decisions, actor) then Forbidden
      else if n == |required| then Finalized
      else if required[n].perm !in perms then Forbidden
      else if AllSigned(required, signed + [required[n].tier]) then Finalized else Signed
    case Reject(actor, perms) =>
      if !s.status.Pending? then Conflict
      else if SameActor(actor, s.requestedBy) || required == []
              || (exists k :: 0 <= k < |required| && required[k].perm in perms) then Done
      else Forbidden
    case RunAction(succeeds) => if s.finishing == 0 then NothingToRun else Done
    case MarkExecuted(succeeds) => if s.marking == 0 then NothingToRun else Done
  }

  /** Zero stands for no tier, also in the loop that looks for one. */
  function RejectTier(required: seq<Tier>, perms: set<string>): int {
    if required == [] then 0
    else if required[0].perm in perms && required[0].tier != 0 then required[0].tier
    else RejectTier(required[1..], perms)
  }

  function Step(tiers: seq<Tier>, s: State, op: Op): State {
    var required, signed := Required(tiers, s.amount), SignedTiers(s.decisions);
    var reply := ReplyTo(tiers, s, op);
    match op
    case Sign(actor, _) =>
      if !reply.Signed? && !reply.Finalized? then s else
      var n := NextTier(required, signed, 0);
      var t := if n < |required| then s.(decisions := s.decisions + [Decision(required[n].tier, actor, true)]) else s;
      if reply.Finalized? then t.(status := Approved, finishing := s.finishing + 1) else t
    case Reject(actor, perms) =>
      if !reply.Done? then s
      else s.(status := Rejected, decisions := s.decisions + [Decision(RejectTier(required, perms), actor, false)])
    case RunAction(succeeds) =>
      if !reply.Done? then s
      else if succeeds && !s.status.Executed?
      then s.(finishing := s.finishing - 1, marking := s.marking + 1, runs := s.runs + 1)
      else s.(finishing := s.finishing - 1)
    case MarkExecuted(succeeds) =>
      if !reply.Done? then s
      else if succeeds then s.(status := Executed, marking := s.marking - 1)
      else s.(marking := s.marking - 1)
  }

  function Run(tiers: seq<Tier>, amount: int, requestedBy: string, ops: seq<Op>): State {
    if ops == [] then State(amount, requestedBy, Pending, [], 0, 0, 0)
    else Step(tiers, Run(tiers, amount, requestedBy, ops[..|ops| - 1]), ops[|ops| - 1])
  }

  // ----- invariants

  function TierNumbers(required: seq<Tier>): seq<int> {
    seq(|required|, k requires 0 <= k < |required| => required[k].tier)
  }

  /** The signed tiers are the first ones required, in order. */
  ghost predicate PrefixSigned(required: seq<Tier>, signed: seq<int>) {
    |signed| <= |required| && forall k :: 0 <= k < |signed| ==> signed[k] == required[k].tier
  }

  ghost predicate NoneIs(signers: seq<string>, requestedBy: string) {
    forall k :: 0 <= k < |signers| ==> !SameActor(signers[k], requestedBy)
  }

  /** How far the status may be with so many of the required tiers signed.  The
      action runs at most once, and an executed approval has run it. */
  ghost predicate StatusValid(status: Status, finishing: nat, marking: nat, runs: nat, signed: nat, required: nat) {
    && (status.Approved? || status.Executed? ==> signed == required)
    && finishing + runs <= 1
    && (finishing + runs > 0 ==> status.Approved? || status.Executed?)
    && (status.Executed? ==> runs == 1 && marking == 0)
    && marking <= runs
    && (status.Pending? && required > 0 ==> signed < required)
  }

  ghost predicate Valid(tiers: seq<Tier>, s: State) {
    && PrefixSigned(Required(tiers, s.amount), SignedTiers(s.decisions))
    && NoneIs(Signers(s.decisions), s.requestedBy)
    && StatusValid(s.status, s.finishing, s.marking, s.runs, |SignedTiers(s.decisions)|, |Required(tiers, s.amount)|)
  }

  /** No two signers agree up to case. */
  ghost predicate DistinctSigners(signers: seq<string>) {
    forall i, j :: 0 <= i < j < |signers| ==> Lower(signers[i]) != Lower(signers[j])
  }

  lemma {:induction false} RequiredSubset(tiers: seq<Tier>, amount: int, t: Tier)
    ensures t in Required(tiers, amount) <==> t in tiers && amount > t.minAmount
  {
    if tiers != [] {
      RequiredSubset(tiers[..|tiers| - 1], amount, t);
      assert tiers == tiers[..|tiers| - 1] + [tiers[|tiers| - 1]];
    }
  }

  lemma {:induction false} RequiredAscending(tiers: seq<Tier>, amount: int)
    requires Ascending(tiers)
    ensures Ascending(Required(tiers, amount))
  {
    if tiers != [] {
      var init, last := tiers[..|tiers| - 1], tiers[|tiers| - 1];
      var r := Required(init, amount);
      RequiredAscending(init, amount);
      forall k | 0 <= k < |r|
        ensures r[k].tier < last.tier
      {
        RequiredSubset(init, amount, r[k]);
      }
    }
  }

  /** With a prefix signed, the next tier is the one right after it. */
  lemma NextIsAfterPrefix(required: seq<Tier>, signed: seq<int>)
    requires Ascending(required) && PrefixSigned(required, signed)
    ensures NextTier(required, signed, 0) == |signed|
    ensures AllSigned(required, signed) <==> |signed| == |required|
  {
    var m := |signed|;
    forall k | 0 <= k < m
      ensures required[k].tier in signed
    {
      assert signed[k] == required[k].tier;
    }
    forall k | 0 <= k < m && m < |required|
      ensures signed[k] != required[m].tier
    {
      assert required[k].tier < required[m].tier;
    }
  }

  lemma SignedSnoc(ds: seq<Decision>, d: Decision)
    ensures SignedTiers(ds + [d]) == SignedTiers(ds) + if d.approved then [d.tier] else []
    ensures Signers(ds + [d]) == Signers(ds) + if d.approved then [d.actor] else []
  {
    assert (ds + [d])[..|ds|] == ds;
  }

  lemma {:induction false} SignerDecided(ds: seq<Decision>, k: nat)
    requires k < |Signers(ds)|
    ensures exists m :: 0 <= m < |ds| && ds[m].approved && ds[m].actor == Signers(ds)[k]
  {
    var init := ds[..|ds| - 1];
    if k < |Signers(init)| {
      SignerDecided(init, k);
      var m :| 0 <= m < |init| && init[m].approved && init[m].actor == Signers(init)[k];
      assert ds[m].approved;
    }
  }

  lemma SignKeepsValid(tiers: seq<Tier>, s: State, op: Op)
    requires Ascending(tiers) && Valid(tiers, s) && op.Sign?
    ensures Valid(tiers, Step(tiers, s, op))
  {
    hide Required, NextTier, SameActor, AlreadySigned, SignedTiers, Signers, AllSigned;
    var required, signed := Required(tiers, s.amount), SignedTiers(s.decisions);
    var t := Step(tiers, s, op);
    RequiredAscending(tiers, s.amount);
    NextIsAfterPrefix(required, signed);
    if t.decisions == s.decisions {
      assert PrefixSigned(required, SignedTiers(t.decisions));
    } else {
      var d := Decision(required[|signed|].tier, op.actor, true);
      SignedSnoc(s.decisions, d);
      NextIsAfterPrefix(required, signed + [d.tier]);
      assert PrefixSigned(required, SignedTiers(t.decisions));
      assert NoneIs(Signers(t.decisions), s.requestedBy);
    }
  }

  lemma RejectKeepsValid(tiers: seq<Tier>, s: State, op: Op)
    requires Valid(tiers, s) && op.Reject?
    ensures Valid(tiers, Step(tiers, s, op))
  {
    hide Required, SameActor, SignedTiers, Signers, RejectTier;
    SignedSnoc(s.decisions, Decision(RejectTier(Required(tiers, s.amount), op.perms), op.actor, false));
  }

  lemma StepKeepsValid(tiers: seq<Tier>, s: State, op: Op)
    requires Ascending(tiers) && Valid(tiers, s)
    ensures Valid(tiers, Step(tiers, s, op))
  {
    hide Required, SameActor, SignedTiers, Signers, PrefixSigned, NoneIs;
    if op.Sign? {
      SignKeepsValid(tiers, s, op);
    } else if op.Reject? {
      RejectKeepsValid(tiers, s, op);
    }
  }

  lemma StepKeepsDistinct(tiers: seq<Tier>, s: State, op: Op)
    requires DistinctSigners(Signers(s.decisions)) && (op.Sign? ==> !Blank(op.actor))
    ensures DistinctSigners(Signers(Step(tiers, s, op).decisions))
  {
    var t := Step(tiers, s, op);
    if t.decisions != s.decisions {
      var d := t.decisions[|s.decisions|];
      assert t.decisions == s.decisions + [d];
      SignedSnoc(s.decisions, d);
      forall k | 0 <= k < |Signers(s.decisions)| && d.approved
        ensures Lower(Signers(s.decisions)[k]) != Lower(d.actor)
      {
        SignerDecided(s.decisions, k);
      }
    }
  }

  // ----- main results, over every run with a fixed tier table

  lemma {:induction false} AlwaysValid(tiers: seq<Tier>, amount: int, requestedBy: string, ops: seq<Op>)
    requires Ascending(tiers)
    ensures Valid(tiers, Run(tiers, amount, requestedBy, ops))
    ensures Run(tiers, amount, requestedBy, ops).amount == amount
    ensures Run(tiers, amount, requestedBy, ops).requestedBy == requestedBy
  {
    if ops != [] {
      AlwaysValid(tiers, amount, requestedBy, ops[..|ops| - 1]);
      StepKeepsValid(tiers, Run(tiers, amount, requestedBy, ops[..|ops| - 1]), ops[|ops| - 1]);
    }
  }

  /** Signatures are a prefix of the required tiers, none by the requester; the
      action runs at most once, and nothing is approved or executed unless every
      required tier has signed. */
  lemma ApprovalSafety(tiers: seq<Tier>, amount: int, requestedBy: string, ops: seq<Op>)
    requires Ascending(tiers)
    ensures var s := Run(tiers, amount, requestedBy, ops);
            var required, signed, signers := Required(tiers, amount), SignedTiers(s.decisions), Signers(s.decisions);
            && |signed| == |signers| <= |required|
            && (forall k :: 0 <= k < |signed| ==> signed[k] == required[k].tier && !SameActor(signers[k], requestedBy))
            && (s.status == Approved || s.status == Executed || s.runs > 0 || s.finishing > 0 ==> |signed| == |required|)
            && s.runs <= 1 && (s.status == Executed ==> s.runs == 1)
            && (s.runs == 1 ==> s.status == Approved || s.status == Executed)
            && (s.status == Pending ==> s.runs == 0)
  {
    hide Run, Required, SignedTiers, Signers, SameActor;
    AlwaysValid(tiers, amount, requestedBy, ops);
  }

  /** When no caller's name is blank, no one signs twice, whatever the case. */
  lemma {:induction false} NobodySignsTwice(tiers: seq<Tier>, amount: int, requestedBy: string, ops: seq<Op>)
    requires forall k :: 0 <= k < |ops| && ops[k].Sign? ==> !Blank(ops[k].actor)
    ensures DistinctSigners(Signers(Run(tiers, amount, requestedBy, ops).decisions))
  {
    if ops != [] {
      var init := ops[..|ops| - 1];
      assert forall k :: 0 <= k < |init| ==> init[k] == ops[k];
      NobodySignsTwice(tiers, amount, requestedBy, init);
      StepKeepsDistinct(tiers, Run(tiers, amount, requestedBy, init), ops[|ops| - 1]);
    }
  }

  predicate SignerIn(ops: seq<Op>, actor: string) {
    exists k :: 0 <= k < |ops| && ops[k].Sign? && ops[k].actor == actor
  }

  lemma SignersStep(tiers: seq<Tier>, s: State, op: Op)
    ensures var before, after := Signers(s.decisions), Signers(Step(tiers, s, op).decisions);
            after == before || (op.Sign? && after == before + [op.actor])
  {
    hide Required, NextTier, SameActor, AlreadySigned, AllSigned, RejectTier, SignedTiers, Signers;
    var t := Step(tiers, s, op);
    if t.decisions != s.decisions {
      SignedSnoc(s.decisions, t.decisions[|s.decisions|]);
    }
  }

  lemma {:induction false} SignersCalled(tiers: seq<Tier>, amount: int, requestedBy: string, ops: seq<Op>, k: nat)
    requires k < |Signers(Run(tiers, amount, requestedBy, ops).decisions)|
    ensures SignerIn(ops, Signers(Run(tiers, amount, requestedBy, ops).decisions)[k])
  {
    hide Step;
    if ops != [] {
      var init, op := ops[..|ops| - 1], ops[|ops| - 1];
      var before := Signers(Run(tiers, amount, requestedBy, init).decisions);
      SignersStep(tiers, Run(tiers, amount, requestedBy, init), op);
      if k < |before| {
        SignersCalled(tiers, amount, requestedBy, init, k);
        var m :| 0 <= m < |init| && init[m].Sign? && init[m].actor == before[k];
        assert ops[m] == init[m];
      } else {
        assert ops[|ops| - 1] == op;
      }
    }
  }

  /** When names also arrive without padding, no two signers are one person. */
  lemma OnePersonOneSignature(tiers: seq<Tier>, amount: int, requestedBy: string, ops: seq<Op>)
    requires forall k :: 0 <= k < |ops| && ops[k].Sign? ==> !Blank(ops[k].actor) && Trim(ops[k].actor) == ops[k].actor
    ensures var signers := Signers(Run(tiers, amount, requestedBy, ops).decisions);
            forall i, j :: 0 <= i < j < |signers| ==> !SameActor(signers[i], signers[j])
  {
    hide Trim, Lower, Required;
    var signers := Signers(Run(tiers, amount, requestedBy, ops).decisions);
    NobodySignsTwice(tiers, amount, requestedBy, ops);
    forall i | 0 <= i < |signers|
      ensures Trim(signers[i]) == signers[i]
    {
      SignersCalled(tiers, amount, requestedBy, ops, i);
    }
  }

  predicate TwiceIn(signers: seq<string>) {
    exists i, j :: 0 <= i < j < |signers| && SameActor(signers[i], signers[j])
  }

  /** A signature is taken from someone who signed before under a differing form of
      the name: the check for an earlier signature compares the names as they are, the
      check against the requester trims them. */
  predicate TakenAgain(tiers: seq<Tier>, s: State, op: Op) {
    && op.Sign? && |Signers(Step(tiers, s, op).decisions)| > |Signers(s.decisions)|
    && exists i :: 0 <= i < |Signers(s.decisions)|
                   && SameActor(Signers(s.decisions)[i], op.actor) && Lower(Signers(s.decisions)[i]) != Lower(op.actor)
  }

  lemma TwiceSnoc(signers: seq<string>, x: string)
    ensures TwiceIn(signers + [x]) <==> TwiceIn(signers) || exists i :: 0 <= i < |signers| && SameActor(signers[i], x)
  {
    hide SameActor;
    var more := signers + [x];
    assert more[|signers|] == x && forall k :: 0 <= k < |signers| ==> more[k] == signers[k];
    if i :| 0 <= i < |signers| && SameActor(signers[i], x) {
      assert SameActor(more[i], more[|signers|]);
    }
    if TwiceIn(signers) {
      var i, j :| 0 <= i < j < |signers| && SameActor(signers[i], signers[j]);
      assert SameActor(more[i], more[j]);
    }
  }

  lemma TakenDiffers(tiers: seq<Tier>, s: State, op: Op, i: nat)
    requires op.Sign? && Step(tiers, s, op).decisions != s.decisions
    requires i < |Signers(s.decisions)| && SameActor(Signers(s.decisions)[i], op.actor)
    ensures Lower(Signers(s.decisions)[i]) != Lower(op.actor)
  {
    hide Required, NextTier, AllSigned, SignedTiers, Trim, Lower;
    SignerDecided(s.decisions, i);
    assert !AlreadySigned(s.decisions, op.actor);
  }

  lemma TwiceStep(tiers: seq<Tier>, s: State, op: Op)
    ensures TwiceIn(Signers(Step(tiers, s, op).decisions)) <==> TwiceIn(Signers(s.decisions)) || TakenAgain(tiers, s, op)
  {
    hide SameActor, Lower, Step, TwiceIn;
    var before, after := Signers(s.decisions), Signers(Step(tiers, s, op).decisions);
    SignersStep(tiers, s, op);
    if after != before {
      TwiceSnoc(before, op.actor);
      forall i | 0 <= i < |before| && SameActor(before[i], op.actor)
        ensures Lower(before[i]) != Lower(op.actor)
      {
        TakenDiffers(tiers, s, op, i);
      }
    }
  }

  ghost predicate SomeTakenAgain(tiers: seq<Tier>, amount: int, requestedBy: string, ops: seq<Op>) {
    exists n :: 0 <= n < |ops| && TakenAgain(tiers, Run(tiers, amount, requestedBy, ops[..n]), ops[n])
  }

  lemma SomeTakenSplit(tiers: seq<Tier>, amount: int, requestedBy: string, ops: seq<Op>)
    requires ops != []
    ensures var m := |ops| - 1;
            SomeTakenAgain(tiers, amount, requestedBy, ops)
            <==> SomeTakenAgain(tiers, amount, requestedBy, ops[..m])
                 || TakenAgain(tiers, Run(tiers, amount, requestedBy, ops[..m]), ops[m])
  {
    hide TakenAgain, Run;
    var m := |ops| - 1;
    var init := ops[..m];
    assert forall n :: 0 <= n < m ==> init[..n] == ops[..n] && init[n] == ops[n];
    if SomeTakenAgain(tiers, amount, requestedBy, init) {
      var n :| 0 <= n < m && TakenAgain(tiers, Run(tiers, amount, requestedBy, init[..n]), init[n]);
      assert TakenAgain(tiers, Run(tiers, amount, requestedBy, ops[..n]), ops[n]);
    }
    if SomeTakenAgain(tiers, amount, requestedBy, ops) {
      var n :| 0 <= n < |ops| && TakenAgain(tiers, Run(tiers, amount, requestedBy, ops[..n]), ops[n]);
      assert n < m ==> TakenAgain(tiers, Run(tiers, amount, requestedBy, init[..n]), init[n]);
    }
  }

  /** Over every run, whatever the names: two signers are one person exactly when some
      signature was taken from an earlier signer under a differing form of the name. */
  lemma {:induction false} SignsTwiceIff(tiers: seq<Tier>, amount: int, requestedBy: string, ops: seq<Op>)
    ensures TwiceIn(Signers(Run(tiers, amount, requestedBy, ops).decisions))
            <==> SomeTakenAgain(tiers, amount, requestedBy, ops)
  {
    hide TwiceIn, TakenAgain, Step;
    if ops == [] {
      NoSigners();
    } else {
      hide SomeTakenAgain;
      var m := |ops| - 1;
      SignsTwiceIff(tiers, amount, requestedBy, ops[..m]);
      TwiceStep(tiers, Run(tiers, amount, requestedBy, ops[..m]), ops[m]);
      SomeTakenSplit(tiers, amount, requestedBy, ops);
    }
  }

  lemma NoSigners()
    ensures !TwiceIn([])
  {
  }

  /** For someone who signed before, in whatever form of the name and with whatever
      other signers, another signature otherwise in order is taken exactly when none
      of the earlier forms agrees with this one up to case. */
  lemma SecondSignatureTakenIff(tiers: seq<Tier>, s: State, actor: string, perms: set<string>)
    requires Valid(tiers, s) && s.status.Pending?
    requires exists k :: 0 <= k < |s.decisions| && s.decisions[k].approved && SameActor(s.decisions[k].actor, actor)
    requires forall k :: 0 <= k < |Required(tiers, s.amount)| ==> Required(tiers, s.amount)[k].perm in perms
    ensures ReplyTo(tiers, s, Sign(actor, perms)) != Forbidden
            <==> forall k :: 0 <= k < |s.decisions| && s.decisions[k].approved ==> Lower(s.decisions[k].actor) != Lower(actor)
  {
    hide Trim, Lower, Required, SignedTiers;
    var k :| 0 <= k < |s.decisions| && s.decisions[k].approved && SameActor(s.decisions[k].actor, actor);
    DeciderSigned(s.decisions, k);
    var i :| 0 <= i < |Signers(s.decisions)| && Signers(s.decisions)[i] == s.decisions[k].actor;
    assert !SameActor(Signers(s.decisions)[i], s.requestedBy);
    assert !SameActor(actor, s.requestedBy);
  }

  /** For instance a name and the same name with a blank after it. */
  lemma PaddedNameExample()
    ensures SameActor("ann", "ann ") && Lower("ann") != Lower("ann ")
  {
    assert TrimLeft("ann") == "ann" && TrimLeft("ann ") == "ann ";
    assert TrimRight("ann") == "ann";
    assert "ann "[..3] == "ann";
    assert TrimRight("ann ") == TrimRight("ann");
    assert Lower("ann") == "ann";
    assert |Lower("ann ")| == 4;
  }

  lemma {:induction false} DeciderSigned(ds: seq<Decision>, k: nat)
    requires k < |ds| && ds[k].approved
    ensures ds[k].actor in Signers(ds)
  {
    if k < |ds| - 1 {
      DeciderSigned(ds[..|ds| - 1], k);
    }
  }

  /** A signature otherwise in order is taken exactly when the name is blank or no
      earlier signature has it up to case. */
  lemma SignatureTakenIff(tiers: seq<Tier>, s: State, actor: string, perms: set<string>)
    requires Valid(tiers, s) && s.status.Pending? && !SameActor(actor, s.requestedBy)
    requires forall k :: 0 <= k < |Required(tiers, s.amount)| ==> Required(tiers, s.amount)[k].perm in perms
    ensures ReplyTo(tiers, s, Sign(actor, perms)) != Forbidden
            <==> Blank(actor)
                 || forall k :: 0 <= k < |s.decisions| && s.decisions[k].approved ==> Lower(s.decisions[k].actor) != Lower(actor)
  {
  }

  /** Each accepted signature signs the next required tier with that tier's
      permission, brings the tiers left down by one, and completes the approval
      exactly when none is left. */
  lemma SignatureProgress(tiers: seq<Tier>, s: State, op: Op)
    requires Ascending(tiers) && Valid(tiers, s) && op.Sign? && Required(tiers, s.amount) != []
    requires Step(tiers, s, op) != s
    ensures var required, signed, t := Required(tiers, s.amount), SignedTiers(s.decisions), Step(tiers, s, op);
            && |signed| < |required| && required[|signed|].perm in op.perms
            && SignedTiers(t.decisions) == signed + [required[|signed|].tier]
            && (t.status.Approved? <==> |signed| + 1 == |required|)
  {
    hide Required, NextTier, SameActor, AlreadySigned, SignedTiers, Signers, AllSigned, NoneIs;
    var required, signed := Required(tiers, s.amount), SignedTiers(s.decisions);
    RequiredAscending(tiers, s.amount);
    NextIsAfterPrefix(required, signed);
    if |signed| < |required| {
      var d := Decision(required[|signed|].tier, op.actor, true);
      SignedSnoc(s.decisions, d);
      NextIsAfterPrefix(required, signed + [d.tier]);
    }
  }

  /** Rejection is final; so are approval and execution once no caller is still due
      to run the action or to mark it. */
  lemma FinalStates(tiers: seq<Tier>, s: State, op: Op)
    requires Valid(tiers, s) && !s.status.Pending? && s.finishing == 0 && s.marking == 0
    ensures Step(tiers, s, op) == s
  {
  }

  function StepAll(tiers: seq<Tier>, s: State, ops: seq<Op>): State {
    if ops == [] then s else Step(tiers, StepAll(tiers, s, ops[..|ops| - 1]), ops[|ops| - 1])
  }

  lemma {:induction false} FinalForGood(tiers: seq<Tier>, s: State, ops: seq<Op>)
    requires Valid(tiers, s) && !s.status.Pending? && s.finishing == 0 && s.marking == 0
    ensures StepAll(tiers, s, ops) == s
  {
    if ops != [] {
      FinalForGood(tiers, s, ops[..|ops| - 1]);
      FinalStates(tiers, s, ops[|ops| - 1]);
    }
  }

  ghost predicate CanExecute(tiers: seq<Tier>, s: State) {
    exists ops :: StepAll(tiers, s, ops).status.Executed?
  }

  /** An approved approval can still come to be executed exactly while the caller who
      completed it is under way: once its action failed, or ran and was not marked, no
      call by anyone retries it, although the comments call it retryable. */
  lemma RetryableIff(tiers: seq<Tier>, s: State)
    requires Valid(tiers, s) && s.status.Approved?
    ensures CanExecute(tiers, s) <==> s.finishing + s.marking > 0
  {
    if s.marking > 0 {
      ThenOne(tiers, s, MarkExecuted(true));
      assert StepAll(tiers, s, [MarkExecuted(true)]).status.Executed?;
    } else if s.finishing > 0 {
      var t := Step(tiers, s, RunAction(true));
      ThenOne(tiers, s, RunAction(true));
      assert [RunAction(true), MarkExecuted(true)][..1] == [RunAction(true)];
      assert StepAll(tiers, s, [RunAction(true), MarkExecuted(true)]) == Step(tiers, t, MarkExecuted(true));
      assert StepAll(tiers, s, [RunAction(true), MarkExecuted(true)]).status.Executed?;
    } else {
      forall ops
        ensures !StepAll(tiers, s, ops).status.Executed?
      {
        FinalForGood(tiers, s, ops);
      }
    }
  }

  lemma ThenOne(tiers: seq<Tier>, s: State, op: Op)
    ensures StepAll(tiers, s, [op]) == Step(tiers, s, op)
  {
    assert [op][..0] == [];
  }

  // ----- runs from a fresh approval

  const ONE_TIER := [Tier(1, 0, "p")]
  const TWO_TIERS := [Tier(1, 0, "p"), Tier(2, 0, "q")]

  lemma TwoTiersRequired()
    ensures Required(ONE_TIER, 1) == ONE_TIER && Required(TWO_TIERS, 1) == TWO_TIERS
  {
    assert ONE_TIER[..0] == [];
    assert Required([], 1) == [];
    assert TWO_TIERS[..1] == ONE_TIER;
  }

  lemma RunSnoc(tiers: seq<Tier>, amount: int, requestedBy: string, ops: seq<Op>, op: Op)
    ensures Run(tiers, amount, requestedBy, ops + [op]) == Step(tiers, Run(tiers, amount, requestedBy, ops), op)
  {
    assert (ops + [op])[..|ops|] == ops;
  }

  /** One signature in order, spelled out. */
  lemma SignStep(tiers: seq<Tier>, s: State, actor: string, perms: set<string>)
    requires s.status.Pending? && !SameActor(actor, s.requestedBy) && !AlreadySigned(s.decisions, actor)
    requires Ascending(tiers) && PrefixSigned(Required(tiers, s.amount), SignedTiers(s.decisions))
    requires var n := |SignedTiers(s.decisions)|; n < |Required(tiers, s.amount)| && Required(tiers, s.amount)[n].perm in perms
    ensures var required, n := Required(tiers, s.amount), |SignedTiers(s.decisions)|;
            var t := s.(decisions := s.decisions + [Decision(required[n].tier, actor, true)]);
            Step(tiers, s, Sign(actor, perms))
            == if n + 1 == |required| then t.(status := Approved, finishing := s.finishing + 1) else t
  {
    hide Required, NextTier, SameActor, AlreadySigned, SignedTiers, AllSigned;
    var required, signed := Required(tiers, s.amount), SignedTiers(s.decisions);
    RequiredAscending(tiers, s.amount);
    NextIsAfterPrefix(required, signed);
    NextIsAfterPrefix(required, signed + [required[|signed|].tier]);
  }

  lemma FirstSignature(tiers: seq<Tier>)
    requires tiers == ONE_TIER || tiers == TWO_TIERS
    ensures Run(tiers, 1, "bob", [Sign("ann", {"p"})])
            == if tiers == ONE_TIER then State(1, "bob", Approved, [Decision(1, "ann", true)], 1, 0, 0)
               else State(1, "bob", Pending, [Decision(1, "ann", true)], 0, 0, 0)
  {
    hide SameActor, Required, Step;
    TwoTiersRequired();
    NamesApart();
    RunSnoc(tiers, 1, "bob", [], Sign("ann", {"p"}));
    assert [] + [Sign("ann", {"p"})] == [Sign("ann", {"p"})];
    SignStep(tiers, Run(tiers, 1, "bob", []), "ann", {"p"});
  }

  lemma NamesApart()
    ensures !SameActor("ann", "bob") && !SameActor("ann ", "bob")
  {
    PaddedNameExample();
    assert TrimLeft("bob") == "bob" && TrimRight("bob") == "bob" && TrimLeft("ann") == "ann" && TrimRight("ann") == "ann";
    assert Lower("bob")[0] == 'b' && Lower("ann")[0] == 'a';
  }

  lemma ActionSteps(tiers: seq<Tier>, s: State)
    requires s.status.Approved? && s.finishing == 1 && s.marking == 0 && s.runs == 0
    ensures Step(tiers, s, RunAction(true)) == s.(finishing := 0, marking := 1, runs := 1)
    ensures Step(tiers, s.(finishing := 0, marking := 1, runs := 1), MarkExecuted(false)) == s.(finishing := 0, runs := 1)
  {
    hide Required, SignedTiers, NextTier, AllSigned;
  }

  /** The action has run and the approval stays approved, for good: the mark failed. */
  lemma RunButNotMarked(more: seq<Op>)
    ensures var s := Run(ONE_TIER, 1, "bob", [Sign("ann", {"p"}), RunAction(true), MarkExecuted(false)]);
            s.status.Approved? && s.runs == 1 && StepAll(ONE_TIER, s, more) == s
  {
    hide Step, Required, SameActor, SignedTiers, StepAll;
    var sign := Sign("ann", {"p"});
    FirstSignature(ONE_TIER);
    ActionSteps(ONE_TIER, Run(ONE_TIER, 1, "bob", [sign]));
    RunSnoc(ONE_TIER, 1, "bob", [sign], RunAction(true));
    RunSnoc(ONE_TIER, 1, "bob", [sign, RunAction(true)], MarkExecuted(false));
    assert [sign] + [RunAction(true)] == [sign, RunAction(true)];
    assert [sign, RunAction(true)] + [MarkExecuted(false)] == [sign, RunAction(true), MarkExecuted(false)];
    var ops := [sign, RunAction(true), MarkExecuted(false)];
    AlwaysValid(ONE_TIER, 1, "bob", ops);
    FinalForGood(ONE_TIER, Run(ONE_TIER, 1, "bob", ops), more);
  }

  /** One person signs both tiers and the approval is complete. */
  lemma OnePersonApproves()
    ensures var s := Run(TWO_TIERS, 1, "bob", [Sign("ann", {"p"}), Sign("ann ", {"q"})]);
            && s.status.Approved? && Signers(s.decisions) == ["ann", "ann "] && SameActor("ann", "ann ")
  {
    hide SameActor, Required, Step, Lower;
    var first, second := Sign("ann", {"p"}), Sign("ann ", {"q"});
    FirstSignature(TWO_TIERS);
    TwoTiersRequired();
    NamesApart();
    PaddedNameExample();
    RunSnoc(TWO_TIERS, 1, "bob", [first], second);
    assert [first] + [second] == [first, second];
    var s := Run(TWO_TIERS, 1, "bob", [first]);
    assert s.decisions == [] + [Decision(1, "ann", true)];
    SignedSnoc([], Decision(1, "ann", true));
    assert SignedTiers(s.decisions) == [1] && Signers(s.decisions) == ["ann"];
    SignStep(TWO_TIERS, s, "ann ", {"q"});
    SignedSnoc(s.decisions, Decision(2, "ann ", true));
  }

  // ----- the transactions, as they run

  class ApprovalDesk {
    const tiers: seq<Tier>
    var row: State

    constructor (table: seq<Tier>, amount: int, requestedBy: string)
      ensures tiers == table && row == Run(table, amount, requestedBy, [])
    {
      tiers := table;
      row := State(amount, requestedBy, Pending, [], 0, 0, 0);
    }

    method RequiredTiers(amount: int) returns (required: seq<Tier>)
      ensures required == Required(tiers, amount)
    {
      required := [];
      for k := 0 to |tiers|
        invariant required == Required(tiers[..k], amount)
      {
        assert tiers[..k + 1][..k] == tiers[..k];
        if amount > tiers[k].minAmount {
          required := required + [tiers[k]];
        }
      }
      assert tiers[..|tiers|] == tiers;
    }

    method ApprovedTiers() returns (signed: seq<int>)
      ensures signed == SignedTiers(row.decisions)
    {
      signed := [];
      var ds := row.decisions;
      for k := 0 to |ds|
        invariant signed == SignedTiers(ds[..k])
      {
        assert ds[..k + 1][..k] == ds[..k];
        if ds[k].approved {
          signed := signed + [ds[k].tier];
        }
      }
      assert ds[..|ds|] == ds;
    }

    /** Signs the lowest required tier not yet cleared, under the row lock. */
    method RecordApprovalTier(actor: string, perms: set<string>) returns (reply: Reply)
      modifies this
      ensures reply == ReplyTo(tiers, old(row), Sign(actor, perms))
      ensures row == Step(tiers, old(row), Sign(actor, perms))
    {
      hide Required, SignedTiers, SameActor, AlreadySigned, Lower, Trim;
      if !row.status.Pending? {
        return Conflict;
      }
      if SameActor(actor, row.requestedBy) {
        return Forbidden;
      }
      var required := RequiredTiers(row.amount);
      var signed := ApprovedTiers();
      if AlreadySigned(row.decisions, actor) {
        return Forbidden;
      }
      var n := 0;
      while n < |required| && required[n].tier in signed
        invariant 0 <= n <= |required|
        invariant NextTier(required, signed, 0) == NextTier(required, signed, n)
      {
        n := n + 1;
      }
      if n == |required| {
        row := row.(status := Approved, finishing := row.finishing + 1);
        return Finalized;
      }
      if required[n].perm !in perms {
        return Forbidden;
      }
      row := row.(decisions := row.decisions + [Decision(required[n].tier, actor, true)]);
      if AllSigned(required, signed + [required[n].tier]) {
        row := row.(status := Approved, finishing := row.finishing + 1);
        return Finalized;
      }
      return Signed;
    }

    method RejectApproval(actor: string, perms: set<string>) returns (reply: Reply)
      modifies this
      ensures reply == ReplyTo(tiers, old(row), Reject(actor, perms))
      ensures row == Step(tiers, old(row), Reject(actor, perms))
    {
      hide Required, SameActor, Lower, Trim;
      if !row.status.Pending? {
        return Conflict;
      }
      var required := RequiredTiers(row.amount);
      var allowed := SameActor(actor, row.requestedBy) || |required| == 0;
      var rejectTier := 0;
      ghost var before := allowed;
      for k := 0 to |required|
        invariant allowed <==> before || exists j :: 0 <= j < k && required[j].perm in perms
        invariant RejectTier(required, perms) == if rejectTier != 0 then rejectTier else RejectTier(required[k..], perms)
      {
        assert required[k..][1..] == required[k + 1..];
        if required[k].perm in perms {
          allowed := true;
          if rejectTier == 0 {
            rejectTier := required[k].tier;
          }
        }
      }
      assert required[|required|..] == [];
      if !allowed {
        return Forbidden;
      }
      row := row.(decisions := row.decisions + [Decision(rejectTier, actor, false)], status := Rejected);
      return Done;
    }

    /** The action commits in its own transaction. */
    method CommitAction(succeeds: bool) returns (ran: bool)
      modifies this
      ensures row == Step(tiers, old(row), RunAction(succeeds))
      ensures ran <==> old(row).finishing > 0 && succeeds && !old(row).status.Executed?
    {
      ran := false;
      if row.finishing == 0 {
        return;
      }
      if row.status.Executed? || !succeeds {
        row := row.(finishing := row.finishing - 1);
        return;
      }
      row := row.(finishing := row.finishing - 1, marking := row.marking + 1, runs := row.runs + 1);
      return true;
    }

    method MarkApprovalExecuted(succeeds: bool)
      modifies this
      ensures row == Step(tiers, old(row), Op.MarkExecuted(succeeds))
    {
      if row.marking == 0 {
        return;
      }
      row := row.(marking := row.marking - 1);
      if succeeds {
        row := row.(status := Executed);
      }
    }

    /** The completing caller runs the action and, if it committed, marks it; either
        can fail. */
    method ExecuteApproval(actionOk: bool, markOk: bool)
      modifies this
      ensures var t := Step(tiers, old(row), RunAction(actionOk));
              row == if t.runs > old(row).runs then Step(tiers, t, Op.MarkExecuted(markOk)) else t
    {
      var ran := CommitAction(actionOk);
      if ran {
        MarkApprovalExecuted(markOk);
      }
    }
  }
}
