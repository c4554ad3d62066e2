/** What each call on an approval does after any history, in terms of the tier table,
    the amount and the names as they were typed. */
module ApprovalCalls {
  import opened Approvals

  // ----- names

  predicate AllSpace(s: string) {
    forall k :: 0 <= k < |s| ==> s[k] == ' ' || s[k] == '\t' || s[k] == '\n' || s[k] == '\r'
  }

  predicate SpaceEnded(s: string) {
    s != "" && (IsSpace(s[0]) || IsSpace(s[|s| - 1]))
  }

  lemma {:induction false} TrimLeftPads(p: string, x: string)
    requires AllSpace(p) && (x == "" || !IsSpace(x[0]))
    ensures TrimLeft(p + x) == x
  {
    if p == "" {
      assert p + x == x;
    } else {
      assert (p + x)[1..] == p[1..] + x;
      TrimLeftPads(p[1..], x);
    }
  }

  lemma {:induction false} TrimRightPads(x: string, q: string)
    requires AllSpace(q) && (x == "" || !IsSpace(x[|x| - 1]))
    ensures TrimRight(x + q) == x
  {
    if q == "" {
      assert x + q == x;
    } else {
      assert (x + q)[..|x + q| - 1] == x + q[..|q| - 1];
      TrimRightPads(x, q[..|q| - 1]);
    }
  }

  /** Trimming takes off the padding and nothing else. */
  lemma TrimIs(p: string, x: string, q: string)
    requires AllSpace(p) && AllSpace(q) && !SpaceEnded(x)
    ensures Trim(p + x + q) == x
  {
    if x == "" {
      assert p + x + q == (p + q) + "";
      TrimLeftPads(p + q, "");
    } else {
      assert p + x + q == p + (x + q);
      TrimLeftPads(p, x + q);
      TrimRightPads(x, q);
    }
  }

  /** Letters A to Z lose their case; everything else is compared as it is. */
  predicate SameUpToCase(x: string, y: string) {
    |x| == |y|
    && forall k :: 0 <= k < |x| ==>
         x[k] == y[k] || ('A' <= x[k] <= 'Z' && x[k] as int + 32 == y[k] as int)
         || ('A' <= y[k] <= 'Z' && y[k] as int + 32 == x[k] as int)
  }

  lemma LowerIs(x: string, y: string)
    ensures Lower(x) == Lower(y) <==> SameUpToCase(x, y)
  {
    if SameUpToCase(x, y) {
      assert forall k :: 0 <= k < |x| ==> Lower(x)[k] == Lower(y)[k];
    }
    if Lower(x) == Lower(y) {
      assert |x| == |Lower(x)| == |y|;
      assert forall k :: 0 <= k < |x| ==> Lower(x)[k] == LowerChar(x[k]) && Lower(y)[k] == LowerChar(y[k]);
    }
  }

  /** Two names, in whatever padding, are one actor exactly when what is typed between
      the padding agrees up to case and is neither nothing nor "unknown". */
  lemma SameActorIs(p: string, x: string, q: string, r: string, y: string, s: string)
    requires AllSpace(p) && AllSpace(q) && AllSpace(r) && AllSpace(s) && !SpaceEnded(x) && !SpaceEnded(y)
    ensures SameActor(p + x + q, r + y + s) <==> x != "" && SameUpToCase(x, y) && !SameUpToCase(x, "unknown")
  {
    hide Trim, Lower;
    TrimIs(p, x, q);
    TrimIs(r, y, s);
    LowerIs(x, y);
    LowerIs(x, "unknown");
    UnknownIsLower();
  }

  lemma UnknownIsLower()
    ensures Lower("unknown") == "unknown"
  {
  }

  // ----- calls

  lemma RunSnoc(tiers: seq<Tier>, amount: int, requestedBy: string, ops: seq<Op>, op: Op)
    ensures Run(tiers, amount, requestedBy, ops + [op]) == Step(tiers, Run(tiers, amount, requestedBy, ops), op)
  {
    assert (ops + [op])[..|ops|] == ops;
  }

  lemma {:induction false} RunKeeps(tiers: seq<Tier>, amount: int, requestedBy: string, ops: seq<Op>)
    ensures Run(tiers, amount, requestedBy, ops).amount == amount
    ensures Run(tiers, amount, requestedBy, ops).requestedBy == requestedBy
  {
    if ops != [] {
      RunKeeps(tiers, amount, requestedBy, ops[..|ops| - 1]);
    }
  }

  /** Tier k of the table is needed for the amount. */
  predicate Needed(tiers: seq<Tier>, amount: int, k: int) {
    0 <= k < |tiers| && tiers[k].minAmount < amount
  }

  lemma {:induction false} RequiredOnes(tiers: seq<Tier>, amount: int)
    ensures Required(tiers, amount) == [] <==> forall k :: !Needed(tiers, amount, k)
    ensures forall k :: Needed(tiers, amount, k) ==> tiers[k] in Required(tiers, amount)
    ensures forall t :: t in Required(tiers, amount) ==> exists k :: Needed(tiers, amount, k) && tiers[k] == t
  {
    forall t: Tier
      ensures t in Required(tiers, amount) <==> t in tiers && amount > t.minAmount
    {
      RequiredSubset(tiers, amount, t);
    }
    forall t | t in Required(tiers, amount)
      ensures exists k :: Needed(tiers, amount, k) && tiers[k] == t
    {
      var k :| 0 <= k < |tiers| && tiers[k] == t;
      assert Needed(tiers, amount, k);
    }
    if Required(tiers, amount) != [] {
      assert Required(tiers, amount)[0] in Required(tiers, amount);
    }
  }

  /** While an approval is pending it can be rejected by its requester, by anyone when
      the amount needs no tier, and otherwise by whoever holds the permission of some
      tier the amount needs; a rejection is final and anything else changes nothing. */
  lemma RejectionTakenIff(tiers: seq<Tier>, amount: int, requestedBy: string, ops: seq<Op>, actor: string,
                          perms: set<string>)
    ensures var s, t := Run(tiers, amount, requestedBy, ops), Run(tiers, amount, requestedBy, ops + [Reject(actor, perms)]);
            var allowed := SameActor(actor, requestedBy) || (forall k :: !Needed(tiers, amount, k))
                           || exists k :: Needed(tiers, amount, k) && tiers[k].perm in perms;
            && (t != s <==> s.status == Pending && allowed)
            && (t != s ==> exists tier ::
                  t == State(amount, requestedBy, Rejected, s.decisions + [Decision(tier, actor, false)], s.finishing,
                             s.marking, s.runs))
  {
    hide SameActor, Run, Required;
    var s, op := Run(tiers, amount, requestedBy, ops), Reject(actor, perms);
    var required := Required(tiers, amount);
    RunSnoc(tiers, amount, requestedBy, ops, op);
    RunKeeps(tiers, amount, requestedBy, ops);
    RequiredOnes(tiers, amount);
    HolderOfNeeded(tiers, amount, perms);
    assert ReplyTo(tiers, s, op).Done? ==> Step(tiers, s, op).status == Rejected;
  }

  lemma HolderOfNeeded(tiers: seq<Tier>, amount: int, perms: set<string>)
    ensures (exists k :: 0 <= k < |Required(tiers, amount)| && Required(tiers, amount)[k].perm in perms)
            <==> exists k :: Needed(tiers, amount, k) && tiers[k].perm in perms
  {
    RequiredOnes(tiers, amount);
    hide Required;
    var required := Required(tiers, amount);
    if j :| 0 <= j < |required| && required[j].perm in perms {
      assert required[j] in required;
      var k :| Needed(tiers, amount, k) && tiers[k] == required[j];
    }
    if k :| Needed(tiers, amount, k) && tiers[k].perm in perms {
      var j :| 0 <= j < |required| && required[j] == tiers[k];
    }
  }

  lemma {:induction false} FirstHolder(required: seq<Tier>, perms: set<string>, i: nat)
    requires i <= |required| && forall k :: 0 <= k < i ==> required[k].perm !in perms || required[k].tier == 0
    requires i < |required| ==> required[i].perm in perms && required[i].tier != 0
    ensures RejectTier(required, perms) == if i < |required| then required[i].tier else 0
  {
    if i > 0 {
      FirstHolder(required[1..], perms, i - 1);
    }
  }

  /** A rejection is recorded under the lowest needed tier whose permission its author
      holds, leaving out a tier numbered zero, and under zero when there is none. */
  lemma RejectionTier(tiers: seq<Tier>, amount: int, requestedBy: string, ops: seq<Op>, actor: string,
                      perms: set<string>, k: int)
    requires Ascending(tiers)
    ensures var s, t := Run(tiers, amount, requestedBy, ops), Run(tiers, amount, requestedBy, ops + [Reject(actor, perms)]);
            t != s ==>
              && ((forall j :: Needed(tiers, amount, j) ==> tiers[j].perm !in perms || tiers[j].tier == 0)
                    ==> t.decisions == s.decisions + [Decision(0, actor, false)])
              && ((Needed(tiers, amount, k) && tiers[k].perm in perms && tiers[k].tier != 0
                   && forall j :: Needed(tiers, amount, j) && j < k ==> tiers[j].perm !in perms || tiers[j].tier == 0)
                    ==> t.decisions == s.decisions + [Decision(tiers[k].tier, actor, false)])
  {
    hide SameActor, Run, Required, RejectTier;
    var required := Required(tiers, amount);
    RunSnoc(tiers, amount, requestedBy, ops, Reject(actor, perms));
    RunKeeps(tiers, amount, requestedBy, ops);
    RequiredOnes(tiers, amount);
    if forall j :: Needed(tiers, amount, j) ==> tiers[j].perm !in perms || tiers[j].tier == 0 {
      forall i | 0 <= i < |required|
        ensures required[i].perm !in perms || required[i].tier == 0
      {
        assert required[i] in required;
      }
      FirstHolder(required, perms, |required|);
    }
    if Needed(tiers, amount, k) && tiers[k].perm in perms && tiers[k].tier != 0
       && forall j :: Needed(tiers, amount, j) && j < k ==> tiers[j].perm !in perms || tiers[j].tier == 0 {
      var i := PlaceOf(tiers, amount, k);
      FirstHolder(required, perms, i);
    }
  }

  /** Where a needed tier sits among the required ones: after the needed ones below it. */
  lemma PlaceOf(tiers: seq<Tier>, amount: int, k: int) returns (i: nat)
    requires Ascending(tiers) && Needed(tiers, amount, k)
    ensures i < |Required(tiers, amount)| && Required(tiers, amount)[i] == tiers[k]
    ensures forall j :: 0 <= j < i ==>
              exists m :: Needed(tiers, amount, m) && m < k && tiers[m] == Required(tiers, amount)[j]
  {
    var required := Required(tiers, amount);
    RequiredOnes(tiers, amount);
    RequiredAscending(tiers, amount);
    hide Required;
    i :| 0 <= i < |required| && required[i] == tiers[k];
    forall j | 0 <= j < i
      ensures exists m :: Needed(tiers, amount, m) && m < k && tiers[m] == required[j]
    {
      assert required[j] in required;
      var m :| Needed(tiers, amount, m) && tiers[m] == required[j];
      assert required[j].tier < required[i].tier;
    }
  }

  /** No earlier signature is under this name up to case; a blank name never matches. */
  predicate NotSignedAs(ds: seq<Decision>, actor: string) {
    AllSpace(actor) || forall k :: 0 <= k < |ds| && ds[k].approved ==> !SameUpToCase(ds[k].actor, actor)
  }

  lemma {:induction false} BlankLeft(actor: string)
    ensures TrimLeft(actor) == "" <==> AllSpace(actor)
  {
    if actor != "" {
      BlankLeft(actor[1..]);
      if AllSpace(actor[1..]) && IsSpace(actor[0]) {
        assert forall k :: 0 < k < |actor| ==> actor[k] == actor[1..][k - 1];
      }
    }
  }

  lemma {:induction false} TrimLeftStarts(s: string)
    ensures TrimLeft(s) == "" || !IsSpace(TrimLeft(s)[0])
  {
    if s != "" {
      TrimLeftStarts(s[1..]);
    }
  }

  lemma {:induction false} TrimRightKeeps(s: string)
    requires s != "" && !IsSpace(s[0])
    ensures TrimRight(s) != ""
  {
    if |s| > 1 {
      TrimRightKeeps(s[..|s| - 1]);
    }
  }

  lemma BlankIs(actor: string)
    ensures Blank(actor) <==> AllSpace(actor)
  {
    BlankLeft(actor);
    TrimLeftStarts(actor);
    if TrimLeft(actor) != "" {
      TrimRightKeeps(TrimLeft(actor));
    }
  }

  lemma AlreadySignedIs(ds: seq<Decision>, actor: string)
    ensures AlreadySigned(ds, actor) <==> !NotSignedAs(ds, actor)
  {
    hide Blank, Lower, SameUpToCase;
    BlankIs(actor);
    forall k | 0 <= k < |ds|
      ensures Lower(ds[k].actor) == Lower(actor) <==> SameUpToCase(ds[k].actor, actor)
    {
      LowerIs(ds[k].actor, actor);
    }
  }

  predicate TierSigned(ds: seq<Decision>, tier: int) {
    exists k :: 0 <= k < |ds| && ds[k].approved && ds[k].tier == tier
  }

  lemma {:induction false} SignedIs(ds: seq<Decision>, tier: int)
    ensures tier in SignedTiers(ds) <==> TierSigned(ds, tier)
  {
    if ds != [] {
      SignedIs(ds[..|ds| - 1], tier);
    }
  }

  /** Tier k is the lowest the amount needs that has not signed. */
  ghost predicate IsNext(tiers: seq<Tier>, amount: int, ds: seq<Decision>, k: int) {
    Needed(tiers, amount, k) && !TierSigned(ds, tiers[k].tier)
    && forall j :: Needed(tiers, amount, j) && j < k ==> TierSigned(ds, tiers[j].tier)
  }

  /** The next required tier sits in the table where IsNext says. */
  lemma NextIs(tiers: seq<Tier>, amount: int, ds: seq<Decision>, k: int)
    requires Ascending(tiers) && IsNext(tiers, amount, ds, k)
    ensures var required := Required(tiers, amount); var n := NextTier(required, SignedTiers(ds), 0);
            n < |required| && required[n] == tiers[k]
  {
    hide TierSigned;
    var required, signed := Required(tiers, amount), SignedTiers(ds);
    var n := NextTier(required, signed, 0);
    RequiredOnes(tiers, amount);
    RequiredAscending(tiers, amount);
    hide Required, NextTier;
    forall t: int
      ensures t in signed <==> TierSigned(ds, t)
    {
      SignedIs(ds, t);
    }
    var j :| 0 <= j < |required| && required[j] == tiers[k];
    assert required[j].tier !in signed;
    assert n <= j;
    assert required[n] in required;
    var i :| Needed(tiers, amount, i) && tiers[i] == required[n];
    assert !TierSigned(ds, tiers[i].tier);
    assert i >= k;
    NotBelow(required, n, j);
  }

  lemma NotBelow(required: seq<Tier>, n: nat, j: nat)
    requires Ascending(required) && n < |required| && j < |required| && required[n].tier >= required[j].tier
    ensures n >= j
  {
  }

  lemma NoneNext(tiers: seq<Tier>, amount: int, ds: seq<Decision>)
    requires forall k :: Needed(tiers, amount, k) ==> TierSigned(ds, tiers[k].tier)
    ensures NextTier(Required(tiers, amount), SignedTiers(ds), 0) == |Required(tiers, amount)|
  {
    hide TierSigned;
    var required, signed := Required(tiers, amount), SignedTiers(ds);
    RequiredOnes(tiers, amount);
    hide Required;
    forall j | 0 <= j < |required|
      ensures required[j].tier in signed
    {
      assert required[j] in required;
      var i :| Needed(tiers, amount, i) && tiers[i] == required[j];
      SignedIs(ds, tiers[i].tier);
    }
  }

  lemma AllSignedIs(tiers: seq<Tier>, amount: int, ds: seq<Decision>, d: Decision)
    requires d.approved
    ensures AllSigned(Required(tiers, amount), SignedTiers(ds) + [d.tier])
            <==> forall k :: Needed(tiers, amount, k) ==> TierSigned(ds, tiers[k].tier) || tiers[k].tier == d.tier
  {
    hide TierSigned;
    var required, signed := Required(tiers, amount), SignedTiers(ds);
    RequiredOnes(tiers, amount);
    hide Required;
    forall t: int
      ensures t in signed <==> TierSigned(ds, t)
    {
      SignedIs(ds, t);
    }
    if AllSigned(required, signed + [d.tier]) {
      forall k | Needed(tiers, amount, k)
        ensures TierSigned(ds, tiers[k].tier) || tiers[k].tier == d.tier
      {
        var j :| 0 <= j < |required| && required[j] == tiers[k];
      }
    }
    if forall k :: Needed(tiers, amount, k) ==> TierSigned(ds, tiers[k].tier) || tiers[k].tier == d.tier {
      forall j | 0 <= j < |required|
        ensures required[j].tier in signed + [d.tier]
      {
        assert required[j] in required;
        var i :| Needed(tiers, amount, i) && tiers[i] == required[j];
      }
    }
  }

  /** A signature counts exactly while the approval is pending, from someone who is
      neither the requester nor an earlier signer, and who holds the permission of the
      lowest needed tier that has not signed.  It signs that tier, and completes the
      approval exactly when no other needed tier is left. */
  lemma SignatureCounts(tiers: seq<Tier>, amount: int, requestedBy: string, ops: seq<Op>, actor: string,
                        perms: set<string>, k: int)
    requires Ascending(tiers) && IsNext(tiers, amount, Run(tiers, amount, requestedBy, ops).decisions, k)
    ensures var s, t := Run(tiers, amount, requestedBy, ops), Run(tiers, amount, requestedBy, ops + [Sign(actor, perms)]);
            var last := forall j :: Needed(tiers, amount, j) && j != k ==> TierSigned(s.decisions, tiers[j].tier);
            && (t != s <==> s.status == Pending && !SameActor(actor, requestedBy) && NotSignedAs(s.decisions, actor)
                            && tiers[k].perm in perms)
            && (t != s ==> t.decisions == s.decisions + [Decision(tiers[k].tier, actor, true)]
                           && t.status == (if last then Approved else Pending)
                           && t.finishing == s.finishing + (if last then 1 else 0)
                           && t.marking == s.marking && t.runs == s.runs)
  {
    hide SameActor, Run, Required, NotSignedAs, AlreadySigned, TierSigned;
    var s, op := Run(tiers, amount, requestedBy, ops), Sign(actor, perms);
    RunSnoc(tiers, amount, requestedBy, ops, op);
    RunKeeps(tiers, amount, requestedBy, ops);
    NextIs(tiers, amount, s.decisions, k);
    AlreadySignedIs(s.decisions, actor);
    AllSignedIs(tiers, amount, s.decisions, Decision(tiers[k].tier, actor, true));
    OnlyThisTier(tiers, amount, k);
    assert ReplyTo(tiers, s, op).Signed? || ReplyTo(tiers, s, op).Finalized?
           ==> |Step(tiers, s, op).decisions| == |s.decisions| + 1;
  }

  lemma OnlyThisTier(tiers: seq<Tier>, amount: int, k: int)
    requires Ascending(tiers) && Needed(tiers, amount, k)
    ensures forall j :: Needed(tiers, amount, j) && tiers[j].tier == tiers[k].tier ==> j == k
  {
  }

  /** With nothing left to sign, a signature approves at once and signs no tier. */
  lemma NothingToSign(tiers: seq<Tier>, amount: int, requestedBy: string, ops: seq<Op>, actor: string,
                      perms: set<string>)
    requires forall k :: Needed(tiers, amount, k) ==>
               TierSigned(Run(tiers, amount, requestedBy, ops).decisions, tiers[k].tier)
    ensures var s, t := Run(tiers, amount, requestedBy, ops), Run(tiers, amount, requestedBy, ops + [Sign(actor, perms)]);
            t == if s.status == Pending && !SameActor(actor, requestedBy) && NotSignedAs(s.decisions, actor)
                 then State(amount, requestedBy, Approved, s.decisions, s.finishing + 1, s.marking, s.runs) else s
  {
    hide SameActor, Run, Required, NotSignedAs, AlreadySigned, TierSigned;
    var s, op := Run(tiers, amount, requestedBy, ops), Sign(actor, perms);
    RunSnoc(tiers, amount, requestedBy, ops, op);
    RunKeeps(tiers, amount, requestedBy, ops);
    NoneNext(tiers, amount, s.decisions);
    AlreadySignedIs(s.decisions, actor);
  }

  /** The action runs for a caller that completed the approval, once, if it succeeds and
      nobody has executed the approval; the mark follows for a caller whose action ran. */
  lemma ExecutionCounts(tiers: seq<Tier>, amount: int, requestedBy: string, ops: seq<Op>, succeeds: bool)
    ensures var s := Run(tiers, amount, requestedBy, ops);
            var acted := Run(tiers, amount, requestedBy, ops + [RunAction(succeeds)]);
            var marked := Run(tiers, amount, requestedBy, ops + [MarkExecuted(succeeds)]);
            && acted == (if s.finishing == 0 then s
                         else if succeeds && s.status != Executed
                         then State(amount, requestedBy, s.status, s.decisions, s.finishing - 1, s.marking + 1, s.runs + 1)
                         else State(amount, requestedBy, s.status, s.decisions, s.finishing - 1, s.marking, s.runs))
            && marked == (if s.marking == 0 then s
                          else State(amount, requestedBy, if succeeds then Executed else s.status, s.decisions, s.finishing,
                                     s.marking - 1, s.runs))
  {
    hide Run, Required;
    RunSnoc(tiers, amount, requestedBy, ops, RunAction(succeeds));
    RunSnoc(tiers, amount, requestedBy, ops, MarkExecuted(succeeds));
    RunKeeps(tiers, amount, requestedBy, ops);
  }
}
