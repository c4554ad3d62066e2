/** The entity forest and the scope of a consolidated report.  An entity's id is
    its place in creation order. */
module Entities {
  import opened Ledger
  import C = Consolidation

  /** owned is the parent's fraction in ten-thousandths. */
  datatype EntityRow = EntityRow(code: string, parent: Option<int>, owned: int)

  datatype Op =
    | CreateEntity(code: string, parent: Option<int>, owned: int)
    | SetEntityOwnership(id: int, owned: int)

  datatype Reply = Done | NotFound | CodeTaken | NoSuchParent | BadOwnership

  const SEEDED := [EntityRow("DEFAULT", None, 10000)]

  function ReplyTo(rows: seq<EntityRow>, op: Op): Reply {
    match op
    case CreateEntity(code, parent, owned) =>
      if !(0 < owned <= 10000) then BadOwnership
      else if exists k :: 0 <= k < |rows| && rows[k].code == code then CodeTaken
      else if parent.Some? && !(0 <= parent.value < |rows|) then NoSuchParent
      else Done
    case SetEntityOwnership(id, owned) =>
      if !(0 <= id < |rows|) then NotFound else if !(0 < owned <= 10000) then BadOwnership else Done
  }

  function Step(rows: seq<EntityRow>, op: Op): seq<EntityRow> {
    if ReplyTo(rows, op) != Done then rows else
      match op
      case CreateEntity(code, parent, owned) => rows + [EntityRow(code, parent, owned)]
      case SetEntityOwnership(id, owned) => rows[id := rows[id].(owned := owned)]
  }

  function Run(ops: seq<Op>): seq<EntityRow> {
    if ops == [] then SEEDED else Step(Run(ops[..|ops| - 1]), ops[|ops| - 1])
  }

  /** Parents come before children, so parent links cannot form a cycle. */
  predicate Forest(rows: seq<EntityRow>) {
    && (forall k :: 0 <= k < |rows| && rows[k].parent.Some? ==> 0 <= rows[k].parent.value < k)
    && (forall k :: 0 <= k < |rows| ==> 0 < rows[k].owned <= 10000)
    && (forall i, j :: 0 <= i < j < |rows| ==> rows[i].code != rows[j].code)
  }

  lemma {:induction false} ForestKept(ops: seq<Op>)
    ensures Forest(Run(ops))
  {
    if ops != [] {
      ForestKept(ops[..|ops| - 1]);
    }
  }

  lemma {:induction false} RootStays(ops: seq<Op>)
    ensures Run(ops) != [] && Run(ops)[0].code == "DEFAULT" && Run(ops)[0].parent == None
  {
    if ops != [] {
      RootStays(ops[..|ops| - 1]);
    }
  }

  /** Over every run the seeded root stays, each parent was created before its child,
      fractions stay positive and at most the whole, and codes stay distinct. */
  lemma AlwaysAForest(ops: seq<Op>)
    ensures var rows := Run(ops);
            && |rows| >= 1 && rows[0].code == "DEFAULT" && rows[0].parent == None
            && (forall k :: 0 <= k < |rows| ==> rows[k].parent == None || 0 <= rows[k].parent.value < k)
            && (forall k :: 0 <= k < |rows| ==> 0 < rows[k].owned <= 10000)
            && (forall i, j :: 0 <= i < j < |rows| ==> rows[i].code != rows[j].code)
  {
    hide Run;
    ForestKept(ops);
    RootStays(ops);
  }

  /** After any history, an entity is created exactly as asked when its fraction is
      positive and at most the whole, its code is new and its parent is there, and
      otherwise nothing changes; an ownership change likewise changes the one fraction. */
  lemma OperationsDo(ops: seq<Op>, code: string, parent: Option<int>, owned: int, id: int)
    ensures var rows := Run(ops);
            var created, changed := Run(ops + [CreateEntity(code, parent, owned)]), Run(ops + [SetEntityOwnership(id, owned)]);
            && (if 0 < owned <= 10000 && (parent == None || 0 <= parent.value < |rows|) && forall k :: 0 <= k < |rows| ==> rows[k].code != code
                then |created| == |rows| + 1 && created[..|rows|] == rows && created[|rows|].code == code
                     && created[|rows|].parent == parent && created[|rows|].owned == owned
                else created == rows)
            && (if 0 < owned <= 10000 && 0 <= id < |rows|
                then |changed| == |rows| && changed[id].owned == owned
                     && changed[id].code == rows[id].code && changed[id].parent == rows[id].parent
                     && forall k :: 0 <= k < |rows| && k != id ==> changed[k] == rows[k]
                else changed == rows)
  {
    var c, o := CreateEntity(code, parent, owned), SetEntityOwnership(id, owned);
    hide Run;
    RunLast(ops, c);
    RunLast(ops, o);
  }

  lemma RunLast(ops: seq<Op>, op: Op)
    ensures Run(ops + [op]) == Step(Run(ops), op)
  {
    assert (ops + [op])[..|ops|] == ops;
  }

  // ----- ancestry

  predicate IsChild(rows: seq<EntityRow>, x: int, p: int) {
    0 <= x < |rows| && rows[x].parent == Some(p)
  }

  /** x is n parent links below root. */
  predicate Below(rows: seq<EntityRow>, root: int, x: int, n: nat)
    decreases n
  {
    0 <= x < |rows| && if n == 0 then x == root else rows[x].parent.Some? && Below(rows, root, rows[x].parent.value, n - 1)
  }

  ghost predicate UpTo(rows: seq<EntityRow>, root: int, x: int, n: nat) {
    exists m: nat :: m <= n && Below(rows, root, x, m)
  }

  ghost predicate Descends(rows: seq<EntityRow>, root: int, x: int) {
    exists n: nat :: Below(rows, root, x, n)
  }

  /** No entity is its own ancestor. */
  lemma {:induction false} Deeper(rows: seq<EntityRow>, root: int, x: int, n: nat)
    requires Forest(rows) && Below(rows, root, x, n)
    ensures root + n <= x
  {
    if n > 0 {
      Deeper(rows, root, rows[x].parent.value, n - 1);
    }
  }

  /** An entity is at one depth only. */
  lemma {:induction false} OneDepth(rows: seq<EntityRow>, root: int, x: int, m: nat, n: nat)
    requires Forest(rows) && Below(rows, root, x, m) && Below(rows, root, x, n)
    ensures m == n
  {
    Deeper(rows, root, x, m);
    Deeper(rows, root, x, n);
    if m > 0 && n > 0 {
      OneDepth(rows, root, rows[x].parent.value, m - 1, n - 1);
    }
  }

  // ----- the scope

  predicate NoRepeats(xs: seq<int>) {
    forall i, j :: 0 <= i < j < |xs| ==> xs[i] != xs[j]
  }

  function ChildrenTo(rows: seq<EntityRow>, n: nat, p: int): seq<int>
    requires n <= |rows|
  {
    if n == 0 then [] else ChildrenTo(rows, n - 1, p) + if rows[n - 1].parent == Some(p) then [n - 1] else []
  }

  lemma {:induction false} ChildrenAre(rows: seq<EntityRow>, n: nat, p: int)
    requires n <= |rows|
    ensures forall x :: x in ChildrenTo(rows, n, p) <==> x < n && IsChild(rows, x, p)
    ensures NoRepeats(ChildrenTo(rows, n, p))
  {
    if n > 0 {
      ChildrenAre(rows, n - 1, p);
      Disjoint(ChildrenTo(rows, n - 1, p), if rows[n - 1].parent == Some(p) then [n - 1] else []);
    }
  }

  /** The join of a generation with its children, one row per matching pair. */
  function Generation(rows: seq<EntityRow>, parents: seq<int>): seq<int> {
    if parents == [] then []
    else Generation(rows, parents[..|parents| - 1]) + ChildrenTo(rows, |rows|, parents[|parents| - 1])
  }

  lemma {:induction false} GenerationIs(rows: seq<EntityRow>, parents: seq<int>)
    requires NoRepeats(parents)
    ensures forall x :: x in Generation(rows, parents) <==> exists p :: p in parents && IsChild(rows, x, p)
    ensures NoRepeats(Generation(rows, parents))
  {
    if parents != [] {
      var p, before := parents[|parents| - 1], parents[..|parents| - 1];
      GenerationIs(rows, before);
      ChildrenAre(rows, |rows|, p);
      assert parents == before + [p];
      assert p !in before;
      forall x
        ensures x in Generation(rows, parents) <==> exists q :: q in parents && IsChild(rows, x, q)
      {
        assert x in Generation(rows, parents) <==> x in Generation(rows, before) || x in ChildrenTo(rows, |rows|, p);
        assert IsChild(rows, x, p) ==> x < |rows|;
        assert p in parents && forall q :: q in before ==> q in parents;
      }
      Disjoint(Generation(rows, before), ChildrenTo(rows, |rows|, p));
    }
  }

  lemma Disjoint(xs: seq<int>, ys: seq<int>)
    requires NoRepeats(xs) && NoRepeats(ys) && forall x :: x in xs ==> x !in ys
    ensures NoRepeats(xs + ys)
  {
    forall i, j | 0 <= i < j < |xs + ys|
      ensures (xs + ys)[i] != (xs + ys)[j]
    {
      if i < |xs| {
        assert (xs + ys)[i] in xs;
      }
      if j >= |xs| {
        assert (xs + ys)[j] in ys;
      }
    }
  }

  /** `level` lists the entities at one depth, each once. */
  ghost predicate IsLevel(rows: seq<EntityRow>, root: int, level: seq<int>, n: nat) {
    NoRepeats(level) && forall x :: x in level <==> Below(rows, root, x, n)
  }

  lemma NextLevel(rows: seq<EntityRow>, root: int, level: seq<int>, n: nat)
    requires IsLevel(rows, root, level, n)
    ensures IsLevel(rows, root, Generation(rows, level), n + 1)
  {
    GenerationIs(rows, level);
    var next := Generation(rows, level);
    forall x
      ensures x in next <==> Below(rows, root, x, n + 1)
    {
      if Below(rows, root, x, n + 1) {
        assert IsChild(rows, x, rows[x].parent.value);
      }
    }
  }

  ghost predicate IsScope(rows: seq<EntityRow>, root: int, ids: seq<int>) {
    NoRepeats(ids) && forall x :: x in ids <==> Descends(rows, root, x)
  }

  // ----- what consolidation reads

  predicate Qualifies(rows: seq<EntityRow>, scope: seq<int>, x: int)
    requires 0 <= x < |rows|
  {
    x in scope && rows[x].parent.Some? && rows[x].parent.value in scope
  }

  predicate Listed(subs: seq<C.Subsidiary>, x: int) {
    exists k :: 0 <= k < |subs| && subs[k].id == x
  }

  /** The entities of the scope whose parent is in it too. */
  function SubsidiariesTo(rows: seq<EntityRow>, n: nat, scope: seq<int>): seq<C.Subsidiary>
    requires Forest(rows) && n <= |rows|
  {
    if n == 0 then []
    else SubsidiariesTo(rows, n - 1, scope)
         + if Qualifies(rows, scope, n - 1) then [C.Subsidiary(n - 1, rows[n - 1].parent.value, rows[n - 1].owned)] else []
  }

  lemma ListedSnoc(subs: seq<C.Subsidiary>, s: C.Subsidiary, x: int)
    ensures Listed(subs + [s], x) <==> Listed(subs, x) || s.id == x
  {
    assert (subs + [s])[|subs|] == s;
    assert forall k :: 0 <= k < |subs| ==> (subs + [s])[k] == subs[k];
  }

  lemma {:induction false} SubsidiariesAre(rows: seq<EntityRow>, n: nat, scope: seq<int>)
    requires Forest(rows) && n <= |rows|
    ensures var subs := SubsidiariesTo(rows, n, scope);
            && C.GoodSubs(subs)
            && forall x :: Listed(subs, x) <==> 0 <= x < n && Qualifies(rows, scope, x)
  {
    if n > 0 {
      var before := SubsidiariesTo(rows, n - 1, scope);
      SubsidiariesAre(rows, n - 1, scope);
      if Qualifies(rows, scope, n - 1) {
        OneMoreSubsidiary(before, C.Subsidiary(n - 1, rows[n - 1].parent.value, rows[n - 1].owned));
      } else {
        assert SubsidiariesTo(rows, n, scope) == before;
      }
    }
  }

  lemma OneMoreSubsidiary(before: seq<C.Subsidiary>, s: C.Subsidiary)
    requires C.GoodSubs(before) && 0 < s.owned <= 10000 && !Listed(before, s.id)
    ensures C.GoodSubs(before + [s])
    ensures forall x :: Listed(before + [s], x) <==> Listed(before, x) || s.id == x
  {
    forall k | 0 <= k < |before|
      ensures before[k].id != s.id
    {
      assert Listed(before, before[k].id);
    }
    forall x
      ensures Listed(before + [s], x) <==> Listed(before, x) || s.id == x
    {
      ListedSnoc(before, s, x);
    }
  }

  /** In a consolidated report every entity but the root is consolidated as a
      subsidiary, each once: the structural eliminations miss none. */
  lemma EveryMemberIsConsolidated(rows: seq<EntityRow>, root: int, scope: seq<int>)
    requires Forest(rows) && 0 <= root < |rows| && IsScope(rows, root, scope)
    ensures var subs := SubsidiariesTo(rows, |rows|, scope);
            && C.GoodSubs(subs)
            && forall x :: x in scope && x != root ==> Listed(subs, x)
  {
    SubsidiariesAre(rows, |rows|, scope);
    forall x | x in scope && x != root
      ensures 0 <= x < |rows| && Qualifies(rows, scope, x)
    {
      var n: nat :| Below(rows, root, x, n);
      assert n > 0;
      assert Below(rows, root, rows[x].parent.value, n - 1);
      assert Descends(rows, root, rows[x].parent.value);
    }
  }

  class EntityBook {
    var rows: seq<EntityRow>

    constructor ()
      ensures rows == SEEDED
    {
      rows := SEEDED;
    }

    method CreateEntity(code: string, parent: Option<int>, owned: int) returns (r: Reply)
      modifies this
      ensures r == ReplyTo(old(rows), Op.CreateEntity(code, parent, owned))
      ensures rows == Step(old(rows), Op.CreateEntity(code, parent, owned))
      ensures Forest(old(rows)) ==> Forest(rows)
    {
      if !(0 < owned <= 10000) {
        return BadOwnership;
      }
      for k := 0 to |rows|
        invariant rows == old(rows)
        invariant forall j :: 0 <= j < k ==> rows[j].code != code
      {
        if rows[k].code == code {
          return CodeTaken;
        }
      }
      if parent.Some? && !(0 <= parent.value < |rows|) {
        return NoSuchParent;
      }
      rows := rows + [EntityRow(code, parent, owned)];
      return Done;
    }

    method SetEntityOwnership(id: int, owned: int) returns (r: Reply)
      modifies this
      ensures r == ReplyTo(old(rows), Op.SetEntityOwnership(id, owned))
      ensures rows == Step(old(rows), Op.SetEntityOwnership(id, owned))
      ensures Forest(old(rows)) ==> Forest(rows)
    {
      if !(0 <= id < |rows|) {
        return NotFound;
      }
      if !(0 < owned <= 10000) {
        return BadOwnership;
      }
      rows := rows[id := rows[id].(owned := owned)];
      return Done;
    }

    /** The recursive query: a working table of one generation, replaced by its
        children until none is left.  It ends, and lists each descendant once; an
        unknown root is its own scope. */
    method EntityScope(root: int, consolidated: bool) returns (ids: seq<int>)
      requires Forest(rows)
      ensures !consolidated || !(0 <= root < |rows|) ==> ids == [root]
      ensures consolidated && 0 <= root < |rows| ==> IsScope(rows, root, ids)
    {
      if !consolidated {
        return [root];
      }
      var working := if 0 <= root < |rows| then [root] else [];
      ids := working;
      ghost var n := 0;
      assert forall x :: UpTo(rows, root, x, 0) <==> Below(rows, root, x, 0);
      while working != []
        invariant IsLevel(rows, root, working, n)
        invariant NoRepeats(ids)
        invariant 0 <= root < |rows| || ids == working == []
        invariant forall x :: x in ids <==> UpTo(rows, root, x, n)
        invariant n <= |rows| + 1
        decreases |rows| + 1 - n
      {
        LevelInRange(rows, root, working, n);
        var next := JoinChildren(working);
        NextLevel(rows, root, working, n);
        LevelsApart(rows, root, ids, next, n);
        Disjoint(ids, next);
        GrowScope(rows, root, ids, next, n);
        ids := ids + next;
        working := next;
        n := n + 1;
      }
      ScopeDone(rows, root, ids, n);
      if ids == [] {
        ids := [root];
      }
    }

    method JoinChildren(parents: seq<int>) returns (next: seq<int>)
      ensures next == Generation(rows, parents)
    {
      next := [];
      for i := 0 to |parents|
        invariant next == Generation(rows, parents[..i])
      {
        ghost var before := next;
        for k := 0 to |rows|
          invariant next == before + ChildrenTo(rows, k, parents[i])
        {
          if rows[k].parent == Some(parents[i]) {
            next := next + [k];
          }
        }
        assert parents[..i + 1][..i] == parents[..i];
      }
      assert parents[..|parents|] == parents;
    }
  }

  lemma LevelInRange(rows: seq<EntityRow>, root: int, level: seq<int>, n: nat)
    requires Forest(rows) && IsLevel(rows, root, level, n) && level != [] && 0 <= root
    ensures n < |rows|
  {
    assert level[0] in level;
    Deeper(rows, root, level[0], n);
  }

  lemma LevelsApart(rows: seq<EntityRow>, root: int, ids: seq<int>, next: seq<int>, n: nat)
    requires Forest(rows) && IsLevel(rows, root, next, n + 1)
    requires forall x :: x in ids <==> UpTo(rows, root, x, n)
    ensures forall x :: x in ids ==> x !in next
  {
    forall x, m: nat | m <= n && Below(rows, root, x, m)
      ensures !Below(rows, root, x, n + 1)
    {
      if Below(rows, root, x, n + 1) {
        OneDepth(rows, root, x, m, n + 1);
      }
    }
  }

  lemma GrowScope(rows: seq<EntityRow>, root: int, ids: seq<int>, next: seq<int>, n: nat)
    requires IsLevel(rows, root, next, n + 1)
    requires forall x :: x in ids <==> UpTo(rows, root, x, n)
    ensures forall x :: x in ids + next <==> UpTo(rows, root, x, n + 1)
  {
    forall x
      ensures x in ids + next <==> UpTo(rows, root, x, n + 1)
    {
      assert x in ids + next <==> x in ids || x in next;
      UpToNext(rows, root, x, n);
    }
  }

  lemma UpToNext(rows: seq<EntityRow>, root: int, x: int, n: nat)
    ensures UpTo(rows, root, x, n + 1) <==> UpTo(rows, root, x, n) || Below(rows, root, x, n + 1)
  {
    if UpTo(rows, root, x, n) {
      var m: nat :| m <= n && Below(rows, root, x, m);
      assert m <= n + 1;
    }
  }

  /** Once a level is empty, so is every deeper one. */
  lemma {:induction false} EmptyBelow(rows: seq<EntityRow>, root: int, n: nat, m: nat)
    requires n <= m && forall x :: !Below(rows, root, x, n)
    ensures forall x :: !Below(rows, root, x, m)
  {
    if n < m {
      EmptyBelow(rows, root, n, m - 1);
    }
  }

  lemma ScopeDone(rows: seq<EntityRow>, root: int, ids: seq<int>, n: nat)
    requires IsLevel(rows, root, [], n)
    requires forall x :: x in ids <==> UpTo(rows, root, x, n)
    ensures forall x :: x in ids <==> Descends(rows, root, x)
    ensures 0 <= root < |rows| ==> root in ids
  {
    forall x, m: nat | Below(rows, root, x, m)
      ensures m <= n
    {
      if m > n {
        EmptyBelow(rows, root, n, m);
      }
    }
    assert 0 <= root < |rows| ==> Below(rows, root, root, 0);
  }
}
