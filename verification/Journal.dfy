/** Draft, posted and reversed entries, and superseding a document's postings
    while other callers keep posting, deleting and reversing. */
module Journal {
  import opened Ledger

  type Id = nat

  datatype Status = Draft | Posted | Reversed

  /** lines are the nominal amounts, base the base-currency ones.  Only the base
      amounts of a posted entry have to balance: a settlement in a foreign currency
      balances in base alone. */
  datatype JournalEntry = JournalEntry(status: Status, lines: Entry, base: Entry, reverses: Option<Id>,
                                       source: Option<string>, doc: Option<string>)

  /** Ids are handed out in creation order and never reused. */
  datatype Book = Book(entries: map<Id, JournalEntry>, nextId: Id)

  datatype Error = EntryNotFound | NotReversible | NotDraft | NotPosted | Unbalanced

  function Mirror(lines: Entry): (m: Entry)
    ensures |m| == |lines|
  {
    seq(|lines|, i requires 0 <= i < |lines| => Line(lines[i].account, lines[i].credit, lines[i].debit))
  }

  /** The reversing insert names no base columns, so they take their default. */
  function NoBase(lines: Entry): (m: Entry)
    ensures |m| == |lines|
  {
    seq(|lines|, i requires 0 <= i < |lines| => Line(lines[i].account, 0, 0))
  }

  datatype Op =
    | Create(status: Status, lines: Entry, base: Entry, source: Option<string>, doc: Option<string>)
    | Post(id: Id, periodOpen: bool)
    | Delete(id: Id)
    | Reverse(id: Id)

  function Refusal(b: Book, op: Op): Option<Error> {
    match op
    case Create(status, lines, base, _, _) =>
      if status.Reversed? then Some(NotPosted)
      else if status.Posted? && !Balanced(base) then Some(Unbalanced) else None
    case Post(id, periodOpen) =>
      if id !in b.entries then Some(EntryNotFound)
      else if !b.entries[id].status.Draft? || !periodOpen then Some(NotPosted)
      else if !Balanced(b.entries[id].base) then Some(Unbalanced) else None
    case Delete(id) =>
      if id !in b.entries then Some(EntryNotFound)
      else if !b.entries[id].status.Draft? then Some(NotDraft) else None
    case Reverse(id) =>
      if id !in b.entries then Some(EntryNotFound)
      else if !b.entries[id].status.Posted? then Some(NotReversible) else None
  }

  function ReversalOf(e: JournalEntry, id: Id): JournalEntry {
    JournalEntry(Posted, Mirror(e.lines), NoBase(e.lines), Some(id), None, None)
  }

  /** One transaction; a refused one changes nothing. */
  function Apply(b: Book, op: Op): Book {
    if Refusal(b, op).Some? then b else
    match op
    case Create(status, lines, base, source, doc) =>
      Book(b.entries[b.nextId := JournalEntry(status, lines, base, None, source, doc)], b.nextId + 1)
    case Post(id, _) =>
      b.(entries := b.entries[id := b.entries[id].(status := Posted)])
    case Delete(id) =>
      b.(entries := b.entries - {id})
    case Reverse(id) =>
      Book(b.entries[id := b.entries[id].(status := Reversed)][b.nextId := ReversalOf(b.entries[id], id)],
           b.nextId + 1)
  }

  function ApplyAll(b: Book, ops: seq<Op>): Book {
    if ops == [] then b else Apply(ApplyAll(b, ops[..|ops| - 1]), ops[|ops| - 1])
  }

  const EMPTY := Book(map[], 0)

  // ----- invariants

  /** r is an entry that names id as the one it reverses. */
  predicate Names(b: Book, r: Id, id: Id) {
    r in b.entries && b.entries[r].reverses == Some(id)
  }

  ghost predicate Valid(b: Book) {
    && (forall id :: id in b.entries ==>
          id < b.nextId && (!b.entries[id].status.Draft? ==> Balanced(b.entries[id].base)))
    && (forall id :: id in b.entries && b.entries[id].status.Reversed? ==> exists r :: Names(b, r, id))
    && (forall r, q, id :: Names(b, r, id) && Names(b, q, id) ==> r == q)
    && (forall r, id :: Names(b, r, id) ==> NamedValid(b, r, id))
  }

  ghost predicate NamedValid(b: Book, r: Id, id: Id)
    requires r in b.entries
  {
    && id in b.entries && id < r
    && b.entries[id].status.Reversed? && !b.entries[r].status.Draft?
    && b.entries[r].lines == Mirror(b.entries[id].lines) && b.entries[r].base == NoBase(b.entries[id].lines)
    && b.entries[r].source.None? && b.entries[r].doc.None?
  }

  lemma {:induction false} MirrorTo(lines: Entry, n: nat, a: Account)
    requires n <= |lines|
    ensures NetTo(Mirror(lines), n, a) == -NetTo(lines, n, a) && ExcessTo(Mirror(lines), n) == -ExcessTo(lines, n)
    ensures NetTo(NoBase(lines), n, a) == 0 && ExcessTo(NoBase(lines), n) == 0
  {
    if n > 0 {
      MirrorTo(lines, n - 1, a);
    }
  }

  lemma MirrorNet(lines: Entry, a: Account)
    ensures Net(Mirror(lines), a) == -Net(lines, a)
    ensures Excess(Mirror(lines)) == -Excess(lines)
    ensures Net(NoBase(lines), a) == 0 && Excess(NoBase(lines)) == 0
  {
    MirrorTo(lines, |lines|, a);
  }

  lemma ReverseKeepsValid(b: Book, id: Id)
    requires Valid(b) && Refusal(b, Reverse(id)).None?
    ensures Valid(Apply(b, Reverse(id)))
  {
    var t, m := Apply(b, Reverse(id)), b.nextId;
    MirrorNet(b.entries[id].lines, Cash);
    assert forall x :: x in b.entries && x != id ==> t.entries[x] == b.entries[x];
    forall r, x
      ensures Names(t, r, x) <==> (r == m && x == id) || Names(b, r, x)
    {
    }
    forall x | x in t.entries && t.entries[x].status.Reversed?
      ensures exists r :: Names(t, r, x)
    {
      if x == id {
        assert Names(t, m, id);
      } else {
        var r :| Names(b, r, x);
        assert Names(t, r, x);
      }
    }
    forall r, x | Names(t, r, x)
      ensures NamedValid(t, r, x)
    {
      assert Names(b, r, x) ==> NamedValid(b, r, x);
    }
  }

  lemma ApplyKeepsValid(b: Book, op: Op)
    requires Valid(b)
    ensures Valid(Apply(b, op))
  {
    var t := Apply(b, op);
    if Refusal(b, op).None? {
      if op.Reverse? {
        ReverseKeepsValid(b, op.id);
      } else {
        forall r, id
          ensures Names(t, r, id) <==> Names(b, r, id)
        {
          assert Names(b, r, id) ==> NamedValid(b, r, id);
        }
        forall r, id | Names(t, r, id)
          ensures NamedValid(t, r, id)
        {
          assert NamedValid(b, r, id);
        }
        forall id | id in t.entries && t.entries[id].status.Reversed?
          ensures exists r :: Names(t, r, id)
        {
          var r :| Names(b, r, id);
          assert Names(t, r, id);
        }
      }
    }
  }

  lemma {:induction false} ApplyAllKeepsValid(b: Book, ops: seq<Op>)
    requires Valid(b)
    ensures Valid(ApplyAll(b, ops))
  {
    if ops != [] {
      ApplyAllKeepsValid(b, ops[..|ops| - 1]);
      ApplyKeepsValid(ApplyAll(b, ops[..|ops| - 1]), ops[|ops| - 1]);
    }
  }

  /** In every reachable book an entry is reversed exactly when one entry, and
      only one, names it. */
  lemma ReversedIffNamedOnce(ops: seq<Op>, id: Id)
    ensures var b := ApplyAll(EMPTY, ops);
            id in b.entries ==>
              (b.entries[id].status.Reversed? <==>
               exists r :: Names(b, r, id) && forall q :: Names(b, q, id) ==> q == r)
  {
    var b := ApplyAll(EMPTY, ops);
    ApplyAllKeepsValid(EMPTY, ops);
    if id in b.entries && b.entries[id].status.Reversed? {
      var r :| Names(b, r, id);
    }
    if r :| Names(b, r, id) {
      assert NamedValid(b, r, id);
    }
  }

  // ----- reversal chains

  /** The entry, its reversal, the reversal of that, and so on to the last. */
  ghost function Chain(b: Book, id: Id): (c: seq<Id>)
    requires Valid(b) && id in b.entries
    ensures c != [] && c[0] == id
    ensures forall k :: 0 <= k < |c| ==> c[k] in b.entries
    ensures forall k :: 0 < k < |c| ==> Names(b, c[k], c[k - 1])
    ensures forall k :: 0 <= k < |c| ==> (b.entries[c[k]].status.Reversed? <==> k + 1 < |c|)
    decreases b.nextId - id
  {
    if b.entries[id].status.Reversed? then
      var r :| Names(b, r, id);
      assert NamedValid(b, r, id);
      var rest := Chain(b, r);
      var c := [id] + rest;
      assert forall k :: 0 < k < |c| ==> c[k] == rest[k - 1];
      c
    else [id]
  }

  function LinesOf(b: Book, c: seq<Id>): (ls: seq<Entry>)
    requires forall k :: 0 <= k < |c| ==> c[k] in b.entries
    ensures |ls| == |c| && forall k :: 0 <= k < |c| ==> ls[k] == b.entries[c[k]].lines
  {
    seq(|c|, k requires 0 <= k < |c| => b.entries[c[k]].lines)
  }

  /** What a base-currency report shows of each entry: posted ones only. */
  function BaseOf(b: Book, c: seq<Id>): (ls: seq<Entry>)
    requires forall k :: 0 <= k < |c| ==> c[k] in b.entries
    ensures |ls| == |c|
    ensures forall k :: 0 <= k < |c| ==> ls[k] == if b.entries[c[k]].status.Posted? then b.entries[c[k]].base else []
  {
    seq(|c|, k requires 0 <= k < |c| => if b.entries[c[k]].status.Posted? then b.entries[c[k]].base else [])
  }

  /** Nominal effect of a list of entries, counting posted and reversed alike. */
  function NominalOf(b: Book, c: seq<Id>, a: Account): int
    requires forall k :: 0 <= k < |c| ==> c[k] in b.entries
  {
    Balance(LinesOf(b, c), a)
  }

  function ReportedBase(b: Book, c: seq<Id>, a: Account): int
    requires forall k :: 0 <= k < |c| ==> c[k] in b.entries
  {
    Balance(BaseOf(b, c), a)
  }

  predicate MirrorsPrevious(ls: seq<Entry>, k: int) {
    0 < k < |ls| && ls[k] == Mirror(ls[k - 1])
  }

  lemma {:induction false} Alternating(ls: seq<Entry>, a: Account)
    requires ls != [] && forall k :: 0 < k < |ls| ==> MirrorsPrevious(ls, k)
    ensures Net(ls[|ls| - 1], a) == if |ls| % 2 == 1 then Net(ls[0], a) else -Net(ls[0], a)
    ensures Balance(ls, a) == if |ls| % 2 == 1 then Net(ls[0], a) else 0
  {
    var n := |ls| - 1;
    if n == 0 {
      assert ls[..0] == [];
    } else {
      forall k | 0 < k < n
        ensures MirrorsPrevious(ls[..n], k)
      {
        assert MirrorsPrevious(ls, k);
      }
      Alternating(ls[..n], a);
      assert MirrorsPrevious(ls, n);
      MirrorNet(ls[n - 1], a);
    }
  }

  lemma {:induction false} OnlyTheLastCounts(ls: seq<Entry>, a: Account)
    requires ls != [] && forall k :: 0 <= k < |ls| - 1 ==> ls[k] == []
    ensures Balance(ls, a) == Net(ls[|ls| - 1], a)
  {
    var n := |ls| - 1;
    if n == 0 {
      assert ls[..0] == [];
    } else {
      OnlyTheLastCounts(ls[..n], a);
    }
  }

  /** A chain puts its first entry's amounts on every account when it has an odd
      number of entries, and nothing when it has an even number. */
  lemma ChainNominal(b: Book, id: Id, a: Account)
    requires Valid(b) && id in b.entries
    ensures var c := Chain(b, id);
            NominalOf(b, c, a) == if |c| % 2 == 1 then Net(b.entries[id].lines, a) else 0
  {
    var c := Chain(b, id);
    forall k | 0 < k < |c|
      ensures MirrorsPrevious(LinesOf(b, c), k)
    {
      assert NamedValid(b, c[k], c[k - 1]);
    }
    Alternating(LinesOf(b, c), a);
  }

  /** Reversals carry no base amounts, so a base-currency report shows a posted
      entry until it is first reversed and never again. */
  lemma ChainReported(b: Book, id: Id, a: Account)
    requires Valid(b) && id in b.entries && !b.entries[id].status.Draft?
    ensures ReportedBase(b, Chain(b, id), a) == if b.entries[id].status.Posted? then Net(b.entries[id].base, a) else 0
  {
    var c := Chain(b, id);
    var n := |c| - 1;
    OnlyTheLastCounts(BaseOf(b, c), a);
    if n > 0 {
      assert NamedValid(b, c[n], c[n - 1]);
      MirrorNet(b.entries[c[n - 1]].lines, a);
    }
  }

  /** It agrees with the nominal effect exactly when the entry is still posted,
      or its chain is even, or the entry leaves the account alone: reversing a
      reversal restores the nominal amounts but not the base ones. */
  lemma BaseReportAgreesIff(b: Book, id: Id, a: Account)
    requires Valid(b) && id in b.entries && !b.entries[id].status.Draft?
    requires b.entries[id].base == b.entries[id].lines
    ensures var c := Chain(b, id);
            ReportedBase(b, c, a) == NominalOf(b, c, a)
            <==> b.entries[id].status.Posted? || |c| % 2 == 0 || Net(b.entries[id].lines, a) == 0
  {
    var c := Chain(b, id);
    ChainReported(b, id, a);
    ChainNominal(b, id, a);
    assert b.entries[c[0]].status.Reversed? <==> 1 < |c|;
  }

  /** Such a book, from the first insert on: a sale is posted, reversed, and the
      reversal reversed.  Nominally the sale stands again; the report shows none. */
  lemma ReversedReversalIsLost(amount: int)
    requires amount != 0
    ensures var sale := Pair(Cash, Revenue, amount);
            var b := ApplyAll(EMPTY, [Create(Posted, sale, sale, None, None), Reverse(0), Reverse(1)]);
            && Valid(b) && 0 in b.entries && Chain(b, 0) == [0, 1, 2]
            && NominalOf(b, [0, 1, 2], Cash) == amount && ReportedBase(b, [0, 1, 2], Cash) == 0
  {
    var sale := Pair(Cash, Revenue, amount);
    var create := Create(Posted, sale, sale, None, None);
    hide Chain, NominalOf, ReportedBase, Net, Excess, Valid, ApplyAll;
    var b1, b2 := Apply(EMPTY, create), Apply(Apply(EMPTY, create), Reverse(0));
    PairNet(Cash, Revenue, amount, Cash);
    NothingDone(EMPTY);
    ApplyAllSnoc(EMPTY, [], create);
    ApplyAllSnoc(EMPTY, [create], Reverse(0));
    ApplyAllSnoc(EMPTY, [create, Reverse(0)], Reverse(1));
    assert [] + [create] == [create] && [create] + [Reverse(0)] == [create, Reverse(0)];
    var ops := [create, Reverse(0), Reverse(1)];
    assert [create, Reverse(0)] + [Reverse(1)] == ops;
    EmptyValid();
    ApplyAllKeepsValid(EMPTY, ops);
    var b := Apply(b2, Reverse(1));
    ChainOfThree(b);
    ChainNominal(b, 0, Cash);
    ChainReported(b, 0, Cash);
  }

  lemma EmptyValid()
    ensures Valid(EMPTY)
  {
  }

  lemma ChainOfThree(b: Book)
    requires Valid(b) && 0 in b.entries && Names(b, 1, 0) && Names(b, 2, 1) && b.entries[2].status.Posted?
    ensures Chain(b, 0) == [0, 1, 2]
  {
    var c := Chain(b, 0);
    assert NamedValid(b, 1, 0) && NamedValid(b, 2, 1);
    assert Names(b, c[1], 0);
    assert Names(b, c[2], 1);
  }

  // ----- what other callers can have done in the meantime

  function Rank(s: Status): nat {
    match s case Draft => 0 case Posted => 1 case Reversed => 2
  }

  /** Entries only move forward: lines never change, an id that is gone stays
      gone, only drafts disappear. */
  ghost predicate Later(b: Book, t: Book) {
    && b.nextId <= t.nextId
    && (forall id :: id < b.nextId && id in t.entries ==> id in b.entries)
    && (forall id :: id in b.entries && id in t.entries ==>
          t.entries[id].(status := b.entries[id].status) == b.entries[id]
          && Rank(b.entries[id].status) <= Rank(t.entries[id].status))
    && (forall id :: id in b.entries && !b.entries[id].status.Draft? ==> id in t.entries)
  }

  predicate Bounded(b: Book) {
    forall id :: id in b.entries ==> id < b.nextId
  }

  lemma ApplyIsLater(b: Book, op: Op)
    requires Bounded(b)
    ensures Bounded(Apply(b, op)) && Later(b, Apply(b, op))
  {
  }

  lemma ApplyAllSnoc(b: Book, ops: seq<Op>, op: Op)
    ensures ApplyAll(b, ops + [op]) == Apply(ApplyAll(b, ops), op)
  {
    assert (ops + [op])[..|ops|] == ops;
  }

  lemma {:induction false} ApplyAllConcat(b: Book, xs: seq<Op>, ys: seq<Op>)
    ensures ApplyAll(ApplyAll(b, xs), ys) == ApplyAll(b, xs + ys)
  {
    if ys == [] {
      assert xs + ys == xs;
    } else {
      ApplyAllConcat(b, xs, ys[..|ys| - 1]);
      assert (xs + ys)[..|xs + ys| - 1] == xs + ys[..|ys| - 1];
    }
  }

  lemma LaterTransitive(b: Book, t: Book, u: Book)
    requires Bounded(b) && Later(b, t) && Later(t, u)
    ensures Later(b, u)
  {
    forall id | id in b.entries && id in u.entries
      ensures u.entries[id].(status := b.entries[id].status) == b.entries[id]
              && Rank(b.entries[id].status) <= Rank(u.entries[id].status)
    {
      assert id < b.nextId <= t.nextId;
      assert id in t.entries;
    }
  }

  /** Nothing of the entry is live any more: deleted, or cancelled by a mirror. */
  predicate Settled(b: Book, id: Id) {
    id !in b.entries || b.entries[id].status.Reversed?
  }

  lemma SettledIsStable(b: Book, t: Book, id: Id)
    requires Later(b, t) && id < b.nextId && Settled(b, id)
    ensures Settled(t, id)
  {
  }

  /** A settled entry and its mirror cancel on every account, and so does its
      whole chain unless the mirror has been reversed. */
  lemma SettledCancels(b: Book, id: Id, a: Account)
    requires Valid(b) && id in b.entries && Settled(b, id)
    ensures exists r :: Names(b, r, id) && NominalOf(b, [id, r], a) == 0
                        && (b.entries[r].status.Posted? ==> NominalOf(b, Chain(b, id), a) == 0)
  {
    var r :| Names(b, r, id);
    assert NamedValid(b, r, id);
    assert MirrorsPrevious(LinesOf(b, [id, r]), 1);
    Alternating(LinesOf(b, [id, r]), a);
    if b.entries[r].status.Posted? {
      var c := Chain(b, id);
      assert Names(b, c[1], id);
      ChainNominal(b, id, a);
    }
  }

  datatype SourceEntry = SourceEntry(id: Id, status: Status)

  predicate Matches(e: JournalEntry, source: string, doc: string) {
    e.source == Some(source) && e.doc == Some(doc) && !e.status.Reversed?
  }

  ghost predicate Lists(b: Book, source: string, doc: string, list: seq<SourceEntry>) {
    && (forall k :: 0 <= k < |list| ==>
          list[k].id in b.entries && Matches(b.entries[list[k].id], source, doc)
          && list[k].status == b.entries[list[k].id].status)
    && (forall k, m :: 0 <= k < m < |list| ==> list[m].id < list[k].id)
    && (forall id :: id in b.entries && Matches(b.entries[id], source, doc) ==>
          exists k :: 0 <= k < |list| && list[k].id == id)
  }

  /** Every listed entry is deleted or reversed. */
  ghost predicate Cleared(b: Book, list: seq<SourceEntry>) {
    forall k :: 0 <= k < |list| ==> Settled(b, list[k].id)
  }

  /** The two lists tell the truth, and so have no entry in common. */
  ghost predicate Reported(b: Book, t: Book, deleted: seq<Id>, reversed: seq<Id>) {
    && (forall x :: x in reversed ==> x !in deleted)
    && (forall d :: d in deleted ==> d in b.entries && d !in t.entries)
    && (forall r :: r in reversed ==> r in t.entries && t.entries[r].status.Reversed?)
  }

  /** Entries of other documents are as they were; what is new reverses an entry
      of this one. */
  ghost predicate Untouched(b: Book, t: Book, source: string, doc: string) {
    && (forall x :: x in b.entries && !Matches(b.entries[x], source, doc) ==>
          x in t.entries && t.entries[x] == b.entries[x])
    && (forall x :: x in t.entries && x !in b.entries ==>
          exists y :: t.entries[x].reverses == Some(y) && y in b.entries && Matches(b.entries[y], source, doc))
  }

  lemma LaterKeepsReported(b: Book, t: Book, u: Book, deleted: seq<Id>, reversed: seq<Id>)
    requires Bounded(b) && Later(b, t) && Later(t, u) && Reported(b, t, deleted, reversed)
    ensures Reported(b, u, deleted, reversed)
  {
    forall d | d in deleted
      ensures d !in u.entries
    {
      assert d < b.nextId <= t.nextId;
    }
  }

  /** The call's own operations: a delete or a reversal of a listed entry. */
  predicate Own(list: seq<SourceEntry>, op: Op) {
    exists k :: 0 <= k < |list| && (op == Delete(list[k].id) || op == Reverse(list[k].id))
  }

  predicate ByOthers(others: seq<seq<Op>>, op: Op) {
    exists k :: 0 <= k < |others| && op in others[k]
  }

  /** Everything that happened was done by another caller or is the call's own. */
  predicate Accounted(trace: seq<Op>, list: seq<SourceEntry>, others: seq<seq<Op>>) {
    forall k :: 0 <= k < |trace| ==> Own(list, trace[k]) || ByOthers(others, trace[k])
  }

  predicate Listed(ids: seq<Id>, list: seq<SourceEntry>) {
    forall id :: id in ids ==> exists k :: 0 <= k < |list| && list[k].id == id
  }

  lemma MoreAccounted(trace: seq<Op>, steps: seq<Op>, list: seq<SourceEntry>, others: seq<seq<Op>>, i: nat,
                      before: seq<Op>, between: seq<Op>)
    requires Accounted(trace, list, others) && i < |list|
    requires before == [] || before in others
    requires between == [] || between in others
    requires forall k :: 0 <= k < |steps| ==>
               steps[k] in before || steps[k] in between || steps[k] == Delete(list[i].id) || steps[k] == Reverse(list[i].id)
    ensures Accounted(trace + steps, list, others)
  {
    var all := trace + steps;
    forall k | 0 <= k < |all|
      ensures Own(list, all[k]) || ByOthers(others, all[k])
    {
      if k >= |trace| {
        assert all[k] == steps[k - |trace|];
      }
    }
  }

  /** How far a supersede has come: the first i listed entries are settled. */
  ghost predicate Progress(b: Book, t: Book, list: seq<SourceEntry>, i: nat, deleted: seq<Id>, reversed: seq<Id>) {
    && i <= |list| && Later(b, t)
    && Cleared(t, list[..i]) && Reported(b, t, deleted, reversed)
  }

  function With(ids: seq<Id>, id: Id, add: bool): seq<Id> {
    if add then ids + [id] else ids
  }

  lemma Advance(b: Book, t: Book, u: Book, list: seq<SourceEntry>, i: nat, deleted: seq<Id>, reversed: seq<Id>,
                outcome: Option<Status>)
    requires Bounded(b) && Bounded(t) && Later(t, u) && Progress(b, t, list, i, deleted, reversed) && i < |list|
    requires forall k :: 0 <= k < |list| ==> list[k].id in b.entries
    requires Settled(u, list[i].id)
    requires outcome == Some(Draft) ==> list[i].id !in u.entries && list[i].id in t.entries
    requires outcome == Some(Reversed) ==> list[i].id in u.entries && u.entries[list[i].id].status.Reversed?
    ensures Progress(b, u, list, i + 1, With(deleted, list[i].id, outcome == Some(Draft)),
                     With(reversed, list[i].id, outcome == Some(Reversed)))
  {
    LaterTransitive(b, t, u);
    LaterKeepsReported(b, t, u, deleted, reversed);
    forall k | 0 <= k < i + 1
      ensures Settled(u, list[k].id)
    {
      if k < i {
        assert Settled(t, list[..i][k].id);
        SettledIsStable(t, u, list[k].id);
      }
    }
  }

  lemma StillUntouched(b: Book, t: Book, u: Book, source: string, doc: string, id: Id)
    requires Untouched(b, t, source, doc) && OnlyChanged(t, u, id)
    requires id in b.entries && Matches(b.entries[id], source, doc)
    ensures Untouched(b, u, source, doc)
  {
    forall x | x in u.entries && x !in b.entries
      ensures exists y :: u.entries[x].reverses == Some(y) && y in b.entries && Matches(b.entries[y], source, doc)
    {
      if x in t.entries {
        var y :| t.entries[x].reverses == Some(y) && y in b.entries && Matches(b.entries[y], source, doc);
        assert u.entries[x] == t.entries[x];
      }
    }
  }

  /** Only the entry numbered id differs; anything new reverses it. */
  ghost predicate OnlyChanged(b: Book, t: Book, id: Id) {
    && (forall x :: x in b.entries && x != id ==> x in t.entries && t.entries[x] == b.entries[x])
    && (forall x :: x in t.entries && x !in b.entries ==> t.entries[x].reverses == Some(id))
  }

  lemma OnlyChangedTwice(b: Book, t: Book, u: Book, id: Id)
    requires id < b.nextId && Later(b, t) && OnlyChanged(b, t, id) && OnlyChanged(t, u, id)
    ensures OnlyChanged(b, u, id)
  {
  }

  lemma NothingDone(b: Book)
    ensures ApplyAll(b, []) == b && Later(b, b) && forall id :: OnlyChanged(b, b, id)
  {
  }

  /** Where a supersede starts. */
  lemma StartsClean(b: Book, list: seq<SourceEntry>, others: seq<seq<Op>>, source: string, doc: string)
    requires Lists(b, source, doc, list)
    ensures AllThere(b, list, 0) && Collected(list, 0, [], [])
    ensures ApplyAll(b, []) == b && Progress(b, b, list, 0, [], []) && Untouched(b, b, source, doc)
    ensures Accounted([], list, others) && Listed([], list)
  {
  }

  predicate AllThere(t: Book, list: seq<SourceEntry>, i: nat) {
    forall k :: i <= k < |list| ==> list[k].id in t.entries && t.entries[list[k].id].status == list[k].status
  }

  /** Of the first i listed entries, the drafts were deleted and the others reversed. */
  predicate Collected(list: seq<SourceEntry>, i: nat, deleted: seq<Id>, reversed: seq<Id>) {
    forall k :: 0 <= k < |list| && k < i ==>
      if list[k].status == Draft then list[k].id in deleted else list[k].id in reversed
  }

  lemma AllCollected(list: seq<SourceEntry>, deleted: seq<Id>, reversed: seq<Id>)
    requires Collected(list, |list|, deleted, reversed)
    ensures forall k :: 0 <= k < |list| ==>
              if list[k].status == Draft then list[k].id in deleted else list[k].id in reversed
  {
  }

  lemma CollectsOne(list: seq<SourceEntry>, i: nat, deleted: seq<Id>, reversed: seq<Id>, outcome: Option<Status>)
    requires Collected(list, i, deleted, reversed) && i < |list|
    requires outcome == Some(if list[i].status == Draft then Draft else Reversed)
    ensures Collected(list, i + 1, With(deleted, list[i].id, outcome == Some(Draft)),
                      With(reversed, list[i].id, outcome == Some(Reversed)))
  {
  }

  /** What the i-th listed entry is known to be when its turn comes. */
  lemma ItsTurn(b: Book, t: Book, source: string, doc: string, list: seq<SourceEntry>, i: nat, deleted: seq<Id>, reversed: seq<Id>)
    requires Bounded(b) && Lists(b, source, doc, list) && Progress(b, t, list, i, deleted, reversed) && i < |list|
    ensures list[i].id in b.entries && Matches(b.entries[list[i].id], source, doc) && list[i].id < t.nextId
    ensures list[i].status != Reversed
    ensures list[i].id in t.entries && !list[i].status.Draft? ==> !t.entries[list[i].id].status.Draft?
    ensures Later(b, t) && Reported(b, t, deleted, reversed)
    ensures forall k :: 0 <= k < |list| ==> list[k].id in b.entries
  {
  }

  lemma StillThere(b: Book, t: Book, u: Book, source: string, doc: string, list: seq<SourceEntry>, i: nat)
    requires Lists(b, source, doc, list) && i < |list| && AllThere(t, list, i) && OnlyChanged(t, u, list[i].id)
    ensures AllThere(u, list, i + 1)
  {
  }

  lemma TurnThere(t: Book, list: seq<SourceEntry>, i: nat)
    requires i < |list|
    ensures AllThere(t, list, i) ==> list[i].id in t.entries && t.entries[list[i].id].status == list[i].status
  {
  }

  lemma AllSettled(b: Book, t: Book, list: seq<SourceEntry>, deleted: seq<Id>, reversed: seq<Id>)
    requires Progress(b, t, list, |list|, deleted, reversed)
    ensures Cleared(t, list) && Reported(b, t, deleted, reversed) && Later(b, t)
  {
    assert list[..|list|] == list;
  }

  /** In terms of the document: nothing of it is draft or posted any more. */
  lemma DocumentSettled(b: Book, t: Book, source: string, doc: string, list: seq<SourceEntry>)
    requires Lists(b, source, doc, list) && Cleared(t, list) && Later(b, t)
    ensures forall id :: (id in b.entries && b.entries[id].source == Some(source) && b.entries[id].doc == Some(doc)
                          && id in t.entries) ==> t.entries[id].status == Reversed
  {
    hide Later;
    LaterReversed(b, t);
    forall id | id in b.entries && Matches(b.entries[id], source, doc) && id in t.entries
      ensures t.entries[id].status == Reversed
    {
      var k :| 0 <= k < |list| && list[k].id == id;
      assert Settled(t, list[k].id);
    }
  }

  lemma LaterReversed(b: Book, t: Book)
    requires Later(b, t)
    ensures forall id :: id in b.entries && id in t.entries && b.entries[id].status == Reversed ==>
              t.entries[id].status == Reversed
  {
  }

  lemma OthersUntouched(b: Book, t: Book, source: string, doc: string)
    requires Untouched(b, t, source, doc)
    ensures forall id :: (id in b.entries
                          && (b.entries[id].source != Some(source) || b.entries[id].doc != Some(doc)
                              || b.entries[id].status == Reversed)) ==>
              id in t.entries && t.entries[id] == b.entries[id]
  {
    assert forall id :: id in b.entries && !Matches(b.entries[id], source, doc) ==>
             id in t.entries && t.entries[id] == b.entries[id];
  }

  lemma StillListed(ids: seq<Id>, list: seq<SourceEntry>, i: nat, add: bool)
    requires Listed(ids, list) && i < |list|
    ensures Listed(With(ids, list[i].id, add), list)
  {
  }

  class Journal {
    var entries: map<Id, JournalEntry>
    var nextId: Id

    function Contents(): Book
      reads this
    {
      Book(entries, nextId)
    }

    constructor ()
      ensures Contents() == EMPTY
    {
      entries, nextId := map[], 0;
    }

    method Insert(status: Status, lines: Entry, base: Entry, source: Option<string>, doc: Option<string>)
      returns (err: Option<Error>)
      modifies this
      ensures err == Refusal(old(Contents()), Create(status, lines, base, source, doc))
      ensures Contents() == Apply(old(Contents()), Create(status, lines, base, source, doc))
    {
      if status.Reversed? {
        return Some(NotPosted);
      }
      if status.Posted? && !Balanced(base) {
        return Some(Unbalanced);
      }
      entries := entries[nextId := JournalEntry(status, lines, base, None, source, doc)];
      nextId := nextId + 1;
      return None;
    }

    method MarkEntryPosted(id: Id, periodOpen: bool) returns (err: Option<Error>)
      modifies this
      ensures err == Refusal(old(Contents()), Post(id, periodOpen))
      ensures Contents() == Apply(old(Contents()), Post(id, periodOpen))
    {
      if id !in entries {
        return Some(EntryNotFound);
      }
      if !entries[id].status.Draft? || !periodOpen {
        return Some(NotPosted);
      }
      if !Balanced(entries[id].base) {
        return Some(Unbalanced);
      }
      entries := entries[id := entries[id].(status := Posted)];
      return None;
    }

    method DeleteDraftEntry(id: Id) returns (err: Option<Error>)
      modifies this
      ensures err == Refusal(old(Contents()), Delete(id))
      ensures Contents() == Apply(old(Contents()), Delete(id))
    {
      if id !in entries {
        return Some(EntryNotFound);
      }
      if !entries[id].status.Draft? {
        return Some(NotDraft);
      }
      entries := entries - {id};
      return None;
    }

    method ReverseEntry(id: Id) returns (err: Option<Error>)
      modifies this
      ensures err == Refusal(old(Contents()), Reverse(id))
      ensures Contents() == Apply(old(Contents()), Reverse(id))
    {
      if id !in entries {
        return Some(EntryNotFound);
      }
      if !entries[id].status.Posted? {
        return Some(NotReversible);
      }
      var lines := entries[id].lines;
      var reversed: Entry, base: Entry := [], [];
      for i := 0 to |lines|
        invariant reversed == Mirror(lines)[..i] && base == NoBase(lines)[..i]
      {
        reversed := reversed + [Line(lines[i].account, lines[i].credit, lines[i].debit)];
        base := base + [Line(lines[i].account, 0, 0)];
      }
      assert reversed == Mirror(lines) && base == NoBase(lines);
      var mirror := JournalEntry(Posted, reversed, base, Some(id), None, None);
      entries := entries[id := entries[id].(status := Reversed)];
      entries := entries[nextId := mirror];
      nextId := nextId + 1;
      return None;
    }

    /** Other callers' transactions, in the order they commit. */
    method Interleave(ops: seq<Op>)
      requires Bounded(Contents())
      modifies this
      ensures Contents() == ApplyAll(old(Contents()), ops)
      ensures Bounded(Contents()) && Later(old(Contents()), Contents())
    {
      for i := 0 to |ops|
        invariant Contents() == ApplyAll(old(Contents()), ops[..i])
        invariant Bounded(Contents()) && Later(old(Contents()), Contents())
      {
        ghost var before := Contents();
        var err;
        match ops[i] {
          case Create(status, lines, base, source, doc) => err := Insert(status, lines, base, source, doc);
          case Post(id, periodOpen) => err := MarkEntryPosted(id, periodOpen);
          case Delete(id) => err := DeleteDraftEntry(id);
          case Reverse(id) => err := ReverseEntry(id);
        }
        assert ops[..i + 1][..i] == ops[..i];
        ApplyIsLater(before, ops[i]);
        LaterTransitive(old(Contents()), before, Contents());
      }
      assert ops[..|ops|] == ops;
    }

    method ListEntriesBySource(source: string, doc: string) returns (list: seq<SourceEntry>)
      requires Bounded(Contents())
      ensures Lists(Contents(), source, doc, list)
      ensures forall k :: 0 <= k < |list| ==> list[k].id in entries && list[k].status == entries[list[k].id].status
      ensures forall k, m :: 0 <= k < m < |list| ==> list[m].id < list[k].id
      ensures forall id :: id in entries ==>
                ((entries[id].source == Some(source) && entries[id].doc == Some(doc) && entries[id].status != Reversed)
                 <==> exists k :: 0 <= k < |list| && list[k].id == id)
    {
      list := [];
      var id := nextId;
      while id > 0
        invariant 0 <= id <= nextId
        invariant forall k :: 0 <= k < |list| ==>
                    id <= list[k].id && list[k].id in entries && Matches(entries[list[k].id], source, doc)
                    && list[k].status == entries[list[k].id].status
        invariant forall k, m :: 0 <= k < m < |list| ==> list[m].id < list[k].id
        invariant forall i :: id <= i && i in entries && Matches(entries[i], source, doc) ==>
                    exists k :: 0 <= k < |list| && list[k].id == i
      {
        id := id - 1;
        if id in entries && Matches(entries[id], source, doc) {
          ghost var before := list;
          list := list + [SourceEntry(id, entries[id].status)];
          assert list[|before|].id == id;
          assert forall k :: 0 <= k < |before| ==> list[k] == before[k];
        }
      }
    }

    /** Other callers commit, then a listed draft is deleted. */
    method DeleteAfter(id: Id, before: seq<Op>) returns (err: Option<Error>)
      requires Bounded(Contents()) && id < nextId
      modifies this
      ensures Contents() == ApplyAll(old(Contents()), before + [Delete(id)])
      ensures Bounded(Contents()) && Later(old(Contents()), Contents())
      ensures err.None? ==> id !in entries && id in old(entries)
      ensures before == [] && id in old(entries) && old(entries)[id].status == Draft ==> err.None?
      ensures err == Some(EntryNotFound) ==> id !in entries && (before == [] ==> id !in old(entries))
      ensures err.Some? && err != Some(EntryNotFound) ==> id in entries && !entries[id].status.Draft?
      ensures before == [] ==> OnlyChanged(old(Contents()), Contents(), id)
    {
      Interleave(before);
      ghost var mid := Contents();
      err := DeleteDraftEntry(id);
      ApplyAllSnoc(old(Contents()), before, Delete(id));
      ApplyIsLater(mid, Delete(id));
      LaterTransitive(old(Contents()), mid, Contents());
    }

    /** Other callers commit, then a listed entry is reversed. */
    method ReverseAfter(id: Id, before: seq<Op>) returns (err: Option<Error>)
      requires Bounded(Contents()) && id < nextId
      requires id in entries ==> !entries[id].status.Draft?
      modifies this
      ensures Contents() == ApplyAll(old(Contents()), before + [Reverse(id)])
      ensures Bounded(Contents()) && Later(old(Contents()), Contents())
      ensures err.None? || err == Some(NotReversible) ==> Settled(Contents(), id)
      ensures err.None? ==> id in entries && entries[id].status.Reversed?
      ensures before == [] && id in old(entries) && old(entries)[id].status == Posted ==> err.None?
      ensures err.Some? && err != Some(NotReversible) ==>
                err == Some(EntryNotFound) && id !in entries && (before == [] ==> id !in old(entries))
      ensures before == [] ==> OnlyChanged(old(Contents()), Contents(), id)
    {
      Interleave(before);
      ghost var mid := Contents();
      err := ReverseEntry(id);
      ApplyAllSnoc(old(Contents()), before, Reverse(id));
      ApplyIsLater(mid, Reverse(id));
      LaterTransitive(old(Contents()), mid, Contents());
    }

    /** One listed entry: delete it while it is a draft, otherwise reverse it. */
    method SupersedeEntry(entry: SourceEntry, before: seq<Op>, between: seq<Op>)
      returns (err: Option<Error>, outcome: Option<Status>, ghost trace: seq<Op>)
      requires Bounded(Contents()) && entry.id < nextId
      requires entry.id in entries && !entry.status.Draft? ==> !entries[entry.id].status.Draft?
      modifies this
      ensures Contents() == ApplyAll(old(Contents()), trace)
      ensures Bounded(Contents()) && Later(old(Contents()), Contents())
      ensures err.None? ==> Settled(Contents(), entry.id)
      ensures err.Some? ==> err == Some(EntryNotFound) && entry.id !in entries && outcome.None?
      ensures err.Some? && before == [] && between == [] ==> entry.id !in old(entries)
      ensures outcome == Some(Draft) ==> entry.id !in entries && entry.id in old(entries)
      ensures outcome == Some(Reversed) ==> entry.id in entries && entries[entry.id].status.Reversed?
      ensures before == [] && between == [] ==> OnlyChanged(old(Contents()), Contents(), entry.id)
      ensures before == [] && between == [] && entry.id in old(entries) && old(entries)[entry.id].status == entry.status
              && entry.status != Reversed ==>
                err.None? && outcome == Some(if entry.status == Draft then Draft else Reversed)
      ensures forall k :: 0 <= k < |trace| ==>
                trace[k] in before || trace[k] in between || trace[k] == Delete(entry.id) || trace[k] == Reverse(entry.id)
    {
      hide Apply, ApplyAll, Refusal, Later, OnlyChanged;
      ghost var start := Contents();
      NothingDone(start);
      outcome, trace := None, [];
      var gap := before;
      if entry.status.Draft? {
        err := DeleteAfter(entry.id, before);
        trace := before + [Delete(entry.id)];
        if err.None? {
          return None, Some(Draft), trace;
        }
        if err == Some(EntryNotFound) {
          return;
        }
        gap := between;
      }
      ghost var mid := Contents();
      err := ReverseAfter(entry.id, gap);
      ApplyAllConcat(old(Contents()), trace, gap + [Reverse(entry.id)]);
      trace := trace + (gap + [Reverse(entry.id)]);
      LaterTransitive(old(Contents()), mid, Contents());
      if before == [] && between == [] {
        OnlyChangedTwice(start, mid, Contents(), entry.id);
      }
      if err.None? {
        outcome := Some(Reversed);
      } else if err == Some(NotReversible) {
        err := None;
      }
    }

    /** Clears the postings a document produced.  others lists what other callers
        commit in the gaps between this call's transactions; apart from that nothing
        happens but deletes and reversals of listed entries.  Returned without error,
        none of the entries listed at the start is draft or posted. */
    method SupersedeEntriesBySource(source: string, doc: string, others: seq<seq<Op>>)
      returns (err: Option<Error>, reversed: seq<Id>, deleted: seq<Id>,
               ghost list: seq<SourceEntry>, ghost trace: seq<Op>)
      requires Bounded(Contents())
      modifies this
      ensures Contents() == ApplyAll(old(Contents()), trace) && Accounted(trace, list, others)
      ensures Lists(old(Contents()), source, doc, list)
      ensures Listed(deleted, list) && Listed(reversed, list)
      ensures err.None? ==>
                forall id :: (id in old(entries) && id in entries
                              && old(entries)[id].source == Some(source) && old(entries)[id].doc == Some(doc)) ==>
                  entries[id].status == Reversed
      ensures others == [] ==>
                forall k :: 0 <= k < |list| ==>
                  if list[k].status == Draft then list[k].id in deleted else list[k].id in reversed
      ensures others == [] ==>
                forall id :: (id in old(entries)
                              && (old(entries)[id].source != Some(source) || old(entries)[id].doc != Some(doc)
                                  || old(entries)[id].status == Reversed)) ==>
                  id in entries && entries[id] == old(entries)[id]
      ensures err.None? ==> Cleared(Contents(), list)
      ensures err.Some? ==> err == Some(EntryNotFound) && others != []
                            && exists k :: 0 <= k < |list| && list[k].id !in entries
      ensures Reported(old(Contents()), Contents(), deleted, reversed)
      ensures others == [] ==> Untouched(old(Contents()), Contents(), source, doc)
    {
      hide Apply, ApplyAll, Refusal, Accounted, Listed, Untouched, OnlyChanged, With;
      hide Lists, Progress, Later, Reported, Cleared, Settled, AllThere, Matches, Collected;
      var existing := ListEntriesBySource(source, doc);
      StartsClean(Contents(), existing, others, source, doc);
      list := existing;
      reversed, deleted, trace := [], [], [];
      err := None;
      var i := 0;
      ghost var start := Contents();
      while i < |existing|
        invariant 0 <= i <= |existing| && err.None? && Bounded(Contents())
        invariant Contents() == ApplyAll(start, trace) && Accounted(trace, existing, others)
        invariant Listed(deleted, existing) && Listed(reversed, existing)
        invariant Progress(start, Contents(), existing, i, deleted, reversed)
        invariant others == [] ==> Untouched(start, Contents(), source, doc) && AllThere(Contents(), existing, i)
        invariant others == [] ==> Collected(existing, i, deleted, reversed)
      {
        ghost var seen := Contents();
        ItsTurn(start, seen, source, doc, existing, i, deleted, reversed);
        assert others == [] ==>
                 existing[i].id in seen.entries && seen.entries[existing[i].id].status == existing[i].status by {
          TurnThere(seen, existing, i);
        }
        var before := if 2 * i < |others| then others[2 * i] else [];
        var between := if 2 * i + 1 < |others| then others[2 * i + 1] else [];
        var entry := existing[i];
        var outcome;
        ghost var steps;
        err, outcome, steps := SupersedeEntry(entry, before, between);
        ApplyAllConcat(start, trace, steps);
        MoreAccounted(trace, steps, existing, others, i, before, between);
        trace := trace + steps;
        if others == [] {
          StillUntouched(start, seen, Contents(), source, doc, entry.id);
          StillThere(start, seen, Contents(), source, doc, existing, i);
        }
        if err.Some? {
          LaterKeepsReported(start, seen, Contents(), deleted, reversed);
          return;
        }
        Advance(start, seen, Contents(), existing, i, deleted, reversed, outcome);
        if others == [] {
          CollectsOne(existing, i, deleted, reversed, outcome);
        }
        StillListed(deleted, existing, i, outcome == Some(Draft));
        StillListed(reversed, existing, i, outcome == Some(Reversed));
        deleted := With(deleted, entry.id, outcome == Some(Draft));
        reversed := With(reversed, entry.id, outcome == Some(Reversed));
        i := i + 1;
      }
      if others == [] {
        OthersUntouched(start, Contents(), source, doc);
        AllCollected(existing, deleted, reversed);
      }
      AllSettled(start, Contents(), existing, deleted, reversed);
      DocumentSettled(start, Contents(), source, doc, existing);
    }
  }
}
