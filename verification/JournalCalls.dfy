/** What each journal operation does after any history, spelled out. */
module JournalCalls {
  import opened Ledger
  import opened Journal

  /** A new entry gets the next number and the amounts, source and document it was given;
      one posted at once must balance in base. */
  lemma CreationDoes(ops: seq<Op>, status: Status, lines: Entry, base: Entry, source: Option<string>, doc: Option<string>)
    requires status != Reversed
    ensures var b, op := ApplyAll(EMPTY, ops), Create(status, lines, base, source, doc);
            var t := ApplyAll(EMPTY, ops + [op]);
            && (Refusal(b, op) == None <==> status == Draft || Excess(base) == 0)
            && (status == Draft || Excess(base) == 0 ==>
                  && b.nextId !in b.entries
                  && t.entries == b.entries[b.nextId := JournalEntry(status, lines, base, None, source, doc)]
                  && t.nextId == b.nextId + 1)
            && (status == Posted && Excess(base) != 0 ==> t == b && Refusal(b, op) == Some(Unbalanced))
  {
    hide ApplyAll, Excess;
    ApplyAllSnoc(EMPTY, ops, Create(status, lines, base, source, doc));
    StaysBounded(ops);
  }

  lemma {:induction false} StaysBounded(ops: seq<Op>)
    ensures Bounded(ApplyAll(EMPTY, ops))
  {
    hide Apply;
    if ops != [] {
      StaysBounded(ops[..|ops| - 1]);
      ApplyIsLater(ApplyAll(EMPTY, ops[..|ops| - 1]), ops[|ops| - 1]);
    }
  }

  /** An entry is posted exactly when it is there, a draft, in an open period and
      balanced in base; nothing else changes. */
  lemma PostingDoes(ops: seq<Op>, id: Id, periodOpen: bool)
    ensures var b, t := ApplyAll(EMPTY, ops), ApplyAll(EMPTY, ops + [Post(id, periodOpen)]);
            && t == (if id in b.entries && b.entries[id].status == Draft && periodOpen && Excess(b.entries[id].base) == 0
                     then Book(b.entries[id := b.entries[id].(status := Posted)], b.nextId) else b)
            && Refusal(b, Post(id, periodOpen))
               == (if id !in b.entries then Some(EntryNotFound)
                   else if b.entries[id].status == Draft && periodOpen && Excess(b.entries[id].base) == 0 then None
                   else if b.entries[id].status == Draft && periodOpen then Some(Unbalanced) else Some(NotPosted))
  {
    hide ApplyAll, Excess;
    ApplyAllSnoc(EMPTY, ops, Post(id, periodOpen));
  }

  /** An entry is deleted exactly when it is there and a draft. */
  lemma DeletionDoes(ops: seq<Op>, id: Id)
    ensures var b, t := ApplyAll(EMPTY, ops), ApplyAll(EMPTY, ops + [Delete(id)]);
            && t.nextId == b.nextId
            && (forall x :: x in t.entries <==> x in b.entries && !(x == id && b.entries[x].status == Draft))
            && (forall x :: x in t.entries ==> t.entries[x] == b.entries[x])
            && Refusal(b, Delete(id)) == (if id !in b.entries then Some(EntryNotFound)
                                          else if b.entries[id].status == Draft then None else Some(NotDraft))
  {
    hide ApplyAll;
    ApplyAllSnoc(EMPTY, ops, Delete(id));
  }

  /** An entry is reversed exactly when it is there and posted: a new posted entry names
      it and has its lines with debit and credit exchanged and no base amounts. */
  lemma ReversalDoes(ops: seq<Op>, id: Id)
    ensures var b, t := ApplyAll(EMPTY, ops), ApplyAll(EMPTY, ops + [Reverse(id)]);
            && Refusal(b, Reverse(id)) == (if id !in b.entries then Some(EntryNotFound)
                                           else if b.entries[id].status == Posted then None else Some(NotReversible))
            && (!(id in b.entries && b.entries[id].status == Posted) ==> t == b)
            && (id in b.entries && b.entries[id].status == Posted ==>
                  && t.nextId == b.nextId + 1 && b.nextId in t.entries && id in t.entries
                  && t.entries[id] == b.entries[id].(status := Reversed)
                  && (forall x :: x != id && x != b.nextId ==>
                        (x in t.entries <==> x in b.entries) && (x in b.entries ==> t.entries[x] == b.entries[x]))
                  && var m, e := t.entries[b.nextId], b.entries[id];
                     && m.status == Posted && m.reverses == Some(id) && m.source == None && m.doc == None
                     && |m.lines| == |m.base| == |e.lines|
                     && forall i :: 0 <= i < |e.lines| ==>
                          && m.lines[i].account == e.lines[i].account && m.base[i] == Line(e.lines[i].account, 0, 0)
                          && m.lines[i].debit == e.lines[i].credit && m.lines[i].credit == e.lines[i].debit)
  {
    hide ApplyAll;
    ApplyAllSnoc(EMPTY, ops, Reverse(id));
    StaysBounded(ops);
  }
}
