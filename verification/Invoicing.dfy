/** Issuing an invoice: four transactions in a row, each safe to repeat, and a guard
    that turns away an invoice already issued. */
module Invoicing {
  import opened Ledger
  import opened Money

  datatype Invoice = Invoice(total: int, subtotal: int, tax: int, ratable: bool, periods: int)

  const DEFERRED := Other("2300")

  /** booked and deferred are the two event ids in processed_events; scheduled is
      the schedule row; items counts the invoice's receivable items. */
  datatype State = State(issued: bool, booked: bool, items: nat, deferred: bool, scheduled: bool, journal: seq<Entry>)

  const DRAFT := State(false, false, 0, false, false, [])

  datatype Reply = Issued | NotDraft | Refused | Failed

  function InvoiceEntry(inv: Invoice): Entry {
    [Dr(Receivables, inv.total), Cr(Revenue, inv.subtotal)] + CrIfPositive(OutputVat, inv.tax)
  }

  function DeferralEntry(inv: Invoice): Entry {
    Pair(Revenue, DEFERRED, inv.subtotal)
  }

  /** What the database asks of a posted entry. */
  predicate Postable(inv: Invoice) {
    OneSided(InvoiceEntry(inv)) && Balanced(InvoiceEntry(inv))
  }

  predicate Defers(inv: Invoice) {
    inv.ratable && inv.periods >= 1 && inv.subtotal > 0
  }

  function Book(inv: Invoice, s: State): State {
    if s.booked then s else s.(booked := true, journal := s.journal + [InvoiceEntry(inv)])
  }

  function OpenItem(s: State): State {
    if s.items > 0 then s else s.(items := 1)
  }

  function Schedule(inv: Invoice, s: State): State {
    if s.deferred || s.scheduled then s
    else s.(deferred := true, scheduled := true, journal := s.journal + [DeferralEntry(inv)])
  }

  /** One call that fails after `commits` of its transactions have committed; from
      four on it does not fail. */
  function Attempt(inv: Invoice, s: State, commits: nat): State {
    if s.issued || commits == 0 || (!s.booked && !Postable(inv)) then s
    else
      var s1 := Book(inv, s);
      if commits == 1 then s1
      else
        var s2 := OpenItem(s1);
        if commits == 2 then s2
        else
          var s3 := s2.(issued := true);
          if commits == 3 || !Defers(inv) then s3 else Schedule(inv, s3)
  }

  function Retry(inv: Invoice, attempts: seq<nat>): State {
    if attempts == [] then DRAFT
    else Attempt(inv, Retry(inv, attempts[..|attempts| - 1]), attempts[|attempts| - 1])
  }

  /** Each transaction leaves alone what an earlier one has done, in whatever state the
      invoice is. */
  lemma EachOnce(inv: Invoice, s: State)
    ensures Book(inv, s) == (if s.booked then s
                             else State(s.issued, true, s.items, s.deferred, s.scheduled, s.journal + [InvoiceEntry(inv)]))
    ensures OpenItem(s) == (if s.items == 0 then State(s.issued, s.booked, 1, s.deferred, s.scheduled, s.journal) else s)
    ensures Schedule(inv, s) == (if !s.deferred && !s.scheduled
                                 then State(s.issued, s.booked, s.items, true, true, s.journal + [DeferralEntry(inv)]) else s)
    ensures Book(inv, Book(inv, s)) == Book(inv, s) && OpenItem(OpenItem(s)) == OpenItem(s)
    ensures Schedule(inv, Schedule(inv, s)) == Schedule(inv, s)
  {
  }

  // ----- what a history of attempts amounts to

  /** How many of the four transactions took effect, by the attempts alone: the
      furthest attempt so far, until one marks the invoice issued; nothing after. */
  function Reached(attempts: seq<nat>): (n: nat)
    ensures n <= 4
  {
    if attempts == [] then 0
    else
      var r := Reached(attempts[..|attempts| - 1]);
      if r >= 3 then r else Max(r, Min(4, attempts[|attempts| - 1]))
  }

  function Progress(inv: Invoice, n: nat): State {
    var deferral := n >= 4 && Defers(inv);
    State(n >= 3, n >= 1, if n >= 2 then 1 else 0, deferral, deferral,
          (if n >= 1 then [InvoiceEntry(inv)] else []) + if deferral then [DeferralEntry(inv)] else [])
  }

  /** Repeated, interrupted calls add up to one call: no effect happens twice. */
  lemma {:induction false} RetriesAddUp(inv: Invoice, attempts: seq<nat>)
    requires Postable(inv)
    ensures Retry(inv, attempts) == Progress(inv, Reached(attempts))
  {
    if attempts != [] {
      RetriesAddUp(inv, attempts[..|attempts| - 1]);
    }
  }

  /** Issued in full: one invoice entry, one item, and the deferral if it has one. */
  predicate Complete(inv: Invoice, s: State) {
    s == Progress(inv, 4)
  }

  /** Some attempt ran to the end before any was cut off between marking the
      invoice issued and creating its schedule. */
  predicate NotCutOff(attempts: seq<nat>) {
    exists k :: 0 <= k < |attempts| && attempts[k] >= 4 && forall j :: 0 <= j < k ==> attempts[j] != 3
  }

  predicate SomeMarked(attempts: seq<nat>) {
    exists k :: 0 <= k < |attempts| && attempts[k] >= 3
  }

  lemma {:induction false} ReachedMeans(attempts: seq<nat>)
    ensures Reached(attempts) >= 3 <==> SomeMarked(attempts)
    ensures Reached(attempts) == 4 <==> NotCutOff(attempts)
  {
    if attempts != [] {
      var n := |attempts| - 1;
      var before := attempts[..n];
      ReachedMeans(before);
      assert SomeMarked(attempts) <==> SomeMarked(before) || attempts[n] >= 3 by {
        assert forall k :: 0 <= k < n ==> before[k] == attempts[k];
      }
      NotCutOffStep(attempts);
    }
  }

  lemma NotCutOffStep(attempts: seq<nat>)
    requires attempts != []
    ensures var n := |attempts| - 1;
            NotCutOff(attempts)
            <==> NotCutOff(attempts[..n]) || (attempts[n] >= 4 && forall j :: 0 <= j < n ==> attempts[j] != 3)
  {
    var n := |attempts| - 1;
    var before := attempts[..n];
    assert forall k :: 0 <= k < n ==> before[k] == attempts[k];
    if NotCutOff(before) {
      var k :| 0 <= k < n && before[k] >= 4 && forall j :: 0 <= j < k ==> before[j] != 3;
      assert attempts[k] >= 4 && forall j :: 0 <= j < k ==> attempts[j] != 3;
    }
    if NotCutOff(attempts) {
      var k :| 0 <= k <= n && attempts[k] >= 4 && forall j :: 0 <= j < k ==> attempts[j] != 3;
      assert k < n ==> before[k] >= 4 && forall j :: 0 <= j < k ==> before[j] != 3;
    }
  }

  /** Retrying converges to the fully issued invoice exactly when the invoice has
      no deferral and some attempt marked it, or no attempt was cut off between the
      mark and the schedule before one ran through. */
  lemma ConvergesIff(inv: Invoice, attempts: seq<nat>)
    requires Postable(inv)
    ensures Complete(inv, Retry(inv, attempts))
            <==> if inv.ratable && inv.periods >= 1 && inv.subtotal > 0 then NotCutOff(attempts) else SomeMarked(attempts)
  {
    RetriesAddUp(inv, attempts);
    ReachedMeans(attempts);
  }

  /** An attempt cut off there leaves an issued invoice whose revenue stays
      undeferred, and no later attempt repairs it. */
  lemma {:induction false} CutOffIsFinal(inv: Invoice, attempts: seq<nat>, more: seq<nat>)
    requires Postable(inv) && Reached(attempts) == 3
    ensures Retry(inv, attempts + more) == Retry(inv, attempts)
    ensures Reached(attempts + more) == 3
  {
    if more == [] {
      assert attempts + more == attempts;
    } else {
      assert (attempts + more)[..|attempts + more| - 1] == attempts + more[..|more| - 1];
      CutOffIsFinal(inv, attempts, more[..|more| - 1]);
      RetriesAddUp(inv, attempts);
    }
  }

  lemma ProgressBalance(inv: Invoice, n: nat, a: Account)
    ensures Balance(Progress(inv, n).journal, a)
            == (if n >= 1 then (if a == Receivables then inv.total else 0) - (if a == Revenue then inv.subtotal else 0)
                               - (if a == OutputVat then Max(0, inv.tax) else 0) else 0)
               + (if n >= 4 && Defers(inv) then (if a == Revenue then inv.subtotal else 0) - (if a == DEFERRED then inv.subtotal else 0)
                  else 0)
  {
    hide Net, InvoiceEntry, DeferralEntry;
    BalanceSnoc([], InvoiceEntry(inv), a);
    assert [] + [InvoiceEntry(inv)] == [InvoiceEntry(inv)];
    BalanceSnoc([InvoiceEntry(inv)], DeferralEntry(inv), a);
    InvoiceNet(inv, a);
    DeferralNet(inv, a);
  }

  lemma DeferralNet(inv: Invoice, a: Account)
    ensures Net(DeferralEntry(inv), a)
            == (if a == Revenue then inv.subtotal else 0) - (if a == DEFERRED then inv.subtotal else 0)
  {
    PairNet(Revenue, DEFERRED, inv.subtotal, a);
  }

  /** Such a history, from the draft: cut off after the mark, then called again. */
  lemma MarkedWithoutSchedule(subtotal: int, periods: int)
    requires subtotal > 0 && periods >= 1
    ensures var inv := Invoice(subtotal, subtotal, 0, true, periods);
            var s := Retry(inv, [3, 4]);
            Postable(inv) && s.issued && !s.deferred && !s.scheduled && CreditBalance(s.journal, Revenue) == subtotal
  {
    hide Retry, Balance, Postable;
    var inv := Invoice(subtotal, subtotal, 0, true, periods);
    PostableIff(inv);
    assert [3, 4][..1] == [3] && [3][..0] == [];
    assert Reached([3]) == 3 && Reached([3, 4]) == 3;
    RetriesAddUp(inv, [3, 4]);
    BooksAfter(inv, [3, 4]);
  }

  /** What the attempts leave in the accounts. */
  lemma BooksAfter(inv: Invoice, attempts: seq<nat>)
    requires Postable(inv)
    ensures var j, n := Retry(inv, attempts).journal, Reached(attempts);
            && Balance(j, Receivables) == (if n >= 1 then inv.total else 0)
            && CreditBalance(j, OutputVat) == (if n >= 1 then Max(0, inv.tax) else 0)
            && CreditBalance(j, Other("2300"))
               == (if n == 4 && inv.ratable && inv.periods >= 1 && inv.subtotal > 0 then inv.subtotal else 0)
            && CreditBalance(j, Revenue) == (if n >= 1 then inv.subtotal else 0) - CreditBalance(j, Other("2300"))
  {
    hide Balance, Progress, Retry, Postable, Reached;
    var n := Reached(attempts);
    RetriesAddUp(inv, attempts);
    ProgressBalance(inv, n, Receivables);
    ProgressBalance(inv, n, OutputVat);
    ProgressBalance(inv, n, DEFERRED);
    ProgressBalance(inv, n, Revenue);
  }

  lemma InvoiceNet(inv: Invoice, a: Account)
    ensures Net(InvoiceEntry(inv), a)
            == (if a == Receivables then inv.total else 0) - (if a == Revenue then inv.subtotal else 0)
               - (if a == OutputVat then Max(0, inv.tax) else 0)
    ensures Excess(InvoiceEntry(inv)) == inv.total - inv.subtotal - Max(0, inv.tax)
  {
    NetOne(Dr(Receivables, inv.total), a);
    NetSnoc([Dr(Receivables, inv.total)], Cr(Revenue, inv.subtotal), a);
    assert [Dr(Receivables, inv.total)] + [Cr(Revenue, inv.subtotal)] == [Dr(Receivables, inv.total), Cr(Revenue, inv.subtotal)];
    NetConcat([Dr(Receivables, inv.total), Cr(Revenue, inv.subtotal)], CrIfPositive(OutputVat, inv.tax), a);
    IfPositiveNet(OutputVat, inv.tax, a);
    NetOne(Dr(Receivables, 0), a);
  }

  /** An invoice can be issued at all exactly when it is for something and adds up;
      negative tax is ignored by the entry. */
  lemma PostableIff(inv: Invoice)
    ensures Postable(inv) <==> inv.subtotal > 0 && inv.total == inv.subtotal + Max(0, inv.tax)
  {
    InvoiceNet(inv, Revenue);
    var e := InvoiceEntry(inv);
    assert e[0] == Dr(Receivables, inv.total) && e[1] == Cr(Revenue, inv.subtotal);
    assert |e| > 2 ==> e[2] == Cr(OutputVat, inv.tax) && inv.tax > 0;
  }

  /** Otherwise every attempt is refused and changes nothing. */
  lemma {:induction false} UnpostableIsRefused(inv: Invoice, attempts: seq<nat>)
    requires !Postable(inv)
    ensures Retry(inv, attempts) == DRAFT
  {
    if attempts != [] {
      UnpostableIsRefused(inv, attempts[..|attempts| - 1]);
    }
  }

  class InvoiceDesk {
    const inv: Invoice
    var issued: bool
    var booked: bool
    var items: nat
    var deferred: bool
    var scheduled: bool
    var journal: seq<Entry>

    ghost function View(): State
      reads this
    {
      State(issued, booked, items, deferred, scheduled, journal)
    }

    constructor (inv: Invoice)
      ensures this.inv == inv && View() == DRAFT
    {
      this.inv := inv;
      issued, booked, items, deferred, scheduled, journal := false, false, 0, false, false, [];
    }

    method BookPostedEntry(lines: Entry) returns (ok: bool)
      requires lines == InvoiceEntry(inv)
      modifies this`booked, this`journal
      ensures ok <==> old(booked) || Postable(inv)
      ensures View() == if ok then Book(inv, old(View())) else old(View())
    {
      if booked {
        return true;
      }
      if !OneSided(lines) || !Balanced(lines) {
        return false;
      }
      booked, journal := true, journal + [lines];
      return true;
    }

    /** False when the document reference is taken. */
    method CreateAROpenItem() returns (ok: bool)
      modifies this`items
      ensures ok <==> old(items) == 0
      ensures View() == OpenItem(old(View()))
    {
      ok := items == 0;
      if ok {
        items := 1;
      }
    }

    method MarkInvoiceIssued()
      modifies this`issued
      ensures View() == old(View()).(issued := true)
    {
      if !issued {
        issued := true;
      }
    }

    /** False when the deferral or its schedule exists. */
    method CreateSchedule() returns (ok: bool)
      modifies this`deferred, this`scheduled, this`journal
      ensures ok <==> !old(deferred) && !old(scheduled)
      ensures View() == Schedule(inv, old(View()))
    {
      ok := !deferred && !scheduled;
      if ok {
        journal := journal + [DeferralEntry(inv)];
        deferred, scheduled := true, true;
      }
    }

    method IssueInvoice(commits: nat) returns (r: Reply)
      modifies this
      ensures View() == Attempt(inv, old(View()), commits)
      ensures r.NotDraft? <==> old(issued)
      ensures r.Refused? <==> !old(issued) && commits > 0 && !old(booked) && !Postable(inv)
      ensures r.Issued? ==> !old(issued) && issued && (Defers(inv) ==> deferred || scheduled)
      ensures !old(issued) && commits >= 4 ==> r.Issued? || r.Refused?
    {
      if issued {
        return NotDraft;
      }
      var lines := [Dr(Receivables, inv.total), Cr(Revenue, inv.subtotal)];
      if inv.tax > 0 {
        lines := lines + [Cr(OutputVat, inv.tax)];
      }
      assert lines == InvoiceEntry(inv);
      if commits == 0 {
        return Failed;
      }
      var ok := BookPostedEntry(lines);
      if !ok {
        return Refused;
      }
      if commits == 1 {
        return Failed;
      }
      var created := CreateAROpenItem();
      if commits == 2 {
        return Failed;
      }
      MarkInvoiceIssued();
      if inv.ratable && inv.periods >= 1 && inv.subtotal > 0 {
        if commits == 3 {
          return Failed;
        }
        var planned := CreateSchedule();
      }
      return Issued;
    }
  }
}
