/** The other side of the subledger's entries: what payments leave in cash, what
    sales and notes leave in income and expense. */
module SubledgerCash {
  import opened Ledger
  import opened Subledger
  import Grir

  function PaidTo(items: seq<Item>, n: nat, side: Side): int
    requires n <= |items|
  {
    if n == 0 then 0 else PaidTo(items, n - 1, side) + if items[n - 1].side == side then items[n - 1].paid else 0
  }

  lemma {:induction false} PaidSame(xs: seq<Item>, ys: seq<Item>, n: nat, side: Side)
    requires n <= |xs| && n <= |ys| && forall k :: 0 <= k < n ==> xs[k].side == ys[k].side && xs[k].paid == ys[k].paid
    ensures PaidTo(xs, n, side) == PaidTo(ys, n, side)
  {
    if n > 0 {
      PaidSame(xs, ys, n - 1, side);
    }
  }

  lemma {:induction false} PaidUpdate(items: seq<Item>, i: nat, it: Item, n: nat, side: Side)
    requires i < n <= |items| && it.side == items[i].side
    ensures PaidTo(items[i := it], n, side) == PaidTo(items, n, side) + if it.side == side then it.paid - items[i].paid else 0
  {
    if n == i + 1 {
      PaidSame(items[i := it], items, i, side);
    } else {
      PaidUpdate(items, i, it, n - 1, side);
    }
  }

  /** Received from customers less paid to vendors, over all items. */
  function NetPaid(items: seq<Item>): int {
    PaidTo(items, |items|, AR) - PaidTo(items, |items|, AP)
  }

  lemma PostingLeavesCash(m: Message)
    requires m.amount > 0
    ensures Net(PostingLines(m), Cash) == 0
  {
    match m.side
    case AP =>
      Grir.InvoiceNetOn(m.po, m.amount, m.vat, m.split, m.taxRate, Cash);
      Grir.InvoiceDebitsNet(m.po, Grir.InvoiceNet(m.amount, m.vat), m.split, Cash);
    case AR => SaleSplit(m.amount, m.vat, Cash);
  }

  /** A sale is revenue, except for output VAT that is positive and below it. */
  lemma SaleSplit(amount: int, vat: int, a: Account)
    ensures var tax := if 0 < vat < amount then vat else 0;
            Net(SaleLines(amount, vat), a)
            == (if a == Receivables then amount else 0) - (if a == Revenue then amount - tax else 0)
               - (if a == OutputVat then tax else 0)
  {
    PairNet(Receivables, Revenue, amount, a);
    var two := [Dr(Receivables, amount), Cr(Revenue, amount - vat)];
    NetSnoc(two, Cr(OutputVat, vat), a);
    NetSnoc([Dr(Receivables, amount)], Cr(Revenue, amount - vat), a);
    NetOne(Dr(Receivables, amount), a);
    assert [Dr(Receivables, amount)] + [Cr(Revenue, amount - vat)] == two;
    assert SaleLines(amount, vat) == if 0 < vat < amount then two + [Cr(OutputVat, vat)] else Pair(Receivables, Revenue, amount);
  }

  /** A customer note corrects revenue, a vendor note vendor adjustments, by the
      delta it applies to the item. */
  lemma NoteContra(side: Side, kind: NoteKind, amount: int, a: Account)
    ensures Net(NoteLines(side, kind, amount), a)
            == match side
               case AR => (if a == Receivables then Delta(kind, amount) else 0) - (if a == Revenue then Delta(kind, amount) else 0)
               case AP => (if a == VendorNotes then Delta(kind, amount) else 0) - (if a == Payables then Delta(kind, amount) else 0)
  {
    PairNet(Revenue, Receivables, amount, a);
    PairNet(Receivables, Revenue, amount, a);
    PairNet(Payables, VendorNotes, amount, a);
    PairNet(VendorNotes, Payables, amount, a);
  }

  lemma StepTiesCash(s: State, op: Op)
    requires Valid(s) && Balance(s.journal, Cash) == NetPaid(s.items)
    ensures Balance(Step(s, op).journal, Cash) == NetPaid(Step(s, op).items)
  {
    hide Net, PostingLines, NoteLines, OutboxValid;
    var t := Step(s, op);
    if ReplyTo(s, op).Done? {
      match op
      case CreateItem(_) => CreateTiesCash(s, t);
      case Publish(_) =>
      case MarkPublished(_) =>
      case MarkFailed(_) =>
      case Consume(d, _) =>
        SentPositive(s, d);
        PostingLeavesCash(s.bus[d]);
        BalanceSnoc(s.journal, PostingLines(s.bus[d]), Cash);
      case Pay(side, i, amount, _) =>
        PairNet(Cash, Receivables, amount, Cash);
        PairNet(Payables, Cash, amount, Cash);
        BalanceSnoc(s.journal, PaymentLines(side, amount), Cash);
        PaidUpdate(s.items, i, t.items[i], |s.items|, AR);
        PaidUpdate(s.items, i, t.items[i], |s.items|, AP);
      case Note(side, kind, doc, amount, _, _) =>
        var i := Find(s.items, side, doc).value;
        NoteContra(side, kind, amount, Cash);
        BalanceSnoc(s.journal, NoteLines(side, kind, amount), Cash);
        PaidUpdate(s.items, i, t.items[i], |s.items|, AR);
        PaidUpdate(s.items, i, t.items[i], |s.items|, AP);
    }
  }

  lemma CreateTiesCash(s: State, t: State)
    requires |t.items| == |s.items| + 1 && t.items[..|s.items|] == s.items && t.items[|s.items|].paid == 0
    ensures NetPaid(t.items) == NetPaid(s.items)
  {
    PaidSame(t.items, s.items, |s.items|, AR);
    PaidSame(t.items, s.items, |s.items|, AP);
  }

  lemma SentPositive(s: State, d: nat)
    requires Valid(s) && d < |s.bus|
    ensures s.bus[d].amount > 0
  {
    assert Sent(s.outbox, s.bus[d]);
  }

  /** Over every run, cash is what the items record as received from customers less
      what they record as paid to vendors. */
  lemma {:induction false} CashIsWhatWasPaid(ops: seq<Op>)
    ensures Balance(Run(ops).journal, Cash) == NetPaid(Run(ops).items)
  {
    if ops != [] {
      CashIsWhatWasPaid(ops[..|ops| - 1]);
      ReachableConserved(ops[..|ops| - 1], AR);
      StepTiesCash(Run(ops[..|ops| - 1]), ops[|ops| - 1]);
    }
  }
}
