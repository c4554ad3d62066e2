/** The goods-received and invoice postings in the documents' own figures: what each
    document moves on each account, and what the books show after any history. */
module GrirFigures {
  import opened Ledger
  import opened Money
  import opened Grir
  import Sums

  /** Debits less credits of a goods-receipt note: the value is owed on 2150, and the
      stated part of it, brought between nothing and the whole, is stock. */
  function GrnMoves(value: int, inventoryValue: int, a: Account): int {
    var stock := Max(0, Min(inventoryValue, value));
    match a
    case GrIr => -value
    case Inventory => stock
    case Cogs => value - stock
    case _ => 0
  }

  /** Of a vendor invoice: the gross is owed, the VAT in it is claimed when it lies
      between nothing and the gross, and the rest clears the order's accrual or is
      stock and expense. */
  function InvoiceMoves(po: Po, gross: int, vat: int, inventoryValue: int, selfAssessed: int, a: Account): int {
    var net := if 0 <= vat <= gross then gross - vat else gross;
    var stock := if po == "" then Max(0, Min(inventoryValue, net)) else 0;
    match a
    case Payables => -gross
    case InputVat => gross - net + selfAssessed
    case OutputVat => -selfAssessed
    case GrIr => if po != "" then net else 0
    case Inventory => stock
    case Cogs => if po == "" then net - stock else 0
    case _ => 0
  }

  /** Of a warehouse movement; a signed adjustment moves stock by its own amount. */
  function MovementMoves(kind: MovementKind, fromGrn: bool, cost: int, a: Account): int {
    var amount := if cost < 0 then -cost else cost;
    match (kind, a)
    case (Receipt, Inventory) => if fromGrn then 0 else amount
    case (Receipt, GrIr) => if fromGrn then 0 else -amount
    case (Issue, Inventory) => -amount
    case (Issue, Cogs) => amount
    case (Return, Inventory) => amount
    case (Return, Cogs) => -amount
    case (ProductionConsume, WorkInProgress) => amount
    case (ProductionConsume, Inventory) => -amount
    case (ProductionOutput, WorkInProgress) => -amount
    case (ProductionOutput, Inventory) => amount
    case (Adjustment, Inventory) => cost
    case (Adjustment, Cogs) => -cost
    case _ => 0
  }

  /** Self-assessed VAT: the rate, in ten-thousandths, on the net, to half a cent. */
  ghost predicate SelfAssessed(tax: int, net: int, taxRate: Option<nat>) {
    if taxRate.Some? then 0 <= tax && -5000 <= 10000 * tax - net * taxRate.value <= 5000 else tax == 0
  }

  lemma GrnFigures(value: int, inventoryValue: int, a: Account)
    requires value > 0
    ensures Net(GrnLines(value, inventoryValue), a) == GrnMoves(value, inventoryValue, a)
  {
    var debits := StockAndExpense(value, inventoryValue);
    NetSnoc(debits, Cr(GrIr, value), a);
    StockAndExpenseNet(value, inventoryValue, a);
  }

  lemma MovementFigures(kind: MovementKind, fromGrn: bool, cost: int, a: Account)
    ensures Net(MovementLines(kind, fromGrn, cost), a) == MovementMoves(kind, fromGrn, cost, a)
  {
    var n := Abs(cost);
    PairNet(Inventory, GrIr, n, a);
    PairNet(Cogs, Inventory, n, a);
    PairNet(Inventory, Cogs, n, a);
    PairNet(WorkInProgress, Inventory, n, a);
    PairNet(Inventory, WorkInProgress, n, a);
    NetOne(Dr(Cash, 0), a);
  }

  /** The tax an invoice self-assesses is what it credits to output VAT. */
  function TaxOf(gross: int, vat: int, taxRate: Option<nat>): int {
    Max(0, ReverseChargeVat(InvoiceNet(gross, vat), taxRate))
  }

  lemma TaxIsSelfAssessed(gross: int, vat: int, taxRate: Option<nat>)
    requires gross > 0
    ensures SelfAssessed(TaxOf(gross, vat, taxRate), if 0 <= vat <= gross then gross - vat else gross, taxRate)
  {
    if taxRate.Some? {
      var net := InvoiceNet(gross, vat);
      assert net * taxRate.value >= 0;
      RoundDivNearest(net * taxRate.value, 10000);
      RoundDivSign(net * taxRate.value, 10000);
    }
  }

  /** For every VAT figure, split and rate: each account of an invoice's entry, and the
      self-assessed tax to half a cent. */
  lemma InvoiceFigures(po: Po, gross: int, vat: int, inventoryValue: int, taxRate: Option<nat>)
    requires gross > 0
    ensures var lines := InvoiceLines(po, gross, vat, inventoryValue, taxRate);
            var tax := -Net(lines, OutputVat);
            && SelfAssessed(tax, if 0 <= vat <= gross then gross - vat else gross, taxRate)
            && forall a :: Net(lines, a) == InvoiceMoves(po, gross, vat, inventoryValue, tax, a)
  {
    hide InvoiceLines, ReverseChargeVat, InvoiceDebits;
    TaxIsSelfAssessed(gross, vat, taxRate);
    forall a
      ensures Net(InvoiceLines(po, gross, vat, inventoryValue, taxRate), a)
              == InvoiceMoves(po, gross, vat, inventoryValue, TaxOf(gross, vat, taxRate), a)
    {
      InvoiceNetOn(po, gross, vat, inventoryValue, taxRate, a);
      InvoiceDebitsNet(po, InvoiceNet(gross, vat), inventoryValue, a);
    }
    assert Net(InvoiceLines(po, gross, vat, inventoryValue, taxRate), OutputVat) == -TaxOf(gross, vat, taxRate);
  }

  // ----- whole histories

  /** A document is booked exactly when it has something to book: a receipt note with an
      order and a value, an invoice with a gross, a costed movement of a known kind that
      no receipt note accounts for.  Then its entry balances with one-sided lines. */
  lemma BookedIff(e: Event)
    ensures LinesFor(e) != []
            <==> match e
                 case Grn(_, po, value, _, _) => po != "" && value > 0
                 case Invoice(_, _, gross, _, _, _, _) => gross > 0
                 case Moved(_, kind, fromGrn, cost) => cost != 0 && !kind.Neutral? && !(kind == Receipt && fromGrn)
    ensures Balanced(LinesFor(e)) && OneSided(LinesFor(e))
  {
    hide Balanced;
    NothingBalances();
    match e
    case Grn(_, po, value, split, _) =>
      if po != "" && value > 0 {
        GrnLinesSound(value, split, Cash);
      }
    case Invoice(_, po, gross, vat, split, rate, _) =>
      if gross > 0 {
        InvoiceLinesSound(po, gross, vat, split, rate);
        InvoiceLinesOneSided(po, gross, vat, split, rate);
      }
    case Moved(_, kind, fromGrn, cost) =>
      MovementLinesSound(kind, fromGrn, cost);
  }

  lemma NothingBalances()
    ensures Balanced([]) && OneSided([])
  {
  }

  lemma MovementLinesSound(kind: MovementKind, fromGrn: bool, cost: int)
    ensures MovementLines(kind, fromGrn, cost) != [] <==> cost != 0 && !kind.Neutral? && !(kind == Receipt && fromGrn)
    ensures Balanced(MovementLines(kind, fromGrn, cost)) && OneSided(MovementLines(kind, fromGrn, cost))
  {
    var n := Abs(cost);
    NothingBalances();
    PairNet(Inventory, GrIr, n, Cash);
    PairNet(Cogs, Inventory, n, Cash);
    PairNet(Inventory, Cogs, n, Cash);
    PairNet(WorkInProgress, Inventory, n, Cash);
    PairNet(Inventory, WorkInProgress, n, Cash);
  }

  /** What an event moves once it is booked. */
  function Moves(e: Event, a: Account): int {
    match e
    case Grn(_, po, value, split, _) => if po != "" && value > 0 then GrnMoves(value, split, a) else 0
    case Invoice(_, po, gross, vat, split, rate, _) =>
      if gross > 0 then InvoiceMoves(po, gross, vat, split, TaxOf(gross, vat, rate), a) else 0
    case Moved(_, kind, fromGrn, cost) => MovementMoves(kind, fromGrn, cost, a)
  }

  lemma EventFigures(e: Event, a: Account)
    ensures Net(LinesFor(e), a) == Moves(e, a)
  {
    hide InvoiceLines, ReverseChargeVat, InvoiceDebits, GrnLines, MovementLines, InvoiceMoves, GrnMoves, MovementMoves;
    match e
    case Grn(_, po, value, split, _) =>
      if po != "" && value > 0 {
        GrnFigures(value, split, a);
      }
    case Invoice(_, po, gross, vat, split, rate, _) =>
      if gross > 0 {
        InvoiceOnAccount(po, gross, vat, split, rate, a);
      }
    case Moved(_, kind, fromGrn, cost) =>
      MovementFigures(kind, fromGrn, cost, a);
  }

  lemma InvoiceOnAccount(po: Po, gross: int, vat: int, split: int, rate: Option<nat>, a: Account)
    requires gross > 0
    ensures Net(InvoiceLines(po, gross, vat, split, rate), a)
            == InvoiceMoves(po, gross, vat, split, TaxOf(gross, vat, rate), a)
  {
    hide InvoiceLines, ReverseChargeVat, InvoiceDebits;
    InvoiceNetOn(po, gross, vat, split, rate, a);
    InvoiceDebitsNet(po, InvoiceNet(gross, vat), split, a);
  }

  /** What an event adds to the accrual row of an order. */
  function AddsTo(e: Event, po: Po): Accrual {
    match e
    case Grn(_, p, value, _, qty) =>
      if p == po && po != "" && value > 0 then Accrual(value, 0, qty, 0) else Accrual(0, 0, 0, 0)
    case Invoice(_, p, gross, vat, _, _, qty) =>
      var net := if 0 <= vat <= gross then gross - vat else gross;
      if p == po && po != "" && gross > 0 && net > 0 then Accrual(0, net, 0, qty) else Accrual(0, 0, 0, 0)
    case Moved(_, _, _, _) => Accrual(0, 0, 0, 0)
  }

  lemma RowFigures(e: Event, po: Po)
    ensures Accrual(Amount(Accrued(po), e), Amount(Cleared(po), e), Amount(Received(po), e), Amount(Invoiced(po), e))
            == AddsTo(e, po)
  {
    hide Net, InvoiceLines, StockAndExpense;
    assert e.Grn? ==> (LinesFor(e) != [] <==> e.po != "" && e.value > 0);
  }

  /** After any history, in any order and with any repetition, every account and every
      accrual row is the sum over the distinct documents of their own figures. */
  lemma BooksAreTheDocuments(h: seq<Event>)
    requires Consistent(Events(h))
    ensures forall a :: Balance(HandleAll(h).journal, a) == Sums.Over(Events(h), e => Moves(e, a))
    ensures forall po :: var r := Row(HandleAll(h).accruals, po);
              && r.accrued == Sums.Over(Events(h), e => AddsTo(e, po).accrued)
              && r.cleared == Sums.Over(Events(h), e => AddsTo(e, po).cleared)
              && r.received == Sums.Over(Events(h), e => AddsTo(e, po).received)
              && r.invoiced == Sums.Over(Events(h), e => AddsTo(e, po).invoiced)
  {
    hide AddsTo, Moves, HandleAll, Handle, Amount;
    var b, s := HandleAll(h), Events(h);
    HandleAllHolds(h);
    forall a
      ensures Balance(b.journal, a) == Sums.Over(s, e => Moves(e, a))
    {
      AccountTotal(b, s, a);
    }
    forall po
      ensures var r := Row(b.accruals, po);
              && r.accrued == Sums.Over(s, e => AddsTo(e, po).accrued)
              && r.cleared == Sums.Over(s, e => AddsTo(e, po).cleared)
              && r.received == Sums.Over(s, e => AddsTo(e, po).received)
              && r.invoiced == Sums.Over(s, e => AddsTo(e, po).invoiced)
    {
      RowTotal(b, s, po);
    }
  }

  lemma AccountTotal(b: Books, s: set<Event>, a: Account)
    requires Holds(b, s)
    ensures Balance(b.journal, a) == Sums.Over(s, e => Moves(e, a))
  {
    hide LinesFor, Moves;
    assert Shown(b, OnAccount(a)) == Total(s, OnAccount(a));
    forall e: Event
      ensures Amount(OnAccount(a), e) == Moves(e, a)
    {
      EventFigures(e, a);
    }
    Sums.Agree(s, e => Amount(OnAccount(a), e), e => Moves(e, a));
  }

  lemma RowTotal(b: Books, s: set<Event>, po: Po)
    requires Holds(b, s)
    ensures var r := Row(b.accruals, po);
            && r.accrued == Sums.Over(s, e => AddsTo(e, po).accrued)
            && r.cleared == Sums.Over(s, e => AddsTo(e, po).cleared)
            && r.received == Sums.Over(s, e => AddsTo(e, po).received)
            && r.invoiced == Sums.Over(s, e => AddsTo(e, po).invoiced)
  {
    hide Amount, AddsTo;
    assert Shown(b, Accrued(po)) == Total(s, Accrued(po)) && Shown(b, Cleared(po)) == Total(s, Cleared(po));
    assert Shown(b, Received(po)) == Total(s, Received(po)) && Shown(b, Invoiced(po)) == Total(s, Invoiced(po));
    forall e: Event
      ensures Accrual(Amount(Accrued(po), e), Amount(Cleared(po), e), Amount(Received(po), e), Amount(Invoiced(po), e))
              == AddsTo(e, po)
    {
      RowFigures(e, po);
    }
    Sums.Agree(s, e => Amount(Accrued(po), e), e => AddsTo(e, po).accrued);
    Sums.Agree(s, e => Amount(Cleared(po), e), e => AddsTo(e, po).cleared);
    Sums.Agree(s, e => Amount(Received(po), e), e => AddsTo(e, po).received);
    Sums.Agree(s, e => Amount(Invoiced(po), e), e => AddsTo(e, po).invoiced);
  }

  /** An order received at a value and invoiced at that net clears 2150, whichever
      document comes first and however often each is delivered. */
  lemma MatchedOrderClears(h: seq<Event>, g: Event, i: Event)
    requires Events(h) == {g, i} && g.id != i.id
    requires g.Grn? && i.Invoice? && g.po == i.po != "" && g.value > 0 && i.taxRate.None?
    requires 0 <= i.vat && i.gross == g.value + i.vat
    ensures Balance(HandleAll(h).journal, GrIr) == 0
    ensures Balance(HandleAll(h).journal, InputVat) == i.vat
    ensures Balance(HandleAll(h).journal, Payables) == -i.gross
    ensures Balance(HandleAll(h).journal, Inventory) + Balance(HandleAll(h).journal, Cogs) == g.value
    ensures Row(HandleAll(h).accruals, g.po) == Accrual(g.value, g.value, g.qty, i.qty)
  {
    hide HandleAll, Balance, Moves, AddsTo;
    AccountsOfTwo(h, g, i);
    RowOfTwo(h, g, i, g.po);
    MatchedFigures(g, i);
  }

  lemma AccountsOfTwo(h: seq<Event>, g: Event, i: Event)
    requires Consistent(Events(h)) && Events(h) == {g, i} && g != i
    ensures forall a :: Balance(HandleAll(h).journal, a) == Moves(g, a) + Moves(i, a)
  {
    hide HandleAll, Balance, Events, Moves, AddsTo;
    BooksAreTheDocuments(h);
    forall a: Account
      ensures Sums.Over(Events(h), e => Moves(e, a)) == Moves(g, a) + Moves(i, a)
    {
      OverTwo(g, i, e => Moves(e, a));
    }
  }

  lemma RowOfTwo(h: seq<Event>, g: Event, i: Event, po: Po)
    requires Consistent(Events(h)) && Events(h) == {g, i} && g != i
    ensures var x, y := AddsTo(g, po), AddsTo(i, po);
            Row(HandleAll(h).accruals, po)
            == Accrual(x.accrued + y.accrued, x.cleared + y.cleared, x.received + y.received, x.invoiced + y.invoiced)
  {
    hide HandleAll, Events, AddsTo;
    BooksAreTheDocuments(h);
    OverTwo(g, i, e => AddsTo(e, po).accrued);
    OverTwo(g, i, e => AddsTo(e, po).cleared);
    OverTwo(g, i, e => AddsTo(e, po).received);
    OverTwo(g, i, e => AddsTo(e, po).invoiced);
  }

  lemma MatchedFigures(g: Event, i: Event)
    requires g.Grn? && i.Invoice? && g.po == i.po != "" && g.value > 0 && i.taxRate.None?
    requires 0 <= i.vat && i.gross == g.value + i.vat
    ensures Moves(g, GrIr) + Moves(i, GrIr) == 0
    ensures Moves(g, InputVat) + Moves(i, InputVat) == i.vat
    ensures Moves(g, Payables) + Moves(i, Payables) == -i.gross
    ensures Moves(g, Inventory) + Moves(i, Inventory) + Moves(g, Cogs) + Moves(i, Cogs) == g.value
    ensures AddsTo(g, g.po) == Accrual(g.value, 0, g.qty, 0) && AddsTo(i, g.po) == Accrual(0, g.value, 0, i.qty)
  {
  }

  lemma OverTwo(x: Event, y: Event, f: Event -> int)
    requires x != y
    ensures Sums.Over({x, y}, f) == f(x) + f(y)
  {
    Sums.Add({x}, y, f);
    Sums.Add({}, x, f);
    assert {x} + {y} == {x, y} && {} + {x} == {x};
  }
}
