/** Goods-received / invoice-received clearing.  A delivery raises up to three
    events, each delivered any number of times and in any order. */
module Grir {
  import opened Ledger
  import opened Money
  import Sums

  type EventId = string
  type Po = string  // "" when the document names no purchase order

  datatype MovementKind =
    | Receipt | Issue | Return | ProductionConsume | ProductionOutput | Adjustment
    | Neutral(name: string)

  /** Base-currency amounts in cents; taxRate, in ten-thousandths, is present when
      the invoice is reverse-charged under a known tax code. */
  datatype Event =
    | Grn(id: EventId, po: Po, value: int, inventoryValue: int, qty: int)
    | Invoice(id: EventId, po: Po, gross: int, vat: int, inventoryValue: int, taxRate: Option<nat>, qty: int)
    | Moved(id: EventId, kind: MovementKind, fromGrn: bool, totalCost: int)

  // ----- the line builders

  /** The part of an amount that goes to stock, whatever split the event carries. */
  function Clamp(split: int, amount: int): (stock: int)
    ensures 0 <= amount ==> 0 <= stock <= amount
    ensures 0 <= split <= amount ==> stock == split
  {
    var stock := if split < 0 then 0 else split;
    if stock > amount then amount else stock
  }

  function StockAndExpense(amount: int, split: int): Entry {
    var stock := Clamp(split, amount);
    DrIfPositive(Inventory, stock) + DrIfPositive(Cogs, amount - stock)
  }

  function GrnLines(value: int, inventoryValue: int): Entry {
    StockAndExpense(value, inventoryValue) + [Cr(GrIr, value)]
  }

  /** A VAT figure that cannot be right is ignored. */
  function VatOf(gross: int, vat: int): int {
    if vat < 0 || vat > gross then 0 else vat
  }

  function InvoiceNet(gross: int, vat: int): int {
    gross - VatOf(gross, vat)
  }

  function ReverseChargeVat(net: int, taxRate: Option<nat>): int {
    if taxRate.Some? then RoundDiv(net * taxRate.value, 10000) else 0
  }

  function InvoiceDebits(po: Po, net: int, split: int): Entry {
    if net <= 0 then [] else if po != "" then [Dr(GrIr, net)] else StockAndExpense(net, split)
  }

  function InvoiceLines(po: Po, gross: int, vat: int, split: int, taxRate: Option<nat>): Entry {
    var net := InvoiceNet(gross, vat);
    var rc := ReverseChargeVat(net, taxRate);
    InvoiceDebits(po, net, split) + DrIfPositive(InputVat, VatOf(gross, vat)) + [Cr(Payables, gross)]
    + (DrIfPositive(InputVat, rc) + CrIfPositive(OutputVat, rc))
  }

  /** A receipt that a goods-receipt note already accrued books nothing. */
  function MovementLines(kind: MovementKind, fromGrn: bool, totalCost: int): Entry {
    var amount := Abs(totalCost);
    if amount == 0 then [] else
    match kind
    case Receipt => if fromGrn then [] else Pair(Inventory, GrIr, amount)
    case Issue => Pair(Cogs, Inventory, amount)
    case Return => Pair(Inventory, Cogs, amount)
    case ProductionConsume => Pair(WorkInProgress, Inventory, amount)
    case ProductionOutput => Pair(Inventory, WorkInProgress, amount)
    case Adjustment => if totalCost < 0 then Pair(Cogs, Inventory, amount) else Pair(Inventory, Cogs, amount)
    case Neutral(_) => []
  }

  lemma StockAndExpenseNet(amount: int, split: int, a: Account)
    requires amount >= 0
    ensures Net(StockAndExpense(amount, split), a)
            == (if a == Inventory then Clamp(split, amount) else if a == Cogs then amount - Clamp(split, amount) else 0)
    ensures Excess(StockAndExpense(amount, split)) == amount
  {
    var stock := Clamp(split, amount);
    NetConcat(DrIfPositive(Inventory, stock), DrIfPositive(Cogs, amount - stock), a);
    NetOne(Dr(Inventory, stock), a);
    NetOne(Dr(Cogs, amount - stock), a);
  }

  /** A goods receipt balances, credits GR/IR its whole value, and splits the
      debit between stock and expense no matter how wrong the split it carries. */
  lemma GrnLinesSound(value: int, inventoryValue: int, a: Account)
    requires value > 0
    ensures Balanced(GrnLines(value, inventoryValue)) && OneSided(GrnLines(value, inventoryValue))
    ensures Net(GrnLines(value, inventoryValue), GrIr) == -value
    ensures Net(GrnLines(value, inventoryValue), Inventory) + Net(GrnLines(value, inventoryValue), Cogs) == value
    ensures 0 <= Net(GrnLines(value, inventoryValue), Inventory) <= value
    ensures a != GrIr && a != Inventory && a != Cogs ==> Net(GrnLines(value, inventoryValue), a) == 0
  {
    var debits := StockAndExpense(value, inventoryValue);
    forall b: Account
      ensures Net(GrnLines(value, inventoryValue), b) == Net(debits, b) + if b == GrIr then -value else 0
      ensures Excess(GrnLines(value, inventoryValue)) == Excess(debits) - value
    {
      NetSnoc(debits, Cr(GrIr, value), b);
    }
    StockAndExpenseNet(value, inventoryValue, a);
    StockAndExpenseNet(value, inventoryValue, GrIr);
    StockAndExpenseNet(value, inventoryValue, Inventory);
    StockAndExpenseNet(value, inventoryValue, Cogs);
  }

  lemma InvoiceNetOn(po: Po, gross: int, vat: int, split: int, taxRate: Option<nat>, a: Account)
    requires gross > 0
    ensures var net := InvoiceNet(gross, vat);
            Net(InvoiceLines(po, gross, vat, split, taxRate), a)
            == Net(InvoiceDebits(po, net, split), a)
               + (if a == InputVat then VatOf(gross, vat) + Max(0, ReverseChargeVat(net, taxRate)) else 0)
               - (if a == Payables then gross else 0)
               - (if a == OutputVat then Max(0, ReverseChargeVat(net, taxRate)) else 0)
    ensures Excess(InvoiceLines(po, gross, vat, split, taxRate))
            == Excess(InvoiceDebits(po, InvoiceNet(gross, vat), split)) + VatOf(gross, vat) - gross
  {
    var net := InvoiceNet(gross, vat);
    var rc := ReverseChargeVat(net, taxRate);
    var d, v, p := InvoiceDebits(po, net, split), DrIfPositive(InputVat, VatOf(gross, vat)), [Cr(Payables, gross)];
    var i, o := DrIfPositive(InputVat, rc), CrIfPositive(OutputVat, rc);
    NetConcat(d, v, a);
    NetConcat(d + v, p, a);
    NetConcat(d + v + p, i + o, a);
    NetConcat(i, o, a);
    NetOne(Dr(InputVat, VatOf(gross, vat)), a);
    NetOne(Cr(Payables, gross), a);
    NetOne(Dr(InputVat, rc), a);
    NetOne(Cr(OutputVat, rc), a);
  }

  lemma InvoiceDebitsNet(po: Po, net: int, split: int, a: Account)
    requires net >= 0
    ensures Net(InvoiceDebits(po, net, split), a)
            == (if po != "" then (if a == GrIr then net else 0)
                else if a == Inventory then Clamp(split, net)
                else if a == Cogs then net - Clamp(split, net) else 0)
    ensures Excess(InvoiceDebits(po, net, split)) == net
  {
    NetOne(Dr(GrIr, net), a);
    StockAndExpenseNet(net, split, a);
  }

  lemma InvoiceLinesOneSided(po: Po, gross: int, vat: int, split: int, taxRate: Option<nat>)
    requires gross > 0
    ensures OneSided(InvoiceLines(po, gross, vat, split, taxRate))
  {
  }

  /** For every VAT figure, split and tax rate an invoice balances, owes the vendor
      the gross and no more, and with a PO clears GR/IR by exactly the net. */
  lemma InvoiceLinesSound(po: Po, gross: int, vat: int, split: int, taxRate: Option<nat>)
    requires gross > 0
    ensures var lines := InvoiceLines(po, gross, vat, split, taxRate);
            && Balanced(lines)
            && Net(lines, Payables) == -gross
            && Net(lines, GrIr) == (if po != "" then InvoiceNet(gross, vat) else 0)
            && (po != "" ==> Net(lines, Inventory) == Net(lines, Cogs) == 0)
            && (po == "" ==> Net(lines, Inventory) + Net(lines, Cogs) == InvoiceNet(gross, vat))
  {
    var net := InvoiceNet(gross, vat);
    InvoiceDebitsNet(po, net, split, Payables);
    InvoiceDebitsNet(po, net, split, GrIr);
    InvoiceDebitsNet(po, net, split, Inventory);
    InvoiceDebitsNet(po, net, split, Cogs);
    InvoiceNetOn(po, gross, vat, split, taxRate, Payables);
    InvoiceNetOn(po, gross, vat, split, taxRate, GrIr);
    InvoiceNetOn(po, gross, vat, split, taxRate, Inventory);
    InvoiceNetOn(po, gross, vat, split, taxRate, Cogs);
  }

  // ----- booking an event

  function LinesFor(e: Event): Entry {
    match e
    case Grn(_, po, value, split, _) => if po == "" || value <= 0 then [] else GrnLines(value, split)
    case Invoice(_, po, gross, vat, split, rate, _) =>
      if gross <= 0 then [] else InvoiceLines(po, gross, vat, split, rate)
    case Moved(_, kind, fromGrn, cost) => MovementLines(kind, fromGrn, cost)
  }

  /** The part of an invoice that clears a purchase order's accrual. */
  function ClearedBy(e: Event): int {
    if e.Invoice? && e.gross > 0 && e.po != "" then InvoiceNet(e.gross, e.vat) else 0
  }

  /** One grni_accruals row. */
  datatype Accrual = Accrual(accrued: int, cleared: int, received: int, invoiced: int)

  const NO_ACCRUAL := Accrual(0, 0, 0, 0)

  function Row(rows: map<Po, Accrual>, po: Po): Accrual {
    if po in rows then rows[po] else NO_ACCRUAL
  }

  /** Whether booking the event writes an accrual row, and for which order. */
  predicate Touches(e: Event, po: Po) {
    || (e.Grn? && LinesFor(e) != [] && e.po == po)
    || (e.Invoice? && ClearedBy(e) > 0 && e.po == po)
  }

  function RowAfter(r: Accrual, e: Event): Accrual {
    match e
    case Grn(_, _, value, _, qty) => r.(accrued := r.accrued + value, received := r.received + qty)
    case Invoice(_, _, _, _, _, _, qty) => r.(cleared := r.cleared + ClearedBy(e), invoiced := r.invoiced + qty)
    case Moved(_, _, _, _) => r
  }

  datatype Books = Books(journal: seq<Entry>, processed: set<EventId>, accruals: map<Po, Accrual>)

  const EMPTY := Books([], {}, map[])

  function Handle(b: Books, e: Event): Books {
    if LinesFor(e) == [] || e.id in b.processed then b
    else Books(b.journal + [LinesFor(e)], b.processed + {e.id},
               if !e.Moved? && Touches(e, e.po) then b.accruals[e.po := RowAfter(Row(b.accruals, e.po), e)] else b.accruals)
  }

  function HandleAll(h: seq<Event>): Books {
    if h == [] then EMPTY else Handle(HandleAll(h[..|h| - 1]), h[|h| - 1])
  }

  // ----- order-free measures

  datatype Measure =
    | OnAccount(a: Account)
    | Accrued(po: Po)
    | Cleared(po: Po)
    | Received(po: Po)
    | Invoiced(po: Po)

  /** What one event contributes to a measure. */
  function Amount(m: Measure, e: Event): int {
    match m
    case OnAccount(a) => Net(LinesFor(e), a)
    case Accrued(po) => if e.Grn? && Touches(e, po) then e.value else 0
    case Received(po) => if e.Grn? && Touches(e, po) then e.qty else 0
    case Cleared(po) => if e.Invoice? && Touches(e, po) then ClearedBy(e) else 0
    case Invoiced(po) => if e.Invoice? && Touches(e, po) then e.qty else 0
  }

  /** What the books show for it. */
  function Shown(b: Books, m: Measure): int {
    match m
    case OnAccount(a) => Balance(b.journal, a)
    case Accrued(po) => Row(b.accruals, po).accrued
    case Cleared(po) => Row(b.accruals, po).cleared
    case Received(po) => Row(b.accruals, po).received
    case Invoiced(po) => Row(b.accruals, po).invoiced
  }

  ghost function Total(s: set<Event>, m: Measure): int {
    Sums.Over(s, e => Amount(m, e))
  }

  lemma TotalAdd(s: set<Event>, e: Event, m: Measure)
    requires e !in s
    ensures Total(s + {e}, m) == Total(s, m) + Amount(m, e)
  {
    Sums.Add(s, e, x => Amount(m, x));
  }

  function Events(h: seq<Event>): set<Event> {
    set k | 0 <= k < |h| :: h[k]
  }

  /** Two deliveries with one id are deliveries of one event. */
  ghost predicate Consistent(s: set<Event>) {
    forall x, y :: x in s && y in s && x.id == y.id ==> x == y
  }

  /** Books that hold a set of events and nothing else. */
  ghost predicate Holds(b: Books, s: set<Event>) {
    && (forall e :: e in s && LinesFor(e) != [] ==> e.id in b.processed)
    && (forall i :: i in b.processed ==> exists e :: e in s && e.id == i && LinesFor(e) != [])
    && (forall m :: Shown(b, m) == Total(s, m))
    && (forall po :: po in b.accruals <==> exists e :: e in s && Touches(e, po))
  }

  lemma NothingBooked(e: Event, m: Measure)
    requires LinesFor(e) == []
    ensures Amount(m, e) == 0 && forall po :: !Touches(e, po)
  {
  }

  lemma HandleShows(b: Books, e: Event, m: Measure)
    requires LinesFor(e) != [] && e.id !in b.processed
    ensures Shown(Handle(b, e), m) == Shown(b, m) + Amount(m, e)
  {
    if m.OnAccount? {
      BalanceSnoc(b.journal, LinesFor(e), m.a);
    }
  }

  lemma HandleHolds(b: Books, s: set<Event>, e: Event)
    requires Holds(b, s) && Consistent(s + {e})
    ensures Holds(Handle(b, e), s + {e})
  {
    var t, u := Handle(b, e), s + {e};
    if e in s {
      assert u == s;
      assert t == b;
    } else if LinesFor(e) == [] {
      forall m ensures Shown(t, m) == Total(u, m) {
        TotalAdd(s, e, m);
        NothingBooked(e, m);
      }
      NothingBooked(e, OnAccount(Cash));
      HoldsKeys(b, s, e);
    } else {
      assert e in u && s <= u;
      assert e.id !in b.processed;
      forall m ensures Shown(t, m) == Total(u, m) {
        TotalAdd(s, e, m);
        HandleShows(b, e, m);
      }
      HoldsKeys(b, s, e);
    }
  }

  /** Which keys the two tables have after one more event. */
  lemma HoldsKeys(b: Books, s: set<Event>, e: Event)
    requires Holds(b, s) && e !in s && (LinesFor(e) == [] || e.id !in b.processed)
    ensures var t, u := Handle(b, e), s + {e};
            && (forall x :: x in u && LinesFor(x) != [] ==> x.id in t.processed)
            && (forall i :: i in t.processed ==> exists x :: x in u && x.id == i && LinesFor(x) != [])
            && (forall po :: po in t.accruals <==> exists x :: x in u && Touches(x, po))
  {
    var t, u := Handle(b, e), s + {e};
    assert e in u;
    if LinesFor(e) == [] {
      NothingBooked(e, OnAccount(Cash));
    }
    forall i | i in t.processed
      ensures exists x :: x in u && x.id == i && LinesFor(x) != []
    {
      if i in b.processed {
        var x :| x in s && x.id == i && LinesFor(x) != [];
        assert x in u;
      }
    }
    forall po
      ensures po in t.accruals <==> exists x :: x in u && Touches(x, po)
    {
      if po in b.accruals {
        var x :| x in s && Touches(x, po);
        assert x in u;
      }
      if x :| x in u && Touches(x, po) {
        assert x == e || x in s;
      }
    }
  }

  lemma {:induction false} HandleAllHolds(h: seq<Event>)
    requires Consistent(Events(h))
    ensures Holds(HandleAll(h), Events(h))
  {
    if h == [] {
      assert Events(h) == {};
    } else {
      var init, e := h[..|h| - 1], h[|h| - 1];
      EventsSnoc(h);
      HandleAllHolds(init);
      HandleHolds(HandleAll(init), Events(init), e);
    }
  }

  lemma SameRows(b: Books, c: Books, po: Po)
    requires forall m :: Shown(b, m) == Shown(c, m)
    ensures Row(b.accruals, po) == Row(c.accruals, po)
  {
    assert Shown(b, Accrued(po)) == Shown(c, Accrued(po)) && Shown(b, Cleared(po)) == Shown(c, Cleared(po));
    assert Shown(b, Received(po)) == Shown(c, Received(po)) && Shown(b, Invoiced(po)) == Shown(c, Invoiced(po));
  }

  lemma SameProcessed(b: Books, c: Books, s: set<Event>)
    requires Holds(b, s) && Holds(c, s)
    ensures b.processed <= c.processed
  {
    forall i | i in b.processed
      ensures i in c.processed
    {
      var e :| e in s && e.id == i && LinesFor(e) != [];
    }
  }

  lemma HoldsDetermines(b: Books, c: Books, s: set<Event>)
    requires Holds(b, s) && Holds(c, s)
    ensures forall a :: Balance(b.journal, a) == Balance(c.journal, a)
    ensures b.processed == c.processed && b.accruals == c.accruals
  {
    SameProcessed(b, c, s);
    SameProcessed(c, b, s);
    assert forall m :: Shown(b, m) == Shown(c, m);
    forall a
      ensures Balance(b.journal, a) == Balance(c.journal, a)
    {
      assert Shown(b, OnAccount(a)) == Shown(c, OnAccount(a));
    }
    forall po
      ensures Row(b.accruals, po) == Row(c.accruals, po)
      ensures po in b.accruals <==> po in c.accruals
    {
      SameRows(b, c, po);
    }
  }

  /** Confluence: account balances, processed events and accrual rows depend only
      on which events were delivered, not on order or repetition. */
  lemma OrderIndependent(h: seq<Event>, g: seq<Event>)
    requires Consistent(Events(h)) && Events(h) == Events(g)
    ensures forall a :: Balance(HandleAll(h).journal, a) == Balance(HandleAll(g).journal, a)
    ensures HandleAll(h).processed == HandleAll(g).processed
    ensures HandleAll(h).accruals == HandleAll(g).accruals
  {
    HandleAllHolds(h);
    HandleAllHolds(g);
    HoldsDetermines(HandleAll(h), HandleAll(g), Events(h));
  }

  /** A warehouse receipt that a goods-receipt note accounts for adds nothing. */
  lemma GrnProvenanceAddsNothing(b: Books, id: EventId, cost: int)
    ensures Handle(b, Moved(id, Receipt, true, cost)) == b
  {
  }

  // ----- the GR/IR control account against the accrual rows

  ghost function OpenTotal(rows: map<Po, Accrual>): int {
    Sums.Over(rows.Keys, po => Row(rows, po).accrued - Row(rows, po).cleared)
  }

  lemma OpenTotalUpdate(rows: map<Po, Accrual>, po: Po, r: Accrual)
    ensures OpenTotal(rows[po := r])
            == OpenTotal(rows) + r.accrued - r.cleared - (Row(rows, po).accrued - Row(rows, po).cleared)
  {
    var t := rows[po := r];
    var f := (x: Po) => Row(rows, x).accrued - Row(rows, x).cleared;
    var g := (x: Po) => Row(t, x).accrued - Row(t, x).cleared;
    var others := rows.Keys - {po};
    Sums.Remove(t.Keys, po, g);
    assert t.Keys - {po} == others;
    Sums.Agree(others, f, g);
    if po in rows {
      Sums.Remove(rows.Keys, po, f);
    } else {
      assert others == rows.Keys;
    }
  }

  /** Warehouse receipts that no goods-receipt note accounts for. */
  function StrayReceipt(e: Event): nat {
    if e.Moved? && e.kind.Receipt? && !e.fromGrn then Abs(e.totalCost) else 0
  }

  /** Their total over a history, each event counted once. */
  function StrayTotal(h: seq<Event>): nat {
    if h == [] then 0
    else StrayTotal(h[..|h| - 1])
         + if h[|h| - 1].id in HandleAll(h[..|h| - 1]).processed then 0 else StrayReceipt(h[|h| - 1])
  }

  lemma GrirEffect(e: Event)
    ensures -Net(LinesFor(e), GrIr)
            == (if e.Grn? && LinesFor(e) != [] then e.value else 0) - ClearedBy(e) + StrayReceipt(e)
  {
    match e
    case Grn(_, po, value, split, _) =>
      if po != "" && value > 0 {
        GrnLinesSound(value, split, GrIr);
      }
    case Invoice(_, po, gross, vat, split, rate, _) =>
      if gross > 0 {
        InvoiceLinesSound(po, gross, vat, split, rate);
      }
    case Moved(_, kind, fromGrn, cost) =>
      var n := Abs(cost);
      PairNet(Inventory, GrIr, n, GrIr);
      PairNet(Cogs, Inventory, n, GrIr);
      PairNet(Inventory, Cogs, n, GrIr);
      PairNet(WorkInProgress, Inventory, n, GrIr);
      PairNet(Inventory, WorkInProgress, n, GrIr);
  }

  lemma ControlStep(b: Books, e: Event)
    ensures CreditBalance(Handle(b, e).journal, GrIr) - OpenTotal(Handle(b, e).accruals)
            == CreditBalance(b.journal, GrIr) - OpenTotal(b.accruals)
               + if e.id in b.processed then 0 else StrayReceipt(e)
  {
    GrirEffect(e);
    if LinesFor(e) != [] && e.id !in b.processed {
      BalanceSnoc(b.journal, LinesFor(e), GrIr);
      if !e.Moved? && Touches(e, e.po) {
        OpenTotalUpdate(b.accruals, e.po, RowAfter(Row(b.accruals, e.po), e));
      }
    } else if LinesFor(e) == [] {
      NothingBooked(e, OnAccount(GrIr));
    }
  }

  /** At every moment the GR/IR credit balance is the open accruals plus the
      receipts that arrived outside any goods-receipt note. */
  lemma {:induction false} ControlDifference(h: seq<Event>)
    ensures var b := HandleAll(h);
            CreditBalance(b.journal, GrIr) - OpenTotal(b.accruals) == StrayTotal(h)
  {
    if h != [] {
      ControlDifference(h[..|h| - 1]);
      ControlStep(HandleAll(h[..|h| - 1]), h[|h| - 1]);
    }
  }

  /** With one event per id, the difference is zero exactly when every warehouse
      receipt delivered came from a goods-receipt note. */
  lemma ReconciledIffNoStrayReceipt(h: seq<Event>)
    requires Consistent(Events(h))
    ensures CreditBalance(HandleAll(h).journal, GrIr) == OpenTotal(HandleAll(h).accruals)
            <==> forall e :: e in Events(h) ==> StrayReceipt(e) == 0
  {
    ControlDifference(h);
    StrayTotalZeroIff(h);
  }

  /** One warehouse receipt of its own is enough to put 2150 off. */
  lemma StrayReceiptIsOff(id: EventId, cost: int)
    requires cost > 0
    ensures var b := HandleAll([Moved(id, Receipt, false, cost)]);
            CreditBalance(b.journal, GrIr) - OpenTotal(b.accruals) == cost
  {
    var h := [Moved(id, Receipt, false, cost)];
    ControlDifference(h);
    assert h[..0] == [] && StrayTotal([]) == 0;
    assert HandleAll([]) == EMPTY;
  }

  lemma EventsSnoc(h: seq<Event>)
    requires h != []
    ensures Events(h) == Events(h[..|h| - 1]) + {h[|h| - 1]}
  {
    var init := h[..|h| - 1];
    forall x | x in Events(h)
      ensures x in Events(init) + {h[|h| - 1]}
    {
      var k :| 0 <= k < |h| && h[k] == x;
      assert k < |init| ==> init[k] == x;
    }
    forall x | x in Events(init)
      ensures x in Events(h)
    {
      var k :| 0 <= k < |init| && init[k] == x;
      assert h[k] == x;
    }
    assert h[|h| - 1] in Events(h);
  }

  lemma {:induction false} StrayTotalZeroIff(h: seq<Event>)
    requires Consistent(Events(h))
    ensures StrayTotal(h) == 0 <==> forall e :: e in Events(h) ==> StrayReceipt(e) == 0
  {
    if h != [] {
      var init, e := h[..|h| - 1], h[|h| - 1];
      EventsSnoc(h);
      StrayTotalZeroIff(init);
      HandleAllHolds(init);
      assert e in Events(h);
      if e.id in HandleAll(init).processed {
        var x :| x in Events(init) && x.id == e.id && LinesFor(x) != [];
        assert x in Events(h);
      }
    }
  }

  /** Stock plus expense debited for one purchase order, over the entries booked. */
  function PoCost(h: seq<Event>, po: Po): int {
    if h == [] then 0 else
      var b, e := HandleAll(h[..|h| - 1]), h[|h| - 1];
      PoCost(h[..|h| - 1], po)
      + if e.id in b.processed || e.Moved? || e.po != po then 0
        else Net(LinesFor(e), Inventory) + Net(LinesFor(e), Cogs)
  }

  lemma CostEffect(e: Event)
    requires !e.Moved? && e.po != ""
    ensures Net(LinesFor(e), Inventory) + Net(LinesFor(e), Cogs)
            == if e.Grn? && LinesFor(e) != [] then e.value else 0
  {
    if e.Grn? && e.value > 0 {
      GrnLinesSound(e.value, e.inventoryValue, Cash);
    } else if e.Invoice? && e.gross > 0 {
      InvoiceLinesSound(e.po, e.gross, e.vat, e.inventoryValue, e.taxRate);
    }
  }

  lemma AccruedStep(b: Books, e: Event, po: Po)
    ensures Row(Handle(b, e).accruals, po).accrued
            == Row(b.accruals, po).accrued
               + if e.Grn? && LinesFor(e) != [] && e.id !in b.processed && e.po == po then e.value else 0
  {
  }

  /** It is the value received against the order, whatever split each receipt and
      invoice claims and whichever arrives first. */
  lemma {:induction false} PoCostIsValueReceived(h: seq<Event>, po: Po)
    requires po != ""
    ensures PoCost(h, po) == Row(HandleAll(h).accruals, po).accrued
  {
    if h != [] {
      var b, e := HandleAll(h[..|h| - 1]), h[|h| - 1];
      PoCostIsValueReceived(h[..|h| - 1], po);
      AccruedStep(b, e, po);
      if !e.Moved? && e.po == po {
        CostEffect(e);
      }
    }
  }

  class GrirLedger {
    var journal: seq<Entry>
    var processed: set<EventId>
    var accruals: map<Po, Accrual>

    function Contents(): Books
      reads this
    {
      Books(journal, processed, accruals)
    }

    constructor ()
      ensures Contents() == EMPTY
    {
      journal, processed, accruals := [], {}, map[];
    }

    /** AddGRNIAccrualTx: raise the accrued total, inserting the row if missing. */
    method AddAccrual(po: Po, amount: int, qty: int)
      modifies this`accruals
      ensures var r := Row(old(accruals), po);
              accruals == old(accruals)[po := r.(accrued := r.accrued + amount, received := r.received + qty)]
    {
      if po in accruals {
        var r := accruals[po];
        accruals := accruals[po := r.(accrued := r.accrued + amount, received := r.received + qty)];
      } else {
        accruals := accruals[po := Accrual(amount, 0, qty, 0)];
      }
    }

    /** ClearGRNIAccrualTx: an invoice may arrive before its goods receipt. */
    method ClearAccrual(po: Po, amount: int, qty: int)
      modifies this`accruals
      ensures var r := Row(old(accruals), po);
              accruals == old(accruals)[po := r.(cleared := r.cleared + amount, invoiced := r.invoiced + qty)]
    {
      if po in accruals {
        var r := accruals[po];
        accruals := accruals[po := r.(cleared := r.cleared + amount, invoiced := r.invoiced + qty)];
      } else {
        accruals := accruals[po := Accrual(0, amount, 0, qty)];
      }
    }

    method BookGrnAccrual(id: EventId, po: Po, value: int, inventoryValue: int, qty: int)
      modifies this
      ensures Contents() == Handle(old(Contents()), Grn(id, po, value, inventoryValue, qty))
    {
      if po == "" || value <= 0 {
        return;
      }
      var lines := GrnLines(value, inventoryValue);
      if id in processed {
        return;
      }
      journal := journal + [lines];
      processed := processed + {id};
      AddAccrual(po, value, qty);
    }

    method BookApInvoice(id: EventId, po: Po, gross: int, vat: int, inventoryValue: int, taxRate: Option<nat>, qty: int)
      modifies this
      ensures Contents() == Handle(old(Contents()), Invoice(id, po, gross, vat, inventoryValue, taxRate, qty))
    {
      if gross <= 0 {
        return;
      }
      var includedVat := vat;
      if vat < 0 || vat > gross {
        includedVat := 0;
      }
      var net := gross - includedVat;
      var rcVat := 0;
      if taxRate.Some? {
        rcVat := RoundDiv(net * taxRate.value, 10000);
      }
      var lines: Entry := [];
      var netToGrir := po != "" && net > 0;
      if netToGrir {
        lines := [Dr(GrIr, net)];
      } else if net > 0 {
        var stock := Clamp(inventoryValue, net);
        lines := DrIfPositive(Inventory, stock) + DrIfPositive(Cogs, net - stock);
      }
      if includedVat > 0 {
        lines := lines + [Dr(InputVat, includedVat)];
      }
      lines := lines + [Cr(Payables, gross)];
      if rcVat > 0 {
        lines := lines + [Dr(InputVat, rcVat), Cr(OutputVat, rcVat)];
      }
      assert lines == InvoiceLines(po, gross, vat, inventoryValue, taxRate);
      if id in processed {
        return;
      }
      journal := journal + [lines];
      processed := processed + {id};
      if netToGrir {
        ClearAccrual(po, net, qty);
      }
    }

    method BookInventoryMovement(id: EventId, kind: MovementKind, fromGrn: bool, totalCost: int)
      modifies this
      ensures Contents() == Handle(old(Contents()), Moved(id, kind, fromGrn, totalCost))
    {
      var lines := MovementLines(kind, fromGrn, totalCost);
      if lines == [] || id in processed {
        return;
      }
      journal := journal + [lines];
      processed := processed + {id};
    }
  }
}
