/** Open items against their control accounts.  An item is created together with
    an outbox row; a relay publishes rows at least once; consumers book them in
    any order, any number of times; payments and notes change item and ledger in
    one transaction. */
module Subledger {
  import opened Ledger
  import opened Money
  import Grir

  datatype Side = AR | AP

  datatype NoteKind = Credit | Debit

  /** The synthetic event ids; distinct forms never collide. */
  datatype EventId =
    | ItemPosted(side: Side, doc: string)                     // sale.completed:doc / invoice.posted:doc
    | PaymentMade(side: Side, item: nat, ref: string)         // payment.ar:item:ref / payment.ap:item:ref
    | NoteBooked(side: Side, kind: NoteKind, docRef: string)  // adjustment.side:kind:docRef

  datatype Status = Open | Partial | Closed

  datatype Item = Item(side: Side, doc: string, amount: int, paid: int, status: Status)

  /** The event payload; vat, po, split and taxRate shape the entry, amount is the
      gross, split the part of it that goes to stock. */
  datatype Message = Message(side: Side, doc: string, amount: int, vat: int, po: string, split: int,
                             taxRate: Option<nat>)

  function IdOf(m: Message): EventId {
    ItemPosted(m.side, m.doc)
  }

  datatype OutboxRow = OutboxRow(msg: Message, published: bool, attempts: nat)

  datatype State = State(items: seq<Item>, outbox: seq<OutboxRow>, bus: seq<Message>,
                         processed: set<EventId>, journal: seq<Entry>)

  const EMPTY := State([], [], [], {}, [])

  const MAX_PUBLISH_ATTEMPTS := 6000
  const OUTBOX_BATCH := 100

  datatype Op =
    | CreateItem(m: Message)
    | Publish(row: nat)
    | MarkPublished(row: nat)
    | MarkFailed(row: nat)
    | Consume(delivery: nat, periodOpen: bool)
    | Pay(side: Side, item: nat, amount: int, ref: string)
    | Note(side: Side, kind: NoteKind, doc: string, amount: int, docRef: string, periodOpen: bool)

  datatype Reply =
    | Done
    | Replayed
    | Duplicate          // unique violation on document_ref
    | CheckViolation     // amount > 0 on the table
    | NotFound
    | PaymentExceeds
    | AdjustmentTooLarge
    | PeriodClosed
    | NothingToDo

  // ----- the entries

  function SaleLines(amount: int, vat: int): Entry {
    if 0 < vat < amount
    then [Dr(Receivables, amount), Cr(Revenue, amount - vat), Cr(OutputVat, vat)]
    else [Dr(Receivables, amount), Cr(Revenue, amount)]
  }

  function PostingLines(m: Message): Entry {
    match m.side
    case AR => SaleLines(m.amount, m.vat)
    case AP => Grir.InvoiceLines(m.po, m.amount, m.vat, m.split, m.taxRate)
  }

  function PaymentLines(side: Side, amount: int): Entry {
    match side
    case AR => Pair(Cash, Receivables, amount)
    case AP => Pair(Payables, Cash, amount)
  }

  function NoteLines(side: Side, kind: NoteKind, amount: int): Entry {
    match (side, kind)
    case (AR, Credit) => Pair(Revenue, Receivables, amount)
    case (AR, Debit) => Pair(Receivables, Revenue, amount)
    case (AP, Credit) => Pair(Payables, VendorNotes, amount)
    case (AP, Debit) => Pair(VendorNotes, Payables, amount)
  }

  /** What an entry adds to a side's control account, in its natural direction. */
  function ControlEffect(lines: Entry, side: Side): int {
    match side
    case AR => Net(lines, Receivables)
    case AP => -Net(lines, Payables)
  }

  function ControlBalance(journal: seq<Entry>, side: Side): int {
    match side
    case AR => Balance(journal, Receivables)
    case AP => CreditBalance(journal, Payables)
  }

  lemma ControlSnoc(journal: seq<Entry>, lines: Entry, side: Side)
    ensures ControlBalance(journal + [lines], side) == ControlBalance(journal, side) + ControlEffect(lines, side)
  {
    BalanceSnoc(journal, lines, if side.AR? then Receivables else Payables);
  }

  lemma PostingEffect(m: Message, side: Side)
    requires m.amount > 0
    ensures Balanced(PostingLines(m))
    ensures ControlEffect(PostingLines(m), side) == if m.side == side then m.amount else 0
  {
    match m.side
    case AP =>
      Grir.InvoiceLinesSound(m.po, m.amount, m.vat, m.split, m.taxRate);
      Grir.InvoiceNetOn(m.po, m.amount, m.vat, m.split, m.taxRate, Receivables);
      Grir.InvoiceDebitsNet(m.po, Grir.InvoiceNet(m.amount, m.vat), m.split, Receivables);
    case AR =>
      if 0 < m.vat < m.amount {
        var two := [Dr(Receivables, m.amount), Cr(Revenue, m.amount - m.vat)];
        assert PostingLines(m) == two + [Cr(OutputVat, m.vat)];
        NetSnoc(two, Cr(OutputVat, m.vat), Receivables);
        NetSnoc(two, Cr(OutputVat, m.vat), Payables);
        assert two == [Dr(Receivables, m.amount)] + [Cr(Revenue, m.amount - m.vat)];
        NetSnoc([Dr(Receivables, m.amount)], Cr(Revenue, m.amount - m.vat), Receivables);
        NetSnoc([Dr(Receivables, m.amount)], Cr(Revenue, m.amount - m.vat), Payables);
        NetOne(Dr(Receivables, m.amount), Receivables);
        NetOne(Dr(Receivables, m.amount), Payables);
      } else {
        assert PostingLines(m) == Pair(Receivables, Revenue, m.amount);
        PairNet(Receivables, Revenue, m.amount, Receivables);
        PairNet(Receivables, Revenue, m.amount, Payables);
      }
  }

  lemma PaymentEffect(paid: Side, amount: int, side: Side)
    ensures Balanced(PaymentLines(paid, amount))
    ensures ControlEffect(PaymentLines(paid, amount), side) == if paid == side then -amount else 0
  {
    PairNet(Cash, Receivables, amount, if side.AR? then Receivables else Payables);
    PairNet(Payables, Cash, amount, if side.AR? then Receivables else Payables);
  }

  function Delta(kind: NoteKind, amount: int): int {
    if kind.Credit? then -amount else amount
  }

  lemma NoteEffect(noted: Side, kind: NoteKind, amount: int, side: Side)
    ensures Balanced(NoteLines(noted, kind, amount))
    ensures ControlEffect(NoteLines(noted, kind, amount), side) == if noted == side then Delta(kind, amount) else 0
  {
    var control := if side.AR? then Receivables else Payables;
    PairNet(Revenue, Receivables, amount, control);
    PairNet(Receivables, Revenue, amount, control);
    PairNet(Payables, VendorNotes, amount, control);
    PairNet(VendorNotes, Payables, amount, control);
  }

  // ----- one transaction

  function Find(items: seq<Item>, side: Side, doc: string): (r: Option<nat>)
    ensures r.Some? ==> r.value < |items| && items[r.value].side == side && items[r.value].doc == doc
    ensures r.None? ==> forall k :: 0 <= k < |items| ==> !(items[k].side == side && items[k].doc == doc)
  {
    if items == [] then None
    else if items[|items| - 1].side == side && items[|items| - 1].doc == doc then Some(|items| - 1)
    else
      var r := Find(items[..|items| - 1], side, doc);
      assert forall k :: 0 <= k < |items| - 1 ==> items[k] == items[..|items| - 1][k];
      r
  }

  ghost predicate Enqueued(outbox: seq<OutboxRow>, id: EventId) {
    exists k :: 0 <= k < |outbox| && IdOf(outbox[k].msg) == id
  }

  function StatusAfterPayment(total: int, paid: int): Status {
    if paid >= total then Closed else Partial
  }

  function StatusAfterNote(amount: int, paid: int): Status {
    if amount == paid then Closed else if paid > 0 then Partial else Open
  }

  ghost function ReplyTo(s: State, op: Op): Reply {
    match op
    case CreateItem(m) =>
      if Find(s.items, m.side, m.doc).Some? then Duplicate
      else if m.amount <= 0 then CheckViolation else Done
    case Publish(row) =>
      if row < |s.outbox| && !s.outbox[row].published && s.outbox[row].attempts < MAX_PUBLISH_ATTEMPTS
      then Done else NothingToDo
    case MarkPublished(row) => if row < |s.outbox| && s.outbox[row].msg in s.bus then Done else NothingToDo
    case MarkFailed(row) => if row < |s.outbox| then Done else NothingToDo
    case Consume(d, periodOpen) =>
      if d >= |s.bus| then NothingToDo
      else if !periodOpen then PeriodClosed
      else if IdOf(s.bus[d]) in s.processed then Replayed else Done
    case Pay(side, i, amount, ref) =>
      if PaymentMade(side, i, ref) in s.processed then Replayed
      else if i >= |s.items| || s.items[i].side != side then NotFound
      else if s.items[i].paid + amount > s.items[i].amount then PaymentExceeds
      else if amount <= 0 then CheckViolation else Done
    case Note(side, kind, doc, amount, docRef, periodOpen) =>
      var found := Find(s.items, side, doc);
      if amount <= 0 || found.None? then NotFound
      else if !periodOpen then PeriodClosed
      else if NoteBooked(side, kind, docRef) in s.processed then Replayed
      else
        var it := s.items[found.value];
        var newAmount := it.amount + Delta(kind, amount);
        if it.status.Closed? then NotFound
        else if newAmount < 0 || newAmount < it.paid then AdjustmentTooLarge
        else if newAmount == 0 then CheckViolation else Done
  }

  /** A refused or replayed transaction changes nothing. */
  ghost function Step(s: State, op: Op): State {
    if !ReplyTo(s, op).Done? then s else
    match op
    case CreateItem(m) =>
      s.(items := s.items + [Item(m.side, m.doc, m.amount, 0, Open)],
         outbox := if Enqueued(s.outbox, IdOf(m)) then s.outbox else s.outbox + [OutboxRow(m, false, 0)])
    case Publish(row) => s.(bus := s.bus + [s.outbox[row].msg])
    case MarkPublished(row) => s.(outbox := s.outbox[row := s.outbox[row].(published := true)])
    case MarkFailed(row) => s.(outbox := s.outbox[row := s.outbox[row].(attempts := s.outbox[row].attempts + 1)])
    case Consume(d, _) =>
      s.(journal := s.journal + [PostingLines(s.bus[d])], processed := s.processed + {IdOf(s.bus[d])})
    case Pay(side, i, amount, ref) =>
      var it := s.items[i];
      var paid := it.paid + amount;
      s.(items := s.items[i := it.(paid := paid, status := StatusAfterPayment(it.amount, paid))],
         journal := s.journal + [PaymentLines(side, amount)],
         processed := s.processed + {PaymentMade(side, i, ref)})
    case Note(side, kind, doc, amount, docRef, _) =>
      var i := Find(s.items, side, doc).value;
      var it := s.items[i];
      var newAmount := it.amount + Delta(kind, amount);
      s.(items := s.items[i := it.(amount := newAmount, status := StatusAfterNote(newAmount, it.paid))],
         journal := s.journal + [NoteLines(side, kind, amount)],
         processed := s.processed + {NoteBooked(side, kind, docRef)})
  }

  ghost function StepAll(s: State, ops: seq<Op>): State {
    if ops == [] then s else Step(StepAll(s, ops[..|ops| - 1]), ops[|ops| - 1])
  }

  ghost function Run(ops: seq<Op>): State {
    StepAll(EMPTY, ops)
  }

  lemma StepAllSnoc(s: State, ops: seq<Op>, op: Op)
    ensures StepAll(s, ops + [op]) == Step(StepAll(s, ops), op)
  {
    assert (ops + [op])[..|ops|] == ops;
  }

  lemma {:induction false} StepAllConcat(s: State, xs: seq<Op>, ys: seq<Op>)
    ensures StepAll(s, xs + ys) == StepAll(StepAll(s, xs), ys)
  {
    if ys == [] {
      assert xs + ys == xs;
    } else {
      StepAllConcat(s, xs, ys[..|ys| - 1]);
      assert (xs + ys)[..|xs + ys| - 1] == xs + ys[..|ys| - 1];
    }
  }

  // ----- sums

  /** Open balances of a side's first n items. */
  function OpenTo(items: seq<Item>, n: nat, side: Side): int
    requires n <= |items|
  {
    if n == 0 then 0
    else OpenTo(items, n - 1, side) + if items[n - 1].side == side then items[n - 1].amount - items[n - 1].paid else 0
  }

  /** The subledger column of the control report: items not closed. */
  function ReportedTo(items: seq<Item>, n: nat, side: Side): int
    requires n <= |items|
  {
    if n == 0 then 0
    else ReportedTo(items, n - 1, side)
         + if items[n - 1].side == side && !items[n - 1].status.Closed? then items[n - 1].amount - items[n - 1].paid else 0
  }

  /** Amounts of the first n outbox rows not yet booked. */
  function InFlightTo(outbox: seq<OutboxRow>, n: nat, processed: set<EventId>, side: Side): int
    requires n <= |outbox|
  {
    if n == 0 then 0
    else InFlightTo(outbox, n - 1, processed, side)
         + if outbox[n - 1].msg.side == side && IdOf(outbox[n - 1].msg) !in processed then outbox[n - 1].msg.amount else 0
  }

  function InFlight(s: State, side: Side): int {
    InFlightTo(s.outbox, |s.outbox|, s.processed, side)
  }

  /** GL balance less subledger, as the control report prints it. */
  function ReportedDifference(s: State, side: Side): int {
    ControlBalance(s.journal, side) - ReportedTo(s.items, |s.items|, side)
  }

  // ----- invariants

  predicate ItemValid(it: Item) {
    && 0 <= it.paid <= it.amount && 0 < it.amount
    && (it.status.Closed? <==> it.paid == it.amount)
    && (it.status.Open? ==> it.paid == 0)
    && (it.status.Partial? ==> it.paid > 0)
  }

  ghost predicate OutboxValid(s: State) {
    && (forall k :: 0 <= k < |s.outbox| ==>
          s.outbox[k].msg.amount > 0 && Find(s.items, s.outbox[k].msg.side, s.outbox[k].msg.doc).Some?)
    && (forall k, m :: 0 <= k < m < |s.outbox| ==> IdOf(s.outbox[k].msg) != IdOf(s.outbox[m].msg))
    && (forall b :: b in s.bus ==> Sent(s.outbox, b))
    && (forall id :: id in s.processed && id.ItemPosted? ==> Enqueued(s.outbox, id))
  }

  ghost predicate Sent(outbox: seq<OutboxRow>, m: Message) {
    exists k :: 0 <= k < |outbox| && outbox[k].msg == m
  }

  ghost predicate Valid(s: State) {
    && (forall k :: 0 <= k < |s.items| ==> ItemValid(s.items[k]))
    && OutboxValid(s)
  }

  ghost predicate Conserved(s: State, side: Side) {
    OpenTo(s.items, |s.items|, side) - ControlBalance(s.journal, side) == InFlight(s, side)
  }

  // ----- how the sums move

  lemma {:induction false} OpenSame(xs: seq<Item>, ys: seq<Item>, n: nat, side: Side)
    requires n <= |xs| && n <= |ys| && forall k :: 0 <= k < n ==> xs[k] == ys[k]
    ensures OpenTo(xs, n, side) == OpenTo(ys, n, side)
  {
    if n > 0 {
      OpenSame(xs, ys, n - 1, side);
    }
  }

  lemma {:induction false} OpenUpdate(items: seq<Item>, i: nat, it: Item, n: nat, side: Side)
    requires i < n <= |items| && it.side == items[i].side
    ensures OpenTo(items[i := it], n, side)
            == OpenTo(items, n, side)
               + if it.side == side then it.amount - it.paid - (items[i].amount - items[i].paid) else 0
  {
    if n == i + 1 {
      OpenSame(items[i := it], items, i, side);
    } else {
      OpenUpdate(items, i, it, n - 1, side);
    }
  }

  lemma {:induction false} FlightSame(xs: seq<OutboxRow>, ys: seq<OutboxRow>, n: nat, p: set<EventId>, q: set<EventId>, side: Side)
    requires n <= |xs| && n <= |ys|
    requires forall k :: 0 <= k < n ==> xs[k].msg == ys[k].msg && (IdOf(xs[k].msg) in p <==> IdOf(xs[k].msg) in q)
    ensures InFlightTo(xs, n, p, side) == InFlightTo(ys, n, q, side)
  {
    if n > 0 {
      FlightSame(xs, ys, n - 1, p, q, side);
    }
  }

  /** Booking one row's event takes exactly its amount out of flight. */
  lemma {:induction false} FlightLands(outbox: seq<OutboxRow>, i: nat, n: nat, p: set<EventId>, side: Side)
    requires i < n <= |outbox| && IdOf(outbox[i].msg) !in p
    requires forall k, m :: 0 <= k < m < |outbox| ==> IdOf(outbox[k].msg) != IdOf(outbox[m].msg)
    ensures InFlightTo(outbox, n, p + {IdOf(outbox[i].msg)}, side)
            == InFlightTo(outbox, n, p, side) - if outbox[i].msg.side == side then outbox[i].msg.amount else 0
  {
    if n == i + 1 {
      FlightSame(outbox, outbox, i, p, p + {IdOf(outbox[i].msg)}, side);
    } else {
      FlightLands(outbox, i, n - 1, p, side);
    }
  }

  lemma {:induction false} ReportedIsOpen(items: seq<Item>, n: nat, side: Side)
    requires n <= |items| && forall k :: 0 <= k < n ==> ItemValid(items[k])
    ensures ReportedTo(items, n, side) == OpenTo(items, n, side)
  {
    if n > 0 {
      ReportedIsOpen(items, n - 1, side);
    }
  }

  // ----- every step keeps them

  lemma {:induction false} FindKept(xs: seq<Item>, ys: seq<Item>, side: Side, doc: string)
    requires |xs| <= |ys| && forall k :: 0 <= k < |xs| ==> xs[k].side == ys[k].side && xs[k].doc == ys[k].doc
    requires Find(xs, side, doc).Some?
    ensures Find(ys, side, doc).Some?
  {
    var k := Find(xs, side, doc).value;
    assert ys[k].side == side && ys[k].doc == doc;
  }

  lemma StepKeepsItems(s: State, op: Op)
    requires forall k :: 0 <= k < |s.items| ==> ItemValid(s.items[k])
    ensures forall k :: 0 <= k < |Step(s, op).items| ==> ItemValid(Step(s, op).items[k])
  {
  }

  /** A step other than creation leaves documents and payloads alone. */
  lemma StepKeepsOutbox(s: State, op: Op)
    requires OutboxValid(s) && ReplyTo(s, op).Done? && !op.CreateItem?
    requires var t := Step(s, op);
             && |t.items| == |s.items| && |t.outbox| == |s.outbox|
             && (forall k :: 0 <= k < |s.items| ==> t.items[k].side == s.items[k].side && t.items[k].doc == s.items[k].doc)
             && (forall k :: 0 <= k < |s.outbox| ==> t.outbox[k].msg == s.outbox[k].msg)
    ensures OutboxValid(Step(s, op))
  {
    hide PostingLines, PaymentLines, NoteLines, StatusAfterNote, StatusAfterPayment;
    var t := Step(s, op);
    forall k | 0 <= k < |t.outbox|
      ensures Find(t.items, t.outbox[k].msg.side, t.outbox[k].msg.doc).Some?
    {
      FindKept(s.items, t.items, s.outbox[k].msg.side, s.outbox[k].msg.doc);
    }
    forall id | id in t.processed && id.ItemPosted?
      ensures Enqueued(t.outbox, id)
    {
      if id in s.processed {
        EnqueuedKept(s.outbox, t.outbox, id);
      } else {
        assert Sent(s.outbox, s.bus[op.delivery]);
        var k :| 0 <= k < |s.outbox| && s.outbox[k].msg == s.bus[op.delivery];
        assert IdOf(t.outbox[k].msg) == id;
      }
    }
    forall b | b in t.bus
      ensures Sent(t.outbox, b)
    {
      if b in s.bus {
        var k :| 0 <= k < |s.outbox| && s.outbox[k].msg == b;
        assert t.outbox[k].msg == b;
      } else {
        assert t.outbox[op.row].msg == b;
      }
    }
  }

  lemma StepKeepsValid(s: State, op: Op)
    requires Valid(s)
    ensures Valid(Step(s, op))
  {
    StepKeepsItems(s, op);
    if ReplyTo(s, op).Done? {
      if op.CreateItem? {
        CreateKeepsOutbox(s, op.m);
      } else {
        StepKeepsOutbox(s, op);
      }
    }
  }

  lemma EnqueuedKept(xs: seq<OutboxRow>, ys: seq<OutboxRow>, id: EventId)
    requires |xs| <= |ys| && forall k :: 0 <= k < |xs| ==> xs[k].msg == ys[k].msg
    requires Enqueued(xs, id)
    ensures Enqueued(ys, id)
  {
    var k :| 0 <= k < |xs| && IdOf(xs[k].msg) == id;
    assert IdOf(ys[k].msg) == id;
  }

  lemma CreateKeepsOutbox(s: State, m: Message)
    requires Valid(s) && ReplyTo(s, CreateItem(m)).Done?
    ensures var t := Step(s, CreateItem(m)); OutboxValid(t) && t.outbox == s.outbox + [OutboxRow(m, false, 0)]
  {
    var t := Step(s, CreateItem(m));
    assert !Enqueued(s.outbox, IdOf(m));
    assert t.items[|s.items|].side == m.side && t.items[|s.items|].doc == m.doc;
    forall side, doc | Find(s.items, side, doc).Some?
      ensures Find(t.items, side, doc).Some?
    {
      FindKept(s.items, t.items, side, doc);
    }
    forall id | id in t.processed && id.ItemPosted?
      ensures Enqueued(t.outbox, id)
    {
      EnqueuedKept(s.outbox, t.outbox, id);
    }
    forall b | b in t.bus
      ensures Sent(t.outbox, b)
    {
      var k :| 0 <= k < |s.outbox| && s.outbox[k].msg == b;
      assert t.outbox[k].msg == b;
    }
  }

  lemma CreateConserves(s: State, m: Message, side: Side)
    requires Valid(s) && Conserved(s, side) && ReplyTo(s, CreateItem(m)).Done?
    ensures Conserved(Step(s, CreateItem(m)), side)
  {
    var t := Step(s, CreateItem(m));
    CreateKeepsOutbox(s, m);
    assert IdOf(m) !in s.processed;
    assert t.journal == s.journal && t.processed == s.processed;
    OpenSame(t.items, s.items, |s.items|, side);
    FlightSame(t.outbox, s.outbox, |s.outbox|, s.processed, s.processed, side);
  }

  lemma ConsumeConserves(s: State, d: nat, side: Side)
    requires Valid(s) && Conserved(s, side) && ReplyTo(s, Consume(d, true)).Done?
    ensures Conserved(Step(s, Consume(d, true)), side)
  {
    var m := s.bus[d];
    assert Sent(s.outbox, m);
    var k :| 0 <= k < |s.outbox| && s.outbox[k].msg == m;
    FlightLands(s.outbox, k, |s.outbox|, s.processed, side);
    ControlSnoc(s.journal, PostingLines(m), side);
    PostingEffect(m, side);
  }

  lemma UpdateConserves(s: State, i: nat, it: Item, lines: Entry, id: EventId, side: Side)
    requires Conserved(s, side)
    requires i < |s.items| && it.side == s.items[i].side && !id.ItemPosted?
    requires ControlEffect(lines, side)
             == if it.side == side then it.amount - it.paid - (s.items[i].amount - s.items[i].paid) else 0
    ensures Conserved(s.(items := s.items[i := it], journal := s.journal + [lines], processed := s.processed + {id}), side)
  {
    var t := s.(items := s.items[i := it], journal := s.journal + [lines], processed := s.processed + {id});
    OpenUpdate(s.items, i, it, |s.items|, side);
    assert OpenTo(t.items, |t.items|, side) == OpenTo(s.items, |s.items|, side) + ControlEffect(lines, side);
    ControlSnoc(s.journal, lines, side);
    FlightSame(s.outbox, s.outbox, |s.outbox|, s.processed, s.processed + {id}, side);
  }

  lemma PayConserves(s: State, op: Op, side: Side)
    requires op.Pay? && Conserved(s, side) && ReplyTo(s, op).Done?
    ensures Conserved(Step(s, op), side)
  {
    var it, paid := s.items[op.item], s.items[op.item].paid + op.amount;
    PaymentEffect(op.side, op.amount, side);
    UpdateConserves(s, op.item, it.(paid := paid, status := StatusAfterPayment(it.amount, paid)),
                    PaymentLines(op.side, op.amount), PaymentMade(op.side, op.item, op.ref), side);
  }

  lemma NoteConserves(s: State, op: Op, side: Side)
    requires op.Note? && Conserved(s, side) && ReplyTo(s, op).Done?
    ensures Conserved(Step(s, op), side)
  {
    hide Conserved, NoteLines, StatusAfterNote, Delta, Net, OpenTo;
    var i := Find(s.items, op.side, op.doc).value;
    var it, amount := s.items[i], s.items[i].amount + Delta(op.kind, op.amount);
    NoteEffect(op.side, op.kind, op.amount, side);
    UpdateConserves(s, i, it.(amount := amount, status := StatusAfterNote(amount, it.paid)),
                    NoteLines(op.side, op.kind, op.amount), NoteBooked(op.side, op.kind, op.docRef), side);
  }

  lemma MarkConserves(s: State, op: Op, side: Side)
    requires (op.MarkPublished? || op.MarkFailed?) && Conserved(s, side) && ReplyTo(s, op).Done?
    ensures Conserved(Step(s, op), side)
  {
    FlightSame(s.outbox, Step(s, op).outbox, |s.outbox|, s.processed, s.processed, side);
  }

  lemma StepConserves(s: State, op: Op, side: Side)
    requires Valid(s) && Conserved(s, side)
    ensures Conserved(Step(s, op), side)
  {
    if ReplyTo(s, op).Done? {
      match op
      case CreateItem(m) => CreateConserves(s, m, side);
      case Publish(_) =>
      case MarkPublished(_) | MarkFailed(_) => MarkConserves(s, op, side);
      case Consume(d, _) => ConsumeConserves(s, d, side);
      case Pay(_, _, _, _) => PayConserves(s, op, side);
      case Note(_, _, _, _, _, _) => NoteConserves(s, op, side);
    }
  }

  lemma {:induction false} ReachableConserved(ops: seq<Op>, side: Side)
    ensures Valid(Run(ops)) && Conserved(Run(ops), side)
  {
    if ops != [] {
      ReachableConserved(ops[..|ops| - 1], side);
      StepKeepsValid(Run(ops[..|ops| - 1]), ops[|ops| - 1]);
      StepConserves(Run(ops[..|ops| - 1]), ops[|ops| - 1], side);
    }
  }

  // ----- main results

  /** Over every interleaving of creation, relay, duplicate and reordered
      delivery, payments and notes: the difference the control report prints is
      exactly the amount enqueued and not yet booked, and nothing else. */
  lemma DifferenceIsValueInFlight(ops: seq<Op>, side: Side)
    ensures ReportedDifference(Run(ops), side) == -InFlight(Run(ops), side)
  {
    var s := Run(ops);
    ReachableConserved(ops, side);
    ReportedIsOpen(s.items, |s.items|, side);
  }

  /** No item is ever overpaid, driven below what was paid, or shown open once
      it is settled. */
  lemma ItemsStayValid(ops: seq<Op>, k: nat)
    requires k < |Run(ops).items|
    ensures var it := Run(ops).items[k];
            && 0 <= it.paid <= it.amount && it.amount > 0
            && (it.status == Closed <==> it.paid == it.amount)
            && (it.status == Open ==> it.paid == 0)
            && (it.status == Partial ==> 0 < it.paid < it.amount)
  {
    hide Run;
    ReachableConserved(ops, AR);
  }

  lemma {:induction false} NothingInFlight(s: State, n: nat, side: Side)
    requires Valid(s) && n <= |s.outbox|
    ensures InFlightTo(s.outbox, n, s.processed, side) >= 0
    ensures InFlightTo(s.outbox, n, s.processed, side) == 0
            <==> forall k :: 0 <= k < n && s.outbox[k].msg.side == side ==> IdOf(s.outbox[k].msg) in s.processed
  {
    if n > 0 {
      NothingInFlight(s, n - 1, side);
    }
  }

  /** So a side reconciles exactly when every event it enqueued has been booked. */
  lemma ReconciledIffAllBooked(ops: seq<Op>, side: Side)
    ensures var s := Run(ops);
            ReportedDifference(s, side) == 0
            <==> forall k :: 0 <= k < |s.outbox| && s.outbox[k].msg.side == side ==> IdOf(s.outbox[k].msg) in s.processed
  {
    var s := Run(ops);
    DifferenceIsValueInFlight(ops, side);
    ReachableConserved(ops, side);
    NothingInFlight(s, |s.outbox|, side);
  }

  /** A credit note for the whole open balance of a live item goes through exactly
      when part of the item has been paid: emptying an unpaid item would leave an
      amount of zero, which the table refuses. */
  lemma FullCreditAcceptedIff(s: State, side: Side, doc: string, docRef: string)
    requires Valid(s) && NoteBooked(side, Credit, docRef) !in s.processed
    requires Find(s.items, side, doc).Some? && !s.items[Find(s.items, side, doc).value].status.Closed?
    ensures var it := s.items[Find(s.items, side, doc).value];
            ReplyTo(s, Note(side, Credit, doc, it.amount - it.paid, docRef, true)).Done? <==> it.paid > 0
  {
    assert ItemValid(s.items[Find(s.items, side, doc).value]);
  }

  /** From an empty ledger: an item is created and a credit note over all of it is
      refused. */
  lemma FullCreditOfUnpaidItem(m: Message, docRef: string)
    requires m.amount > 0
    ensures ReplyTo(Run([CreateItem(m)]), Note(m.side, Credit, m.doc, m.amount, docRef, true)) == CheckViolation
  {
    StepAllSnoc(EMPTY, [], CreateItem(m));
    assert [] + [CreateItem(m)] == [CreateItem(m)];
    assert Find([], m.side, m.doc).None?;
    var items := Run([CreateItem(m)]).items;
    assert items == [Item(m.side, m.doc, m.amount, 0, Open)];
    assert items[0].side == m.side && items[0].doc == m.doc;
  }

  // ----- the transactions, as they run

  predicate Publishable(row: OutboxRow) {
    !row.published && row.attempts < MAX_PUBLISH_ATTEMPTS
  }

  /** How many of the first n rows a relay may still send. */
  function PublishableTo(outbox: seq<OutboxRow>, n: nat): nat
    requires n <= |outbox|
  {
    if n == 0 then 0 else PublishableTo(outbox, n - 1) + if Publishable(outbox[n - 1]) then 1 else 0
  }

  lemma {:induction false} OneLess(xs: seq<OutboxRow>, ys: seq<OutboxRow>, i: nat, n: nat)
    requires |xs| == |ys| && i < |xs| && n <= |xs| && Publishable(xs[i]) && !Publishable(ys[i])
    requires forall k :: 0 <= k < |xs| && k != i ==> xs[k] == ys[k]
    ensures PublishableTo(ys, n) == PublishableTo(xs, n) - if i < n then 1 else 0
  {
    if n > 0 {
      OneLess(xs, ys, i, n - 1);
    }
  }

  lemma NoSteps(s: State)
    ensures StepAll(s, []) == s
  {
  }

  /** What sending and marking one row does, spelled out. */
  lemma RelaySteps(s: State, row: nat)
    requires row < |s.outbox|
    ensures var r := s.outbox[row];
            && Step(s, MarkFailed(row)) == s.(outbox := s.outbox[row := r.(attempts := r.attempts + 1)])
            && (Publishable(r) ==> Step(s, Publish(row)) == s.(bus := s.bus + [r.msg]))
            && (r.msg in s.bus ==> Step(s, MarkPublished(row)) == s.(outbox := s.outbox[row := r.(published := true)]))
  {
  }

  /** The first n of a kind of call would all succeed. */
  predicate AllSucceed(calls: seq<bool>, n: nat) {
    n <= |calls| && forall k :: 0 <= k < n ==> calls[k]
  }

  class OpenItemLedger {
    var items: seq<Item>
    var outbox: seq<OutboxRow>
    var bus: seq<Message>
    var processed: set<EventId>
    var journal: seq<Entry>

    function Contents(): State
      reads this
    {
      State(items, outbox, bus, processed, journal)
    }

    constructor ()
      ensures Contents() == EMPTY
    {
      items, outbox, bus, processed, journal := [], [], [], {}, [];
    }

    method SelectItem(side: Side, doc: string) returns (r: Option<nat>)
      ensures r == Find(items, side, doc)
    {
      var k := |items|;
      assert items[..k] == items;
      while k > 0
        invariant 0 <= k <= |items|
        invariant Find(items, side, doc) == Find(items[..k], side, doc)
      {
        assert items[..k][..k - 1] == items[..k - 1];
        k := k - 1;
        if items[k].side == side && items[k].doc == doc {
          return Some(k);
        }
      }
      return None;
    }

    method CreateOpenItem(m: Message) returns (reply: Reply)
      modifies this
      ensures reply == ReplyTo(old(Contents()), CreateItem(m))
      ensures Contents() == Step(old(Contents()), CreateItem(m))
    {
      var clash := SelectItem(m.side, m.doc);
      if clash.Some? {
        return Duplicate;
      }
      if m.amount <= 0 {
        return CheckViolation;
      }
      items := items + [Item(m.side, m.doc, m.amount, 0, Open)];
      var k := 0;
      while k < |outbox| && IdOf(outbox[k].msg) != IdOf(m)
        invariant 0 <= k <= |outbox|
        invariant forall j :: 0 <= j < k ==> IdOf(outbox[j].msg) != IdOf(m)
      {
        k := k + 1;
      }
      if k == |outbox| {
        outbox := outbox + [OutboxRow(m, false, 0)];
      }
      return Done;
    }

    method ConsumeDelivery(delivery: nat, periodOpen: bool) returns (reply: Reply)
      modifies this
      ensures reply == ReplyTo(old(Contents()), Consume(delivery, periodOpen))
      ensures Contents() == Step(old(Contents()), Consume(delivery, periodOpen))
    {
      if delivery >= |bus| {
        return NothingToDo;
      }
      if !periodOpen {
        return PeriodClosed;
      }
      var m := bus[delivery];
      if IdOf(m) in processed {
        return Replayed;
      }
      journal := journal + [PostingLines(m)];
      processed := processed + {IdOf(m)};
      return Done;
    }

    method ApplyPaymentWithJournal(side: Side, item: nat, amount: int, ref: string) returns (reply: Reply)
      modifies this
      ensures reply == ReplyTo(old(Contents()), Pay(side, item, amount, ref))
      ensures Contents() == Step(old(Contents()), Pay(side, item, amount, ref))
    {
      var event := PaymentMade(side, item, ref);
      if event in processed {
        return Replayed;
      }
      if item >= |items| || items[item].side != side {
        return NotFound;
      }
      var it := items[item];
      var newPaid := it.paid + amount;
      if newPaid > it.amount {
        return PaymentExceeds;
      }
      if amount <= 0 {
        return CheckViolation;
      }
      var status := Partial;
      if newPaid >= it.amount {
        status := Closed;
      }
      journal := journal + [PaymentLines(side, amount)];
      processed := processed + {event};
      items := items[item := it.(paid := newPaid, status := status)];
      return Done;
    }

    method BookAdjustment(side: Side, kind: NoteKind, doc: string, amount: int, docRef: string, periodOpen: bool)
      returns (reply: Reply)
      modifies this
      ensures reply == ReplyTo(old(Contents()), Note(side, kind, doc, amount, docRef, periodOpen))
      ensures Contents() == Step(old(Contents()), Note(side, kind, doc, amount, docRef, periodOpen))
    {
      var found := SelectItem(side, doc);
      if amount <= 0 || found.None? {
        return NotFound;
      }
      var delta, lines := amount, Pair(VendorNotes, Payables, amount);
      match (side, kind) {
        case (AR, Credit) => delta, lines := -amount, Pair(Revenue, Receivables, amount);
        case (AR, Debit) => lines := Pair(Receivables, Revenue, amount);
        case (AP, Credit) => delta, lines := -amount, Pair(Payables, VendorNotes, amount);
        case (AP, Debit) =>
      }
      if !periodOpen {
        return PeriodClosed;
      }
      var event := NoteBooked(side, kind, docRef);
      if event in processed {
        return Replayed;
      }
      var it := items[found.value];
      if it.status.Closed? {
        return NotFound;
      }
      var newAmount := it.amount + delta;
      if newAmount < 0 || newAmount < it.paid {
        return AdjustmentTooLarge;
      }
      if newAmount == 0 {
        return CheckViolation;
      }
      var status := Open;
      if newAmount == it.paid {
        status := Closed;
      } else if it.paid > 0 {
        status := Partial;
      }
      journal := journal + [lines];
      processed := processed + {event};
      items := items[found.value := it.(amount := newAmount, status := status)];
      return Done;
    }

    method MarkOutboxPublished(row: nat)
      modifies this
      ensures Contents() == Step(old(Contents()), MarkPublished(row))
    {
      if row < |outbox| && outbox[row].msg in bus {
        outbox := outbox[row := outbox[row].(published := true)];
      }
    }

    method MarkOutboxFailed(row: nat)
      modifies this
      ensures Contents() == Step(old(Contents()), MarkFailed(row))
    {
      if row < |outbox| {
        outbox := outbox[row := outbox[row].(attempts := outbox[row].attempts + 1)];
      }
    }

    /** Sends one row; the mark after it may fail, or the process die before it. */
    method Relay(row: nat, sendOk: bool, unmarked: bool) returns (ghost steps: seq<Op>)
      requires row < |outbox|
      modifies this
      ensures Contents() == StepAll(old(Contents()), steps)
      ensures |outbox| == |old(outbox)| && forall k :: 0 <= k < |outbox| && k != row ==> outbox[k] == old(outbox)[k]
      ensures sendOk && !unmarked && outbox[row].attempts < MAX_PUBLISH_ATTEMPTS ==> outbox[row].published
    {
      hide Step, StepAll;
      ghost var s0 := Contents();
      NoSteps(s0);
      RelaySteps(s0, row);
      steps := [];
      if outbox[row].published || outbox[row].attempts >= MAX_PUBLISH_ATTEMPTS {
        return;
      }
      if !sendOk {
        MarkOutboxFailed(row);
        StepAllSnoc(s0, [], MarkFailed(row));
        steps := [] + [MarkFailed(row)];
        return;
      }
      bus := bus + [outbox[row].msg];
      StepAllSnoc(s0, [], Publish(row));
      steps := [] + [Publish(row)];
      if !unmarked {
        RelaySteps(Contents(), row);
        MarkOutboxPublished(row);
        StepAllSnoc(s0, steps, MarkPublished(row));
        steps := steps + [MarkPublished(row)];
      }
    }

    /** The oldest rows still to be sent, at most limit of them. */
    method FetchUnpublishedOutbox(limit: nat) returns (rows: seq<nat>)
      ensures |rows| == Min(limit, PublishableTo(outbox, |outbox|))
      ensures forall k :: 0 <= k < |rows| ==> rows[k] < |outbox| && Publishable(outbox[rows[k]])
      ensures forall k, m :: 0 <= k < m < |rows| ==> rows[k] < rows[m]
    {
      rows := [];
      for k := 0 to |outbox|
        invariant |rows| == Min(limit, PublishableTo(outbox, k))
        invariant forall j :: 0 <= j < |rows| ==> rows[j] < k && Publishable(outbox[rows[j]])
        invariant forall j, m :: 0 <= j < m < |rows| ==> rows[j] < rows[m]
      {
        if Publishable(outbox[k]) && |rows| < limit {
          rows := rows + [k];
        }
      }
    }

    /** One relay pass over the oldest hundred unsent rows.  broker and marks say which
        sends and which marks succeed; the process may die right after its crashAt-th
        send.  A pass is
        nothing but protocol steps, and without failure or crash it leaves just the
        rows beyond its batch to send. */
    method Drain(broker: seq<bool>, marks: seq<bool>, crashAt: nat) returns (ghost trace: seq<Op>)
      modifies this
      ensures Contents() == StepAll(old(Contents()), trace)
      ensures |outbox| == |old(outbox)|
      ensures crashAt >= 100 && AllSucceed(broker, 100) && AllSucceed(marks, 100) ==>
                PublishableTo(outbox, |outbox|) == Max(0, PublishableTo(old(outbox), |old(outbox)|) - 100)
    {
      trace := [];
      var rows := FetchUnpublishedOutbox(OUTBOX_BATCH);
      ghost var sound := crashAt >= OUTBOX_BATCH && AllSucceed(broker, OUTBOX_BATCH) && AllSucceed(marks, OUTBOX_BATCH);
      var i := 0;
      while i < |rows|
        invariant 0 <= i <= |rows| && |outbox| == |old(outbox)|
        invariant Contents() == StepAll(old(Contents()), trace)
        invariant forall k :: i <= k < |rows| ==> outbox[rows[k]] == old(outbox)[rows[k]]
        invariant sound ==> PublishableTo(outbox, |outbox|) == PublishableTo(old(outbox), |old(outbox)|) - i
      {
        ghost var before := outbox;
        ghost var steps := Relay(rows[i], i < |broker| && broker[i], i == crashAt || i >= |marks| || !marks[i]);
        StepAllConcat(old(Contents()), trace, steps);
        trace := trace + steps;
        if sound {
          OneLess(before, outbox, rows[i], |outbox|);
        }
        if i == crashAt {
          return;
        }
        i := i + 1;
      }
    }
  }
}
