/** Repeated requests: a payment or a note takes effect at most once per reference,
    and does take effect whenever it is new and fits the item. */
module SubledgerOnce {
  import opened Ledger
  import opened Subledger

  /** The k-th operation changed something. */
  ghost predicate TookEffect(ops: seq<Op>, k: nat)
    requires k < |ops|
  {
    Run(ops[..k + 1]) != Run(ops[..k])
  }

  predicate IsPayment(op: Op, side: Side, item: nat, ref: string) {
    op.Pay? && op.side == side && op.item == item && op.ref == ref
  }

  predicate IsNote(op: Op, side: Side, kind: NoteKind, docRef: string) {
    op.Note? && op.side == side && op.kind == kind && op.docRef == docRef
  }

  /** A payment with this reference has been booked on the item. */
  ghost predicate PaidBefore(ops: seq<Op>, side: Side, item: nat, ref: string) {
    exists k :: 0 <= k < |ops| && IsPayment(ops[k], side, item, ref) && TookEffect(ops, k)
  }

  /** A note of this kind with this reference has been booked. */
  ghost predicate NotedBefore(ops: seq<Op>, side: Side, kind: NoteKind, docRef: string) {
    exists k :: 0 <= k < |ops| && IsNote(ops[k], side, kind, docRef) && TookEffect(ops, k)
  }

  lemma EffectOfLast(ops: seq<Op>, op: Op)
    ensures Run(ops + [op]) == Step(Run(ops), op)
    ensures TookEffect(ops + [op], |ops|) <==> Step(Run(ops), op) != Run(ops)
    ensures forall k :: 0 <= k < |ops| ==> (TookEffect(ops + [op], k) <==> TookEffect(ops, k))
  {
    hide Run, Step;
    var more := ops + [op];
    assert more[..|ops| + 1] == more && more[..|ops|] == ops;
    RunSnoc(ops, op);
    forall k | 0 <= k < |ops|
      ensures TookEffect(more, k) <==> TookEffect(ops, k)
    {
      assert more[..k + 1] == ops[..k + 1] && more[..k] == ops[..k];
    }
  }

  lemma RunSnoc(ops: seq<Op>, op: Op)
    ensures Run(ops + [op]) == Step(Run(ops), op)
  {
    StepAllSnoc(EMPTY, ops, op);
  }

  lemma BeforeSnoc(ops: seq<Op>, op: Op, side: Side, item: nat, ref: string)
    ensures PaidBefore(ops + [op], side, item, ref)
            <==> PaidBefore(ops, side, item, ref) || (IsPayment(op, side, item, ref) && Step(Run(ops), op) != Run(ops))
  {
    hide Run, Step, TookEffect, IsPayment;
    var more := ops + [op];
    EffectOfLast(ops, op);
    assert more[|ops|] == op && forall k :: 0 <= k < |ops| ==> more[k] == ops[k];
    if PaidBefore(ops, side, item, ref) {
      var k :| 0 <= k < |ops| && IsPayment(ops[k], side, item, ref) && TookEffect(ops, k);
      assert IsPayment(more[k], side, item, ref) && TookEffect(more, k);
    }
    if IsPayment(op, side, item, ref) && Step(Run(ops), op) != Run(ops) {
      assert IsPayment(more[|ops|], side, item, ref) && TookEffect(more, |ops|);
    }
  }

  lemma NotedSnoc(ops: seq<Op>, op: Op, side: Side, kind: NoteKind, docRef: string)
    ensures NotedBefore(ops + [op], side, kind, docRef)
            <==> NotedBefore(ops, side, kind, docRef) || (IsNote(op, side, kind, docRef) && Step(Run(ops), op) != Run(ops))
  {
    hide Run, Step, TookEffect, IsNote;
    var more := ops + [op];
    EffectOfLast(ops, op);
    assert more[|ops|] == op && forall k :: 0 <= k < |ops| ==> more[k] == ops[k];
    if NotedBefore(ops, side, kind, docRef) {
      var k :| 0 <= k < |ops| && IsNote(ops[k], side, kind, docRef) && TookEffect(ops, k);
      assert IsNote(more[k], side, kind, docRef) && TookEffect(more, k);
    }
    if IsNote(op, side, kind, docRef) && Step(Run(ops), op) != Run(ops) {
      assert IsNote(more[|ops|], side, kind, docRef) && TookEffect(more, |ops|);
    }
  }

  /** What an operation adds to processed_events. */
  lemma StepProcesses(s: State, op: Op, id: EventId)
    requires !id.ItemPosted?
    ensures id in Step(s, op).processed
            <==> id in s.processed
                 || (Step(s, op) != s && (match id
                                          case PaymentMade(side, item, ref) => IsPayment(op, side, item, ref)
                                          case NoteBooked(side, kind, docRef) => IsNote(op, side, kind, docRef)
                                          case ItemPosted(_, _) => false))
  {
    hide PostingLines, PaymentLines, NoteLines, StatusAfterNote, StatusAfterPayment, Find, Delta;
  }

  /** processed_events remembers exactly the payments and notes that took effect. */
  lemma {:induction false} Remembered(ops: seq<Op>, id: EventId)
    requires !id.ItemPosted?
    ensures id in Run(ops).processed
            <==> match id
                 case PaymentMade(side, item, ref) => PaidBefore(ops, side, item, ref)
                 case NoteBooked(side, kind, docRef) => NotedBefore(ops, side, kind, docRef)
                 case ItemPosted(_, _) => false
  {
    hide Step, PaidBefore, NotedBefore;
    if ops == [] {
      NothingYet(id);
    } else {
      var init, op := ops[..|ops| - 1], ops[|ops| - 1];
      assert init + [op] == ops;
      Remembered(init, id);
      RunSnoc(init, op);
      StepProcesses(Run(init), op, id);
      match id
      case PaymentMade(side, item, ref) => BeforeSnoc(init, op, side, item, ref);
      case NoteBooked(side, kind, docRef) => NotedSnoc(init, op, side, kind, docRef);
    }
  }

  lemma NothingYet(id: EventId)
    ensures id !in Run([]).processed
    ensures forall side, item, ref :: !PaidBefore([], side, item, ref)
    ensures forall side, kind, docRef :: !NotedBefore([], side, kind, docRef)
  {
  }

  /** After any history, a payment takes effect exactly when none with its reference
      has been booked on the item, the item is there, and the amount is positive and no
      more than what is open. */
  lemma PaymentTakesEffectIff(ops: seq<Op>, side: Side, item: nat, amount: int, ref: string)
    ensures var s := Run(ops);
            Run(ops + [Pay(side, item, amount, ref)]) != s
            <==> && !PaidBefore(ops, side, item, ref)
                 && item < |s.items| && s.items[item].side == side
                 && 0 < amount <= s.items[item].amount - s.items[item].paid
  {
    hide PaidBefore, Run, PaymentLines;
    var op := Pay(side, item, amount, ref);
    Remembered(ops, PaymentMade(side, item, ref));
    RunSnoc(ops, op);
    assert ReplyTo(Run(ops), op).Done? ==> PaymentMade(side, item, ref) in Step(Run(ops), op).processed;
  }

  /** So a payment sent again changes nothing, however much later and with whatever
      amount. */
  lemma {:induction false} PaymentOnce(ops: seq<Op>, i: nat, j: nat)
    requires i < j < |ops| && ops[i].Pay? && TookEffect(ops, i)
    requires IsPayment(ops[j], ops[i].side, ops[i].item, ops[i].ref)
    ensures Run(ops[..j + 1]) == Run(ops[..j])
  {
    hide Run, Step;
    var before := ops[..j];
    assert before[..i + 1] == ops[..i + 1] && before[..i] == ops[..i] && before[i] == ops[i];
    assert TookEffect(before, i) && IsPayment(before[i], ops[i].side, ops[i].item, ops[i].ref);
    PaymentTakesEffectIff(before, ops[j].side, ops[j].item, ops[j].amount, ops[j].ref);
    assert before + [ops[j]] == ops[..j + 1];
  }

  /** After any history, a note takes effect exactly when none of its kind with its
      reference has been booked, the document's item is there and not settled, the
      period is open, and the item keeps a positive amount no less than what was paid. */
  lemma NoteTakesEffectIff(ops: seq<Op>, side: Side, kind: NoteKind, doc: string, amount: int, docRef: string, periodOpen: bool)
    ensures var s := Run(ops);
            Run(ops + [Note(side, kind, doc, amount, docRef, periodOpen)]) != s
            <==> && !NotedBefore(ops, side, kind, docRef)
                 && amount > 0 && periodOpen
                 && Find(s.items, side, doc).Some?
                 && var it := s.items[Find(s.items, side, doc).value];
                    && it.paid < it.amount
                    && (kind.Credit? ==> it.paid <= it.amount - amount && 0 < it.amount - amount)
  {
    hide NotedBefore, Run, NoteLines;
    var s, op := Run(ops), Note(side, kind, doc, amount, docRef, periodOpen);
    Remembered(ops, NoteBooked(side, kind, docRef));
    ReachableConserved(ops, side);
    RunSnoc(ops, op);
    if Find(s.items, side, doc).Some? {
      assert ItemValid(s.items[Find(s.items, side, doc).value]);
    }
    assert ReplyTo(s, op).Done? ==> NoteBooked(side, kind, docRef) in Step(s, op).processed;
  }

  lemma {:induction false} NoteOnce(ops: seq<Op>, i: nat, j: nat)
    requires i < j < |ops| && ops[i].Note? && TookEffect(ops, i)
    requires IsNote(ops[j], ops[i].side, ops[i].kind, ops[i].docRef)
    ensures Run(ops[..j + 1]) == Run(ops[..j])
  {
    hide Run, Step;
    var before := ops[..j];
    assert before[..i + 1] == ops[..i + 1] && before[..i] == ops[..i] && before[i] == ops[i];
    assert TookEffect(before, i) && IsNote(before[i], ops[i].side, ops[i].kind, ops[i].docRef);
    NoteTakesEffectIff(before, ops[j].side, ops[j].kind, ops[j].doc, ops[j].amount, ops[j].docRef, ops[j].periodOpen);
    assert before + [ops[j]] == ops[..j + 1];
  }

  // ----- what an item has been paid and noted

  /** The payments that took effect on an item. */
  ghost function BookedPayments(ops: seq<Op>, item: nat): int {
    if ops == [] then 0
    else
      var k := |ops| - 1;
      BookedPayments(ops[..k], item) + if ops[k].Pay? && ops[k].item == item && TookEffect(ops, k) then ops[k].amount else 0
  }

  lemma StepPays(s: State, op: Op, item: nat)
    requires item < |s.items|
    ensures item < |Step(s, op).items|
    ensures Step(s, op).items[item].paid
            == s.items[item].paid + if op.Pay? && op.item == item && Step(s, op) != s then op.amount else 0
    ensures Step(s, op).items[item].side == s.items[item].side && Step(s, op).items[item].doc == s.items[item].doc
  {
    hide PostingLines, PaymentLines, NoteLines, StatusAfterNote, StatusAfterPayment;
  }

  lemma NewItemUnpaid(s: State, op: Op, item: nat)
    requires |s.items| <= item < |Step(s, op).items|
    ensures Step(s, op).items[item].paid == 0
    ensures !(op.Pay? && op.item == item)
  {
    hide PostingLines, PaymentLines, NoteLines, StatusAfterNote, StatusAfterPayment;
  }

  lemma NotThereUnpaid(s: State, op: Op, item: nat)
    requires |s.items| <= item && op.Pay? && op.item == item
    ensures Step(s, op) == s
  {
  }

  /** An item is paid what the payments that took effect on it add up to, each
      reference once. */
  lemma {:induction false} PaidIsBooked(ops: seq<Op>, item: nat)
    ensures BookedPayments(ops, item) == if item < |Run(ops).items| then Run(ops).items[item].paid else 0
  {
    hide Step;
    if ops == [] {
      NothingYet(PaymentMade(AR, item, ""));
    } else {
      var init, op := ops[..|ops| - 1], ops[|ops| - 1];
      var s := Run(init);
      assert init + [op] == ops;
      PaidIsBooked(init, item);
      EffectOfLast(init, op);
      if item < |s.items| {
        StepPays(s, op, item);
      } else {
        if item < |Step(s, op).items| {
          NewItemUnpaid(s, op, item);
        }
        if op.Pay? && op.item == item {
          NotThereUnpaid(s, op, item);
        }
      }
    }
  }

  // ----- items and deliveries

  /** An item is created exactly when its amount is positive and its document is new;
      it starts unpaid, and its event is enqueued with it. */
  lemma CreationTakesEffectIff(ops: seq<Op>, m: Message)
    ensures var s, t := Run(ops), Run(ops + [CreateItem(m)]);
            && (t != s <==> m.amount > 0
                            && forall k :: 0 <= k < |s.items| ==> s.items[k].side != m.side || s.items[k].doc != m.doc)
            && (t != s ==> && t.items == s.items + [Item(m.side, m.doc, m.amount, 0, Open)]
                           && t.outbox == s.outbox + [OutboxRow(m, false, 0)]
                           && t.bus == s.bus && t.processed == s.processed && t.journal == s.journal)
  {
    hide Run;
    var s := Run(ops);
    RunSnoc(ops, CreateItem(m));
    ReachableConserved(ops, m.side);
    forall k | 0 <= k < |s.outbox|
      ensures Find(s.items, s.outbox[k].msg.side, s.outbox[k].msg.doc).Some?
    {
    }
    assert ReplyTo(s, CreateItem(m)).Done? ==> |Step(s, CreateItem(m)).items| == |s.items| + 1;
  }

  /** The event of an item has been booked by some delivery. */
  ghost predicate DeliveredBefore(ops: seq<Op>, id: EventId) {
    exists k :: 0 <= k < |ops| && Delivers(ops, k, id) && TookEffect(ops, k)
  }

  ghost predicate Delivers(ops: seq<Op>, k: nat, id: EventId)
    requires k < |ops|
  {
    ops[k].Consume? && ops[k].delivery < |Run(ops[..k]).bus| && IdOf(Run(ops[..k]).bus[ops[k].delivery]) == id
  }

  lemma DeliveredSnoc(ops: seq<Op>, op: Op, id: EventId)
    ensures DeliveredBefore(ops + [op], id)
            <==> DeliveredBefore(ops, id)
                 || (op.Consume? && op.delivery < |Run(ops).bus| && IdOf(Run(ops).bus[op.delivery]) == id
                     && Step(Run(ops), op) != Run(ops))
  {
    hide Run, Step, TookEffect;
    var more := ops + [op];
    EffectOfLast(ops, op);
    assert more[|ops|] == op && more[..|ops|] == ops;
    assert forall k :: 0 <= k < |ops| ==> more[k] == ops[k] && more[..k] == ops[..k];
    assert forall k :: 0 <= k < |ops| ==> (Delivers(more, k, id) <==> Delivers(ops, k, id));
    if DeliveredBefore(ops, id) {
      var k :| 0 <= k < |ops| && Delivers(ops, k, id) && TookEffect(ops, k);
      assert Delivers(more, k, id) && TookEffect(more, k);
    }
    if DeliveredBefore(more, id) {
      var k :| 0 <= k < |more| && Delivers(more, k, id) && TookEffect(more, k);
      assert k < |ops| ==> Delivers(ops, k, id) && TookEffect(ops, k);
    }
    assert Delivers(more, |ops|, id) <==> op.Consume? && op.delivery < |Run(ops).bus| && IdOf(Run(ops).bus[op.delivery]) == id;
  }

  lemma DeliveryProcesses(s: State, op: Op, id: EventId)
    requires id.ItemPosted?
    ensures id in Step(s, op).processed
            <==> id in s.processed
                 || (op.Consume? && op.delivery < |s.bus| && IdOf(s.bus[op.delivery]) == id && Step(s, op) != s)
  {
    hide PostingLines, PaymentLines, NoteLines, StatusAfterNote, StatusAfterPayment, Find, Delta;
    if op.Consume? && ReplyTo(s, op).Done? {
      assert IdOf(s.bus[op.delivery]) in Step(s, op).processed;
    }
  }

  lemma {:induction false} DeliveriesRemembered(ops: seq<Op>, id: EventId)
    requires id.ItemPosted?
    ensures id in Run(ops).processed <==> DeliveredBefore(ops, id)
  {
    hide Step, DeliveredBefore;
    if ops == [] {
      NothingDelivered(id);
    } else {
      var init, op := ops[..|ops| - 1], ops[|ops| - 1];
      assert init + [op] == ops;
      DeliveriesRemembered(init, id);
      RunSnoc(init, op);
      DeliveryProcesses(Run(init), op, id);
      DeliveredSnoc(init, op, id);
    }
  }

  lemma NothingDelivered(id: EventId)
    ensures id !in Run([]).processed && !DeliveredBefore([], id)
  {
  }

  /** After any history, a delivery is booked exactly when it was published, the period
      is open and no delivery of the same event has been booked: at least one of its
      deliveries in an open period, and never a second. */
  lemma DeliveryTakesEffectIff(ops: seq<Op>, delivery: nat, periodOpen: bool)
    ensures var s := Run(ops);
            Run(ops + [Consume(delivery, periodOpen)]) != s
            <==> periodOpen && delivery < |s.bus| && !DeliveredBefore(ops, ItemPosted(s.bus[delivery].side, s.bus[delivery].doc))
  {
    hide DeliveredBefore, Run, PostingLines;
    var s, op := Run(ops), Consume(delivery, periodOpen);
    RunSnoc(ops, op);
    if delivery < |s.bus| {
      DeliveriesRemembered(ops, IdOf(s.bus[delivery]));
      assert ReplyTo(s, op).Done? ==> IdOf(s.bus[delivery]) in Step(s, op).processed;
    }
  }

  /** A row is published exactly when it is there, unsent and under its attempts. */
  lemma PublicationTakesEffectIff(ops: seq<Op>, row: nat)
    ensures var s, t := Run(ops), Run(ops + [Publish(row)]);
            && (t != s <==> row < |s.outbox| && !s.outbox[row].published && s.outbox[row].attempts < 6000)
            && (t != s ==> t == s.(bus := s.bus + [s.outbox[row].msg]))
  {
    hide Run;
    RunSnoc(ops, Publish(row));
    assert ReplyTo(Run(ops), Publish(row)).Done? ==> |Step(Run(ops), Publish(row)).bus| == |Run(ops).bus| + 1;
  }

  /** Marking flags a row exactly when its event has reached the bus, and a failure adds
      one attempt to the row; nothing else moves. */
  lemma MarksDo(ops: seq<Op>, row: nat)
    ensures var s := Run(ops);
            var marked, failed := Run(ops + [MarkPublished(row)]), Run(ops + [MarkFailed(row)]);
            && marked == (if row < |s.outbox| && exists k :: 0 <= k < |s.bus| && s.bus[k] == s.outbox[row].msg
                          then s.(outbox := s.outbox[row := OutboxRow(s.outbox[row].msg, true, s.outbox[row].attempts)]) else s)
            && failed == (if row < |s.outbox|
                          then s.(outbox := s.outbox[row := OutboxRow(s.outbox[row].msg, s.outbox[row].published,
                                                                      s.outbox[row].attempts + 1)]) else s)
  {
    hide Run;
    RunSnoc(ops, MarkPublished(row));
    RunSnoc(ops, MarkFailed(row));
  }
}
