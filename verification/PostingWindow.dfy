/** Which day an entry is filed under, and what closing a month protects.  An event
    posting reads the fiscal periods first and books afterwards in a transaction of
    its own, and closing a month counts its drafts first and closes it afterwards, so
    each of these is two steps here; posting a draft checks and posts in one.  Times are
    whole seconds; the calendar gives the month of a time. */
module PostingWindow {
  import opened Ledger

  type Calendar = int -> int

  const TOLERANCE := 86400

  datatype Window = Window(transaction: int, accounting: int, deferred: bool)

  function TransactionDate(occurredAt: Option<int>, now: int): int {
    match occurredAt
    case None => now
    case Some(t) => if t > now + TOLERANCE then now else t
  }

  function ChooseWindow(txn: int, now: int, txnClosed: bool, nowClosed: bool): Option<Window> {
    if !txnClosed then Some(Window(txn, txn, false))
    else if nowClosed then None
    else Some(Window(txn, now, true))
  }

  function Resolve(cal: Calendar, closed: set<int>, occurredAt: Option<int>, now: int): Option<Window> {
    var txn := TransactionDate(occurredAt, now);
    ChooseWindow(txn, now, cal(txn) in closed, cal(now) in closed)
  }

  /** An event with no time, or with one more than a day ahead, counts as happening on
      arrival.  It is refused exactly when neither its own month nor the current one is
      open; otherwise it is filed on its own date if that month is open and on arrival
      if not, always in an open month and never more than a day ahead. */
  lemma WindowRules(cal: Calendar, closed: set<int>, occurredAt: Option<int>, now: int)
    ensures var w := Resolve(cal, closed, occurredAt, now);
            && (occurredAt.Some? && occurredAt.value <= now + 86400 ==>
                  var t := occurredAt.value;
                  && (w.None? <==> cal(t) in closed && cal(now) in closed)
                  && (cal(t) !in closed ==> w == Some(Window(t, t, false)))
                  && (cal(t) in closed && cal(now) !in closed ==> w == Some(Window(t, now, true))))
            && (occurredAt.None? || now + 86400 < occurredAt.value ==>
                  w == if cal(now) in closed then None else Some(Window(now, now, false)))
            && (w.Some? ==> cal(w.value.accounting) !in closed && w.value.accounting <= now + 86400)
  {
  }

  // ----- runs

  datatype Status = Draft | Posted

  datatype Row = Row(date: int, status: Status)

  /** pending holds the window each event caller has resolved and not yet booked,
      closing the months whose drafts a caller has counted and found none. */
  datatype State = State(closed: set<int>, rows: seq<Row>, pending: map<int, Window>, closing: multiset<int>)

  const EMPTY := State({}, [], map[], multiset{})

  datatype Op =
    | ResolveWindow(caller: int, occurredAt: Option<int>, now: int)
    | Book(caller: int, isNew: bool)
    | CreateDraft(date: int)
    | PostDraft(k: nat)
    | CountDrafts(period: int)
    | ClosePeriod(period: int)
    | ReopenPeriod(period: int)

  datatype Reply = Done | PeriodClosed | NotFound | InvalidStatus | HasDrafts

  predicate DraftsIn(cal: Calendar, rows: seq<Row>, p: int) {
    exists k :: 0 <= k < |rows| && rows[k].status.Draft? && cal(rows[k].date) == p
  }

  function ReplyTo(cal: Calendar, s: State, op: Op): Reply {
    match op
    case ResolveWindow(c, t, now) => if Resolve(cal, s.closed, t, now).None? then PeriodClosed else Done
    case Book(c, isNew) => if c in s.pending then Done else NotFound
    case CreateDraft(date) => Done
    case PostDraft(k) =>
      if k >= |s.rows| then NotFound
      else if s.rows[k].status != Draft then InvalidStatus
      else if cal(s.rows[k].date) in s.closed then PeriodClosed else Done
    case CountDrafts(p) => if DraftsIn(cal, s.rows, p) then HasDrafts else Done
    case ClosePeriod(p) => if p in s.closing then Done else NotFound
    case ReopenPeriod(p) => Done
  }

  function Step(cal: Calendar, s: State, op: Op): State {
    if ReplyTo(cal, s, op) != Done then s else
      match op
      case ResolveWindow(c, t, now) => s.(pending := s.pending[c := Resolve(cal, s.closed, t, now).value])
      case Book(c, isNew) =>
        // a redelivered event finds its entry and adds none
        s.(rows := if isNew then s.rows + [Row(s.pending[c].accounting, Posted)] else s.rows, pending := s.pending - {c})
      case CreateDraft(date) => s.(rows := s.rows + [Row(date, Draft)])
      case PostDraft(k) => s.(rows := s.rows[k := Row(s.rows[k].date, Posted)])
      case CountDrafts(p) => s.(closing := s.closing + multiset{p})
      case ClosePeriod(p) => s.(closed := s.closed + {p}, closing := s.closing - multiset{p})
      case ReopenPeriod(p) => s.(closed := s.closed - {p})
  }

  function StepAll(cal: Calendar, s: State, ops: seq<Op>): State {
    if ops == [] then s else Step(cal, StepAll(cal, s, ops[..|ops| - 1]), ops[|ops| - 1])
  }

  predicate StaysClosed(ops: seq<Op>, p: int) {
    ReopenPeriod(p) !in ops
  }

  predicate PostedIn(cal: Calendar, r: Row, p: int) {
    r.status.Posted? && cal(r.date) == p
  }

  /** The posted entries of month p are the same entries, and no more. */
  predicate SamePosted(cal: Calendar, s: State, t: State, p: int) {
    && |s.rows| <= |t.rows|
    && (forall k :: 0 <= k < |t.rows| && PostedIn(cal, t.rows[k], p) ==> k < |s.rows| && s.rows[k] == t.rows[k])
    && (forall k :: 0 <= k < |s.rows| && PostedIn(cal, s.rows[k], p) ==> t.rows[k] == s.rows[k])
  }

  predicate NothingPending(cal: Calendar, s: State, p: int) {
    forall c :: c in s.pending ==> cal(s.pending[c].accounting) != p
  }

  lemma FreezeStep(cal: Calendar, s: State, op: Op, p: int)
    requires p in s.closed && NothingPending(cal, s, p) && op != ReopenPeriod(p)
    ensures var t := Step(cal, s, op); p in t.closed && NothingPending(cal, t, p) && SamePosted(cal, s, t, p)
  {
    if op.ResolveWindow? {
      WindowRules(cal, s.closed, op.occurredAt, op.now);
    }
  }

  /** A closed month is frozen over every run that does not reopen it, if nothing
      was already resolved into it. */
  lemma {:induction false} Freeze(cal: Calendar, s: State, ops: seq<Op>, p: int)
    requires p in s.closed && NothingPending(cal, s, p) && StaysClosed(ops, p)
    ensures var t := StepAll(cal, s, ops); p in t.closed && NothingPending(cal, t, p) && SamePosted(cal, s, t, p)
  {
    if ops != [] {
      var before := ops[..|ops| - 1];
      assert StaysClosed(before, p);
      Freeze(cal, s, before, p);
      FreezeStep(cal, StepAll(cal, s, before), ops[|ops| - 1], p);
    }
  }

  /** A draft is posted exactly when its month is open, and keeps its date. */
  lemma PostingDoes(cal: Calendar, s: State, k: nat)
    ensures Step(cal, s, PostDraft(k))
            == if k < |s.rows| && s.rows[k].status == Draft && cal(s.rows[k].date) !in s.closed
               then State(s.closed, s.rows[k := Row(s.rows[k].date, Posted)], s.pending, s.closing) else s
  {
    hide Resolve;
  }

  /** A resolved event is booked on its accounting date, unless it is a replay, and its
      window is gone. */
  lemma BookingDoes(cal: Calendar, s: State, caller: int, isNew: bool)
    ensures var t := Step(cal, s, Book(caller, isNew));
            && t.rows == (if caller in s.pending && isNew then s.rows + [Row(s.pending[caller].accounting, Posted)] else s.rows)
            && t.pending == (map c | c in s.pending && c != caller :: s.pending[c])
            && t.closed == s.closed && t.closing == s.closing
  {
    hide Resolve;
  }

  /** A count goes through exactly when no draft is dated in the month. */
  lemma CountingDoes(cal: Calendar, s: State, p: int)
    ensures Step(cal, s, CountDrafts(p))
            == (if forall j :: 0 <= j < |s.rows| ==> s.rows[j].status == Posted || cal(s.rows[j].date) != p
                then State(s.closed, s.rows, s.pending, s.closing + multiset{p}) else s)
  {
    hide Resolve;
  }

  /** A month is closed by a caller whose count went through, and reopened by anyone. */
  lemma ClosingDoes(cal: Calendar, s: State, p: int)
    ensures Step(cal, s, ClosePeriod(p))
            == (if s.closing[p] > 0 then State(s.closed + {p}, s.rows, s.pending, s.closing - multiset{p}) else s)
    ensures Step(cal, s, ReopenPeriod(p)) == State(s.closed - {p}, s.rows, s.pending, s.closing)
  {
    hide Resolve, DraftsIn;
  }

  /** What the answers are. */
  lemma PostingAnswers(cal: Calendar, s: State, k: nat)
    ensures var r := ReplyTo(cal, s, PostDraft(k));
            && (r == NotFound <==> k >= |s.rows|)
            && (r == InvalidStatus <==> k < |s.rows| && s.rows[k].status == Posted)
            && (r == PeriodClosed <==> k < |s.rows| && s.rows[k].status == Draft && cal(s.rows[k].date) in s.closed)
  {
    assert k < |s.rows| ==> s.rows[k].status == Draft || s.rows[k].status == Posted;
  }

  /** Over every run, entries keep their place and date, and a posted one stays posted. */
  lemma {:induction false} PostedStays(cal: Calendar, s: State, ops: seq<Op>)
    ensures var t := StepAll(cal, s, ops);
            && |s.rows| <= |t.rows|
            && forall k :: 0 <= k < |s.rows| ==>
                 t.rows[k].date == s.rows[k].date && (s.rows[k].status == Posted ==> t.rows[k].status == Posted)
  {
    hide Resolve, DraftsIn;
    if ops != [] {
      PostedStays(cal, s, ops[..|ops| - 1]);
    }
  }

  ghost predicate Frozen(cal: Calendar, s: State, p: int) {
    forall ops :: StaysClosed(ops, p) ==> SamePosted(cal, s, StepAll(cal, s, ops), p)
  }

  /** And only then: a posting that read the month as open before it closed still
      files into it afterwards. */
  lemma FrozenIffNothingPending(cal: Calendar, s: State, p: int)
    requires p in s.closed
    ensures Frozen(cal, s, p) <==> NothingPending(cal, s, p)
  {
    if NothingPending(cal, s, p) {
      forall ops | StaysClosed(ops, p)
        ensures SamePosted(cal, s, StepAll(cal, s, ops), p)
      {
        Freeze(cal, s, ops, p);
      }
    } else {
      var c :| c in s.pending && cal(s.pending[c].accounting) == p;
      var ops := [Book(c, true)];
      assert ops[..0] == [];
      assert StepAll(cal, s, ops[..0]) == s;
      var t := StepAll(cal, s, ops);
      assert t.rows == s.rows + [Row(s.pending[c].accounting, Posted)];
      assert PostedIn(cal, t.rows[|s.rows|], p);
      assert StaysClosed(ops, p);
      assert !SamePosted(cal, s, t, p);
    }
  }

  lemma StepAllSnoc(cal: Calendar, s: State, ops: seq<Op>, op: Op)
    ensures StepAll(cal, s, ops + [op]) == Step(cal, StepAll(cal, s, ops), op)
  {
    assert (ops + [op])[..|ops|] == ops;
  }

  lemma AfterFirst(cal: Calendar, op: Op)
    ensures StepAll(cal, EMPTY, [op]) == Step(cal, EMPTY, op)
  {
    StepAllSnoc(cal, EMPTY, [], op);
    assert [] + [op] == [op];
  }

  /** Such a run, from an empty ledger: an event resolves its window, the month is
      counted and closed, and the entry is then posted into it. */
  lemma BookedIntoClosedMonth(cal: Calendar, t: int)
    ensures var p := cal(t);
            var s := StepAll(cal, EMPTY, [ResolveWindow(1, Some(t), t), CountDrafts(p), ClosePeriod(p), Book(1, true)]);
            p in s.closed && |s.rows| == 1 && PostedIn(cal, s.rows[0], p)
  {
    hide StepAll;
    var p := cal(t);
    var a, b, c, d := ResolveWindow(1, Some(t), t), CountDrafts(p), ClosePeriod(p), Book(1, true);
    var w := map[1 := Window(t, t, false)];
    var s1, s2 := State({}, [], w, multiset{}), State({}, [], w, multiset{p});
    var s3 := State({p}, [], w, multiset{});
    AfterFirst(cal, a);
    assert Step(cal, EMPTY, a) == s1;
    assert Step(cal, s1, b) == s2;
    assert Step(cal, s2, c) == s3;
    assert Step(cal, s3, d) == State({p}, [Row(t, Posted)], map[], multiset{});
    StepAllSnoc(cal, EMPTY, [a], b);
    StepAllSnoc(cal, EMPTY, [a, b], c);
    StepAllSnoc(cal, EMPTY, [a, b, c], d);
    assert [a] + [b] == [a, b] && [a, b] + [c] == [a, b, c] && [a, b, c] + [d] == [a, b, c, d];
  }

  /** And a draft dated in the month can come in between the count and the close, so
      that the closed month has an unposted entry after all. */
  lemma DraftInClosedMonth(cal: Calendar, t: int)
    ensures var p := cal(t);
            var s := StepAll(cal, EMPTY, [CountDrafts(p), CreateDraft(t), ClosePeriod(p)]);
            p in s.closed && DraftsIn(cal, s.rows, p)
  {
    hide StepAll;
    var p := cal(t);
    var a, b, c := CountDrafts(p), CreateDraft(t), ClosePeriod(p);
    var s1, s2 := State({}, [], map[], multiset{p}), State({}, [Row(t, Draft)], map[], multiset{p});
    AfterFirst(cal, a);
    assert Step(cal, EMPTY, a) == s1;
    assert Step(cal, s1, b) == s2;
    StepAllSnoc(cal, EMPTY, [a], b);
    StepAllSnoc(cal, EMPTY, [a, b], c);
    assert [a] + [b] == [a, b] && [a, b] + [c] == [a, b, c];
    assert s2.rows[0] == Row(t, Draft);
  }

  /** Drafts dated in a month, among the rows from the n-th on. */
  predicate DraftsFrom(cal: Calendar, rows: seq<Row>, n: nat, p: int) {
    exists k :: n <= k < |rows| && rows[k].status.Draft? && cal(rows[k].date) == p
  }

  lemma {:induction false} OldRowsHaveNone(cal: Calendar, s: State, ops: seq<Op>, p: int)
    requires !DraftsIn(cal, s.rows, p)
    ensures var t := StepAll(cal, s, ops);
            |s.rows| <= |t.rows| && !DraftsIn(cal, t.rows[..|s.rows|], p)
  {
    if ops == [] {
      assert s.rows[..|s.rows|] == s.rows;
    } else {
      OldRowsHaveNone(cal, s, ops[..|ops| - 1], p);
      var t, u, n := StepAll(cal, s, ops[..|ops| - 1]), StepAll(cal, s, ops), |s.rows|;
      forall k | 0 <= k < n
        ensures !(u.rows[k].status.Draft? && cal(u.rows[k].date) == p)
      {
        assert t.rows[..n][k] == t.rows[k];
      }
    }
  }

  /** A close that goes through leaves drafts in its month exactly when one was dated
      there since the count and has not been posted. */
  lemma ClosedWithDraftsIff(cal: Calendar, s: State, between: seq<Op>, p: int)
    requires ReplyTo(cal, s, CountDrafts(p)).Done?
    ensures var t := StepAll(cal, Step(cal, s, CountDrafts(p)), between);
            var u := Step(cal, t, ClosePeriod(p));
            DraftsIn(cal, u.rows, p) <==> DraftsFrom(cal, t.rows, |s.rows|, p)
  {
    hide StepAll;
    var c := Step(cal, s, CountDrafts(p));
    var t := StepAll(cal, c, between);
    OldRowsHaveNone(cal, c, between, p);
    forall k | 0 <= k < |s.rows|
      ensures !(t.rows[k].status.Draft? && cal(t.rows[k].date) == p)
    {
      assert t.rows[..|s.rows|][k] == t.rows[k];
    }
  }

  /** Booked at once, as one step, an event cannot reach a closed month at all. */
  lemma BookedAtOnce(cal: Calendar, s: State, c: int, occurredAt: Option<int>, now: int, isNew: bool)
    requires Resolve(cal, s.closed, occurredAt, now).Some?
    ensures var t := Step(cal, Step(cal, s, ResolveWindow(c, occurredAt, now)), Book(c, isNew));
            forall p :: p in s.closed ==> p in t.closed && SamePosted(cal, s, t, p)
  {
    WindowRules(cal, s.closed, occurredAt, now);
  }

  class FiscalLedger {
    const cal: Calendar
    var closed: set<int>
    var rows: seq<Row>
    var pending: map<int, Window>
    var closing: multiset<int>

    ghost function View(): State
      reads this
    {
      State(closed, rows, pending, closing)
    }

    constructor (cal: Calendar)
      ensures this.cal == cal && View() == EMPTY
    {
      this.cal, closed, rows, pending, closing := cal, {}, [], map[], multiset{};
    }

    /** A missing row means open. */
    method IsPeriodClosed(period: int) returns (r: bool)
      ensures r <==> period in View().closed
    {
      r := period in closed;
    }

    method CountPeriodDrafts(period: int) returns (r: Reply)
      modifies this`closing
      ensures r == ReplyTo(cal, old(View()), CountDrafts(period)) && View() == Step(cal, old(View()), CountDrafts(period))
    {
      var drafts := 0;
      for k := 0 to |rows|
        invariant drafts > 0 <==> exists j :: 0 <= j < k && rows[j].status.Draft? && cal(rows[j].date) == period
        invariant drafts >= 0 && closing == old(closing)
      {
        if rows[k].status.Draft? && cal(rows[k].date) == period {
          drafts := drafts + 1;
        }
      }
      if drafts > 0 {
        return HasDrafts;
      }
      closing := closing + multiset{period};
      return Done;
    }

    method UpsertClosed(period: int)
      modifies this`closed, this`closing
      ensures View() == Step(cal, old(View()), ClosePeriod(period))
    {
      hide DraftsIn, Resolve;
      if period in closing {
        closed := closed + {period};
        closing := closing - multiset{period};
      }
    }

    /** Counts, and closes if the count was zero; reopening asks nothing. */
    method SetPeriodStatus(period: int, close: bool) returns (r: Reply)
      modifies this`closed, this`closing
      ensures r == ReplyTo(cal, old(View()), if close then CountDrafts(period) else ReopenPeriod(period))
      ensures View() == if !close then Step(cal, old(View()), ReopenPeriod(period))
                        else if r.Done? then Step(cal, Step(cal, old(View()), CountDrafts(period)), ClosePeriod(period))
                        else old(View())
    {
      hide DraftsIn, Resolve;
      if close {
        r := CountPeriodDrafts(period);
        if r.Done? {
          UpsertClosed(period);
        }
      } else {
        closed := closed - {period};
        r := Done;
      }
    }

    /** Reads the current month's status only when the answer is not already known. */
    method ResolvePostingWindow(caller: int, occurredAt: Option<int>, now: int) returns (r: Reply)
      modifies this`pending
      ensures var op := ResolveWindow(caller, occurredAt, now);
              r == ReplyTo(cal, old(View()), op) && View() == Step(cal, old(View()), op)
    {
      var txn := TransactionDate(occurredAt, now);
      var txnClosed := IsPeriodClosed(cal(txn));
      var nowClosed := txnClosed;
      if txnClosed && cal(txn) != cal(now) {
        nowClosed := IsPeriodClosed(cal(now));
      }
      var w := ChooseWindow(txn, now, txnClosed, nowClosed);
      if w.None? {
        return PeriodClosed;
      }
      pending := pending[caller := w.value];
      return Done;
    }

    method BookPostedEntry(caller: int, isNew: bool) returns (r: Reply)
      modifies this`rows, this`pending
      ensures r == ReplyTo(cal, old(View()), Book(caller, isNew)) && View() == Step(cal, old(View()), Book(caller, isNew))
    {
      if caller !in pending {
        return NotFound;
      }
      if isNew {
        rows := rows + [Row(pending[caller].accounting, Posted)];
      }
      pending := pending - {caller};
      return Done;
    }

    method CreateJournalEntry(date: int)
      modifies this`rows
      ensures View() == Step(cal, old(View()), CreateDraft(date))
    {
      rows := rows + [Row(date, Draft)];
    }

    /** Status and period are read under the row lock the update is made under. */
    method PostJournalEntry(k: nat) returns (r: Reply)
      modifies this`rows
      ensures r == ReplyTo(cal, old(View()), PostDraft(k)) && View() == Step(cal, old(View()), PostDraft(k))
    {
      if k >= |rows| {
        return NotFound;
      }
      if rows[k].status != Draft {
        return InvalidStatus;
      }
      if cal(rows[k].date) in closed {
        return PeriodClosed;
      }
      rows := rows[k := Row(rows[k].date, Posted)];
      return Done;
    }
  }
}
