/** The booking primitive: one transaction that inserts a posted entry, records
    the source event and runs a side effect, called by any number of concurrent
    callers.  The pre-check runs outside the transaction, so callers interleave
    between every two database operations. */
module Booking {
  import opened Ledger

  type EventId = string
  type EntryId = nat

  /** One call: the eventID argument, the params' own SourceEventID, the lines. */
  datatype Call = Call(event: Option<EventId>, source: Option<EventId>, lines: Entry)

  /** The source_event_id column: filled from the event only when left unset. */
  function SourceOf(c: Call): Option<EventId> {
    if c.event.Some? && c.source.None? then c.event else c.source
  }

  /** The two ids of a call agree, as every caller in the repository arranges. */
  predicate InStep(c: Call) {
    c.source.None? || c.source == c.event
  }

  datatype Row = Row(id: EntryId, source: Option<EventId>, call: Call)

  /** Committed tables: entries in commit order, processed_events, side-effect rows. */
  datatype Db = Db(entries: seq<Row>, processed: set<EventId>, effects: seq<EntryId>)

  const EMPTY := Db([], {}, [])

  ghost predicate HasSource(entries: seq<Row>, e: EventId) {
    exists k :: 0 <= k < |entries| && entries[k].source == Some(e)
  }

  /** GetJournalEntryBySourceEvent. */
  function Find(entries: seq<Row>, e: EventId): (r: Option<EntryId>)
    ensures r.Some? <==> HasSource(entries, e)
    ensures r.Some? ==> exists k :: 0 <= k < |entries| && entries[k].source == Some(e) && entries[k].id == r.value
  {
    if entries == [] then None
    else if entries[|entries| - 1].source == Some(e) then Some(entries[|entries| - 1].id)
    else
      var r := Find(entries[..|entries| - 1], e);
      assert forall k :: 0 <= k < |entries| - 1 ==> entries[k] == entries[..|entries| - 1][k];
      r
  }

  function EventSet(c: Call): set<EventId> {
    if c.event.Some? then {c.event.value} else {}
  }

  /** The booking as its documentation describes it: one indivisible step. */
  ghost function Book(db: Db, id: EntryId, c: Call): Db {
    if (c.event.Some? && c.event.value in db.processed)
       || (SourceOf(c).Some? && HasSource(db.entries, SourceOf(c).value))
    then db
    else Db(db.entries + [Row(id, SourceOf(c), c)], db.processed + EventSet(c), db.effects + [id])
  }

  /** Booking a list of calls one after another, each indivisibly. */
  ghost function BookAll(rows: seq<Row>): Db {
    if rows == [] then EMPTY
    else Book(BookAll(rows[..|rows| - 1]), rows[|rows| - 1].id, rows[|rows| - 1].call)
  }

  // ----- the interleaved protocol

  datatype Phase =
    | Idle
    | Ready                               // pre-check found nothing
    | Inserted(id: EntryId)               // transaction open, row inserted
    | Marked(id: EntryId)                 // processed_events row inserted too
    | Worked(id: EntryId)                 // side effect done, not committed
    | Committed(id: EntryId)              // committed, not yet returned
    | Replaying                           // rolled back; about to look the entry up
    | Done(result: Option<EntryId>)       // returned without error
    | Failed                              // returned an error, or crashed

  datatype State = State(db: Db, phases: seq<Phase>, nextId: EntryId)

  datatype Action =
    | PreCheck(i: nat)
    | Insert(i: nat)
    | Mark(i: nat)
    | Effect(i: nat, ok: bool)
    | Commit(i: nat)
    | Return(i: nat)
    | Lookup(i: nat)
    | Crash(i: nat)

  function Init(calls: seq<Call>): State {
    State(EMPTY, seq(|calls|, _ => Idle), 0)
  }

  predicate InFlight(p: Phase) {
    p.Inserted? || p.Marked? || p.Worked?
  }

  /** Caller j's open transaction holds the unique-index key of a source id. */
  predicate HoldsSource(calls: seq<Call>, phases: seq<Phase>, j: nat, e: EventId)
    requires |calls| == |phases|
  {
    j < |calls| && InFlight(phases[j]) && SourceOf(calls[j]) == Some(e)
  }

  /** Caller j's open transaction holds the processed_events key of an event id. */
  predicate HoldsEvent(calls: seq<Call>, phases: seq<Phase>, j: nat, e: EventId)
    requires |calls| == |phases|
  {
    j < |calls| && (phases[j].Marked? || phases[j].Worked?) && calls[j].event == Some(e)
  }

  /** Whether the action can run now.  An insert waits while another open
      transaction holds the same unique key, as the database makes it. */
  ghost predicate Enabled(calls: seq<Call>, s: State, a: Action)
    requires |calls| == |s.phases|
  {
    && a.i < |calls|
    && var c, p := calls[a.i], s.phases[a.i];
       match a
       case PreCheck(_) => p.Idle?
       case Insert(_) =>
         p.Ready? && (SourceOf(c).Some? ==> forall j :: !HoldsSource(calls, s.phases, j, SourceOf(c).value))
       case Mark(_) =>
         p.Inserted? && (c.event.Some? ==> forall j :: !HoldsEvent(calls, s.phases, j, c.event.value))
       case Effect(_, _) => p.Marked?
       case Commit(_) => p.Worked?
       case Return(_) => p.Committed?
       case Lookup(_) => p.Replaying? && c.event.Some?
       case Crash(_) => !p.Done?
  }

  /** One database operation of one caller; a disabled action changes nothing. */
  ghost function Do(calls: seq<Call>, s: State, a: Action): (t: State)
    requires |calls| == |s.phases|
    ensures |t.phases| == |s.phases|
  {
    if !Enabled(calls, s, a) then s else
    var c, i := calls[a.i], a.i;
    match a
    case PreCheck(_) =>
      var seen := c.event.Some? && c.event.value in s.db.processed;
      s.(phases := s.phases[i := if seen then Replaying else Ready])
    case Insert(_) =>
      if SourceOf(c).Some? && HasSource(s.db.entries, SourceOf(c).value)
      then s.(phases := s.phases[i := if c.event.Some? then Replaying else Failed])
      else s.(phases := s.phases[i := Inserted(s.nextId)], nextId := s.nextId + 1)
    case Mark(_) =>
      var lost := c.event.Some? && c.event.value in s.db.processed;
      s.(phases := s.phases[i := if lost then Replaying else Marked(s.phases[i].id)])
    case Effect(_, ok) =>
      s.(phases := s.phases[i := if ok then Worked(s.phases[i].id) else Failed])
    case Commit(_) =>
      var id := s.phases[i].id;
      State(Db(s.db.entries + [Row(id, SourceOf(c), c)], s.db.processed + EventSet(c), s.db.effects + [id]),
            s.phases[i := Committed(id)], s.nextId)
    case Return(_) =>
      s.(phases := s.phases[i := Done(Some(s.phases[i].id))])
    case Lookup(_) =>
      s.(phases := s.phases[i := Done(Find(s.db.entries, c.event.value))])
    case Crash(_) =>
      s.(phases := s.phases[i := Failed])
  }

  ghost function Run(calls: seq<Call>, actions: seq<Action>): (s: State)
    ensures |s.phases| == |calls|
  {
    if actions == [] then Init(calls)
    else Do(calls, Run(calls, actions[..|actions| - 1]), actions[|actions| - 1])
  }

  // ----- what every step keeps

  ghost predicate Aligned(db: Db, nextId: EntryId) {
    && |db.effects| == |db.entries|
    && forall k :: 0 <= k < |db.entries| ==>
         db.effects[k] == db.entries[k].id < nextId && db.entries[k].source == SourceOf(db.entries[k].call)
  }

  ghost predicate Clash(x: Row, y: Row) {
    || x.id == y.id
    || (x.source.Some? && x.source == y.source)
    || (x.call.event.Some? && x.call.event == y.call.event)
  }

  ghost predicate Distinct(entries: seq<Row>) {
    forall k, m :: 0 <= k < m < |entries| ==> !Clash(entries[k], entries[m])
  }

  ghost predicate BookedFrom(entries: seq<Row>, e: EventId) {
    exists k :: 0 <= k < |entries| && entries[k].call.event == Some(e)
  }

  ghost predicate TablesValid(db: Db, nextId: EntryId) {
    && Aligned(db, nextId)
    && Distinct(db.entries)
    && (forall e :: e in db.processed <==> BookedFrom(db.entries, e))
    && db == BookAll(db.entries)
  }

  /** The row numbered id is in the table. */
  ghost predicate Stored(db: Db, id: EntryId) {
    exists k :: 0 <= k < |db.entries| && db.entries[k].id == id
  }

  ghost predicate StoredFor(db: Db, id: EntryId, c: Call) {
    exists k :: 0 <= k < |db.entries| && db.entries[k].id == id && db.entries[k].call == c
  }

  ghost predicate StoredUnder(db: Db, id: EntryId, e: EventId) {
    exists k :: 0 <= k < |db.entries| && db.entries[k].id == id && db.entries[k].source == Some(e)
  }

  /** Some caller books event e under another source id. */
  ghost predicate OutOfStep(calls: seq<Call>, e: EventId) {
    exists j :: 0 <= j < |calls| && calls[j].event == Some(e) && !InStep(calls[j])
  }

  ghost predicate CallerValid(calls: seq<Call>, c: Call, p: Phase, db: Db, nextId: EntryId) {
    && (InFlight(p) ==> p.id < nextId && !Stored(db, p.id)
                        && (SourceOf(c).Some? ==> !HasSource(db.entries, SourceOf(c).value)))
    && ((p.Marked? || p.Worked?) && c.event.Some? ==> c.event.value !in db.processed)
    && (p.Committed? ==> StoredFor(db, p.id, c))
    && (p.Replaying? ==> c.event.Some?
                         && (c.event.value in db.processed || HasSource(db.entries, SourceOf(c).value)))
    && (p.Done? && p.result.Some? ==>
          StoredFor(db, p.result.value, c) || (c.event.Some? && StoredUnder(db, p.result.value, c.event.value)))
    && (p.Done? && p.result.None? ==> c.event.Some? && OutOfStep(calls, c.event.value))
  }

  ghost predicate Apart(c: Call, p: Phase, d: Call, q: Phase) {
    InFlight(p) && InFlight(q) ==>
      && p.id != q.id
      && (SourceOf(c).Some? ==> SourceOf(c) != SourceOf(d))
      && (!p.Inserted? && !q.Inserted? && c.event.Some? ==> c.event != d.event)
  }

  /** Two open transactions never share a key or an entry id. */
  ghost predicate Exclusive(calls: seq<Call>, phases: seq<Phase>)
    requires |calls| == |phases|
  {
    forall i, j :: 0 <= i < j < |calls| ==> Apart(calls[i], phases[i], calls[j], phases[j])
  }

  ghost predicate AllInStep(calls: seq<Call>) {
    forall i :: 0 <= i < |calls| ==> InStep(calls[i])
  }

  ghost predicate Valid(calls: seq<Call>, s: State) {
    && |calls| == |s.phases|
    && TablesValid(s.db, s.nextId)
    && Exclusive(calls, s.phases)
    && (forall i :: 0 <= i < |calls| ==> CallerValid(calls, calls[i], s.phases[i], s.db, s.nextId))
    && (forall k :: 0 <= k < |s.db.entries| ==> s.db.entries[k].call in calls)
  }

  lemma InitValid(calls: seq<Call>)
    ensures Valid(calls, Init(calls))
  {
  }

  /** A processed event has its entry under its own source id, unless some caller
      of that event was out of step. */
  lemma ProcessedHasEntry(calls: seq<Call>, s: State, e: EventId)
    requires Valid(calls, s) && e in s.db.processed
    ensures HasSource(s.db.entries, e) || OutOfStep(calls, e)
  {
    var k :| 0 <= k < |s.db.entries| && s.db.entries[k].call.event == Some(e);
    var c := s.db.entries[k].call;
    if InStep(c) {
      assert s.db.entries[k].source == Some(e);
    } else {
      var j :| 0 <= j < |calls| && calls[j] == c;
    }
  }

  lemma StepKeepsApart(calls: seq<Call>, s: State, a: Action, j: nat)
    requires Valid(calls, s) && Enabled(calls, s, a) && !a.Commit? && j < |calls| && j != a.i
    ensures var t := Do(calls, s, a);
            Apart(calls[j], s.phases[j], calls[a.i], t.phases[a.i])
  {
    var c := calls[a.i];
    assert CallerValid(calls, calls[j], s.phases[j], s.db, s.nextId);
    if j < a.i {
      assert Apart(calls[j], s.phases[j], c, s.phases[a.i]);
    } else {
      assert Apart(c, s.phases[a.i], calls[j], s.phases[j]);
    }
    if a.Insert? && SourceOf(c).Some? {
      assert !HoldsSource(calls, s.phases, j, SourceOf(c).value);
    } else if a.Mark? && c.event.Some? {
      assert !HoldsEvent(calls, s.phases, j, c.event.value);
    }
  }

  lemma StepKeepsExclusive(calls: seq<Call>, s: State, a: Action)
    requires Valid(calls, s) && Enabled(calls, s, a) && !a.Commit?
    ensures Exclusive(calls, Do(calls, s, a).phases)
  {
    var t := Do(calls, s, a);
    forall i, j | 0 <= i < j < |calls|
      ensures Apart(calls[i], t.phases[i], calls[j], t.phases[j])
    {
      if i == a.i {
        StepKeepsApart(calls, s, a, j);
      } else if j == a.i {
        StepKeepsApart(calls, s, a, i);
      } else {
        assert Apart(calls[i], s.phases[i], calls[j], s.phases[j]);
      }
    }
  }

  lemma StepKeepsCaller(calls: seq<Call>, s: State, a: Action)
    requires Valid(calls, s) && Enabled(calls, s, a) && !a.Commit?
    ensures var t := Do(calls, s, a); CallerValid(calls, calls[a.i], t.phases[a.i], t.db, t.nextId)
  {
    var c := calls[a.i];
    assert CallerValid(calls, c, s.phases[a.i], s.db, s.nextId);
    if a.Insert? {
      assert !Stored(s.db, s.nextId);
    } else if a.Lookup? {
      var e := c.event.value;
      if e in s.db.processed {
        ProcessedHasEntry(calls, s, e);
      } else if Find(s.db.entries, e).None? {
        assert OutOfStep(calls, e);
      }
    }
  }

  lemma StepKeepsValid(calls: seq<Call>, s: State, a: Action)
    requires Valid(calls, s) && Enabled(calls, s, a) && !a.Commit?
    ensures Valid(calls, Do(calls, s, a))
  {
    var t := Do(calls, s, a);
    assert t.db == s.db && s.nextId <= t.nextId;
    StepKeepsExclusive(calls, s, a);
    forall j | 0 <= j < |calls|
      ensures CallerValid(calls, calls[j], t.phases[j], t.db, t.nextId)
    {
      if j == a.i {
        StepKeepsCaller(calls, s, a);
      } else {
        assert CallerValid(calls, calls[j], s.phases[j], s.db, s.nextId);
      }
    }
  }

  lemma CommitIsOneBooking(calls: seq<Call>, s: State, a: Action)
    requires Valid(calls, s) && Enabled(calls, s, a) && a.Commit?
    ensures Do(calls, s, a).db == Book(s.db, s.phases[a.i].id, calls[a.i]) != s.db
  {
    assert CallerValid(calls, calls[a.i], s.phases[a.i], s.db, s.nextId);
  }

  lemma BookedFromSnoc(entries: seq<Row>, r: Row, e: EventId)
    ensures BookedFrom(entries + [r], e) <==> BookedFrom(entries, e) || r.call.event == Some(e)
  {
    var all := entries + [r];
    if BookedFrom(entries, e) {
      var k :| 0 <= k < |entries| && entries[k].call.event == Some(e);
      assert all[k] == entries[k];
    }
    if r.call.event == Some(e) {
      assert all[|entries|] == r;
    }
  }

  lemma NewRowClashesWithNone(db: Db, nextId: EntryId, row: Row, k: nat)
    requires TablesValid(db, nextId) && k < |db.entries|
    requires !Stored(db, row.id) && row.source == SourceOf(row.call)
    requires row.source.Some? ==> !HasSource(db.entries, row.source.value)
    requires row.call.event.Some? ==> row.call.event.value !in db.processed
    ensures !Clash(db.entries[k], row)
  {
    var x := db.entries[k];
    assert x.call.event.Some? ==> BookedFrom(db.entries, x.call.event.value);
    assert x.source.Some? ==> HasSource(db.entries, x.source.value);
  }

  lemma CommitKeepsTables(calls: seq<Call>, s: State, a: Action)
    requires Valid(calls, s) && Enabled(calls, s, a) && a.Commit?
    ensures var t := Do(calls, s, a); TablesValid(t.db, t.nextId)
  {
    var t, c, n := Do(calls, s, a), calls[a.i], |s.db.entries|;
    var row := Row(s.phases[a.i].id, SourceOf(c), c);
    CommitIsOneBooking(calls, s, a);
    assert CallerValid(calls, c, s.phases[a.i], s.db, s.nextId);
    assert t.db.entries == s.db.entries + [row] && t.db.entries[..n] == s.db.entries;
    forall e
      ensures e in t.db.processed <==> BookedFrom(t.db.entries, e)
    {
      BookedFromSnoc(s.db.entries, row, e);
    }
    forall k, m | 0 <= k < m < n + 1
      ensures !Clash(t.db.entries[k], t.db.entries[m])
    {
      if m == n {
        NewRowClashesWithNone(s.db, s.nextId, row, k);
      } else {
        assert !Clash(s.db.entries[k], s.db.entries[m]);
      }
    }
  }

  lemma CommitKeepsValid(calls: seq<Call>, s: State, a: Action)
    requires Valid(calls, s) && Enabled(calls, s, a) && a.Commit?
    ensures Valid(calls, Do(calls, s, a))
  {
    var t, i, n := Do(calls, s, a), a.i, |s.db.entries|;
    var c, id := calls[i], s.phases[i].id;
    CommitKeepsTables(calls, s, a);
    assert t.db.entries[n] == Row(id, SourceOf(c), c);
    assert forall k :: 0 <= k < n ==> t.db.entries[k] == s.db.entries[k];
    forall x, y | 0 <= x < y < |calls|
      ensures Apart(calls[x], t.phases[x], calls[y], t.phases[y])
    {
      assert Apart(calls[x], s.phases[x], calls[y], s.phases[y]);
    }
    forall j | 0 <= j < |calls|
      ensures CallerValid(calls, calls[j], t.phases[j], t.db, t.nextId)
    {
      CommitKeepsCaller(calls, s, a, j);
    }
  }

  lemma SourceKept(entries: seq<Row>, row: Row, e: EventId)
    ensures HasSource(entries + [row], e) <==> HasSource(entries, e) || row.source == Some(e)
  {
    var all := entries + [row];
    if HasSource(entries, e) {
      var k :| 0 <= k < |entries| && entries[k].source == Some(e);
      assert all[k].source == Some(e);
    }
    if row.source == Some(e) {
      assert all[|entries|].source == Some(e);
    }
  }

  lemma RowKept(db: Db, t: Db, row: Row, id: EntryId, c: Call, e: EventId)
    requires t.entries == db.entries + [row]
    ensures Stored(t, id) ==> Stored(db, id) || id == row.id
    ensures StoredFor(db, id, c) ==> StoredFor(t, id, c)
    ensures StoredUnder(db, id, e) ==> StoredUnder(t, id, e)
  {
    if StoredFor(db, id, c) {
      var k :| 0 <= k < |db.entries| && db.entries[k].id == id && db.entries[k].call == c;
      assert t.entries[k].id == id && t.entries[k].call == c;
    }
    if StoredUnder(db, id, e) {
      var k :| 0 <= k < |db.entries| && db.entries[k].id == id && db.entries[k].source == Some(e);
      assert t.entries[k].id == id && t.entries[k].source == Some(e);
    }
  }

  lemma CommitKeepsCaller(calls: seq<Call>, s: State, a: Action, j: nat)
    requires Valid(calls, s) && Enabled(calls, s, a) && a.Commit? && j < |calls|
    ensures var t := Do(calls, s, a); CallerValid(calls, calls[j], t.phases[j], t.db, t.nextId)
  {
    var t, c, p := Do(calls, s, a), calls[j], s.phases[j];
    var row := Row(s.phases[a.i].id, SourceOf(calls[a.i]), calls[a.i]);
    assert CallerValid(calls, c, p, s.db, s.nextId);
    if j == a.i {
      assert t.db.entries[|s.db.entries|] == row;
      assert StoredFor(t.db, row.id, c);
    } else {
      assert if j < a.i then Apart(c, p, calls[a.i], s.phases[a.i]) else Apart(calls[a.i], s.phases[a.i], c, p);
      if SourceOf(c).Some? {
        SourceKept(s.db.entries, row, SourceOf(c).value);
      }
      var id := if InFlight(p) || p.Committed? then p.id else if p.Done? && p.result.Some? then p.result.value else 0;
      RowKept(s.db, t.db, row, id, c, if c.event.Some? then c.event.value else "");
    }
  }

  lemma {:induction false} ReachableValid(calls: seq<Call>, actions: seq<Action>)
    ensures Valid(calls, Run(calls, actions))
  {
    if actions == [] {
      InitValid(calls);
    } else {
      var s, a := Run(calls, actions[..|actions| - 1]), actions[|actions| - 1];
      ReachableValid(calls, actions[..|actions| - 1]);
      if Enabled(calls, s, a) {
        if a.Commit? {
          CommitKeepsValid(calls, s, a);
        } else {
          StepKeepsValid(calls, s, a);
        }
      }
    }
  }

  // ----- main results, over every set of calls and every interleaving

  /** Whatever the interleaving, the committed tables are those of booking the
      committed calls one at a time and indivisibly, in commit order. */
  lemma Serializable(calls: seq<Call>, actions: seq<Action>)
    ensures var db := Run(calls, actions).db;
            && db == BookAll(db.entries)
            && forall k :: 0 <= k < |db.entries| ==> db.entries[k].call in calls
  {
    ReachableValid(calls, actions);
  }

  /** At most one entry and one side-effect run per event id. */
  lemma AtMostOnce(calls: seq<Call>, actions: seq<Action>, e: EventId)
    ensures var db := Run(calls, actions).db;
            && |db.effects| == |db.entries|
            && (forall k :: 0 <= k < |db.entries| ==> db.effects[k] == db.entries[k].id)
            && forall k, m :: 0 <= k < m < |db.entries| && db.entries[k].call.event == Some(e)
                              ==> db.entries[m].call.event != Some(e) && db.effects[k] != db.effects[m]
  {
    ReachableValid(calls, actions);
  }

  /** With the two ids in step, an event is processed exactly when its entry exists. */
  lemma ProcessedIffEntry(calls: seq<Call>, actions: seq<Action>, e: EventId)
    requires AllInStep(calls)
    ensures var db := Run(calls, actions).db;
            e in db.processed <==> HasSource(db.entries, e)
  {
    var s := Run(calls, actions);
    ReachableValid(calls, actions);
    if e in s.db.processed {
      ProcessedHasEntry(calls, s, e);
    }
    if HasSource(s.db.entries, e) {
      var k :| 0 <= k < |s.db.entries| && s.db.entries[k].source == Some(e);
      assert s.db.entries[k].call in calls;
      assert BookedFrom(s.db.entries, e);
    }
  }

  /** Every caller of an event that returns without error returns the one entry
      booked for it. */
  lemma SameEntryReturned(calls: seq<Call>, actions: seq<Action>, i: nat, e: EventId)
    requires AllInStep(calls) && i < |calls| && calls[i].event == Some(e)
    requires Run(calls, actions).phases[i].Done?
    ensures var s := Run(calls, actions);
            s.phases[i].result.Some? && s.phases[i].result == Find(s.db.entries, e)
  {
    var s := Run(calls, actions);
    ReachableValid(calls, actions);
    assert CallerValid(calls, calls[i], s.phases[i], s.db, s.nextId);
    var id := s.phases[i].result.value;
    var k :| 0 <= k < |s.db.entries| && s.db.entries[k].id == id && s.db.entries[k].source == Some(e);
    var m :| 0 <= m < |s.db.entries| && s.db.entries[m].source == Some(e)
             && s.db.entries[m].id == Find(s.db.entries, e).value;
    SourceOnce(s.db.entries, k, m, e);
  }

  lemma SourceOnce(entries: seq<Row>, k: nat, m: nat, e: EventId)
    requires Distinct(entries) && k < |entries| && m < |entries|
    requires entries[k].source == entries[m].source == Some(e)
    ensures k == m
  {
    assert Clash(entries[k], entries[m]) && Clash(entries[m], entries[k]);
  }

  /** At action k caller i's process dies before it has returned, or its side effect
      fails. */
  ghost predicate GaveAt(calls: seq<Call>, actions: seq<Action>, i: nat, k: nat)
    requires i < |calls| && k < |actions|
  {
    var p := Run(calls, actions[..k]).phases[i];
    (actions[k] == Crash(i) && !p.Done?) || (actions[k] == Effect(i, false) && p.Marked?)
  }

  ghost predicate Gave(calls: seq<Call>, actions: seq<Action>, i: nat)
    requires i < |calls|
  {
    exists k :: 0 <= k < |actions| && GaveAt(calls, actions, i, k)
  }

  lemma GaveSnoc(calls: seq<Call>, actions: seq<Action>, i: nat)
    requires i < |calls| && actions != []
    ensures var m := |actions| - 1; Gave(calls, actions, i) <==> Gave(calls, actions[..m], i) || GaveAt(calls, actions, i, m)
  {
    hide Run;
    var m := |actions| - 1;
    var init := actions[..m];
    forall k | 0 <= k < m
      ensures GaveAt(calls, actions, i, k) <==> GaveAt(calls, init, i, k)
    {
      assert init[..k] == actions[..k];
    }
  }

  /** A caller with an event is answered with an error exactly when its own process died
      before returning or its own side effect failed: losing a race or coming late is
      not an error. */
  lemma {:induction false} FailedIff(calls: seq<Call>, actions: seq<Action>, i: nat)
    requires i < |calls| && calls[i].event.Some?
    ensures Run(calls, actions).phases[i] == Failed <==> Gave(calls, actions, i)
  {
    hide Find, HasSource, Gave, HoldsEvent, HoldsSource;
    if actions == [] {
      NobodyGave(calls, i);
    } else {
      FailedIff(calls, actions[..|actions| - 1], i);
      GaveSnoc(calls, actions, i);
    }
  }

  lemma NobodyGave(calls: seq<Call>, i: nat)
    requires i < |calls|
    ensures !Gave(calls, [], i)
  {
  }

  /** A caller without an event has one error more: its source id is taken. */
  lemma {:induction false} FailedWithoutEvent(calls: seq<Call>, actions: seq<Action>, i: nat)
    requires i < |calls| && calls[i].event.None?
    requires Run(calls, actions).phases[i] == Failed && !Gave(calls, actions, i)
    ensures SourceOf(calls[i]).Some? && HasSource(Run(calls, actions).db.entries, SourceOf(calls[i]).value)
  {
    hide Find, Gave, HoldsEvent, HoldsSource;
    if actions == [] {
      NobodyGave(calls, i);
    } else {
      var init, a := actions[..|actions| - 1], actions[|actions| - 1];
      var s, t := Run(calls, init), Run(calls, actions);
      GaveSnoc(calls, actions, i);
      if s.phases[i].Failed? {
        FailedWithoutEvent(calls, init, i);
        var e := SourceOf(calls[i]).value;
        var k :| 0 <= k < |s.db.entries| && s.db.entries[k].source == Some(e);
        assert t.db.entries[k] == s.db.entries[k];
      }
    }
  }

  /** What one caller's statements do when nobody else has a transaction open. */
  ghost function Alone(calls: seq<Call>, s: State, i: nat, ok: bool): State
    requires |calls| == |s.phases|
  {
    var s1 := Do(calls, s, PreCheck(i));
    var s2 := Do(calls, s1, Insert(i));
    var s3 := Do(calls, s2, Mark(i));
    var s4 := Do(calls, s3, Effect(i, ok));
    var s5 := Do(calls, s4, Commit(i));
    Do(calls, Do(calls, s5, Return(i)), Lookup(i))
  }

  /** With a source id that is taken or not. */
  lemma AloneRuns(calls: seq<Call>, s: State, i: nat, ok: bool)
    requires |calls| == |s.phases| && i < |calls| && s.phases[i] == Idle
    requires forall j :: 0 <= j < |calls| ==> !InFlight(s.phases[j])
    ensures var c, t := calls[i], Alone(calls, s, i, ok);
            var seen := c.event.Some? && c.event.value in s.db.processed;
            var taken := SourceOf(c).Some? && HasSource(s.db.entries, SourceOf(c).value);
            if c.event.Some? && (seen || taken)
            then t.db == s.db && t.phases == s.phases[i := Done(Find(s.db.entries, c.event.value))]
            else if taken || !ok then t.db == s.db && t.phases == s.phases[i := Failed]
            else t.db == Db(s.db.entries + [Row(s.nextId, SourceOf(c), c)], s.db.processed + EventSet(c), s.db.effects + [s.nextId])
                 && t.phases == s.phases[i := Done(Some(s.nextId))]
  {
    hide Find, HasSource, EventSet;
    var c := calls[i];
    var s1 := Do(calls, s, PreCheck(i));
    var s2 := Do(calls, s1, Insert(i));
    var s3 := Do(calls, s2, Mark(i));
    var s4 := Do(calls, s3, Effect(i, ok));
    var s5 := Do(calls, s4, Commit(i));
    var s6 := Do(calls, s5, Return(i));
    if c.event.Some? && c.event.value in s.db.processed {
      assert s1 == s.(phases := s.phases[i := Replaying]);
      LooksUp(calls, s1, i, ok);
    } else {
      assert s1 == s.(phases := s.phases[i := Ready]);
      assert Enabled(calls, s1, Insert(i));
      if SourceOf(c).Some? && HasSource(s.db.entries, SourceOf(c).value) {
        if c.event.Some? {
          assert s2 == s.(phases := s.phases[i := Replaying]);
          LooksUp(calls, s2, i, ok);
        } else {
          assert s2 == s.(phases := s.phases[i := Failed]);
        }
      } else {
        var x := s.(nextId := s.nextId + 1);
        assert s2 == x.(phases := s.phases[i := Inserted(s.nextId)]);
        assert s3 == x.(phases := s.phases[i := Marked(s.nextId)]);
        assert s4 == x.(phases := s.phases[i := if ok then Worked(s.nextId) else Failed]);
        assert ok ==> s6.phases == s.phases[i := Done(Some(s.nextId))];
      }
    }
  }

  /** The statements of one caller with no open transaction in its way are the
      indivisible booking: a redelivery is answered with what the event's look-up finds
      and changes nothing; a taken source id without an event and a failed side effect
      are errors and change nothing; otherwise the entry is booked and returned. */
  lemma AloneIsBook(calls: seq<Call>, s: State, i: nat, ok: bool)
    requires |calls| == |s.phases| && i < |calls| && s.phases[i] == Idle
    requires forall j :: 0 <= j < |calls| ==> !InFlight(s.phases[j])
    ensures var c, t := calls[i], Alone(calls, s, i, ok);
            var taken := exists k :: 0 <= k < |s.db.entries| && SourceOf(c) != None && s.db.entries[k].source == SourceOf(c);
            && (c.event != None && (c.event.value in s.db.processed || taken) ==>
                  t.db == s.db && t.phases[i] == Done(Find(s.db.entries, c.event.value)))
            && (c.event == None && taken ==> t.db == s.db && t.phases[i] == Failed)
            && (!(c.event != None && c.event.value in s.db.processed) && !taken ==>
                  if ok
                  then t.db == Db(s.db.entries + [Row(s.nextId, SourceOf(c), c)],
                                  if c.event == None then s.db.processed else s.db.processed + {c.event.value},
                                  s.db.effects + [s.nextId])
                       && t.phases[i] == Done(Some(s.nextId))
                  else t.db == s.db && t.phases[i] == Failed)
            && t.db == (if ok || taken then Book(s.db, s.nextId, c) else s.db)
            && forall j :: 0 <= j < |calls| && j != i ==> t.phases[j] == s.phases[j]
  {
    hide Find, Alone;
    AloneRuns(calls, s, i, ok);
  }

  /** A caller about to look its entry up does nothing else. */
  lemma LooksUp(calls: seq<Call>, s: State, i: nat, ok: bool)
    requires |calls| == |s.phases| && i < |calls| && s.phases[i].Replaying? && calls[i].event.Some?
    ensures Do(calls, s, Insert(i)) == Do(calls, s, Mark(i)) == Do(calls, s, Effect(i, ok)) == s
    ensures Do(calls, s, Commit(i)) == Do(calls, s, Return(i)) == s
    ensures Do(calls, s, Lookup(i)) == s.(phases := s.phases[i := Done(Find(s.db.entries, calls[i].event.value))])
  {
    hide Find;
  }

  /** When every caller of e passes the same call and nobody else uses e as a
      source id, a processed event finds its entry exactly when that call is in
      step; otherwise a replay succeeds with no entry. */
  lemma ReplayFindsEntryIff(calls: seq<Call>, actions: seq<Action>, e: EventId, c: Call)
    requires c.event == Some(e)
    requires forall i :: 0 <= i < |calls| && calls[i].event == Some(e) ==> calls[i] == c
    requires forall i :: 0 <= i < |calls| && calls[i].event != Some(e) ==> SourceOf(calls[i]) != Some(e)
    requires e in Run(calls, actions).db.processed
    ensures Find(Run(calls, actions).db.entries, e).Some? <==> InStep(c)
  {
    var s := Run(calls, actions);
    ReachableValid(calls, actions);
    if InStep(c) {
      ProcessedHasEntry(calls, s, e);
    } else {
      forall k | 0 <= k < |s.db.entries|
        ensures s.db.entries[k].source != Some(e)
      {
        assert s.db.entries[k].call in calls;
      }
    }
  }

  lemma RunSnoc(calls: seq<Call>, actions: seq<Action>, a: Action)
    ensures Run(calls, actions + [a]) == Do(calls, Run(calls, actions), a)
  {
    assert (actions + [a])[..|actions|] == actions;
  }

  ghost predicate Reaches(calls: seq<Call>, actions: seq<Action>, s: State) {
    Run(calls, actions) == s
  }

  /** From a reached state, one enabled action reaches the next. */
  lemma Extend(calls: seq<Call>, actions: seq<Action>, s: State, a: Action, t: State)
    requires Reaches(calls, actions, s) && Do(calls, s, a) == t
    ensures Reaches(calls, actions + [a], t)
  {
    RunSnoc(calls, actions, a);
  }

  lemma FirstCallerCommits(c: Call) returns (acts: seq<Action>)
    requires c.event.Some?
    ensures Reaches([c, c], acts, State(Db([Row(0, SourceOf(c), c)], {c.event.value}, [0]), [Committed(0), Idle], 1))
  {
    var calls := [c, c];
    var s0, s1 := State(EMPTY, [Idle, Idle], 0), State(EMPTY, [Ready, Idle], 0);
    var s2, s3, s4 := State(EMPTY, [Inserted(0), Idle], 1), State(EMPTY, [Marked(0), Idle], 1), State(EMPTY, [Worked(0), Idle], 1);
    var s5 := State(Db([Row(0, SourceOf(c), c)], {c.event.value}, [0]), [Committed(0), Idle], 1);
    assert Init(calls).phases == [Idle, Idle];
    assert Reaches(calls, [], s0);
    assert Do(calls, s0, PreCheck(0)) == s1;
    assert Do(calls, s1, Insert(0)) == s2;
    assert Do(calls, s2, Mark(0)) == s3;
    assert Do(calls, s3, Effect(0, true)) == s4;
    assert Do(calls, s4, Commit(0)) == s5;
    Extend(calls, [], s0, PreCheck(0), s1);
    Extend(calls, [] + [PreCheck(0)], s1, Insert(0), s2);
    Extend(calls, [] + [PreCheck(0)] + [Insert(0)], s2, Mark(0), s3);
    Extend(calls, [] + [PreCheck(0)] + [Insert(0)] + [Mark(0)], s3, Effect(0, true), s4);
    Extend(calls, [] + [PreCheck(0)] + [Insert(0)] + [Mark(0)] + [Effect(0, true)], s4, Commit(0), s5);
    acts := [] + [PreCheck(0)] + [Insert(0)] + [Mark(0)] + [Effect(0, true)] + [Commit(0)];
  }

  /** A caller of one event books it under another source id, and a second such
      caller is told the event is done and handed no entry. */
  lemma OutOfStepReplayReturnsNothing(c: Call)
    requires c.event.Some? && !InStep(c)
    ensures exists actions ::
              var s := Run([c, c], actions);
              |s.db.entries| == 1 && s.phases == [Committed(0), Done(None)]
  {
    var calls := [c, c];
    var acts := FirstCallerCommits(c);
    var db := Db([Row(0, SourceOf(c), c)], {c.event.value}, [0]);
    var s1, s2 := State(db, [Committed(0), Idle], 1), State(db, [Committed(0), Replaying], 1);
    var s3 := State(db, [Committed(0), Done(None)], 1);
    assert Do(calls, s1, PreCheck(1)) == s2;
    assert db.entries[0].source != c.event;
    assert Do(calls, s2, Lookup(1)) == s3;
    Extend(calls, acts, s1, PreCheck(1), s2);
    Extend(calls, acts + [PreCheck(1)], s2, Lookup(1), s3);
  }

  // ----- the same code with one caller: the steps in sequence

  class Repository {
    var entries: seq<Row>
    var processed: set<EventId>
    var effects: seq<EntryId>
    var nextId: EntryId

    ghost function Tables(): Db
      reads this
    {
      Db(entries, processed, effects)
    }

    /** The event is done, or its source id has an entry: a redelivery. */
    ghost predicate Redelivered(c: Call)
      reads this
    {
      c.event.Some? && (c.event.value in processed || (SourceOf(c).Some? && HasSource(entries, SourceOf(c).value)))
    }

    /** Every processed event has its entry, as in-step callers leave it. */
    ghost predicate Backed()
      reads this
    {
      forall e :: e in processed ==> HasSource(entries, e)
    }

    constructor ()
      ensures Tables() == EMPTY && nextId == 0
    {
      entries, processed, effects, nextId := [], {}, [], 0;
    }

    /** Run with nobody else in between, a call is one indivisible booking; a
        failing side effect leaves the tables as they were.  None is the source's
        nil entry, Failed its error.  A redelivery is never an error, and an in-step
        one is answered with the entry booked before. */
    method BookPostedEntry(c: Call, sideOk: bool) returns (result: Phase)
      modifies this
      ensures Tables() == if sideOk then Book(old(Tables()), old(nextId), c) else old(Tables())
      ensures result.Done? || (result == Failed && Tables() == old(Tables()))
      ensures result == Failed <==> !old(Redelivered(c))
                                    && (!sideOk || (c.event.None? && c.source.Some? && HasSource(old(entries), c.source.value)))
      ensures old(Redelivered(c)) && InStep(c) && old(Backed()) ==>
                && result.Done? && result.result.Some?
                && exists k :: 0 <= k < |old(entries)| && old(entries)[k].id == result.result.value
                               && old(entries)[k].source == c.event
      ensures old(Redelivered(c)) ==> Tables() == old(Tables())
      ensures !old(Redelivered(c)) && result.Done? ==>
                && result.result == Some(old(nextId)) && entries == old(entries) + [Row(old(nextId), SourceOf(c), c)]
                && processed == old(processed) + EventSet(c) && effects == old(effects) + [old(nextId)]
      ensures InStep(c) && old(Backed()) ==> Backed()
      ensures Tables() != old(Tables()) ==> result == Done(Some(old(nextId)))
      ensures result.Done? && Tables() == old(Tables()) ==>
                c.event.Some? && result == Done(Find(old(entries), c.event.value))
      ensures nextId >= old(nextId)
    {
      var source := c.source;
      if c.event.Some? && source.None? {
        source := c.event;
      }
      if c.event.Some? && c.event.value in processed {
        return Done(Find(entries, c.event.value));
      }
      var id := nextId;
      nextId := nextId + 1;
      if source.Some? && Find(entries, source.value).Some? {
        if c.event.Some? {
          return Done(Find(entries, c.event.value));
        }
        return Failed;
      }
      if !sideOk {
        return Failed;
      }
      entries := entries + [Row(id, source, c)];
      if c.event.Some? {
        processed := processed + {c.event.value};
      }
      effects := effects + [id];
      assert |entries| == |old(entries)| + 1 && entries[|old(entries)|].source == source;
      assert forall k :: 0 <= k < |old(entries)| ==> entries[k] == old(entries)[k];
      return Done(Some(id));
    }
  }
}
