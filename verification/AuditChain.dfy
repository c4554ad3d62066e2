/** The tamper-evident audit chain.  The digest is a parameter: the results that
    need it idealised say so. */
module AuditChain {
  import opened Ledger

  type Hash = string -> string

  const GENESIS := "GENESIS"

  datatype Event = Event(id: int, ts: string, actor: string, kind: string, message: string, prev: string, hash: string)

  function Encode(ts: string, actor: string, kind: string, message: string, prev: string): string {
    ts + ("|" + (actor + ("|" + (kind + ("|" + (message + ("|" + prev)))))))
  }

  function EventHash(h: Hash, e: Event): string {
    h(Encode(e.ts, e.actor, e.kind, e.message, e.prev))
  }

  function Head(chain: seq<Event>): string {
    if chain == [] then GENESIS else chain[|chain| - 1].hash
  }

  /** AppendChainTx, under the chain lock. */
  function Append(h: Hash, chain: seq<Event>, id: int, ts: string, actor: string, kind: string, message: string): seq<Event> {
    var e := Event(id, ts, actor, kind, message, Head(chain), "");
    chain + [e.(hash := EventHash(h, e))]
  }

  predicate LinkOk(chain: seq<Event>, k: nat)
    requires k < |chain|
  {
    chain[k].prev == Head(chain[..k])
  }

  predicate RowOk(h: Hash, chain: seq<Event>, k: nat)
    requires k < |chain|
  {
    LinkOk(chain, k) && chain[k].hash == EventHash(h, chain[k])
  }

  predicate Accepted(h: Hash, chain: seq<Event>) {
    forall k :: 0 <= k < |chain| ==> RowOk(h, chain, k)
  }

  datatype Reason = PrevMismatch | HashMismatch

  datatype VerifyResult = Intact(count: nat) | Broken(count: nat, brokenAt: int, reason: Reason)

  /** Accepts exactly the chains whose every row is sound, and otherwise names the
      first row that is not and what is wrong with it. */
  method Verify(h: Hash, chain: seq<Event>) returns (r: VerifyResult)
    ensures r.Intact? <==> Accepted(h, chain)
    ensures r.Intact? ==> r.count == |chain|
    ensures r.Broken? ==>
              && 1 <= r.count <= |chain| && r.brokenAt == chain[r.count - 1].id
              && Accepted(h, chain[..r.count - 1]) && !RowOk(h, chain, r.count - 1)
              && (r.reason.PrevMismatch? <==> !LinkOk(chain, r.count - 1))
  {
    var prevHash := GENESIS;
    var count := 0;
    while count < |chain|
      invariant 0 <= count <= |chain|
      invariant prevHash == Head(chain[..count])
      invariant forall k :: 0 <= k < count ==> RowOk(h, chain, k)
    {
      var e := chain[count];
      PrefixAccepted(h, chain, count);
      assert LinkOk(chain, count) <==> e.prev == prevHash;
      assert RowOk(h, chain, count) <==> e.prev == prevHash && EventHash(h, e) == e.hash;
      if e.prev != prevHash {
        return Broken(count + 1, e.id, PrevMismatch);
      }
      if EventHash(h, e) != e.hash {
        return Broken(count + 1, e.id, HashMismatch);
      }
      count := count + 1;
      assert chain[..count][count - 1] == e;
      prevHash := e.hash;
    }
    return Intact(count);
  }

  lemma PrefixAccepted(h: Hash, chain: seq<Event>, n: nat)
    requires n <= |chain| && forall k :: 0 <= k < n ==> RowOk(h, chain, k)
    ensures Accepted(h, chain[..n])
  {
    forall k | 0 <= k < n
      ensures RowOk(h, chain[..n], k)
    {
      assert RowOk(h, chain, k);
      assert chain[..n][..k] == chain[..k];
    }
  }

  datatype Record = Record(id: int, ts: string, actor: string, kind: string, message: string)

  function AppendAll(h: Hash, records: seq<Record>): seq<Event> {
    if records == [] then [] else
      var r := records[|records| - 1];
      Append(h, AppendAll(h, records[..|records| - 1]), r.id, r.ts, r.actor, r.kind, r.message)
  }

  /** A row keeps every field of the record it was appended for. */
  predicate Keeps(e: Event, r: Record) {
    e.id == r.id && e.ts == r.ts && e.actor == r.actor && e.kind == r.kind && e.message == r.message
  }

  /** Fields joined by vertical bars. */
  function Join(fields: seq<string>): string {
    if |fields| == 0 then "" else if |fields| == 1 then fields[0] else fields[0] + ("|" + Join(fields[1..]))
  }

  lemma JoinOne(x: string, rest: seq<string>)
    requires rest != []
    ensures Join([x] + rest) == x + ("|" + Join(rest))
  {
    assert ([x] + rest)[1..] == rest;
  }

  lemma EncodeJoins(ts: string, actor: string, kind: string, message: string, prev: string)
    ensures Encode(ts, actor, kind, message, prev) == Join([ts, actor, kind, message, prev])
  {
    JoinOne(message, [prev]);
    JoinOne(kind, [message, prev]);
    JoinOne(actor, [kind, message, prev]);
    JoinOne(ts, [actor, kind, message, prev]);
    assert [message] + [prev] == [message, prev] && [kind] + [message, prev] == [kind, message, prev];
    assert [actor] + [kind, message, prev] == [actor, kind, message, prev];
    assert [ts] + [actor, kind, message, prev] == [ts, actor, kind, message, prev];
  }

  /** Row k holds its record's own fields and, as its digest, that of the five texts
      joined, the last being the digest of the row before. */
  predicate HoldsRecord(h: Hash, chain: seq<Event>, k: nat, r: Record)
    requires k < |chain|
  {
    var prev := if k == 0 then "GENESIS" else chain[k - 1].hash;
    Keeps(chain[k], r) && chain[k].prev == prev && chain[k].hash == h(Join([r.ts, r.actor, r.kind, r.message, prev]))
  }

  lemma LastHolds(h: Hash, before: seq<Event>, r: Record)
    ensures var chain := Append(h, before, r.id, r.ts, r.actor, r.kind, r.message);
            |chain| == |before| + 1 && chain[..|before|] == before && HoldsRecord(h, chain, |before|, r)
  {
    hide Encode, Join;
    EncodeJoins(r.ts, r.actor, r.kind, r.message, Head(before));
  }

  /** There is one row a record, in order. */
  lemma {:induction false} AppendedRows(h: Hash, records: seq<Record>)
    ensures |AppendAll(h, records)| == |records|
    ensures forall k :: 0 <= k < |records| ==> HoldsRecord(h, AppendAll(h, records), k, records[k])
  {
    hide Append, HoldsRecord;
    if records != [] {
      var init, r := records[..|records| - 1], records[|records| - 1];
      var before, chain := AppendAll(h, init), AppendAll(h, records);
      AppendedRows(h, init);
      LastHolds(h, before, r);
      forall k | 0 <= k < |before|
        ensures HoldsRecord(h, chain, k, records[k])
      {
        StillHolds(h, before, chain, k, init[k]);
      }
    }
  }

  lemma StillHolds(h: Hash, before: seq<Event>, chain: seq<Event>, k: nat, r: Record)
    requires k < |before| <= |chain| && chain[..|before|] == before && HoldsRecord(h, before, k, r)
    ensures HoldsRecord(h, chain, k, r)
  {
    hide Join;
    assert chain[k] == before[k] && (k > 0 ==> chain[k - 1] == before[k - 1]);
  }

  /** Every chain the appends build is accepted, whatever the digest and the text. */
  lemma {:induction false} AppendsAccepted(h: Hash, records: seq<Record>)
    ensures Accepted(h, AppendAll(h, records))
  {
    if records != [] {
      var r := records[|records| - 1];
      var c := AppendAll(h, records[..|records| - 1]);
      var d := AppendAll(h, records);
      AppendsAccepted(h, records[..|records| - 1]);
      forall k | 0 <= k < |d|
        ensures RowOk(h, d, k)
      {
        if k < |c| {
          assert RowOk(h, c, k);
          assert d[..k] == c[..k];
        } else {
          assert d[..k] == c;
        }
      }
    }
  }

  // ----- uniqueness

  predicate NoSeparator(s: string) {
    '|' !in s
  }

  /** What is before the first separator, and what is after it. */
  lemma FirstField(x: string, r: string, y: string, s: string)
    requires NoSeparator(x) && NoSeparator(y) && x + ("|" + r) == y + ("|" + s)
    ensures x == y && r == s
  {
    var l, m := x + ("|" + r), y + ("|" + s);
    assert l[|x|] == '|' && m[|y|] == '|';
    assert forall k :: 0 <= k < |x| ==> l[k] == x[k] && l[k] != '|';
    assert forall k :: 0 <= k < |y| ==> m[k] == y[k] && m[k] != '|';
    assert x == l[..|x|] && y == m[..|y|];
    assert r == l[|x| + 1..] && s == m[|y| + 1..];
  }

  /** What is after the last separator, and what is before it. */
  lemma LastField(r: string, x: string, s: string, y: string)
    requires NoSeparator(x) && NoSeparator(y) && r + ("|" + x) == s + ("|" + y)
    ensures x == y && r == s
  {
    var l, m := r + ("|" + x), s + ("|" + y);
    assert l[|r|] == '|' && m[|s|] == '|';
    assert forall k :: |r| < k < |l| ==> l[k] == x[k - |r| - 1] && l[k] != '|';
    assert forall k :: |s| < k < |m| ==> m[k] == y[k - |s| - 1] && m[k] != '|';
    assert r == l[..|r|] && s == m[..|s|];
    assert x == l[|r| + 1..] && y == m[|s| + 1..];
  }

  /** The text that is not in the message has no separator in it. */
  predicate Plain(e: Event) {
    NoSeparator(e.ts) && NoSeparator(e.actor) && NoSeparator(e.kind)
  }

  lemma EncodeInjective(a: Event, b: Event)
    requires Plain(a) && Plain(b) && NoSeparator(a.prev) && NoSeparator(b.prev)
    requires Encode(a.ts, a.actor, a.kind, a.message, a.prev) == Encode(b.ts, b.actor, b.kind, b.message, b.prev)
    ensures a.ts == b.ts && a.actor == b.actor && a.kind == b.kind && a.message == b.message && a.prev == b.prev
  {
    var ra, rb := a.message + ("|" + a.prev), b.message + ("|" + b.prev);
    var ka, kb := a.kind + ("|" + ra), b.kind + ("|" + rb);
    FirstField(a.ts, a.actor + ("|" + ka), b.ts, b.actor + ("|" + kb));
    FirstField(a.actor, ka, b.actor, kb);
    FirstField(a.kind, ra, b.kind, rb);
    LastField(a.message, a.prev, b.message, b.prev);
  }

  /** An idealised digest: injective, and never GENESIS or containing a separator. */
  ghost predicate Ideal(h: Hash) {
    && (forall x, y :: h(x) == h(y) ==> x == y)
    && (forall x :: NoSeparator(h(x)) && h(x) != GENESIS)
  }

  predicate SameContent(a: Event, b: Event) {
    a.(id := b.id) == b
  }

  lemma PrevPlain(h: Hash, chain: seq<Event>, k: nat)
    requires Ideal(h) && Accepted(h, chain) && k < |chain|
    ensures NoSeparator(chain[k].prev)
    ensures chain[k].prev == GENESIS <==> k == 0
  {
    assert RowOk(h, chain, k);
    if k > 0 {
      assert RowOk(h, chain, k - 1);
    }
  }

  /** Two accepted chains that end in the same hash are the same chain, row for
      row: nothing before a trusted head can have been altered, dropped or added. */
  lemma {:induction false} SameHeadSameChain(h: Hash, c: seq<Event>, d: seq<Event>)
    requires Ideal(h) && Accepted(h, c) && Accepted(h, d)
    requires forall k :: 0 <= k < |c| ==> Plain(c[k])
    requires forall k :: 0 <= k < |d| ==> Plain(d[k])
    requires c != [] && d != [] && Head(c) == Head(d)
    ensures |c| == |d| && forall k :: 0 <= k < |c| ==> SameContent(c[k], d[k])
  {
    var m, n := |c| - 1, |d| - 1;
    assert RowOk(h, c, m) && RowOk(h, d, n);
    PrevPlain(h, c, m);
    PrevPlain(h, d, n);
    EncodeInjective(c[m], d[n]);
    assert SameContent(c[m], d[n]);
    if m > 0 {
      var c', d' := c[..m], d[..n];
      PrefixAccepted(h, c, m);
      PrefixAccepted(h, d, n);
      SameHeadSameChain(h, c', d');
      forall k | 0 <= k < m
        ensures SameContent(c[k], d[k])
      {
        assert SameContent(c'[k], d'[k]);
      }
    }
  }

  // ----- and only with that text

  /** Cut at the first separator. */
  function FirstCut(s: string): (k: nat)
    requires '|' in s
    ensures k < |s| && s[k] == '|' && NoSeparator(s[..k])
  {
    if s[0] == '|' then 0 else
      var k := 1 + FirstCut(s[1..]);
      assert s[..k] == [s[0]] + s[1..][..k - 1];
      k
  }

  function Text(e: Event): string {
    Encode(e.ts, e.actor, e.kind, e.message, e.prev)
  }

  /** A different row, with no separator in time, actor or type, that hashes the same
      text. */
  ghost predicate Twin(e: Event, f: Event) {
    Plain(f) && NoSeparator(f.prev) && Text(f) == Text(e) && !SameContent(f.(hash := e.hash), e)
  }

  lemma Cut(s: string, k: nat)
    requires k < |s| && s[k] == '|'
    ensures s == s[..k] + ("|" + s[k + 1..])
  {
  }

  /** The part of a text between time and previous hash. */
  lemma Middle(ts: string, actor: string, kind: string, message: string, prev: string)
    ensures Encode(ts, actor, kind, message, prev) == ts + ("|" + ((actor + ("|" + (kind + ("|" + message)))) + ("|" + prev)))
  {
    var m := kind + ("|" + message);
    assert m + ("|" + prev) == kind + ("|" + (message + ("|" + prev)));
    assert (actor + ("|" + m)) + ("|" + prev) == actor + ("|" + (m + ("|" + prev)));
  }

  lemma SeparatorLeft(x: string, y: string, i: nat)
    requires var s := x + ("|" + y); i < |s| && NoSeparator(s[..i])
    requires '|' in y
    ensures var s := x + ("|" + y); '|' in s[i + 1..]
  {
    var s := x + ("|" + y);
    var k :| 0 <= k < |y| && y[k] == '|';
    assert s[|x|] == '|' && s[|x| + 1 + k] == '|';
    assert forall j :: 0 <= j < i ==> s[j] == s[..i][j] && s[j] != '|';
    assert s[i + 1..][|x| + k - i] == '|';
  }

  lemma TwoCuts(x: string, y: string, z: string) returns (u: string, v: string, w: string)
    ensures u + ("|" + (v + ("|" + w))) == x + ("|" + (y + ("|" + z)))
    ensures NoSeparator(u) && NoSeparator(v)
  {
    var rest := y + ("|" + z);
    var full := x + ("|" + rest);
    assert full[|x|] == '|' && rest[|y|] == '|';
    var i := FirstCut(full);
    var tail := full[i + 1..];
    Cut(full, i);
    SeparatorLeft(x, rest, i);
    var j := FirstCut(tail);
    Cut(tail, j);
    u, v, w := full[..i], tail[..j], tail[j + 1..];
  }

  /** Cutting at the first two separators instead gives such a row. */
  lemma PlainTwin(e: Event) returns (f: Event)
    requires NoSeparator(e.ts) && NoSeparator(e.prev) && !Plain(e)
    ensures Twin(e, f)
  {
    hide NoSeparator, Encode;
    var actor, kind, message := TwoCuts(e.actor, e.kind, e.message);
    f := e.(actor := actor, kind := kind, message := message);
    Middle(e.ts, e.actor, e.kind, e.message, e.prev);
    Middle(f.ts, f.actor, f.kind, f.message, f.prev);
  }

  /** A row hashes the text of some other row that keeps the restriction exactly
      when it breaks the restriction itself, whatever the digest. */
  lemma AmbiguousIffSeparator(e: Event)
    requires NoSeparator(e.ts) && NoSeparator(e.prev)
    ensures (exists f :: Twin(e, f)) <==> !Plain(e)
  {
    if Plain(e) {
      forall f | Plain(f) && NoSeparator(f.prev) && Text(f) == Text(e)
        ensures !Twin(e, f)
      {
        EncodeInjective(f, e);
      }
    } else {
      var f := PlainTwin(e);
    }
  }

  class Store {
    const digest: Hash
    var events: seq<Event>
    var nextId: int

    constructor (digest: Hash)
      ensures this.digest == digest && events == [] && nextId == 1
    {
      this.digest, events, nextId := digest, [], 1;
    }

    method AppendEvent(ts: string, actor: string, kind: string, message: string) returns (e: Event)
      modifies this
      ensures events == Append(digest, old(events), old(nextId), ts, actor, kind, message)
      ensures e == events[|old(events)|] && nextId == old(nextId) + 1
      ensures Accepted(digest, old(events)) ==> Accepted(digest, events)
    {
      var prevHash := GENESIS;
      if |events| > 0 {
        prevHash := events[|events| - 1].hash;
      }
      var sum := digest(Encode(ts, actor, kind, message, prevHash));
      e := Event(nextId, ts, actor, kind, message, prevHash, sum);
      ghost var before := events;
      events := events + [e];
      nextId := nextId + 1;
      forall k | 0 <= k < |before| && RowOk(digest, before, k)
        ensures RowOk(digest, events, k)
      {
        assert events[..k] == before[..k];
      }
      assert events[..|before|] == before;
    }
  }
}
