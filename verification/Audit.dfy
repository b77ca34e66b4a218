/** The append-only audit log and its hash chain.

    A stored row carries the hash of its own columns and of the previous row's hash.
    The hash of the JSON payload is a parameter; where the argument needs SHA-256 not to
    collide, the lemma asks for an injective hash that is never empty. */
module Audit {

  datatype Entry = Entry(seqNo: int, at: string, kind: string, user: int, resource: string, decision: string,
                         prev: string, hash: string)

  /** The columns that are hashed. */
  datatype Payload = Payload(seqNo: int, at: string, kind: string, user: int, resource: string, decision: string, prev: string)

  type Hash = Payload -> string

  ghost predicate Injective(h: Hash) {
    (forall a, b :: h(a) == h(b) ==> a == b) && forall a :: h(a) != ""
  }

  function PayloadOf(e: Entry): Payload {
    Payload(e.seqNo, e.at, e.kind, e.user, e.resource, e.decision, e.prev)
  }

  function HeadHash(rows: seq<Entry>): string {
    if rows == [] then "" else rows[|rows| - 1].hash
  }

  function HeadSeq(rows: seq<Entry>): int {
    if rows == [] then 0 else rows[|rows| - 1].seqNo
  }

  /** Row `i` carries number i + 1, links to the row before it and has its own hash. */
  predicate Linked(h: Hash, rows: seq<Entry>, i: nat)
    requires i < |rows|
  {
    rows[i].seqNo == i + 1 && rows[i].prev == HeadHash(rows[..i]) && rows[i].hash == h(PayloadOf(rows[i]))
  }

  predicate Chain(h: Hash, rows: seq<Entry>) {
    forall i :: 0 <= i < |rows| ==> Linked(h, rows, i)
  }

  /** The number or the hash of a new row is already taken. */
  predicate Clashes(h: Hash, rows: seq<Entry>, p: Payload) {
    exists i :: 0 <= i < |rows| && (rows[i].seqNo == p.seqNo || rows[i].hash == h(p))
  }

  /** The rows in the order of their numbers, as the table is read. */
  class Logger {
    var rows: seq<Entry>
    const h: Hash

    constructor (h: Hash)
      ensures rows == [] && this.h == h && Chain(this.h, rows)
    {
      rows := [];
      this.h := h;
    }

    /** Numbers, links and hashes a new row.  The number is a primary key and the hash
        is unique, so a clash is an error that leaves the table alone. */
    method Append(at: string, kind: string, user: int, resource: string, decision: string) returns (ok: bool)
      modifies this
      ensures ok <==> !Clashes(h, old(rows), Payload(HeadSeq(old(rows)) + 1, at, kind, user, resource, decision, HeadHash(old(rows))))
      ensures !ok ==> rows == old(rows)
      ensures ok ==> |rows| == |old(rows)| + 1 && rows[..|old(rows)|] == old(rows)
                     && rows[|old(rows)|].at == at && rows[|old(rows)|].kind == kind && rows[|old(rows)|].user == user
                     && rows[|old(rows)|].resource == resource && rows[|old(rows)|].decision == decision
      ensures old(Chain(h, rows)) ==> Chain(h, rows)
    {
      var number, prev := HeadSeq(rows) + 1, HeadHash(rows);
      var payload := Payload(number, at, kind, user, resource, decision, prev);
      var hash := h(payload);
      ok := !Clashes(h, rows, payload);
      if ok {
        ghost var before := rows;
        rows := rows + [Entry(number, at, kind, user, resource, decision, prev, hash)];
        if Chain(h, before) {
          assert |before| > 0 ==> Linked(h, before, |before| - 1);
          assert rows[..|before|] == before;
          forall i | 0 <= i < |rows|
            ensures Linked(h, rows, i)
          {
            assert rows[..i] == before[..i];
            assert i < |before| ==> Linked(h, before, i);
          }
        }
      }
    }

    /** Walks the table once; it accepts exactly the chains. */
    method Verify() returns (ok: bool)
      ensures ok <==> Chain(h, rows)
    {
      var prev, expected, i := "", 1, 0;
      while i < |rows|
        invariant 0 <= i <= |rows|
        invariant expected == i + 1 && prev == HeadHash(rows[..i])
        invariant forall k :: 0 <= k < i ==> Linked(h, rows, k)
      {
        var e := rows[i];
        if e.seqNo != expected || e.prev != prev {
          assert !Linked(h, rows, i);
          return false;
        }
        if h(PayloadOf(e)) != e.hash {
          assert !Linked(h, rows, i);
          return false;
        }
        prev := e.hash;
        expected := expected + 1;
        i := i + 1;
        assert rows[..i][|rows[..i]| - 1] == e;
      }
      return true;
    }
  }

  /** On a chain, an injective hash never clashes: Append always succeeds. */
  lemma AppendNeverClashes(h: Hash, rows: seq<Entry>, p: Payload)
    requires Injective(h) && Chain(h, rows) && p.seqNo == HeadSeq(rows) + 1
    ensures !Clashes(h, rows, p)
  {
    assert rows != [] ==> Linked(h, rows, |rows| - 1);
    forall i | 0 <= i < |rows|
      ensures rows[i].seqNo != p.seqNo && rows[i].hash != h(p)
    {
      assert Linked(h, rows, i);
      assert PayloadOf(rows[i]).seqNo != p.seqNo;
    }
  }

  lemma HeadNotEmpty(h: Hash, rows: seq<Entry>)
    requires Injective(h) && Chain(h, rows) && rows != []
    ensures HeadHash(rows) != ""
  {
    assert Linked(h, rows, |rows| - 1);
  }

  lemma ChainPrefix(h: Hash, rows: seq<Entry>, n: nat)
    requires Chain(h, rows) && n <= |rows|
    ensures Chain(h, rows[..n])
  {
    forall i | 0 <= i < n
      ensures Linked(h, rows[..n], i)
    {
      assert Linked(h, rows, i);
      assert rows[..n][..i] == rows[..i];
    }
  }

  /** Tamper evidence: two verified logs that end in the same hash are the same log,
      row by row and column by column. */
  lemma {:induction false} SameHeadSameLog(h: Hash, a: seq<Entry>, b: seq<Entry>)
    requires Injective(h) && Chain(h, a) && Chain(h, b) && HeadHash(a) == HeadHash(b)
    ensures a == b
    decreases |a|
  {
    if a != [] {
      HeadNotEmpty(h, a);
    }
    if b != [] {
      HeadNotEmpty(h, b);
    }
    if a != [] && b != [] {
      var m, n := |a| - 1, |b| - 1;
      assert Linked(h, a, m) && Linked(h, b, n);
      assert PayloadOf(a[m]) == PayloadOf(b[n]);
      assert a[m] == b[n] && m == n;
      ChainPrefix(h, a, m);
      ChainPrefix(h, b, n);
      SameHeadSameLog(h, a[..m], b[..n]);
      assert a == a[..m] + [a[m]] && b == b[..n] + [b[n]];
    }
  }

  /** So whoever changes, drops or inserts any row of a verified log must end in another
      head hash or fail verification. */
  lemma TamperingShows(h: Hash, original: seq<Entry>, changed: seq<Entry>)
    requires Injective(h) && Chain(h, original) && changed != original
    ensures !Chain(h, changed) || HeadHash(changed) != HeadHash(original)
  {
    if Chain(h, changed) && HeadHash(changed) == HeadHash(original) {
      SameHeadSameLog(h, changed, original);
    }
  }

  /** Cutting rows off the end is not detected by verification alone: every prefix of a
      log verifies, and only the head hash tells it from the whole. */
  lemma TruncationNeedsTheHead(h: Hash, rows: seq<Entry>, n: nat)
    requires Injective(h) && Chain(h, rows) && n < |rows|
    ensures Chain(h, rows[..n]) && HeadHash(rows[..n]) != HeadHash(rows)
  {
    ChainPrefix(h, rows, n);
    TamperingShows(h, rows, rows[..n]);
  }
}
