/** The durable inbox and outbox tables, and each transaction on them.

    Row ids are positions: rows are only appended.  `le` is the order SQLite gives to
    stored time text.  A reply's idempotency key is a fixed prefix and the update id in
    decimal, so the model keys replies by the update id itself. */
module TelegramQueue {
  import opened Prelude

  datatype InState = InPending | InRunning | InCompleted | InDead
  datatype InRow = InRow(update: int, state: InState, attempts: nat, availableAt: int)

  datatype OutState = OutPending | OutSending | OutSent | OutDead
  datatype OutRow = OutRow(inbox: nat, key: int, state: OutState, attempts: nat, availableAt: int)

  datatype Tables = Tables(seen: set<int>, inbox: seq<InRow>, outbox: seq<OutRow>)

  const EMPTY := Tables({}, [], [])

  /** Seconds doubled per attempt, at most 64. */
  function Delay(attempts: nat): int { Shl(Min(attempts, 6)) * SECOND }

  /******* Inbox *******/

  /** A redelivered update changes nothing. */
  function Ingest(t: Tables, update: int, now: int): Tables {
    if update in t.seen then t
    else t.(seen := t.seen + {update}, inbox := t.inbox + [InRow(update, InPending, 0, now)])
  }

  predicate InReady(le: Order, row: InRow, now: int) {
    row.state.InPending? && le(row.availableAt, now)
  }

  function FirstInReady(le: Order, inbox: seq<InRow>, now: int, n: nat): (r: Option<nat>)
    requires n <= |inbox|
    ensures r.Some? ==> n <= r.value < |inbox| && InReady(le, inbox[r.value], now)
    ensures forall i :: n <= i < (if r.Some? then r.value else |inbox|) ==> !InReady(le, inbox[i], now)
    decreases |inbox| - n
  {
    if n == |inbox| then None
    else if InReady(le, inbox[n], now) then Some(n)
    else FirstInReady(le, inbox, now, n + 1)
  }

  function StartRow(row: InRow): InRow { row.(state := InRunning, attempts := row.attempts + 1) }

  function ClaimInbox(le: Order, t: Tables, now: int): Tables {
    match FirstInReady(le, t.inbox, now, 0)
    case None => t
    case Some(i) => t.(inbox := t.inbox[i := StartRow(t.inbox[i])])
  }

  predicate HasReply(outbox: seq<OutRow>, key: int) {
    exists k :: 0 <= k < |outbox| && outbox[k].key == key
  }

  /** The reply and the completion commit together; neither checks the row's state. */
  function CompleteWithOutbox(t: Tables, i: nat, key: int, now: int): Tables {
    var outbox := if HasReply(t.outbox, key) then t.outbox else t.outbox + [OutRow(i, key, OutPending, 0, now)];
    var inbox := if i < |t.inbox| then t.inbox[i := t.inbox[i].(state := InCompleted)] else t.inbox;
    t.(inbox := inbox, outbox := outbox)
  }

  function FailRow(row: InRow, max: int, now: int): InRow {
    row.(state := if row.attempts >= max then InDead else InPending, availableAt := now + Delay(row.attempts))
  }

  function FailInbox(t: Tables, i: nat, max: int, now: int): Tables {
    if i < |t.inbox| then t.(inbox := t.inbox[i := FailRow(t.inbox[i], max, now)]) else t
  }

  /******* Outbox *******/

  predicate OutReady(le: Order, row: OutRow, now: int) {
    row.state.OutPending? && le(row.availableAt, now)
  }

  function FirstOutReady(le: Order, outbox: seq<OutRow>, now: int, n: nat): (r: Option<nat>)
    requires n <= |outbox|
    ensures r.Some? ==> n <= r.value < |outbox| && OutReady(le, outbox[r.value], now)
    ensures forall i :: n <= i < (if r.Some? then r.value else |outbox|) ==> !OutReady(le, outbox[i], now)
    decreases |outbox| - n
  {
    if n == |outbox| then None
    else if OutReady(le, outbox[n], now) then Some(n)
    else FirstOutReady(le, outbox, now, n + 1)
  }

  function ClaimOutbox(le: Order, t: Tables, now: int): Tables {
    match FirstOutReady(le, t.outbox, now, 0)
    case None => t
    case Some(i) => t.(outbox := t.outbox[i := t.outbox[i].(state := OutSending, attempts := t.outbox[i].attempts + 1)])
  }

  function OutboxSent(t: Tables, i: nat): Tables {
    if i < |t.outbox| then t.(outbox := t.outbox[i := t.outbox[i].(state := OutSent)]) else t
  }

  function OutboxFailed(t: Tables, i: nat, max: int, now: int): Tables {
    if i < |t.outbox| then
      var row := t.outbox[i];
      t.(outbox := t.outbox[i := row.(state := if row.attempts >= max then OutDead else OutPending,
                                      availableAt := now + Delay(row.attempts))])
    else t
  }

  /******* Restart *******/

  function ReopenIn(row: InRow): InRow { if row.state.InRunning? then row.(state := InPending) else row }
  function ReopenOut(row: OutRow): OutRow { if row.state.OutSending? then row.(state := OutPending) else row }

  /** Opening the database puts interrupted rows back to pending. */
  function Reopen(t: Tables): Tables {
    t.(inbox := seq(|t.inbox|, i requires 0 <= i < |t.inbox| => ReopenIn(t.inbox[i])),
       outbox := seq(|t.outbox|, i requires 0 <= i < |t.outbox| => ReopenOut(t.outbox[i])))
  }

  /******* Soundness *******/

  function Updates(inbox: seq<InRow>): set<int> { set i | 0 <= i < |inbox| :: inbox[i].update }

  /** One inbox row per ingested update. */
  predicate OneRowPerUpdate(t: Tables) {
    && t.seen == Updates(t.inbox)
    && (forall i, j :: 0 <= i < j < |t.inbox| ==> t.inbox[i].update != t.inbox[j].update)
  }

  /** At most one reply per update, and exactly the completed rows have theirs. */
  predicate RepliesMatch(t: Tables) {
    && (forall k :: 0 <= k < |t.outbox| ==> t.outbox[k].inbox < |t.inbox| && t.outbox[k].key == t.inbox[t.outbox[k].inbox].update)
    && (forall k, l :: 0 <= k < l < |t.outbox| ==> t.outbox[k].key != t.outbox[l].key)
    && (forall i :: 0 <= i < |t.inbox| ==> (t.inbox[i].state.InCompleted? <==> HasReply(t.outbox, t.inbox[i].update)))
  }

  predicate Sound(t: Tables) { OneRowPerUpdate(t) && RepliesMatch(t) }

  /** Rows may change as long as ids, keys and completion stay. */
  lemma SameShapeSound(t: Tables, t': Tables)
    requires Sound(t) && t'.seen == t.seen && |t'.inbox| == |t.inbox| && |t'.outbox| == |t.outbox|
    requires forall i :: 0 <= i < |t.inbox| ==>
               t'.inbox[i].update == t.inbox[i].update && (t'.inbox[i].state.InCompleted? <==> t.inbox[i].state.InCompleted?)
    requires forall k :: 0 <= k < |t.outbox| ==>
               t'.outbox[k].inbox == t.outbox[k].inbox && t'.outbox[k].key == t.outbox[k].key
    ensures Sound(t')
  {
    assert Updates(t'.inbox) == Updates(t.inbox) by {
      forall u
        ensures u in Updates(t'.inbox) <==> u in Updates(t.inbox)
      {
        if u in Updates(t.inbox) {
          var i :| 0 <= i < |t.inbox| && t.inbox[i].update == u;
          assert t'.inbox[i].update == u;
        }
        if u in Updates(t'.inbox) {
          var i :| 0 <= i < |t'.inbox| && t'.inbox[i].update == u;
          assert t.inbox[i].update == u;
        }
      }
    }
    forall key
      ensures HasReply(t'.outbox, key) <==> HasReply(t.outbox, key)
    {
      if HasReply(t.outbox, key) {
        var k :| 0 <= k < |t.outbox| && t.outbox[k].key == key;
        assert t'.outbox[k].key == key;
      }
      if HasReply(t'.outbox, key) {
        var k :| 0 <= k < |t'.outbox| && t'.outbox[k].key == key;
        assert t.outbox[k].key == key;
      }
    }
  }

  lemma IngestSound(t: Tables, update: int, now: int)
    requires Sound(t)
    ensures Sound(Ingest(t, update, now))
  {
    if update !in t.seen {
      var t' := Ingest(t, update, now);
      forall i | 0 <= i < |t.inbox|
        ensures t.inbox[i].update != update
      {
        assert t.inbox[i].update in Updates(t.inbox);
      }
      assert t'.seen == Updates(t'.inbox) by {
        forall u | u in t'.seen
          ensures u in Updates(t'.inbox)
        {
          if u == update {
            assert t'.inbox[|t.inbox|].update == u;
          } else {
            var i :| 0 <= i < |t.inbox| && t.inbox[i].update == u;
            assert t'.inbox[i].update == u;
          }
        }
      }
      assert !HasReply(t.outbox, update);
    }
  }

  lemma CompleteSound(t: Tables, i: nat, now: int)
    requires Sound(t) && i < |t.inbox| && !t.inbox[i].state.InCompleted?
    ensures Sound(CompleteWithOutbox(t, i, t.inbox[i].update, now))
  {
    var t' := CompleteWithOutbox(t, i, t.inbox[i].update, now);
    var key := t.inbox[i].update;
    assert !HasReply(t.outbox, key);
    assert t'.outbox == t.outbox + [OutRow(i, key, OutPending, 0, now)];
    assert Updates(t'.inbox) == Updates(t.inbox) by {
      forall u
        ensures u in Updates(t'.inbox) <==> u in Updates(t.inbox)
      {
        if u in Updates(t.inbox) {
          var j :| 0 <= j < |t.inbox| && t.inbox[j].update == u;
          assert t'.inbox[j].update == u;
        }
      }
    }
    forall u
      ensures HasReply(t'.outbox, u) <==> HasReply(t.outbox, u) || u == key
    {
      if HasReply(t.outbox, u) {
        var k :| 0 <= k < |t.outbox| && t.outbox[k].key == u;
        assert t'.outbox[k].key == u;
      }
      assert t'.outbox[|t.outbox|].key == key;
    }
  }

  lemma FailSound(t: Tables, i: nat, max: int, now: int)
    requires Sound(t) && (i < |t.inbox| ==> !t.inbox[i].state.InCompleted?)
    ensures Sound(FailInbox(t, i, max, now))
  {
    SameShapeSound(t, FailInbox(t, i, max, now));
  }

  /** Completing a row again finds its reply and changes nothing. */
  lemma CompleteAgainSound(t: Tables, i: nat, now: int)
    requires Sound(t) && i < |t.inbox|
    ensures Sound(CompleteWithOutbox(t, i, t.inbox[i].update, now))
    ensures t.inbox[i].state.InCompleted? ==> CompleteWithOutbox(t, i, t.inbox[i].update, now) == t
  {
    if !t.inbox[i].state.InCompleted? {
      CompleteSound(t, i, now);
    }
  }

  /** The pause is a second without attempts, doubles with each and stays at 64 seconds from the
      sixth on. */
  lemma DelayDoubles(attempts: nat)
    ensures Delay(0) == 1_000_000_000
    ensures attempts <= 5 ==> Delay(attempts + 1) == 2 * Delay(attempts)
    ensures attempts >= 6 ==> Delay(attempts) == 64_000_000_000
  {
    assert Shl(6) == 64;
  }

  /******* The store *******/

  class Queue {
    var seen: set<int>
    var inbox: seq<InRow>
    var outbox: seq<OutRow>
    const le: Order

    function State(): Tables
      reads this
    {
      Tables(seen, inbox, outbox)
    }

    constructor (le: Order)
      ensures State() == EMPTY && this.le == le
    {
      seen, inbox, outbox := {}, [], [];
      this.le := le;
    }

    method Open()
      modifies this`inbox, this`outbox
      ensures State() == Reopen(old(State()))
      ensures |inbox| == |old(inbox)| && |outbox| == |old(outbox)|
      ensures forall i :: 0 <= i < |inbox| ==>
                inbox[i] == (if old(inbox)[i].state == InRunning then old(inbox)[i].(state := InPending) else old(inbox)[i])
      ensures forall k :: 0 <= k < |outbox| ==>
                outbox[k] == (if old(outbox)[k].state == OutSending then old(outbox)[k].(state := OutPending) else old(outbox)[k])
      ensures old(Sound(State())) ==> Sound(State())
    {
      ghost var before := State();
      var rows, replies := inbox, outbox;
      inbox := seq(|rows|, i requires 0 <= i < |rows| => ReopenIn(rows[i]));
      outbox := seq(|replies|, i requires 0 <= i < |replies| => ReopenOut(replies[i]));
      if Sound(before) {
        SameShapeSound(before, State());
      }
    }

    method IngestUpdate(update: int, now: int) returns (inserted: bool)
      modifies this`seen, this`inbox
      ensures State() == Ingest(old(State()), update, now)
      ensures inserted <==> update !in old(seen)
      ensures seen == old(seen) + {update}
      ensures inbox == if inserted then old(inbox) + [InRow(update, InPending, 0, now)] else old(inbox)
      ensures inserted ==> forall later :: le(now, later) ==> InReady(le, inbox[|old(inbox)|], later)
      ensures old(Sound(State())) ==> Sound(State())
    {
      ghost var before := State();
      inserted := update !in seen;
      if inserted {
        seen := seen + {update};
        inbox := inbox + [InRow(update, InPending, 0, now)];
      }
      if Sound(before) {
        IngestSound(before, update, now);
      }
    }

    method ClaimNext(now: int) returns (row: Option<nat>)
      modifies this`inbox
      ensures row == FirstInReady(le, old(inbox), now, 0)
      ensures State() == ClaimInbox(le, old(State()), now)
      ensures row.None? ==> inbox == old(inbox)
                            && forall i :: 0 <= i < |inbox| ==> !(inbox[i].state == InPending && le(inbox[i].availableAt, now))
      ensures row.Some? ==>
                && row.value < |old(inbox)|
                && old(inbox)[row.value].state == InPending && le(old(inbox)[row.value].availableAt, now)
                && (forall i :: 0 <= i < row.value ==> !(old(inbox)[i].state == InPending && le(old(inbox)[i].availableAt, now)))
                && inbox == old(inbox)[row.value := old(inbox)[row.value].(state := InRunning, attempts := old(inbox)[row.value].attempts + 1)]
      ensures old(Sound(State())) ==> Sound(State())
    {
      ghost var before := State();
      row := FirstInReady(le, inbox, now, 0);
      if row.Some? {
        inbox := inbox[row.value := StartRow(inbox[row.value])];
      }
      if Sound(before) {
        SameShapeSound(before, State());
      }
    }

    method Complete(i: nat, key: int, now: int)
      modifies this`inbox, this`outbox
      ensures State() == CompleteWithOutbox(old(State()), i, key, now)
      ensures HasReply(outbox, key)
      ensures outbox == if HasReply(old(outbox), key) then old(outbox) else old(outbox) + [OutRow(i, key, OutPending, 0, now)]
      ensures inbox == if i < |old(inbox)| then old(inbox)[i := old(inbox)[i].(state := InCompleted)] else old(inbox)
      ensures !HasReply(old(outbox), key) ==> forall later :: le(now, later) ==> OutReady(le, outbox[|old(outbox)|], later)
      ensures old(Sound(State())) && i < |old(inbox)| && key == old(inbox)[i].update ==> Sound(State())
    {
      ghost var before := State();
      if !HasReply(outbox, key) {
        outbox := outbox + [OutRow(i, key, OutPending, 0, now)];
      }
      if i < |inbox| {
        inbox := inbox[i := inbox[i].(state := InCompleted)];
      }
      assert HasReply(outbox, key) by {
        assert HasReply(before.outbox, key) || outbox[|before.outbox|].key == key;
      }
      if Sound(before) && i < |before.inbox| && key == before.inbox[i].update {
        CompleteAgainSound(before, i, now);
      }
    }

    method Fail(i: nat, max: int, now: int)
      modifies this`inbox
      ensures State() == FailInbox(old(State()), i, max, now)
      ensures inbox == if i >= |old(inbox)| then old(inbox)
                       else old(inbox)[i := old(inbox)[i].(state := if old(inbox)[i].attempts >= max then InDead else InPending,
                                                           availableAt := now + Delay(old(inbox)[i].attempts))]
      ensures old(Sound(State())) && (i < |old(inbox)| ==> !old(inbox)[i].state.InCompleted?) ==> Sound(State())
    {
      ghost var before := State();
      if i < |inbox| {
        var state := if inbox[i].attempts >= max then InDead else InPending;
        inbox := inbox[i := inbox[i].(state := state, availableAt := now + Delay(inbox[i].attempts))];
      }
      if Sound(before) && (i < |before.inbox| ==> !before.inbox[i].state.InCompleted?) {
        FailSound(before, i, max, now);
      }
    }

    method ClaimReply(now: int) returns (row: Option<nat>)
      modifies this`outbox
      ensures row == FirstOutReady(le, old(outbox), now, 0)
      ensures State() == ClaimOutbox(le, old(State()), now)
      ensures row.None? ==> outbox == old(outbox)
                            && forall k :: 0 <= k < |outbox| ==> !(outbox[k].state == OutPending && le(outbox[k].availableAt, now))
      ensures row.Some? ==>
                && row.value < |old(outbox)|
                && old(outbox)[row.value].state == OutPending && le(old(outbox)[row.value].availableAt, now)
                && (forall k :: 0 <= k < row.value ==> !(old(outbox)[k].state == OutPending && le(old(outbox)[k].availableAt, now)))
                && outbox == old(outbox)[row.value := old(outbox)[row.value].(state := OutSending, attempts := old(outbox)[row.value].attempts + 1)]
      ensures old(Sound(State())) ==> Sound(State())
    {
      ghost var before := State();
      row := FirstOutReady(le, outbox, now, 0);
      if row.Some? {
        var i := row.value;
        outbox := outbox[i := outbox[i].(state := OutSending, attempts := outbox[i].attempts + 1)];
      }
      if Sound(before) {
        SameShapeSound(before, State());
      }
    }

    method MarkSent(i: nat)
      modifies this`outbox
      ensures State() == OutboxSent(old(State()), i)
      ensures outbox == if i < |old(outbox)| then old(outbox)[i := old(outbox)[i].(state := OutSent)] else old(outbox)
      ensures old(Sound(State())) ==> Sound(State())
    {
      ghost var before := State();
      if i < |outbox| {
        outbox := outbox[i := outbox[i].(state := OutSent)];
      }
      if Sound(before) {
        SameShapeSound(before, State());
      }
    }

    method MarkFailed(i: nat, max: int, now: int)
      modifies this`outbox
      ensures State() == OutboxFailed(old(State()), i, max, now)
      ensures outbox == if i >= |old(outbox)| then old(outbox)
                        else old(outbox)[i := old(outbox)[i].(state := if old(outbox)[i].attempts >= max then OutDead else OutPending,
                                                              availableAt := now + Delay(old(outbox)[i].attempts))]
      ensures old(Sound(State())) ==> Sound(State())
    {
      ghost var before := State();
      if i < |outbox| {
        var state := if outbox[i].attempts >= max then OutDead else OutPending;
        outbox := outbox[i := outbox[i].(state := state, availableAt := now + Delay(outbox[i].attempts))];
      }
      if Sound(before) {
        SameShapeSound(before, State());
      }
    }
  }
}
