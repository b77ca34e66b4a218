/** The per-user token bucket in front of the message handler, in exact arithmetic. */
module MessageGuard {
  import opened Prelude

  const MINUTE: real := 60_000_000_000.0

  datatype Limits = Limits(maxBytes: nat, perMinute: nat, burst: nat)

  /** What NewMessageGuard accepts. */
  predicate ValidLimits(l: Limits) {
    1 <= l.maxBytes && 1 <= l.perMinute && 1 <= l.burst <= l.perMinute
  }

  datatype Bucket = Bucket(tokens: real, last: int)
  type Users = map<int, Bucket>

  /** One call: the user, the size of the text and whether it is valid UTF-8, and the
      clock reading in nanoseconds. */
  datatype Call = Call(user: int, size: nat, utf8: bool, now: int)

  predicate WellFormed(l: Limits, c: Call) {
    c.user > 0 && c.size <= l.maxBytes && c.utf8
  }

  function MinReal(a: real, b: real): real { if a < b then a else b }

  /** Tokens that trickle in over `ns` nanoseconds; a clock that went back adds none. */
  function Refill(l: Limits, ns: int): real {
    if ns < 0 then 0.0 else (ns as real / MINUTE) * l.perMinute as real
  }

  function BucketAt(l: Limits, users: Users, user: int, now: int): Bucket {
    if user in users then users[user] else Bucket(l.burst as real, now)
  }

  function Refilled(l: Limits, b: Bucket, now: int): real {
    MinReal(l.burst as real, b.tokens + Refill(l, now - b.last))
  }

  predicate Accepts(l: Limits, users: Users, c: Call) {
    WellFormed(l, c) && Refilled(l, BucketAt(l, users, c.user, c.now), c.now) >= 1.0
  }

  function Allow(l: Limits, users: Users, c: Call): Users {
    if !WellFormed(l, c) then users
    else
      var tokens := Refilled(l, BucketAt(l, users, c.user, c.now), c.now);
      users[c.user := Bucket(if tokens < 1.0 then tokens else tokens - 1.0, c.now)]
  }

  /** The tokens a well-formed call finds: a full burst for a new user, else what was left and
      perMinute tokens for every minute the clock has moved forward, at most the burst. */
  function TokensAt(l: Limits, users: Users, c: Call): real {
    if c.user !in users then l.burst as real
    else
      var b := users[c.user];
      var minutes := if c.now < b.last then 0.0 else (c.now - b.last) as real / 60_000_000_000.0;
      if b.tokens + minutes * l.perMinute as real < l.burst as real then b.tokens + minutes * l.perMinute as real
      else l.burst as real
  }

  lemma RefilledIsTokensAt(l: Limits, users: Users, c: Call)
    requires c.user in users ==> users[c.user].tokens <= l.burst as real
    ensures Refilled(l, BucketAt(l, users, c.user, c.now), c.now) == TokensAt(l, users, c)
  {
    assert Refill(l, 0) == 0.0;
  }

  class Guard {
    const limits: Limits
    var users: Users

    constructor (limits: Limits)
      requires ValidLimits(limits)
      ensures this.limits == limits && users == map[]
    {
      this.limits := limits;
      users := map[];
    }

    method AllowMessage(c: Call) returns (ok: bool)
      modifies this
      ensures users == Allow(limits, old(users), c)
      ensures ok <==> Accepts(limits, old(users), c)
      ensures c.user <= 0 || c.size > limits.maxBytes || !c.utf8 ==> !ok && users == old(users)
      ensures c.user > 0 && c.size <= limits.maxBytes && c.utf8 ==>
                && c.user in users && users[c.user].last == c.now
                && users[c.user].tokens == TokensAt(limits, old(users), c) - (if ok then 1.0 else 0.0)
                && (ok <==> TokensAt(limits, old(users), c) >= 1.0)
      ensures forall u :: u != c.user ==> (u in users <==> u in old(users)) && (u in users ==> users[u] == old(users)[u])
      ensures old(InBounds(limits, users)) ==> InBounds(limits, users)
    {
      if c.user <= 0 || c.size > limits.maxBytes || !c.utf8 {
        return false;
      }
      var state := if c.user in users then users[c.user] else Bucket(limits.burst as real, c.now);
      var tokens := MinReal(limits.burst as real, state.tokens + Refill(limits, c.now - state.last));
      RefillNonNegative(limits, c.now - state.last);
      if tokens < 1.0 {
        users := users[c.user := Bucket(tokens, c.now)];
        return false;
      }
      users := users[c.user := Bucket(tokens - 1.0, c.now)];
      return true;
    }
  }

  predicate InBounds(l: Limits, users: Users) {
    forall u :: u in users ==> 0.0 <= users[u].tokens <= l.burst as real
  }

  lemma RefillNonNegative(l: Limits, ns: int)
    ensures Refill(l, ns) >= 0.0
  {
    if ns >= 0 {
      assert ns as real / MINUTE >= 0.0;
    }
  }

  lemma RefillAdds(l: Limits, a: int, b: int)
    requires a >= 0 && b >= 0
    ensures Refill(l, a + b) == Refill(l, a) + Refill(l, b)
  {
    assert (a + b) as real / MINUTE == a as real / MINUTE + b as real / MINUTE;
    var x, y, r := a as real / MINUTE, b as real / MINUTE, l.perMinute as real;
    assert (x + y) * r == x * r + y * r;
  }

  /******* Runs of calls *******/

  function After(l: Limits, users: Users, calls: seq<Call>): Users
    decreases |calls|
  {
    if calls == [] then users else After(l, Allow(l, users, calls[0]), calls[1..])
  }

  /** How many calls of `user` are let through. */
  function Accepted(l: Limits, users: Users, calls: seq<Call>, user: int): nat
    decreases |calls|
  {
    if calls == [] then 0
    else
      (if calls[0].user == user && Accepts(l, users, calls[0]) then 1 else 0)
      + Accepted(l, Allow(l, users, calls[0]), calls[1..], user)
  }

  predicate Ascending(calls: seq<Call>) {
    forall i, j :: 0 <= i < j < |calls| ==> calls[i].now <= calls[j].now
  }

  lemma AllowKeepsBounds(l: Limits, users: Users, c: Call)
    requires ValidLimits(l) && InBounds(l, users)
    ensures InBounds(l, Allow(l, users, c))
  {
    if WellFormed(l, c) {
      RefillNonNegative(l, c.now - BucketAt(l, users, c.user, c.now).last);
    }
  }

  lemma {:induction false} TokensStayInBounds(l: Limits, users: Users, calls: seq<Call>)
    requires ValidLimits(l) && InBounds(l, users)
    ensures InBounds(l, After(l, users, calls))
    decreases |calls|
  {
    if calls != [] {
      AllowKeepsBounds(l, users, calls[0]);
      TokensStayInBounds(l, Allow(l, users, calls[0]), calls[1..]);
    }
  }

  /** How far the clock moves forward along a user's own well-formed calls, starting from its
      last reading; steps back count for nothing, and without a last reading the first call
      only sets it. */
  function Forward(l: Limits, last: Option<int>, calls: seq<Call>, user: int): nat
    decreases |calls|
  {
    if calls == [] then 0
    else
      var c := calls[0];
      if c.user != user || !WellFormed(l, c) then Forward(l, last, calls[1..], user)
      else
        (if last.Some? && c.now > last.value then c.now - last.value else 0)
        + Forward(l, Some(c.now), calls[1..], user)
  }

  /** Readings that go back refill nothing. */
  lemma RefillForward(l: Limits, last: int, now: int, more: nat)
    ensures
      var step := if now > last then now - last else 0;
      Refill(l, step + more) == Refill(l, now - last) + Refill(l, more)
  {
    var step := if now > last then now - last else 0;
    RefillAdds(l, step, more);
    assert Refill(l, 0) == 0.0;
  }

  lemma {:induction false} SpentFromBucket(l: Limits, users: Users, calls: seq<Call>, user: int)
    requires ValidLimits(l) && InBounds(l, users) && user in users
    ensures Accepted(l, users, calls, user) as real
            <= users[user].tokens + Refill(l, Forward(l, Some(users[user].last), calls, user))
    decreases |calls|
  {
    if calls == [] {
      RefillNonNegative(l, 0);
    } else {
      var c := calls[0];
      AllowKeepsBounds(l, users, c);
      SpentFromBucket(l, Allow(l, users, c), calls[1..], user);
      if c.user == user && WellFormed(l, c) {
        RefillForward(l, users[user].last, c.now, Forward(l, Some(c.now), calls[1..], user));
      }
    }
  }

  lemma {:induction false} SpentByAnyone(l: Limits, users: Users, calls: seq<Call>, user: int)
    requires ValidLimits(l) && InBounds(l, users)
    ensures Accepted(l, users, calls, user) as real <= l.burst as real + Refill(l, Forward(l, None, calls, user))
    decreases |calls|
  {
    if calls == [] {
      RefillNonNegative(l, 0);
    } else {
      var c := calls[0];
      AllowKeepsBounds(l, users, c);
      if c.user == user && WellFormed(l, c) {
        SpentFromBucket(l, Allow(l, users, c), calls[1..], user);
      } else {
        SpentByAnyone(l, Allow(l, users, c), calls[1..], user);
      }
    }
  }

  lemma RefillSpelled(l: Limits, ns: nat)
    ensures Refill(l, ns) == (ns as real / 60_000_000_000.0) * l.perMinute as real
  {
  }

  /** The bound for all readings, in whatever order they come: the calls of one user that are
      let through number at most the burst plus the rate times the distance the clock moves
      forward along that user's own calls. */
  lemma BoundForAllReadings(l: Limits, users: Users, calls: seq<Call>, user: int)
    requires ValidLimits(l) && InBounds(l, users)
    ensures Accepted(l, users, calls, user) as real
            <= l.burst as real + (Forward(l, None, calls, user) as real / 60_000_000_000.0) * l.perMinute as real
  {
    SpentByAnyone(l, users, calls, user);
    RefillSpelled(l, Forward(l, None, calls, user));
  }

  lemma {:induction false} ForwardWithin(l: Limits, last: Option<int>, calls: seq<Call>, user: int, from: int, to: int)
    requires Ascending(calls) && from <= to && (last.Some? ==> last.value == from)
    requires forall k :: 0 <= k < |calls| ==> from <= calls[k].now <= to
    ensures Forward(l, last, calls, user) <= to - from
    decreases |calls|
  {
    if calls != [] {
      var c := calls[0];
      if c.user == user && WellFormed(l, c) {
        ForwardWithin(l, Some(c.now), calls[1..], user, c.now, to);
      } else {
        ForwardWithin(l, last, calls[1..], user, from, to);
      }
    }
  }

  lemma RefillMonotone(l: Limits, a: int, b: int)
    requires 0 <= a <= b
    ensures Refill(l, a) <= Refill(l, b)
  {
    RefillAdds(l, a, b - a);
    RefillNonNegative(l, b - a);
  }

  lemma WindowInRefill(l: Limits, earlier: seq<Call>, window: seq<Call>, user: int, from: int, to: int)
    requires ValidLimits(l) && from <= to && Ascending(window)
    requires forall k :: 0 <= k < |window| ==> from <= window[k].now <= to
    ensures Accepted(l, After(l, map[], earlier), window, user) as real <= l.burst as real + Refill(l, to - from)
  {
    TokensStayInBounds(l, map[], earlier);
    SpentByAnyone(l, After(l, map[], earlier), window, user);
    ForwardWithin(l, None, window, user, from, to);
    RefillMonotone(l, Forward(l, None, window, user), to - from);
  }

  /** The rate limit: after any earlier calls, the calls of one user that are let through in a
      window of time number at most the burst plus the rate times the window, as long as the
      readings in the window do not go back. */
  lemma RateLimit(l: Limits, earlier: seq<Call>, window: seq<Call>, user: int, from: int, to: int)
    requires ValidLimits(l) && from <= to && Ascending(window)
    requires forall k :: 0 <= k < |window| ==> from <= window[k].now <= to
    ensures
      Accepted(l, After(l, map[], earlier), window, user) as real
      <= l.burst as real + ((to - from) as real / 60_000_000_000.0) * l.perMinute as real
  {
    var accepted, bound := Accepted(l, After(l, map[], earlier), window, user) as real, Refill(l, to - from);
    assert accepted <= l.burst as real + bound by { WindowInRefill(l, earlier, window, user, from, to); }
    assert bound == ((to - from) as real / 60_000_000_000.0) * l.perMinute as real by { RefillSpelled(l, to - from); }
  }

  /** The reading of the user's last well-formed call. */
  function LastReading(l: Limits, calls: seq<Call>, user: int): Option<int> {
    if calls == [] then None
    else
      var c := calls[|calls| - 1];
      if c.user == user && c.user > 0 && c.size <= l.maxBytes && c.utf8 then Some(c.now)
      else LastReading(l, calls[..|calls| - 1], user)
  }

  lemma {:induction false} AfterSnoc(l: Limits, users: Users, calls: seq<Call>, c: Call)
    ensures After(l, users, calls + [c]) == Allow(l, After(l, users, calls), c)
    decreases |calls|
  {
    if calls == [] {
      assert [c][1..] == [] && calls + [c] == [c];
    } else {
      assert (calls + [c])[1..] == calls[1..] + [c];
      AfterSnoc(l, Allow(l, users, calls[0]), calls[1..], c);
    }
  }

  lemma {:induction false} BucketFollowsReadings(l: Limits, calls: seq<Call>, user: int)
    ensures
      var users := After(l, map[], calls);
      if user in users then LastReading(l, calls, user) == Some(users[user].last) else LastReading(l, calls, user) == None
  {
    if calls != [] {
      var front, c := calls[..|calls| - 1], calls[|calls| - 1];
      assert calls == front + [c];
      AfterSnoc(l, map[], front, c);
      BucketFollowsReadings(l, front, user);
    }
  }

  lemma OneToken(l: Limits, ns: nat)
    requires ns as real * l.perMinute as real >= 60_000_000_000.0
    ensures Refill(l, ns) >= 1.0
  {
    var t, rate := ns as real, l.perMinute as real;
    assert (t / MINUTE) * rate == (t * rate) / MINUTE;
  }

  lemma RefilledAccepts(l: Limits, users: Users, c: Call)
    requires ValidLimits(l) && InBounds(l, users) && WellFormed(l, c)
    requires c.user in users ==> Refill(l, c.now - users[c.user].last) >= 1.0
    ensures Accepts(l, users, c)
  {
    if c.user !in users {
      RefillNonNegative(l, 0);
    }
  }

  /** The call comes at least the time of one token after the reading. */
  predicate TokenTimePassed(l: Limits, last: int, now: int) {
    now >= last && (now - last) as real * l.perMinute as real >= 60_000_000_000.0
  }

  /** Nobody is refused for nothing: after any earlier calls, a user's first well-formed call is
      let through, and so is any well-formed call that comes at least the time of one token
      after the user's last one. */
  lemma WaitingIsEnough(l: Limits, earlier: seq<Call>, c: Call)
    requires ValidLimits(l) && c.user > 0 && c.size <= l.maxBytes && c.utf8
    ensures
      var last := LastReading(l, earlier, c.user);
      last.None? || TokenTimePassed(l, last.value, c.now) ==> Accepts(l, After(l, map[], earlier), c)
  {
    var users, last := After(l, map[], earlier), LastReading(l, earlier, c.user);
    TokensStayInBounds(l, map[], earlier);
    BucketFollowsReadings(l, earlier, c.user);
    if last.None? {
      RefilledAccepts(l, users, c);
    } else if TokenTimePassed(l, last.value, c.now) {
      OneToken(l, c.now - last.value);
      RefilledAccepts(l, users, c);
    }
  }

  lemma ForwardBackAndForth(l: Limits, a: Call, b: Call)
    requires a.user == b.user && WellFormed(l, a) && WellFormed(l, b) && a.now < b.now
    ensures Forward(l, None, [a, b, a, b], a.user) == 2 * (b.now - a.now)
  {
    assert [b][1..] == [] && [a, b][1..] == [b] && [b, a, b][1..] == [a, b] && [a, b, a, b][1..] == [b, a, b];
    assert Forward(l, Some(a.now), [b], a.user) == b.now - a.now;
    assert Forward(l, Some(b.now), [a, b], a.user) == b.now - a.now;
    assert Forward(l, Some(a.now), [b, a, b], a.user) == 2 * (b.now - a.now);
  }

  /** The bound needs the clock: with readings that go back and forth between 0 and one
      minute, a limit of one message a minute lets three through within that minute, which is
      what the bound for all readings allows. */
  lemma ClockMustNotGoBack()
    ensures
      var l := Limits(10, 1, 1);
      var calls := [Call(7, 1, true, 0), Call(7, 1, true, 60_000_000_000), Call(7, 1, true, 0), Call(7, 1, true, 60_000_000_000)];
      && Accepted(l, map[], calls, 7) == 3
      && l.burst as real + Refill(l, Forward(l, None, calls, 7)) == 3.0
  {
    var l := Limits(10, 1, 1);
    var a, b := Call(7, 1, true, 0), Call(7, 1, true, 60_000_000_000);
    assert Refill(l, 0) == 0.0 && Refill(l, 60_000_000_000) == 1.0 && Refill(l, 120_000_000_000) == 2.0;
    var u1 := Allow(l, map[], a);
    assert u1 == map[7 := Bucket(0.0, 0)];
    var u2 := Allow(l, u1, b);
    assert u2 == map[7 := Bucket(0.0, 60_000_000_000)];
    var u3 := Allow(l, u2, a);
    assert u3 == map[7 := Bucket(0.0, 0)];
    assert Accepted(l, u3, [b], 7) == 1 by { assert [b][1..] == []; }
    assert Accepted(l, u2, [a, b], 7) == 1 by { assert [a, b][1..] == [b]; }
    assert Accepted(l, u1, [b, a, b], 7) == 2 by { assert [b, a, b][1..] == [a, b]; }
    assert [a, b, a, b][1..] == [b, a, b];
    ForwardBackAndForth(l, a, b);
  }

  /******* Users do not affect each other *******/

  function Of(calls: seq<Call>, user: int): seq<Call>
    decreases |calls|
  {
    if calls == [] then []
    else if calls[0].user == user then [calls[0]] + Of(calls[1..], user)
    else Of(calls[1..], user)
  }

  predicate SameFor(a: Users, b: Users, user: int) {
    (user in a <==> user in b) && (user in a ==> a[user] == b[user])
  }

  /** What one user is let through depends on that user's own calls alone. */
  lemma {:induction false} UsersAreIndependent(l: Limits, a: Users, b: Users, calls: seq<Call>, user: int)
    requires SameFor(a, b, user)
    ensures Accepted(l, a, calls, user) == Accepted(l, b, Of(calls, user), user)
    ensures SameFor(After(l, a, calls), After(l, b, Of(calls, user)), user)
    decreases |calls|
  {
    if calls != [] {
      var c := calls[0];
      if c.user == user {
        assert ([c] + Of(calls[1..], user))[1..] == Of(calls[1..], user);
        UsersAreIndependent(l, Allow(l, a, c), Allow(l, b, c), calls[1..], user);
      } else {
        UsersAreIndependent(l, Allow(l, a, c), b, calls[1..], user);
      }
    }
  }
}
