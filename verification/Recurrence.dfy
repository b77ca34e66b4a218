/** Recurrence grid and retry backoff, with Go's 64-bit durations. */
module Recurrence {
  import opened Prelude

  const MAX64: int := 0x7fff_ffff_ffff_ffff
  const MIN64: int := -0x8000_0000_0000_0000
  const DAY24: int := 86_400_000_000_000

  predicate Int64(n: int) { MIN64 <= n <= MAX64 }

  /** Two's complement wrap-around of an integer to 64 bits. */
  function Wrap64(n: int): (r: int)
    ensures Int64(r)
    ensures Int64(n) ==> r == n
    ensures (n - r) % 0x1_0000_0000_0000_0000 == 0
  {
    (n - MIN64) % 0x1_0000_0000_0000_0000 + MIN64
  }

  /** time.Time.Sub saturates. */
  function Sub(t: int, u: int): int {
    if t - u > MAX64 then MAX64 else if t - u < MIN64 then MIN64 else t - u
  }

  function NextRecurring(anchor: int, every: int, now: int): int {
    if every <= 0 || anchor > now then
      anchor
    else
      var steps := Wrap64(Sub(now, anchor) / every + 1);
      anchor + Wrap64(steps * every)
  }

  predicate OnGrid(anchor: int, every: int, t: int)
    requires every > 0
  {
    t >= anchor && (t - anchor) % every == 0
  }

  /** The least grid point strictly after `now`. */
  predicate IsNext(anchor: int, every: int, now: int, t: int)
    requires every > 0
  {
    && OnGrid(anchor, every, t) && t > now
    && forall u :: OnGrid(anchor, every, u) && u > now ==> t <= u
  }

  /** Every multiplication that the computation performs stays within 64 bits. */
  predicate FitsInt64(anchor: int, every: int, now: int)
    requires every > 0
  {
    anchor <= now ==> now - anchor <= MAX64 && ((now - anchor) / every + 1) * every <= MAX64
  }

  lemma GridStep(d: int, every: int)
    requires d >= 0 && every > 0
    ensures
      var p := (d / every + 1) * every;
      d < p <= d + every && p % every == 0
    ensures 0 <= d / every <= d && 0 <= (d / every) * every <= d
  {
    var q := d / every;
    assert d == q * every + d % every;
    assert (q + 1) * every == q * every + every;
    MulMonotone(1, every, q);
    MultipleOf(q + 1, every);
  }

  lemma MultipleOf(k: int, every: int)
    requires every > 0
    ensures (k * every) % every == 0 && (k * every) / every == k
  {
    QuotientUnique(k * every, every, k, 0);
  }

  lemma MulMonotone(a: int, b: int, c: int)
    requires a <= b && c >= 0
    ensures a * c <= b * c
  {
    assert b * c - a * c == (b - a) * c;
  }

  lemma QuotientUnique(n: int, every: int, q: int, r: int)
    requires every > 0 && n == q * every + r && 0 <= r < every
    ensures n / every == q && n % every == r
  {
    var q' := n / every;
    if q' > q {
      MulMonotone(q + 1, q', every);
    } else if q' < q {
      MulMonotone(q' + 1, q, every);
    }
  }

  /** No grid point lies strictly between two neighbours. */
  lemma NoGridBetween(p: int, u: int, every: int)
    requires every > 0 && p % every == 0 && u % every == 0
    ensures u <= p - every || p <= u
  {
    var a, b := p / every, u / every;
    assert p == a * every && u == b * every;
    if b < a {
      MulMonotone(b + 1, a, every);
    } else {
      MulMonotone(a, b, every);
    }
  }

  /** The ideal successor: the neighbour of the last grid point not after `now`. */
  lemma GridSuccessor(anchor: int, every: int, now: int)
    requires every > 0 && anchor <= now
    ensures IsNext(anchor, every, now, anchor + ((now - anchor) / every + 1) * every)
  {
    var p := ((now - anchor) / every + 1) * every;
    GridStep(now - anchor, every);
    forall u | OnGrid(anchor, every, u) && u > now
      ensures anchor + p <= u
    {
      NoGridBetween(p, u - anchor, every);
    }
  }

  /** NextRecurring is the least grid point after `now` exactly when nothing
      overflows; once something overflows it returns an instant not after `now`. */
  lemma NextRecurringExact(anchor: int, every: int, now: int)
    requires 0 < every <= MAX64
    ensures IsNext(anchor, every, now, NextRecurring(anchor, every, now)) <==> FitsInt64(anchor, every, now)
    ensures !FitsInt64(anchor, every, now) ==> NextRecurring(anchor, every, now) <= now
  {
    if anchor > now {
      assert (anchor - anchor) % every == 0;
    } else if now - anchor > MAX64 {
      assert NextRecurring(anchor, every, now) - anchor <= MAX64;
    } else {
      var steps := (now - anchor) / every + 1;
      GridStep(now - anchor, every);
      GridSuccessor(anchor, every, now);
      WrappedProduct(steps, every);
      assert NextRecurring(anchor, every, now) == anchor + Wrap64(steps * every);
    }
  }

  /** Wrapping the step count first does not change the wrapped product. */
  lemma WrappedProduct(steps: int, every: int)
    requires 0 < every <= MAX64 && 0 < steps <= MAX64 + 1 && 0 <= (steps - 1) * every <= MAX64
    ensures Wrap64(Wrap64(steps) * every) == Wrap64(steps * every)
    ensures Wrap64(steps * every) == if steps * every <= MAX64 then steps * every else steps * every - 0x1_0000_0000_0000_0000
  {
    assert steps * every == (steps - 1) * every + every;
    if steps == MAX64 + 1 {
      MulMonotone(1, every, steps - 1);
      assert every == 1 by {
        if every >= 2 {
          MulMonotone(2, every, steps - 1);
          assert false;
        }
      }
    }
  }

  /** A job interval is at most 366 days, so only a lag of centuries overflows. */
  lemma CatchUpFits(anchor: int, every: int, now: int)
    requires 0 < every && now - anchor + every <= MAX64
    ensures FitsInt64(anchor, every, now)
  {
    if anchor <= now {
      GridStep(now - anchor, every);
    }
  }

  lemma AnchorDelta(anchor: int, every: int, now: int)
    requires 0 < every <= MAX64 && anchor <= now
    ensures
      var p := (Sub(now, anchor) / every + 1) * every;
      && 0 < p && Sub(now, anchor) < p
      && NextRecurring(anchor, every, now) == (if p <= MAX64 then anchor + p else anchor + p - 0x1_0000_0000_0000_0000)
      && p <= 2 * MAX64
  {
    var d := Sub(now, anchor);
    var steps := d / every + 1;
    assert 0 <= d <= MAX64;
    GridStep(d, every);
    assert (steps - 1) * every == (d / every) * every;
    WrappedProduct(steps, every);
    assert NextRecurring(anchor, every, now) == anchor + Wrap64(Wrap64(steps) * every);
  }

  /** The anchor moves forward exactly when it is not after `now` and nothing
      overflows; an overflow moves it backward. */
  lemma AnchorMovesForward(anchor: int, every: int, now: int)
    requires 0 < every <= MAX64
    ensures NextRecurring(anchor, every, now) > anchor <==> anchor <= now && FitsInt64(anchor, every, now)
  {
    if anchor <= now {
      AnchorDelta(anchor, every, now);
    }
  }

  /** The successor of `now` is the same from any grid point not after it. */
  lemma NextFromGridPoint(anchor: int, first: int, every: int, now: int, t: int)
    requires every > 0 && OnGrid(anchor, every, first) && first <= now && IsNext(first, every, now, t)
    ensures IsNext(anchor, every, now, t)
  {
    SumResidue(t - first, first - anchor, every);
    forall u | OnGrid(anchor, every, u) && u > now
      ensures t <= u
    {
      SameResidue(first - anchor, u - anchor, every);
      assert OnGrid(first, every, u);
    }
  }

  lemma NextUnique(anchor: int, every: int, now: int, t: int, u: int)
    requires every > 0 && IsNext(anchor, every, now, t) && IsNext(anchor, every, now, u)
    ensures t == u
  {
  }

  /** Catching up in two steps is the same as catching up once. */
  lemma CatchUpComposes(anchor: int, every: int, mid: int, now: int)
    requires 0 < every <= MAX64 && mid <= now
    requires FitsInt64(anchor, every, now)
    ensures NextRecurring(NextRecurring(anchor, every, mid), every, now) == NextRecurring(anchor, every, now)
  {
    EarlierFits(anchor, every, mid, now);
    NextRecurringExact(anchor, every, mid);
    NextRecurringExact(anchor, every, now);
    var first, last := NextRecurring(anchor, every, mid), NextRecurring(anchor, every, now);
    if first <= now {
      var ideal := first + ((now - first) / every + 1) * every;
      GridSuccessor(first, every, now);
      NextFromGridPoint(anchor, first, every, now, ideal);
      NextUnique(anchor, every, now, ideal, last);
      LastWithin(anchor, every, now);
      assert FitsInt64(first, every, now);
      NextRecurringExact(first, every, now);
      NextUnique(first, every, now, ideal, NextRecurring(first, every, now));
    } else {
      NextUnique(anchor, every, now, first, last);
    }
  }

  lemma EarlierFits(anchor: int, every: int, mid: int, now: int)
    requires every > 0 && mid <= now && FitsInt64(anchor, every, now)
    ensures FitsInt64(anchor, every, mid)
  {
    if anchor <= mid {
      GridSuccessor(anchor, every, mid);
      GridSuccessor(anchor, every, now);
    }
  }

  lemma LastWithin(anchor: int, every: int, now: int)
    requires 0 < every <= MAX64 && FitsInt64(anchor, every, now) && anchor <= now
    ensures NextRecurring(anchor, every, now) - anchor <= MAX64
  {
    AnchorDelta(anchor, every, now);
  }

  lemma SameResidue(x: int, y: int, every: int)
    requires every > 0 && x % every == 0 && y % every == 0
    ensures (y - x) % every == 0
  {
    assert y - x == (y / every - x / every) * every by {
      assert (y / every - x / every) * every == (y / every) * every - (x / every) * every;
    }
    MultipleOf(y / every - x / every, every);
  }

  lemma SumResidue(x: int, y: int, every: int)
    requires every > 0 && x % every == 0 && y % every == 0
    ensures (x + y) % every == 0
  {
    assert x + y == (y / every + x / every) * every by {
      assert (y / every + x / every) * every == (y / every) * every + (x / every) * every;
    }
    MultipleOf(y / every + x / every, every);
  }

  /******* Retry backoff *******/

  function Doublings(attempts: int): (s: nat)
    ensures s <= 10
  {
    if attempts - 1 < 0 then 0 else if attempts - 1 > 10 then 10 else attempts - 1
  }

  function BoundedBackoff(base: int, attempts: int): int {
    if base <= 0 then 0
    else
      var delay := Wrap64(base * Shl(Doublings(attempts)));
      if delay > DAY24 || delay < 0 then DAY24 else delay
  }

  lemma ShlMonotone(m: nat, n: nat)
    requires m <= n <= 10
    ensures Shl(m) <= Shl(n) <= 1024
  {
    assert Shl(10) == 1024;
    ShlGrows(m, n);
    ShlGrows(n, 10);
  }

  lemma {:induction false} ShlGrows(m: nat, n: nat)
    requires m <= n
    ensures Shl(m) <= Shl(n)
  {
    if m < n {
      ShlGrows(m, n - 1);
    }
  }

  /** Within the bounds a job is created with, the delay is the doubled base capped
      at a day: nothing overflows. */
  lemma BackoffIsCappedDoubling(base: int, attempts: int)
    requires 0 <= base <= DAY24
    ensures
      var exponent := Min(if attempts - 1 < 0 then 0 else attempts - 1, 10);
      var doubled := base * Shl(exponent);
      0 <= doubled && BoundedBackoff(base, attempts) == (if doubled < 86_400_000_000_000 then doubled else 86_400_000_000_000)
  {
    var p := Shl(Doublings(attempts));
    ShlMonotone(Doublings(attempts), 10);
    MulMonotone(base, DAY24, p);
    MulMonotone(0, base, p);
    assert 0 <= base * p <= DAY24 * p;
  }

  /** Attempt by attempt: the first failure waits for the base, each of the next ten doubles the
      wait, up to 24 hours, and from the eleventh on it stays. */
  lemma BackoffDoubles(base: int, attempts: int)
    requires 0 <= base <= DAY24
    ensures attempts <= 1 ==> BoundedBackoff(base, attempts) == base
    ensures 1 <= attempts <= 10 ==>
              BoundedBackoff(base, attempts + 1) == Min(2 * BoundedBackoff(base, attempts), 86_400_000_000_000)
    ensures attempts >= 11 ==> BoundedBackoff(base, attempts) == BoundedBackoff(base, 11)
  {
    BackoffIsCappedDoubling(base, attempts);
    BackoffIsCappedDoubling(base, attempts + 1);
    if 1 <= attempts <= 10 {
      assert Shl(Doublings(attempts + 1)) == 2 * Shl(Doublings(attempts));
      TwiceTheProduct(base, Shl(Doublings(attempts)));
    }
  }

  lemma TwiceTheProduct(a: int, b: int)
    ensures a * (2 * b) == 2 * (a * b)
  {
  }

  /** ... and it never shrinks as attempts go up, nor exceeds a day. */
  lemma BackoffMonotone(base: int, attempts: int, later: int)
    requires 0 <= base <= DAY24 && attempts <= later
    ensures 0 <= BoundedBackoff(base, attempts) <= BoundedBackoff(base, later) <= DAY24
  {
    BackoffIsCappedDoubling(base, attempts);
    BackoffIsCappedDoubling(base, later);
    var m, n := Shl(Doublings(attempts)), Shl(Doublings(later));
    ShlMonotone(Doublings(attempts), Doublings(later));
    MulMonotone(m, n, base);
    assert base * m <= base * n;
  }

  /** The bound on the base is what keeps the delay from wrapping to nothing. */
  lemma BackoffWrapsForHugeBase()
    ensures
      var base := 0x0040_0000_0000_0000;
      Int64(base) && BoundedBackoff(base, 11) == 0
  {
    assert Shl(10) == 1024;
  }
}
