/** Leases: while a lock is unexpired and its owner has not let go, nobody else is
    handed a run of that job.  Also which run a claim picks. */
module SchedulerLease {
  import opened Prelude
  import opened SchedulerModel
  import opened SchedulerSafety
  import TimeText

  /******* Which run a claim picks *******/

  ghost predicate TotalPreorder(le: Order) {
    && (forall a, b :: le(a, b) || le(b, a))
    && (forall a, b, c {:trigger le(a, b), le(b, c)} :: le(a, b) && le(b, c) ==> le(a, c))
  }

  lemma TextIsTotalPreorder()
    ensures TotalPreorder(TimeText.TextLeq)
  {
    forall a, b, c
      ensures TimeText.TextLeq(a, b) || TimeText.TextLeq(b, a)
      ensures TimeText.TextLeq(a, b) && TimeText.TextLeq(b, c) ==> TimeText.TextLeq(a, c)
    {
      TimeText.TextLeqTotal(a, b, c);
    }
  }

  /** The retried run is the first by available time, and by id among equals. */
  lemma {:induction false} PickPendingIsFirst(le: Order, db: Db, now: int, n: nat, i: nat)
    requires TotalPreorder(le) && n <= |db.runs| && i < n && Claimable(le, db, now, i)
    ensures
      var best := PickPending(le, db, now, n);
      && best.Some?
      && le(db.runs[best.value].availableAt, db.runs[i].availableAt)
      && (le(db.runs[i].availableAt, db.runs[best.value].availableAt) ==> best.value <= i)
  {
    var before := PickPending(le, db, now, n - 1);
    if i < n - 1 {
      PickPendingIsFirst(le, db, now, n - 1, i);
    } else if before.Some? {
      var b := before.value;
      assert le(db.runs[b].availableAt, db.runs[i].availableAt) || le(db.runs[i].availableAt, db.runs[b].availableAt);
    }
  }

  /** The fired job is the first by next run, and by id among equals. */
  lemma PickDueIsFirst(le: Order, db: Db, now: int, n: nat, k: nat)
    requires TotalPreorder(le) && n <= |db.order| && k < n && Due(le, db, now, db.order[k])
    ensures
      var best := PickDue(le, db, now, n);
      && best.Some?
      && le(db.jobs[best.value].nextRun, db.jobs[db.order[k]].nextRun)
      && (best.value != db.order[k] && le(db.jobs[db.order[k]].nextRun, db.jobs[best.value].nextRun)
          ==> TimeText.LexLess(best.value, db.order[k]))
  {
    PickDuePrecedes(le, db, now, n, k);
    var a, b := db.jobs[PickDue(le, db, now, n).value].nextRun, db.jobs[db.order[k]].nextRun;
    assert le(a, b) || le(b, a);
  }

  lemma {:induction false} PickDuePrecedes(le: Order, db: Db, now: int, n: nat, k: nat)
    requires TotalPreorder(le) && n <= |db.order| && k < n && Due(le, db, now, db.order[k])
    ensures
      var best := PickDue(le, db, now, n);
      best.Some? && (best.value == db.order[k] || DueBefore(le, db.jobs, best.value, db.order[k]))
  {
    var before, id := PickDue(le, db, now, n - 1), db.order[n - 1];
    if k < n - 1 {
      PickDuePrecedes(le, db, now, n - 1, k);
      if Due(le, db, now, id) && DueBefore(le, db.jobs, id, before.value) {
        DueBeforeTransitive(le, db.jobs, id, before.value, db.order[k]);
      }
    } else if before.Some? {
      DueBeforeTotal(le, db.jobs, id, before.value);
    }
  }

  lemma DueBeforeTotal(le: Order, jobs: map<string, Job>, a: string, b: string)
    requires TotalPreorder(le) && a in jobs && b in jobs
    ensures a == b || DueBefore(le, jobs, a, b) || DueBefore(le, jobs, b, a)
  {
    TimeText.LexTotal(a, b);
    assert le(jobs[a].nextRun, jobs[b].nextRun) || le(jobs[b].nextRun, jobs[a].nextRun);
  }

  lemma DueBeforeTransitive(le: Order, jobs: map<string, Job>, a: string, b: string, c: string)
    requires TotalPreorder(le) && a in jobs && b in jobs && c in jobs
    requires DueBefore(le, jobs, a, b) && (b == c || DueBefore(le, jobs, b, c))
    ensures DueBefore(le, jobs, a, c)
  {
    var x, y, z := jobs[a].nextRun, jobs[b].nextRun, jobs[c].nextRun;
    assert le(x, y) || le(y, x);
    assert le(y, z) || le(z, y);
    assert le(x, z) || le(z, x);
    if b != c && TimeText.LexLess(a, b) && TimeText.LexLess(b, c) {
      TimeText.LexTransitive(a, b, c);
    }
  }

  /** A claim comes back empty-handed only if there was nothing to retry, and either
      no job is due or the first due job's window was missed or already taken. */
  lemma ClaimFindsWork(le: Order, db: Db, owner: string, ttl: int, now: int)
    requires Inv(db) && owner != "" && ttl > 0 && Claim(le, db, owner, ttl, now).run.None?
    ensures
      var p := Purge(le, db, now);
      && (forall i: nat :: !Claimable(le, p, now, i))
      && ((forall id :: id in p.jobs ==> !Due(le, p, now, id))
          || exists id :: id in p.jobs && Due(le, p, now, id)
               && (MissedWindow(p.jobs[id], now) || HasSlot(p.runs, id, p.jobs[id].nextRun)))
  {
    var p := Purge(le, db, now);
    PurgeKeeps(le, db, now);
    var due := PickDue(le, p, now, |p.order|);
    if due.Some? {
      assert due.value in p.jobs && Due(le, p, now, due.value);
    } else {
      forall id | id in p.jobs
        ensures !Due(le, p, now, id)
      {
        assert id in p.order;
      }
    }
  }

  /******* Leases *******/

  predicate Held(db: Db, id: string, owner: string, expiry: int) {
    id in db.locks && db.locks[id].owner == owner && db.locks[id].expiresAt == expiry
  }

  /** A claim gives the handed-out run's job to its owner for at least the lock TTL
      and for at least a second more than the job may execute. */
  lemma ClaimTakesLease(le: Order, db: Db, owner: string, ttl: int, now: int)
    requires Inv(db) && Claim(le, db, owner, ttl, now).run.Some?
    ensures
      var e := Claim(le, db, owner, ttl, now);
      && e.run.value < |e.db.runs| && e.db.runs[e.run.value].state.Running?
      && var id := e.db.runs[e.run.value].jobId;
         && id in db.jobs
         && Held(e.db, id, owner, now + LockTtl(db.jobs[id], ttl))
         && LockTtl(db.jobs[id], ttl) >= ttl && LockTtl(db.jobs[id], ttl) >= db.jobs[id].timeout + SECOND
  {
    PurgeKeeps(le, db, now);
  }

  /** The call ends or requeues a run of the job in the name of the lock's owner. */
  predicate LetsGo(runs: seq<Run>, call: Call, id: string, owner: string) {
    match call.event
    case EFinish(i, who, _) => i < |runs| && runs[i].jobId == id && who == owner
    case EFail(i, who) => i < |runs| && runs[i].jobId == id && who == owner
    case ERequeue(i, who) => i < |runs| && runs[i].jobId == id && who == owner
    case _ => false
  }

  lemma HeldThroughClaim(le: Order, db: Db, who: string, ttl: int, now: int, id: string, owner: string, expiry: int)
    requires Inv(db) && Held(db, id, owner, expiry) && !le(expiry, now)
    ensures
      var e := Claim(le, db, who, ttl, now);
      && Held(e.db, id, owner, expiry)
      && (forall i :: |db.runs| <= i < |e.db.runs| ==> e.db.runs[i].jobId != id)
      && (e.run.Some? ==> e.run.value < |e.db.runs| && e.db.runs[e.run.value].jobId != id)
  {
    if who != "" && ttl > 0 {
      var p := Purge(le, db, now);
      PurgeKeeps(le, db, now);
      assert Held(p, id, owner, expiry);
    }
  }

  lemma HeldThroughStep(le: Order, db: Db, call: Call, id: string, owner: string, expiry: int)
    requires Inv(db) && Held(db, id, owner, expiry)
    requires !le(expiry, call.now) && !LetsGo(db.runs, call, id, owner)
    ensures
      var e := Step(le, db, call);
      && Held(e.db, id, owner, expiry)
      && JobRows(e.db.runs, id) == JobRows(db.runs, id)
      && (e.run.Some? ==> e.run.value < |e.db.runs| && e.db.runs[e.run.value].jobId != id)
  {
    var e := Step(le, db, call);
    StepEffect(le, db, call);
    if call.event.EClaim? {
      HeldThroughClaim(le, db, call.event.owner, call.event.ttl, call.now, id, owner, expiry);
    }
    forall i: nat
      ensures i in JobRows(e.db.runs, id) <==> i in JobRows(db.runs, id)
    {
      if i < |db.runs| {
        assert Evolves(db.runs[i], e.db.runs[i]);
      }
    }
  }

  /** Lease safety: as long as no reading reaches the expiry and the owner lets no
      run of the job go, every continuation leaves the lock in place, creates no run
      of the job and hands none out. */
  lemma {:induction false} LeaseExcludesOthers(le: Order, db: Db, calls: seq<Call>, id: string, owner: string, expiry: int, i: nat)
    requires Inv(db) && Held(db, id, owner, expiry)
    requires forall k :: 0 <= k < |calls| ==> !le(expiry, calls[k].now) && !LetsGo(db.runs, calls[k], id, owner)
    ensures Held(Exec(le, db, calls), id, owner, expiry)
    ensures JobRows(Exec(le, db, calls).runs, id) == JobRows(db.runs, id)
    ensures i in JobRows(db.runs, id) ==> HandedCount(le, db, calls, i) == 0
    decreases |calls|
  {
    if calls != [] {
      HeldThroughStep(le, db, calls[0], id, owner, expiry);
      StepKeeps(le, db, calls[0]);
      var db' := Step(le, db, calls[0]).db;
      forall k | 0 <= k < |calls[1..]|
        ensures !LetsGo(db'.runs, calls[1..][k], id, owner)
      {
        SameRowsLetGo(db.runs, db'.runs, calls[k + 1], id, owner);
      }
      LeaseExcludesOthers(le, db', calls[1..], id, owner, expiry, i);
    }
  }

  lemma SameRowsLetGo(runs: seq<Run>, runs': seq<Run>, call: Call, id: string, owner: string)
    requires JobRows(runs, id) == JobRows(runs', id)
    ensures LetsGo(runs', call, id, owner) <==> LetsGo(runs, call, id, owner)
  {
    var i := match call.event
      case EFinish(i, _, _) => i case EFail(i, _) => i case ERequeue(i, _) => i case _ => 0;
    assert i in JobRows(runs, id) <==> i in JobRows(runs', id);
  }

  /******* Leases on the stored text *******/

  /** With the text comparison a lock can be purged early, but never in an earlier
      second than the one it expires in. */
  lemma TextLeaseLasts(expiry: int, now: int)
    requires TimeText.InRange(expiry) && TimeText.InRange(now) && now + SECOND <= expiry
    ensures !TimeText.TextLeq(expiry, now)
  {
    if TimeText.TextLeq(expiry, now) {
      TimeText.TextLeqWithinSecond(expiry, now);
    }
  }

  /** The lease in spite of the text order: from the claim until one second before the lock
      expires, no interleaving hands out any run of the job unless the owner lets go first.
      The second that acquireLock adds to the timeout makes this reach to the end of the
      execution. */
  lemma LeaseCoversExecution(db: Db, owner: string, ttl: int, t: int, calls: seq<Call>, i: nat)
    requires Inv(db) && Claim(TimeText.TextLeq, db, owner, ttl, t).run.Some?
    requires
      var e := Claim(TimeText.TextLeq, db, owner, ttl, t);
      && e.run.value < |e.db.runs|
      && var id := e.db.runs[e.run.value].jobId;
         && id in db.jobs && TimeText.InRange(t) && TimeText.InRange(t + LockTtl(db.jobs[id], ttl))
         && forall k :: 0 <= k < |calls| ==>
              t <= calls[k].now && calls[k].now + SECOND <= t + LockTtl(db.jobs[id], ttl) && !LetsGo(e.db.runs, calls[k], id, owner)
    ensures
      var e := Claim(TimeText.TextLeq, db, owner, ttl, t);
      var id := e.db.runs[e.run.value].jobId;
      && t + db.jobs[id].timeout + SECOND <= t + LockTtl(db.jobs[id], ttl)
      && JobRows(Exec(TimeText.TextLeq, e.db, calls).runs, id) == JobRows(e.db.runs, id)
      && (i in JobRows(e.db.runs, id) ==> HandedCount(TimeText.TextLeq, e.db, calls, i) == 0)
  {
    var le := TimeText.TextLeq;
    var e := Claim(le, db, owner, ttl, t);
    var id := e.db.runs[e.run.value].jobId;
    ClaimTakesLease(le, db, owner, ttl, t);
    ClaimKeeps(le, db, owner, ttl, t);
    var expiry := t + LockTtl(db.jobs[id], ttl);
    forall k | 0 <= k < |calls|
      ensures !le(expiry, calls[k].now)
    {
      TextLeaseLasts(expiry, calls[k].now);
    }
    LeaseExcludesOthers(le, e.db, calls, id, owner, expiry, i);
  }

  lemma PurgedIffReached(le: Order, locks: map<string, Lock>, id: string, now: int)
    requires id in locks
    ensures id in PurgeLocks(le, locks, now) <==> !le(locks[id].expiresAt, now)
  {
  }

  /** The full lease is not kept to the nanosecond: the purge drops a lock exactly at
      its expiry precisely when expiry and reading are not inverted in the text order,
      and TimeText.EightDigitsSortLate names inverted pairs in every second. */
  lemma PurgeExactly(locks: map<string, Lock>, id: string, now: int)
    requires id in locks && locks[id].expiresAt != now
    requires TimeText.InRange(locks[id].expiresAt) && TimeText.InRange(now)
    ensures
      (id in PurgeLocks(TimeText.TextLeq, locks, now) <==> now < locks[id].expiresAt)
      <==> !TimeText.Inverted(locks[id].expiresAt, now)
  {
    TimeText.TextLeqExact(locks[id].expiresAt, now);
    PurgedIffReached(TimeText.TextLeq, locks, id, now);
  }
}
