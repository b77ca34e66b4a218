/** What the transactions do to jobs, rows and locks, column by column, and which call hands a
    row out first. */
module SchedulerRows {
  import opened Prelude
  import opened Recurrence
  import opened SchedulerModel
  import opened SchedulerSafety
  import opened SchedulerSlots
  import TimeText

  /******* Housekeeping *******/

  /** No lock of the job outlives the purge at `now`. */
  predicate Unlocked(le: Order, db: Db, id: string, now: int) {
    id !in db.locks || le(db.locks[id].expiresAt, now)
  }

  /** The purge, in columns: a running row whose job is unlocked goes back to pending or, without
      attempts left, dies; a pending row without attempts left dies; every other row stays.  Locks
      go exactly when they expire. */
  lemma PurgeInColumns(le: Order, db: Db, now: int, i: nat, id: string)
    requires i < |db.runs| && db.runs[i].jobId in db.jobs
    ensures
      var p, row := Purge(le, db, now), db.runs[i];
      var lost := row.state == Running && Unlocked(le, db, row.jobId, now);
      var spent := row.attempts >= db.jobs[row.jobId].maxAttempts;
      && p.jobs == db.jobs && p.order == db.order && |p.runs| == |db.runs|
      && p.runs[i] == (
           if lost && spent then row.(state := Dead, availableAt := now, finishedAt := Some(now))
           else if lost then row.(state := Pending, availableAt := now)
           else if row.state == Pending && spent then row.(state := Dead, finishedAt := Some(now))
           else row)
    ensures id in Purge(le, db, now).locks <==> id in db.locks && !Unlocked(le, db, id, now)
    ensures id in Purge(le, db, now).locks ==> Purge(le, db, now).locks[id] == db.locks[id]
  {
  }

  /******* Claims *******/

  /** A row that a claim hands out again: it was pending and its pause is over, or it was running
      under a lost lock; its job is neither cancelled nor locked, and it has attempts left. */
  lemma RetriedRun(le: Order, db: Db, owner: string, ttl: int, now: int)
    requires Inv(db)
    ensures
      var e := Claim(le, db, owner, ttl, now);
      e.run.Some? && e.run.value < |db.runs| ==>
        var i, row := e.run.value, db.runs[e.run.value];
        && row.jobId in db.jobs && db.jobs[row.jobId].cancelledAt.None? && Unlocked(le, db, row.jobId, now)
        && (row.state == Running || (row.state == Pending && le(row.availableAt, now)))
        && row.attempts < db.jobs[row.jobId].maxAttempts
        && i < |e.db.runs| == |db.runs|
        && e.db.runs[i] == row.(state := Running, attempts := row.attempts + 1, startedAt := Some(now),
                                availableAt := if row.state == Running then now else row.availableAt)
  {
    if owner != "" && ttl > 0 {
      var p := Purge(le, db, now);
      PurgeKeeps(le, db, now);
      var pending := PickPending(le, p, now, |p.runs|);
      if pending.Some? {
        PurgeInColumns(le, db, now, pending.value, db.runs[pending.value].jobId);
      }
    }
  }

  lemma DueInColumns(le: Order, db: Db, now: int, id: string)
    ensures Due(le, Purge(le, db, now), now, id) <==>
            && id in db.jobs && db.jobs[id].enabled && db.jobs[id].cancelledAt.None?
            && le(db.jobs[id].nextRun, now) && Unlocked(le, db, id, now)
  {
  }

  /** The row a claim adds: its job is enabled, not cancelled, due and unlocked; the row is a
      skipped one, handed to nobody, exactly when a recurring Skip job has missed its whole
      window, and otherwise a running one, handed out with its first attempt. */
  lemma AddedRun(le: Order, db: Db, owner: string, ttl: int, now: int)
    requires Inv(db)
    ensures
      var e := Claim(le, db, owner, ttl, now);
      && |db.runs| <= |e.db.runs| <= |db.runs| + 1
      && (|e.db.runs| == |db.runs| + 1 ==>
            var row := e.db.runs[|db.runs|];
            row.jobId in db.jobs &&
            var job := db.jobs[row.jobId];
            && job.enabled && job.cancelledAt.None? && le(job.nextRun, now) && Unlocked(le, db, row.jobId, now)
            && if job.kind == Recurring && job.missed == Skip && job.nextRun + job.every <= now
               then row == Run(row.jobId, job.nextRun, Skipped, 0, now, None, Some(now)) && e.run == None
               else row == Run(row.jobId, job.nextRun, Running, 1, now, Some(now), None) && e.run == Some(|db.runs|))
      && (e.run.Some? && e.run.value >= |db.runs| ==> e.run.value == |db.runs| && |e.db.runs| == |db.runs| + 1)
  {
    if owner != "" && ttl > 0 {
      var p := Purge(le, db, now);
      var due := PickDue(le, p, now, |p.order|);
      if due.Some? {
        DueInColumns(le, db, now, due.value);
      }
    }
  }

  /** Firing locks the job for its new run, for at least the TTL and a second more than the
      timeout; a slot that was missed or is taken leaves the locks as they were. */
  lemma FiringLocks(db: Db, id: string, owner: string, ttl: int, now: int)
    requires id in db.jobs && id !in db.locks
    ensures
      var e := Fire(db, id, owner, ttl, now);
      && (e.run == None ==> e.db.locks == db.locks)
      && (e.run != None ==>
            && id in e.db.locks && e.db.locks[id].owner == owner && e.db.locks - {id} == db.locks
            && e.db.locks[id].expiresAt >= now + ttl && e.db.locks[id].expiresAt >= now + db.jobs[id].timeout + 1_000_000_000
            && (e.db.locks[id].expiresAt == now + ttl || e.db.locks[id].expiresAt == now + db.jobs[id].timeout + 1_000_000_000))
  {
    var e := Fire(db, id, owner, ttl, now);
    if e.run != None {
      assert e.db.locks - {id} == db.locks;
    }
  }

  /** Waiting work is found: a row that is pending with its pause over, or running under a lost
      lock, with attempts left and its job neither cancelled nor locked, makes every valid claim
      hand out some run. */
  lemma WaitingRunIsFound(le: Order, db: Db, owner: string, ttl: int, now: int, i: nat)
    requires Inv(db) && owner != "" && ttl > 0 && i < |db.runs| && le(now, now)
    requires
      var row := db.runs[i];
      && db.jobs[row.jobId].cancelledAt.None? && Unlocked(le, db, row.jobId, now)
      && row.attempts < db.jobs[row.jobId].maxAttempts
      && (row.state == Running || (row.state == Pending && le(row.availableAt, now)))
    ensures Claim(le, db, owner, ttl, now).run.Some?
  {
    var p := Purge(le, db, now);
    PurgeInColumns(le, db, now, i, db.runs[i].jobId);
    assert Claimable(le, p, now, i);
  }

  /** A due job is served: when a job is enabled, due and unlocked, a valid claim hands out a run,
      or it moves some due job past a slot that was missed or is taken. */
  lemma DueJobIsServed(le: Order, db: Db, owner: string, ttl: int, now: int, id: string)
    requires Inv(db) && owner != "" && ttl > 0 && id in db.jobs
    requires db.jobs[id].enabled && db.jobs[id].cancelledAt.None? && le(db.jobs[id].nextRun, now) && Unlocked(le, db, id, now)
    ensures
      var e := Claim(le, db, owner, ttl, now);
      e.run.None? ==>
        exists first :: first in db.jobs && le(db.jobs[first].nextRun, now) && ServedWithoutRun(db, e.db, first, now)
  {
    var p := Purge(le, db, now);
    PurgeKeeps(le, db, now);
    DueInColumns(le, db, now, id);
    assert id in p.order;
    var e := Claim(le, db, owner, ttl, now);
    if e.run.None? {
      var due := PickDue(le, p, now, |p.order|);
      PurgeSlots(le, db, now);
      SameSlots(db.runs, p.runs, due.value, db.jobs[due.value].nextRun);
      assert ServedWithoutRun(db, e.db, due.value, now);
    }
  }

  /** The job's slot was missed or is taken, and the job has been moved on. */
  predicate ServedWithoutRun(db: Db, db': Db, id: string, now: int) {
    && id in db.jobs && id in db'.jobs
    && var job := db.jobs[id];
       && ((job.kind == Recurring && job.missed == Skip && job.nextRun + job.every <= now)
           || exists i :: 0 <= i < |db.runs| && db.runs[i].jobId == id && db.runs[i].slot == job.nextRun)
       && db'.jobs[id] == if job.kind == Recurring then job.(nextRun := NextRecurring(job.nextRun, job.every, now))
                          else job.(enabled := false)
  }

  lemma SameSlots(a: seq<Run>, b: seq<Run>, id: string, slot: int)
    requires |a| == |b| && forall i :: 0 <= i < |a| ==> a[i].jobId == b[i].jobId && a[i].slot == b[i].slot
    ensures HasSlot(a, id, slot) <==> HasSlot(b, id, slot)
  {
  }

  /******* Jobs *******/

  /** What one call does to a job: enabling changes only the flag and not of a cancelled job,
      cancelling disables for good and keeps the first time, firing moves a recurring job on and
      disables a one-time job, and nothing else touches it. */
  lemma JobInColumns(le: Order, db: Db, call: Call, id: string)
    requires Inv(db) && id in db.jobs
    ensures
      var job, jobs' := db.jobs[id], Step(le, db, call).db.jobs;
      && id in jobs'
      && jobs'[id] == (
           match call.event
           case ESetEnabled(other, enabled) => if other == id && job.cancelledAt.None? then job.(enabled := enabled) else job
           case ECancel(other) =>
             if other != id then job
             else job.(enabled := false, cancelledAt := Some(if job.cancelledAt.Some? then job.cancelledAt.value else call.now))
           case EClaim(_, _) =>
             if Fired(le, db, call) != Some(id) then job
             else if job.kind == Recurring then job.(nextRun := NextRecurring(job.nextRun, job.every, call.now))
             else job.(enabled := false)
           case _ => job)
  {
    if call.event.EClaim? {
      FiredInColumns(le, db, call, id);
    }
  }

  lemma FiredInColumns(le: Order, db: Db, call: Call, id: string)
    requires Inv(db) && call.event.EClaim? && id in db.jobs
    ensures
      var job, jobs' := db.jobs[id], Step(le, db, call).db.jobs;
      && id in jobs'
      && jobs'[id] == if Fired(le, db, call) != Some(id) then job
                      else if job.kind == Recurring then job.(nextRun := NextRecurring(job.nextRun, job.every, call.now))
                      else job.(enabled := false)
  {
  }

  /** What a call that is not a claim does to a row: only a call that names a running row ends or
      requeues it, cancelling takes the job's pending rows, and recovery the running rows whose
      job is unlocked. */
  lemma RowInColumns(le: Order, db: Db, call: Call, i: nat)
    requires Inv(db) && i < |db.runs| && !call.event.EClaim?
    ensures
      var row, runs', now := db.runs[i], Step(le, db, call).db.runs, call.now;
      && i < |runs'|
      && runs'[i] == (
           match call.event
           case EFinish(k, _, verdict) =>
             if k != i || row.state != Running then row
             else row.(state := match verdict case AsCompleted => Completed case AsDenied => Denied case AsCancelled => Cancelled,
                       finishedAt := Some(now))
           case EFail(k, _) =>
             if k != i || row.state != Running then row
             else if row.attempts >= db.jobs[row.jobId].maxAttempts
             then row.(state := Dead, availableAt := now, finishedAt := Some(now))
             else row.(state := Pending, finishedAt := None,
                       availableAt := now + BoundedBackoff(db.jobs[row.jobId].retryBackoff, row.attempts))
           case ERequeue(k, _) =>
             if k != i || row.state != Running then row
             else row.(state := Pending, attempts := row.attempts - 1, availableAt := now, startedAt := None)
           case ECancel(id) =>
             if row.jobId == id && row.state == Pending then row.(state := Cancelled, finishedAt := Some(now)) else row
           case ERecoverStale =>
             if row.state != Running || !Unlocked(le, db, row.jobId, now) then row
             else if db.jobs[row.jobId].cancelledAt != None
             then row.(state := Cancelled, availableAt := now, finishedAt := Some(now))
             else row.(state := Pending, availableAt := now, finishedAt := None)
           case _ => row)
  {
    assert RowValid(db.runs[i], db.jobs);
  }

  /** What a call that is not a claim does to a lock: recovery drops the expired ones, a call that
      names a run drops its job's lock if it speaks for the owner (to end a run it must be
      running, to requeue it need not), and nothing else touches it. */
  lemma LockInColumns(le: Order, db: Db, call: Call, id: string)
    requires Inv(db) && !call.event.EClaim?
    ensures
      var locks' := Step(le, db, call).db.locks;
      && (id in locks' ==> id in db.locks && locks'[id] == db.locks[id])
      && (id in db.locks && id !in locks' <==>
            id in db.locks &&
            match call.event
            case ERecoverStale => le(db.locks[id].expiresAt, call.now)
            case EFinish(k, owner, _) =>
              k < |db.runs| && db.runs[k].state == Running && db.runs[k].jobId == id && db.locks[id].owner == owner
            case EFail(k, owner) =>
              k < |db.runs| && db.runs[k].state == Running && db.runs[k].jobId == id && db.locks[id].owner == owner
            case ERequeue(k, owner) => k < |db.runs| && db.runs[k].jobId == id && db.locks[id].owner == owner
            case _ => false)
  {
    assert call.event.EFail? && call.event.run < |db.runs| ==> RowValid(db.runs[call.event.run], db.jobs);
  }

  /** A job comes in only by creation, with the defaults filled in, under a free id and key. */
  lemma CreatedInColumns(le: Order, db: Db, call: Call, id: string)
    requires Inv(db) && id !in db.jobs
    ensures
      var jobs' := Step(le, db, call).db.jobs;
      id in jobs' ==>
        && call.event.ECreate? && call.event.input.id == id && Normalize(call.event.input) == Some(jobs'[id])
        && forall other :: other in db.jobs ==> db.jobs[other].creationKey != jobs'[id].creationKey
  {
    if call.event.EClaim? {
      assert Step(le, db, call).db.jobs.Keys == db.jobs.Keys;
    }
  }

  predicate KeysUnique(db: Db) {
    forall a, b :: a in db.jobs && b in db.jobs && db.jobs[a].creationKey == db.jobs[b].creationKey ==> a == b
  }

  lemma StepKeepsKeys(le: Order, db: Db, call: Call)
    requires Inv(db) && KeysUnique(db)
    ensures KeysUnique(Step(le, db, call).db)
  {
    var db' := Step(le, db, call).db;
    forall a, b | a in db'.jobs && b in db'.jobs && db'.jobs[a].creationKey == db'.jobs[b].creationKey
      ensures a == b
    {
      KeyOrigin(le, db, call, a);
      KeyOrigin(le, db, call, b);
    }
  }

  lemma KeyOrigin(le: Order, db: Db, call: Call, id: string)
    requires Inv(db) && id in Step(le, db, call).db.jobs
    ensures
      var key := Step(le, db, call).db.jobs[id].creationKey;
      if id in db.jobs then key == db.jobs[id].creationKey
      else call.event.ECreate? && call.event.input.id == id
           && forall other :: other in db.jobs ==> db.jobs[other].creationKey != key
  {
    if id in db.jobs {
      JobInColumns(le, db, call, id);
    } else {
      CreatedInColumns(le, db, call, id);
    }
  }

  /** In every run no two jobs share a creation key. */
  lemma {:induction false} KeysUniqueInEveryRun(le: Order, db: Db, calls: seq<Call>)
    requires Inv(db) && KeysUnique(db)
    ensures KeysUnique(Exec(le, db, calls))
    decreases |calls|
  {
    if calls != [] {
      StepKeys(le, db, calls[0]);
      KeysUniqueInEveryRun(le, Step(le, db, calls[0]).db, calls[1..]);
    }
  }

  lemma StepKeys(le: Order, db: Db, call: Call)
    requires Inv(db) && KeysUnique(db)
    ensures Inv(Step(le, db, call).db) && KeysUnique(Step(le, db, call).db)
  {
    StepKeeps(le, db, call);
    StepKeepsKeys(le, db, call);
  }

  /** What a created job looks like: the defaults of the columns the caller left out, and the
      bounds on those it filled in. */
  lemma CreatedDefaults(input: NewJob)
    requires Normalize(input).Some?
    ensures
      var job := Normalize(input).value;
      && job.kind == (if input.kind == None then OneTime else input.kind.value)
      && job.missed == (if input.missed == None then RunOnce else input.missed.value)
      && job.maxAttempts == (if input.maxAttempts == 0 then 3 else input.maxAttempts) && 1 <= job.maxAttempts <= 20
      && job.retryBackoff == (if input.retryBackoff == 0 then 1_000_000_000 else input.retryBackoff)
      && 0 < job.retryBackoff <= 86_400_000_000_000
      && job.timeout == (if input.timeout == 0 then 60_000_000_000 else input.timeout) && 0 < job.timeout <= 86_400_000_000_000
      && job.creationKey == (if input.creationKey == "" then "create:" + input.id else input.creationKey)
      && |job.creationKey| <= 256 && job.cancelledAt == None
      && job.every == input.every && Some(job.nextRun) == input.nextRun && job.enabled == input.enabled
      && (job.kind == OneTime ==> job.every == 0)
      && (job.kind == Recurring ==> 0 < job.every <= 31_622_400_000_000_000)
  {
  }

  /** A submission is accepted exactly when its ids, time, interval and bounds are in order. */
  lemma AcceptedExactly(input: NewJob)
    ensures
      Normalize(input).Some? <==>
        && Identifier(input.id) && Identifier(input.skillId) && input.nextRun != None
        && (if input.kind == Some(Recurring) then 0 < input.every <= 31_622_400_000_000_000 else input.every == 0)
        && 0 <= input.maxAttempts <= 20 && 0 <= input.retryBackoff <= 86_400_000_000_000
        && 0 <= input.timeout <= 86_400_000_000_000
        && (if input.creationKey == "" then |input.id| <= 249 else |input.creationKey| <= 256)
  {
  }

  /******* The first hand-out *******/

  lemma ClaimKeepsSkipped(le: Order, db: Db, owner: string, ttl: int, now: int, i: nat)
    requires Inv(db) && i < |db.runs|
    ensures
      var e := Claim(le, db, owner, ttl, now);
      && i < |e.db.runs| && (e.db.runs[i].state == Skipped <==> db.runs[i].state == Skipped)
  {
  }

  lemma OtherCallsKeepSkipped(le: Order, db: Db, call: Call, i: nat)
    requires i < |db.runs| && !call.event.EClaim?
    ensures
      var e := Step(le, db, call);
      i < |e.db.runs| && (e.db.runs[i].state == Skipped <==> db.runs[i].state == Skipped) && e.run == None
  {
  }

  /** Which rows are skipped is settled when they are created. */
  lemma SkippedStays(le: Order, db: Db, call: Call, i: nat)
    requires Inv(db) && i < |db.runs|
    ensures
      var e := Step(le, db, call);
      && i < |e.db.runs| && (e.db.runs[i].state == Skipped <==> db.runs[i].state == Skipped)
      && (db.runs[i].state == Skipped ==> e.run != Some(i))
  {
    if call.event.EClaim? {
      ClaimKeepsSkipped(le, db, call.event.owner, call.event.ttl, call.now, i);
      RetriedRun(le, db, call.event.owner, call.event.ttl, call.now);
    } else {
      OtherCallsKeepSkipped(le, db, call, i);
    }
  }

  lemma {:induction false} OldRowHanded(le: Order, db: Db, calls: seq<Call>, i: nat)
    requires Inv(db) && i < |db.runs|
    ensures
      var after := Exec(le, db, calls);
      && i < |after.runs| && (after.runs[i].state == Skipped <==> db.runs[i].state == Skipped)
      && (db.runs[i].state == Skipped ==> HandedCount(le, db, calls, i) == 0)
    decreases |calls|
  {
    if calls != [] {
      SkippedStays(le, db, calls[0], i);
      StepKeeps(le, db, calls[0]);
      OldRowHanded(le, Step(le, db, calls[0]).db, calls[1..], i);
    }
  }

  lemma NewRowHanded(le: Order, db: Db, call: Call, i: nat)
    requires Inv(db) && i >= |db.runs|
    ensures
      var e := Step(le, db, call);
      && (i < |e.db.runs| ==> i == |db.runs| && (e.run == Some(i) <==> e.db.runs[i].state != Skipped))
      && (i >= |e.db.runs| ==> e.run != Some(i))
  {
    if call.event.EClaim? {
      AddedRun(le, db, call.event.owner, call.event.ttl, call.now);
    }
  }

  lemma {:induction false} HandedUnlessSkipped(le: Order, db: Db, calls: seq<Call>, i: nat)
    requires Inv(db) && |db.runs| <= i < |Exec(le, db, calls).runs|
    ensures HandedCount(le, db, calls, i) == 0 <==> Exec(le, db, calls).runs[i].state == Skipped
    decreases |calls|
  {
    if calls == [] {
      assert false;
    } else {
      var e := Step(le, db, calls[0]);
      StepKeeps(le, db, calls[0]);
      NewRowHanded(le, db, calls[0], i);
      if i < |e.db.runs| {
        OldRowHanded(le, e.db, calls[1..], i);
      } else {
        HandedUnlessSkipped(le, e.db, calls[1..], i);
      }
    }
  }

  /** In every run exactly the skipped rows are never handed out. */
  lemma NeverHandedExactly(le: Order, calls: seq<Call>, i: nat)
    requires i < |Exec(le, EMPTY, calls).runs|
    ensures HandedCount(le, EMPTY, calls, i) == 0 <==> Exec(le, EMPTY, calls).runs[i].state == Skipped
  {
    HandedUnlessSkipped(le, EMPTY, calls, i);
  }

  /** The first hand-out of a run is the call that creates its row. */
  lemma FirstHandOutCreates(le: Order, calls: seq<Call>, call: Call, i: nat)
    requires Step(le, Exec(le, EMPTY, calls), call).run == Some(i) && HandedCount(le, EMPTY, calls, i) == 0
    ensures i == |Exec(le, EMPTY, calls).runs|
  {
    var db := Exec(le, EMPTY, calls);
    ExecKeeps(le, EMPTY, calls);
    if i < |db.runs| {
      NeverHandedExactly(le, calls, i);
      SkippedStays(le, db, call, i);
    } else {
      NewRowHanded(le, db, call, i);
    }
  }

  /** Whole runs: whenever a call hands a run out for the first time, its time has come up to the
      text order (early exactly on inverted pairs, and by less than a second), and under Skip the
      next slot has not. */
  lemma FirstHandOutInWindow(calls: seq<Call>, call: Call, i: nat)
    requires TimeText.InRange(call.now)
    requires
      var db := Exec(TimeText.TextLeq, EMPTY, calls);
      && (forall id :: id in db.jobs ==> TimeText.InRange(db.jobs[id].nextRun))
      && Step(TimeText.TextLeq, db, call).run == Some(i) && HandedCount(TimeText.TextLeq, EMPTY, calls, i) == 0
    ensures
      var db, after := Exec(TimeText.TextLeq, EMPTY, calls), Step(TimeText.TextLeq, Exec(TimeText.TextLeq, EMPTY, calls), call).db;
      && i < |after.runs| && var run := after.runs[i];
         && run.jobId in db.jobs && run.slot == db.jobs[run.jobId].nextRun && DueByText(run.slot, call.now)
         && (db.jobs[run.jobId].kind.Recurring? && db.jobs[run.jobId].missed.Skip?
             ==> call.now < run.slot + db.jobs[run.jobId].every)
  {
    FirstHandOutCreates(TimeText.TextLeq, calls, call, i);
    ExecKeeps(TimeText.TextLeq, EMPTY, calls);
    FirstHandOutWindow(Exec(TimeText.TextLeq, EMPTY, calls), call.event.owner, call.event.ttl, call.now);
  }
}
