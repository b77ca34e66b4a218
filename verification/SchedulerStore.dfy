/** The scheduler store as the program has it: tables updated in place, one method a
    transaction, one assignment a statement.  `le` is the order of the stored time text. */
module SchedulerStore {
  import opened Prelude
  import opened Recurrence
  import opened SchedulerModel
  import opened SchedulerSafety
  import opened SchedulerLease

  class Store {
    var jobs: map<string, Job>
    var order: seq<string>
    var runs: seq<Run>
    var locks: map<string, Lock>
    const le: Order

    function State(): Db
      reads this
    {
      Db(jobs, order, runs, locks)
    }

    /** The program's store compares times by TimeText.TextLeq. */
    constructor (le: Order)
      ensures State() == EMPTY && Inv(State()) && this.le == le
    {
      jobs, order, runs, locks := map[], [], [], map[];
      this.le := le;
    }

    method CreateJob(input: NewJob) returns (created: bool)
      modifies this`jobs, this`order
      ensures State() == Create(old(State()), input)
      ensures created ==> Normalize(input).Some? && input.id !in old(jobs) && jobs == old(jobs)[input.id := Normalize(input).value]
      ensures !created ==> State() == old(State())
      ensures old(Inv(State())) ==> Inv(State())
    {
      var job := Normalize(input);
      if job.None? || input.id in jobs || exists id :: id in jobs && jobs[id].creationKey == job.value.creationKey {
        return false;
      }
      ghost var before := State();
      jobs := jobs[input.id := job.value];
      order := order + [input.id];
      created := true;
      if Inv(before) {
        CreateKeeps(before, input);
      }
    }

    method SetJobEnabled(id: string, enabled: bool) returns (found: bool)
      modifies this`jobs
      ensures State() == SetEnabled(old(State()), id, enabled)
      ensures found <==> id in old(jobs) && old(jobs)[id].cancelledAt.None?
      ensures jobs == if found then old(jobs)[id := old(jobs)[id].(enabled := enabled)] else old(jobs)
      ensures old(Inv(State())) ==> Inv(State())
    {
      found := id in jobs && jobs[id].cancelledAt.None?;
      ghost var before := State();
      if found {
        jobs := jobs[id := jobs[id].(enabled := enabled)];
      }
      if Inv(before) {
        SetEnabledKeeps(before, id, enabled);
      }
    }

    method CancelJobRuns(id: string, now: int) returns (found: bool)
      modifies this`jobs, this`runs
      ensures State() == Cancel(old(State()), id, now)
      ensures found <==> id in old(jobs)
      ensures found ==> IsCancelled(State(), id)
      ensures found ==> jobs == old(jobs)[id := old(jobs)[id].(enabled := false,
                          cancelledAt := Some(if old(jobs)[id].cancelledAt.Some? then old(jobs)[id].cancelledAt.value else now))]
      ensures |runs| == |old(runs)|
      ensures forall i :: 0 <= i < |runs| ==>
                runs[i] == (if found && old(runs)[i].jobId == id && old(runs)[i].state == Pending
                            then old(runs)[i].(state := Cancelled, finishedAt := Some(now)) else old(runs)[i])
      ensures old(Inv(State())) ==> Inv(State())
    {
      found := id in jobs;
      ghost var before := State();
      if found {
        jobs := jobs[id := CancelJob(jobs[id], now)];
        var rows := runs;
        runs := seq(|rows|, i requires 0 <= i < |rows| => CancelRow(rows[i], id, now));
        assert runs == Cancel(before, id, now).runs;
      }
      if Inv(before) {
        CancelKeeps(before, id, now);
      }
    }

    /** INSERT OR IGNORE into the lock table. */
    method AcquireLock(id: string, owner: string, ttl: int, now: int) returns (ok: bool)
      requires id in jobs
      modifies this`locks
      ensures ok <==> id !in old(locks)
      ensures locks == if ok then old(locks)[id := NewLock(jobs[id], owner, ttl, now)] else old(locks)
      ensures ok ==> locks[id].owner == owner && locks[id].expiresAt >= now + ttl
                     && locks[id].expiresAt >= now + jobs[id].timeout + 1_000_000_000
                     && (locks[id].expiresAt == now + ttl || locks[id].expiresAt == now + jobs[id].timeout + 1_000_000_000)
    {
      ok := id !in locks;
      if ok {
        locks := locks[id := NewLock(jobs[id], owner, ttl, now)];
      }
    }

    method ClaimPendingRun(owner: string, ttl: int, now: int) returns (run: Option<nat>)
      modifies this`runs, this`locks
      ensures run == PickPending(le, old(State()), now, |old(runs)|)
      ensures run.None? ==> State() == old(State())
      ensures run.Some? ==>
                && Claimable(le, old(State()), now, run.value)
                && State() == HandOut(old(State()), run.value, owner, ttl, now)
                && runs == old(runs)[run.value := old(runs)[run.value].(state := Running, attempts := old(runs)[run.value].attempts + 1,
                                                                startedAt := Some(now))]
    {
      run := PickPending(le, State(), now, |runs|);
      if run.Some? {
        var i := run.value;
        var ok := AcquireLock(runs[i].jobId, owner, ttl, now);
        assert ok;
        runs := runs[i := runs[i].(state := Running, attempts := runs[i].attempts + 1, startedAt := Some(now))];
      }
    }

    method ClaimDueJob(owner: string, ttl: int, now: int) returns (run: Option<nat>)
      modifies this
      ensures
        var due := PickDue(le, old(State()), now, |old(order)|);
        Effect(State(), run)
        == if due.Some? then Fire(old(State()), due.value, owner, ttl, now) else Effect(old(State()), None)
      ensures
        var due := PickDue(le, old(State()), now, |old(order)|);
        due.Some? ==>
          var id, job := due.value, old(jobs)[due.value];
          var missed := job.kind == Recurring && job.missed == Skip && job.nextRun + job.every <= now;
          var taken := exists i :: 0 <= i < |old(runs)| && old(runs)[i].jobId == id && old(runs)[i].slot == job.nextRun;
          if taken then runs == old(runs) && run == None
          else if missed then runs == old(runs) + [Run(id, job.nextRun, Skipped, 0, now, None, Some(now))] && run == None
          else runs == old(runs) + [Run(id, job.nextRun, Running, 1, now, Some(now), None)] && run == Some(|old(runs)|)
    {
      var due := PickDue(le, State(), now, |order|);
      if due.None? {
        return None;
      }
      var id := due.value;
      var job := jobs[id];
      var ok := AcquireLock(id, owner, ttl, now);
      assert ok;
      var taken := HasSlot(runs, id, job.nextRun);
      if job.kind.Recurring? && job.missed.Skip? && job.nextRun + job.every <= now {
        if !taken {
          runs := runs + [Run(id, job.nextRun, Skipped, 0, now, None, Some(now))];
        }
        jobs := jobs[id := job.(nextRun := NextRecurring(job.nextRun, job.every, now))];
        locks := Release(locks, id, owner);
        assert locks == old(locks);
        return None;
      }
      if job.kind.Recurring? {
        jobs := jobs[id := job.(nextRun := NextRecurring(job.nextRun, job.every, now))];
      } else {
        jobs := jobs[id := job.(enabled := false)];
      }
      if taken {
        locks := Release(locks, id, owner);
        assert locks == old(locks);
        return None;
      }
      runs := runs + [Run(id, job.nextRun, Running, 1, now, Some(now), None)];
      return Some(|runs| - 1);
    }

    method ClaimRun(owner: string, ttl: int, now: int) returns (run: Option<nat>)
      modifies this
      ensures Effect(State(), run) == Claim(le, old(State()), owner, ttl, now)
      ensures old(Inv(State())) ==> Inv(State())
      ensures old(Inv(State())) && run.Some? ==>
                && run.value < |runs| && runs[run.value].state.Running? && runs[run.value].jobId in jobs
                && runs[run.value].jobId in locks && locks[runs[run.value].jobId].owner == owner
    {
      if owner == "" || ttl <= 0 {
        return None;
      }
      ghost var before := State();
      var table, live := jobs, PurgeLocks(le, locks, now);
      locks := live;
      var rows := runs;
      rows := seq(|rows|, i requires 0 <= i < |rows| => RependRow(rows[i], live, now));
      runs := seq(|rows|, i requires 0 <= i < |rows| => ExhaustRow(rows[i], table, now));
      assert runs == Purge(le, before, now).runs;
      run := ClaimPendingRun(owner, ttl, now);
      if run.None? {
        run := ClaimDueJob(owner, ttl, now);
      }
      if Inv(before) {
        ClaimKeeps(le, before, owner, ttl, now);
        if run.Some? {
          ClaimTakesLease(le, before, owner, ttl, now);
        }
      }
    }

    /** DELETE the job's lock if the owner holds it. */
    method ReleaseLock(id: string, owner: string)
      modifies this`locks
      ensures locks == Release(old(locks), id, owner)
      ensures locks == if id in old(locks) && old(locks)[id].owner == owner then old(locks) - {id} else old(locks)
    {
      if id in locks && locks[id].owner == owner {
        locks := locks - {id};
      }
    }

    method FinishRun(i: nat, owner: string, verdict: Verdict, now: int) returns (ok: bool)
      modifies this`runs, this`locks
      ensures State() == Finish(old(State()), i, owner, verdict, now)
      ensures ok <==> i < |old(runs)| && old(runs)[i].state == Running
      ensures runs == if !ok then old(runs)
                      else old(runs)[i := old(runs)[i].(
                             state := match verdict case AsCompleted => Completed case AsDenied => Denied case AsCancelled => Cancelled,
                             finishedAt := Some(now))]
      ensures ok ==>
                var id := old(runs)[i].jobId;
                locks == if id in old(locks) && old(locks)[id].owner == owner then old(locks) - {id} else old(locks)
      ensures !(ok) ==> locks == old(locks)
      ensures old(Inv(State())) ==> Inv(State())
    {
      ok := IsRunning(State(), i);
      ghost var before := State();
      if ok {
        runs := runs[i := runs[i].(state := FinalState(verdict), finishedAt := Some(now))];
        ReleaseLock(runs[i].jobId, owner);
      }
      if Inv(before) {
        FinishKeeps(before, i, owner, verdict, now);
      }
    }

    method FailRun(i: nat, owner: string, now: int) returns (ok: bool)
      modifies this`runs, this`locks
      ensures State() == Fail(old(State()), i, owner, now)
      ensures ok <==> i < |old(runs)| && old(runs)[i].state == Running && old(runs)[i].jobId in jobs
      ensures ok ==>
                var row, job := old(runs)[i], jobs[old(runs)[i].jobId];
                runs == old(runs)[i :=
                  if row.attempts >= job.maxAttempts then row.(state := Dead, availableAt := now, finishedAt := Some(now))
                  else row.(state := Pending, availableAt := now + BoundedBackoff(job.retryBackoff, row.attempts), finishedAt := None)]
      ensures !ok ==> runs == old(runs)
      ensures ok ==>
                var id := old(runs)[i].jobId;
                locks == if id in old(locks) && old(locks)[id].owner == owner then old(locks) - {id} else old(locks)
      ensures !(ok) ==> locks == old(locks)
      ensures old(Inv(State())) ==> Inv(State())
    {
      ok := IsRunning(State(), i) && runs[i].jobId in jobs;
      ghost var before := State();
      if ok {
        var run, job := runs[i], jobs[runs[i].jobId];
        var state, finished, available := Pending, None, now;
        if run.attempts >= job.maxAttempts {
          state, finished := Dead, Some(now);
        } else {
          available := now + BoundedBackoff(job.retryBackoff, run.attempts);
        }
        runs := runs[i := run.(state := state, availableAt := available, finishedAt := finished)];
        ReleaseLock(run.jobId, owner);
      }
      if Inv(before) {
        FailKeeps(before, i, owner, now);
      }
    }

    method RequeueRun(i: nat, owner: string, now: int)
      modifies this`runs, this`locks
      ensures State() == Requeue(old(State()), i, owner, now)
      ensures i < |old(runs)| && old(runs)[i].state == Running ==>
                runs == old(runs)[i := old(runs)[i].(state := Pending, availableAt := now, startedAt := None,
                                    attempts := if old(runs)[i].attempts > 0 then old(runs)[i].attempts - 1 else 0)]
      ensures !(i < |old(runs)| && old(runs)[i].state == Running) ==> runs == old(runs)
      ensures i < |old(runs)| ==>
                var id := old(runs)[i].jobId;
                locks == if id in old(locks) && old(locks)[id].owner == owner then old(locks) - {id} else old(locks)
      ensures !(i < |old(runs)|) ==> locks == old(locks)
      ensures old(Inv(State())) ==> Inv(State())
    {
      ghost var before := State();
      if IsRunning(State(), i) {
        var attempts := if runs[i].attempts > 0 then runs[i].attempts - 1 else 0;
        runs := runs[i := runs[i].(state := Pending, attempts := attempts, availableAt := now, startedAt := None)];
      }
      if i < |runs| {
        ReleaseLock(runs[i].jobId, owner);
        assert runs == Requeue(before, i, owner, now).runs;
      }
      if Inv(before) {
        RequeueKeeps(before, i, owner, now);
      }
    }

    method RecoverStaleRuns(now: int)
      modifies this`runs, this`locks
      ensures State() == RecoverStale(le, old(State()), now)
      ensures forall id :: id in locks <==> id in old(locks) && !le(old(locks)[id].expiresAt, now)
      ensures forall id :: id in locks ==> locks[id] == old(locks)[id]
      ensures |runs| == |old(runs)|
      ensures forall i :: 0 <= i < |runs| ==>
                var row := old(runs)[i];
                runs[i] == (if row.state != Running || row.jobId in locks then row
                            else if row.jobId in jobs && jobs[row.jobId].cancelledAt != None
                            then row.(state := Cancelled, availableAt := now, finishedAt := Some(now))
                            else row.(state := Pending, availableAt := now, finishedAt := None))
      ensures old(Inv(State())) ==> Inv(State())
    {
      ghost var before := State();
      var table, rows, live := jobs, runs, PurgeLocks(le, locks, now);
      locks := live;
      runs := seq(|rows|, i requires 0 <= i < |rows| => RecoverRow(rows[i], table, live, now));
      assert runs == RecoverStale(le, before, now).runs;
      if Inv(before) {
        RecoverKeeps(le, before, now);
      }
    }
  }

  /******* The worker *******/

  /** How an executor call came back. */
  datatype Outcome = Succeeded | Interrupted | Failed

  /** The one transaction the worker ends its attempt with. */
  function Ending(i: nat, owner: string, authorized: bool, outcome: Outcome, jobCancelled: bool): Event {
    if !authorized then EFinish(i, owner, AsDenied)
    else match outcome
      case Succeeded => EFinish(i, owner, AsCompleted)
      case Interrupted => if jobCancelled then EFinish(i, owner, AsCancelled) else ERequeue(i, owner)
      case Failed => EFail(i, owner)
  }

  /** The call ends or requeues run `i`, in whoever's name. */
  predicate Names(call: Call, i: nat) {
    match call.event
    case EFinish(k, _, _) => k == i
    case EFail(k, _) => k == i
    case ERequeue(k, _) => k == i
    case _ => false
  }

  lemma HeldThroughClaimRow(le: Order, db: Db, who: string, ttl: int, now: int, i: nat, owner: string, expiry: int)
    requires Inv(db) && IsRunning(db, i) && Held(db, db.runs[i].jobId, owner, expiry) && !le(expiry, now)
    ensures
      var after := Claim(le, db, who, ttl, now).db;
      i < |after.runs| && after.runs[i] == db.runs[i]
  {
    if who != "" && ttl > 0 {
      PurgeRow(le, db, now, i);
      assert Purge(le, db, now).runs[i] == db.runs[i];
    }
  }

  /** A run whose lock is held is touched by nothing but a call that names it. */
  lemma HeldRunStays(le: Order, db: Db, call: Call, i: nat, owner: string, expiry: int)
    requires Inv(db) && IsRunning(db, i) && Held(db, db.runs[i].jobId, owner, expiry)
    requires !le(expiry, call.now) && !Names(call, i)
    ensures i < |Step(le, db, call).db.runs| && Step(le, db, call).db.runs[i] == db.runs[i]
  {
    if call.event.EClaim? {
      HeldThroughClaimRow(le, db, call.event.owner, call.event.ttl, call.now, i, owner, expiry);
    }
  }

  /** Until its lease expires, a run stays exactly as it was handed out, through every
      interleaving in which nobody names it and its owner lets no other run of the job
      go; so the worker's own ending always finds it running. */
  lemma {:induction false} WorkerFindsItsRun(le: Order, db: Db, calls: seq<Call>, i: nat, owner: string, expiry: int)
    requires Inv(db) && IsRunning(db, i) && Held(db, db.runs[i].jobId, owner, expiry)
    requires forall k :: 0 <= k < |calls| ==>
               && !le(expiry, calls[k].now) && !Names(calls[k], i)
               && !LetsGo(db.runs, calls[k], db.runs[i].jobId, owner)
    ensures
      var after := Exec(le, db, calls);
      i < |after.runs| && after.runs[i] == db.runs[i] && Held(after, db.runs[i].jobId, owner, expiry) && Inv(after)
    decreases |calls|
  {
    if calls != [] {
      var id := db.runs[i].jobId;
      HeldRunStays(le, db, calls[0], i, owner, expiry);
      HeldThroughStep(le, db, calls[0], id, owner, expiry);
      StepKeeps(le, db, calls[0]);
      var db' := Step(le, db, calls[0]).db;
      forall k | 0 <= k < |calls[1..]|
        ensures !LetsGo(db'.runs, calls[1..][k], id, owner)
      {
        SameRowsLetGo(db.runs, db'.runs, calls[k + 1], id, owner);
      }
      WorkerFindsItsRun(le, db', calls[1..], i, owner, expiry);
    }
  }

  /** Whatever the executor did, the worker's ending takes its run out of the running
      state and frees the job; an attempt is used up unless it was an interruption. */
  lemma EndingSettlesRun(le: Order, db: Db, i: nat, owner: string, expiry: int, authorized: bool, outcome: Outcome,
                         jobCancelled: bool, now: int)
    requires Inv(db) && IsRunning(db, i) && Held(db, db.runs[i].jobId, owner, expiry)
    ensures
      var db' := Step(le, db, Call(Ending(i, owner, authorized, outcome, jobCancelled), now)).db;
      var id := db.runs[i].jobId;
      && i < |db'.runs| && !db'.runs[i].state.Running? && id !in db'.locks
      && (authorized && outcome.Succeeded? <==> db'.runs[i].state.Completed?)
      && (!authorized <==> db'.runs[i].state.Denied?)
      && (authorized && outcome.Failed? && db.runs[i].attempts == db.jobs[id].maxAttempts <==> db'.runs[i].state.Dead?)
      && (authorized && outcome.Interrupted? && jobCancelled <==> db'.runs[i].state.Cancelled?)
      && (authorized && outcome.Failed? && db.runs[i].attempts < db.jobs[id].maxAttempts ==>
            db'.runs[i].availableAt == now + BoundedBackoff(db.jobs[id].retryBackoff, db.runs[i].attempts))
      && db'.runs[i].attempts
         == db.runs[i].attempts - Count(authorized && outcome.Interrupted? && !jobCancelled)
  {
    assert RowValid(db.runs[i], db.jobs);
  }
}
