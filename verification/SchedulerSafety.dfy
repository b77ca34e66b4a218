/** What every transaction keeps, and what therefore holds after any sequence of
    transactions by any owners at any clock readings, under any text order. */
module SchedulerSafety {
  import opened Prelude
  import opened SchedulerModel

  /******* Invariants *******/

  predicate JobsValid(db: Db) {
    forall id :: id in db.jobs ==> ValidJob(db.jobs[id])
  }

  /** The foreign key, and the attempt budget of every row. */
  predicate RowsValid(db: Db) {
    forall i :: 0 <= i < |db.runs| ==> RowValid(db.runs[i], db.jobs)
  }

  predicate RowValid(run: Run, jobs: map<string, Job>) {
    && run.jobId in jobs
    && 0 <= run.attempts <= jobs[run.jobId].maxAttempts
    && (run.state.Running? ==> run.attempts >= 1)
  }

  predicate OneRunningPerJob(db: Db) {
    forall i, j :: 0 <= i < j < |db.runs| && db.runs[i].state.Running? && db.runs[j].state.Running?
      ==> db.runs[i].jobId != db.runs[j].jobId
  }

  predicate DistinctSlots(db: Db) {
    forall i, j :: 0 <= i < j < |db.runs| && db.runs[i].jobId == db.runs[j].jobId
      ==> db.runs[i].slot != db.runs[j].slot
  }

  /** A one-time job only ever fires for the time it was created with. */
  predicate OneTimeSlots(db: Db) {
    forall i :: 0 <= i < |db.runs| && db.runs[i].jobId in db.jobs && db.jobs[db.runs[i].jobId].kind.OneTime?
      ==> db.runs[i].slot == db.jobs[db.runs[i].jobId].nextRun
  }

  ghost predicate OrderListsJobs(db: Db) {
    forall id :: id in db.jobs <==> id in db.order
  }

  ghost predicate Inv(db: Db) {
    && JobsValid(db) && RowsValid(db) && OneRunningPerJob(db) && DistinctSlots(db) && OneTimeSlots(db)
    && OrderListsJobs(db)
  }

  predicate Terminal(state: RunState) {
    state.Completed? || state.Dead? || state.Denied? || state.Cancelled? || state.Skipped?
  }

  /******* The housekeeping at the head of a claim *******/

  lemma PurgeRow(le: Order, db: Db, now: int, i: nat)
    requires i < |db.runs|
    ensures
      var p := Purge(le, db, now);
      && p.runs[i].jobId == db.runs[i].jobId && p.runs[i].slot == db.runs[i].slot
      && p.runs[i].attempts == db.runs[i].attempts
      && (Terminal(db.runs[i].state) ==> p.runs[i] == db.runs[i])
      && (p.runs[i].state.Running? ==> p.runs[i] == db.runs[i] && db.runs[i].state.Running? && p.runs[i].jobId in p.locks)
      && (p.runs[i].state.Pending? && p.runs[i].jobId in p.jobs ==> p.runs[i].attempts < p.jobs[p.runs[i].jobId].maxAttempts)
  {
  }

  /** After the purge a running row's job is locked: the fact both claim paths rest on. */
  lemma PurgeKeeps(le: Order, db: Db, now: int)
    requires Inv(db)
    ensures Inv(Purge(le, db, now))
    ensures
      var p := Purge(le, db, now);
      forall i :: 0 <= i < |p.runs| && p.runs[i].state.Running? ==> p.runs[i].jobId in p.locks
  {
    var p := Purge(le, db, now);
    forall i | 0 <= i < |p.runs|
      ensures RowValid(p.runs[i], p.jobs)
      ensures p.runs[i].state.Running? ==> p.runs[i].jobId in p.locks
    {
      PurgeRow(le, db, now, i);
    }
    forall i, j | 0 <= i < j < |p.runs| && p.runs[i].state.Running? && p.runs[j].state.Running?
      ensures p.runs[i].jobId != p.runs[j].jobId
    {
      PurgeRow(le, db, now, i);
      PurgeRow(le, db, now, j);
    }
  }

  /******* Each transaction keeps the invariant *******/

  lemma HandOutKeeps(le: Order, db: Db, i: nat, owner: string, ttl: int, now: int)
    requires Inv(db) && Claimable(le, db, now, i)
    requires db.runs[i].attempts < db.jobs[db.runs[i].jobId].maxAttempts
    requires forall k :: 0 <= k < |db.runs| && db.runs[k].state.Running? ==> db.runs[k].jobId in db.locks
    ensures Inv(HandOut(db, i, owner, ttl, now))
  {
  }

  lemma AdvanceKeepsJobs(db: Db, id: string, now: int)
    requires Inv(db) && id in db.jobs
    ensures Inv(db.(jobs := db.jobs[id := Advance(db.jobs[id], now)]))
  {
  }

  lemma FireKeeps(le: Order, db: Db, id: string, owner: string, ttl: int, now: int)
    requires Inv(db) && Due(le, db, now, id)
    requires forall k :: 0 <= k < |db.runs| && db.runs[k].state.Running? ==> db.runs[k].jobId in db.locks
    ensures Inv(Fire(db, id, owner, ttl, now).db)
  {
    AdvanceKeepsJobs(db, id, now);
  }

  lemma ClaimKeeps(le: Order, db: Db, owner: string, ttl: int, now: int)
    requires Inv(db)
    ensures Inv(Claim(le, db, owner, ttl, now).db)
  {
    if owner != "" && ttl > 0 {
      var p := Purge(le, db, now);
      PurgeKeeps(le, db, now);
      match PickPending(le, p, now, |p.runs|)
      case Some(i) =>
        PurgeRow(le, db, now, i);
        HandOutKeeps(le, p, i, owner, ttl, now);
      case None =>
        match PickDue(le, p, now, |p.order|)
        case Some(id) => FireKeeps(le, p, id, owner, ttl, now);
        case None =>
    }
  }

  lemma CreateKeeps(db: Db, input: NewJob)
    requires Inv(db)
    ensures Inv(Create(db, input))
  {
    assert forall id :: id in db.order + [input.id] <==> id in db.order || id == input.id;
  }

  lemma SetEnabledKeeps(db: Db, id: string, enabled: bool)
    requires Inv(db)
    ensures Inv(SetEnabled(db, id, enabled))
  {
  }

  lemma CancelKeeps(db: Db, id: string, now: int)
    requires Inv(db)
    ensures Inv(Cancel(db, id, now))
  {
  }

  /** Rewriting one row keeps the invariant if the row stays in its slot and within
      its budget and does not start running. */
  lemma RowUpdateKeeps(db: Db, i: nat, row: Run, locks: map<string, Lock>)
    requires Inv(db) && i < |db.runs| && RowValid(row, db.jobs)
    requires row.jobId == db.runs[i].jobId && row.slot == db.runs[i].slot
    requires row.state.Running? ==> db.runs[i].state.Running?
    ensures Inv(db.(runs := db.runs[i := row], locks := locks))
  {
  }

  lemma FinishKeeps(db: Db, i: nat, owner: string, v: Verdict, now: int)
    requires Inv(db)
    ensures Inv(Finish(db, i, owner, v, now))
  {
    if IsRunning(db, i) {
      var db' := Finish(db, i, owner, v, now);
      RowUpdateKeeps(db, i, db'.runs[i], db'.locks);
    }
  }

  lemma FailKeeps(db: Db, i: nat, owner: string, now: int)
    requires Inv(db)
    ensures Inv(Fail(db, i, owner, now))
  {
    if IsRunning(db, i) {
      var db' := Fail(db, i, owner, now);
      RowUpdateKeeps(db, i, db'.runs[i], db'.locks);
    }
  }

  lemma RequeueKeeps(db: Db, i: nat, owner: string, now: int)
    requires Inv(db)
    ensures Inv(Requeue(db, i, owner, now))
  {
    if i < |db.runs| {
      var db' := Requeue(db, i, owner, now);
      RowUpdateKeeps(db, i, db'.runs[i], db'.locks);
    }
  }

  lemma RecoverKeeps(le: Order, db: Db, now: int)
    requires Inv(db)
    ensures Inv(RecoverStale(le, db, now))
  {
  }

  lemma StepKeeps(le: Order, db: Db, call: Call)
    requires Inv(db)
    ensures Inv(Step(le, db, call).db)
  {
    match call.event
    case ECreate(input) => CreateKeeps(db, input);
    case ESetEnabled(id, enabled) => SetEnabledKeeps(db, id, enabled);
    case ECancel(id) => CancelKeeps(db, id, call.now);
    case EClaim(owner, ttl) => ClaimKeeps(le, db, owner, ttl, call.now);
    case EFinish(run, owner, verdict) => FinishKeeps(db, run, owner, verdict, call.now);
    case EFail(run, owner) => FailKeeps(db, run, owner, call.now);
    case ERequeue(run, owner) => RequeueKeeps(db, run, owner, call.now);
    case ERecoverStale => RecoverKeeps(le, db, call.now);
  }

  lemma {:induction false} ExecKeeps(le: Order, db: Db, calls: seq<Call>)
    requires Inv(db)
    ensures Inv(Exec(le, db, calls))
    decreases |calls|
  {
    if calls != [] {
      StepKeeps(le, db, calls[0]);
      ExecKeeps(le, Step(le, db, calls[0]).db, calls[1..]);
    }
  }

  /** Over every interleaving: at most one running run per job, attempts within the
      job's budget and at least one while running, and no slot used twice. */
  lemma SafeInEveryRun(le: Order, calls: seq<Call>)
    ensures
      var db := Exec(le, EMPTY, calls);
      && OneRunningPerJob(db) && DistinctSlots(db)
      && forall i :: 0 <= i < |db.runs| ==>
           db.runs[i].jobId in db.jobs && 0 <= db.runs[i].attempts <= db.jobs[db.runs[i].jobId].maxAttempts <= 20
           && (db.runs[i].state.Running? ==> db.runs[i].attempts >= 1)
  {
    ExecKeeps(le, EMPTY, calls);
    var db := Exec(le, EMPTY, calls);
    forall i | 0 <= i < |db.runs|
      ensures RowValid(db.runs[i], db.jobs) && ValidJob(db.jobs[db.runs[i].jobId])
    {
    }
  }

  /** A one-time job has at most one run row ever, even if it is enabled again. */
  lemma OneTimeFiresOnce(le: Order, calls: seq<Call>, i: nat, j: nat)
    requires
      var db := Exec(le, EMPTY, calls);
      && i < |db.runs| && j < |db.runs| && db.runs[i].jobId == db.runs[j].jobId
      && db.runs[i].jobId in db.jobs && db.jobs[db.runs[i].jobId].kind.OneTime?
    ensures i == j
  {
    ExecKeeps(le, EMPTY, calls);
  }

  /******* How one transaction changes a row *******/

  /** Rows keep their job and slot, and a row in a final state never changes at all. */
  predicate Evolves(r: Run, r': Run) {
    r'.jobId == r.jobId && r'.slot == r.slot && (Terminal(r.state) ==> r' == r)
  }

  predicate Grows(db: Db, db': Db) {
    |db.runs| <= |db'.runs| && forall i :: 0 <= i < |db.runs| ==> Evolves(db.runs[i], db'.runs[i])
  }

  function AttemptsOf(db: Db, i: nat): int {
    if i < |db.runs| then db.runs[i].attempts else 0
  }

  /** The call gives a running run back without using up its attempt. */
  predicate GivesBack(db: Db, call: Call, i: nat) {
    call.event.ERequeue? && call.event.run == i && IsRunning(db, i)
  }

  lemma ClaimEffect(le: Order, db: Db, owner: string, ttl: int, now: int)
    requires Inv(db)
    ensures
      var e := Claim(le, db, owner, ttl, now);
      Grows(db, e.db) && forall i: nat :: AttemptsOf(e.db, i) == AttemptsOf(db, i) + Count(e.run == Some(i))
  {
    var e := Claim(le, db, owner, ttl, now);
    if owner != "" && ttl > 0 {
      var p := Purge(le, db, now);
      forall i: nat
        ensures i < |db.runs| ==> i < |e.db.runs| && Evolves(db.runs[i], e.db.runs[i])
        ensures AttemptsOf(e.db, i) == AttemptsOf(db, i) + Count(e.run == Some(i))
      {
        if i < |db.runs| {
          PurgeRow(le, db, now, i);
        }
      }
    }
  }

  lemma StepEffect(le: Order, db: Db, call: Call)
    requires Inv(db)
    ensures
      var e := Step(le, db, call);
      && Grows(db, e.db)
      && forall i: nat :: AttemptsOf(e.db, i) + Count(GivesBack(db, call, i)) == AttemptsOf(db, i) + Count(e.run == Some(i))
  {
    if call.event.EClaim? {
      ClaimEffect(le, db, call.event.owner, call.event.ttl, call.now);
    }
  }

  /** How often a sequence of calls hands run `i` to a worker. */
  function HandedCount(le: Order, db: Db, calls: seq<Call>, i: nat): nat
    decreases |calls|
  {
    if calls == [] then 0
    else
      var e := Step(le, db, calls[0]);
      Count(e.run == Some(i)) + HandedCount(le, e.db, calls[1..], i)
  }

  /** How often it is given back by an effective Requeue. */
  function GivenBackCount(le: Order, db: Db, calls: seq<Call>, i: nat): nat
    decreases |calls|
  {
    if calls == [] then 0
    else Count(GivesBack(db, calls[0], i)) + GivenBackCount(le, Step(le, db, calls[0]).db, calls[1..], i)
  }

  lemma {:induction false} AttemptsAlong(le: Order, db: Db, calls: seq<Call>, i: nat)
    requires Inv(db)
    ensures
      AttemptsOf(Exec(le, db, calls), i) + GivenBackCount(le, db, calls, i)
      == AttemptsOf(db, i) + HandedCount(le, db, calls, i)
    decreases |calls|
  {
    if calls != [] {
      StepEffect(le, db, calls[0]);
      StepKeeps(le, db, calls[0]);
      AttemptsAlong(le, Step(le, db, calls[0]).db, calls[1..], i);
    }
  }

  /** Attempt conservation: a run row has been handed out exactly as often as it has
      attempts plus effective requeues, whatever happened in between. */
  lemma AttemptConservation(le: Order, calls: seq<Call>, i: nat)
    requires i < |Exec(le, EMPTY, calls).runs|
    ensures
      HandedCount(le, EMPTY, calls, i)
      == Exec(le, EMPTY, calls).runs[i].attempts + GivenBackCount(le, EMPTY, calls, i)
  {
    AttemptsAlong(le, EMPTY, calls, i);
  }

  /** Final states absorb: such a row is never written again. */
  lemma {:induction false} FinalStatesAbsorb(le: Order, db: Db, calls: seq<Call>, i: nat)
    requires Inv(db) && i < |db.runs|
    ensures i < |Exec(le, db, calls).runs| && Evolves(db.runs[i], Exec(le, db, calls).runs[i])
    decreases |calls|
  {
    if calls != [] {
      StepEffect(le, db, calls[0]);
      StepKeeps(le, db, calls[0]);
      FinalStatesAbsorb(le, Step(le, db, calls[0]).db, calls[1..], i);
    }
  }

  /******* Cancellation *******/

  predicate IsCancelled(db: Db, id: string) {
    id in db.jobs && db.jobs[id].cancelledAt.Some?
  }

  function JobRows(runs: seq<Run>, id: string): set<nat> {
    set i | 0 <= i < |runs| && runs[i].jobId == id
  }

  lemma CancelledClaim(le: Order, db: Db, owner: string, ttl: int, now: int, id: string)
    requires Inv(db) && IsCancelled(db, id)
    ensures
      var e := Claim(le, db, owner, ttl, now);
      && IsCancelled(e.db, id)
      && (forall i :: |db.runs| <= i < |e.db.runs| ==> e.db.runs[i].jobId != id)
      && (e.run.Some? ==> e.run.value < |e.db.runs| && e.db.runs[e.run.value].jobId != id)
  {
    if owner != "" && ttl > 0 {
      var p := Purge(le, db, now);
      PurgeKeeps(le, db, now);
      assert p.jobs == db.jobs;
    }
  }

  lemma CancelledStep(le: Order, db: Db, call: Call, id: string)
    requires Inv(db) && IsCancelled(db, id)
    ensures
      var e := Step(le, db, call);
      && IsCancelled(e.db, id)
      && JobRows(e.db.runs, id) == JobRows(db.runs, id)
      && (e.run.Some? ==> e.run.value < |e.db.runs| && e.db.runs[e.run.value].jobId != id)
  {
    var e := Step(le, db, call);
    StepEffect(le, db, call);
    if call.event.EClaim? {
      CancelledClaim(le, db, call.event.owner, call.event.ttl, call.now, id);
    }
    forall i: nat
      ensures i in JobRows(e.db.runs, id) <==> i in JobRows(db.runs, id)
    {
      if i < |db.runs| {
        assert Evolves(db.runs[i], e.db.runs[i]);
      }
    }
  }

  /** Once a job is cancelled, no continuation hands out or creates a run of it. */
  lemma {:induction false} CancelledForGood(le: Order, db: Db, calls: seq<Call>, id: string, i: nat)
    requires Inv(db) && IsCancelled(db, id)
    ensures IsCancelled(Exec(le, db, calls), id)
    ensures JobRows(Exec(le, db, calls).runs, id) == JobRows(db.runs, id)
    ensures i in JobRows(db.runs, id) ==> HandedCount(le, db, calls, i) == 0
    decreases |calls|
  {
    if calls != [] {
      CancelledStep(le, db, calls[0], id);
      StepEffect(le, db, calls[0]);
      StepKeeps(le, db, calls[0]);
      CancelledForGood(le, Step(le, db, calls[0]).db, calls[1..], id, i);
    }
  }

  /** Cancel takes effect at once, and takes every waiting run of the job with it. */
  lemma CancelTakesEffect(db: Db, id: string, now: int)
    requires Inv(db) && id in db.jobs
    ensures
      var db' := Cancel(db, id, now);
      && IsCancelled(db', id) && !db'.jobs[id].enabled
      && (forall i :: 0 <= i < |db'.runs| && db'.runs[i].jobId == id ==> !db'.runs[i].state.Pending?)
      && (forall i :: 0 <= i < |db.runs| && db.runs[i].jobId != id ==> db'.runs[i] == db.runs[i])
  {
  }
}
