/** The scheduler's three tables and the effect of each transaction on them.

    Every comparison of stored times goes through `le`, the order in which SQLite
    sorts the stored time text: `le(a, b)` stands for the SQL test `a <= b`.  Row
    ids of `scheduled_runs` are positions in `runs`: rows are only ever appended. */
module SchedulerModel {
  import opened Prelude
  import opened Recurrence
  import TimeText

  const MINUTE: int := 60 * SECOND
  const INTERVAL_LIMIT: int := 366 * DAY24

  datatype Kind = OneTime | Recurring
  datatype Missed = Skip | RunOnce
  datatype RunState = Pending | Running | Completed | Dead | Denied | Cancelled | Skipped

  datatype Job = Job(kind: Kind, every: int, nextRun: int, enabled: bool, missed: Missed, maxAttempts: int,
                     retryBackoff: int, timeout: int, creationKey: string, cancelledAt: Option<int>)
  datatype Run = Run(jobId: string, slot: int, state: RunState, attempts: int, availableAt: int,
                     startedAt: Option<int>, finishedAt: Option<int>)
  datatype Lock = Lock(owner: string, acquiredAt: int, expiresAt: int)

  /** `order` lists the job ids in insertion order. */
  datatype Db = Db(jobs: map<string, Job>, order: seq<string>, runs: seq<Run>, locks: map<string, Lock>)

  const EMPTY := Db(map[], [], [], map[])

  /** What a transaction leaves behind, and the run it hands to a worker, if any. */
  datatype Effect = Effect(db: Db, run: Option<nat>)

  /******* Creating and switching jobs *******/

  /** A job as a caller submits it; `None` and 0 stand for Go's zero values. */
  datatype NewJob = NewJob(id: string, skillId: string, kind: Option<Kind>, every: int, nextRun: Option<int>,
                           enabled: bool, missed: Option<Missed>, maxAttempts: int, retryBackoff: int,
                           timeout: int, creationKey: string)

  predicate Alphanumeric(c: char) {
    'A' <= c <= 'Z' || 'a' <= c <= 'z' || '0' <= c <= '9'
  }

  predicate Identifier(s: string) {
    && 1 <= |s| <= 128 && Alphanumeric(s[0])
    && forall i :: 1 <= i < |s| ==> Alphanumeric(s[i]) || s[i] in "_.-"
  }

  function Default(n: int, fallback: int): int { if n == 0 then fallback else n }

  function Normalize(input: NewJob): Option<Job> {
    var kind := if input.kind.Some? then input.kind.value else OneTime;
    var job := Job(kind, input.every, if input.nextRun.Some? then input.nextRun.value else 0, input.enabled,
                   if input.missed.Some? then input.missed.value else RunOnce,
                   Default(input.maxAttempts, 3), Default(input.retryBackoff, SECOND), Default(input.timeout, MINUTE),
                   if input.creationKey == "" then "create:" + input.id else input.creationKey, None);
    if Identifier(input.id) && Identifier(input.skillId) && input.nextRun.Some? && ValidJob(job) then Some(job) else None
  }

  /** What normalizeJob checks of a job, and so what every stored job satisfies. */
  predicate ValidJob(job: Job) {
    && (if job.kind.OneTime? then job.every == 0 else 0 < job.every <= INTERVAL_LIMIT)
    && 1 <= job.maxAttempts <= 20
    && 0 <= job.retryBackoff <= DAY24
    && 0 < job.timeout <= DAY24
    && |job.creationKey| <= 256
  }

  function Create(db: Db, input: NewJob): Db {
    match Normalize(input)
    case None => db
    case Some(job) =>
      if input.id in db.jobs || exists id :: id in db.jobs && db.jobs[id].creationKey == job.creationKey then db
      else db.(jobs := db.jobs[input.id := job], order := db.order + [input.id])
  }

  function SetEnabled(db: Db, id: string, enabled: bool): Db {
    if id in db.jobs && db.jobs[id].cancelledAt.None? then
      db.(jobs := db.jobs[id := db.jobs[id].(enabled := enabled)])
    else db
  }

  function CancelJob(job: Job, now: int): Job {
    job.(enabled := false, cancelledAt := if job.cancelledAt.Some? then job.cancelledAt else Some(now))
  }

  function CancelRow(run: Run, id: string, now: int): Run {
    if run.jobId == id && run.state.Pending? then run.(state := Cancelled, finishedAt := Some(now)) else run
  }

  function Cancel(db: Db, id: string, now: int): Db {
    if id in db.jobs then
      db.(jobs := db.jobs[id := CancelJob(db.jobs[id], now)],
          runs := seq(|db.runs|, i requires 0 <= i < |db.runs| => CancelRow(db.runs[i], id, now)))
    else db
  }

  /******* Claiming *******/

  function PurgeLocks(le: Order, locks: map<string, Lock>, now: int): map<string, Lock> {
    map id | id in locks && !le(locks[id].expiresAt, now) :: locks[id]
  }

  /** A running row whose job has lost its lock goes back to pending. */
  function RependRow(run: Run, locks: map<string, Lock>, now: int): Run {
    if run.state.Running? && run.jobId !in locks then run.(state := Pending, availableAt := now) else run
  }

  /** A pending row without retry budget dies. */
  function ExhaustRow(run: Run, jobs: map<string, Job>, now: int): Run {
    if run.state.Pending? && run.jobId in jobs && run.attempts >= jobs[run.jobId].maxAttempts
    then run.(state := Dead, finishedAt := Some(now)) else run
  }

  /** The three housekeeping statements at the head of every claim. */
  function Purge(le: Order, db: Db, now: int): (p: Db)
    ensures |p.runs| == |db.runs|
  {
    var locks := PurgeLocks(le, db.locks, now);
    db.(locks := locks,
        runs := seq(|db.runs|, i requires 0 <= i < |db.runs| =>
                                 ExhaustRow(RependRow(db.runs[i], locks, now), db.jobs, now)))
  }

  predicate Claimable(le: Order, db: Db, now: int, i: nat) {
    && i < |db.runs| && db.runs[i].state.Pending? && le(db.runs[i].availableAt, now)
    && db.runs[i].jobId in db.jobs && db.jobs[db.runs[i].jobId].cancelledAt.None?
    && db.runs[i].jobId !in db.locks
  }

  /** The first claimable row below `n`, by available time and then by id. */
  function PickPending(le: Order, db: Db, now: int, n: nat): (best: Option<nat>)
    requires n <= |db.runs|
    ensures best.Some? ==> best.value < n && Claimable(le, db, now, best.value)
    ensures best.None? ==> forall i :: 0 <= i < n ==> !Claimable(le, db, now, i)
  {
    if n == 0 then None
    else
      var best := PickPending(le, db, now, n - 1);
      if !Claimable(le, db, now, n - 1) then best
      else if best.None? || !le(db.runs[best.value].availableAt, db.runs[n - 1].availableAt) then Some(n - 1)
      else best
  }

  predicate Due(le: Order, db: Db, now: int, id: string) {
    && id in db.jobs && db.jobs[id].enabled && db.jobs[id].cancelledAt.None?
    && le(db.jobs[id].nextRun, now) && id !in db.locks
  }

  /** ORDER BY next_run, id. */
  predicate DueBefore(le: Order, jobs: map<string, Job>, a: string, b: string)
    requires a in jobs && b in jobs
  {
    !le(jobs[b].nextRun, jobs[a].nextRun) || (le(jobs[a].nextRun, jobs[b].nextRun) && TimeText.LexLess(a, b))
  }

  function PickDue(le: Order, db: Db, now: int, n: nat): (best: Option<string>)
    requires n <= |db.order|
    ensures best.Some? ==> best.value in db.order[..n] && Due(le, db, now, best.value)
    ensures best.None? ==> forall i :: 0 <= i < n ==> !Due(le, db, now, db.order[i])
  {
    if n == 0 then None
    else
      var best, id := PickDue(le, db, now, n - 1), db.order[n - 1];
      if !Due(le, db, now, id) then best
      else if best.None? || DueBefore(le, db.jobs, id, best.value) then Some(id)
      else best
  }

  function LockTtl(job: Job, ttl: int): int {
    if job.timeout + SECOND > ttl then job.timeout + SECOND else ttl
  }

  function NewLock(job: Job, owner: string, ttl: int, now: int): Lock {
    Lock(owner, now, now + LockTtl(job, ttl))
  }

  function HandOut(db: Db, i: nat, owner: string, ttl: int, now: int): Db
    requires i < |db.runs| && db.runs[i].jobId in db.jobs
  {
    var run := db.runs[i];
    db.(runs := db.runs[i := run.(state := Running, attempts := run.attempts + 1, startedAt := Some(now))],
        locks := db.locks[run.jobId := NewLock(db.jobs[run.jobId], owner, ttl, now)])
  }

  /** The idempotency key is taken: see SchedulerSlots.RunKeyInjective. */
  predicate HasSlot(runs: seq<Run>, id: string, slot: int) {
    exists i :: 0 <= i < |runs| && runs[i].jobId == id && runs[i].slot == slot
  }

  predicate MissedWindow(job: Job, now: int) {
    job.kind.Recurring? && job.missed.Skip? && job.nextRun + job.every <= now
  }

  function Advance(job: Job, now: int): Job {
    if job.kind.Recurring? then job.(nextRun := NextRecurring(job.nextRun, job.every, now)) else job.(enabled := false)
  }

  function Fire(db: Db, id: string, owner: string, ttl: int, now: int): Effect
    requires id in db.jobs
  {
    var job := db.jobs[id];
    var moved := db.(jobs := db.jobs[id := Advance(job, now)]);
    if HasSlot(db.runs, id, job.nextRun) then
      Effect(moved, None)
    else if MissedWindow(job, now) then
      Effect(moved.(runs := db.runs + [Run(id, job.nextRun, Skipped, 0, now, None, Some(now))]), None)
    else
      Effect(moved.(runs := db.runs + [Run(id, job.nextRun, Running, 1, now, Some(now), None)],
                    locks := db.locks[id := NewLock(job, owner, ttl, now)]),
             Some(|db.runs|))
  }

  function Claim(le: Order, db: Db, owner: string, ttl: int, now: int): Effect {
    if owner == "" || ttl <= 0 then Effect(db, None)
    else
      var p := Purge(le, db, now);
      match PickPending(le, p, now, |p.runs|)
      case Some(i) => Effect(HandOut(p, i, owner, ttl, now), Some(i))
      case None =>
        match PickDue(le, p, now, |p.order|)
        case Some(id) => Fire(p, id, owner, ttl, now)
        case None => Effect(p, None)
  }

  /******* Ending an attempt *******/

  function Release(locks: map<string, Lock>, id: string, owner: string): map<string, Lock> {
    if id in locks && locks[id].owner == owner then locks - {id} else locks
  }

  predicate IsRunning(db: Db, i: nat) {
    i < |db.runs| && db.runs[i].state.Running?
  }

  /** Complete, Deny and MarkCancelled differ only in the final state. */
  datatype Verdict = AsCompleted | AsDenied | AsCancelled

  function FinalState(v: Verdict): RunState {
    match v case AsCompleted => Completed case AsDenied => Denied case AsCancelled => Cancelled
  }

  function Finish(db: Db, i: nat, owner: string, v: Verdict, now: int): Db {
    if IsRunning(db, i) then
      db.(runs := db.runs[i := db.runs[i].(state := FinalState(v), finishedAt := Some(now))],
          locks := Release(db.locks, db.runs[i].jobId, owner))
    else db
  }

  function Fail(db: Db, i: nat, owner: string, now: int): Db {
    if IsRunning(db, i) && db.runs[i].jobId in db.jobs then
      var run, job := db.runs[i], db.jobs[db.runs[i].jobId];
      var row :=
        if run.attempts >= job.maxAttempts then run.(state := Dead, availableAt := now, finishedAt := Some(now))
        else run.(state := Pending, availableAt := now + BoundedBackoff(job.retryBackoff, run.attempts), finishedAt := None);
      db.(runs := db.runs[i := row], locks := Release(db.locks, run.jobId, owner))
    else db
  }

  /** The lock is released even when the run is not running. */
  function Requeue(db: Db, i: nat, owner: string, now: int): Db {
    if i < |db.runs| then
      var run := db.runs[i];
      var attempts := if run.attempts > 0 then run.attempts - 1 else 0;
      var row :=
        if run.state.Running? then run.(state := Pending, attempts := attempts, availableAt := now, startedAt := None)
        else run;
      db.(runs := db.runs[i := row], locks := Release(db.locks, run.jobId, owner))
    else db
  }

  function RecoverRow(run: Run, jobs: map<string, Job>, locks: map<string, Lock>, now: int): Run {
    if run.state.Running? && run.jobId !in locks then
      if run.jobId in jobs && jobs[run.jobId].cancelledAt.Some?
      then run.(state := Cancelled, availableAt := now, finishedAt := Some(now))
      else run.(state := Pending, availableAt := now, finishedAt := None)
    else run
  }

  function RecoverStale(le: Order, db: Db, now: int): Db {
    var locks := PurgeLocks(le, db.locks, now);
    db.(locks := locks,
        runs := seq(|db.runs|, i requires 0 <= i < |db.runs| => RecoverRow(db.runs[i], db.jobs, locks, now)))
  }

  /******* Runs of the whole store *******/

  datatype Event =
    | ECreate(input: NewJob)
    | ESetEnabled(id: string, enabled: bool)
    | ECancel(id: string)
    | EClaim(owner: string, ttl: int)
    | EFinish(run: nat, owner: string, verdict: Verdict)
    | EFail(run: nat, owner: string)
    | ERequeue(run: nat, owner: string)
    | ERecoverStale

  /** One transaction, with the clock reading it happens to use. */
  datatype Call = Call(event: Event, now: int)

  function Step(le: Order, db: Db, call: Call): Effect {
    var now := call.now;
    match call.event
    case ECreate(input) => Effect(Create(db, input), None)
    case ESetEnabled(id, enabled) => Effect(SetEnabled(db, id, enabled), None)
    case ECancel(id) => Effect(Cancel(db, id, now), None)
    case EClaim(owner, ttl) => Claim(le, db, owner, ttl, now)
    case EFinish(run, owner, verdict) => Effect(Finish(db, run, owner, verdict, now), None)
    case EFail(run, owner) => Effect(Fail(db, run, owner, now), None)
    case ERequeue(run, owner) => Effect(Requeue(db, run, owner, now), None)
    case ERecoverStale => Effect(RecoverStale(le, db, now), None)
  }

  /** The store after a sequence of transactions, in whatever order they commit. */
  function Exec(le: Order, db: Db, calls: seq<Call>): Db
    decreases |calls|
  {
    if calls == [] then db else Exec(le, Step(le, db, calls[0]).db, calls[1..])
  }
}
