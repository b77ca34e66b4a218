/** Slots: which times the runs of a job are for, and when a run may be handed out. */
module SchedulerSlots {
  import opened Prelude
  import opened Recurrence
  import opened SchedulerModel
  import opened SchedulerSafety
  import TimeText

  /******* Idempotency keys *******/

  function RunKey(id: string, slot: nat): string {
    "job:" + (id + (":" + TimeText.FormatTime(slot)))
  }

  /** Two runs share an idempotency key only if they are for one job and one instant,
      so the model may look for the pair instead of the key. */
  lemma RunKeyInjective(a: string, s: nat, b: string, t: nat)
    requires Identifier(a) && Identifier(b) && TimeText.InRange(s) && TimeText.InRange(t)
    ensures RunKey(a, s) == RunKey(b, t) <==> a == b && s == t
  {
    if RunKey(a, s) == RunKey(b, t) {
      CancelPrefix("job:", a + (":" + TimeText.FormatTime(s)), b + (":" + TimeText.FormatTime(t)));
      SplitAtColon(a, TimeText.FormatTime(s), b, TimeText.FormatTime(t));
      if s != t {
        TimeText.TextOrder(s, t);
      }
    }
  }

  lemma CancelPrefix(p: string, x: string, y: string)
    requires p + x == p + y
    ensures x == y
  {
    assert x == (p + x)[|p|..] && y == (p + y)[|p|..];
  }

  lemma SplitAtColon(a: string, x: string, b: string, y: string)
    requires Identifier(a) && Identifier(b) && a + (":" + x) == b + (":" + y)
    ensures a == b && x == y
  {
    var s, t := a + (":" + x), b + (":" + y);
    assert s[|a|] == ':' && t[|b|] == ':';
    assert forall i :: 0 <= i < |a| ==> s[i] == a[i] != ':';
    assert forall i :: 0 <= i < |b| ==> t[i] == b[i] != ':';
    assert |a| == |b|;
    assert a == s[..|a|] && b == t[..|b|];
    CancelPrefix(a, ":" + x, ":" + y);
    CancelPrefix(":", x, y);
  }

  /******* Recurring slots *******/

  /** The slots of a recurring job rise with the row id, lie on the grid of its next
      run, and are all below it. */
  ghost predicate SlotsAscend(db: Db) {
    && (forall i, j :: 0 <= i < j < |db.runs| && db.runs[i].jobId == db.runs[j].jobId && IsRecurring(db, db.runs[i].jobId)
          ==> db.runs[i].slot < db.runs[j].slot)
    && (forall i :: 0 <= i < |db.runs| && IsRecurring(db, db.runs[i].jobId)
          ==> BelowNext(db.runs[i].slot, db.jobs[db.runs[i].jobId]))
  }

  predicate IsRecurring(db: Db, id: string) {
    id in db.jobs && db.jobs[id].kind.Recurring? && db.jobs[id].every > 0
  }

  predicate BelowNext(slot: int, job: Job)
    requires job.every > 0
  {
    slot < job.nextRun && (job.nextRun - slot) % job.every == 0
  }

  /** The job a call fires: a valid claim that finds nothing to retry fires the first due job. */
  function Fired(le: Order, db: Db, call: Call): (id: Option<string>)
    ensures id.Some? ==> id.value in db.jobs
  {
    match call.event
    case EClaim(owner, ttl) =>
      var p := Purge(le, db, call.now);
      if owner == "" || ttl <= 0 || PickPending(le, p, call.now, |p.runs|).Some? then None
      else PickDue(le, p, call.now, |p.order|)
    case _ => None
  }

  /** What a caller can check before the call: if it fires a recurring job, the job's time has
      really come and the grid arithmetic does not overflow. */
  predicate OnTime(le: Order, db: Db, call: Call) {
    var id := Fired(le, db, call);
    id.Some? && IsRecurring(db, id.value) ==>
      var job := db.jobs[id.value];
      job.nextRun <= call.now && FitsInt64(job.nextRun, job.every, call.now)
  }

  ghost predicate AllOnTime(le: Order, db: Db, calls: seq<Call>)
    decreases |calls|
  {
    calls == [] || (OnTime(le, db, calls[0]) && AllOnTime(le, Step(le, db, calls[0]).db, calls[1..]))
  }

  /** The slots ascend at the start and after every call of the run. */
  ghost predicate AscendsThroughout(le: Order, db: Db, calls: seq<Call>) {
    forall n :: 0 <= n <= |calls| ==> SlotsAscend(Exec(le, db, calls[..n]))
  }

  lemma AdvanceRises(job: Job, now: int)
    requires ValidJob(job) && job.kind.Recurring? && job.nextRun <= now && FitsInt64(job.nextRun, job.every, now)
    ensures BelowNext(job.nextRun, Advance(job, now)) && Advance(job, now).nextRun > now
    ensures forall slot :: BelowNext(slot, job) ==> BelowNext(slot, Advance(job, now))
  {
    NextRecurringExact(job.nextRun, job.every, now);
    var next := Advance(job, now).nextRun;
    forall slot | BelowNext(slot, job)
      ensures BelowNext(slot, Advance(job, now))
    {
      SumResidue(next - job.nextRun, job.nextRun - slot, job.every);
    }
  }

  /** While slots ascend, the next slot of a recurring job is free: the INSERT OR IGNORE is
      never ignored. */
  lemma NoInsertIgnored(db: Db, id: string)
    requires Inv(db) && SlotsAscend(db) && IsRecurring(db, id)
    ensures !HasSlot(db.runs, id, db.jobs[id].nextRun)
  {
  }

  lemma FireAscends(db: Db, id: string, owner: string, ttl: int, now: int)
    requires Inv(db) && SlotsAscend(db) && id in db.jobs
    requires IsRecurring(db, id) ==> db.jobs[id].nextRun <= now && FitsInt64(db.jobs[id].nextRun, db.jobs[id].every, now)
    ensures SlotsAscend(Fire(db, id, owner, ttl, now).db)
  {
    var job, e := db.jobs[id], Fire(db, id, owner, ttl, now);
    if IsRecurring(db, id) {
      AdvanceRises(job, now);
    }
    forall i, j | 0 <= i < j < |e.db.runs| && e.db.runs[i].jobId == e.db.runs[j].jobId && IsRecurring(e.db, e.db.runs[i].jobId)
      ensures e.db.runs[i].slot < e.db.runs[j].slot
    {
      assert e.db.runs[i] == db.runs[i];
      if j == |db.runs| {
        assert BelowNext(db.runs[i].slot, job);
      }
    }
  }

  lemma SameRowsAscend(db: Db, db': Db)
    requires SlotsAscend(db) && |db'.runs| == |db.runs|
    requires forall i :: 0 <= i < |db.runs| ==> db'.runs[i].jobId == db.runs[i].jobId && db'.runs[i].slot == db.runs[i].slot
    requires forall i :: 0 <= i < |db.runs| && IsRecurring(db', db.runs[i].jobId) ==>
               IsRecurring(db, db.runs[i].jobId)
               && db'.jobs[db.runs[i].jobId].nextRun == db.jobs[db.runs[i].jobId].nextRun
               && db'.jobs[db.runs[i].jobId].every == db.jobs[db.runs[i].jobId].every
    ensures SlotsAscend(db')
  {
  }

  /** Firing a recurring job keeps the slots ascending exactly when its time has come and
      nothing overflows. */
  lemma FireAscendsExactly(db: Db, id: string, owner: string, ttl: int, now: int)
    requires Inv(db) && SlotsAscend(db) && IsRecurring(db, id)
    ensures SlotsAscend(Fire(db, id, owner, ttl, now).db)
            <==> db.jobs[id].nextRun <= now && FitsInt64(db.jobs[id].nextRun, db.jobs[id].every, now)
  {
    var job, e := db.jobs[id], Fire(db, id, owner, ttl, now);
    if job.nextRun <= now && FitsInt64(job.nextRun, job.every, now) {
      FireAscends(db, id, owner, ttl, now);
    } else {
      NoInsertIgnored(db, id);
      FireMovesOn(db, id, owner, ttl, now);
      assert e.db.runs[|db.runs|].jobId == id && e.db.runs[|db.runs|].slot == job.nextRun;
      assert IsRecurring(e.db, id) && !BelowNext(job.nextRun, e.db.jobs[id]);
    }
  }

  lemma PurgeAscends(le: Order, db: Db, now: int)
    requires Inv(db)
    ensures SlotsAscend(Purge(le, db, now)) <==> SlotsAscend(db)
  {
    PurgeSlots(le, db, now);
    if SlotsAscend(db) {
      SameRowsAscend(db, Purge(le, db, now));
    }
    if SlotsAscend(Purge(le, db, now)) {
      SameRowsAscend(Purge(le, db, now), db);
    }
  }

  lemma PurgeSlots(le: Order, db: Db, now: int)
    ensures
      var p := Purge(le, db, now);
      && p.jobs == db.jobs && |p.runs| == |db.runs|
      && forall i :: 0 <= i < |db.runs| ==> p.runs[i].jobId == db.runs[i].jobId && p.runs[i].slot == db.runs[i].slot
  {
    forall i | 0 <= i < |db.runs|
      ensures
        var p := Purge(le, db, now);
        p.runs[i].jobId == db.runs[i].jobId && p.runs[i].slot == db.runs[i].slot
    {
      PurgeRow(le, db, now, i);
    }
  }

  lemma RetryAscends(le: Order, p: Db, i: nat, owner: string, ttl: int, now: int)
    requires SlotsAscend(p) && Claimable(le, p, now, i)
    ensures SlotsAscend(HandOut(p, i, owner, ttl, now))
  {
    SameRowsAscend(p, HandOut(p, i, owner, ttl, now));
  }

  lemma FiringAscends(p: Db, id: string, owner: string, ttl: int, now: int)
    requires Inv(p) && SlotsAscend(p) && id in p.jobs
    ensures SlotsAscend(Fire(p, id, owner, ttl, now).db)
            <==> (IsRecurring(p, id) ==>
                    p.jobs[id].nextRun <= now && FitsInt64(p.jobs[id].nextRun, p.jobs[id].every, now))
  {
    if IsRecurring(p, id) {
      FireAscendsExactly(p, id, owner, ttl, now);
    } else {
      FireAscends(p, id, owner, ttl, now);
    }
  }

  lemma ClaimAscendsExactly(le: Order, db: Db, owner: string, ttl: int, now: int)
    requires Inv(db) && SlotsAscend(db)
    ensures SlotsAscend(Claim(le, db, owner, ttl, now).db) <==> OnTime(le, db, Call(EClaim(owner, ttl), now))
  {
    if owner != "" && ttl > 0 {
      var p := Purge(le, db, now);
      PurgeKeeps(le, db, now);
      PurgeAscends(le, db, now);
      match PickPending(le, p, now, |p.runs|)
      case Some(i) => RetryAscends(le, p, i, owner, ttl, now);
      case None =>
        match PickDue(le, p, now, |p.order|)
        case Some(id) => FiringAscends(p, id, owner, ttl, now);
        case None =>
    }
  }

  /** One call keeps the slots ascending if and only if it is on time. */
  lemma StepAscendsExactly(le: Order, db: Db, call: Call)
    requires Inv(db) && SlotsAscend(db)
    ensures SlotsAscend(Step(le, db, call).db) <==> OnTime(le, db, call)
  {
    if call.event.EClaim? {
      ClaimAscendsExactly(le, db, call.event.owner, call.event.ttl, call.now);
    } else {
      StepEffect(le, db, call);
      SameRowsAscend(db, Step(le, db, call).db);
    }
  }

  lemma {:induction false} ExecAscendsExactly(le: Order, db: Db, calls: seq<Call>)
    requires Inv(db) && SlotsAscend(db)
    ensures AscendsThroughout(le, db, calls) <==> AllOnTime(le, db, calls)
    decreases |calls|
  {
    if calls == [] {
      assert calls[..0] == [];
    } else {
      var db' := Step(le, db, calls[0]).db;
      StepAscendsExactly(le, db, calls[0]);
      StepKeeps(le, db, calls[0]);
      AscendsShift(le, db, calls);
      if SlotsAscend(db') {
        ExecAscendsExactly(le, db', calls[1..]);
      } else {
        assert Exec(le, db', calls[1..][..0]) == db';
      }
    }
  }

  lemma AscendsShift(le: Order, db: Db, calls: seq<Call>)
    requires calls != [] && SlotsAscend(db)
    ensures AscendsThroughout(le, db, calls) <==> AscendsThroughout(le, Step(le, db, calls[0]).db, calls[1..])
  {
    var db' := Step(le, db, calls[0]).db;
    forall n | 0 <= n < |calls|
      ensures Exec(le, db, calls[..n + 1]) == Exec(le, db', calls[1..][..n])
    {
      assert calls[..n + 1][1..] == calls[1..][..n];
    }
    if AscendsThroughout(le, db', calls[1..]) {
      forall n | 0 <= n <= |calls|
        ensures SlotsAscend(Exec(le, db, calls[..n]))
      {
        if n == 0 {
          assert calls[..0] == [];
        } else {
          assert Exec(le, db, calls[..(n - 1) + 1]) == Exec(le, db', calls[1..][..n - 1]);
        }
      }
    }
    if AscendsThroughout(le, db, calls) {
      forall n | 0 <= n <= |calls[1..]|
        ensures SlotsAscend(Exec(le, db', calls[1..][..n]))
      {
        assert SlotsAscend(Exec(le, db, calls[..n + 1]));
      }
    }
  }

  /** Over every run of the store: the slots of the recurring jobs strictly rise with the row
      id, stay on their grids and below the next runs, all along the run, if and only if every
      firing is on time; and then the next slot of a recurring job is always free. */
  lemma SlotsAscendExactly(le: Order, calls: seq<Call>)
    ensures AscendsThroughout(le, EMPTY, calls) <==> AllOnTime(le, EMPTY, calls)
    ensures AllOnTime(le, EMPTY, calls) ==>
              var db := Exec(le, EMPTY, calls);
              SlotsAscend(db) && forall id :: IsRecurring(db, id) ==> !HasSlot(db.runs, id, db.jobs[id].nextRun)
  {
    ExecAscendsExactly(le, EMPTY, calls);
    ExecKeeps(le, EMPTY, calls);
    if AllOnTime(le, EMPTY, calls) {
      assert calls[..|calls|] == calls;
      var db := Exec(le, EMPTY, calls);
      forall id | IsRecurring(db, id)
        ensures !HasSlot(db.runs, id, db.jobs[id].nextRun)
      {
        NoInsertIgnored(db, id);
      }
    }
  }

  /** The next run of a fired recurring job moves past the slot just fired if and only if the
      job was really due and nothing overflowed. */
  lemma FireMovesOn(db: Db, id: string, owner: string, ttl: int, now: int)
    requires Inv(db) && IsRecurring(db, id)
    ensures
      Fire(db, id, owner, ttl, now).db.jobs[id].nextRun > db.jobs[id].nextRun
      <==> db.jobs[id].nextRun <= now && FitsInt64(db.jobs[id].nextRun, db.jobs[id].every, now)
  {
    AnchorMovesForward(db.jobs[id].nextRun, db.jobs[id].every, now);
  }

  /** A job that sorts as due too early fires for its slot and stays due for the same
      slot; the next firing finds the slot taken and hands out nothing. */
  lemma EarlyFireRepeats(db: Db, id: string, owner: string, ttl: int, now: int, later: int)
    requires Inv(db) && IsRecurring(db, id) && now < db.jobs[id].nextRun && !HasSlot(db.runs, id, db.jobs[id].nextRun)
    ensures
      var e := Fire(db, id, owner, ttl, now);
      && e.run == Some(|db.runs|) && e.db.jobs[id].nextRun == db.jobs[id].nextRun
      && Fire(e.db, id, owner, ttl, later).run == None
  {
    var e := Fire(db, id, owner, ttl, now);
    assert e.db.runs[|db.runs|].jobId == id && e.db.runs[|db.runs|].slot == db.jobs[id].nextRun;
  }

  lemma {:induction false} ExecSnoc(le: Order, db: Db, calls: seq<Call>, n: nat)
    requires n < |calls|
    ensures Exec(le, db, calls[..n + 1]) == Step(le, Exec(le, db, calls[..n]), calls[n]).db
    decreases n
  {
    var db' := Step(le, db, calls[0]).db;
    assert calls[..n + 1][1..] == calls[1..][..n];
    if n == 0 {
      assert calls[1..][..0] == [] && calls[..0] == [];
    } else {
      assert calls[..n][1..] == calls[1..][..n - 1];
      ExecSnoc(le, db', calls[1..], n - 1);
    }
  }

  /** Create a job due at 15 ns; claim at 10 ns; end the run; claim again at one second. */
  function EarlyCalls(): seq<Call> {
    [Call(ECreate(NewJob("job", "skill", Some(Recurring), SECOND, Some(15), true, Some(RunOnce), 3, SECOND, MINUTE, "key")), 0),
     Call(EClaim("worker", SECOND), 10),
     Call(EFinish(0, "worker", AsCompleted), 12),
     Call(EClaim("worker", SECOND), SECOND)]
  }

  lemma EarlyTimes()
    ensures TimeText.TextLeq(15, 10) && TimeText.TextLeq(15, SECOND)
  {
    assert TimeText.DaysBeforeYear(10_000) >= 1;
    TimeText.EightDigitsSortLate(10, 5);
    TimeText.TextLeqExact(15, SECOND);
  }

  /** What the calls make of the store, one after the other. */
  function EarlyStates(): seq<Db> {
    var job := Job(Recurring, SECOND, 15, true, RunOnce, 3, SECOND, MINUTE, "key", None);
    [EMPTY,
     Db(map["job" := job], ["job"], [], map[]),
     Db(map["job" := job], ["job"], [Run("job", 15, Running, 1, 10, Some(10), None)],
        map["job" := NewLock(job, "worker", SECOND, 10)]),
     Db(map["job" := job], ["job"], [Run("job", 15, Completed, 1, 10, Some(10), Some(12))], map[])]
  }

  lemma EarlyCreate(le: Order)
    ensures Step(le, EarlyStates()[0], EarlyCalls()[0]).db == EarlyStates()[1]
  {
  }

  lemma OnlyJobPicked(le: Order, db: Db, now: int)
    requires db.order == ["job"] && Due(le, db, now, "job")
    ensures PickDue(le, db, now, 1) == Some("job")
  {
    assert PickDue(le, db, now, 0) == None;
  }

  lemma EarlyClaim(le: Order)
    requires le(15, 10)
    ensures Step(le, EarlyStates()[1], EarlyCalls()[1]) == Effect(EarlyStates()[2], Some(0))
  {
    var db := EarlyStates()[1];
    assert Purge(le, db, 10) == db;
    OnlyJobPicked(le, db, 10);
  }

  lemma EarlyFinish(le: Order)
    ensures Step(le, EarlyStates()[2], EarlyCalls()[2]).db == EarlyStates()[3]
  {
  }

  lemma EarlyClaimAgain(le: Order)
    requires le(15, SECOND)
    ensures Fired(le, EarlyStates()[3], EarlyCalls()[3]) == Some("job") && OnTime(le, EarlyStates()[3], EarlyCalls()[3])
    ensures Step(le, EarlyStates()[3], EarlyCalls()[3]).run == None
  {
    var db := EarlyStates()[3];
    assert Purge(le, db, SECOND) == db;
    assert PickPending(le, db, SECOND, 1) == PickPending(le, db, SECOND, 0) == None;
    OnlyJobPicked(le, db, SECOND);
    assert db.runs[0].slot == 15;
  }

  lemma EarlyRun(le: Order)
    requires le(15, 10)
    ensures forall n :: 0 <= n <= 3 ==> Exec(le, EMPTY, EarlyCalls()[..n]) == EarlyStates()[n]
  {
    EarlyCreate(le);
    EarlyClaim(le);
    EarlyFinish(le);
    assert EarlyCalls()[..0] == [];
    ExecSnoc(le, EMPTY, EarlyCalls(), 0);
    ExecSnoc(le, EMPTY, EarlyCalls(), 1);
    ExecSnoc(le, EMPTY, EarlyCalls(), 2);
  }

  lemma EarlyBreaksAscent()
    ensures SlotsAscend(EarlyStates()[1]) && !SlotsAscend(EarlyStates()[2])
  {
    var after := EarlyStates()[2];
    assert IsRecurring(after, after.runs[0].jobId) && !BelowNext(after.runs[0].slot, after.jobs["job"]);
  }

  /** The early firing, in any order in which 15 sorts as reached at 10. */
  ghost predicate FiresEarly(le: Order, calls: seq<Call>) {
    && |calls| == 4
    && var before, after, ended := Exec(le, EMPTY, calls[..1]), Exec(le, EMPTY, calls[..2]), Exec(le, EMPTY, calls[..3]);
       && Step(le, before, calls[1]).run == Some(0) && |after.runs| == 1 && calls[1].now < after.runs[0].slot
       && SlotsAscend(before) && !SlotsAscend(after)
       && Fired(le, ended, calls[3]) == Some("job") && OnTime(le, ended, calls[3])
       && Step(le, ended, calls[3]).run == None
  }

  lemma EarlyFire(le: Order)
    requires le(15, 10) && le(15, SECOND)
    ensures FiresEarly(le, EarlyCalls())
  {
    EarlyRun(le);
    EarlyClaim(le);
    EarlyClaimAgain(le);
    EarlyBreaksAscent();
    assert |EarlyStates()[2].runs| == 1 && EarlyStates()[2].runs[0].slot == 15;
  }

  /** It happens from the empty store: under the text order a job due at 15 ns is fired at
      10 ns and its slot is not below its next run; the claim at one second, on time for the
      same job, finds the slot taken and hands out nothing. */
  lemma EarlyFireHappens()
    ensures FiresEarly(TimeText.TextLeq, EarlyCalls())
  {
    EarlyTimes();
    EarlyFire(TimeText.TextLeq);
  }

  /** A claim that adds a row does so for a due job, in the slot of its next run, and under
      Skip before the next slot. */
  lemma NewRunIsDue(le: Order, db: Db, owner: string, ttl: int, now: int)
    requires Inv(db) && Claim(le, db, owner, ttl, now).run == Some(|db.runs|)
    ensures
      var e := Claim(le, db, owner, ttl, now);
      && |e.db.runs| == |db.runs| + 1
      && var run := e.db.runs[|db.runs|];
         && run.jobId in db.jobs && run.slot == db.jobs[run.jobId].nextRun && le(run.slot, now)
         && !MissedWindow(db.jobs[run.jobId], now)
  {
    PurgeKeeps(le, db, now);
  }

  /** Due by the text order: less than a second early, and early exactly on inverted pairs. */
  predicate DueByText(slot: int, now: int) {
    && TimeText.InRange(slot) && TimeText.InRange(now)
    && slot < now + SECOND && (slot <= now <==> !TimeText.Inverted(slot, now))
  }

  lemma TextDueWindow(slot: int, now: int)
    requires TimeText.InRange(slot) && TimeText.InRange(now) && TimeText.TextLeq(slot, now)
    ensures DueByText(slot, now)
  {
    TimeText.TextLeqWithinSecond(slot, now);
    TimeText.TextLeqExact(slot, now);
  }

  /** Under the text order a run is first handed out at its time or after it exactly when
      time and reading are not inverted, and otherwise early by less than a second; the
      window of a Skip job closes on time whatever the order. */
  lemma FirstHandOutWindow(db: Db, owner: string, ttl: int, now: int)
    requires Inv(db) && TimeText.InRange(now)
    requires forall id :: id in db.jobs ==> TimeText.InRange(db.jobs[id].nextRun)
    requires Claim(TimeText.TextLeq, db, owner, ttl, now).run == Some(|db.runs|)
    ensures
      var e := Claim(TimeText.TextLeq, db, owner, ttl, now);
      && |e.db.runs| == |db.runs| + 1
      && var run := e.db.runs[|db.runs|];
         && run.jobId in db.jobs && run.slot == db.jobs[run.jobId].nextRun && DueByText(run.slot, now)
         && (db.jobs[run.jobId].kind.Recurring? && db.jobs[run.jobId].missed.Skip?
             ==> now < run.slot + db.jobs[run.jobId].every)
  {
    NewRunIsDue(TimeText.TextLeq, db, owner, ttl, now);
    TextDueWindow(Claim(TimeText.TextLeq, db, owner, ttl, now).db.runs[|db.runs|].slot, now);
  }

  /******* What one call undoes *******/

  /** What a claim hands out is running under a new lock of its job, and its attempt counts. */
  lemma ClaimedRun(le: Order, db: Db, owner: string, ttl: int, now: int)
    requires Inv(db) && Claim(le, db, owner, ttl, now).run.Some?
    ensures
      var e := Claim(le, db, owner, ttl, now);
      var i := e.run.value;
      && i < |e.db.runs| && e.db.runs[i].state.Running? && e.db.runs[i].attempts >= 1
      && var id := e.db.runs[i].jobId;
         && id in e.db.jobs && id !in PurgeLocks(le, db.locks, now) && id in e.db.locks && e.db.locks[id].owner == owner
         && e.db.locks - {id} == PurgeLocks(le, db.locks, now)
  {
    PurgeKeeps(le, db, now);
    var p := Purge(le, db, now);
    var e := Claim(le, db, owner, ttl, now);
    var id := e.db.runs[e.run.value].jobId;
    assert id !in p.locks && e.db.locks == p.locks[id := e.db.locks[id]];
  }

  /** Requeueing what a claim just handed out gives the attempt and the lock back, and
      the run waits again for whoever comes next. */
  lemma RequeueUndoesClaim(le: Order, db: Db, owner: string, ttl: int, now: int, later: int)
    requires Inv(db) && Claim(le, db, owner, ttl, now).run.Some?
    ensures
      var e := Claim(le, db, owner, ttl, now);
      var i := e.run.value;
      var after := Requeue(e.db, i, owner, later);
      && i < |after.runs| && after.runs[i].state.Pending? && after.runs[i].startedAt.None?
      && after.runs[i].attempts == AttemptsOf(db, i)
      && after.locks == PurgeLocks(le, db.locks, now)
      && (le(later, later) && !IsCancelled(after, after.runs[i].jobId) ==> Claimable(le, after, later, i))
  {
    ClaimedRun(le, db, owner, ttl, now);
    ClaimEffect(le, db, owner, ttl, now);
    var e := Claim(le, db, owner, ttl, now);
    RequeueRestores(e.db, e.run.value, owner, later);
  }

  lemma RequeueRestores(db: Db, i: nat, owner: string, now: int)
    requires IsRunning(db, i) && db.runs[i].attempts >= 1
    requires db.runs[i].jobId in db.locks && db.locks[db.runs[i].jobId].owner == owner
    ensures
      var after := Requeue(db, i, owner, now);
      && after.jobs == db.jobs && after.locks == db.locks - {db.runs[i].jobId} && |after.runs| == |db.runs|
      && after.runs[i].jobId == db.runs[i].jobId && after.runs[i].state.Pending? && after.runs[i].startedAt.None?
      && after.runs[i].attempts == db.runs[i].attempts - 1 && after.runs[i].availableAt == now
  {
  }
}
