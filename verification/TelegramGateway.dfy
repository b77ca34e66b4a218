/** The gateway over the durable queue: what holds through any polls, redeliveries,
    handler outcomes, failing store calls, crashes and restarts, and why the drain
    loops stop. */
module TelegramGateway {
  import opened Prelude
  import opened TelegramQueue

  /** Where the one gateway process is. */
  datatype Phase = Down | Idle | Claimed(row: nat) | Handling(row: nat) | Sending(row: nat) | Delivered(row: nat)

  /** The tables, the process, and the history of what reached handler and client:
      `handled` counts handler invocations per inbox row, `delivered` successful sends
      per outbox row, and the last two the restarts that found the row in flight. */
  datatype World = World(t: Tables, phase: Phase, handled: Tally, delivered: Tally, interrupted: Tally, resent: Tally)

  /** How often something happened to each row. */
  type Tally = nat -> nat

  function Zero(): Tally { (i: nat) => 0 }
  function Bump(m: Tally, rows: set<nat>): Tally { (i: nat) => m(i) + if i in rows then 1 else 0 }

  function Start(): World { World(EMPTY, Down, Zero(), Zero(), Zero(), Zero()) }

  /** A handler answers, exceeds its budget (also answered) or fails. */
  datatype Outcome = Answered | OverBudget | Broken

  /** `ok` says whether the store call of the step succeeds; a failing one changes
      nothing, and the gateway carries on. */
  datatype Step =
    | Restart
    | Crash
    | Receive(update: int, ok: bool, now: int)
    | Take(ok: bool, now: int)
    | Invoke
    | Settle(outcome: Outcome, ok: bool, failOk: bool, now: int)
    | TakeReply(ok: bool, now: int)
    | Send(success: bool, ok: bool, now: int)
    | Confirm(ok: bool)

  function RunningRows(t: Tables): set<nat> { set i | 0 <= i < |t.inbox| && t.inbox[i].state.InRunning? }
  function SendingRows(t: Tables): set<nat> { set i | 0 <= i < |t.outbox| && t.outbox[i].state.OutSending? }

  /** A handler failure, or a completion the store refused, is recorded as a failure. */
  function SettleTables(t: Tables, i: nat, outcome: Outcome, ok: bool, failOk: bool, max: int, now: int): Tables
    requires i < |t.inbox|
  {
    if outcome.Broken? then (if ok then FailInbox(t, i, max, now) else t)
    else if ok then CompleteWithOutbox(t, i, t.inbox[i].update, now)
    else if failOk then FailInbox(t, i, max, now)
    else t
  }

  function Next(le: Order, max: int, w: World, step: Step): World {
    match step
    case Restart =>
      if !w.phase.Down? then w
      else w.(t := Reopen(w.t), phase := Idle,
              interrupted := Bump(w.interrupted, RunningRows(w.t)), resent := Bump(w.resent, SendingRows(w.t)))
    case Crash => w.(phase := Down)
    case Receive(update, ok, now) =>
      if w.phase.Idle? && ok then w.(t := Ingest(w.t, update, now)) else w
    case Take(ok, now) =>
      var row := FirstInReady(le, w.t.inbox, now, 0);
      if w.phase.Idle? && ok && row.Some? then w.(t := ClaimInbox(le, w.t, now), phase := Claimed(row.value)) else w
    case Invoke =>
      if w.phase.Claimed? then w.(phase := Handling(w.phase.row), handled := Bump(w.handled, {w.phase.row})) else w
    case Settle(outcome, ok, failOk, now) =>
      if w.phase.Handling? && w.phase.row < |w.t.inbox| then
        w.(t := SettleTables(w.t, w.phase.row, outcome, ok, failOk, max, now), phase := Idle)
      else w
    case TakeReply(ok, now) =>
      var row := FirstOutReady(le, w.t.outbox, now, 0);
      if w.phase.Idle? && ok && row.Some? then w.(t := ClaimOutbox(le, w.t, now), phase := Sending(row.value)) else w
    case Send(success, ok, now) =>
      if !w.phase.Sending? then w
      else if success then w.(phase := Delivered(w.phase.row), delivered := Bump(w.delivered, {w.phase.row}))
      else w.(t := if ok then OutboxFailed(w.t, w.phase.row, max, now) else w.t, phase := Idle)
    case Confirm(ok) =>
      if w.phase.Delivered? then w.(t := if ok then OutboxSent(w.t, w.phase.row) else w.t, phase := Idle) else w
  }

  function Run(le: Order, max: int, w: World, steps: seq<Step>): World
    decreases |steps|
  {
    if steps == [] then w else Run(le, max, Next(le, max, w, steps[0]), steps[1..])
  }

  /******* Invariants *******/

  /** The process only ever holds rows that are in flight. */
  predicate PhaseFits(w: World) {
    match w.phase
    case Claimed(i) => i < |w.t.inbox| && w.t.inbox[i].state.InRunning?
    case Handling(i) => i < |w.t.inbox| && w.t.inbox[i].state.InRunning?
    case Sending(k) => k < |w.t.outbox| && w.t.outbox[k].state.OutSending?
    case Delivered(k) => k < |w.t.outbox| && w.t.outbox[k].state.OutSending?
    case _ => true
  }

  /** Claims bound handler calls, and only restarts lift them over the limit; nothing is given
      up before the limit. */
  predicate InBudget(row: InRow, max: int, handled: nat, awaiting: bool, interrupted: nat) {
    && handled + (if awaiting then 1 else 0) <= row.attempts
    && row.attempts <= max + interrupted - (if row.state.InPending? then 1 else 0)
    && (row.state.InDead? ==> row.attempts >= max)
  }

  /** A reply goes out once, and once more for every restart that found it in flight; it is
      tried within the limit, and past it only by such restarts. */
  predicate OutBudget(row: OutRow, max: int, delivered: nat, unsent: bool, resent: nat) {
    && (if row.state.OutPending? || row.state.OutDead? || unsent then delivered <= resent else delivered <= resent + 1)
    && row.attempts <= max + resent - Count(row.state.OutPending?)
    && (row.state.OutDead? ==> row.attempts >= max)
  }

  ghost predicate Budgets(w: World, max: int) {
    && (forall i :: 0 <= i < |w.t.inbox| ==>
          InBudget(w.t.inbox[i], max, w.handled(i), w.phase == Claimed(i), w.interrupted(i)))
    && (forall k :: 0 <= k < |w.t.outbox| ==>
          OutBudget(w.t.outbox[k], max, w.delivered(k), w.phase == Sending(k), w.resent(k)))
    && (forall i: nat :: i >= |w.t.inbox| ==> w.handled(i) == 0)
    && (forall k: nat :: k >= |w.t.outbox| ==> w.delivered(k) == 0)
  }

  ghost predicate Inv(w: World, max: int) {
    Sound(w.t) && PhaseFits(w) && Budgets(w, max)
  }

  /******* Every step keeps the invariant *******/

  lemma RestartKeeps(le: Order, w: World, max: int)
    requires Inv(w, max)
    ensures Inv(Next(le, max, w, Restart), max)
  {
    SameShapeSound(w.t, Reopen(w.t));
  }

  lemma ReceiveKeeps(le: Order, w: World, max: int, update: int, ok: bool, now: int)
    requires max >= 1 && Inv(w, max)
    ensures Inv(Next(le, max, w, Receive(update, ok, now)), max)
  {
    IngestSound(w.t, update, now);
  }

  lemma TakeKeeps(le: Order, w: World, max: int, ok: bool, now: int)
    requires Inv(w, max)
    ensures Inv(Next(le, max, w, Take(ok, now)), max)
  {
    SameShapeSound(w.t, ClaimInbox(le, w.t, now));
  }

  lemma InvokeKeeps(le: Order, w: World, max: int)
    requires Inv(w, max)
    ensures Inv(Next(le, max, w, Invoke), max)
  {
    if w.phase.Claimed? {
      var w' := Next(le, max, w, Invoke);
      forall i | 0 <= i < |w.t.inbox|
        ensures InBudget(w'.t.inbox[i], max, w'.handled(i), w'.phase == Claimed(i), w'.interrupted(i))
      {
        assert InBudget(w.t.inbox[i], max, w.handled(i), w.phase == Claimed(i), w.interrupted(i));
      }
      forall k | 0 <= k < |w.t.outbox|
        ensures OutBudget(w'.t.outbox[k], max, w'.delivered(k), w'.phase == Sending(k), w'.resent(k))
      {
        assert OutBudget(w.t.outbox[k], max, w.delivered(k), w.phase == Sending(k), w.resent(k));
      }
    }
  }

  lemma FailKeeps(w: World, max: int, i: nat, now: int)
    requires Inv(w, max) && w.phase == Handling(i)
    ensures Inv(w.(t := FailInbox(w.t, i, max, now), phase := Idle), max)
  {
    SameShapeSound(w.t, FailInbox(w.t, i, max, now));
  }

  lemma CompleteBudgets(w: World, max: int, i: nat, now: int)
    requires max >= 1 && Budgets(w, max) && w.phase == Handling(i) && i < |w.t.inbox| && !w.t.inbox[i].state.InPending?
    ensures Budgets(w.(t := CompleteWithOutbox(w.t, i, w.t.inbox[i].update, now), phase := Idle), max)
  {
    var w' := w.(t := CompleteWithOutbox(w.t, i, w.t.inbox[i].update, now), phase := Idle);
    forall k | 0 <= k < |w'.t.outbox|
      ensures OutBudget(w'.t.outbox[k], max, w'.delivered(k), w'.phase == Sending(k), w'.resent(k))
    {
      assert k < |w.t.outbox| ==> OutBudget(w.t.outbox[k], max, w.delivered(k), w.phase == Sending(k), w.resent(k));
    }
  }

  lemma CompleteKeeps(w: World, max: int, i: nat, now: int)
    requires max >= 1 && Inv(w, max) && w.phase == Handling(i)
    ensures Inv(w.(t := CompleteWithOutbox(w.t, i, w.t.inbox[i].update, now), phase := Idle), max)
  {
    CompleteSound(w.t, i, now);
    CompleteBudgets(w, max, i, now);
  }

  lemma SettleKeeps(le: Order, w: World, max: int, outcome: Outcome, ok: bool, failOk: bool, now: int)
    requires max >= 1 && Inv(w, max)
    ensures Inv(Next(le, max, w, Settle(outcome, ok, failOk, now)), max)
  {
    if w.phase.Handling? {
      FailKeeps(w, max, w.phase.row, now);
      CompleteKeeps(w, max, w.phase.row, now);
    }
  }

  lemma TakeReplyKeeps(le: Order, w: World, max: int, ok: bool, now: int)
    requires Inv(w, max)
    ensures Inv(Next(le, max, w, TakeReply(ok, now)), max)
  {
    SameShapeSound(w.t, ClaimOutbox(le, w.t, now));
  }

  lemma SendKeeps(le: Order, w: World, max: int, success: bool, ok: bool, now: int)
    requires Inv(w, max)
    ensures Inv(Next(le, max, w, Send(success, ok, now)), max)
  {
    if w.phase.Sending? {
      SameShapeSound(w.t, OutboxFailed(w.t, w.phase.row, max, now));
    }
  }

  lemma ConfirmKeeps(le: Order, w: World, max: int, ok: bool)
    requires Inv(w, max)
    ensures Inv(Next(le, max, w, Confirm(ok)), max)
  {
    if w.phase.Delivered? {
      SameShapeSound(w.t, OutboxSent(w.t, w.phase.row));
    }
  }

  lemma NextKeeps(le: Order, max: int, w: World, step: Step)
    requires max >= 1 && Inv(w, max)
    ensures Inv(Next(le, max, w, step), max)
  {
    match step
    case Restart => RestartKeeps(le, w, max);
    case Crash =>
    case Receive(update, ok, now) => ReceiveKeeps(le, w, max, update, ok, now);
    case Take(ok, now) => TakeKeeps(le, w, max, ok, now);
    case Invoke => InvokeKeeps(le, w, max);
    case Settle(outcome, ok, failOk, now) => SettleKeeps(le, w, max, outcome, ok, failOk, now);
    case TakeReply(ok, now) => TakeReplyKeeps(le, w, max, ok, now);
    case Send(success, ok, now) => SendKeeps(le, w, max, success, ok, now);
    case Confirm(ok) => ConfirmKeeps(le, w, max, ok);
  }

  lemma {:induction false} RunKeeps(le: Order, max: int, w: World, steps: seq<Step>)
    requires max >= 1 && Inv(w, max)
    ensures Inv(Run(le, max, w, steps), max)
    decreases |steps|
  {
    if steps != [] {
      NextKeeps(le, max, w, steps[0]);
      RunKeeps(le, max, Next(le, max, w, steps[0]), steps[1..]);
    }
  }

  /******* Whole-run claims *******/

  function CountIn(inbox: seq<InRow>, state: InState): nat {
    if inbox == [] then 0 else CountIn(inbox[..|inbox| - 1], state) + if inbox[|inbox| - 1].state == state then 1 else 0
  }

  lemma {:induction false} CountsAddUp(inbox: seq<InRow>)
    ensures CountIn(inbox, InPending) + CountIn(inbox, InRunning) + CountIn(inbox, InCompleted) + CountIn(inbox, InDead) == |inbox|
  {
    if inbox != [] {
      CountsAddUp(inbox[..|inbox| - 1]);
    }
  }

  lemma {:induction false} DistinctUpdatesCount(inbox: seq<InRow>)
    requires forall i, j :: 0 <= i < j < |inbox| ==> inbox[i].update != inbox[j].update
    ensures |Updates(inbox)| == |inbox|
  {
    if inbox != [] {
      var front, last := inbox[..|inbox| - 1], inbox[|inbox| - 1].update;
      DistinctUpdatesCount(front);
      assert last !in Updates(front);
      assert Updates(inbox) == Updates(front) + {last} by {
        forall u | u in Updates(front) + {last}
          ensures u in Updates(inbox)
        {
          if u == last {
            assert inbox[|inbox| - 1].update == u;
          } else {
            var i :| 0 <= i < |front| && front[i].update == u;
            assert inbox[i].update == u;
          }
        }
      }
    }
  }

  /** Through any run: as many rows as updates, each pending, running, completed or
      dead; at most one reply per update; a row completed exactly if its reply exists. */
  lemma EveryUpdateAccountedFor(le: Order, max: int, steps: seq<Step>)
    requires max >= 1
    ensures
      var t := Run(le, max, Start(), steps).t;
      && Sound(t)
      && CountIn(t.inbox, InPending) + CountIn(t.inbox, InRunning) + CountIn(t.inbox, InCompleted) + CountIn(t.inbox, InDead) == |t.seen|
  {
    RunKeeps(le, max, Start(), steps);
    var t := Run(le, max, Start(), steps).t;
    CountsAddUp(t.inbox);
    DistinctUpdatesCount(t.inbox);
  }

  /** What the histories record. */
  datatype Happening = HandlerCall | Delivery | Interruption | Resend

  /** The step makes it happen to row `i`. */
  predicate Happens(w: World, step: Step, what: Happening, i: nat) {
    match what
    case HandlerCall => step.Invoke? && w.phase == Claimed(i)
    case Delivery => step.Send? && step.success && w.phase == Sending(i)
    case Interruption => step.Restart? && w.phase.Down? && i < |w.t.inbox| && w.t.inbox[i].state == InRunning
    case Resend => step.Restart? && w.phase.Down? && i < |w.t.outbox| && w.t.outbox[i].state == OutSending
  }

  function HistoryOf(w: World, what: Happening, i: nat): nat {
    match what
    case HandlerCall => w.handled(i)
    case Delivery => w.delivered(i)
    case Interruption => w.interrupted(i)
    case Resend => w.resent(i)
  }

  /** How often it happens to row `i` in a run. */
  function Times(le: Order, max: int, w: World, steps: seq<Step>, what: Happening, i: nat): nat
    decreases |steps|
  {
    if steps == [] then 0
    else Count(Happens(w, steps[0], what, i)) + Times(le, max, Next(le, max, w, steps[0]), steps[1..], what, i)
  }

  lemma StepRecords(le: Order, max: int, w: World, step: Step, what: Happening, i: nat)
    ensures HistoryOf(Next(le, max, w, step), what, i) == HistoryOf(w, what, i) + Count(Happens(w, step, what, i))
  {
  }

  lemma {:induction false} HistoriesCount(le: Order, max: int, w: World, steps: seq<Step>, what: Happening, i: nat)
    ensures HistoryOf(Run(le, max, w, steps), what, i) == HistoryOf(w, what, i) + Times(le, max, w, steps, what, i)
    decreases |steps|
  {
    if steps != [] {
      StepRecords(le, max, w, steps[0], what, i);
      HistoriesCount(le, max, Next(le, max, w, steps[0]), steps[1..], what, i);
    }
  }

  /** A handler sees one update at most MaxAttempts times, plus once for every restart
      that found it in flight; a reply is sent at most once, plus once for every such
      restart, and tried at most MaxAttempts times plus those restarts; an update or a
      reply is given up only after MaxAttempts attempts.  Failing store calls are covered:
      what they leave in flight is counted by the restart that picks it up. */
  lemma BoundedEffects(le: Order, max: int, steps: seq<Step>, i: nat)
    requires max >= 1
    ensures
      var t := Run(le, max, Start(), steps).t;
      && Times(le, max, Start(), steps, HandlerCall, i) <= max + Times(le, max, Start(), steps, Interruption, i)
      && Times(le, max, Start(), steps, Delivery, i) <= 1 + Times(le, max, Start(), steps, Resend, i)
      && (i < |t.outbox| ==> t.outbox[i].attempts <= max + Times(le, max, Start(), steps, Resend, i))
      && (i < |t.inbox| && t.inbox[i].state == InDead ==> t.inbox[i].attempts >= max)
      && (i < |t.outbox| && t.outbox[i].state == OutDead ==> t.outbox[i].attempts >= max)
  {
    RunKeeps(le, max, Start(), steps);
    HistoriesCount(le, max, Start(), steps, HandlerCall, i);
    HistoriesCount(le, max, Start(), steps, Delivery, i);
    HistoriesCount(le, max, Start(), steps, Interruption, i);
    HistoriesCount(le, max, Start(), steps, Resend, i);
    var w := Run(le, max, Start(), steps);
    if i < |w.t.inbox| {
      assert InBudget(w.t.inbox[i], max, w.handled(i), w.phase == Claimed(i), w.interrupted(i));
    }
    if i < |w.t.outbox| {
      assert OutBudget(w.t.outbox[i], max, w.delivered(i), w.phase == Sending(i), w.resent(i));
    }
  }

  predicate InFollows(r: InRow, r': InRow) {
    r'.update == r.update && (r.state.InCompleted? || r.state.InDead? ==> r' == r)
  }

  predicate OutFollows(r: OutRow, r': OutRow) {
    r'.key == r.key && (r.state.OutSent? || r.state.OutDead? ==> r' == r)
  }

  /** Rows are never lost, and a settled row or reply never changes again. */
  predicate Follows(t: Tables, t': Tables) {
    && t.seen <= t'.seen && |t.inbox| <= |t'.inbox| && |t.outbox| <= |t'.outbox|
    && (forall i :: 0 <= i < |t.inbox| ==> InFollows(t.inbox[i], t'.inbox[i]))
    && (forall k :: 0 <= k < |t.outbox| ==> OutFollows(t.outbox[k], t'.outbox[k]))
  }

  lemma SettleFollows(t: Tables, i: nat, outcome: Outcome, ok: bool, failOk: bool, max: int, now: int)
    requires i < |t.inbox| && t.inbox[i].state.InRunning?
    ensures Follows(t, SettleTables(t, i, outcome, ok, failOk, max, now))
  {
  }

  lemma RowFollows(t: Tables, inbox: seq<InRow>, i: nat, row: InRow)
    requires i < |t.inbox| && inbox == t.inbox[i := row] && InFollows(t.inbox[i], row)
    ensures Follows(t, t.(inbox := inbox))
  {
  }

  lemma ReplyFollows(t: Tables, outbox: seq<OutRow>, k: nat, row: OutRow)
    requires k < |t.outbox| && outbox == t.outbox[k := row] && OutFollows(t.outbox[k], row)
    ensures Follows(t, t.(outbox := outbox))
  {
  }

  lemma RestartFollows(t: Tables)
    ensures Follows(t, Reopen(t))
  {
  }

  lemma TakeFollows(le: Order, max: int, w: World, ok: bool, now: int)
    ensures Follows(w.t, Next(le, max, w, Take(ok, now)).t)
  {
    var row := FirstInReady(le, w.t.inbox, now, 0);
    if row.Some? {
      var t' := ClaimInbox(le, w.t, now);
      RowFollows(w.t, t'.inbox, row.value, StartRow(w.t.inbox[row.value]));
    }
  }

  lemma TakeReplyFollows(le: Order, max: int, w: World, ok: bool, now: int)
    ensures Follows(w.t, Next(le, max, w, TakeReply(ok, now)).t)
  {
    var row := FirstOutReady(le, w.t.outbox, now, 0);
    if row.Some? {
      var t' := ClaimOutbox(le, w.t, now);
      ReplyFollows(w.t, t'.outbox, row.value, t'.outbox[row.value]);
    }
  }

  lemma SendFollows(le: Order, max: int, w: World, step: Step)
    requires PhaseFits(w) && (step.Send? || step.Confirm?)
    ensures Follows(w.t, Next(le, max, w, step).t)
  {
    if w.phase.Sending? || w.phase.Delivered? {
      var k, outbox := w.phase.row, Next(le, max, w, step).t.outbox;
      ReplyFollows(w.t, outbox, k, outbox[k]);
    }
  }

  lemma NextFollows(le: Order, max: int, w: World, step: Step)
    requires max >= 1 && Inv(w, max)
    ensures Follows(w.t, Next(le, max, w, step).t)
  {
    match step
    case Restart => RestartFollows(w.t);
    case Settle(outcome, ok, failOk, now) =>
      if w.phase.Handling? {
        SettleFollows(w.t, w.phase.row, outcome, ok, failOk, max, now);
      }
    case Take(ok, now) => TakeFollows(le, max, w, ok, now);
    case TakeReply(ok, now) => TakeReplyFollows(le, max, w, ok, now);
    case Send(_, _, _) => SendFollows(le, max, w, step);
    case Confirm(_) => SendFollows(le, max, w, step);
    case _ =>
  }

  lemma {:induction false} NothingLost(le: Order, max: int, w: World, steps: seq<Step>)
    requires max >= 1 && Inv(w, max)
    ensures Follows(w.t, Run(le, max, w, steps).t)
    decreases |steps|
  {
    if steps != [] {
      NextFollows(le, max, w, steps[0]);
      NextKeeps(le, max, w, steps[0]);
      NothingLost(le, max, Next(le, max, w, steps[0]), steps[1..]);
    }
  }

  /******* The drain loops *******/

  /** How many turns a pending row can still cost. */
  function TurnsLeft(row: InRow, max: int): nat {
    if row.state.InPending? then 1 + (if max > row.attempts then max - row.attempts else 0) else 0
  }

  function Weight(inbox: seq<InRow>, max: int): nat {
    if inbox == [] then 0 else Weight(inbox[..|inbox| - 1], max) + TurnsLeft(inbox[|inbox| - 1], max)
  }

  lemma {:induction false} WeightUpdate(inbox: seq<InRow>, i: nat, row: InRow, max: int)
    requires i < |inbox|
    ensures Weight(inbox[i := row], max) == Weight(inbox, max) - TurnsLeft(inbox[i], max) + TurnsLeft(row, max)
  {
    var n := |inbox| - 1;
    if i == n {
      assert inbox[i := row][..n] == inbox[..n];
    } else {
      assert inbox[i := row][..n] == inbox[..n][i := row];
      WeightUpdate(inbox[..n], i, row, max);
    }
  }

  function CountReady(outbox: seq<OutRow>): nat {
    if outbox == [] then 0 else CountReady(outbox[..|outbox| - 1]) + if outbox[|outbox| - 1].state.OutPending? then 1 else 0
  }

  lemma {:induction false} CountReadyUpdate(outbox: seq<OutRow>, i: nat, row: OutRow)
    requires i < |outbox| && outbox[i].state.OutPending? && !row.state.OutPending?
    ensures CountReady(outbox[i := row]) == CountReady(outbox) - 1
  {
    var n := |outbox| - 1;
    if i == n {
      assert outbox[i := row][..n] == outbox[..n];
    } else {
      assert outbox[i := row][..n] == outbox[..n][i := row];
      CountReadyUpdate(outbox[..n], i, row);
    }
  }

  /** What the world does in one turn of the inbox loop: the clock readings, the
      handler's outcome, and which store calls succeed. */
  datatype Turn = Turn(claimOk: bool, claimAt: int, outcome: Outcome, storeOk: bool, failOk: bool, settleAt: int)

  function TakeTurn(le: Order, t: Tables, max: int, turn: Turn): Tables {
    var row := FirstInReady(le, t.inbox, turn.claimAt, 0);
    if row.None? then t
    else SettleTables(ClaimInbox(le, t, turn.claimAt), row.value, turn.outcome, turn.storeOk, turn.failOk, max, turn.settleAt)
  }

  /** The tables after `n` full turns of the inbox loop. */
  function AfterTurns(le: Order, t: Tables, max: int, script: nat -> Turn, n: nat): Tables {
    if n == 0 then t else TakeTurn(le, AfterTurns(le, t, max, script, n - 1), max, script(n - 1))
  }

  /** Every turn makes the inbox lighter, whatever the clock, the handler and the store do. */
  lemma TurnLightens(le: Order, t: Tables, max: int, turn: Turn)
    requires FirstInReady(le, t.inbox, turn.claimAt, 0).Some?
    ensures Weight(TakeTurn(le, t, max, turn).inbox, max) < Weight(t.inbox, max)
  {
    var i := FirstInReady(le, t.inbox, turn.claimAt, 0).value;
    var started, settled := ClaimInbox(le, t, turn.claimAt).inbox, TakeTurn(le, t, max, turn).inbox;
    WeightUpdate(t.inbox, i, StartRow(t.inbox[i]), max);
    assert settled == started[i := settled[i]];
    WeightUpdate(started, i, settled[i], max);
  }

  /** One turn of the outbox loop. */
  datatype SendTurn = SendTurn(claimOk: bool, claimAt: int, sendOk: bool, storeOk: bool, failedAt: int)

  /** The first `n` turns of the script claim a reply and send it. */
  predicate AllSent(script: nat -> SendTurn, n: nat) {
    n == 0 || (script(n - 1).claimOk && script(n - 1).sendOk && AllSent(script, n - 1))
  }

  function TakeSend(le: Order, t: Tables, max: int, turn: SendTurn): Tables {
    var row := FirstOutReady(le, t.outbox, turn.claimAt, 0);
    if row.None? then t
    else
      var u := ClaimOutbox(le, t, turn.claimAt);
      if !turn.storeOk then u
      else if turn.sendOk then OutboxSent(u, row.value)
      else OutboxFailed(u, row.value, max, turn.failedAt)
  }

  function AfterSends(le: Order, t: Tables, max: int, script: nat -> SendTurn, n: nat): Tables {
    if n == 0 then t else TakeSend(le, AfterSends(le, t, max, script, n - 1), max, script(n - 1))
  }

  lemma TurnSound(le: Order, t: Tables, max: int, turn: Turn)
    requires Sound(t)
    ensures Sound(TakeTurn(le, t, max, turn))
  {
    var row := FirstInReady(le, t.inbox, turn.claimAt, 0);
    if row.Some? {
      var u := ClaimInbox(le, t, turn.claimAt);
      SameShapeSound(t, u);
      FailSound(u, row.value, max, turn.settleAt);
      CompleteAgainSound(u, row.value, turn.settleAt);
    }
  }

  lemma SendSound(le: Order, t: Tables, max: int, turn: SendTurn)
    requires Sound(t)
    ensures Sound(TakeSend(le, t, max, turn))
  {
    SameShapeSound(t, TakeSend(le, t, max, turn));
  }

  /** However many turns the loops take, the tables they leave are sound. */
  lemma {:induction false} DrainsKeepSound(le: Order, t: Tables, max: int, turns: nat -> Turn, sends: nat -> SendTurn, n: nat)
    requires Sound(t)
    ensures Sound(AfterTurns(le, t, max, turns, n)) && Sound(AfterSends(le, t, max, sends, n))
  {
    if n > 0 {
      DrainsKeepSound(le, t, max, turns, sends, n - 1);
      TurnSound(le, AfterTurns(le, t, max, turns, n - 1), max, turns(n - 1));
      SendSound(le, AfterSends(le, t, max, sends, n - 1), max, sends(n - 1));
    }
  }

  lemma SendLightens(le: Order, t: Tables, max: int, turn: SendTurn)
    requires turn.sendOk && FirstOutReady(le, t.outbox, turn.claimAt, 0).Some?
    ensures CountReady(TakeSend(le, t, max, turn).outbox) == CountReady(t.outbox) - 1
  {
    var k := FirstOutReady(le, t.outbox, turn.claimAt, 0).value;
    var sent := TakeSend(le, t, max, turn).outbox;
    assert sent == t.outbox[k := sent[k]];
    CountReadyUpdate(t.outbox, k, sent[k]);
  }

  /** A poll that comes through stores the update: once, as a last row that waits for its first
      attempt; otherwise nothing changes. */
  lemma ReceiveOutcome(le: Order, max: int, w: World, update: int, ok: bool, now: int)
    ensures
      var t' := Next(le, max, w, Receive(update, ok, now)).t;
      && t'.outbox == w.t.outbox
      && t'.seen == (if w.phase.Idle? && ok then w.t.seen + {update} else w.t.seen)
      && t'.inbox == (if w.phase.Idle? && ok && update !in w.t.seen then w.t.inbox + [InRow(update, InPending, 0, now)]
                      else w.t.inbox)
  {
  }

  /** After a crash and a restart nothing is in flight: whatever was is pending again with its
      attempts, and every other row and reply is as it was. */
  lemma RestartOutcome(le: Order, max: int, w: World)
    ensures
      var w' := Next(le, max, Next(le, max, w, Crash), Restart);
      && w'.phase.Idle? && w'.t.seen == w.t.seen && |w'.t.inbox| == |w.t.inbox| && |w'.t.outbox| == |w.t.outbox|
      && (forall i :: 0 <= i < |w.t.inbox| ==>
            w'.t.inbox[i] == (if w.t.inbox[i].state == InRunning then w.t.inbox[i].(state := InPending) else w.t.inbox[i]))
      && (forall k :: 0 <= k < |w.t.outbox| ==>
            w'.t.outbox[k] == (if w.t.outbox[k].state == OutSending then w.t.outbox[k].(state := OutPending) else w.t.outbox[k]))
  {
  }

  /** A turn of the loop is three steps of the process that nothing interrupts. */
  lemma TurnIsThreeSteps(le: Order, max: int, w: World, turn: Turn)
    requires Inv(w, max) && w.phase.Idle? && turn.claimOk && FirstInReady(le, w.t.inbox, turn.claimAt, 0).Some?
    ensures
      var steps := [Take(true, turn.claimAt), Invoke, Settle(turn.outcome, turn.storeOk, turn.failOk, turn.settleAt)];
      && Run(le, max, w, steps).t == AfterTurns(le, w.t, max, n => turn, 1)
      && Run(le, max, w, steps).phase.Idle?
  {
    var steps := [Take(true, turn.claimAt), Invoke, Settle(turn.outcome, turn.storeOk, turn.failOk, turn.settleAt)];
    var w1 := Next(le, max, w, steps[0]);
    var w2 := Next(le, max, w1, steps[1]);
    var w3 := Next(le, max, w2, steps[2]);
    assert Run(le, max, w, steps) == Run(le, max, w1, steps[1..]);
    assert Run(le, max, w1, steps[1..]) == Run(le, max, w2, steps[1..][1..]);
    assert Run(le, max, w2, steps[1..][1..]) == Run(le, max, w3, steps[1..][1..][1..]);
    assert AfterTurns(le, w.t, max, n => turn, 1) == TakeTurn(le, AfterTurns(le, w.t, max, n => turn, 0), max, turn);
  }

  /** A turn of the outbox loop is the claim, the send and, after a success, its record. */
  lemma SendIsProcessSteps(le: Order, max: int, w: World, turn: SendTurn)
    requires Inv(w, max) && w.phase.Idle? && turn.claimOk && FirstOutReady(le, w.t.outbox, turn.claimAt, 0).Some?
    ensures
      var steps := [TakeReply(true, turn.claimAt), Send(turn.sendOk, turn.storeOk, turn.failedAt), Confirm(turn.storeOk)];
      && Run(le, max, w, steps).t == TakeSend(le, w.t, max, turn)
      && Run(le, max, w, steps).phase.Idle?
  {
    var steps := [TakeReply(true, turn.claimAt), Send(turn.sendOk, turn.storeOk, turn.failedAt), Confirm(turn.storeOk)];
    var w1 := Next(le, max, w, steps[0]);
    var w2 := Next(le, max, w1, steps[1]);
    var w3 := Next(le, max, w2, steps[2]);
    assert Run(le, max, w, steps) == Run(le, max, w1, steps[1..]);
    assert Run(le, max, w1, steps[1..]) == Run(le, max, w2, steps[1..][1..]);
    assert Run(le, max, w2, steps[1..][1..]) == Run(le, max, w3, steps[1..][1..][1..]);
  }

  class Gateway {
    const queue: Queue
    const max: int

    constructor (queue: Queue, maxAttempts: int)
      ensures this.queue == queue && this.max == if maxAttempts <= 0 then 5 else maxAttempts
    {
      this.queue := queue;
      this.max := if maxAttempts <= 0 then 5 else maxAttempts;
    }

    /** The handler has come back for row `i`. */
    method SettleRow(i: nat, turn: Turn)
      requires i < |queue.inbox|
      modifies queue
      ensures queue.State() == SettleTables(old(queue.State()), i, turn.outcome, turn.storeOk, turn.failOk, max, turn.settleAt)
      ensures !old(queue.inbox[i]).state.InCompleted? ==>
                (queue.inbox[i].state.InCompleted? <==> !turn.outcome.Broken? && turn.storeOk)
      ensures (turn.outcome.Broken? && turn.storeOk) || (!turn.outcome.Broken? && !turn.storeOk && turn.failOk) ==>
                queue.inbox[i].state == if old(queue.inbox[i]).attempts >= max then InDead else InPending
      ensures old(Sound(queue.State())) && !old(queue.inbox[i]).state.InCompleted? ==> Sound(queue.State())
    {
      if turn.outcome.Broken? {
        if turn.storeOk {
          queue.Fail(i, max, turn.settleAt);
        }
      } else if turn.storeOk {
        queue.Complete(i, queue.inbox[i].update, turn.settleAt);
      } else if turn.failOk {
        queue.Fail(i, max, turn.settleAt);
      }
    }

    /** One turn of the inbox loop: claim a row, call the handler, settle the row. */
    method HandleNext(turn: Turn) returns (found: bool)
      modifies queue
      ensures found <==> turn.claimOk && old(FirstInReady(queue.le, queue.inbox, turn.claimAt, 0)).Some?
      ensures queue.State() == if found then TakeTurn(queue.le, old(queue.State()), max, turn) else old(queue.State())
      ensures old(Sound(queue.State())) ==> Sound(queue.State())
    {
      if !turn.claimOk {
        return false;
      }
      var row := queue.ClaimNext(turn.claimAt);
      found := row.Some?;
      if found {
        SettleRow(row.value, turn);
      }
    }

    /** Handle every claimable row.  The loop stops for every clock, every handler and
        every pattern of store failures, within the initial weight of the inbox. */
    method DrainInbox(script: nat -> Turn) returns (turns: nat)
      modifies queue
      ensures turns <= old(Weight(queue.inbox, max))
      ensures queue.State() == AfterTurns(queue.le, old(queue.State()), max, script, turns)
      ensures !script(turns).claimOk || forall i :: 0 <= i < |queue.inbox| ==> !InReady(queue.le, queue.inbox[i], script(turns).claimAt)
    {
      turns := 0;
      ghost var start, weight := queue.State(), Weight(queue.inbox, max);
      while true
        invariant turns + Weight(queue.inbox, max) <= weight
        invariant queue.State() == AfterTurns(queue.le, start, max, script, turns)
        decreases Weight(queue.inbox, max)
      {
        ghost var before := queue.State();
        var found := HandleNext(script(turns));
        if !found {
          return;
        }
        TurnLightens(queue.le, before, max, script(turns));
        turns := turns + 1;
      }
    }

    /** One turn of the outbox loop: claim a reply, send it, record the outcome. */
    method SendNext(turn: SendTurn) returns (found: bool)
      modifies queue
      ensures found <==> turn.claimOk && old(FirstOutReady(queue.le, queue.outbox, turn.claimAt, 0)).Some?
      ensures queue.State() == if found then TakeSend(queue.le, old(queue.State()), max, turn) else old(queue.State())
      ensures found ==>
                var k := old(FirstOutReady(queue.le, queue.outbox, turn.claimAt, 0)).value;
                var tried := old(queue.outbox)[k].attempts + 1;
                && k < |queue.outbox| && queue.outbox[k].attempts == tried && queue.outbox[k].key == old(queue.outbox)[k].key
                && queue.outbox[k].state == (if !turn.storeOk then OutSending else if turn.sendOk then OutSent
                                             else if tried >= max then OutDead else OutPending)
      ensures old(Sound(queue.State())) ==> Sound(queue.State())
    {
      if !turn.claimOk {
        return false;
      }
      var row := queue.ClaimReply(turn.claimAt);
      found := row.Some?;
      if found && turn.storeOk {
        if turn.sendOk {
          queue.MarkSent(row.value);
        } else {
          queue.MarkFailed(row.value, max, turn.failedAt);
        }
      }
    }

    /** Send the pending replies until none is ready, a claim fails or a send fails;
        `sent` counts the successful sends. */
    method DrainOutbox(script: nat -> SendTurn) returns (sent: nat)
      modifies queue
      ensures sent <= old(CountReady(queue.outbox))
      ensures AllSent(script, sent)
      ensures
        var reached := AfterSends(queue.le, old(queue.State()), max, script, sent);
        if script(sent).claimOk && FirstOutReady(queue.le, reached.outbox, script(sent).claimAt, 0).Some?
        then !script(sent).sendOk && queue.State() == TakeSend(queue.le, reached, max, script(sent))
        else queue.State() == reached
    {
      sent := 0;
      ghost var start, ready := queue.State(), CountReady(queue.outbox);
      while true
        invariant sent + CountReady(queue.outbox) <= ready
        invariant AllSent(script, sent)
        invariant queue.State() == AfterSends(queue.le, start, max, script, sent)
        decreases CountReady(queue.outbox)
      {
        ghost var before := queue.State();
        var found := SendNext(script(sent));
        if !found || !script(sent).sendOk {
          return;
        }
        SendLightens(queue.le, before, max, script(sent));
        sent := sent + 1;
      }
    }

    /** What the gateway does with one polled update: reject it, or try to store it. */
    function Accepts(u: Polled): bool { u.isPrivate && u.fromOwner && u.allowed && u.storeOk }

    /** Take in one batch of polled updates and move the poll offset. */
    method IngestBatch(updates: seq<Polled>, offset: int) returns (next: int)
      modifies queue
      ensures next >= offset && forall k :: 0 <= k < |updates| ==> next > updates[k].id
      ensures next == offset || exists k :: 0 <= k < |updates| && next == updates[k].id + 1
      ensures queue.seen == old(queue.seen) + set k | 0 <= k < |updates| && Accepts(updates[k]) :: updates[k].id
      ensures forall id :: id in queue.seen <==>
                || id in old(queue.seen)
                || exists k :: (0 <= k < |updates| && updates[k].id == id
                                && updates[k].isPrivate && updates[k].fromOwner && updates[k].allowed && updates[k].storeOk)
      ensures queue.outbox == old(queue.outbox) && old(queue.inbox) <= queue.inbox
      ensures forall i :: |old(queue.inbox)| <= i < |queue.inbox| ==> queue.inbox[i].state == InPending && queue.inbox[i].attempts == 0
      ensures old(Sound(queue.State())) ==> Sound(queue.State())
    {
      next := offset;
      var k := 0;
      while k < |updates|
        invariant 0 <= k <= |updates|
        invariant next >= offset && forall j :: 0 <= j < k ==> next > updates[j].id
        invariant next == offset || exists j :: 0 <= j < k && next == updates[j].id + 1
        invariant queue.seen == old(queue.seen) + set j | 0 <= j < k && Accepts(updates[j]) :: updates[j].id
        invariant queue.outbox == old(queue.outbox) && old(queue.inbox) <= queue.inbox
        invariant forall i :: |old(queue.inbox)| <= i < |queue.inbox| ==> queue.inbox[i].state == InPending && queue.inbox[i].attempts == 0
        invariant old(Sound(queue.State())) ==> Sound(queue.State())
      {
        var u := updates[k];
        if u.id >= next {
          next := u.id + 1;
        }
        if Accepts(u) {
          var inserted := queue.IngestUpdate(u.id, u.at);
        }
        k := k + 1;
      }
    }
  }

  /** A polled update with the checks it meets on its way to the store. */
  datatype Polled = Polled(id: int, isPrivate: bool, fromOwner: bool, allowed: bool, storeOk: bool, at: int)
}
