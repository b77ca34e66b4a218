/** The publish workflow as a protocol: any number of overlapping Resume calls, crashes
    and recoveries over one draft table, one approval book and one provider. */
module InstagramPublish {
  import opened Prelude
  import opened Approvals
  import opened InstagramStore

  const TOOL := "instagram.publish"

  /** What an approval is bound to.  The program hashes its JSON form, with the publish
      time as text; the model hashes the binding itself. */
  datatype Binding = Binding(draft: string, account: string, assetHash: string, captionHash: string, publishAt: int)

  function BindingFor(id: string, c: Content): Binding {
    Binding(id, c.account, c.assetHash, c.captionHash, c.publishAt)
  }

  type Hash = Binding -> string

  ghost predicate Injective(h: Hash) {
    forall a, b :: h(a) == h(b) ==> a == b
  }

  datatype Config = Config(owner: int, hash: Hash, maxPolls: nat)

  /** One Resume call.  `container` and the staging fields are its own copy of the draft,
      `finishedOn` the container it has seen FINISHED, `until` the authorization it has
      checked. */
  datatype Phase = Got | Staging | Creating | Polling(left: nat) | Checking | Cleared | Completing(media: string) | Failing | Ended
  datatype Worker = Worker(draft: string, phase: Phase, claim: Claimed, container: string, stagingId: string,
                           stagingExpires: Option<int>, finishedOn: Option<string>, checkedAt: int, until: int, published: bool)

  /** A call to the provider's publish endpoint. */
  datatype Call = Call(worker: nat, draft: string, container: string, at: int, until: int)

  /** `media` is the provider's side: it keeps one media item per idempotency key, and
      the key of a publish call is the draft id. */
  datatype World = World(drafts: Drafts, book: Book, receipts: set<Receipt>, workers: seq<Worker>, calls: seq<Call>,
                         media: map<string, string>)

  const START := World(map[], Approvals.EMPTY, {}, [], [], map[])

  datatype Status = InProgress | Finished | Broken

  /** How the provider answers a publish call: an error, after or before it did the
      work, or a success. */
  datatype Response = Rejected | RejectedAfter(item: string) | Accepted(item: string)

  datatype Step =
    | Prepare(id: string, content: Content, maxAttempts: nat)
    | Approve(op: Op)
    | PublishApproved(id: string, binding: Binding, receipt: Receipt, now: int)
    | Begin(id: string)
    | ClaimStep(w: nat, now: int)
    | Stage(w: nat, ok: bool, stagingId: string, expires: int, now: int)
    | CreateContainer(w: nat, ok: bool, container: string)
    | Poll(w: nat, status: Status, slept: bool)
    | Check(w: nat, ok: bool, now: int)
    | Publish(w: nat, response: Response)
    | Finish(w: nat, ok: bool)
    | FailStep(w: nat, now: int)
    | Crash(w: nat)
    | RecoverAll(now: int)
    | Clear(id: string)

  predicate At(w: World, k: nat, phase: Phase) { k < |w.workers| && w.workers[k].phase == phase }

  function SetWorker(w: World, k: nat, worker: Worker): World
    requires k < |w.workers|
  {
    w.(workers := w.workers[k := worker])
  }

  function NewWorker(id: string): Worker {
    Worker(id, Got, Refused, "", "", None, None, 0, 0, false)
  }

  predicate ReceiptFits(cfg: Config, id: string, d: Draft, binding: Binding, r: Receipt, now: int) {
    && binding == BindingFor(id, d.content) && r.user == cfg.owner && r.tool == TOOL
    && r.resource == d.content.account && r.args == cfg.hash(binding) && now < r.expires
  }

  function StartClaim(w: World, k: nat, now: int): World
    requires k < |w.workers|
  {
    var worker := w.workers[k];
    match ClaimOutcome(w.drafts, worker.draft, now)
    case Refused => SetWorker(w, k, worker.(phase := Ended))
    case outcome =>
      var d := w.drafts[worker.draft];
      SetWorker(w, k, worker.(phase := Staging, claim := outcome, container := d.container,
                              stagingId := d.stagingId, stagingExpires := d.stagingExpires))
      .(drafts := Claim(w.drafts, worker.draft, now))
  }

  predicate NeedsStaging(worker: Worker, now: int) {
    worker.stagingId == "" || worker.stagingExpires.None? || now >= worker.stagingExpires.value
  }

  function StageStep(w: World, k: nat, ok: bool, stagingId: string, expires: int, now: int): World
    requires k < |w.workers|
  {
    var worker := w.workers[k];
    if !NeedsStaging(worker, now) then SetWorker(w, k, worker.(phase := Creating))
    else if !ok || stagingId == "" || expires <= now + 60 * SECOND then SetWorker(w, k, worker.(phase := Failing))
    else
      SetWorker(w, k, worker.(phase := Creating, stagingId := stagingId, stagingExpires := Some(expires)))
      .(drafts := SaveStaging(w.drafts, worker.draft, stagingId, expires))
  }

  function CreateStep(cfg: Config, w: World, k: nat, ok: bool, container: string): World
    requires k < |w.workers|
  {
    var worker := w.workers[k];
    if worker.container != "" then SetWorker(w, k, worker.(phase := Polling(cfg.maxPolls)))
    else if !ok || container == "" then SetWorker(w, k, worker.(phase := Failing))
    else
      SetWorker(w, k, worker.(phase := Polling(cfg.maxPolls), container := container))
      .(drafts := SaveContainer(w.drafts, worker.draft, container))
  }

  function PollStep(worker: Worker, left: nat, status: Status, slept: bool): Worker {
    if left == 0 then worker.(phase := Failing)
    else match status
      case Finished => worker.(phase := Checking, finishedOn := Some(worker.container))
      case Broken => worker.(phase := Failing)
      case InProgress => if slept then worker.(phase := Polling(left - 1)) else worker.(phase := Failing)
  }

  function CheckStep(w: World, k: nat, ok: bool, now: int): World
    requires k < |w.workers|
  {
    var worker := w.workers[k];
    if ok && worker.draft in w.drafts && Authorized(w.drafts[worker.draft], now) then
      SetWorker(w, k, worker.(phase := Cleared, checkedAt := now, until := w.drafts[worker.draft].authorizedUntil.value))
    else SetWorker(w, k, worker.(phase := Failing))
  }

  /** The provider does the work at most once per key. */
  function Provide(media: map<string, string>, key: string, response: Response): map<string, string> {
    if response.Rejected? || key in media || response.item == "" then media else media[key := response.item]
  }

  function PublishStep(w: World, k: nat, response: Response): World
    requires k < |w.workers|
  {
    var worker := w.workers[k];
    var media := Provide(w.media, worker.draft, response);
    var next := if response.Accepted? && worker.draft in media then Completing(media[worker.draft]) else Failing;
    SetWorker(w, k, worker.(phase := next, published := true))
    .(calls := w.calls + [Call(k, worker.draft, worker.container, worker.checkedAt, worker.until)], media := media)
  }

  function Next(cfg: Config, w: World, step: Step): World {
    match step
    case Prepare(id, content, maxAttempts) => w.(drafts := Create(w.drafts, id, content, maxAttempts))
    case Approve(op) =>
      var (book, receipt) := Do(w.book, op);
      w.(book := book, receipts := if receipt.Some? then w.receipts + {receipt.value} else w.receipts)
    case PublishApproved(id, binding, receipt, now) =>
      if receipt in w.receipts && id in w.drafts && ReceiptFits(cfg, id, w.drafts[id], binding, receipt, now)
      then w.(drafts := MarkAuthorized(w.drafts, id, receipt.expires)) else w
    case Begin(id) =>
      if id in w.drafts && !w.drafts[id].state.Published? then w.(workers := w.workers + [NewWorker(id)]) else w
    case ClaimStep(k, now) => if At(w, k, Got) then StartClaim(w, k, now) else w
    case Stage(k, ok, stagingId, expires, now) =>
      if At(w, k, Staging) then StageStep(w, k, ok, stagingId, expires, now) else w
    case CreateContainer(k, ok, container) => if At(w, k, Creating) then CreateStep(cfg, w, k, ok, container) else w
    case Poll(k, status, slept) =>
      if k < |w.workers| && w.workers[k].phase.Polling? then
        SetWorker(w, k, PollStep(w.workers[k], w.workers[k].phase.left, status, slept)) else w
    case Check(k, ok, now) => if At(w, k, Checking) then CheckStep(w, k, ok, now) else w
    case Publish(k, response) => if At(w, k, Cleared) then PublishStep(w, k, response) else w
    case Finish(k, ok) =>
      if k < |w.workers| && w.workers[k].phase.Completing? then
        var worker := w.workers[k];
        if ok && InAttempt(w.drafts, worker.draft) then
          SetWorker(w, k, worker.(phase := Ended)).(drafts := Complete(w.drafts, worker.draft, worker.phase.media))
        else SetWorker(w, k, worker.(phase := Failing))
      else w
    case FailStep(k, now) =>
      if At(w, k, Failing) then
        SetWorker(w, k, w.workers[k].(phase := Ended)).(drafts := Fail(w.drafts, w.workers[k].draft, now))
      else w
    case Crash(k) => if k < |w.workers| then SetWorker(w, k, w.workers[k].(phase := Ended)) else w
    case RecoverAll(now) => w.(drafts := Recover(w.drafts, now))
    case Clear(id) => w.(drafts := ClearStaging(w.drafts, id))
  }

  function Run(cfg: Config, w: World, steps: seq<Step>): World
    decreases |steps|
  {
    if steps == [] then w else Run(cfg, Next(cfg, w, steps[0]), steps[1..])
  }

  /******* The approval behind every publish call *******/

  /** Some approval of the owner, approved and consumed, bound to exactly this draft's
      binding and account, and expiring at `until`. */
  ghost predicate Backed(cfg: Config, book: Book, id: string, c: Content, until: int) {
    exists token :: token in book.requests && Backs(cfg, book, token, id, c, until)
  }

  predicate Backs(cfg: Config, book: Book, token: string, id: string, c: Content, until: int)
    requires token in book.requests
  {
    var r := book.requests[token];
    && r.state.Approved? && token in book.uses && r.expires == until
    && Matches(r, cfg.owner, TOOL, cfg.hash(BindingFor(id, c)), c.account)
  }

  ghost predicate ApprovalsHold(cfg: Config, w: World) {
    && (forall r :: r in w.receipts ==> Vouched(w.book, r))
    && (forall id :: id in w.drafts && w.drafts[id].authorizedUntil.Some? ==>
          Backed(cfg, w.book, id, w.drafts[id].content, w.drafts[id].authorizedUntil.value))
    && (forall k :: 0 <= k < |w.workers| ==> w.workers[k].draft in w.drafts)
    && (forall k :: 0 <= k < |w.workers| && w.workers[k].phase.Cleared? ==> WorkerCleared(cfg, w, w.workers[k]))
    && (forall k :: 0 <= k < |w.calls| ==> CallBacked(cfg, w, w.calls[k]))
  }

  ghost predicate WorkerCleared(cfg: Config, w: World, worker: Worker) {
    && worker.draft in w.drafts && worker.checkedAt < worker.until
    && Backed(cfg, w.book, worker.draft, w.drafts[worker.draft].content, worker.until)
  }

  ghost predicate CallBacked(cfg: Config, w: World, call: Call) {
    && call.draft in w.drafts && call.at < call.until
    && Backed(cfg, w.book, call.draft, w.drafts[call.draft].content, call.until)
  }

  lemma BackedForGood(cfg: Config, book: Book, book': Book, id: string, c: Content, until: int)
    requires Extends(book, book') && Backed(cfg, book, id, c, until)
    ensures Backed(cfg, book', id, c, until)
  {
    var token :| token in book.requests && Backs(cfg, book, token, id, c, until);
    assert Backs(cfg, book', token, id, c, until);
  }

  lemma MoveEvolves(cfg: Config, w: World, step: Step)
    requires MovesWorker(w, step)
    ensures TableEvolves(w.drafts, Next(cfg, w, step).drafts)
  {
  }

  lemma TableEvolvesIn(cfg: Config, w: World, step: Step)
    requires step.Prepare? || step.PublishApproved? || step.RecoverAll? || step.Clear?
    ensures TableEvolves(w.drafts, Next(cfg, w, step).drafts)
  {
  }

  lemma DraftsEvolve(cfg: Config, w: World, step: Step)
    ensures TableEvolves(w.drafts, Next(cfg, w, step).drafts)
  {
    if step.Prepare? || step.PublishApproved? || step.RecoverAll? || step.Clear? {
      TableEvolvesIn(cfg, w, step);
    } else if MovesWorker(w, step) {
      MoveEvolves(cfg, w, step);
    }
  }

  lemma BookStays(cfg: Config, w: World, step: Step)
    ensures Next(cfg, w, step).book == if step.Approve? then Do(w.book, step.op).0 else w.book
  {
  }

  lemma NextEvolves(cfg: Config, w: World, step: Step)
    ensures TableEvolves(w.drafts, Next(cfg, w, step).drafts)
    ensures Extends(w.book, Next(cfg, w, step).book)
  {
    DraftsEvolve(cfg, w, step);
    BookStays(cfg, w, step);
    if step.Approve? {
      DoExtends(w.book, step.op);
    }
  }

  /** What is backed stays backed while content is fixed and the book only extends. */
  lemma ApprovalsCarry(cfg: Config, w: World, w': World)
    requires ApprovalsHold(cfg, w) && TableEvolves(w.drafts, w'.drafts) && Extends(w.book, w'.book)
    requires forall r :: r in w'.receipts ==> r in w.receipts || Vouched(w'.book, r)
    requires forall id :: id in w'.drafts && w'.drafts[id].authorizedUntil.Some? ==>
               (id in w.drafts && w'.drafts[id].authorizedUntil == w.drafts[id].authorizedUntil)
               || Backed(cfg, w'.book, id, w'.drafts[id].content, w'.drafts[id].authorizedUntil.value)
    requires forall k :: 0 <= k < |w'.workers| ==> w'.workers[k].draft in w'.drafts
    requires forall k :: 0 <= k < |w'.workers| && w'.workers[k].phase.Cleared? ==>
               (k < |w.workers| && w'.workers[k] == w.workers[k]) || WorkerCleared(cfg, w', w'.workers[k])
    requires forall k :: 0 <= k < |w'.calls| ==>
               (k < |w.calls| && w'.calls[k] == w.calls[k]) || CallBacked(cfg, w', w'.calls[k])
    ensures ApprovalsHold(cfg, w')
  {
    forall r | r in w'.receipts
      ensures Vouched(w'.book, r)
    {
      if r in w.receipts {
        VouchedForGood(w.book, w'.book, r);
      }
    }
    forall id | id in w'.drafts && w'.drafts[id].authorizedUntil.Some?
      ensures Backed(cfg, w'.book, id, w'.drafts[id].content, w'.drafts[id].authorizedUntil.value)
    {
      if id in w.drafts && w'.drafts[id].authorizedUntil == w.drafts[id].authorizedUntil {
        assert Evolves(w.drafts[id], w'.drafts[id]);
        BackedForGood(cfg, w.book, w'.book, id, w.drafts[id].content, w.drafts[id].authorizedUntil.value);
      }
    }
    forall k | 0 <= k < |w'.workers| && w'.workers[k].phase.Cleared?
      ensures WorkerCleared(cfg, w', w'.workers[k])
    {
      var worker := w'.workers[k];
      if k < |w.workers| && worker == w.workers[k] {
        assert Evolves(w.drafts[worker.draft], w'.drafts[worker.draft]);
        BackedForGood(cfg, w.book, w'.book, worker.draft, w.drafts[worker.draft].content, worker.until);
      }
    }
    forall k | 0 <= k < |w'.calls|
      ensures CallBacked(cfg, w', w'.calls[k])
    {
      var call := w'.calls[k];
      if k < |w.calls| && call == w.calls[k] {
        assert Evolves(w.drafts[call.draft], w'.drafts[call.draft]);
        BackedForGood(cfg, w.book, w'.book, call.draft, w.drafts[call.draft].content, call.until);
      }
    }
  }

  lemma AuthorizeBacked(cfg: Config, w: World, id: string, binding: Binding, r: Receipt, now: int)
    requires ApprovalsHold(cfg, w) && r in w.receipts && id in w.drafts && ReceiptFits(cfg, id, w.drafts[id], binding, r, now)
    ensures Backed(cfg, w.book, id, w.drafts[id].content, r.expires)
  {
    assert Vouched(w.book, r);
    assert Backs(cfg, w.book, r.id, id, w.drafts[id].content, r.expires);
  }

  /** One worker moves on, and nothing else but unrelated draft columns changes. */
  lemma WorkerKeepsApprovals(cfg: Config, w: World, w': World, k: nat, worker: Worker)
    requires ApprovalsHold(cfg, w) && k < |w.workers| && w'.workers == w.workers[k := worker]
    requires TableEvolves(w.drafts, w'.drafts) && SameAuth(w.drafts, w'.drafts)
    requires w'.book == w.book && w'.receipts == w.receipts && w'.calls == w.calls
    requires worker.draft == w.workers[k].draft && !worker.phase.Cleared?
    ensures ApprovalsHold(cfg, w')
  {
    ApprovalsCarry(cfg, w, w');
  }

  lemma CheckKeepsApprovals(cfg: Config, w: World, k: nat, ok: bool, now: int)
    requires ApprovalsHold(cfg, w) && At(w, k, Checking)
    ensures ApprovalsHold(cfg, CheckStep(w, k, ok, now))
  {
    ApprovalsCarry(cfg, w, CheckStep(w, k, ok, now));
  }

  lemma PublishKeepsApprovals(cfg: Config, w: World, k: nat, response: Response)
    requires ApprovalsHold(cfg, w) && At(w, k, Cleared)
    ensures ApprovalsHold(cfg, PublishStep(w, k, response))
  {
    assert WorkerCleared(cfg, w, w.workers[k]);
    ApprovalsCarry(cfg, w, PublishStep(w, k, response));
  }

  lemma TableKeepsApprovals(cfg: Config, w: World, drafts: Drafts)
    requires ApprovalsHold(cfg, w) && TableEvolves(w.drafts, drafts)
    requires forall id :: id in drafts && drafts[id].authorizedUntil.Some? ==>
               (id in w.drafts && drafts[id].authorizedUntil == w.drafts[id].authorizedUntil)
               || Backed(cfg, w.book, id, drafts[id].content, drafts[id].authorizedUntil.value)
    ensures ApprovalsHold(cfg, w.(drafts := drafts))
  {
    ApprovalsCarry(cfg, w, w.(drafts := drafts));
  }

  lemma BookKeepsApprovals(cfg: Config, w: World, op: Op)
    requires ApprovalsHold(cfg, w)
    ensures ApprovalsHold(cfg, Next(cfg, w, Approve(op)))
  {
    DoExtends(w.book, op);
    ApprovalsCarry(cfg, w, Next(cfg, w, Approve(op)));
  }

  lemma BeginKeepsApprovals(cfg: Config, w: World, id: string)
    requires ApprovalsHold(cfg, w) && id in w.drafts
    ensures ApprovalsHold(cfg, w.(workers := w.workers + [NewWorker(id)]))
  {
    ApprovalsCarry(cfg, w, w.(workers := w.workers + [NewWorker(id)]));
  }

  lemma PublishApprovedKeeps(cfg: Config, w: World, id: string, binding: Binding, receipt: Receipt, now: int)
    requires ApprovalsHold(cfg, w)
    ensures ApprovalsHold(cfg, Next(cfg, w, PublishApproved(id, binding, receipt, now)))
  {
    if receipt in w.receipts && id in w.drafts && ReceiptFits(cfg, id, w.drafts[id], binding, receipt, now) {
      AuthorizeBacked(cfg, w, id, binding, receipt, now);
      TableKeepsApprovals(cfg, w, MarkAuthorized(w.drafts, id, receipt.expires));
    }
  }

  /** The steps in which one Resume call moves on without a provider call. */
  predicate MovesWorker(w: World, step: Step) {
    match step
    case ClaimStep(k, _) => At(w, k, Got)
    case Stage(k, _, _, _, _) => At(w, k, Staging)
    case CreateContainer(k, _, _) => At(w, k, Creating)
    case Poll(k, _, _) => k < |w.workers| && w.workers[k].phase.Polling?
    case Finish(k, _) => k < |w.workers| && w.workers[k].phase.Completing?
    case FailStep(k, _) => At(w, k, Failing)
    case Crash(k) => k < |w.workers|
    case _ => false
  }

  lemma MoveKeepsAuth(cfg: Config, w: World, step: Step)
    requires MovesWorker(w, step)
    ensures SameAuth(w.drafts, Next(cfg, w, step).drafts)
  {
  }

  lemma MoveKeepsRest(cfg: Config, w: World, step: Step)
    requires MovesWorker(w, step)
    ensures
      var w' := Next(cfg, w, step);
      && w'.book == w.book && w'.receipts == w.receipts && w'.calls == w.calls && w'.media == w.media
  {
  }

  lemma MoveFrame(cfg: Config, w: World, step: Step) returns (k: nat)
    requires MovesWorker(w, step)
    ensures
      var w' := Next(cfg, w, step);
      && k < |w.workers| && |w'.workers| == |w.workers| && w'.workers == w.workers[k := w'.workers[k]]
      && w'.workers[k].draft == w.workers[k].draft && !w'.workers[k].phase.Cleared? && !w'.workers[k].phase.Completing?
      && k == step.w
  {
    k := step.w;
  }

  lemma ApprovalsKept(cfg: Config, w: World, step: Step)
    requires ApprovalsHold(cfg, w)
    ensures ApprovalsHold(cfg, Next(cfg, w, step))
  {
    NextEvolves(cfg, w, step);
    var w' := Next(cfg, w, step);
    if MovesWorker(w, step) {
      var k := MoveFrame(cfg, w, step);
      MoveKeepsRest(cfg, w, step);
      MoveKeepsAuth(cfg, w, step);
      WorkerKeepsApprovals(cfg, w, w', k, w'.workers[k]);
    } else {
      match step
      case Prepare(id, content, maxAttempts) => TableKeepsApprovals(cfg, w, w'.drafts);
      case Approve(op) => BookKeepsApprovals(cfg, w, op);
      case PublishApproved(id, binding, receipt, now) => PublishApprovedKeeps(cfg, w, id, binding, receipt, now);
      case Begin(id) => if id in w.drafts { BeginKeepsApprovals(cfg, w, id); }
      case Check(k, ok, now) => if At(w, k, Checking) { CheckKeepsApprovals(cfg, w, k, ok, now); }
      case Publish(k, response) => if At(w, k, Cleared) { PublishKeepsApprovals(cfg, w, k, response); }
      case RecoverAll(now) =>
        TableKeepsApprovals(cfg, w, w'.drafts);
      case Clear(id) =>
        TableKeepsApprovals(cfg, w, w'.drafts);
      case _ =>
    }
  }

  /******* Counting attempts and publish calls *******/

  datatype Kind = IsFresh | IsLate | IsIdle | IsPublished | IsFreshCall | IsLateCall

  predicate Is(worker: Worker, id: string, kind: Kind) {
    worker.draft == id && match kind
      case IsFresh => worker.claim.Fresh?
      case IsLate => worker.claim.Late?
      case IsIdle => !worker.claim.Refused? && !worker.published
      case IsPublished => worker.published
      case IsFreshCall => worker.published && worker.claim.Fresh?
      case IsLateCall => worker.published && worker.claim.Late?
  }

  function Tally(workers: seq<Worker>, id: string, kind: Kind): nat {
    if workers == [] then 0
    else Tally(workers[..|workers| - 1], id, kind) + Count(Is(workers[|workers| - 1], id, kind))
  }

  function CallsFor(calls: seq<Call>, id: string): nat {
    if calls == [] then 0 else CallsFor(calls[..|calls| - 1], id) + Count(calls[|calls| - 1].draft == id)
  }

  lemma {:induction false} TallyUpdate(workers: seq<Worker>, k: nat, worker: Worker, id: string, kind: Kind)
    requires k < |workers|
    ensures Tally(workers[k := worker], id, kind) == Tally(workers, id, kind) - Count(Is(workers[k], id, kind)) + Count(Is(worker, id, kind))
  {
    var n := |workers| - 1;
    if k == n {
      assert workers[k := worker][..n] == workers[..n];
    } else {
      assert workers[k := worker][..n] == workers[..n][k := worker];
      TallyUpdate(workers[..n], k, worker, id, kind);
    }
  }

  lemma TallyAppend(workers: seq<Worker>, worker: Worker, id: string, kind: Kind)
    ensures Tally(workers + [worker], id, kind) == Tally(workers, id, kind) + Count(Is(worker, id, kind))
  {
    assert (workers + [worker])[..|workers|] == workers;
  }

  lemma {:induction false} TallyNone(workers: seq<Worker>, id: string, kind: Kind)
    requires forall k :: 0 <= k < |workers| ==> workers[k].draft != id
    ensures Tally(workers, id, kind) == 0
  {
    if workers != [] {
      TallyNone(workers[..|workers| - 1], id, kind);
    }
  }

  lemma {:induction false} ClaimsSplit(workers: seq<Worker>, id: string)
    requires forall k :: 0 <= k < |workers| ==> WorkerOk(workers[k])
    ensures Tally(workers, id, IsFresh) + Tally(workers, id, IsLate) == Tally(workers, id, IsIdle) + Tally(workers, id, IsPublished)
  {
    if workers != [] {
      assert WorkerOk(workers[|workers| - 1]);
      ClaimsSplit(workers[..|workers| - 1], id);
    }
  }

  /** Every publish call was made under a fresh claim or under a late one. */
  lemma {:induction false} CallsSplit(workers: seq<Worker>, id: string)
    requires forall k :: 0 <= k < |workers| ==> WorkerOk(workers[k])
    ensures Tally(workers, id, IsPublished) == Tally(workers, id, IsFreshCall) + Tally(workers, id, IsLateCall)
    ensures Tally(workers, id, IsFreshCall) <= Tally(workers, id, IsFresh)
    ensures Tally(workers, id, IsLateCall) <= Tally(workers, id, IsLate)
  {
    if workers != [] {
      assert WorkerOk(workers[|workers| - 1]);
      CallsSplit(workers[..|workers| - 1], id);
    }
  }

  /** A worker publishes only after its claim, and after seeing FINISHED on the very
      container it publishes. */
  predicate WorkerOk(worker: Worker) {
    && (worker.published ==> !worker.claim.Refused? && worker.finishedOn == Some(worker.container))
    && match worker.phase
       case Got => worker.claim.Refused? && !worker.published
       case Ended => true
       case Failing => !worker.claim.Refused?
       case Completing(_) => worker.published
       case Staging => !worker.claim.Refused? && !worker.published
       case Creating => !worker.claim.Refused? && !worker.published
       case Polling(_) => !worker.claim.Refused? && !worker.published
       case _ => !worker.claim.Refused? && !worker.published && worker.finishedOn == Some(worker.container)
  }

  predicate CallOk(w: World, call: Call) {
    && call.worker < |w.workers| && w.workers[call.worker].published
    && w.workers[call.worker].draft == call.draft && w.workers[call.worker].finishedOn == Some(call.container)
  }

  predicate WorkersOk(w: World) {
    forall k :: 0 <= k < |w.workers| ==> WorkerOk(w.workers[k]) && w.workers[k].draft in w.drafts
  }

  predicate AttemptsMatch(w: World) {
    forall id :: id in w.drafts ==> Tally(w.workers, id, IsFresh) == w.drafts[id].attempts <= w.drafts[id].maxAttempts
  }

  ghost predicate CallsMatch(w: World) {
    forall id :: CallsFor(w.calls, id) == Tally(w.workers, id, IsPublished)
  }

  predicate CallsOk(w: World) {
    && (forall j :: 0 <= j < |w.calls| ==> CallOk(w, w.calls[j]))
    && (forall i, j :: 0 <= i < j < |w.calls| ==> w.calls[i].worker != w.calls[j].worker)
  }

  ghost predicate Accounts(w: World) {
    WorkersOk(w) && AttemptsMatch(w) && CallsMatch(w) && CallsOk(w)
  }

  lemma TallyUpdates(workers: seq<Worker>, k: nat, worker: Worker)
    requires k < |workers|
    ensures forall id, kind :: Tally(workers[k := worker], id, kind)
              == Tally(workers, id, kind) - Count(Is(workers[k], id, kind)) + Count(Is(worker, id, kind))
  {
    forall id, kind
      ensures Tally(workers[k := worker], id, kind)
           == Tally(workers, id, kind) - Count(Is(workers[k], id, kind)) + Count(Is(worker, id, kind))
    {
      TallyUpdate(workers, k, worker, id, kind);
    }
  }

  /** A worker that moves on without claiming or publishing changes no count. */
  predicate SameRole(worker: Worker, worker': Worker) {
    && worker'.draft == worker.draft && worker'.claim == worker.claim && worker'.published == worker.published
    && (worker.published ==> worker'.finishedOn == worker.finishedOn)
  }

  lemma MoveCounts(w: World, w': World, k: nat)
    requires Accounts(w) && k < |w.workers| == |w'.workers| && w'.workers == w.workers[k := w'.workers[k]]
    requires SameRole(w.workers[k], w'.workers[k]) && w'.calls == w.calls
    ensures CallsMatch(w') && forall id :: Tally(w'.workers, id, IsFresh) == Tally(w.workers, id, IsFresh)
  {
    forall id, kind
      ensures Tally(w'.workers, id, kind) == Tally(w.workers, id, kind)
    {
      TallyUpdate(w.workers, k, w'.workers[k], id, kind);
    }
  }

  lemma CallsCarry(w: World, w': World)
    requires CallsOk(w) && w'.calls == w.calls && |w.workers| <= |w'.workers|
    requires forall k :: 0 <= k < |w.workers| && w.workers[k].published ==>
               w'.workers[k].published && w'.workers[k].draft == w.workers[k].draft
               && w'.workers[k].finishedOn == w.workers[k].finishedOn
    ensures CallsOk(w')
  {
    forall j | 0 <= j < |w'.calls|
      ensures CallOk(w', w'.calls[j])
    {
      assert CallOk(w, w.calls[j]);
    }
  }

  lemma MoveAccounts(w: World, w': World, k: nat)
    requires Accounts(w) && k < |w.workers| && |w'.workers| == |w.workers| && w'.workers == w.workers[k := w'.workers[k]]
    requires WorkerOk(w'.workers[k]) && SameRole(w.workers[k], w'.workers[k])
    requires w'.calls == w.calls && TableEvolves(w.drafts, w'.drafts)
    requires SameAttempts(w.drafts, w'.drafts)
    ensures Accounts(w')
  {
    MoveCounts(w, w', k);
    CallsCarry(w, w');
    assert AttemptsMatch(w') by {
      forall id | id in w'.drafts
        ensures Tally(w'.workers, id, IsFresh) == w'.drafts[id].attempts <= w'.drafts[id].maxAttempts
      {
        assert Evolves(w.drafts[id], w'.drafts[id]);
      }
    }
  }

  /** Only the worker's own claim changes attempts, and only if it is not late. */
  lemma ClaimCounts(w: World, w': World, k: nat)
    requires Accounts(w) && At(w, k, Got) && |w'.workers| == |w.workers| && w'.workers == w.workers[k := w'.workers[k]]
    requires WorkerOk(w'.workers[k]) && w'.workers[k].draft == w.workers[k].draft && !w'.workers[k].published
    requires w'.calls == w.calls && TableEvolves(w.drafts, w'.drafts) && w'.drafts.Keys == w.drafts.Keys
    requires forall id :: id in w.drafts ==>
               w'.drafts[id].attempts == w.drafts[id].attempts + Count(Is(w'.workers[k], id, IsFresh))
    ensures Accounts(w')
  {
    assert WorkerOk(w.workers[k]);
    ClaimCountsAttempts(w, w', k);
    CallsCarry(w, w');
    UnpublishedCounts(w, w', k);
  }

  lemma UnpublishedCounts(w: World, w': World, k: nat)
    requires CallsMatch(w) && k < |w.workers| == |w'.workers| && w'.workers == w.workers[k := w'.workers[k]]
    requires !w.workers[k].published && !w'.workers[k].published && w'.calls == w.calls
    ensures CallsMatch(w')
  {
    forall id
      ensures CallsFor(w'.calls, id) == Tally(w'.workers, id, IsPublished)
    {
      TallyUpdate(w.workers, k, w'.workers[k], id, IsPublished);
      assert CallsFor(w.calls, id) == Tally(w.workers, id, IsPublished);
    }
  }

  lemma ClaimCountsAttempts(w: World, w': World, k: nat)
    requires AttemptsMatch(w) && At(w, k, Got) && WorkerOk(w.workers[k])
    requires |w'.workers| == |w.workers| && w'.workers == w.workers[k := w'.workers[k]]
    requires TableEvolves(w.drafts, w'.drafts) && w'.drafts.Keys == w.drafts.Keys
    requires forall id :: id in w.drafts ==>
               w'.drafts[id].attempts == w.drafts[id].attempts + Count(Is(w'.workers[k], id, IsFresh))
    ensures AttemptsMatch(w')
  {
    forall id | id in w'.drafts
      ensures Tally(w'.workers, id, IsFresh) == w'.drafts[id].attempts <= w'.drafts[id].maxAttempts
    {
      TallyUpdate(w.workers, k, w'.workers[k], id, IsFresh);
      assert Tally(w.workers, id, IsFresh) == w.drafts[id].attempts <= w.drafts[id].maxAttempts;
      assert Evolves(w.drafts[id], w'.drafts[id]);
    }
  }

  lemma ClaimAccounts(w: World, k: nat, now: int)
    requires Accounts(w) && At(w, k, Got)
    ensures Accounts(StartClaim(w, k, now))
  {
    assert WorkerOk(w.workers[k]);
    ClaimCounts(w, StartClaim(w, k, now), k);
  }

  lemma PublishAttempts(w: World, k: nat, response: Response)
    requires Accounts(w) && At(w, k, Cleared)
    ensures AttemptsMatch(PublishStep(w, k, response))
  {
    var w' := PublishStep(w, k, response);
    TallyUpdates(w.workers, k, w'.workers[k]);
    forall id | id in w'.drafts
      ensures Tally(w'.workers, id, IsFresh) == w'.drafts[id].attempts <= w'.drafts[id].maxAttempts
    {
      assert Is(w'.workers[k], id, IsFresh) == Is(w.workers[k], id, IsFresh);
    }
  }

  lemma PublishCounts(w: World, k: nat, response: Response)
    requires Accounts(w) && At(w, k, Cleared)
    ensures CallsMatch(PublishStep(w, k, response))
  {
    var w' := PublishStep(w, k, response);
    assert WorkerOk(w.workers[k]);
    assert w'.calls[..|w.calls|] == w.calls;
    forall id
      ensures CallsFor(w'.calls, id) == Tally(w'.workers, id, IsPublished)
    {
      TallyUpdate(w.workers, k, w'.workers[k], id, IsPublished);
      assert CallsFor(w'.calls, id) == CallsFor(w.calls, id) + Count(w.workers[k].draft == id);
    }
  }

  lemma PublishAccounts(w: World, k: nat, response: Response)
    requires Accounts(w) && At(w, k, Cleared)
    ensures Accounts(PublishStep(w, k, response))
  {
    var w' := PublishStep(w, k, response);
    assert WorkerOk(w.workers[k]);
    PublishAttempts(w, k, response);
    PublishCounts(w, k, response);
    assert CallsOk(w') by {
      forall j | 0 <= j < |w.calls|
        ensures CallOk(w', w'.calls[j]) && w'.calls[j].worker != k
      {
        assert CallOk(w, w.calls[j]);
      }
    }
  }

  lemma BeginAccounts(w: World, id: string)
    requires Accounts(w) && id in w.drafts
    ensures Accounts(w.(workers := w.workers + [NewWorker(id)]))
  {
    var w' := w.(workers := w.workers + [NewWorker(id)]);
    forall other, kind
      ensures Tally(w'.workers, other, kind) == Tally(w.workers, other, kind) + Count(Is(NewWorker(id), other, kind))
    {
      TallyAppend(w.workers, NewWorker(id), other, kind);
    }
    assert CallsMatch(w') by {
      forall other
        ensures CallsFor(w'.calls, other) == Tally(w'.workers, other, IsPublished)
      {
        assert !Is(NewWorker(id), other, IsPublished);
      }
    }
    assert CallsOk(w') by {
      forall j | 0 <= j < |w'.calls|
        ensures CallOk(w', w'.calls[j])
      {
        assert CallOk(w, w.calls[j]);
      }
    }
  }

  lemma PrepareAccounts(w: World, id: string, content: Content, maxAttempts: nat)
    requires Accounts(w)
    ensures Accounts(w.(drafts := Create(w.drafts, id, content, maxAttempts)))
  {
    if id !in w.drafts {
      TallyNone(w.workers, id, IsFresh);
    }
    assert CallsOk(w.(drafts := Create(w.drafts, id, content, maxAttempts))) by {
      assert forall j :: 0 <= j < |w.calls| ==> CallOk(w, w.calls[j]);
    }
  }

  lemma TableAccounts(w: World, drafts: Drafts)
    requires Accounts(w) && TableEvolves(w.drafts, drafts)
    requires SameAttempts(w.drafts, drafts)
    ensures Accounts(w.(drafts := drafts))
  {
    assert AttemptsMatch(w.(drafts := drafts)) by {
      forall id | id in drafts
        ensures Tally(w.workers, id, IsFresh) == drafts[id].attempts <= drafts[id].maxAttempts
      {
        assert Evolves(w.drafts[id], drafts[id]);
      }
    }
    assert CallsOk(w.(drafts := drafts)) by {
      assert forall j :: 0 <= j < |w.calls| ==> CallOk(w, w.calls[j]);
    }
  }

  /** The steps that neither claim nor publish. */
  predicate Quiet(w: World, step: Step) {
    !step.ClaimStep? && (MovesWorker(w, step) || (step.Check? && At(w, step.w, Checking)))
  }

  lemma QuietFrame(cfg: Config, w: World, step: Step)
    requires Quiet(w, step)
    ensures
      var w' := Next(cfg, w, step);
      && step.w < |w.workers| && |w'.workers| == |w.workers|
      && w'.workers == w.workers[step.w := w'.workers[step.w]]
      && w'.calls == w.calls && SameAttempts(w.drafts, w'.drafts)
  {
  }

  lemma StageKeepsRole(cfg: Config, w: World, step: Step)
    requires Quiet(w, step) && step.Stage?
    requires step.w < |w.workers| && WorkerOk(w.workers[step.w])
    ensures
      var w' := Next(cfg, w, step);
      step.w < |w'.workers| && WorkerOk(w'.workers[step.w]) && SameRole(w.workers[step.w], w'.workers[step.w])
  {
  }

  lemma PreparingKeepsRole(cfg: Config, w: World, step: Step)
    requires Quiet(w, step) && (step.CreateContainer? || step.Poll?)
    requires step.w < |w.workers| && WorkerOk(w.workers[step.w])
    ensures
      var w' := Next(cfg, w, step);
      step.w < |w'.workers| && WorkerOk(w'.workers[step.w]) && SameRole(w.workers[step.w], w'.workers[step.w])
  {
  }

  lemma EndingKeepsRole(cfg: Config, w: World, step: Step)
    requires Quiet(w, step) && (step.Check? || step.Finish? || step.FailStep? || step.Crash?)
    requires step.w < |w.workers| && WorkerOk(w.workers[step.w])
    ensures
      var w' := Next(cfg, w, step);
      step.w < |w'.workers| && WorkerOk(w'.workers[step.w]) && SameRole(w.workers[step.w], w'.workers[step.w])
  {
  }

  lemma QuietKeepsRole(cfg: Config, w: World, step: Step)
    requires Quiet(w, step) && step.w < |w.workers| && WorkerOk(w.workers[step.w])
    ensures
      var w' := Next(cfg, w, step);
      step.w < |w'.workers| && WorkerOk(w'.workers[step.w]) && SameRole(w.workers[step.w], w'.workers[step.w])
  {
    if step.Stage? {
      StageKeepsRole(cfg, w, step);
    } else if step.CreateContainer? || step.Poll? {
      PreparingKeepsRole(cfg, w, step);
    } else {
      EndingKeepsRole(cfg, w, step);
    }
  }

  lemma QuietAccounts(cfg: Config, w: World, step: Step)
    requires Accounts(w) && Quiet(w, step)
    ensures Accounts(Next(cfg, w, step))
  {
    NextEvolves(cfg, w, step);
    QuietFrame(cfg, w, step);
    QuietKeepsRole(cfg, w, step);
    MoveAccounts(w, Next(cfg, w, step), step.w);
  }

  lemma AccountsKept(cfg: Config, w: World, step: Step)
    requires Accounts(w)
    ensures Accounts(Next(cfg, w, step))
  {
    if Quiet(w, step) {
      QuietAccounts(cfg, w, step);
    } else {
      match step
      case Prepare(id, content, maxAttempts) => PrepareAccounts(w, id, content, maxAttempts);
      case Begin(id) => if id in w.drafts { BeginAccounts(w, id); }
      case ClaimStep(k, now) => if At(w, k, Got) { ClaimAccounts(w, k, now); }
      case Publish(k, response) => if At(w, k, Cleared) { PublishAccounts(w, k, response); }
      case Approve(_) => SameAccounts(w, Next(cfg, w, step));
      case _ => TableStepAccounts(cfg, w, step);
    }
  }

  lemma TableStepAccounts(cfg: Config, w: World, step: Step)
    requires Accounts(w) && (step.PublishApproved? || step.RecoverAll? || step.Clear? || Next(cfg, w, step) == w)
    ensures Accounts(Next(cfg, w, step))
  {
    NextEvolves(cfg, w, step);
    if step.PublishApproved? || step.RecoverAll? || step.Clear? {
      TableAccounts(w, Next(cfg, w, step).drafts);
    }
  }

  lemma SameAccounts(w: World, w': World)
    requires Accounts(w) && w'.workers == w.workers && w'.calls == w.calls && w'.drafts == w.drafts
    ensures Accounts(w')
  {
    assert forall j :: 0 <= j < |w.calls| ==> CallOk(w, w.calls[j]);
  }

  /******* Media *******/

  ghost predicate MediaOk(w: World) {
    && (forall id :: id in w.drafts && w.drafts[id].state.Published? ==> id in w.media && w.drafts[id].media == w.media[id])
    && (forall k :: 0 <= k < |w.workers| && w.workers[k].phase.Completing? ==>
          w.workers[k].draft in w.media && w.workers[k].phase.media == w.media[w.workers[k].draft])
    && (forall id :: id in w.media ==> w.media[id] != "" && CallsFor(w.calls, id) >= 1)
  }

  predicate MediaExtends(m: map<string, string>, m': map<string, string>) {
    forall id :: id in m ==> id in m' && m'[id] == m[id]
  }

  lemma MediaCarry(w: World, w': World)
    requires MediaOk(w) && w'.media == w.media && w'.calls == w.calls
    requires forall id :: id in w'.drafts && w'.drafts[id].state.Published? ==>
               (id in w.drafts && w.drafts[id].state.Published? && w'.drafts[id].media == w.drafts[id].media)
               || (id in w.media && w'.drafts[id].media == w.media[id])
    requires forall k :: 0 <= k < |w'.workers| && w'.workers[k].phase.Completing? ==>
               k < |w.workers| && w'.workers[k] == w.workers[k]
    ensures MediaOk(w')
  {
  }

  lemma MediaPublish(w: World, k: nat, response: Response)
    requires MediaOk(w) && At(w, k, Cleared)
    ensures MediaOk(PublishStep(w, k, response)) && MediaExtends(w.media, PublishStep(w, k, response).media)
  {
    var w' := PublishStep(w, k, response);
    assert w'.calls[..|w.calls|] == w.calls;
    assert forall id :: CallsFor(w'.calls, id) == CallsFor(w.calls, id) + Count(w.workers[k].draft == id);
  }

  lemma MediaFinish(cfg: Config, w: World, k: nat, ok: bool)
    requires MediaOk(w) && k < |w.workers| && w.workers[k].phase.Completing?
    ensures MediaOk(Next(cfg, w, Finish(k, ok)))
  {
    MediaCarry(w, Next(cfg, w, Finish(k, ok)));
  }

  lemma MediaFrame(cfg: Config, w: World, step: Step)
    requires !step.Publish? && !step.Finish?
    ensures
      var w' := Next(cfg, w, step);
      w'.media == w.media && w'.calls == w.calls && SameMedia(w.drafts, w'.drafts)
  {
  }

  lemma OnlyPublishCompletes(cfg: Config, w: World, step: Step, k: nat)
    requires !step.Publish? && k < |Next(cfg, w, step).workers| && Next(cfg, w, step).workers[k].phase.Completing?
    ensures k < |w.workers| && Next(cfg, w, step).workers[k] == w.workers[k]
  {
    if MovesWorker(w, step) {
      var moved := MoveFrame(cfg, w, step);
    }
  }

  lemma MediaOther(cfg: Config, w: World, step: Step)
    requires MediaOk(w) && !step.Publish? && !step.Finish?
    ensures MediaOk(Next(cfg, w, step)) && Next(cfg, w, step).media == w.media
  {
    var w' := Next(cfg, w, step);
    MediaFrame(cfg, w, step);
    forall k | 0 <= k < |w'.workers| && w'.workers[k].phase.Completing?
      ensures k < |w.workers| && w'.workers[k] == w.workers[k]
    {
      OnlyPublishCompletes(cfg, w, step, k);
    }
    MediaCarry(w, w');
  }

  lemma MediaKept(cfg: Config, w: World, step: Step)
    requires MediaOk(w)
    ensures MediaOk(Next(cfg, w, step)) && MediaExtends(w.media, Next(cfg, w, step).media)
  {
    match step
    case Publish(k, response) => if At(w, k, Cleared) { MediaPublish(w, k, response); }
    case Finish(k, ok) => if k < |w.workers| && w.workers[k].phase.Completing? { MediaFinish(cfg, w, k, ok); }
    case _ => MediaOther(cfg, w, step);
  }

  /******* Whole runs *******/

  ghost predicate Inv(cfg: Config, w: World) { ApprovalsHold(cfg, w) && Accounts(w) && MediaOk(w) }

  lemma {:induction false} RunKeeps(cfg: Config, w: World, steps: seq<Step>)
    requires Inv(cfg, w)
    ensures Inv(cfg, Run(cfg, w, steps)) && MediaExtends(w.media, Run(cfg, w, steps).media)
    decreases |steps|
  {
    if steps != [] {
      ApprovalsKept(cfg, w, steps[0]);
      AccountsKept(cfg, w, steps[0]);
      MediaKept(cfg, w, steps[0]);
      RunKeeps(cfg, Next(cfg, w, steps[0]), steps[1..]);
    }
  }

  lemma StartInv(cfg: Config)
    ensures Inv(cfg, START)
  {
  }

  /** How many receipts a run issues for one approval. */
  function IssuedIn(cfg: Config, w: World, steps: seq<Step>, token: string): nat
    decreases |steps|
  {
    if steps == [] then 0
    else
      Count(steps[0].Approve? && Issues(w.book, steps[0].op, token))
      + IssuedIn(cfg, Next(cfg, w, steps[0]), steps[1..], token)
  }

  lemma StepUses(cfg: Config, w: World, step: Step, token: string)
    ensures Count(token in Next(cfg, w, step).book.uses)
            == Count(token in w.book.uses) + Count(step.Approve? && Issues(w.book, step.op, token))
  {
    if step.Approve? {
      UseIsReceipt(w.book, step.op, token);
    }
  }

  lemma {:induction false} IssuedOnce(cfg: Config, w: World, steps: seq<Step>, token: string)
    ensures Count(token in Run(cfg, w, steps).book.uses) == Count(token in w.book.uses) + IssuedIn(cfg, w, steps, token)
    decreases |steps|
  {
    if steps != [] {
      StepUses(cfg, w, steps[0], token);
      IssuedOnce(cfg, Next(cfg, w, steps[0]), steps[1..], token);
    }
  }

  /** Step `n` of the run is the approving decision on the request. */
  ghost predicate ApprovedAt(cfg: Config, steps: seq<Step>, n: nat, token: string) {
    n < |steps| && steps[n].Approve? && Decides(Run(cfg, START, steps[..n]).book, steps[n].op, token, true)
  }

  lemma {:induction false} ApprovingStep(cfg: Config, steps: seq<Step>, token: string) returns (n: nat)
    requires
      var book := Run(cfg, START, steps).book;
      token in book.requests && book.requests[token].state.Approved?
    ensures ApprovedAt(cfg, steps, n, token)
    decreases |steps|
  {
    if steps == [] {
      assert false;
    } else {
      var m := |steps| - 1;
      var before := Run(cfg, START, steps[..m]);
      RunSnoc(cfg, START, steps);
      BookStays(cfg, before, steps[m]);
      n := ApprovingLast(cfg, steps, before.book, token);
    }
  }

  lemma ApprovingLast(cfg: Config, steps: seq<Step>, book: Book, token: string) returns (n: nat)
    requires steps != [] && book == Run(cfg, START, steps[..|steps| - 1]).book
    requires
      var last := steps[|steps| - 1];
      var book' := if last.Approve? then Do(book, last.op).0 else book;
      token in book'.requests && book'.requests[token].state.Approved?
    ensures ApprovedAt(cfg, steps, n, token)
    decreases |steps|, 0
  {
    var m := |steps| - 1;
    if token in book.requests && book.requests[token].state.Approved? {
      n := ApprovingStep(cfg, steps[..m], token);
      assert steps[..m][..n] == steps[..n];
    } else {
      n := m;
      if token in book.requests {
        DecisionExactly(book, steps[m].op, token);
      } else {
        AskedExactly(book, steps[m].op, token);
      }
    }
  }

  /** Every publish call ever made had, at the reading it was cleared with, an unexpired
      approval of the owner: approved by a step of the run that is a decision to approve, in
      time and by the owner, consumed exactly once in the whole run, and bound to exactly the
      content the draft still has; through failures, retries and recoveries. */
  lemma EveryPublishIsApproved(cfg: Config, steps: seq<Step>, j: nat)
    requires j < |Run(cfg, START, steps).calls|
    ensures
      var w := Run(cfg, START, steps);
      var call := w.calls[j];
      && call.draft in w.drafts && call.at < call.until
      && exists token ::
           token in w.book.requests && Backs(cfg, w.book, token, call.draft, w.drafts[call.draft].content, call.until)
           && IssuedIn(cfg, START, steps, token) == 1 && exists n :: ApprovedAt(cfg, steps, n, token)
  {
    StartInv(cfg);
    RunKeeps(cfg, START, steps);
    var w := Run(cfg, START, steps);
    assert CallBacked(cfg, w, w.calls[j]);
    var call := w.calls[j];
    var token :| token in w.book.requests && Backs(cfg, w.book, token, call.draft, w.drafts[call.draft].content, call.until);
    IssuedOnce(cfg, START, steps, token);
    var n := ApprovingStep(cfg, steps, token);
  }

  /** With an injective hash one approval stands behind one draft and one content only. */
  lemma ApprovalPinsContent(cfg: Config, book: Book, token: string, a: string, c: Content, s: int, b: string, d: Content, t: int)
    requires Injective(cfg.hash) && token in book.requests
    requires Backs(cfg, book, token, a, c, s) && Backs(cfg, book, token, b, d, t)
    ensures a == b && s == t && c.account == d.account && c.assetHash == d.assetHash
    ensures c.captionHash == d.captionHash && c.publishAt == d.publishAt
  {
    assert cfg.hash(BindingFor(a, c)) == cfg.hash(BindingFor(b, d));
    assert BindingFor(a, c) == BindingFor(b, d);
  }

  /** The guard of the branch that counts no attempt: the step is a claim of the draft, and it
      finds the draft published. */
  predicate ClaimsLate(w: World, step: Step, id: string) {
    && step.ClaimStep? && At(w, step.w, Got) && w.workers[step.w].draft == id
    && id in w.drafts && w.drafts[id].state.Published?
  }

  /** A claim that goes through is late exactly if it finds the draft published, and counts an
      attempt exactly if it is not. */
  lemma ClaimGuard(cfg: Config, w: World, k: nat, now: int)
    requires At(w, k, Got) && !ClaimOutcome(w.drafts, w.workers[k].draft, now).Refused?
    ensures
      var id := w.workers[k].draft;
      var w' := Next(cfg, w, ClaimStep(k, now));
      && |w'.workers| == |w.workers| && w'.workers[k].phase == Staging && id in w.drafts && id in w'.drafts
      && (w'.workers[k].claim.Late? <==> w.drafts[id].state.Published?)
      && (w'.workers[k].claim.Late? <==> ClaimsLate(w, ClaimStep(k, now), id))
      && w'.drafts[id].attempts == w.drafts[id].attempts + Count(!w.drafts[id].state.Published?)
      && w'.workers[k].container == w.drafts[id].container && w'.workers[k].stagingId == w.drafts[id].stagingId
      && w'.workers[k].stagingExpires == w.drafts[id].stagingExpires
  {
  }

  /** Staging: media that is still good is used again; otherwise new media is taken only if it
      has an id and stays good for more than a minute, and it is saved with the draft.  So a
      container is only ever asked for with good media. */
  lemma StagingOutcome(cfg: Config, w: World, k: nat, ok: bool, stagingId: string, expires: int, now: int)
    requires At(w, k, Staging)
    ensures
      var w', old', id := Next(cfg, w, Stage(k, ok, stagingId, expires, now)), w.workers[k], w.workers[k].draft;
      var good := old'.stagingId != "" && old'.stagingExpires.Some? && now < old'.stagingExpires.value;
      && |w'.workers| == |w.workers|
      && (w'.workers[k].phase == Creating <==> good || (ok && stagingId != "" && now + 60_000_000_000 < expires))
      && (w'.workers[k].phase != Creating ==> w'.workers[k].phase == Failing && w'.drafts == w.drafts)
      && (good ==> w'.drafts == w.drafts && w'.workers[k].stagingId == old'.stagingId)
      && (w'.workers[k].phase == Creating ==>
            w'.workers[k].stagingId != "" && w'.workers[k].stagingExpires.Some? && now < w'.workers[k].stagingExpires.value)
      && (w'.workers[k].phase == Creating && !good && id in w.drafts && w.drafts[id].state == Publishing ==>
            w'.drafts == w.drafts[id := w.drafts[id].(stagingId := stagingId, stagingExpires := Some(expires))])
  {
  }

  /** Container: one saved by an earlier attempt is used again; otherwise a new one must have an
      id, and it is saved with the draft before it is polled. */
  lemma ContainerOutcome(cfg: Config, w: World, k: nat, ok: bool, container: string)
    requires At(w, k, Creating)
    ensures
      var w', old', id := Next(cfg, w, CreateContainer(k, ok, container)), w.workers[k], w.workers[k].draft;
      && |w'.workers| == |w.workers|
      && (w'.workers[k].phase == Polling(cfg.maxPolls) <==> old'.container != "" || (ok && container != ""))
      && (w'.workers[k].phase != Polling(cfg.maxPolls) ==> w'.workers[k].phase == Failing && w'.drafts == w.drafts)
      && (old'.container != "" ==> w'.drafts == w.drafts && w'.workers[k].container == old'.container)
      && (old'.container == "" && ok && container != "" ==>
            && w'.workers[k].container == container
            && (id in w.drafts && w.drafts[id].state == Publishing ==>
                  w'.drafts == w.drafts[id := w.drafts[id].(container := container)]))
  {
  }

  /** The last look before the publish call: it goes ahead exactly if the draft, read again, is
      authorized beyond the reading. */
  lemma CheckOutcome(cfg: Config, w: World, k: nat, ok: bool, now: int)
    requires At(w, k, Checking)
    ensures
      var w', id := Next(cfg, w, Check(k, ok, now)), w.workers[k].draft;
      && |w'.workers| == |w.workers| && w'.drafts == w.drafts
      && (w'.workers[k].phase == Cleared <==>
            ok && id in w.drafts && w.drafts[id].authorizedUntil.Some? && now < w.drafts[id].authorizedUntil.value)
      && (w'.workers[k].phase == Cleared ==>
            w'.workers[k].checkedAt == now && Some(w'.workers[k].until) == w.drafts[id].authorizedUntil)
      && (w'.workers[k].phase != Cleared ==> w'.workers[k].phase == Failing)
  {
  }

  /** A Resume call starts work exactly on a draft that it reads as not published. */
  lemma BeginOutcome(cfg: Config, w: World, id: string)
    ensures
      var w' := Next(cfg, w, Begin(id));
      && w'.drafts == w.drafts && w'.calls == w.calls
      && w'.workers == (if id in w.drafts && w.drafts[id].state != Published then w.workers + [NewWorker(id)] else w.workers)
  {
  }

  /** Handing in a receipt authorizes the draft until the receipt expires, exactly if the receipt
      is genuine, unexpired and the owner's, and is bound to what the draft is now. */
  lemma AuthorizeOutcome(cfg: Config, w: World, id: string, binding: Binding, receipt: Receipt, now: int)
    ensures
      var drafts' := Next(cfg, w, PublishApproved(id, binding, receipt, now)).drafts;
      var fits := && receipt in w.receipts && id in w.drafts && now < receipt.expires
                  && receipt.user == cfg.owner && receipt.tool == "instagram.publish"
                  && receipt.resource == w.drafts[id].content.account && receipt.args == cfg.hash(binding)
                  && binding == Binding(id, w.drafts[id].content.account, w.drafts[id].content.assetHash,
                                        w.drafts[id].content.captionHash, w.drafts[id].content.publishAt);
      drafts' == if fits && (w.drafts[id].state == Prepared || w.drafts[id].state == FailedOnce)
                 then w.drafts[id := w.drafts[id].(authorizedUntil := Some(receipt.expires))] else w.drafts
  {
  }

  /** The publish call is made once, for the worker's own container, with the authorization it
      was checked against; the provider keeps the first item per draft; an answer without an item
      ends the attempt as failed. */
  lemma PublishOutcome(cfg: Config, w: World, k: nat, response: Response)
    requires At(w, k, Cleared)
    ensures
      var w', old', id := Next(cfg, w, Publish(k, response)), w.workers[k], w.workers[k].draft;
      && w'.calls == w.calls + [Call(k, id, old'.container, old'.checkedAt, old'.until)] && w'.drafts == w.drafts
      && (forall other :: other != id ==> (other in w'.media <==> other in w.media))
      && (forall other :: other in w.media ==> other in w'.media && w'.media[other] == w.media[other])
      && (id !in w.media && !response.Rejected? && response.item != "" ==> id in w'.media && w'.media[id] == response.item)
      && |w'.workers| == |w.workers|
      && (response.Accepted? && id in w'.media ==> w'.workers[k].phase == Completing(w'.media[id]))
      && (!(response.Accepted? && id in w'.media) ==> w'.workers[k].phase == Failing)
  {
  }

  /** The record of a success: it takes effect exactly while the draft is in an attempt and the
      store takes it; otherwise the Resume call goes on to record a failure. */
  lemma FinishOutcome(cfg: Config, w: World, k: nat, ok: bool)
    requires k < |w.workers| && w.workers[k].phase.Completing?
    ensures
      var w', id := Next(cfg, w, Finish(k, ok)), w.workers[k].draft;
      var taken := ok && id in w.drafts && w.drafts[id].state == Publishing;
      && |w'.workers| == |w.workers| && w'.workers[k].phase == (if taken then Ended else Failing)
      && w'.drafts == if taken then w.drafts[id := w.drafts[id].(state := Published, media := w.workers[k].phase.media)] else w.drafts
  {
  }

  /** The record of a failure: it ends the attempt the draft is in, if any, with its pause. */
  lemma FailOutcome(cfg: Config, w: World, k: nat, now: int)
    requires At(w, k, Failing)
    ensures
      var w', id := Next(cfg, w, FailStep(k, now)), w.workers[k].draft;
      && |w'.workers| == |w.workers| && w'.workers[k].phase == Ended
      && w'.drafts == if id in w.drafts && w.drafts[id].state == Publishing
                      then w.drafts[id := w.drafts[id].(state := FailedOnce, availableAt := now + Delay(w.drafts[id].attempts))]
                      else w.drafts
  {
  }

  /** Recovery ends every attempt at once; the drafts can be claimed again from the reading on. */
  lemma RecoverOutcome(cfg: Config, w: World, now: int)
    ensures
      var w' := Next(cfg, w, RecoverAll(now));
      && w'.workers == w.workers && w'.drafts.Keys == w.drafts.Keys
      && forall id :: id in w.drafts ==>
           w'.drafts[id] == (if w.drafts[id].state == Publishing then w.drafts[id].(state := FailedOnce, availableAt := now)
                             else w.drafts[id])
  {
  }

  /** How many claims of the draft a run makes that find it published. */
  function LateClaims(cfg: Config, w: World, steps: seq<Step>, id: string): nat
    decreases |steps|
  {
    if steps == [] then 0
    else Count(ClaimsLate(w, steps[0], id)) + LateClaims(cfg, Next(cfg, w, steps[0]), steps[1..], id)
  }

  /** Only a claim changes what a worker has claimed. */
  lemma ClaimsStay(cfg: Config, w: World, step: Step, k: nat)
    requires k < |w.workers| && !(step.ClaimStep? && step.w == k)
    ensures
      var w' := Next(cfg, w, step);
      k < |w'.workers| && w'.workers[k].claim == w.workers[k].claim && w'.workers[k].draft == w.workers[k].draft
  {
    if MovesWorker(w, step) {
      var moved := MoveFrame(cfg, w, step);
    }
  }

  /** The workers of a step: one has moved on, or a new one has begun, or all are as before. */
  predicate OneMoved(w: World, w': World, step: Step) {
    || w'.workers == w.workers
    || (step.Begin? && w'.workers == w.workers + [NewWorker(step.id)])
    || (!step.Begin? && exists k :: 0 <= k < |w.workers| && |w'.workers| == |w.workers|
                                    && w'.workers == w.workers[k := w'.workers[k]]
                                    && (step.ClaimStep? ==> k == step.w))
  }

  lemma StepMovesOne(cfg: Config, w: World, step: Step)
    ensures OneMoved(w, Next(cfg, w, step), step)
  {
    var w' := Next(cfg, w, step);
    if MovesWorker(w, step) {
      var k := MoveFrame(cfg, w, step);
    } else if step.Check? && At(w, step.w, Checking) {
      assert w'.workers == w.workers[step.w := w'.workers[step.w]];
    } else if step.Publish? && At(w, step.w, Cleared) {
      assert w'.workers == w.workers[step.w := w'.workers[step.w]];
    }
  }

  /** Claims and drafts change for nobody but the claiming worker. */
  predicate ClaimsKept(w: World, w': World, step: Step) {
    && |w.workers| <= |w'.workers|
    && forall k :: 0 <= k < |w.workers| && !(step.ClaimStep? && step.w == k) ==>
         w'.workers[k].claim == w.workers[k].claim && w'.workers[k].draft == w.workers[k].draft
  }

  lemma StepKeepsClaims(cfg: Config, w: World, step: Step)
    ensures ClaimsKept(w, Next(cfg, w, step), step)
  {
    StepMovesOne(cfg, w, step);
    forall k | 0 <= k < |w.workers| && !(step.ClaimStep? && step.w == k)
      ensures Next(cfg, w, step).workers[k].claim == w.workers[k].claim
      ensures Next(cfg, w, step).workers[k].draft == w.workers[k].draft
    {
      ClaimsStay(cfg, w, step, k);
    }
  }

  /** The claiming worker becomes late exactly by a late claim. */
  predicate LateMoves(w: World, w': World, step: Step, id: string) {
    step.ClaimStep? && step.w < |w.workers| ==>
      && step.w < |w'.workers|
      && Count(Is(w'.workers[step.w], id, IsLate)) == Count(Is(w.workers[step.w], id, IsLate)) + Count(ClaimsLate(w, step, id))
  }

  lemma TallyMoves(w: World, w': World, step: Step, id: string)
    requires OneMoved(w, w', step) && ClaimsKept(w, w', step) && LateMoves(w, w', step, id)
    ensures Tally(w'.workers, id, IsLate) == Tally(w.workers, id, IsLate) + Count(ClaimsLate(w, step, id))
  {
    if w'.workers == w.workers {
    } else if step.Begin? {
      TallyAppend(w.workers, NewWorker(step.id), id, IsLate);
    } else {
      var k :| 0 <= k < |w.workers| && |w'.workers| == |w.workers| && w'.workers == w.workers[k := w'.workers[k]]
               && (step.ClaimStep? ==> k == step.w);
      TallyUpdate(w.workers, k, w'.workers[k], id, IsLate);
    }
  }

  lemma LateTally(cfg: Config, w: World, step: Step, id: string)
    requires WorkersOk(w)
    ensures Tally(Next(cfg, w, step).workers, id, IsLate) == Tally(w.workers, id, IsLate) + Count(ClaimsLate(w, step, id))
  {
    var w' := Next(cfg, w, step);
    StepMovesOne(cfg, w, step);
    StepKeepsClaims(cfg, w, step);
    LateClaimMoves(cfg, w, step, id);
    TallyMoves(w, w', step, id);
  }

  lemma LateClaimMoves(cfg: Config, w: World, step: Step, id: string)
    requires WorkersOk(w)
    ensures LateMoves(w, Next(cfg, w, step), step, id)
  {
    if step.ClaimStep? && step.w < |w.workers| {
      assert WorkerOk(w.workers[step.w]);
    }
  }

  lemma {:induction false} LateTallyAlong(cfg: Config, w: World, steps: seq<Step>, id: string)
    requires Accounts(w)
    ensures Tally(Run(cfg, w, steps).workers, id, IsLate) == Tally(w.workers, id, IsLate) + LateClaims(cfg, w, steps, id)
    decreases |steps|
  {
    if steps != [] {
      LateTally(cfg, w, steps[0], id);
      AccountsKept(cfg, w, steps[0]);
      LateTallyAlong(cfg, Next(cfg, w, steps[0]), steps[1..], id);
    }
  }

  /** Publish calls are accounted for, in every run and under every schedule.  Each call was
      made under a fresh or a late claim; the former are within the attempts, the latter within
      the claims that found the draft published.  Together with the claims whose call is still
      missing the account is exact.  So the calls stay within the attempts if no claim of the
      draft finds it published, and, once every claim has made its call, only then. */
  lemma PublishCallsAccounted(cfg: Config, steps: seq<Step>, id: string)
    requires id in Run(cfg, START, steps).drafts
    ensures
      var w := Run(cfg, START, steps);
      var attempts, late := w.drafts[id].attempts, LateClaims(cfg, START, steps, id);
      && CallsFor(w.calls, id) == Tally(w.workers, id, IsFreshCall) + Tally(w.workers, id, IsLateCall)
      && Tally(w.workers, id, IsFreshCall) <= attempts <= w.drafts[id].maxAttempts
      && Tally(w.workers, id, IsLateCall) <= late
      && CallsFor(w.calls, id) + Tally(w.workers, id, IsIdle) == attempts + late
      && (late == 0 ==> CallsFor(w.calls, id) <= attempts)
      && (Tally(w.workers, id, IsIdle) == 0 ==> (CallsFor(w.calls, id) <= attempts <==> late == 0))
  {
    StartInv(cfg);
    RunKeeps(cfg, START, steps);
    LateTallyAlong(cfg, START, steps, id);
    var w := Run(cfg, START, steps);
    ClaimsSplit(w.workers, id);
    CallsSplit(w.workers, id);
    assert CallsFor(w.calls, id) == Tally(w.workers, id, IsPublished);
  }

  /** Step `n` of the run is the claim of worker `k`, and it found the draft published exactly
      if that claim is late. */
  ghost predicate ClaimAt(cfg: Config, steps: seq<Step>, n: nat, k: nat, worker: Worker) {
    && n < |steps| && steps[n].ClaimStep? && steps[n].w == k
    && ClaimOf(Run(cfg, START, steps[..n]), steps[n], k, worker)
  }

  predicate ClaimOf(w: World, step: Step, k: nat, worker: Worker) {
    && step.ClaimStep? && At(w, k, Got) && w.workers[k].draft == worker.draft
    && worker.claim == ClaimOutcome(w.drafts, worker.draft, step.now)
    && (worker.claim.Late? <==> ClaimsLate(w, step, worker.draft))
  }

  lemma ClaimHere(cfg: Config, w: World, step: Step, k: nat)
    requires step.ClaimStep? && step.w == k && At(w, k, Got) && WorkersOk(w)
    requires k < |Next(cfg, w, step).workers| && !Next(cfg, w, step).workers[k].claim.Refused?
    ensures ClaimOf(w, step, k, Next(cfg, w, step).workers[k])
  {
    assert WorkerOk(w.workers[k]);
  }

  lemma {:induction false} ClaimedAt(cfg: Config, steps: seq<Step>, k: nat) returns (n: nat)
    requires k < |Run(cfg, START, steps).workers| && !Run(cfg, START, steps).workers[k].claim.Refused?
    ensures ClaimAt(cfg, steps, n, k, Run(cfg, START, steps).workers[k])
    decreases |steps|, 1
  {
    if steps == [] {
      assert false;
    } else {
      var m := |steps| - 1;
      RunSnoc(cfg, START, steps);
      n := ClaimedAtLast(cfg, steps[..m], steps[m], steps, k);
    }
  }

  lemma ClaimedAtLast(cfg: Config, front: seq<Step>, last: Step, steps: seq<Step>, k: nat) returns (n: nat)
    requires steps == front + [last] && Run(cfg, START, steps) == Next(cfg, Run(cfg, START, front), last)
    requires k < |Run(cfg, START, steps).workers| && !Run(cfg, START, steps).workers[k].claim.Refused?
    ensures ClaimAt(cfg, steps, n, k, Run(cfg, START, steps).workers[k])
    decreases |front| + 1, 0
  {
    var before := Run(cfg, START, front);
    assert steps[..|front|] == front;
    if last.ClaimStep? && last.w == k && At(before, k, Got) {
      StartInv(cfg);
      RunKeeps(cfg, START, front);
      ClaimHere(cfg, before, last, k);
      n := |front|;
    } else {
      EarlierClaim(cfg, before, last, k);
      n := ClaimedAt(cfg, front, k);
      assert front[..n] == steps[..n];
    }
  }

  lemma EarlierClaim(cfg: Config, w: World, step: Step, k: nat)
    requires k < |Next(cfg, w, step).workers| && !Next(cfg, w, step).workers[k].claim.Refused?
    requires !(step.ClaimStep? && step.w == k && At(w, k, Got))
    ensures k < |w.workers| && w.workers[k].claim == Next(cfg, w, step).workers[k].claim
    ensures w.workers[k].draft == Next(cfg, w, step).workers[k].draft
  {
    StepMovesOne(cfg, w, step);
    if k < |w.workers| && !(step.ClaimStep? && step.w == k) {
      ClaimsStay(cfg, w, step, k);
    }
  }

  lemma RunSnoc(cfg: Config, w: World, steps: seq<Step>)
    requires steps != []
    ensures
      var m := |steps| - 1;
      Run(cfg, w, steps) == Next(cfg, Run(cfg, w, steps[..m]), steps[m])
  {
    var m := |steps| - 1;
    assert steps == steps[..m] + [steps[m]];
    RunAppend(cfg, w, steps[..m], [steps[m]]);
    assert [steps[m]][1..] == [];
  }

  /** Call by call: the claim behind a publish call is a step of the run, and the call belongs
      to a counted attempt if and only if that step found the draft unpublished. */
  lemma CountedIffUnpublished(cfg: Config, steps: seq<Step>, j: nat) returns (n: nat)
    requires j < |Run(cfg, START, steps).calls|
    ensures
      var w := Run(cfg, START, steps);
      var call := w.calls[j];
      && n < |steps| && steps[n].ClaimStep? && steps[n].w == call.worker < |w.workers|
      && var at := Run(cfg, START, steps[..n]);
         && At(at, call.worker, Got) && at.workers[call.worker].draft == call.draft && call.draft in at.drafts
         && (w.workers[call.worker].claim.Fresh? <==> !at.drafts[call.draft].state.Published?)
         && (w.workers[call.worker].claim.Fresh? ==>
               && at.drafts[call.draft].content.publishAt <= steps[n].now && at.drafts[call.draft].availableAt <= steps[n].now
               && at.drafts[call.draft].attempts < at.drafts[call.draft].maxAttempts)
  {
    StartInv(cfg);
    RunKeeps(cfg, START, steps);
    var w := Run(cfg, START, steps);
    var k := w.calls[j].worker;
    assert CallOk(w, w.calls[j]);
    assert WorkerOk(w.workers[k]);
    n := ClaimedAt(cfg, steps, k);
    RunKeeps(cfg, START, steps[..n]);
    assert WorkerOk(Run(cfg, START, steps[..n]).workers[k]);
    FreshExactly(Run(cfg, START, steps[..n]).drafts, w.calls[j].draft, steps[n].now);
  }

  /******* Nothing goes out before its time *******/

  /** The steps whose reading decides whether a draft is due. */
  predicate Timed(step: Step) { step.ClaimStep? || step.Check? }

  /** The readings of these steps do not go back, and none lies before `last`. */
  predicate Ascending(steps: seq<Step>, last: int)
    decreases |steps|
  {
    steps == [] || (if Timed(steps[0]) then last <= steps[0].now && Ascending(steps[1..], steps[0].now)
                    else Ascending(steps[1..], last))
  }

  /** Whoever has been claimed was due by the reading `last`. */
  predicate DueBy(w: World, last: int) {
    && (forall id :: id in w.drafts && !w.drafts[id].state.Prepared? ==> w.drafts[id].content.publishAt <= last)
    && (forall k :: 0 <= k < |w.workers| ==> WorkerDue(w.drafts, w.workers[k], last))
    && (forall j :: 0 <= j < |w.calls| ==> CallDue(w.drafts, w.calls[j]))
  }

  predicate WorkerDue(drafts: Drafts, worker: Worker, last: int) {
    && worker.draft in drafts
    && (!worker.claim.Refused? ==> drafts[worker.draft].content.publishAt <= last)
    && (worker.phase.Cleared? ==> drafts[worker.draft].content.publishAt <= worker.checkedAt)
  }

  predicate CallDue(drafts: Drafts, call: Call) {
    call.draft in drafts && drafts[call.draft].content.publishAt <= call.at
  }

  lemma MovesStartNothing(cfg: Config, w: World, step: Step, id: string)
    requires id in w.drafts && w.drafts[id].state.Prepared? && !step.ClaimStep? && MovesWorker(w, step)
    ensures id in Next(cfg, w, step).drafts && Next(cfg, w, step).drafts[id].state.Prepared?
  {
  }

  /** Drafts start only by a claim: nothing else takes one out of the prepared state. */
  lemma OnlyClaimsStart(cfg: Config, w: World, step: Step, id: string)
    requires id in w.drafts && w.drafts[id].state.Prepared? && !step.ClaimStep?
    ensures id in Next(cfg, w, step).drafts && Next(cfg, w, step).drafts[id].state.Prepared?
  {
    if MovesWorker(w, step) {
      MovesStartNothing(cfg, w, step, id);
    }
  }

  lemma NewDraftsPrepared(cfg: Config, w: World, step: Step, id: string)
    requires id !in w.drafts && id in Next(cfg, w, step).drafts
    ensures Next(cfg, w, step).drafts[id].state.Prepared?
  {
  }

  lemma DueCarry(cfg: Config, w: World, step: Step, last: int)
    requires DueBy(w, last) && WorkersOk(w) && !Timed(step) && !step.Publish?
    ensures DueBy(Next(cfg, w, step), last)
  {
    var w' := Next(cfg, w, step);
    DraftsEvolve(cfg, w, step);
    forall id | id in w'.drafts && !w'.drafts[id].state.Prepared?
      ensures w'.drafts[id].content.publishAt <= last
    {
      if id !in w.drafts {
        NewDraftsPrepared(cfg, w, step, id);
      } else if w.drafts[id].state.Prepared? {
        OnlyClaimsStart(cfg, w, step, id);
      } else {
        assert Evolves(w.drafts[id], w'.drafts[id]);
      }
    }
    forall k | 0 <= k < |w'.workers|
      ensures WorkerDue(w'.drafts, w'.workers[k], last)
    {
      if k < |w.workers| {
        WorkerStaysDue(cfg, w, step, last, k);
      } else {
        NewWorkerDue(cfg, w, step, last, k);
      }
    }
    CallsStayDue(cfg, w, step, last);
  }

  lemma SameWorkerDue(drafts: Drafts, drafts': Drafts, worker: Worker, worker': Worker, last: int)
    requires WorkerDue(drafts, worker, last) && TableEvolves(drafts, drafts')
    requires worker'.claim == worker.claim && worker'.draft == worker.draft
    requires worker'.phase.Cleared? ==> worker' == worker
    ensures WorkerDue(drafts', worker', last)
  {
    assert Evolves(drafts[worker.draft], drafts'[worker.draft]);
  }

  lemma WorkerStaysDue(cfg: Config, w: World, step: Step, last: int, k: nat)
    requires DueBy(w, last) && !Timed(step) && !step.Publish? && k < |w.workers| && k < |Next(cfg, w, step).workers|
    ensures WorkerDue(Next(cfg, w, step).drafts, Next(cfg, w, step).workers[k], last)
  {
    var w' := Next(cfg, w, step);
    DraftsEvolve(cfg, w, step);
    ClaimsStay(cfg, w, step, k);
    if w'.workers[k].phase.Cleared? {
      ClearedStays(cfg, w, step, k);
    }
    SameWorkerDue(w.drafts, w'.drafts, w.workers[k], w'.workers[k], last);
  }

  lemma NewWorkerDue(cfg: Config, w: World, step: Step, last: int, k: nat)
    requires !step.Publish? && |w.workers| <= k < |Next(cfg, w, step).workers|
    ensures WorkerDue(Next(cfg, w, step).drafts, Next(cfg, w, step).workers[k], last)
  {
  }

  lemma ClearedStays(cfg: Config, w: World, step: Step, k: nat)
    requires !step.Check? && k < |w.workers| && k < |Next(cfg, w, step).workers|
    requires Next(cfg, w, step).workers[k].phase.Cleared?
    ensures Next(cfg, w, step).workers[k] == w.workers[k]
  {
    if MovesWorker(w, step) {
      var moved := MoveFrame(cfg, w, step);
    }
  }

  lemma CallsStay(cfg: Config, w: World, step: Step)
    requires !step.Publish?
    ensures Next(cfg, w, step).calls == w.calls
  {
  }

  lemma CallsStayDue(cfg: Config, w: World, step: Step, last: int)
    requires DueBy(w, last) && !step.Publish?
    ensures forall j :: 0 <= j < |Next(cfg, w, step).calls| ==> CallDue(Next(cfg, w, step).drafts, Next(cfg, w, step).calls[j])
  {
    CallsStay(cfg, w, step);
    DraftsEvolve(cfg, w, step);
    forall j | 0 <= j < |w.calls|
      ensures CallDue(Next(cfg, w, step).drafts, w.calls[j])
    {
      assert CallDue(w.drafts, w.calls[j]);
      assert Evolves(w.drafts[w.calls[j].draft], Next(cfg, w, step).drafts[w.calls[j].draft]);
    }
  }

  lemma DueLater(w: World, last: int, now: int)
    requires DueBy(w, last) && last <= now
    ensures DueBy(w, now)
  {
    forall k | 0 <= k < |w.workers|
      ensures WorkerDue(w.drafts, w.workers[k], now)
    {
      assert WorkerDue(w.drafts, w.workers[k], last);
    }
  }

  lemma ClaimIsDue(w: World, k: nat, now: int)
    requires DueBy(w, now) && At(w, k, Got)
    ensures DueBy(StartClaim(w, k, now), now)
  {
    var w', id := StartClaim(w, k, now), w.workers[k].draft;
    FreshExactly(w.drafts, id, now);
    assert WorkerDue(w.drafts, w.workers[k], now);
    forall other | 0 <= other < |w'.workers|
      ensures WorkerDue(w'.drafts, w'.workers[other], now)
    {
      assert WorkerDue(w.drafts, w.workers[other], now);
    }
    forall j | 0 <= j < |w'.calls|
      ensures CallDue(w'.drafts, w'.calls[j])
    {
      assert CallDue(w.drafts, w.calls[j]);
    }
  }

  lemma CheckIsDue(w: World, k: nat, ok: bool, now: int)
    requires DueBy(w, now) && At(w, k, Checking) && WorkerOk(w.workers[k])
    ensures DueBy(CheckStep(w, k, ok, now), now)
  {
    var w' := CheckStep(w, k, ok, now);
    forall other | 0 <= other < |w'.workers|
      ensures WorkerDue(w'.drafts, w'.workers[other], now)
    {
      assert WorkerDue(w.drafts, w.workers[other], now);
    }
  }

  lemma PublishIsDue(w: World, k: nat, response: Response, last: int)
    requires DueBy(w, last) && At(w, k, Cleared)
    ensures DueBy(PublishStep(w, k, response), last)
  {
    var w' := PublishStep(w, k, response);
    assert WorkerDue(w.drafts, w.workers[k], last);
    forall other | 0 <= other < |w'.workers|
      ensures WorkerDue(w'.drafts, w'.workers[other], last)
    {
      assert WorkerDue(w.drafts, w.workers[other], last);
    }
    forall j | 0 <= j < |w'.calls|
      ensures CallDue(w'.drafts, w'.calls[j])
    {
      if j < |w.calls| {
        assert CallDue(w.drafts, w.calls[j]);
      }
    }
  }

  lemma StepIsDue(cfg: Config, w: World, step: Step, last: int)
    requires DueBy(w, last) && WorkersOk(w) && (Timed(step) ==> last <= step.now)
    ensures DueBy(Next(cfg, w, step), if Timed(step) then step.now else last)
  {
    match step
    case ClaimStep(k, now) =>
      DueLater(w, last, now);
      if At(w, k, Got) { ClaimIsDue(w, k, now); }
    case Check(k, ok, now) =>
      DueLater(w, last, now);
      if At(w, k, Checking) { CheckIsDue(w, k, ok, now); }
    case Publish(k, response) =>
      if At(w, k, Cleared) { PublishIsDue(w, k, response, last); }
    case _ => DueCarry(cfg, w, step, last);
  }

  lemma {:induction false} RunIsDue(cfg: Config, w: World, steps: seq<Step>, last: int) returns (end: int)
    requires DueBy(w, last) && Accounts(w) && Ascending(steps, last)
    ensures DueBy(Run(cfg, w, steps), end)
    decreases |steps|
  {
    if steps == [] {
      end := last;
    } else {
      StepIsDue(cfg, w, steps[0], last);
      AccountsKept(cfg, w, steps[0]);
      end := RunIsDue(cfg, Next(cfg, w, steps[0]), steps[1..], if Timed(steps[0]) then steps[0].now else last);
    }
  }

  /** In every run whose claim and check readings do not go back, no publish call is cleared
      before the publish time of its draft; through failures, retries and late claims. */
  lemma NothingGoesOutEarly(cfg: Config, steps: seq<Step>, first: int, j: nat)
    requires Ascending(steps, first) && j < |Run(cfg, START, steps).calls|
    ensures
      var w := Run(cfg, START, steps);
      w.calls[j].draft in w.drafts && w.drafts[w.calls[j].draft].content.publishAt <= w.calls[j].at
  {
    StartInv(cfg);
    var end := RunIsDue(cfg, START, steps, first);
    assert CallDue(Run(cfg, START, steps).drafts, Run(cfg, START, steps).calls[j]);
  }

  /** Every call comes from its own Resume call, after that very call saw FINISHED on the
      container it publishes. */
  lemma EveryPublishFollowsFinished(cfg: Config, steps: seq<Step>, i: nat, j: nat)
    requires i <= j < |Run(cfg, START, steps).calls|
    ensures
      var w := Run(cfg, START, steps);
      && w.calls[j].worker < |w.workers|
      && w.workers[w.calls[j].worker].finishedOn == Some(w.calls[j].container)
      && w.workers[w.calls[j].worker].draft == w.calls[j].draft
      && (w.calls[i].worker == w.calls[j].worker ==> i == j)
  {
    StartInv(cfg);
    RunKeeps(cfg, START, steps);
    assert CallOk(Run(cfg, START, steps), Run(cfg, START, steps).calls[j]);
  }

  /** A draft in an attempt has an attempt on record. */
  predicate Started(drafts: Drafts) {
    forall id :: id in drafts && drafts[id].state.Publishing? ==> drafts[id].attempts >= 1
  }

  lemma StartedMoves(cfg: Config, w: World, step: Step)
    requires Started(w.drafts) && MovesWorker(w, step)
    ensures Started(Next(cfg, w, step).drafts)
  {
  }

  lemma StartedKept(cfg: Config, w: World, step: Step)
    requires Started(w.drafts)
    ensures Started(Next(cfg, w, step).drafts)
  {
    if MovesWorker(w, step) {
      StartedMoves(cfg, w, step);
    }
  }

  lemma {:induction false} RunStarted(cfg: Config, w: World, steps: seq<Step>)
    requires Started(w.drafts)
    ensures Started(Run(cfg, w, steps).drafts)
    decreases |steps|
  {
    if steps != [] {
      StartedKept(cfg, w, steps[0]);
      RunStarted(cfg, Next(cfg, w, steps[0]), steps[1..]);
    }
  }

  /** In every run a draft that Fail can touch has at least one attempt, so the shift that
      computes its pause is never negative. */
  lemma AttemptIsCounted(cfg: Config, steps: seq<Step>, id: string)
    requires InAttempt(Run(cfg, START, steps).drafts, id)
    ensures 1 <= Run(cfg, START, steps).drafts[id].attempts <= Run(cfg, START, steps).drafts[id].maxAttempts
  {
    RunStarted(cfg, START, steps);
    StartInv(cfg);
    RunKeeps(cfg, START, steps);
  }

  lemma {:induction false} CallExists(calls: seq<Call>, id: string) returns (j: nat)
    requires CallsFor(calls, id) >= 1
    ensures j < |calls| && calls[j].draft == id
  {
    if calls[|calls| - 1].draft == id {
      j := |calls| - 1;
    } else {
      j := CallExists(calls[..|calls| - 1], id);
    }
  }

  lemma {:induction false} RunEvolves(cfg: Config, w: World, steps: seq<Step>, id: string)
    requires id in w.drafts
    ensures
      var w' := Run(cfg, w, steps);
      && id in w'.drafts && w'.drafts[id].content == w.drafts[id].content
      && (w.drafts[id].state.Published? ==>
            w'.drafts[id].state.Published? && w'.drafts[id].media == w.drafts[id].media
            && w'.drafts[id].attempts == w.drafts[id].attempts)
    decreases |steps|
  {
    if steps != [] {
      NextEvolves(cfg, w, steps[0]);
      assert Evolves(w.drafts[id], Next(cfg, w, steps[0]).drafts[id]);
      RunEvolves(cfg, Next(cfg, w, steps[0]), steps[1..], id);
    }
  }

  /** A published draft names the one media item the provider holds for it, was the
      subject of a publish call, and stays published with that media for good. */
  lemma PublishedForGood(cfg: Config, steps: seq<Step>, more: seq<Step>, id: string) returns (j: nat)
    requires id in Run(cfg, START, steps).drafts && Run(cfg, START, steps).drafts[id].state.Published?
    ensures
      var w := Run(cfg, START, steps);
      var w' := Run(cfg, w, more);
      && id in w.media && w.media[id] == w.drafts[id].media != ""
      && j < |w.calls| && w.calls[j].draft == id
      && id in w'.drafts && w'.drafts[id].state.Published? && w'.drafts[id].media == w.drafts[id].media
      && id in w'.media && w'.media[id] == w.media[id]
  {
    StartInv(cfg);
    RunKeeps(cfg, START, steps);
    var w := Run(cfg, START, steps);
    RunKeeps(cfg, w, more);
    RunEvolves(cfg, w, more, id);
    j := CallExists(w.calls, id);
  }

  /******* The late claim *******/

  /** All the steps of one undisturbed Resume call whose media is staged and whose
      container is ready at once. */
  function Drive(k: nat, now: int): seq<Step> {
    [ClaimStep(k, now), Stage(k, true, "staged", now + 3600 * SECOND, now), CreateContainer(k, true, "container"),
     Poll(k, Finished, true), Check(k, true, now), Publish(k, Accepted("media")), Finish(k, true)]
  }

  function Driven(cfg: Config, w: World, k: nat, now: int): World {
    var steps := Drive(k, now);
    var claimed := Next(cfg, w, steps[0]);
    var staged := Next(cfg, claimed, steps[1]);
    var created := Next(cfg, staged, steps[2]);
    var polled := Next(cfg, created, steps[3]);
    var checked := Next(cfg, polled, steps[4]);
    var published := Next(cfg, checked, steps[5]);
    Next(cfg, published, steps[6])
  }

  lemma DrivenIsRun(cfg: Config, w: World, k: nat, now: int)
    ensures Run(cfg, w, Drive(k, now)) == Driven(cfg, w, k, now)
  {
    var s := Drive(k, now);
    var w1 := Next(cfg, w, s[0]);
    var w2 := Next(cfg, w1, s[1]);
    var w3 := Next(cfg, w2, s[2]);
    var w4 := Next(cfg, w3, s[3]);
    var w5 := Next(cfg, w4, s[4]);
    var w6 := Next(cfg, w5, s[5]);
    var w7 := Next(cfg, w6, s[6]);
    calc {
      Run(cfg, w, s);
      Run(cfg, w1, s[1..]);
      { assert s[1..][1..] == s[2..]; }
      Run(cfg, w2, s[2..]);
      { assert s[2..][1..] == s[3..]; }
      Run(cfg, w3, s[3..]);
      { assert s[3..][1..] == s[4..]; }
      Run(cfg, w4, s[4..]);
      { assert s[4..][1..] == s[5..]; }
      Run(cfg, w5, s[5..]);
      { assert s[5..][1..] == s[6..]; }
      Run(cfg, w6, s[6..]);
      { assert s[6..][1..] == []; }
      w7;
    }
  }

  /** Worker `k` of world `w0` has claimed draft `id` and nothing else has happened. */
  predicate During(w0: World, w: World, k: nat, id: string) {
    && k < |w0.workers| && |w.workers| == |w0.workers| && w.workers == w0.workers[k := w.workers[k]]
    && w.workers[k].draft == id && w.calls == w0.calls
    && id in w0.drafts && w.drafts.Keys == w0.drafts.Keys
    && SameButProgress(w0.drafts[id], w.drafts[id])
    && w.drafts[id].state == if w0.drafts[id].state.Published? then Published else Publishing
  }

  predicate SameButProgress(d0: Draft, d: Draft) {
    && d.attempts == d0.attempts + Count(!d0.state.Published?)
    && d.maxAttempts == d0.maxAttempts && d.authorizedUntil == d0.authorizedUntil
  }

  lemma DriveClaim(cfg: Config, w: World, k: nat, id: string, now: int)
    requires At(w, k, Got) && w.workers[k].draft == id && id in w.drafts && !ClaimOutcome(w.drafts, id, now).Refused?
    ensures During(w, Next(cfg, w, ClaimStep(k, now)), k, id) && At(Next(cfg, w, ClaimStep(k, now)), k, Staging)
  {
  }

  lemma DriveStage(cfg: Config, w0: World, w: World, k: nat, id: string, now: int)
    requires During(w0, w, k, id) && At(w, k, Staging)
    ensures
      var w' := Next(cfg, w, Stage(k, true, "staged", now + 3600 * SECOND, now));
      During(w0, w', k, id) && At(w', k, Creating)
  {
  }

  lemma DriveCreate(cfg: Config, w0: World, w: World, k: nat, id: string)
    requires During(w0, w, k, id) && At(w, k, Creating)
    ensures
      var w' := Next(cfg, w, CreateContainer(k, true, "container"));
      During(w0, w', k, id) && At(w', k, Polling(cfg.maxPolls))
  {
  }

  lemma DrivePollAndCheck(cfg: Config, w0: World, w: World, k: nat, id: string, now: int)
    requires During(w0, w, k, id) && At(w, k, Polling(cfg.maxPolls)) && cfg.maxPolls > 0 && Authorized(w0.drafts[id], now)
    ensures
      var w' := Next(cfg, Next(cfg, w, Poll(k, Finished, true)), Check(k, true, now));
      During(w0, w', k, id) && At(w', k, Cleared)
  {
    var polled := Next(cfg, w, Poll(k, Finished, true));
    assert During(w0, polled, k, id) && At(polled, k, Checking);
  }

  lemma DriveFinish(cfg: Config, w0: World, w: World, k: nat, id: string)
    requires During(w0, w, k, id) && At(w, k, Cleared)
    ensures Extended(w0, Next(cfg, Next(cfg, w, Publish(k, Accepted("media"))), Finish(k, true)), k, id)
  {
    var published := Next(cfg, w, Publish(k, Accepted("media")));
    assert published.calls[..|w.calls|] == w.calls;
    assert published.workers[k].phase.Completing?;
  }

  /** What both kinds of claim lead to: one more publish call for the draft, which ends
      up published; no other worker has moved. */
  predicate Extended(w0: World, w: World, k: nat, id: string) {
    && id in w0.drafts && id in w.drafts && |w.workers| == |w0.workers|
    && (forall other: nat :: other < |w.workers| && other != k ==> w.workers[other] == w0.workers[other])
    && |w.calls| == |w0.calls| + 1 && w.calls[..|w0.calls|] == w0.calls && w.calls[|w0.calls|].draft == id
    && w.drafts[id].state.Published? && SameButProgress(w0.drafts[id], w.drafts[id])
  }

  lemma DrivePublishes(cfg: Config, w: World, k: nat, id: string, now: int)
    requires At(w, k, Got) && w.workers[k].draft == id && id in w.drafts && cfg.maxPolls > 0
    requires !ClaimOutcome(w.drafts, id, now).Refused? && Authorized(w.drafts[id], now)
    ensures Extended(w, Driven(cfg, w, k, now), k, id)
  {
    var steps := Drive(k, now);
    var claimed := Next(cfg, w, steps[0]);
    var staged := Next(cfg, claimed, steps[1]);
    var created := Next(cfg, staged, steps[2]);
    var checked := Next(cfg, Next(cfg, created, steps[3]), steps[4]);
    DriveClaim(cfg, w, k, id, now);
    DriveStage(cfg, w, claimed, k, id, now);
    DriveCreate(cfg, w, staged, k, id);
    DrivePollAndCheck(cfg, w, created, k, id, now);
    DriveFinish(cfg, w, checked, k, id);
  }

  lemma TwoResumes(cfg: Config, w: World, id: string, now: int) returns (steps: seq<Step>)
    requires Inv(cfg, w) && cfg.maxPolls > 0 && ClaimOutcome(w.drafts, id, now).Fresh?
    requires w.drafts[id].attempts == 0 && w.drafts[id].maxAttempts == 1 && CallsFor(w.calls, id) == 0
    ensures
      var w' := Run(cfg, w, steps);
      id in w'.drafts && w'.drafts[id].attempts == w'.drafts[id].maxAttempts == 1 && CallsFor(w'.calls, id) == 2
  {
    var k := |w.workers|;
    var w1 := Next(cfg, w, Begin(id));
    var w2 := Next(cfg, w1, Begin(id));
    assert w2.drafts == w.drafts && w2.calls == w.calls && At(w2, k, Got) && At(w2, k + 1, Got);
    var first, second := TwoDrives(cfg, w2, k, id, now);
    var drives := Drive(k, now) + Drive(k + 1, now);
    steps := [Begin(id), Begin(id)] + drives;
    assert Run(cfg, w, steps) == Run(cfg, w2, drives) by {
      RunTwo(cfg, w, Begin(id), Begin(id), drives);
    }
    assert Run(cfg, w2, drives) == second by {
      RunAppend(cfg, w2, Drive(k, now), Drive(k + 1, now));
      DrivenIsRun(cfg, w2, k, now);
      DrivenIsRun(cfg, first, k + 1, now);
    }
  }

  lemma RunTwo(cfg: Config, w: World, a: Step, b: Step, rest: seq<Step>)
    ensures Run(cfg, w, [a, b] + rest) == Run(cfg, Next(cfg, Next(cfg, w, a), b), rest)
  {
    var steps := [a, b] + rest;
    assert steps[1..] == [b] + rest && ([b] + rest)[1..] == rest;
  }

  lemma TwoDrives(cfg: Config, w: World, k: nat, id: string, now: int) returns (first: World, second: World)
    requires cfg.maxPolls > 0 && ClaimOutcome(w.drafts, id, now).Fresh?
    requires At(w, k, Got) && At(w, k + 1, Got) && w.workers[k].draft == w.workers[k + 1].draft == id
    requires w.drafts[id].attempts == 0 && w.drafts[id].maxAttempts == 1 && CallsFor(w.calls, id) == 0
    ensures first == Driven(cfg, w, k, now) && second == Driven(cfg, first, k + 1, now)
    ensures id in second.drafts && second.drafts[id].attempts == second.drafts[id].maxAttempts == 1 && CallsFor(second.calls, id) == 2
  {
    first := Driven(cfg, w, k, now);
    DrivePublishes(cfg, w, k, id, now);
    second := Driven(cfg, first, k + 1, now);
    assert At(first, k + 1, Got) && first.workers[k + 1].draft == id;
    DrivePublishes(cfg, first, k + 1, id, now);
    assert CallsFor(first.calls, id) == 1;
  }

  lemma {:induction false} RunAppend(cfg: Config, w: World, s: seq<Step>, t: seq<Step>)
    ensures Run(cfg, w, s + t) == Run(cfg, Run(cfg, w, s), t)
    decreases |s|
  {
    if s == [] {
      assert s + t == t;
    } else {
      assert (s + t)[1..] == s[1..] + t;
      RunAppend(cfg, Next(cfg, w, s[0]), s[1..], t);
    }
  }

  /** Prepare a draft with one attempt, ask for its approval, approve it, consume it, hand it in. */
  function ApprovedSteps(cfg: Config, id: string, c: Content, now: int): seq<Step> {
    var args := cfg.hash(BindingFor(id, c));
    var request := Request(cfg.owner, TOOL, args, c.account, now + SECOND, Approved);
    [Prepare(id, c, 1),
     Approve(OpAsk("token", cfg.owner, TOOL, args, c.account, now + SECOND)),
     Approve(OpResolveToken("token", cfg.owner, true, now)),
     Approve(OpConsume("token", cfg.owner, TOOL, args, c.account, now)),
     PublishApproved(id, BindingFor(id, c), ReceiptOf("token", request), now)]
  }

  /** A claim of the draft, its only one, would go through. */
  ghost predicate ReadyOnce(cfg: Config, w: World, id: string, c: Content, now: int) {
    && Inv(cfg, w) && ClaimOutcome(w.drafts, id, now).Fresh? && CallsFor(w.calls, id) == 0
    && w.drafts[id].content == c && w.drafts[id].attempts == 0 && w.drafts[id].maxAttempts == 1
  }

  lemma ApprovedFromStart(cfg: Config, id: string, c: Content, now: int) returns (s: seq<Step>)
    requires c.publishAt <= now
    ensures ReadyOnce(cfg, Run(cfg, START, s), id, c, now)
  {
    s := ApprovedSteps(cfg, id, c, now);
    StartInv(cfg);
    RunKeeps(cfg, START, s);
    RunAppend(cfg, START, s[..2], s[2..]);
    RunTwo(cfg, START, s[0], s[1], []);
    assert s[..2] == [s[0], s[1]] + [] && s[2..] == [s[2], s[3]] + [s[4]] && s == s[..2] + s[2..];
    var asked := Next(cfg, Next(cfg, START, s[0]), s[1]);
    RunTwo(cfg, asked, s[2], s[3], [s[4]]);
    var consumed := Next(cfg, Next(cfg, asked, s[2]), s[3]);
    assert [s[4]][1..] == [];
    assert Run(cfg, START, s) == Next(cfg, consumed, s[4]);
    ApprovalHandedIn(cfg, id, c, now, asked, consumed);
  }

  lemma ApprovalHandedIn(cfg: Config, id: string, c: Content, now: int, asked: World, consumed: World)
    requires c.publishAt <= now
    requires var s := ApprovedSteps(cfg, id, c, now);
             asked == Next(cfg, Next(cfg, START, s[0]), s[1]) && consumed == Next(cfg, Next(cfg, asked, s[2]), s[3])
    ensures
      var w := Next(cfg, consumed, ApprovedSteps(cfg, id, c, now)[4]);
      && ClaimOutcome(w.drafts, id, now).Fresh? && w.calls == []
      && w.drafts[id].content == c && w.drafts[id].attempts == 0 && w.drafts[id].maxAttempts == 1
  {
    var args := cfg.hash(BindingFor(id, c));
    var draft := Draft(c, Prepared, "", "", "", None, 0, 1, c.publishAt, None);
    var waiting := Request(cfg.owner, TOOL, args, c.account, now + SECOND, Waiting);
    var approved := waiting.(state := Approved);
    assert asked == START.(drafts := map[id := draft], book := Book(map["token" := waiting], {}));
    assert consumed == asked.(book := Book(map["token" := approved], {"token"}), receipts := {ReceiptOf("token", approved)});
  }

  /** The attempt limit does not limit publish calls: a draft with a single attempt is
      published twice when a second Resume call reads it before, and claims it after, the
      first one completes.  The claim finds the draft published, which is the guard of
      the branch that returns it without counting an attempt. */
  lemma LateClaimPublishesAgain(cfg: Config, id: string, c: Content, now: int) returns (steps: seq<Step>)
    requires cfg.maxPolls > 0 && c.publishAt <= now
    ensures
      var w := Run(cfg, START, steps);
      && id in w.drafts && w.drafts[id].content == c
      && w.drafts[id].attempts == w.drafts[id].maxAttempts == 1 && CallsFor(w.calls, id) == 2
  {
    var approved := ApprovedFromStart(cfg, id, c, now);
    var resumes := TwoResumes(cfg, Run(cfg, START, approved), id, now);
    steps := approved + resumes;
    RunAppend(cfg, START, approved, resumes);
    RunEvolves(cfg, Run(cfg, START, approved), resumes, id);
  }

  /******* The poll loop *******/

  /** One poll: the status that comes back, and whether the pause after it was not cut short. */
  datatype PollResult = PollResult(status: Status, slept: bool)

  /** The poll steps of the protocol, taken until the worker stops polling. */
  function PollAll(worker: Worker, script: nat -> PollResult, i: nat): Worker
    decreases if worker.phase.Polling? then worker.phase.left + 1 else 0
  {
    if worker.phase.Polling?
    then PollAll(PollStep(worker, worker.phase.left, script(i).status, script(i).slept), script, i + 1)
    else worker
  }

  /** The loop goes on to the authorization check exactly if one of the allowed polls
      finds the container finished and every poll before it was merely unfinished. */
  method PollContainer(worker: Worker, maxPolls: nat, script: nat -> PollResult) returns (after: Worker)
    requires worker.phase == Polling(maxPolls)
    ensures after == PollAll(worker, script, 0)
    ensures after.phase == Checking || after.phase == Failing
    ensures after.phase == Checking ==> after.finishedOn == Some(worker.container)
    ensures after.phase == Checking <==>
              exists k :: 0 <= k < maxPolls && script(k).status.Finished?
                          && forall j :: 0 <= j < k ==> script(j) == PollResult(InProgress, true)
  {
    var poll := 0;
    while poll < maxPolls
      invariant 0 <= poll <= maxPolls
      invariant forall j :: 0 <= j < poll ==> script(j) == PollResult(InProgress, true)
      invariant PollAll(worker, script, 0) == PollAll(worker.(phase := Polling(maxPolls - poll)), script, poll)
    {
      var result := script(poll);
      match result.status {
        case Finished =>
          return worker.(phase := Checking, finishedOn := Some(worker.container));
        case Broken =>
          return worker.(phase := Failing);
        case InProgress =>
          if !result.slept {
            return worker.(phase := Failing);
          }
      }
      poll := poll + 1;
    }
    after := worker.(phase := Failing);
  }
}
