/** Single-use approvals bound to a user, a tool, an argument hash and a resource.

    A row is found by the hash of its random token; the model uses the token itself as
    the key of both tables. */
module Approvals {
  import opened Prelude

  datatype ApprovalState = Waiting | Approved | Denied | Expired
  datatype Request = Request(user: int, tool: string, args: string, resource: string, expires: int, state: ApprovalState)

  /** What a consumed approval hands to its caller. */
  datatype Receipt = Receipt(id: string, user: int, tool: string, args: string, resource: string, expires: int)

  datatype Book = Book(requests: map<string, Request>, uses: set<string>)

  const EMPTY := Book(map[], {})

  predicate Matches(r: Request, user: int, tool: string, args: string, resource: string) {
    r.user == user && r.tool == tool && r.args == args && r.resource == resource
  }

  function Ask(b: Book, token: string, user: int, tool: string, args: string, resource: string, expires: int): Book {
    if token in b.requests then b
    else b.(requests := b.requests[token := Request(user, tool, args, resource, expires, Waiting)])
  }

  function Resolve(b: Book, token: string, user: int, tool: string, args: string, resource: string, approve: bool, now: int): Book {
    if token !in b.requests || !b.requests[token].state.Waiting? then b
    else
      var r := b.requests[token];
      if now > r.expires then b.(requests := b.requests[token := r.(state := Expired)])
      else if !Matches(r, user, tool, args, resource) then b
      else b.(requests := b.requests[token := r.(state := if approve then Approved else Denied)])
  }

  /** ResolveToken checks the user and fills in the stored binding. */
  function ResolveToken(b: Book, token: string, user: int, approve: bool, now: int): Book {
    if token !in b.requests || b.requests[token].user != user then b
    else
      var r := b.requests[token];
      Resolve(b, token, user, r.tool, r.args, r.resource, approve, now)
  }

  predicate Usable(b: Book, token: string, user: int, tool: string, args: string, resource: string, now: int) {
    && token in b.requests && now < b.requests[token].expires && b.requests[token].state.Approved?
    && Matches(b.requests[token], user, tool, args, resource) && token !in b.uses
  }

  function ReceiptOf(token: string, r: Request): Receipt {
    Receipt(token, r.user, r.tool, r.args, r.resource, r.expires)
  }

  function Consume(b: Book, token: string, user: int, tool: string, args: string, resource: string, now: int): (Book, Option<Receipt>) {
    if Usable(b, token, user, tool, args, resource, now)
    then (b.(uses := b.uses + {token}), Some(ReceiptOf(token, b.requests[token])))
    else (b, None)
  }

  /** The receipt states exactly what an approved, consumed row says. */
  predicate Vouched(b: Book, r: Receipt) {
    r.id in b.requests && b.requests[r.id].state.Approved? && r.id in b.uses && r == ReceiptOf(r.id, b.requests[r.id])
  }

  /** Decided rows and uses are permanent. */
  predicate Extends(b: Book, b': Book) {
    && b.uses <= b'.uses
    && forall t :: t in b.requests && !b.requests[t].state.Waiting? ==> t in b'.requests && b'.requests[t] == b.requests[t]
  }

  lemma BookExtends(b: Book, token: string, user: int, tool: string, args: string, resource: string, expires: int, approve: bool, now: int)
    ensures Extends(b, Ask(b, token, user, tool, args, resource, expires))
    ensures Extends(b, Resolve(b, token, user, tool, args, resource, approve, now))
    ensures Extends(b, ResolveToken(b, token, user, approve, now))
    ensures Extends(b, Consume(b, token, user, tool, args, resource, now).0)
  {
  }

  lemma VouchedForGood(b: Book, b': Book, r: Receipt)
    requires Extends(b, b') && Vouched(b, r)
    ensures Vouched(b', r)
  {
  }

  class Manager {
    var requests: map<string, Request>
    var uses: set<string>

    function State(): Book
      reads this
    {
      Book(requests, uses)
    }

    constructor ()
      ensures State() == EMPTY
    {
      requests, uses := map[], {};
    }

    method AskFor(token: string, user: int, tool: string, args: string, resource: string, expires: int) returns (ok: bool)
      modifies this`requests
      ensures State() == Ask(old(State()), token, user, tool, args, resource, expires)
      ensures ok <==> token !in old(requests)
      ensures requests == if ok then old(requests)[token := Request(user, tool, args, resource, expires, Waiting)] else old(requests)
    {
      ok := token !in requests;
      if ok {
        requests := requests[token := Request(user, tool, args, resource, expires, Waiting)];
      }
    }

    method Decide(token: string, user: int, tool: string, args: string, resource: string, approve: bool, now: int) returns (ok: bool)
      modifies this`requests
      ensures State() == Resolve(old(State()), token, user, tool, args, resource, approve, now)
      ensures ok <==> token in old(requests) && old(requests)[token].state.Waiting? && now <= old(requests)[token].expires
                      && Matches(old(requests)[token], user, tool, args, resource)
      ensures ok && approve ==> requests == old(requests)[token := old(requests)[token].(state := Approved)]
      ensures ok && !approve ==> requests == old(requests)[token := old(requests)[token].(state := Denied)]
      ensures !ok && token in old(requests) && old(requests)[token].state.Waiting? && now > old(requests)[token].expires ==>
                requests == old(requests)[token := old(requests)[token].(state := Expired)]
      ensures !ok && !(token in old(requests) && old(requests)[token].state.Waiting? && now > old(requests)[token].expires) ==>
                requests == old(requests)
    {
      if token !in requests || !requests[token].state.Waiting? {
        return false;
      }
      var r := requests[token];
      if now > r.expires {
        requests := requests[token := r.(state := Expired)];
        return false;
      }
      if !Matches(r, user, tool, args, resource) {
        return false;
      }
      requests := requests[token := r.(state := if approve then Approved else Denied)];
      return true;
    }

    /** The owner answers by token alone; the binding is the stored one. */
    method DecideByToken(token: string, user: int, approve: bool, now: int) returns (ok: bool)
      modifies this`requests
      ensures State() == ResolveToken(old(State()), token, user, approve, now)
      ensures ok <==> token in old(requests) && old(requests)[token].user == user && old(requests)[token].state.Waiting?
                      && now <= old(requests)[token].expires
      ensures ok && approve ==> requests == old(requests)[token := old(requests)[token].(state := Approved)]
      ensures ok && !approve ==> requests == old(requests)[token := old(requests)[token].(state := Denied)]
    {
      if token !in requests || requests[token].user != user {
        return false;
      }
      var r := requests[token];
      ok := Decide(token, user, r.tool, r.args, r.resource, approve, now);
    }

    /** A second use of the same approval always fails: its use is on record. */
    method AuthorizeReceipt(token: string, user: int, tool: string, args: string, resource: string, now: int) returns (receipt: Option<Receipt>)
      modifies this`uses
      ensures (State(), receipt) == Consume(old(State()), token, user, tool, args, resource, now)
      ensures receipt.Some? <==> token !in old(uses) && token in requests && requests[token].state.Approved? && now < requests[token].expires
                                 && requests[token].user == user && requests[token].tool == tool
                                 && requests[token].args == args && requests[token].resource == resource
      ensures receipt.Some? ==> uses == old(uses) + {token} && Vouched(State(), receipt.value)
      ensures receipt.None? ==> uses == old(uses)
      ensures token in old(uses) ==> receipt.None?
    {
      if token !in requests || now >= requests[token].expires {
        return None;
      }
      var r := requests[token];
      if !r.state.Approved? || !Matches(r, user, tool, args, resource) || token in uses {
        return None;
      }
      uses := uses + {token};
      return Some(ReceiptOf(token, r));
    }
  }

  /******* Runs of the approval book *******/

  datatype Op =
    | OpAsk(token: string, user: int, tool: string, args: string, resource: string, expires: int)
    | OpResolve(token: string, user: int, tool: string, args: string, resource: string, approve: bool, now: int)
    | OpResolveToken(token: string, user: int, approve: bool, now: int)
    | OpConsume(token: string, user: int, tool: string, args: string, resource: string, now: int)

  function Do(b: Book, op: Op): (Book, Option<Receipt>) {
    match op
    case OpAsk(token, user, tool, args, resource, expires) => (Ask(b, token, user, tool, args, resource, expires), None)
    case OpResolve(token, user, tool, args, resource, approve, now) =>
      (Resolve(b, token, user, tool, args, resource, approve, now), None)
    case OpResolveToken(token, user, approve, now) => (ResolveToken(b, token, user, approve, now), None)
    case OpConsume(token, user, tool, args, resource, now) => Consume(b, token, user, tool, args, resource, now)
  }

  lemma DoExtends(b: Book, op: Op)
    ensures Extends(b, Do(b, op).0)
  {
    match op
    case OpAsk(token, user, tool, args, resource, expires) =>
      BookExtends(b, token, user, tool, args, resource, expires, true, 0);
    case OpResolve(token, user, tool, args, resource, approve, now) =>
      BookExtends(b, token, user, tool, args, resource, 0, approve, now);
    case OpResolveToken(token, user, approve, now) =>
      BookExtends(b, token, user, "", "", "", 0, approve, now);
    case OpConsume(token, user, tool, args, resource, now) =>
      BookExtends(b, token, user, tool, args, resource, 0, true, now);
  }

  /** The operation is a decision on a waiting request, in time, by the user the request names
      and for the binding it states. */
  predicate Decides(b: Book, op: Op, token: string, approve: bool) {
    && token in b.requests && b.requests[token].state.Waiting?
    && match op
       case OpResolve(t, user, tool, args, resource, decision, now) =>
         && t == token && decision == approve && now <= b.requests[token].expires
         && user == b.requests[token].user && tool == b.requests[token].tool
         && args == b.requests[token].args && resource == b.requests[token].resource
       case OpResolveToken(t, user, decision, now) =>
         t == token && decision == approve && now <= b.requests[token].expires && user == b.requests[token].user
       case _ => false
  }

  /** The operation finds a waiting request too late. */
  predicate Lapses(b: Book, op: Op, token: string) {
    && token in b.requests && b.requests[token].state.Waiting?
    && match op
       case OpResolve(t, _, _, _, _, _, now) => t == token && now > b.requests[token].expires
       case OpResolveToken(t, user, _, now) =>
         t == token && now > b.requests[token].expires && user == b.requests[token].user
       case _ => false
  }

  /** What becomes of a request: its binding never changes, and it is approved, denied or
      expired exactly by an operation that says so. */
  lemma DecisionExactly(b: Book, op: Op, token: string)
    requires token in b.requests
    ensures token in Do(b, op).0.requests
    ensures
      var r, r' := b.requests[token], Do(b, op).0.requests[token];
      && r'.user == r.user && r'.tool == r.tool && r'.args == r.args && r'.resource == r.resource && r'.expires == r.expires
      && (r'.state.Approved? <==> r.state.Approved? || Decides(b, op, token, true))
      && (r'.state.Denied? <==> r.state.Denied? || Decides(b, op, token, false))
      && (r'.state.Expired? <==> r.state.Expired? || Lapses(b, op, token))
  {
  }

  /** A request comes in waiting, with the binding it was asked for. */
  lemma AskedExactly(b: Book, op: Op, token: string)
    requires token !in b.requests
    ensures token in Do(b, op).0.requests <==> op.OpAsk? && op.token == token
    ensures token in Do(b, op).0.requests ==>
              Do(b, op).0.requests[token] == Request(op.user, op.tool, op.args, op.resource, op.expires, Waiting)
  {
  }

  /** A receipt is issued exactly for an approved, unexpired, unused request and its own binding. */
  lemma IssuesExactly(b: Book, op: Op, token: string)
    ensures
      Issues(b, op, token) <==>
        && op.OpConsume? && op.token == token && token in b.requests && token !in b.uses
        && b.requests[token].state.Approved? && op.now < b.requests[token].expires
        && op.user == b.requests[token].user && op.tool == b.requests[token].tool
        && op.args == b.requests[token].args && op.resource == b.requests[token].resource
  {
  }

  function RunOps(b: Book, ops: seq<Op>): Book
    decreases |ops|
  {
    if ops == [] then b else Do(RunOps(b, ops[..|ops| - 1]), ops[|ops| - 1]).0
  }

  /** Whatever is approved was approved by an operation of the sequence. */
  lemma {:induction false} ApprovedByDecision(ops: seq<Op>, token: string) returns (n: nat)
    requires token in RunOps(EMPTY, ops).requests && RunOps(EMPTY, ops).requests[token].state.Approved?
    ensures n < |ops| && Decides(RunOps(EMPTY, ops[..n]), ops[n], token, true)
    decreases |ops|
  {
    var m := |ops| - 1;
    var before := RunOps(EMPTY, ops[..m]);
    if token in before.requests && before.requests[token].state.Approved? {
      n := ApprovedByDecision(ops[..m], token);
      assert ops[..m][..n] == ops[..n];
    } else {
      n := m;
      if token in before.requests {
        DecisionExactly(before, ops[m], token);
      } else {
        AskedExactly(before, ops[m], token);
      }
    }
  }

  lemma {:induction false} ClosedNeverIssues(b: Book, ops: seq<Op>, token: string)
    requires token in b.requests && (b.requests[token].state.Denied? || b.requests[token].state.Expired?)
    ensures Issued(b, ops, token) == 0
    decreases |ops|
  {
    if ops != [] {
      DecisionExactly(b, ops[0], token);
      DoExtends(b, ops[0]);
      IssuesExactly(b, ops[0], token);
      ClosedNeverIssues(Do(b, ops[0]).0, ops[1..], token);
    }
  }

  /** After a denial no receipt is ever issued for the request. */
  lemma DenialIsFinal(b: Book, op: Op, rest: seq<Op>, token: string)
    requires Decides(b, op, token, false)
    ensures Issued(b, [op] + rest, token) == 0
  {
    assert ([op] + rest)[1..] == rest;
    DecisionExactly(b, op, token);
    IssuesExactly(b, op, token);
    ClosedNeverIssues(Do(b, op).0, rest, token);
  }

  predicate Issues(b: Book, op: Op, token: string) {
    Do(b, op).1.Some? && Do(b, op).1.value.id == token
  }

  /** An operation records a use exactly when it issues the receipt. */
  lemma UseIsReceipt(b: Book, op: Op, token: string)
    ensures Count(token in Do(b, op).0.uses) == Count(token in b.uses) + Count(Issues(b, op, token))
  {
  }

  /** How many receipts a sequence of operations issues for one approval. */
  function Issued(b: Book, ops: seq<Op>, token: string): nat
    decreases |ops|
  {
    if ops == [] then 0
    else
      Count(Issues(b, ops[0], token)) + Issued(Do(b, ops[0]).0, ops[1..], token)
  }

  /** An approval yields at most one receipt, in any sequence of operations, and none
      once it has been used. */
  lemma {:induction false} SingleUse(b: Book, ops: seq<Op>, token: string)
    ensures Issued(b, ops, token) <= if token in b.uses then 0 else 1
    decreases |ops|
  {
    if ops != [] {
      DoExtends(b, ops[0]);
      SingleUse(Do(b, ops[0]).0, ops[1..], token);
    }
  }
}
