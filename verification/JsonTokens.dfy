/** Scanning a JSON token stream for repeated member names.

    A stream holds the tokens the decoder can still deliver. It ends either at the end of the
    text or at the first syntax error; `clean` says which. Commas and colons are not tokens. */
module JsonTokens {

  datatype Scalar = Null | Bool(b: bool) | Number(literal: string) | Text(s: string)
  datatype Token = BeginObject | EndObject | BeginArray | EndArray | Value(v: Scalar)

  /** A JSON document as written: members keep their order and may repeat a name. */
  datatype Doc = Leaf(v: Scalar) | Array(items: seq<Doc>) | Object(members: seq<Member>)
  datatype Member = Member(name: string, value: Doc)

  datatype Error =
    | Cut
    | DuplicateKey(key: string)
    | KeyNotString
    | MalformedObject
    | MalformedArray
    | UnexpectedDelimiter
    | MultipleValues
  datatype Outcome = Done(rest: seq<Token>) | Failed(error: Error)

  /******* Documents and their tokens *******/

  function Tokens(d: Doc): (ts: seq<Token>)
    ensures ts != []
  {
    match d
    case Leaf(v) => [Value(v)]
    case Array(items) => [BeginArray] + ItemTokens(items) + [EndArray]
    case Object(members) => [BeginObject] + MemberTokens(members) + [EndObject]
  }

  function ItemTokens(items: seq<Doc>): seq<Token> {
    if items == [] then [] else Tokens(items[0]) + ItemTokens(items[1..])
  }

  function MemberTokens(members: seq<Member>): seq<Token> {
    if members == [] then []
    else [Value(Text(members[0].name))] + Tokens(members[0].value) + MemberTokens(members[1..])
  }

  /** Some object of the document, at any depth, has two members named `k`. */
  ghost predicate Repeats(d: Doc, k: string) {
    match d
    case Leaf(_) => false
    case Array(items) => exists i :: 0 <= i < |items| && Repeats(items[i], k)
    case Object(members) =>
      || (exists i, j :: 0 <= i < j < |members| && members[i].name == members[j].name == k)
      || (exists i :: 0 <= i < |members| && Repeats(members[i].value, k))
  }

  ghost predicate NamesUnique(d: Doc) {
    forall k :: !Repeats(d, k)
  }

  /******* The scan as a function *******/

  predicate More(ts: seq<Token>) {
    ts != [] && ts[0] != EndObject && ts[0] != EndArray
  }

  function Consume(ts: seq<Token>): (r: Outcome)
    ensures r.Done? ==> |r.rest| < |ts|
    decreases |ts|, 0
  {
    if ts == [] then Failed(Cut)
    else
      match ts[0]
      case Value(_) => Done(ts[1..])
      case BeginObject => ConsumeMembers(ts[1..], {})
      case BeginArray => ConsumeItems(ts[1..])
      case _ => Failed(UnexpectedDelimiter)
  }

  function ConsumeItems(ts: seq<Token>): (r: Outcome)
    ensures r.Done? ==> |r.rest| < |ts|
    decreases |ts|, 1
  {
    if More(ts) then
      var r := Consume(ts);
      if r.Failed? then r else ConsumeItems(r.rest)
    else if ts != [] && ts[0] == EndArray then Done(ts[1..])
    else Failed(MalformedArray)
  }

  function ConsumeMembers(ts: seq<Token>, seen: set<string>): (r: Outcome)
    ensures r.Done? ==> |r.rest| < |ts|
    decreases |ts|, 1
  {
    if More(ts) then
      if !(ts[0].Value? && ts[0].v.Text?) then Failed(KeyNotString)
      else if ts[0].v.s in seen then Failed(DuplicateKey(ts[0].v.s))
      else
        var r := Consume(ts[1..]);
        if r.Failed? then r else ConsumeMembers(r.rest, seen + {ts[0].v.s})
    else if ts != [] && ts[0] == EndObject then Done(ts[1..])
    else Failed(MalformedObject)
  }

  /** The whole text holds one value whose names are unique, and nothing after it. */
  function Scan(ts: seq<Token>, clean: bool): Outcome {
    var r := Consume(ts);
    if r.Failed? then r
    else if r.rest != [] then Failed(MultipleValues)
    else if clean then r
    else Failed(Cut)
  }

  /******* What the scan accepts *******/

  /** The scan of a document's tokens stops exactly at its end, whatever follows, and goes
      through if and only if no object at any depth repeats a member name. */
  lemma {:induction false} ConsumeDocument(d: Doc, rest: seq<Token>)
    ensures NamesUnique(d) <==> Consume(Tokens(d) + rest) == Done(rest)
    ensures !NamesUnique(d) ==>
              exists k :: Repeats(d, k) && Consume(Tokens(d) + rest) == Failed(DuplicateKey(k))
    decreases d, 1
  {
    var ts := Tokens(d) + rest;
    match d
    case Leaf(v) =>
      assert ts[1..] == rest;
    case Array(items) =>
      assert ts[1..] == ItemTokens(items) + ([EndArray] + rest);
      ConsumeAllItems(items, rest);
      RepeatsInArray(items);
    case Object(members) =>
      assert ts[1..] == MemberTokens(members) + ([EndObject] + rest);
      ConsumeAllMembers(members, {}, rest);
      RepeatsInObject(members);
  }

  lemma RepeatsInArray(items: seq<Doc>)
    ensures NamesUnique(Array(items)) <==> forall i :: 0 <= i < |items| ==> NamesUnique(items[i])
    ensures forall i, k :: 0 <= i < |items| && Repeats(items[i], k) ==> Repeats(Array(items), k)
  {
    forall k | Repeats(Array(items), k) ensures exists i :: 0 <= i < |items| && !NamesUnique(items[i]) {
      var i :| 0 <= i < |items| && Repeats(items[i], k);
      assert !NamesUnique(items[i]);
    }
    if i :| 0 <= i < |items| && !NamesUnique(items[i]) {
      var k :| Repeats(items[i], k);
      assert Repeats(Array(items), k);
    }
  }

  /** `Repeats` for an object, split into its own names and its members' values. */
  lemma RepeatsInObject(members: seq<Member>)
    ensures NamesUnique(Object(members)) <==> MembersUnique(members, {})
    ensures forall k :: RepeatsAbove(members, {}, k) ==> Repeats(Object(members), k)
  {
    if i, j :| 0 <= i < j < |members| && members[i].name == members[j].name {
      assert Repeats(Object(members), members[i].name);
    }
    if i :| 0 <= i < |members| && !NamesUnique(members[i].value) {
      var k :| Repeats(members[i].value, k);
      assert Repeats(Object(members), k);
    }
    forall k | Repeats(Object(members), k) ensures !MembersUnique(members, {}) {
      if i :| 0 <= i < |members| && Repeats(members[i].value, k) {
        assert !NamesUnique(members[i].value);
      }
    }
  }

  /** The names are new, pairwise different, and every value's names are unique. */
  ghost predicate MembersUnique(members: seq<Member>, seen: set<string>) {
    && (forall i :: 0 <= i < |members| ==> members[i].name !in seen && NamesUnique(members[i].value))
    && (forall i, j :: 0 <= i < j < |members| ==> members[i].name != members[j].name)
  }

  ghost predicate RepeatsAbove(members: seq<Member>, seen: set<string>, k: string) {
    || (exists i :: 0 <= i < |members| && members[i].name == k && k in seen)
    || (exists i, j :: 0 <= i < j < |members| && members[i].name == members[j].name == k)
    || (exists i :: 0 <= i < |members| && Repeats(members[i].value, k))
  }

  lemma {:induction false} ConsumeAllItems(items: seq<Doc>, rest: seq<Token>)
    ensures var r := ConsumeItems(ItemTokens(items) + ([EndArray] + rest));
            && ((forall i :: 0 <= i < |items| ==> NamesUnique(items[i])) <==> r == Done(rest))
            && (r != Done(rest) ==>
                  exists k, i :: 0 <= i < |items| && Repeats(items[i], k) && r == Failed(DuplicateKey(k)))
    decreases items, 0
  {
    var ts := ItemTokens(items) + ([EndArray] + rest);
    if items == [] {
      assert ts == [EndArray] + rest && ts[1..] == rest;
    } else {
      var after := ItemTokens(items[1..]) + ([EndArray] + rest);
      assert ts == Tokens(items[0]) + after;
      FirstToken(items[0], after);
      ConsumeDocument(items[0], after);
      ConsumeAllItems(items[1..], rest);
      assert forall i :: 0 < i < |items| ==> items[i] == items[1..][i - 1];
      if NamesUnique(items[0]) {
        var r := ConsumeItems(after);
        if r != Done(rest) {
          var k, i :| 0 <= i < |items[1..]| && Repeats(items[1..][i], k) && r == Failed(DuplicateKey(k));
          assert Repeats(items[i + 1], k);
        }
      }
    }
  }

  lemma {:induction false} ConsumeAllMembers(members: seq<Member>, seen: set<string>, rest: seq<Token>)
    ensures var r := ConsumeMembers(MemberTokens(members) + ([EndObject] + rest), seen);
            && (MembersUnique(members, seen) <==> r == Done(rest))
            && (r != Done(rest) ==> exists k :: RepeatsAbove(members, seen, k) && r == Failed(DuplicateKey(k)))
    decreases members, 0
  {
    var ts := MemberTokens(members) + ([EndObject] + rest);
    if members == [] {
      assert ts == [EndObject] + rest && ts[1..] == rest;
    } else {
      var m := members[0];
      var after := MemberTokens(members[1..]) + ([EndObject] + rest);
      assert ts == [Value(Text(m.name))] + (Tokens(m.value) + after);
      assert ts[1..] == Tokens(m.value) + after;
      if m.name in seen {
        assert RepeatsAbove(members, seen, m.name);
      } else {
        ConsumeDocument(m.value, after);
        ConsumeAllMembers(members[1..], seen + {m.name}, rest);
        SplitFirstMember(members, seen);
      }
    }
  }

  lemma SplitFirstMember(members: seq<Member>, seen: set<string>)
    requires members != [] && members[0].name !in seen
    ensures MembersUnique(members, seen) <==>
            NamesUnique(members[0].value) && MembersUnique(members[1..], seen + {members[0].name})
    ensures forall k :: Repeats(members[0].value, k) ==> RepeatsAbove(members, seen, k)
    ensures forall k :: RepeatsAbove(members[1..], seen + {members[0].name}, k) ==> RepeatsAbove(members, seen, k)
  {
    assert forall i :: 0 < i < |members| ==> members[i] == members[1..][i - 1];
    if MembersUnique(members[1..], seen + {members[0].name}) {
      forall j | 0 < j < |members| ensures members[0].name != members[j].name && members[j].name !in seen {
        assert members[1..][j - 1].name !in seen + {members[0].name};
      }
    }
    forall k | RepeatsAbove(members[1..], seen + {members[0].name}, k) ensures RepeatsAbove(members, seen, k) {
      if i :| 0 <= i < |members[1..]| && members[1..][i].name == k && k in seen + {members[0].name} {
        assert members[i + 1].name == k;
      } else if i, j :| 0 <= i < j < |members[1..]| && members[1..][i].name == members[1..][j].name == k {
        assert members[i + 1].name == members[j + 1].name == k;
      } else if i :| 0 <= i < |members[1..]| && Repeats(members[1..][i].value, k) {
        assert Repeats(members[i + 1].value, k);
      }
    }
  }

  lemma FirstToken(d: Doc, after: seq<Token>)
    ensures More(Tokens(d) + after)
  {
  }

  /** Nothing else is accepted: what the scan consumed is the tokens of some document. */
  lemma {:induction false} ConsumedIsDocument(ts: seq<Token>) returns (d: Doc)
    requires Consume(ts).Done?
    ensures ts == Tokens(d) + Consume(ts).rest
    decreases |ts|, 0
  {
    match ts[0] {
      case Value(v) => d := Leaf(v);
      case BeginObject =>
        var members := ConsumedIsMembers(ts[1..], {});
        d := Object(members);
      case BeginArray =>
        var items := ConsumedIsItems(ts[1..]);
        d := Array(items);
    }
  }

  lemma {:induction false} ConsumedIsItems(ts: seq<Token>) returns (items: seq<Doc>)
    requires ConsumeItems(ts).Done?
    ensures ts == ItemTokens(items) + [EndArray] + ConsumeItems(ts).rest
    decreases |ts|, 1
  {
    if More(ts) {
      var first := ConsumedIsDocument(ts);
      var others := ConsumedIsItems(Consume(ts).rest);
      items := [first] + others;
      assert items[1..] == others;
    } else {
      items := [];
    }
  }

  lemma {:induction false} ConsumedIsMembers(ts: seq<Token>, seen: set<string>) returns (members: seq<Member>)
    requires ConsumeMembers(ts, seen).Done?
    ensures ts == MemberTokens(members) + [EndObject] + ConsumeMembers(ts, seen).rest
    decreases |ts|, 1
  {
    if More(ts) {
      var value := ConsumedIsDocument(ts[1..]);
      var others := ConsumedIsMembers(Consume(ts[1..]).rest, seen + {ts[0].v.s});
      members := [Member(ts[0].v.s, value)] + others;
      assert members[1..] == others;
    } else {
      members := [];
    }
  }

  /** A text passes the check if and only if it is one document, all of it, with unique names. */
  lemma ScanExact(ts: seq<Token>, clean: bool)
    ensures Scan(ts, clean).Done? <==> clean && exists d :: ts == Tokens(d) && NamesUnique(d)
  {
    if Scan(ts, clean).Done? {
      var d := ConsumedIsDocument(ts);
      assert ts == Tokens(d) + [];
      ConsumeDocument(d, []);
    }
    if d :| ts == Tokens(d) && NamesUnique(d) {
      ConsumeDocument(d, []);
      assert ts + [] == ts;
    }
  }

  /******* The decoder with its cursor *******/

  class Decoder {
    const tokens: seq<Token>
    const clean: bool
    var pos: nat

    constructor (tokens: seq<Token>, clean: bool)
      ensures this.tokens == tokens && this.clean == clean && pos == 0
    {
      this.tokens, this.clean, pos := tokens, clean, 0;
    }

    ghost predicate Valid()
      reads this
    {
      pos <= |tokens|
    }

    ghost function Ahead(): seq<Token>
      reads this
      requires Valid()
    {
      tokens[pos..]
    }

    /** The next token; the cursor stays where it is at the end of the stream. */
    method Next() returns (ok: bool, token: Token)
      requires Valid()
      modifies this
      ensures Valid()
      ensures ok <==> old(Ahead()) != []
      ensures if ok then token == old(Ahead())[0] && Ahead() == old(Ahead())[1..] else pos == old(pos)
    {
      ok, token := pos < |tokens|, EndArray;
      if ok {
        token := tokens[pos];
        pos := pos + 1;
      }
    }

    method HasMore() returns (more: bool)
      requires Valid()
      ensures more <==> More(Ahead())
    {
      more := pos < |tokens| && tokens[pos] != EndObject && tokens[pos] != EndArray;
    }

    /** Moves the cursor past one value, or reports the first problem. */
    method ConsumeValue() returns (r: Outcome)
      requires Valid()
      modifies this
      ensures Valid() && pos >= old(pos)
      ensures r == Consume(old(Ahead()))
      ensures r.Done? ==> Ahead() == r.rest
      decreases |tokens| - pos
    {
      ghost var start := Ahead();
      var ok, token := Next();
      if !ok { return Failed(Cut); }
      match token {
        case Value(_) =>
        case BeginObject =>
          var seen: set<string> := {};
          var more := HasMore();
          while more
            invariant Valid() && pos > old(pos)
            invariant more <==> More(Ahead())
            invariant Consume(start) == ConsumeMembers(Ahead(), seen)
            decreases |tokens| - pos
          {
            ghost var here := Ahead();
            var _, keyToken := Next();
            if !(keyToken.Value? && keyToken.v.Text?) { return Failed(KeyNotString); }
            var key := keyToken.v.s;
            if key in seen { return Failed(DuplicateKey(key)); }
            seen := seen + {key};
            var inner := ConsumeValue();
            if inner.Failed? { return inner; }
            more := HasMore();
          }
          var closed, end := Next();
          if !closed || end != EndObject { return Failed(MalformedObject); }
        case BeginArray =>
          var more := HasMore();
          while more
            invariant Valid() && pos > old(pos)
            invariant more <==> More(Ahead())
            invariant Consume(start) == ConsumeItems(Ahead())
            decreases |tokens| - pos
          {
            var inner := ConsumeValue();
            if inner.Failed? { return inner; }
            more := HasMore();
          }
          var closed, end := Next();
          if !closed || end != EndArray { return Failed(MalformedArray); }
        case _ =>
          return Failed(UnexpectedDelimiter);
      }
      r := Done(tokens[pos..]);
    }

    method RejectDuplicateKeys() returns (r: Outcome)
      requires Valid() && pos == 0
      modifies this
      ensures r == Scan(tokens, clean)
    {
      r := ConsumeValue();
      if r.Failed? { return; }
      var ok, _ := Next();
      if ok { return Failed(MultipleValues); }
      if !clean { return Failed(Cut); }
    }
  }
}
