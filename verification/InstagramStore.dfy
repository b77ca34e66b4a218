/** Drafts and the transactions of the publish store. */
module InstagramStore {
  import opened Prelude

  datatype DraftState = Prepared | Publishing | FailedOnce | Published

  /** The columns an approval is bound to, and the content they stand for. */
  datatype Content = Content(account: string, artifact: string, assetHash: string, caption: string, captionHash: string,
                             publishAt: int, creationKey: string)

  datatype Draft = Draft(content: Content, state: DraftState, container: string, media: string, stagingId: string,
                         stagingExpires: Option<int>, attempts: nat, maxAttempts: nat, availableAt: int,
                         authorizedUntil: Option<int>)

  type Drafts = map<string, Draft>

  /** Content is immutable, attempts only count up and stay within their limit, and a
      published draft keeps its state, its media and its attempts. */
  predicate Evolves(d: Draft, d': Draft) {
    && d'.content == d.content && d'.maxAttempts == d.maxAttempts
    && d.attempts <= d'.attempts <= d.attempts + 1
    && (d.attempts <= d.maxAttempts ==> d'.attempts <= d'.maxAttempts)
    && (d.state.Published? ==> d'.state.Published? && d'.media == d.media && d'.attempts == d.attempts)
  }

  predicate TableEvolves(drafts: Drafts, drafts': Drafts) {
    forall id :: id in drafts ==> id in drafts' && Evolves(drafts[id], drafts'[id])
  }

  /** The same drafts with the same authorizations. */
  predicate SameAuth(drafts: Drafts, drafts': Drafts) {
    && drafts'.Keys == drafts.Keys
    && forall id :: id in drafts ==> drafts'[id].authorizedUntil == drafts[id].authorizedUntil
  }

  predicate SameAttempts(drafts: Drafts, drafts': Drafts) {
    drafts'.Keys == drafts.Keys && forall id :: id in drafts ==> drafts'[id].attempts == drafts[id].attempts
  }

  /** Nothing gets published, and what is published keeps its media. */
  predicate SameMedia(drafts: Drafts, drafts': Drafts) {
    forall id :: id in drafts' && drafts'[id].state.Published? ==>
      id in drafts && drafts[id].state.Published? && drafts'[id].media == drafts[id].media
  }

  /** The pause after a failed attempt: seconds doubled per earlier attempt, at most 64.  A
      draft in an attempt has at least one; see InstagramPublish.AttemptIsCounted. */
  function Delay(attempts: nat): int {
    Shl(if attempts == 0 then 0 else Min(attempts - 1, 6)) * SECOND
  }

  /** The columns that tell a repeated request from a different one; the caption itself is not
      among them. */
  predicate SameRequest(a: Content, b: Content) {
    && a.account == b.account && a.artifact == b.artifact && a.assetHash == b.assetHash
    && a.captionHash == b.captionHash && a.publishAt == b.publishAt
  }

  predicate HasKey(drafts: Drafts, id: string, key: string) {
    id in drafts && drafts[id].content.creationKey == key
  }

  /** The unique index on the creation key. */
  predicate KeysUnique(drafts: Drafts) {
    forall a, b :: a in drafts && b in drafts && drafts[a].content.creationKey == drafts[b].content.creationKey ==> a == b
  }

  datatype Created = New | Existing(id: string) | Conflict | IdTaken

  /** The same request again returns the draft it made; a different one under the same key is a
      conflict; a new key under a taken id is refused by the primary key.  None of them changes
      the table. */
  function Create(drafts: Drafts, id: string, content: Content, maxAttempts: nat): (r: Drafts)
    ensures TableEvolves(drafts, r) && SameMedia(drafts, r)
  {
    if id in drafts || exists other :: other in drafts && drafts[other].content.creationKey == content.creationKey then drafts
    else drafts[id := Draft(content, Prepared, "", "", "", None, 0, maxAttempts, content.publishAt, None)]
  }

  predicate Open(d: Draft) { d.state.Prepared? || d.state.FailedOnce? }

  function MarkAuthorized(drafts: Drafts, id: string, expires: int): (r: Drafts)
    ensures TableEvolves(drafts, r) && SameMedia(drafts, r)
    ensures SameAttempts(drafts, r)
  {
    if id in drafts && Open(drafts[id]) then drafts[id := drafts[id].(authorizedUntil := Some(expires))] else drafts
  }

  predicate Authorized(d: Draft, now: int) { d.authorizedUntil.Some? && now < d.authorizedUntil.value }

  /** Claim starts an attempt.  A draft that is already published is returned as it is:
      no error, and no attempt is counted. */
  datatype Claimed = Refused | Fresh | Late

  function ClaimOutcome(drafts: Drafts, id: string, now: int): Claimed {
    if id !in drafts then Refused
    else
      var d := drafts[id];
      if d.state.Published? then Late
      else if !Open(d) || d.attempts >= d.maxAttempts || !Authorized(d, now)
              || now < d.content.publishAt || now < d.availableAt then Refused
      else Fresh
  }

  function Claim(drafts: Drafts, id: string, now: int): (r: Drafts)
    ensures TableEvolves(drafts, r) && SameAuth(drafts, r) && SameMedia(drafts, r)
  {
    if ClaimOutcome(drafts, id, now).Fresh? then
      drafts[id := drafts[id].(state := Publishing, attempts := drafts[id].attempts + 1)]
    else drafts
  }

  predicate InAttempt(drafts: Drafts, id: string) { id in drafts && drafts[id].state.Publishing? }

  function SaveStaging(drafts: Drafts, id: string, stagingId: string, expires: int): (r: Drafts)
    ensures TableEvolves(drafts, r) && SameAuth(drafts, r) && SameMedia(drafts, r)
    ensures SameAttempts(drafts, r)
  {
    if InAttempt(drafts, id) then drafts[id := drafts[id].(stagingId := stagingId, stagingExpires := Some(expires))] else drafts
  }

  function SaveContainer(drafts: Drafts, id: string, container: string): (r: Drafts)
    ensures TableEvolves(drafts, r) && SameAuth(drafts, r) && SameMedia(drafts, r)
    ensures SameAttempts(drafts, r)
  {
    if InAttempt(drafts, id) then drafts[id := drafts[id].(container := container)] else drafts
  }

  function Complete(drafts: Drafts, id: string, media: string): (r: Drafts)
    ensures TableEvolves(drafts, r) && SameAuth(drafts, r)
    ensures SameAttempts(drafts, r)
  {
    if InAttempt(drafts, id) then drafts[id := drafts[id].(state := Published, media := media)] else drafts
  }

  function Fail(drafts: Drafts, id: string, now: int): (r: Drafts)
    ensures TableEvolves(drafts, r) && SameAuth(drafts, r) && SameMedia(drafts, r)
    ensures SameAttempts(drafts, r)
  {
    if InAttempt(drafts, id) then
      drafts[id := drafts[id].(state := FailedOnce, availableAt := now + Delay(drafts[id].attempts))]
    else drafts
  }

  function RecoverDraft(d: Draft, now: int): Draft {
    if d.state.Publishing? then d.(state := FailedOnce, availableAt := now) else d
  }

  function Recover(drafts: Drafts, now: int): (r: Drafts)
    ensures TableEvolves(drafts, r) && SameAuth(drafts, r) && SameMedia(drafts, r)
    ensures SameAttempts(drafts, r)
  {
    map id | id in drafts :: RecoverDraft(drafts[id], now)
  }

  function ClearStaging(drafts: Drafts, id: string): (r: Drafts)
    ensures TableEvolves(drafts, r) && SameAuth(drafts, r) && SameMedia(drafts, r)
    ensures SameAttempts(drafts, r)
  {
    if id in drafts then drafts[id := drafts[id].(stagingId := "", stagingExpires := None)] else drafts
  }

  /** The pause is one second after the first attempt, doubles with each further one and stays
      at 64 seconds from the seventh on. */
  lemma DelayDoubles(attempts: nat)
    requires attempts >= 1
    ensures Delay(1) == 1_000_000_000
    ensures attempts <= 6 ==> Delay(attempts + 1) == 2 * Delay(attempts)
    ensures attempts >= 7 ==> Delay(attempts) == 64_000_000_000
  {
    assert Shl(6) == 64;
  }

  /** A draft can be claimed for an attempt exactly when it is prepared or failed, has attempts
      left, is authorized, and both its publish time and its pause have been reached. */
  lemma FreshExactly(drafts: Drafts, id: string, now: int)
    ensures
      ClaimOutcome(drafts, id, now).Fresh? <==>
        && id in drafts && (drafts[id].state == Prepared || drafts[id].state == FailedOnce)
        && drafts[id].attempts < drafts[id].maxAttempts
        && drafts[id].content.publishAt <= now && drafts[id].availableAt <= now
        && drafts[id].authorizedUntil.Some? && now < drafts[id].authorizedUntil.value
    ensures ClaimOutcome(drafts, id, now).Late? <==> id in drafts && drafts[id].state == Published
  {
  }

  class Store {
    var drafts: Drafts

    constructor ()
      ensures drafts == map[]
    {
      drafts := map[];
    }

    method CreateDraft(id: string, content: Content, maxAttempts: nat) returns (r: Created)
      modifies this
      ensures drafts == Create(old(drafts), id, content, maxAttempts)
      ensures r.New? <==> drafts != old(drafts)
      ensures r.New? ==> drafts == old(drafts)[id := Draft(content, Prepared, "", "", "", None, 0, maxAttempts, content.publishAt, None)]
      ensures r.Existing? ==> HasKey(drafts, r.id, content.creationKey) && SameRequest(drafts[r.id].content, content)
      ensures r.Conflict? ==> exists other :: HasKey(drafts, other, content.creationKey) && !SameRequest(drafts[other].content, content)
      ensures r.IdTaken? <==> id in old(drafts) && !exists other :: HasKey(old(drafts), other, content.creationKey)
      ensures TableEvolves(old(drafts), drafts)
      ensures old(KeysUnique(drafts)) ==> KeysUnique(drafts)
    {
      if other :| other in drafts && HasKey(drafts, other, content.creationKey) {
        return if SameRequest(drafts[other].content, content) then Existing(other) else Conflict;
      }
      if id in drafts {
        return IdTaken;
      }
      assert forall other :: other in drafts ==> !HasKey(drafts, other, content.creationKey);
      drafts := drafts[id := Draft(content, Prepared, "", "", "", None, 0, maxAttempts, content.publishAt, None)];
      return New;
    }

    method Authorize(id: string, expires: int) returns (ok: bool)
      modifies this
      ensures drafts == MarkAuthorized(old(drafts), id, expires)
      ensures ok <==> id in old(drafts) && (old(drafts)[id].state == Prepared || old(drafts)[id].state == FailedOnce)
      ensures drafts == if ok then old(drafts)[id := old(drafts)[id].(authorizedUntil := Some(expires))] else old(drafts)
      ensures TableEvolves(old(drafts), drafts)
    {
      ok := id in drafts && Open(drafts[id]);
      if ok {
        drafts := drafts[id := drafts[id].(authorizedUntil := Some(expires))];
      }
    }

    method ClaimDraft(id: string, now: int) returns (outcome: Claimed)
      modifies this
      ensures drafts == Claim(old(drafts), id, now)
      ensures outcome == ClaimOutcome(old(drafts), id, now)
      ensures outcome.Late? <==> id in old(drafts) && old(drafts)[id].state == Published
      ensures outcome.Fresh? <==>
                && id in old(drafts) && (old(drafts)[id].state == Prepared || old(drafts)[id].state == FailedOnce)
                && old(drafts)[id].attempts < old(drafts)[id].maxAttempts
                && old(drafts)[id].content.publishAt <= now && old(drafts)[id].availableAt <= now
                && old(drafts)[id].authorizedUntil.Some? && now < old(drafts)[id].authorizedUntil.value
      ensures drafts == if outcome.Fresh? then old(drafts)[id := old(drafts)[id].(state := Publishing, attempts := old(drafts)[id].attempts + 1)]
                        else old(drafts)
      ensures TableEvolves(old(drafts), drafts)
    {
      if id !in drafts {
        return Refused;
      }
      var d := drafts[id];
      if d.state.Published? {
        return Late;
      }
      if !Open(d) || d.attempts >= d.maxAttempts || !Authorized(d, now) || now < d.content.publishAt || now < d.availableAt {
        return Refused;
      }
      drafts := drafts[id := d.(state := Publishing, attempts := d.attempts + 1)];
      return Fresh;
    }

    method SaveStagedMedia(id: string, stagingId: string, expires: int)
      modifies this
      ensures drafts == SaveStaging(old(drafts), id, stagingId, expires)
      ensures drafts == if id in old(drafts) && old(drafts)[id].state == Publishing
                        then old(drafts)[id := old(drafts)[id].(stagingId := stagingId, stagingExpires := Some(expires))] else old(drafts)
      ensures TableEvolves(old(drafts), drafts)
    {
      if id in drafts && drafts[id].state.Publishing? {
        drafts := drafts[id := drafts[id].(stagingId := stagingId, stagingExpires := Some(expires))];
      }
    }

    method SaveContainerId(id: string, container: string)
      modifies this
      ensures drafts == SaveContainer(old(drafts), id, container)
      ensures drafts == if id in old(drafts) && old(drafts)[id].state == Publishing
                        then old(drafts)[id := old(drafts)[id].(container := container)] else old(drafts)
      ensures TableEvolves(old(drafts), drafts)
    {
      if id in drafts && drafts[id].state.Publishing? {
        drafts := drafts[id := drafts[id].(container := container)];
      }
    }

    method CompleteDraft(id: string, media: string) returns (ok: bool)
      modifies this
      ensures drafts == Complete(old(drafts), id, media)
      ensures ok <==> id in old(drafts) && old(drafts)[id].state == Publishing
      ensures drafts == if ok then old(drafts)[id := old(drafts)[id].(state := Published, media := media)] else old(drafts)
      ensures TableEvolves(old(drafts), drafts)
    {
      ok := id in drafts && drafts[id].state.Publishing?;
      if ok {
        drafts := drafts[id := drafts[id].(state := Published, media := media)];
      }
    }

    method FailDraft(id: string, now: int) returns (ok: bool)
      modifies this
      ensures drafts == Fail(old(drafts), id, now)
      ensures ok <==> id in old(drafts) && old(drafts)[id].state == Publishing
      ensures drafts == if ok then old(drafts)[id := old(drafts)[id].(state := FailedOnce, availableAt := now + Delay(old(drafts)[id].attempts))]
                        else old(drafts)
      ensures TableEvolves(old(drafts), drafts)
    {
      ok := id in drafts && drafts[id].state.Publishing?;
      if ok {
        var delay := Delay(drafts[id].attempts);
        drafts := drafts[id := drafts[id].(state := FailedOnce, availableAt := now + delay)];
      }
    }

    method RecoverDrafts(now: int)
      modifies this
      ensures drafts == Recover(old(drafts), now)
      ensures TableEvolves(old(drafts), drafts)
      ensures drafts.Keys == old(drafts).Keys
      ensures forall id :: id in drafts ==>
                drafts[id] == (if old(drafts)[id].state == Publishing then old(drafts)[id].(state := FailedOnce, availableAt := now)
                               else old(drafts)[id])
    {
      var table := drafts;
      drafts := map id | id in table :: RecoverDraft(table[id], now);
    }
  }
}
