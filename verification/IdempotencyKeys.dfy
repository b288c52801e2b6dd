/** Client request ids bound to the server they first created (internal/db/idempotency.go). */
module IdempotencyKeys {
  import opened Wrappers
  import opened Text

  const MAX_REQUEST_ID := 128

  datatype Bound = Bound(serverId: string, kind: string)

  type Keys = map<string, Bound>

  datatype Failure = TooLong | MissingField | ReusedForOther(kind: string) | StoreFailed

  datatype Claim = Claim(owner: string, claimed: bool)

  /** A claim without interference, and the table it leaves. */
  function Claimed(keys: Keys, requestId: string, serverId: string, kind: string): (Result<Claim, Failure>, Keys) {
    var id := Trim(requestId);
    if id == "" then (Ok(Claim(serverId, true)), keys)
    else if Utf8Size(id) > MAX_REQUEST_ID then (Err(TooLong), keys)
    else if serverId == "" || kind == "" then (Err(MissingField), keys)
    else if id !in keys then (Ok(Claim(serverId, true)), keys[id := Bound(serverId, kind)])
    else if keys[id].kind != kind then (Err(ReusedForOther(keys[id].kind)), keys)
    else (Ok(Claim(keys[id].serverId, false)), keys)
  }

  function Released(keys: Keys, requestId: string): Keys {
    keys - {Trim(requestId)}
  }

  /** The claim is well formed and its id already bound, so it comes down to a lookup. */
  predicate Stored(keys: Keys, requestId: string, serverId: string, kind: string) {
    var id := Trim(requestId);
    id != "" && Utf8Size(id) <= MAX_REQUEST_ID && serverId != "" && kind != "" && id in keys
  }

  class KeyStore {
    var keys: Keys

    /** ClaimIdempotencyKey. `insertFails` is a store error other than the unique key; `goneAfter` says
        that another caller releases the id between the refused insert and the lookup. */
    method ClaimIdempotencyKey(requestId: string, serverId: string, kind: string, insertFails: bool, goneAfter: bool)
      returns (r: Result<Claim, Failure>)
      modifies this
      ensures !insertFails && !goneAfter ==> (r, keys) == Claimed(old(keys), requestId, serverId, kind)
      ensures insertFails ==>
        keys == old(keys) && (r == Err(StoreFailed) || r == Claimed(old(keys), requestId, serverId, kind).0)
      ensures insertFails && Trim(requestId) != "" ==> r.Err?
      ensures !insertFails && goneAfter ==>
        if Stored(old(keys), requestId, serverId, kind)
        then r == Err(StoreFailed) && keys == Released(old(keys), requestId)
        else (r, keys) == Claimed(old(keys), requestId, serverId, kind)
      ensures var id := Trim(requestId);
        && (id == "" ==> r == Ok(Claim(serverId, true)) && keys == old(keys))
        && (r == Err(TooLong) <==> Utf8Size(id) > 128)
        && (r == Err(MissingField) <==> id != "" && Utf8Size(id) <= 128 && (serverId == "" || kind == ""))
        && (id != "" && r.Ok? ==>
              if id in old(keys) then r == Ok(Claim(old(keys)[id].serverId, false)) && kind == old(keys)[id].kind
              else r == Ok(Claim(serverId, true)) && keys == old(keys)[id := Bound(serverId, kind)])
        && (r.Err? && r.error.ReusedForOther? ==> id in old(keys) && kind != r.error.kind == old(keys)[id].kind)
        && (r == Err(StoreFailed) ==> insertFails || (goneAfter && id in old(keys) && keys == old(keys) - {id}))
    {
      var id := Trim(requestId);
      if id == "" { return Ok(Claim(serverId, true)); }
      if Utf8Size(id) > MAX_REQUEST_ID { return Err(TooLong); }
      if serverId == "" || kind == "" { return Err(MissingField); }
      if insertFails { return Err(StoreFailed); }
      if id !in keys {
        keys := keys[id := Bound(serverId, kind)];
        return Ok(Claim(serverId, true));
      }
      if goneAfter {
        keys := keys - {id};
        return Err(StoreFailed);
      }
      if keys[id].kind != kind { return Err(ReusedForOther(keys[id].kind)); }
      return Ok(Claim(keys[id].serverId, false));
    }

    /** ReleaseIdempotencyKey. */
    method ReleaseIdempotencyKey(requestId: string)
      modifies this
      ensures keys == if Trim(requestId) == "" then old(keys) else Released(old(keys), requestId)
    {
      var id := Trim(requestId);
      if id == "" { return; }
      keys := keys - {id};
    }
  }

  datatype Call = ClaimCall(requestId: string, serverId: string, kind: string) | ReleaseCall(requestId: string)

  function After(keys: Keys, calls: seq<Call>): Keys {
    if calls == [] then keys
    else
      var before := After(keys, calls[..|calls| - 1]);
      match calls[|calls| - 1]
      case ClaimCall(requestId, serverId, kind) => Claimed(before, requestId, serverId, kind).1
      case ReleaseCall(requestId) => if Trim(requestId) == "" then before else Released(before, requestId)
  }

  predicate NeverReleased(calls: seq<Call>, id: string) {
    forall c :: c in calls && c.ReleaseCall? ==> Trim(c.requestId) != id
  }

  lemma {:induction false} BindingStays(keys: Keys, calls: seq<Call>, id: string)
    requires id in keys && NeverReleased(calls, id)
    ensures id in After(keys, calls) && After(keys, calls)[id] == keys[id]
    decreases |calls|
  {
    if calls != [] {
      assert calls[|calls| - 1] in calls;
      BindingStays(keys, calls[..|calls| - 1], id);
    }
  }

  /** The first claim of a request id wins: until the id is released, whatever is claimed in between,
      every later claim of the same kind is sent to the first server and does not claim, every claim
      of another kind is refused, and neither changes the table. */
  lemma FirstClaimWins(
    keys: Keys, requestId: string, serverId: string, kind: string, calls: seq<Call>, server2: string, kind2: string)
    requires Claimed(keys, requestId, serverId, kind).0 == Ok(Claim(serverId, true)) && Trim(requestId) != ""
    requires NeverReleased(calls, Trim(requestId)) && server2 != "" && kind2 != ""
    ensures var later := After(Claimed(keys, requestId, serverId, kind).1, calls);
      Claimed(later, requestId, server2, kind2) ==
        (if kind2 == kind then Ok(Claim(serverId, false)) else Err(ReusedForOther(kind)), later)
  {
    BindingStays(Claimed(keys, requestId, serverId, kind).1, calls, Trim(requestId));
  }
}
