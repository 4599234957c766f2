/**
 * The token registry endpoint (`/api/notifications`): method routing, the token
 * query, registration with one entry per device, and unregistration by token.
 */
module Registry {
  import opened Values
  import opened Seqs
  import opened Text
  import opened Documents
  import opened Http

  /** The query string of a GET. */
  datatype Query = Query(email: Option<string>, deviceId: Option<string>)

  /** The JSON body of a POST or DELETE. */
  datatype Body = Body(email: Option<string>, fcmToken: Option<string>, deviceId: Option<string>, action: Option<string>)

  datatype Request = Request(verb: string, query: Query, body: Body)

  /** The device a registration without `deviceId` is filed under. */
  const DefaultDevice: string := "default"

  const Allowed: seq<string> := ["GET", "POST", "DELETE"]

  /** A freshly registered entry: both stamps are the registration time, nothing else is set. */
  function NewEntry(deviceId: string, fcmToken: string, now: string): (e: TokenEntry)
    ensures e.deviceId == deviceId && e.fcmToken == fcmToken
    ensures e.createdAt == e.updatedAt == Some(Iso(now))
    ensures e.userAgent == None && e.lastUsed == None && e.lastEvent == None
  {
    TokenEntry(deviceId, fcmToken, None, Some(Iso(now)), Some(Iso(now)), None, None)
  }

  /** The array of a document, or the empty array when there is no document. */
  function StoredTokens(store: Store, key: string): seq<TokenEntry> {
    if key in store then store[key].fcmTokens else []
  }

  /**
   * The array a registration writes: every entry of the device is dropped and the new
   * one appended, so the device has exactly one entry, the last, and every other
   * device keeps its entries in their relative order. `createdAt` is stamped afresh
   * even when the device was registered before.
   */
  function Registered(ts: seq<TokenEntry>, deviceId: string, fcmToken: string, now: string): (r: seq<TokenEntry>)
    ensures |r| > 0 && r[|r| - 1] == NewEntry(deviceId, fcmToken, now)
    ensures forall i :: 0 <= i < |r| ==> (r[i].deviceId == deviceId <==> i == |r| - 1)
    ensures IsSubsequence(r[..|r| - 1], ts)
    ensures forall e: TokenEntry :: e.deviceId != deviceId ==> multiset(r)[e] == multiset(ts)[e]
  {
    var kept := WithoutDevice(ts, deviceId);
    var r := kept + [NewEntry(deviceId, fcmToken, now)];
    assert r[..|r| - 1] == kept;
    r
  }

  /** Registration keeps the one-entry-per-device invariant. */
  lemma RegisteredKeepsUnique(ts: seq<TokenEntry>, deviceId: string, fcmToken: string, now: string)
    requires UniqueDevices(ts)
    ensures UniqueDevices(Registered(ts, deviceId, fcmToken, now))
  {
    var kept := WithoutDevice(ts, deviceId);
    FilterNoDuplicates(ts, OtherDevice(deviceId));
    var r := Registered(ts, deviceId, fcmToken, now);
    forall i, j | 0 <= i < j < |r|
      ensures r[i].deviceId != r[j].deviceId
    {
      if j < |r| - 1 {
        UniqueSubsequence(kept, ts, i, j);
      }
    }
  }

  /** Registering the same token for the same device twice leaves the array of a single registration. */
  lemma RegisteredTwice(ts: seq<TokenEntry>, deviceId: string, fcmToken: string, now: string)
    ensures Registered(Registered(ts, deviceId, fcmToken, now), deviceId, fcmToken, now)
         == Registered(ts, deviceId, fcmToken, now)
  {
    var keep := OtherDevice(deviceId);
    var entry := NewEntry(deviceId, fcmToken, now);
    var kept := WithoutDevice(ts, deviceId);
    FilterAppend(kept, [entry], keep);
    FilterIdempotent(ts, keep);
    assert Filter([entry], keep) == [];
  }

  /** `checkUserToken`: does the user (raw e-mail key) hold a token, for one device or for any. */
  function CheckUserToken(store: Store, query: Query): (r: Response)
    ensures !Truthy(query.email) ==> r == Reply(400, Failure("Email é obrigatório"))
    ensures Truthy(query.email) && query.email.value !in store ==>
      r == Reply(200, TokenStatus(false, None))
    ensures Truthy(query.email) && query.email.value in store && Truthy(query.deviceId) ==>
      var ts := store[query.email.value].fcmTokens;
      && r.status == 200 && r.payload.TokenStatus?
      && (r.payload.hasValidToken <==> exists i :: 0 <= i < |ts| && ts[i].deviceId == query.deviceId.value)
      && (r.payload.hasValidToken ==>
            (exists i :: 0 <= i < |ts| && r.payload.token == Some(ts[i].fcmToken)
               && ts[i].deviceId == query.deviceId.value
               && forall j :: 0 <= j < i ==> ts[j].deviceId != query.deviceId.value))
      && (!r.payload.hasValidToken ==> r.payload.token == None)
    ensures Truthy(query.email) && query.email.value in store && !Truthy(query.deviceId) ==>
      var ts := store[query.email.value].fcmTokens;
      r == Reply(200, TokenStatus(|ts| > 0, if |ts| > 0 then Some(ts[0].fcmToken) else None))
  {
    if !Truthy(query.email) then Reply(400, Failure("Email é obrigatório"))
    else if query.email.value !in store then Reply(200, TokenStatus(false, None))
    else
      var ts := store[query.email.value].fcmTokens;
      if Truthy(query.deviceId) then
        match FindDevice(ts, query.deviceId.value)
        case None => Reply(200, TokenStatus(false, None))
        case Some(i) => Reply(200, TokenStatus(true, Some(ts[i].fcmToken)))
      else
        Reply(200, TokenStatus(|ts| > 0, if |ts| > 0 then Some(ts[0].fcmToken) else None))
  }

  /**
   * The write of a registration under `key`: the new array replaces the old one when
   * the document exists and otherwise creates the document with just that array.
   */
  function RegistrationWrite(store: Store, key: string, deviceId: string, fcmToken: string, now: string): (w: Write)
    ensures w.key == key
    ensures var after := Apply(store, w);
      && key in after
      && after[key].fcmTokens == Registered(StoredTokens(store, key), deviceId, fcmToken, now)
      && after[key].deviceIds == (if key in store then store[key].deviceIds else {})
      && (key in store ==> after[key] == store[key].(fcmTokens := after[key].fcmTokens))
      && (key !in store ==> after[key].lastTokenRemoval == None)
  {
    var tokens := Registered(StoredTokens(store, key), deviceId, fcmToken, now);
    if key in store then ReplaceTokens(key, tokens, false) else Create(key, tokens)
  }

  /**
   * The part of `registerToken` after validation, for the document `key`. `now` is
   * the handler's clock reading; `fault` says whether the store's read or write
   * fails, which the handler catches and answers with 500. An empty key is refused
   * by the store before the handler's `try`.
   */
  function RegisterUnder(store: Store, key: string, deviceId: string, fcmToken: string, now: string, fault: bool): (o: Outcome)
    ensures key == "" ==> o == Outcome(Unhandled, [])
    ensures key != "" && fault ==> o == Outcome(Reply(500, Failure("Erro interno ao registrar token")), [])
    ensures key != "" && !fault ==>
      o == Outcome(Reply(200, Ack), [RegistrationWrite(store, key, deviceId, fcmToken, now)])
  {
    if key == "" then Outcome(Unhandled, [])
    else if fault then Outcome(Reply(500, Failure("Erro interno ao registrar token")), [])
    else Outcome(Reply(200, Ack), [RegistrationWrite(store, key, deviceId, fcmToken, now)])
  }

  /**
   * A successful registration under `key` writes that document only: its array becomes
   * the registered one, its other fields stay, and a missing document is created.
   */
  lemma RegisterUnderEffect(store: Store, key: string, deviceId: string, fcmToken: string, now: string)
    requires key != ""
    ensures var after := ApplyAll(store, RegisterUnder(store, key, deviceId, fcmToken, now, false).writes);
      && key in after
      && after[key].fcmTokens == Registered(StoredTokens(store, key), deviceId, fcmToken, now)
      && after[key].deviceIds == (if key in store then store[key].deviceIds else {})
      && (key in store ==> after[key] == store[key].(fcmTokens := after[key].fcmTokens))
      && (key !in store ==> after[key].lastTokenRemoval == None)
      && forall k :: k != key ==> (k in after <==> k in store) && (k in store ==> after[k] == store[k])
  {
    var w := RegistrationWrite(store, key, deviceId, fcmToken, now);
    assert RegisterUnder(store, key, deviceId, fcmToken, now, false).writes == [w];
    ApplyOne(store, w);
  }

  /**
   * `registerToken`: both the token and the e-mail must be present and non-empty; the
   * document key is the normalised e-mail and the device defaults to `"default"`.
   */
  function RegisterToken(store: Store, body: Body, now: string, fault: bool): (o: Outcome)
    ensures !(Truthy(body.fcmToken) && Truthy(body.email)) ==>
      o == Outcome(Reply(400, Failure("Token e email são obrigatórios")), [])
    ensures Truthy(body.fcmToken) && Truthy(body.email) ==>
      o == RegisterUnder(store, RegistrationKey(body.email.value), body.deviceId.GetOr(DefaultDevice),
                         body.fcmToken.value, now, fault)
  {
    if !Truthy(body.fcmToken) || !Truthy(body.email) then
      Outcome(Reply(400, Failure("Token e email são obrigatórios")), [])
    else
      RegisterUnder(store, RegistrationKey(body.email.value), body.deviceId.GetOr(DefaultDevice),
                    body.fcmToken.value, now, fault)
  }

  /** `deleteToken`: drop every entry carrying the token, from the document under the raw e-mail. */
  function DeleteToken(store: Store, body: Body): (o: Outcome)
    ensures !(Truthy(body.email) && Truthy(body.fcmToken)) ==>
      o == Outcome(Reply(400, Failure("Email e fcmToken são obrigatórios para desregistro")), [])
    ensures Truthy(body.email) && Truthy(body.fcmToken) && body.email.value !in store ==>
      o == Outcome(Reply(200, Ack), [])
    ensures Truthy(body.email) && Truthy(body.fcmToken) && body.email.value in store ==>
      var key := body.email.value;
      var before := store[key].fcmTokens;
      var after := ApplyAll(store, o.writes);
      && o.response == Reply(200, Ack)
      && KeysOf(o.writes) == {key}
      && key in after
      && (forall i :: 0 <= i < |after[key].fcmTokens| ==> after[key].fcmTokens[i].fcmToken != body.fcmToken.value)
      && IsSubsequence(after[key].fcmTokens, before)
      && (forall e: TokenEntry :: e.fcmToken != body.fcmToken.value ==>
            multiset(after[key].fcmTokens)[e] == multiset(before)[e])
      && after[key] == store[key].(fcmTokens := after[key].fcmTokens)
  {
    if !Truthy(body.email) || !Truthy(body.fcmToken) then
      Outcome(Reply(400, Failure("Email e fcmToken são obrigatórios para desregistro")), [])
    else
      var key := body.email.value;
      if key !in store then Outcome(Reply(200, Ack), [])
      else
        var w := ReplaceTokens(key, WithoutToken(store[key].fcmTokens, body.fcmToken.value), false);
        assert KeysOf([w]) == {key} by { assert [w][0].key == key; }
        ApplyOne(store, w);
        Outcome(Reply(200, Ack), [w])
  }

  /** The method router, with `handlePostRequest`'s split of POST into unregister and register. */
  function Handle(store: Store, request: Request, now: string, fault: bool): (o: Outcome)
    ensures request.verb == "OPTIONS" ==> o == Outcome(Reply(200, Empty), [])
    ensures request.verb == "GET" ==> o == Outcome(CheckUserToken(store, request.query), [])
    ensures request.verb == "DELETE" ==> o == DeleteToken(store, request.body)
    ensures request.verb == "POST" && request.body.action == Some("unregister") ==>
      o == DeleteToken(store, request.body)
    ensures request.verb == "POST" && request.body.action != Some("unregister") ==>
      o == RegisterToken(store, request.body, now, fault)
    ensures request.verb !in {"OPTIONS", "GET", "POST", "DELETE"} ==>
      o == Outcome(Response(405, Allowed, Text("Metódo " + request.verb + " Não Permitido")), [])
  {
    var verb := request.verb;
    if verb == "OPTIONS" then Outcome(Reply(200, Empty), [])
    else if verb == "GET" then Outcome(CheckUserToken(store, request.query), [])
    else if verb == "POST" then
      if request.body.action == Some("unregister") then DeleteToken(store, request.body)
      else RegisterToken(store, request.body, now, fault)
    else if verb == "DELETE" then DeleteToken(store, request.body)
    else Outcome(Response(405, Allowed, Text("Metódo " + verb + " Não Permitido")), [])
  }

  /** A registration's writes keep the document to one entry per device. */
  lemma RegisterUnderKeepsUnique(store: Store, key: string, deviceId: string, fcmToken: string, now: string, fault: bool)
    requires DevicesUnique(store)
    ensures WritesKeepUnique(RegisterUnder(store, key, deviceId, fcmToken, now, fault).writes)
  {
    if key != "" && !fault {
      RegisteredKeepsUnique(StoredTokens(store, key), deviceId, fcmToken, now);
      assert WriteKeepsUnique(RegistrationWrite(store, key, deviceId, fcmToken, now));
    }
  }

  /** Unregistering keeps the document to one entry per device. */
  lemma DeleteTokenKeepsUnique(store: Store, body: Body)
    requires DevicesUnique(store)
    ensures WritesKeepUnique(DeleteToken(store, body).writes)
  {
    if Truthy(body.email) && Truthy(body.fcmToken) && body.email.value in store {
      WithoutTokenKeepsUnique(store[body.email.value].fcmTokens, body.fcmToken.value);
    }
  }

  /**
   * Whatever the request, the store the notifications route leaves behind still
   * holds at most one entry per device in every document.
   */
  lemma HandleKeepsUnique(store: Store, request: Request, now: string, fault: bool)
    requires DevicesUnique(store)
    ensures DevicesUnique(ApplyAll(store, Handle(store, request, now, fault).writes))
  {
    var body := request.body;
    var ws := Handle(store, request, now, fault).writes;
    if request.verb == "DELETE" || (request.verb == "POST" && body.action == Some("unregister")) {
      assert ws == DeleteToken(store, body).writes;
      DeleteTokenKeepsUnique(store, body);
    } else if request.verb == "POST" && Truthy(body.fcmToken) && Truthy(body.email) {
      var key := RegistrationKey(body.email.value);
      var deviceId := body.deviceId.GetOr(DefaultDevice);
      assert ws == RegisterUnder(store, key, deviceId, body.fcmToken.value, now, fault).writes;
      RegisterUnderKeepsUnique(store, key, deviceId, body.fcmToken.value, now, fault);
    } else {
      assert ws == [];
    }
    ApplyAllKeepsUnique(store, ws);
  }

  /**
   * Registering and then querying the same device under the normalised e-mail
   * returns the token just registered, whatever the document held before. The
   * query does not normalise, so it has to be given the normalised form; for an
   * e-mail already in normal form that is the e-mail itself.
   */
  lemma RegisterThenCheck(store: Store, email: string, deviceId: string, token: string, now: string)
    requires RegistrationKey(email) != ""
    requires deviceId != "" && token != ""
    ensures var after := ApplyAll(store, RegisterToken(store, Body(Some(email), Some(token), Some(deviceId), None), now, false).writes);
      CheckUserToken(after, Query(Some(RegistrationKey(email)), Some(deviceId))) == Reply(200, TokenStatus(true, Some(token)))
  {
    RegisterNormalised(store, email, deviceId, token, now);
    RegisterUnderThenCheck(store, RegistrationKey(email), deviceId, token, now);
  }

  /**
   * The same round trip through the route: a POST that registers, then a GET for
   * the normalised e-mail on the store its writes leave, answers with the token
   * just registered.
   */
  lemma HandleRegisterThenCheck(store: Store, email: string, deviceId: string, token: string, now: string)
    requires RegistrationKey(email) != ""
    requires deviceId != "" && token != ""
    ensures var post := Request("POST", Query(None, None), Body(Some(email), Some(token), Some(deviceId), None));
      var get := Request("GET", Query(Some(RegistrationKey(email)), Some(deviceId)), Body(None, None, None, None));
      var after := ApplyAll(store, Handle(store, post, now, false).writes);
      Handle(after, get, now, false) == Outcome(Reply(200, TokenStatus(true, Some(token))), [])
  {
    RegisterThenCheck(store, email, deviceId, token, now);
  }

  /** A body with an e-mail, a token and a device id registers that device under the normalised e-mail. */
  lemma RegisterNormalised(store: Store, email: string, deviceId: string, token: string, now: string)
    requires RegistrationKey(email) != "" && token != ""
    ensures RegisterToken(store, Body(Some(email), Some(token), Some(deviceId), None), now, false)
         == RegisterUnder(store, RegistrationKey(email), deviceId, token, now, false)
  {
    var body := Body(Some(email), Some(token), Some(deviceId), None);
    assert Truthy(body.fcmToken) && Truthy(body.email);
    assert body.deviceId.GetOr(DefaultDevice) == deviceId;
  }

  /** The same round trip for the document key itself. */
  lemma RegisterUnderThenCheck(store: Store, key: string, deviceId: string, token: string, now: string)
    requires key != "" && deviceId != ""
    ensures var after := ApplyAll(store, RegisterUnder(store, key, deviceId, token, now, false).writes);
      CheckUserToken(after, Query(Some(key), Some(deviceId))) == Reply(200, TokenStatus(true, Some(token)))
  {
    var after := ApplyAll(store, RegisterUnder(store, key, deviceId, token, now, false).writes);
    RegisterUnderEffect(store, key, deviceId, token, now);
    var ts := after[key].fcmTokens;
    assert ts == Registered(StoredTokens(store, key), deviceId, token, now);
    CheckFindsOnly(after, key, deviceId);
  }

  /** A query for a device held by the last entry alone answers with that entry's token. */
  lemma CheckFindsOnly(store: Store, email: string, deviceId: string)
    requires email != "" && email in store && deviceId != ""
    requires var ts := store[email].fcmTokens;
      |ts| > 0 && forall i :: 0 <= i < |ts| ==> (ts[i].deviceId == deviceId <==> i == |ts| - 1)
    ensures var ts := store[email].fcmTokens;
      CheckUserToken(store, Query(Some(email), Some(deviceId))) == Reply(200, TokenStatus(true, Some(ts[|ts| - 1].fcmToken)))
  {
    var ts := store[email].fcmTokens;
    var found := FindDevice(ts, deviceId);
    assert ts[|ts| - 1].deviceId == deviceId;
    assert found.Some? && found.value == |ts| - 1;
  }

  /** Repeating a registration leaves the store as the first one left it. */
  lemma RegisterTwice(store: Store, body: Body, now: string)
    ensures var once := ApplyAll(store, RegisterToken(store, body, now, false).writes);
      ApplyAll(once, RegisterToken(once, body, now, false).writes) == once
  {
    if Truthy(body.fcmToken) && Truthy(body.email) {
      RegisterUnderTwice(store, RegistrationKey(body.email.value), body.deviceId.GetOr(DefaultDevice), body.fcmToken.value, now);
    }
  }

  lemma RegisterUnderTwice(store: Store, key: string, deviceId: string, token: string, now: string)
    ensures var once := ApplyAll(store, RegisterUnder(store, key, deviceId, token, now, false).writes);
      ApplyAll(once, RegisterUnder(once, key, deviceId, token, now, false).writes) == once
  {
    if key != "" {
      var w1 := RegistrationWrite(store, key, deviceId, token, now);
      assert RegisterUnder(store, key, deviceId, token, now, false).writes == [w1];
      ApplyOne(store, w1);
      var once := Apply(store, w1);
      var w2 := RegistrationWrite(once, key, deviceId, token, now);
      assert RegisterUnder(once, key, deviceId, token, now, false).writes == [w2];
      ApplyOne(once, w2);
      RegistrationWriteTwice(store, key, deviceId, token, now);
    }
  }

  /** The second of two identical registration writes finds nothing to change. */
  lemma RegistrationWriteTwice(store: Store, key: string, deviceId: string, token: string, now: string)
    ensures var once := Apply(store, RegistrationWrite(store, key, deviceId, token, now));
      Apply(once, RegistrationWrite(once, key, deviceId, token, now)) == once
  {
    var once := Apply(store, RegistrationWrite(store, key, deviceId, token, now));
    var tokens := Registered(StoredTokens(store, key), deviceId, token, now);
    RegisteredTwice(StoredTokens(store, key), deviceId, token, now);
    assert RegistrationWrite(once, key, deviceId, token, now) == ReplaceTokens(key, tokens, false) by {
      assert StoredTokens(once, key) == tokens;
    }
    ReplaceSameTokens(once, key, tokens);
  }

  /**
   * Registering the same device again at a different clock reading is a change:
   * the device's entry now carries the later reading as its `createdAt`.
   */
  lemma ReRegisterRestamps(store: Store, key: string, deviceId: string, token: string, now1: string, now2: string)
    requires key != "" && now1 != now2
    ensures var once := ApplyAll(store, RegisterUnder(store, key, deviceId, token, now1, false).writes);
      var twice := ApplyAll(once, RegisterUnder(once, key, deviceId, token, now2, false).writes);
      && key in once && key in twice
      && var ts1 := once[key].fcmTokens;
         var ts2 := twice[key].fcmTokens;
         && |ts1| > 0 && |ts2| > 0
         && ts1[|ts1| - 1].createdAt == Some(Iso(now1))
         && ts2[|ts2| - 1].createdAt == Some(Iso(now2))
         && twice != once
  {
    RegisterUnderEffect(store, key, deviceId, token, now1);
    var once := ApplyAll(store, RegisterUnder(store, key, deviceId, token, now1, false).writes);
    RegisterUnderEffect(once, key, deviceId, token, now2);
    var twice := ApplyAll(once, RegisterUnder(once, key, deviceId, token, now2, false).writes);
    var ts1 := once[key].fcmTokens;
    var ts2 := twice[key].fcmTokens;
    assert ts1[|ts1| - 1] == NewEntry(deviceId, token, now1);
    assert ts2[|ts2| - 1] == NewEntry(deviceId, token, now2);
    assert twice[key] != once[key];
  }

  /** Unregistering twice leaves the store as unregistering once left it. */
  lemma DeleteTwice(store: Store, body: Body)
    ensures var once := ApplyAll(store, DeleteToken(store, body).writes);
      ApplyAll(once, DeleteToken(once, body).writes) == once
  {
    if Truthy(body.email) && Truthy(body.fcmToken) && body.email.value in store {
      var key := body.email.value;
      var token := body.fcmToken.value;
      var w := ReplaceTokens(key, WithoutToken(store[key].fcmTokens, token), false);
      ApplyOne(store, w);
      var once := Apply(store, w);
      var w2 := ReplaceTokens(key, WithoutToken(once[key].fcmTokens, token), false);
      ApplyOne(once, w2);
      WithoutTokenIdempotent(store[key].fcmTokens, token);
      assert Apply(once, w2)[key] == once[key];
    }
  }

  /**
   * Unregistration looks the document up under the e-mail exactly as sent, while
   * registration files it under the normalised e-mail: an address that is not in
   * normal form is answered with success and its token stays registered.
   */
  lemma UnnormalisedUnregisterMisses(store: Store, email: string, token: string, now: string)
    requires email != "" && token != "" && RegistrationKey(email) != ""
    requires RegistrationKey(email) != email && email !in store
    ensures var body := Body(Some(email), Some(token), None, None);
      var registered := ApplyAll(store, RegisterToken(store, body, now, false).writes);
      var unregister := DeleteToken(registered, Body(Some(email), Some(token), None, Some("unregister")));
      && unregister == Outcome(Reply(200, Ack), [])
      && RegistrationKey(email) in registered
      && var ts := registered[RegistrationKey(email)].fcmTokens;
         |ts| > 0 && ts[|ts| - 1].fcmToken == token
  {
    var body := Body(Some(email), Some(token), None, None);
    var key := RegistrationKey(email);
    var w := RegistrationWrite(store, key, DefaultDevice, token, now);
    var registered := ApplyAll(store, RegisterToken(store, body, now, false).writes);
    assert registered == Apply(store, w) by {
      assert RegisterToken(store, body, now, false).writes == [w];
      ApplyOne(store, w);
    }
    assert email !in registered;
    assert key in registered && registered[key].fcmTokens == Registered(StoredTokens(store, key), DefaultDevice, token, now);
  }
}
