/**
 * The device-linking endpoint (`/api/update-user-devices`): associates tracker
 * device identifiers with a user so that events for those devices reach them.
 */
module DeviceLink {
  import opened Values
  import opened Text
  import opened Documents
  import opened Http

  /** `deviceIds` is `None` when the body's field is not an array. */
  datatype LinkRequest = LinkRequest(verb: string, email: Option<string>, deviceIds: Option<seq<string>>)

  /** The ids a request supplies, as the set `arrayUnion` merges in. */
  function Supplied(ids: seq<string>): set<string> {
    set i | 0 <= i < |ids| :: ids[i]
  }

  /**
   * The merge under `key`: the document's ids become the old ones united with the
   * supplied ones, its tokens stay as they are, and a missing document is created.
   */
  function LinkWrite(store: Store, key: string, ids: seq<string>): (w: Write)
    ensures w.key == key
    ensures var after := Apply(store, w);
      && key in after
      && after[key].deviceIds == (if key in store then store[key].deviceIds else {}) + Supplied(ids)
      && after[key].fcmTokens == (if key in store then store[key].fcmTokens else [])
      && (key in store ==> after[key].lastTokenRemoval == store[key].lastTokenRemoval)
      && (key !in store ==> after[key].lastTokenRemoval == None)
  {
    UnionDeviceIds(key, Supplied(ids))
  }

  /**
   * The handler. Only POST is served; the e-mail must be present and `deviceIds`
   * an array; the key is the e-mail without `"` and `'`, trimmed and lower-cased,
   * and must not be empty. `fault` says whether the store's write fails.
   */
  function Link(store: Store, request: LinkRequest, fault: bool): (o: Outcome)
    ensures request.verb != "POST" ==>
      o == Outcome(Response(405, ["POST"], Failure("Método " + request.verb + " Não Permitido")), [])
    ensures request.verb == "POST" && !(Truthy(request.email) && request.deviceIds.Some?) ==>
      o == Outcome(Reply(400, Failure("Email e um array de deviceIds são obrigatórios.")), [])
    ensures request.verb == "POST" && Truthy(request.email) && request.deviceIds.Some? && LinkKey(request.email.value) == "" ==>
      o == Outcome(Reply(400, Failure("Email inválido.")), [])
    ensures request.verb == "POST" && Truthy(request.email) && request.deviceIds.Some? && LinkKey(request.email.value) != "" && fault ==>
      o == Outcome(Reply(500, Failure("Erro interno ao vincular dispositivos.")), [])
    ensures request.verb == "POST" && Truthy(request.email) && request.deviceIds.Some? && LinkKey(request.email.value) != "" && !fault ==>
      && o.response == Reply(200, AckWith("Dispositivos vinculados com sucesso."))
      && o.writes == [LinkWrite(store, LinkKey(request.email.value), request.deviceIds.value)]
  {
    if request.verb != "POST" then
      Outcome(Response(405, ["POST"], Failure("Método " + request.verb + " Não Permitido")), [])
    else if !Truthy(request.email) || request.deviceIds.None? then
      Outcome(Reply(400, Failure("Email e um array de deviceIds são obrigatórios.")), [])
    else
      var key := LinkKey(request.email.value);
      if key == "" then Outcome(Reply(400, Failure("Email inválido.")), [])
      else if fault then Outcome(Reply(500, Failure("Erro interno ao vincular dispositivos.")), [])
      else Outcome(Reply(200, AckWith("Dispositivos vinculados com sucesso.")), [LinkWrite(store, key, request.deviceIds.value)])
  }

  /**
   * A successful link never removes an id, adds exactly the supplied ones, leaves
   * the tokens alone and touches no other document.
   */
  lemma LinkEffect(store: Store, request: LinkRequest)
    requires request.verb == "POST" && Truthy(request.email) && request.deviceIds.Some?
    requires LinkKey(request.email.value) != ""
    ensures var key := LinkKey(request.email.value);
      var after := ApplyAll(store, Link(store, request, false).writes);
      && key in after
      && (key in store ==> store[key].deviceIds <= after[key].deviceIds)
      && after[key].deviceIds == (if key in store then store[key].deviceIds else {}) + Supplied(request.deviceIds.value)
      && after[key].fcmTokens == (if key in store then store[key].fcmTokens else [])
      && forall k :: k != key ==> (k in after <==> k in store) && (k in store ==> after[k] == store[k])
  {
    var key := LinkKey(request.email.value);
    var w := LinkWrite(store, key, request.deviceIds.value);
    assert Link(store, request, false).writes == [w];
    ApplyOne(store, w);
  }

  /** Linking the same ids twice leaves the store as linking them once. */
  lemma LinkTwice(store: Store, request: LinkRequest)
    ensures var once := ApplyAll(store, Link(store, request, false).writes);
      ApplyAll(once, Link(once, request, false).writes) == once
  {
    if request.verb == "POST" && Truthy(request.email) && request.deviceIds.Some? && LinkKey(request.email.value) != "" {
      var key := LinkKey(request.email.value);
      var ids := request.deviceIds.value;
      var w1 := LinkWrite(store, key, ids);
      assert Link(store, request, false).writes == [w1];
      ApplyOne(store, w1);
      var once := Apply(store, w1);
      var w2 := LinkWrite(once, key, ids);
      assert Link(once, request, false).writes == [w2];
      ApplyOne(once, w2);
      LinkWriteTwice(store, key, ids);
    }
  }

  /** The second of two identical merges finds every id already present. */
  lemma LinkWriteTwice(store: Store, key: string, ids: seq<string>)
    ensures var once := Apply(store, LinkWrite(store, key, ids));
      Apply(once, LinkWrite(once, key, ids)) == once
  {
    var once := Apply(store, LinkWrite(store, key, ids));
    assert Apply(once, LinkWrite(once, key, ids)) == once[key := once[key]];
  }

  /** Linking never touches a token array, so every document keeps one entry per device. */
  lemma LinkKeepsUnique(store: Store, request: LinkRequest, fault: bool)
    requires DevicesUnique(store)
    ensures DevicesUnique(ApplyAll(store, Link(store, request, fault).writes))
  {
    LinkWritesOnlyIds(store, request, fault);
    ApplyAllKeepsUnique(store, Link(store, request, fault).writes);
  }

  /** Every write of the route is an `arrayUnion` of device ids. */
  lemma LinkWritesOnlyIds(store: Store, request: LinkRequest, fault: bool)
    ensures WritesKeepUnique(Link(store, request, fault).writes)
  {
    var ws := Link(store, request, fault).writes;
    if request.verb != "POST" {
      assert ws == [];
    } else if !(Truthy(request.email) && request.deviceIds.Some?) {
      assert ws == [];
    } else if LinkKey(request.email.value) == "" {
      assert ws == [];
    } else if fault {
      assert ws == [];
    } else {
      assert ws == [LinkWrite(store, LinkKey(request.email.value), request.deviceIds.value)];
    }
  }
}
