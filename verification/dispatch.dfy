/**
 * The tracking-event endpoint (`/api/traccar-event`): validate the event, resolve
 * the users to notify, send one message per registered token, and write back either
 * a `lastUsed`/`lastEvent` stamp or, for an unregistered token, a pruned array.
 *
 * The messaging provider is a parameter: `provider(key, i)` is what happens to the
 * send to the `i`-th token of the user under `key` and to the store write that
 * follows it. Users are processed one after another, tokens in array order.
 */
module Dispatch {
  import opened Values
  import opened Seqs
  import opened Documents
  import opened Http
  import opened Content

  /** The `event` object of the request body, as received. */
  datatype RawEvent = RawEvent(
    deviceId: Option<string>,
    eventType: Option<string>,
    name: Option<string>,
    attributes: map<string, string>)

  /** `email` is the optional recipient hint sent by the web client. */
  datatype EventRequest = EventRequest(verb: string, event: Option<RawEvent>, email: Option<string>)

  /** `!event || !event.deviceId || !event.type` rejects the request. */
  function Validate(event: Option<RawEvent>): (r: Option<TrackingEvent>)
    ensures r.Some? <==> event.Some? && Truthy(event.value.deviceId) && Truthy(event.value.eventType)
    ensures r.Some? ==>
      && r.value.deviceId == event.value.deviceId.value
      && r.value.eventType == event.value.eventType.value
      && r.value.name == event.value.name
      && r.value.attributes == event.value.attributes
  {
    match event
    case None => None
    case Some(e) =>
      if Truthy(e.deviceId) && Truthy(e.eventType) then
        Some(TrackingEvent(e.deviceId.value, e.eventType.value, e.name, e.attributes))
      else None
  }

  // ---------------------------------------------------------------------------
  // Recipient resolution
  // ---------------------------------------------------------------------------

  /** `order` is the store's enumeration of its documents: every key exactly once. */
  ghost predicate ListsStore(order: seq<string>, store: Store) {
    NoDuplicates(order) && forall k :: k in order <==> k in store
  }

  function Watches(store: Store, deviceId: string): string -> bool {
    k => k in store && deviceId in store[k].deviceIds
  }

  /**
   * The users to notify. With a hint, the one document stored under exactly that
   * string (the hint is not normalised), if it exists. Without one, the
   * `array-contains` scan: every document whose `deviceIds` holds the device, in
   * the store's order.
   */
  function Resolve(store: Store, order: seq<string>, hint: Option<string>, deviceId: string): (r: seq<string>)
    requires ListsStore(order, store)
    ensures NoDuplicates(r)
    ensures forall k :: k in r ==> k in store
    ensures Truthy(hint) ==> r == (if hint.value in store then [hint.value] else [])
    ensures !Truthy(hint) ==> forall k :: k in r <==> k in store && deviceId in store[k].deviceIds
    ensures !Truthy(hint) ==> IsSubsequence(r, order)
  {
    if Truthy(hint) then
      if hint.value in store then [hint.value] else []
    else
      var r := Filter(order, Watches(store, deviceId));
      FilterNoDuplicates(order, Watches(store, deviceId));
      SubsequenceMembers(r, order);
      forall k | k in store && deviceId in store[k].deviceIds
        ensures k in r
      {
        assert multiset(r)[k] == multiset(order)[k];
      }
      r
  }

  // ---------------------------------------------------------------------------
  // Provider outcomes, messages and the two writes
  // ---------------------------------------------------------------------------

  /** The error code that marks a token as dead. */
  const NotRegistered: string := "messaging/registration-token-not-registered"

  datatype Delivery = Delivered | Rejected(code: string)

  /** One send and whether the store write that follows it (if any) succeeds. */
  datatype Attempt = Attempt(delivery: Delivery, writeSucceeds: bool)

  type Provider = (string, nat) -> Attempt

  /** The parts of the message that depend on the token, the event and the content. */
  datatype Message = Message(token: string, title: string, body: string, deviceId: string, category: string, link: string)

  /** The message for one entry: addressed to its token, carrying the event's content and device link. */
  function MessageFor(entry: TokenEntry, ev: TrackingEvent, n: Notification): (m: Message)
    ensures m.token == entry.fcmToken && m.deviceId == ev.deviceId
    ensures m.title == n.title && m.body == n.body && m.category == n.category
    ensures |m.link| == 8 + |ev.deviceId| && m.link[..8] == "/device/" && m.link[8..] == m.deviceId
  {
    Message(entry.fcmToken, n.title, n.body, ev.deviceId, n.category, "/device/" + ev.deviceId)
  }

  /** The stamp a successful send puts on the entries carrying its token. */
  function Stamped(entry: TokenEntry, eventType: string): (r: TokenEntry)
    ensures r.lastUsed == Some(ServerTime) && r.lastEvent == Some(eventType)
    ensures r.(lastUsed := entry.lastUsed, lastEvent := entry.lastEvent) == entry
  {
    entry.(lastUsed := Some(ServerTime), lastEvent := Some(eventType))
  }

  /**
   * The array written after a successful send, computed from the snapshot read
   * before the loop: same length and order, and exactly the entries carrying the
   * sent token are stamped.
   */
  function Touched(snapshot: seq<TokenEntry>, token: string, eventType: string): (r: seq<TokenEntry>)
    ensures |r| == |snapshot|
    ensures forall i :: 0 <= i < |r| && snapshot[i].fcmToken == token ==> r[i] == Stamped(snapshot[i], eventType)
    ensures forall i :: 0 <= i < |r| && snapshot[i].fcmToken != token ==> r[i] == snapshot[i]
  {
    seq(|snapshot|, i requires 0 <= i < |snapshot| =>
      if snapshot[i].fcmToken == token then Stamped(snapshot[i], eventType) else snapshot[i])
  }

  /** The stamp write: the whole snapshot back, with the entries of the sent token stamped. */
  function TouchWrite(key: string, snapshot: seq<TokenEntry>, token: string, eventType: string): (w: Write)
    ensures w.ReplaceTokens? && w.key == key && !w.stampRemoval
    ensures |w.tokens| == |snapshot|
    ensures forall i :: 0 <= i < |snapshot| ==>
      w.tokens[i].(lastUsed := snapshot[i].lastUsed, lastEvent := snapshot[i].lastEvent) == snapshot[i]
    ensures forall i :: 0 <= i < |snapshot| && snapshot[i].fcmToken == token ==>
      w.tokens[i].lastUsed == Some(ServerTime) && w.tokens[i].lastEvent == Some(eventType)
    ensures forall i :: 0 <= i < |snapshot| && snapshot[i].fcmToken != token ==> w.tokens[i] == snapshot[i]
  {
    ReplaceTokens(key, Touched(snapshot, token, eventType), false)
  }

  /** The write after a not-registered failure: the snapshot minus the token, plus `lastTokenRemoval`. */
  function PruneWrite(key: string, snapshot: seq<TokenEntry>, token: string): (w: Write)
    ensures w.ReplaceTokens? && w.key == key && w.stampRemoval
    ensures forall i :: 0 <= i < |w.tokens| ==> w.tokens[i].fcmToken != token
    ensures IsSubsequence(w.tokens, snapshot)
    ensures forall e: TokenEntry :: e.fcmToken != token ==> multiset(w.tokens)[e] == multiset(snapshot)[e]
  {
    ReplaceTokens(key, WithoutToken(snapshot, token), true)
  }

  /** `w` is one of the writes the loop may issue for one of the snapshot's tokens. */
  predicate EditOf(w: Write, key: string, snapshot: seq<TokenEntry>, eventType: string) {
    exists m :: 0 <= m < |snapshot| &&
      (w == TouchWrite(key, snapshot, snapshot[m].fcmToken, eventType) || w == PruneWrite(key, snapshot, snapshot[m].fcmToken))
  }

  /** What the loop decides to write after one send: a stamp or a prune for the sent token. */
  datatype Edit = Touch(token: string) | Prune(token: string)

  /** The store write of an edit, built from the snapshot read before the loop. */
  function WriteOf(key: string, snapshot: seq<TokenEntry>, eventType: string, e: Edit): Write {
    match e
    case Touch(token) => TouchWrite(key, snapshot, token, eventType)
    case Prune(token) => PruneWrite(key, snapshot, token)
  }

  function WritesOf(key: string, snapshot: seq<TokenEntry>, eventType: string, edits: seq<Edit>): (ws: seq<Write>)
    ensures |ws| == |edits|
    ensures forall i :: 0 <= i < |ws| ==> ws[i] == WriteOf(key, snapshot, eventType, edits[i])
  {
    seq(|edits|, i requires 0 <= i < |edits| => WriteOf(key, snapshot, eventType, edits[i]))
  }

  /** A prune write that throws: it escapes the per-token handler and ends that user's loop. */
  predicate PruneFails(a: Attempt) {
    a.delivery == Rejected(NotRegistered) && !a.writeSucceeds
  }

  /** A stamp write that throws after a successful send: caught, and counted as a failure too. */
  predicate TouchFails(a: Attempt) {
    a.delivery.Delivered? && !a.writeSucceeds
  }

  function CountDelivered(provider: Provider, key: string, lo: nat, hi: nat): nat
    decreases hi - lo
  {
    if lo >= hi then 0
    else (if provider(key, lo).delivery.Delivered? then 1 else 0) + CountDelivered(provider, key, lo + 1, hi)
  }

  function CountTouchFails(provider: Provider, key: string, lo: nat, hi: nat): nat
    decreases hi - lo
  {
    if lo >= hi then 0
    else (if TouchFails(provider(key, lo)) then 1 else 0) + CountTouchFails(provider, key, lo + 1, hi)
  }

  // ---------------------------------------------------------------------------
  // The per-user loop
  // ---------------------------------------------------------------------------

  /**
   * Counters, sends, the writes that took effect (edits inside one user's loop,
   * store writes across users), and whether some loop ended on a throw.
   */
  datatype Tally<W> = Tally(sent: nat, failed: nat, sends: seq<Message>, writes: seq<W>, aborted: bool)

  function NoTally<W>(): Tally<W> {
    Tally(0, 0, [], [], false)
  }

  /** The tally of one stretch of work followed by another. */
  function Combine<W>(a: Tally<W>, b: Tally<W>): Tally<W> {
    Tally(a.sent + b.sent, a.failed + b.failed, a.sends + b.sends, a.writes + b.writes, a.aborted || b.aborted)
  }

  /** One token: send, then stamp on success or prune on a not-registered failure. */
  function Attempted(snapshot: seq<TokenEntry>, i: nat, ev: TrackingEvent, n: Notification, a: Attempt): (t: Tally<Edit>)
    requires i < |snapshot|
    ensures t.sends == [MessageFor(snapshot[i], ev, n)]
    ensures t.sent == (if a.delivery.Delivered? then 1 else 0)
    ensures t.sent + t.failed == 1 + (if TouchFails(a) then 1 else 0)
    ensures t.aborted <==> PruneFails(a)
    ensures forall e :: e in t.writes ==> e.token == snapshot[i].fcmToken
    ensures t.writes != [] <==> a.writeSucceeds && (a.delivery.Delivered? || a.delivery == Rejected(NotRegistered))
    ensures a.delivery.Delivered? && a.writeSucceeds ==> t.writes == [Touch(snapshot[i].fcmToken)]
    ensures a.delivery == Rejected(NotRegistered) && a.writeSucceeds ==> t.writes == [Prune(snapshot[i].fcmToken)]
  {
    var entry := snapshot[i];
    var sends := [MessageFor(entry, ev, n)];
    match a.delivery
    case Delivered =>
      if a.writeSucceeds then Tally(1, 0, sends, [Touch(entry.fcmToken)], false)
      else Tally(1, 1, sends, [], false)
    case Rejected(code) =>
      if code != NotRegistered then Tally(0, 1, sends, [], false)
      else if a.writeSucceeds then Tally(0, 1, sends, [Prune(entry.fcmToken)], false)
      else Tally(0, 1, sends, [], true)
  }

  /**
   * The `for (const tokenData of currentTokens)` loop from position `j` on: every
   * token gets one message until a prune write throws.
   */
  function Loop(key: string, snapshot: seq<TokenEntry>, j: nat, ev: TrackingEvent, n: Notification, provider: Provider): (t: Tally<Edit>)
    requires j <= |snapshot|
    ensures |t.sends| <= |snapshot| - j
    ensures !t.aborted ==> |t.sends| == |snapshot| - j
    decreases |snapshot| - j
  {
    if j == |snapshot| then NoTally()
    else
      var here := Attempted(snapshot, j, ev, n, provider(key, j));
      if here.aborted then here
      else Combine(here, Loop(key, snapshot, j + 1, ev, n, provider))
  }

  /** The messages owed to the tokens from position `lo` up to `hi`, in array order. */
  function Owed(snapshot: seq<TokenEntry>, lo: nat, hi: nat, ev: TrackingEvent, n: Notification): seq<Message>
    requires lo <= hi <= |snapshot|
    decreases hi - lo
  {
    if lo == hi then [] else [MessageFor(snapshot[lo], ev, n)] + Owed(snapshot, lo + 1, hi, ev, n)
  }

  /** The messages go out one per token, in array order, as far as the loop gets. */
  lemma {:induction false} LoopSends(key: string, snapshot: seq<TokenEntry>, j: nat, ev: TrackingEvent, n: Notification, provider: Provider)
    requires j <= |snapshot|
    ensures var t := Loop(key, snapshot, j, ev, n, provider);
      t.sends == Owed(snapshot, j, j + |t.sends|, ev, n)
    decreases |snapshot| - j
  {
    if j < |snapshot| {
      var here := Attempted(snapshot, j, ev, n, provider(key, j));
      if !here.aborted {
        var rest := Loop(key, snapshot, j + 1, ev, n, provider);
        LoopSends(key, snapshot, j + 1, ev, n, provider);
        assert Loop(key, snapshot, j, ev, n, provider).sends == here.sends + rest.sends;
      } else {
        assert Owed(snapshot, j + 1, j + 1, ev, n) == [];
      }
    }
  }

  /** The loop stops early exactly at the first prune write that throws. */
  lemma {:induction false} LoopStopsAtFailedPrune(key: string, snapshot: seq<TokenEntry>, j: nat, ev: TrackingEvent, n: Notification, provider: Provider)
    requires j <= |snapshot|
    ensures var t := Loop(key, snapshot, j, ev, n, provider);
      && (t.aborted ==> |t.sends| > 0 && PruneFails(provider(key, j + |t.sends| - 1)))
      && (forall m :: j <= m < j + |t.sends| - (if t.aborted then 1 else 0) ==> !PruneFails(provider(key, m)))
    decreases |snapshot| - j
  {
    if j < |snapshot| && !Attempted(snapshot, j, ev, n, provider(key, j)).aborted {
      LoopStopsAtFailedPrune(key, snapshot, j + 1, ev, n, provider);
    }
  }

  /**
   * `sent` counts the delivered sends; `sent + failed` exceeds the number of
   * attempts by the stamp writes that threw, which are counted on both sides.
   */
  lemma {:induction false} LoopCounts(key: string, snapshot: seq<TokenEntry>, j: nat, ev: TrackingEvent, n: Notification, provider: Provider)
    requires j <= |snapshot|
    ensures var t := Loop(key, snapshot, j, ev, n, provider);
      && t.sent == CountDelivered(provider, key, j, j + |t.sends|)
      && t.sent + t.failed == |t.sends| + CountTouchFails(provider, key, j, j + |t.sends|)
    decreases |snapshot| - j
  {
    var t := Loop(key, snapshot, j, ev, n, provider);
    if j < |snapshot| {
      var here := Attempted(snapshot, j, ev, n, provider(key, j));
      if here.aborted {
        assert t == here;
        assert CountDelivered(provider, key, j + 1, j + 1) == 0;
        assert CountTouchFails(provider, key, j + 1, j + 1) == 0;
      } else {
        var rest := Loop(key, snapshot, j + 1, ev, n, provider);
        LoopCounts(key, snapshot, j + 1, ev, n, provider);
        assert t.sent == here.sent + rest.sent && t.failed == here.failed + rest.failed;
        assert |t.sends| == 1 + |rest.sends|;
      }
    }
  }

  /** Every edit of the loop is for a token of the snapshot. */
  lemma {:induction false} LoopEditsSnapshotTokens(key: string, snapshot: seq<TokenEntry>, j: nat, ev: TrackingEvent, n: Notification, provider: Provider)
    requires j <= |snapshot|
    ensures forall e :: e in Loop(key, snapshot, j, ev, n, provider).writes ==>
      exists m :: j <= m < |snapshot| && e.token == snapshot[m].fcmToken
    decreases |snapshot| - j
  {
    if j < |snapshot| {
      var here := Attempted(snapshot, j, ev, n, provider(key, j));
      if !here.aborted {
        var rest := Loop(key, snapshot, j + 1, ev, n, provider);
        LoopEditsSnapshotTokens(key, snapshot, j + 1, ev, n, provider);
        assert Loop(key, snapshot, j, ev, n, provider).writes == here.writes + rest.writes;
      }
    }
  }

  /**
   * The edit owed to one attempt: a stamp after a delivery, a prune after a
   * not-registered rejection, nothing after any other rejection, and nothing
   * when the store write does not go through.
   */
  function EditsAfter(token: string, a: Attempt): (es: seq<Edit>)
    ensures |es| <= 1
  {
    if !a.writeSucceeds then []
    else if a.delivery.Delivered? then [Touch(token)]
    else if a.delivery.code == NotRegistered then [Prune(token)]
    else []
  }

  /** The edits owed to the tokens from position `lo` up to `hi`, in array order. */
  function OwedEdits(key: string, snapshot: seq<TokenEntry>, provider: Provider, lo: nat, hi: nat): seq<Edit>
    requires lo <= hi <= |snapshot|
    decreases hi - lo
  {
    if lo == hi then []
    else EditsAfter(snapshot[lo].fcmToken, provider(key, lo)) + OwedEdits(key, snapshot, provider, lo + 1, hi)
  }

  /** The loop's edits are exactly the ones owed to the tokens it reached, in order. */
  lemma {:induction false} LoopEdits(key: string, snapshot: seq<TokenEntry>, j: nat, ev: TrackingEvent, n: Notification, provider: Provider)
    requires j <= |snapshot|
    ensures var t := Loop(key, snapshot, j, ev, n, provider);
      t.writes == OwedEdits(key, snapshot, provider, j, j + |t.sends|)
    decreases |snapshot| - j
  {
    if j < |snapshot| {
      var a := provider(key, j);
      var here := Attempted(snapshot, j, ev, n, a);
      assert here.writes == EditsAfter(snapshot[j].fcmToken, a);
      if here.aborted {
        assert OwedEdits(key, snapshot, provider, j + 1, j + 1) == [];
      } else {
        var rest := Loop(key, snapshot, j + 1, ev, n, provider);
        LoopEdits(key, snapshot, j + 1, ev, n, provider);
        assert Loop(key, snapshot, j, ev, n, provider).writes == here.writes + rest.writes;
      }
    }
  }

  // ---------------------------------------------------------------------------
  // Fan-out over the recipients
  // ---------------------------------------------------------------------------

  /** The messages owed: one per token of each recipient, recipients in order. */
  function Expected(store: Store, keys: seq<string>, i: nat, ev: TrackingEvent, n: Notification): seq<Message>
    requires i <= |keys| && forall m :: 0 <= m < |keys| ==> keys[m] in store
    decreases |keys| - i
  {
    if i == |keys| then []
    else
      var ts := store[keys[i]].fcmTokens;
      Owed(ts, 0, |ts|, ev, n) + Expected(store, keys, i + 1, ev, n)
  }

  function TotalTokens(store: Store, keys: seq<string>, i: nat): nat
    requires i <= |keys| && forall m :: 0 <= m < |keys| ==> keys[m] in store
    decreases |keys| - i
  {
    if i == |keys| then 0 else |store[keys[i]].fcmTokens| + TotalTokens(store, keys, i + 1)
  }

  /** The deliveries owed to the recipients from position `i` on: one per token the provider accepts. */
  function DeliveredTotal(store: Store, keys: seq<string>, i: nat, provider: Provider): nat
    requires i <= |keys| && forall m :: 0 <= m < |keys| ==> keys[m] in store
    decreases |keys| - i
  {
    if i == |keys| then 0
    else CountDelivered(provider, keys[i], 0, |store[keys[i]].fcmTokens|) + DeliveredTotal(store, keys, i + 1, provider)
  }

  /** The stamp writes that throw after a delivery, over the recipients from position `i` on. */
  function TouchFailsTotal(store: Store, keys: seq<string>, i: nat, provider: Provider): nat
    requires i <= |keys| && forall m :: 0 <= m < |keys| ==> keys[m] in store
    decreases |keys| - i
  {
    if i == |keys| then 0
    else CountTouchFails(provider, keys[i], 0, |store[keys[i]].fcmTokens|) + TouchFailsTotal(store, keys, i + 1, provider)
  }

  /** The writes owed to the recipients from position `i` on, recipients in order, each built from its snapshot. */
  function OwedWrites(store: Store, keys: seq<string>, i: nat, eventType: string, provider: Provider): seq<Write>
    requires i <= |keys| && forall m :: 0 <= m < |keys| ==> keys[m] in store
    decreases |keys| - i
  {
    if i == |keys| then []
    else
      var ts := store[keys[i]].fcmTokens;
      WritesOf(keys[i], ts, eventType, OwedEdits(keys[i], ts, provider, 0, |ts|)) + OwedWrites(store, keys, i + 1, eventType, provider)
  }

  /** Some recipient from position `i` on has a token whose prune write throws. */
  predicate SomePruneFails(store: Store, keys: seq<string>, i: nat, provider: Provider)
    requires forall m :: 0 <= m < |keys| ==> keys[m] in store
  {
    exists m, x :: i <= m < |keys| && 0 <= x < |store[keys[m]].fcmTokens| && PruneFails(provider(keys[m], x))
  }

  lemma SomePruneFailsStep(store: Store, keys: seq<string>, i: nat, provider: Provider)
    requires i < |keys| && forall m :: 0 <= m < |keys| ==> keys[m] in store
    ensures SomePruneFails(store, keys, i, provider) <==>
      (exists x :: 0 <= x < |store[keys[i]].fcmTokens| && PruneFails(provider(keys[i], x)))
      || SomePruneFails(store, keys, i + 1, provider)
  {
    if SomePruneFails(store, keys, i, provider) {
      var m, x :| i <= m < |keys| && 0 <= x < |store[keys[m]].fcmTokens| && PruneFails(provider(keys[m], x));
      if m > i {
        assert SomePruneFails(store, keys, i + 1, provider);
      }
    }
  }

  /** Every store write the loop could issue for these recipients succeeds. */
  predicate AllWritesSucceed(store: Store, keys: seq<string>, provider: Provider)
    requires forall m :: 0 <= m < |keys| ==> keys[m] in store
  {
    forall m, x :: 0 <= m < |keys| && 0 <= x < |store[keys[m]].fcmTokens| ==> provider(keys[m], x).writeSucceeds
  }

  /** With no failing writes nothing is double counted. */
  lemma {:induction false} NoTouchFails(provider: Provider, key: string, lo: nat, hi: nat)
    requires forall x :: lo <= x < hi ==> provider(key, x).writeSucceeds
    ensures CountTouchFails(provider, key, lo, hi) == 0
    decreases hi - lo
  {
    if lo < hi {
      NoTouchFails(provider, key, lo + 1, hi);
    }
  }

  /**
   * One recipient: `if (!currentTokens.length) return`, otherwise the loop over its
   * snapshot, whose edits become writes to the recipient's document.
   */
  function UserLoop(store: Store, key: string, ev: TrackingEvent, n: Notification, provider: Provider): (t: Tally<Write>)
    requires key in store
    ensures |t.sends| <= |store[key].fcmTokens|
    ensures !t.aborted ==> |t.sends| == |store[key].fcmTokens|
    ensures t.aborted <==> exists x :: 0 <= x < |store[key].fcmTokens| && PruneFails(provider(key, x))
    ensures forall i :: 0 <= i < |t.writes| ==> t.writes[i].ReplaceTokens? && t.writes[i].key == key
  {
    var snapshot := store[key].fcmTokens;
    if |snapshot| == 0 then NoTally()
    else
      LoopStopsAtFailedPrune(key, snapshot, 0, ev, n, provider);
      var t := Loop(key, snapshot, 0, ev, n, provider);
      assert t.aborted ==> PruneFails(provider(key, |t.sends| - 1));
      Tally(t.sent, t.failed, t.sends, WritesOf(key, snapshot, ev.eventType, t.writes), t.aborted)
  }

  /** Every write of a recipient's loop is a stamp or a prune of its snapshot, never of the current array. */
  lemma UserLoopWritesEditSnapshot(store: Store, key: string, ev: TrackingEvent, n: Notification, provider: Provider)
    requires key in store
    ensures forall w :: w in UserLoop(store, key, ev, n, provider).writes ==>
      w.key == key && EditOf(w, key, store[key].fcmTokens, ev.eventType)
  {
    var snapshot := store[key].fcmTokens;
    if |snapshot| > 0 {
      var t := Loop(key, snapshot, 0, ev, n, provider);
      LoopEditsSnapshotTokens(key, snapshot, 0, ev, n, provider);
      var ws := WritesOf(key, snapshot, ev.eventType, t.writes);
      forall w | w in ws
        ensures w.key == key && EditOf(w, key, snapshot, ev.eventType)
      {
        var i :| 0 <= i < |ws| && ws[i] == w;
        var e := t.writes[i];
        assert e in t.writes;
        var m :| 0 <= m < |snapshot| && e.token == snapshot[m].fcmToken;
        assert w == WriteOf(key, snapshot, ev.eventType, e);
      }
    }
  }

  /**
   * A recipient's writes are the owed edits of the tokens its loop reached, each
   * built from the snapshot: which outcome leads to which write, in order.
   */
  lemma UserLoopWrites(store: Store, key: string, ev: TrackingEvent, n: Notification, provider: Provider)
    requires key in store
    ensures var t := UserLoop(store, key, ev, n, provider);
      var ts := store[key].fcmTokens;
      && |t.sends| <= |ts|
      && t.writes == WritesOf(key, ts, ev.eventType, OwedEdits(key, ts, provider, 0, |t.sends|))
  {
    var ts := store[key].fcmTokens;
    if |ts| > 0 {
      LoopEdits(key, ts, 0, ev, n, provider);
      UserLoopIsLoop(store, key, ev, n, provider);
      var l := Loop(key, ts, 0, ev, n, provider);
      assert l.writes == OwedEdits(key, ts, provider, 0, |l.sends|);
      assert UserLoop(store, key, ev, n, provider).sends == l.sends;
    } else {
      assert UserLoop(store, key, ev, n, provider) == NoTally();
    }
  }

  /**
   * `userDocs.map(...)` from recipient `i` on, each user's loop run to its end: a
   * throw in one user's loop does not stop the others. Users without tokens are
   * skipped.
   */
  function Fanout(store: Store, keys: seq<string>, i: nat, ev: TrackingEvent, n: Notification, provider: Provider): (t: Tally<Write>)
    requires i <= |keys| && forall m :: 0 <= m < |keys| ==> keys[m] in store
    ensures |t.sends| <= TotalTokens(store, keys, i)
    ensures !t.aborted ==> |t.sends| == TotalTokens(store, keys, i)
    decreases |keys| - i
  {
    if i == |keys| then NoTally()
    else Combine(UserLoop(store, keys[i], ev, n, provider), Fanout(store, keys, i + 1, ev, n, provider))
  }

  /** The fan-out ends on a throw exactly when some recipient has a prune write that throws. */
  lemma {:induction false} FanoutAborts(store: Store, keys: seq<string>, i: nat, ev: TrackingEvent, n: Notification, provider: Provider)
    requires i <= |keys| && forall m :: 0 <= m < |keys| ==> keys[m] in store
    ensures Fanout(store, keys, i, ev, n, provider).aborted <==> SomePruneFails(store, keys, i, provider)
    decreases |keys| - i
  {
    if i < |keys| {
      SomePruneFailsStep(store, keys, i, provider);
      FanoutAborts(store, keys, i + 1, ev, n, provider);
    }
  }

  /** Every write goes to one of the recipients and edits that recipient's snapshot. */
  lemma {:induction false} FanoutWritesEditSnapshots(store: Store, keys: seq<string>, i: nat, ev: TrackingEvent, n: Notification, provider: Provider)
    requires i <= |keys| && forall m :: 0 <= m < |keys| ==> keys[m] in store
    ensures forall w :: w in Fanout(store, keys, i, ev, n, provider).writes ==>
      w.key in keys && EditOf(w, w.key, store[w.key].fcmTokens, ev.eventType)
    decreases |keys| - i
  {
    if i < |keys| {
      UserLoopWritesEditSnapshot(store, keys[i], ev, n, provider);
      FanoutWritesEditSnapshots(store, keys, i + 1, ev, n, provider);
    }
  }

  /**
   * One recipient none of whose prune writes throws: the loop reaches every token,
   * sends one message per token in order, counts the deliveries and the throwing
   * stamp writes, and issues exactly the owed writes. When no write fails at all,
   * nothing is double counted.
   */
  lemma UserLoopComplete(store: Store, key: string, ev: TrackingEvent, n: Notification, provider: Provider)
    requires key in store
    requires forall x :: 0 <= x < |store[key].fcmTokens| ==> !PruneFails(provider(key, x))
    ensures var t := UserLoop(store, key, ev, n, provider);
      var ts := store[key].fcmTokens;
      && !t.aborted
      && t.sends == Owed(ts, 0, |ts|, ev, n)
      && t.sent == CountDelivered(provider, key, 0, |ts|)
      && t.sent + t.failed == |ts| + CountTouchFails(provider, key, 0, |ts|)
      && t.writes == WritesOf(key, ts, ev.eventType, OwedEdits(key, ts, provider, 0, |ts|))
    ensures (forall x :: 0 <= x < |store[key].fcmTokens| ==> provider(key, x).writeSucceeds) ==>
      var t := UserLoop(store, key, ev, n, provider);
      t.sent + t.failed == |store[key].fcmTokens|
  {
    var snapshot := store[key].fcmTokens;
    UserLoopWrites(store, key, ev, n, provider);
    if |snapshot| > 0 {
      UserLoopIsLoop(store, key, ev, n, provider);
      LoopSends(key, snapshot, 0, ev, n, provider);
      LoopCounts(key, snapshot, 0, ev, n, provider);
      if forall x :: 0 <= x < |snapshot| ==> provider(key, x).writeSucceeds {
        NoTouchFails(provider, key, 0, |snapshot|);
      }
    } else {
      assert UserLoop(store, key, ev, n, provider) == NoTally();
    }
  }

  /**
   * When no prune write throws, every token of every recipient gets exactly its one
   * message, recipients and tokens in order; `sent` is the number of deliveries,
   * `sent + failed` the number of tokens plus the stamp writes that threw; and the
   * writes are exactly the owed ones.
   */
  lemma {:induction false} FanoutComplete(store: Store, keys: seq<string>, i: nat, ev: TrackingEvent, n: Notification, provider: Provider)
    requires i <= |keys| && forall m :: 0 <= m < |keys| ==> keys[m] in store
    requires !SomePruneFails(store, keys, i, provider)
    ensures var t := Fanout(store, keys, i, ev, n, provider);
      && !t.aborted
      && t.sends == Expected(store, keys, i, ev, n)
      && t.sent == DeliveredTotal(store, keys, i, provider)
      && t.sent + t.failed == TotalTokens(store, keys, i) + TouchFailsTotal(store, keys, i, provider)
      && t.writes == OwedWrites(store, keys, i, ev.eventType, provider)
    decreases |keys| - i
  {
    if i < |keys| {
      var key := keys[i];
      SomePruneFailsStep(store, keys, i, provider);
      UserLoopComplete(store, key, ev, n, provider);
      FanoutComplete(store, keys, i + 1, ev, n, provider);
    }
  }

  /** When no store write fails at all, nothing is double counted. */
  lemma {:induction false} NoTouchFailsTotal(store: Store, keys: seq<string>, i: nat, provider: Provider)
    requires i <= |keys| && forall m :: 0 <= m < |keys| ==> keys[m] in store
    requires AllWritesSucceed(store, keys, provider)
    ensures TouchFailsTotal(store, keys, i, provider) == 0
    ensures !SomePruneFails(store, keys, i, provider)
    decreases |keys| - i
  {
    if i < |keys| {
      var key := keys[i];
      forall x | 0 <= x < |store[key].fcmTokens|
        ensures provider(key, x).writeSucceeds
      {
        assert provider(keys[i], x).writeSucceeds;
      }
      NoTouchFails(provider, key, 0, |store[key].fcmTokens|);
      NoTouchFailsTotal(store, keys, i + 1, provider);
    }
  }

  /** The messages of the recipients from position `i` up to (not including) `m`. */
  function SendsBefore(store: Store, keys: seq<string>, i: nat, m: nat, ev: TrackingEvent, n: Notification, provider: Provider): seq<Message>
    requires i <= m <= |keys| && forall k :: 0 <= k < |keys| ==> keys[k] in store
    decreases m - i
  {
    if i == m then [] else UserLoop(store, keys[i], ev, n, provider).sends + SendsBefore(store, keys, i + 1, m, ev, n, provider)
  }

  lemma FanoutSendsStep(store: Store, keys: seq<string>, i: nat, ev: TrackingEvent, n: Notification, provider: Provider)
    requires i < |keys| && forall k :: 0 <= k < |keys| ==> keys[k] in store
    ensures Fanout(store, keys, i, ev, n, provider).sends ==
      UserLoop(store, keys[i], ev, n, provider).sends + Fanout(store, keys, i + 1, ev, n, provider).sends
  {
  }

  /** The fan-out's messages are each recipient's own loop's messages, one block after another. */
  lemma {:induction false} FanoutSplit(store: Store, keys: seq<string>, i: nat, m: nat, ev: TrackingEvent, n: Notification, provider: Provider)
    requires i <= m < |keys| && forall k :: 0 <= k < |keys| ==> keys[k] in store
    ensures Fanout(store, keys, i, ev, n, provider).sends ==
      SendsBefore(store, keys, i, m, ev, n, provider)
      + UserLoop(store, keys[m], ev, n, provider).sends
      + Fanout(store, keys, m + 1, ev, n, provider).sends
    decreases m - i, 1
  {
    if i < m {
      FanoutSplitStep(store, keys, i, m, ev, n, provider);
    } else {
      FanoutSendsStep(store, keys, i, ev, n, provider);
      assert SendsBefore(store, keys, i, m, ev, n, provider) == [];
      assert [] + UserLoop(store, keys[m], ev, n, provider).sends == UserLoop(store, keys[m], ev, n, provider).sends;
    }
  }

  /** One step of `FanoutSplit`: the split from `i + 1` extends to a split from `i`. */
  lemma {:induction false} FanoutSplitStep(store: Store, keys: seq<string>, i: nat, m: nat, ev: TrackingEvent, n: Notification, provider: Provider)
    requires i < m < |keys| && forall k :: 0 <= k < |keys| ==> keys[k] in store
    ensures Fanout(store, keys, i, ev, n, provider).sends ==
      SendsBefore(store, keys, i, m, ev, n, provider)
      + UserLoop(store, keys[m], ev, n, provider).sends
      + Fanout(store, keys, m + 1, ev, n, provider).sends
    decreases m - i, 0
  {
    FanoutSplit(store, keys, i + 1, m, ev, n, provider);
    FanoutSendsStep(store, keys, i, ev, n, provider);
    var whole := Fanout(store, keys, i, ev, n, provider).sends;
    var own := UserLoop(store, keys[i], ev, n, provider).sends;
    var rest := Fanout(store, keys, i + 1, ev, n, provider).sends;
    var before := SendsBefore(store, keys, i + 1, m, ev, n, provider);
    var mine := UserLoop(store, keys[m], ev, n, provider).sends;
    var after := Fanout(store, keys, m + 1, ev, n, provider).sends;
    var upTo := SendsBefore(store, keys, i, m, ev, n, provider);
    assert upTo == own + before;
    Regroup(whole, own, before, mine, after, rest, upTo);
  }

  /**
   * A recipient none of whose prune writes throws gets one message per token, in
   * array order, as one contiguous block of the fan-out, whatever happened to the
   * recipients before and after it.
   */
  lemma FanoutIsolation(store: Store, keys: seq<string>, i: nat, m: nat, ev: TrackingEvent, n: Notification, provider: Provider)
    requires i <= m < |keys| && forall k :: 0 <= k < |keys| ==> keys[k] in store
    requires forall x :: 0 <= x < |store[keys[m]].fcmTokens| ==> !PruneFails(provider(keys[m], x))
    ensures var ts := store[keys[m]].fcmTokens;
      Fanout(store, keys, i, ev, n, provider).sends ==
        SendsBefore(store, keys, i, m, ev, n, provider)
        + Owed(ts, 0, |ts|, ev, n)
        + Fanout(store, keys, m + 1, ev, n, provider).sends
    ensures var key := keys[m];
      var ts := store[key].fcmTokens;
      Fanout(store, keys, i, ev, n, provider).writes ==
        WritesBefore(store, keys, i, m, ev, n, provider)
        + WritesOf(key, ts, ev.eventType, OwedEdits(key, ts, provider, 0, |ts|))
        + Fanout(store, keys, m + 1, ev, n, provider).writes
  {
    FanoutSplit(store, keys, i, m, ev, n, provider);
    FanoutWritesSplit(store, keys, i, m, ev, n, provider);
    UserLoopComplete(store, keys[m], ev, n, provider);
  }

  /** The writes of recipients `i` to `m - 1`, recipients in order, each loop run to its end. */
  function WritesBefore(store: Store, keys: seq<string>, i: nat, m: nat, ev: TrackingEvent, n: Notification, provider: Provider): seq<Write>
    requires i <= m <= |keys| && forall k :: 0 <= k < |keys| ==> keys[k] in store
    decreases m - i
  {
    if i == m then [] else UserLoop(store, keys[i], ev, n, provider).writes + WritesBefore(store, keys, i + 1, m, ev, n, provider)
  }

  lemma FanoutWritesStep(store: Store, keys: seq<string>, i: nat, ev: TrackingEvent, n: Notification, provider: Provider)
    requires i < |keys| && forall k :: 0 <= k < |keys| ==> keys[k] in store
    ensures Fanout(store, keys, i, ev, n, provider).writes ==
      UserLoop(store, keys[i], ev, n, provider).writes + Fanout(store, keys, i + 1, ev, n, provider).writes
  {
  }

  /**
   * The writes of the fan-out are the recipients' own writes, one contiguous block
   * per recipient, in recipient order.
   */
  lemma {:induction false} FanoutWritesSplit(store: Store, keys: seq<string>, i: nat, m: nat, ev: TrackingEvent, n: Notification, provider: Provider)
    requires i <= m < |keys| && forall k :: 0 <= k < |keys| ==> keys[k] in store
    ensures Fanout(store, keys, i, ev, n, provider).writes ==
      WritesBefore(store, keys, i, m, ev, n, provider)
      + UserLoop(store, keys[m], ev, n, provider).writes
      + Fanout(store, keys, m + 1, ev, n, provider).writes
    decreases m - i, 1
  {
    if i < m {
      FanoutWritesSplitStep(store, keys, i, m, ev, n, provider);
    } else {
      FanoutWritesStep(store, keys, i, ev, n, provider);
      assert WritesBefore(store, keys, i, m, ev, n, provider) == [];
      assert [] + UserLoop(store, keys[m], ev, n, provider).writes == UserLoop(store, keys[m], ev, n, provider).writes;
    }
  }

  /** One step of `FanoutWritesSplit`: the split from `i + 1` extends to a split from `i`. */
  lemma {:induction false} FanoutWritesSplitStep(store: Store, keys: seq<string>, i: nat, m: nat, ev: TrackingEvent, n: Notification, provider: Provider)
    requires i < m < |keys| && forall k :: 0 <= k < |keys| ==> keys[k] in store
    ensures Fanout(store, keys, i, ev, n, provider).writes ==
      WritesBefore(store, keys, i, m, ev, n, provider)
      + UserLoop(store, keys[m], ev, n, provider).writes
      + Fanout(store, keys, m + 1, ev, n, provider).writes
    decreases m - i, 0
  {
    FanoutWritesSplit(store, keys, i + 1, m, ev, n, provider);
    FanoutWritesStep(store, keys, i, ev, n, provider);
    var whole := Fanout(store, keys, i, ev, n, provider).writes;
    var own := UserLoop(store, keys[i], ev, n, provider).writes;
    var rest := Fanout(store, keys, i + 1, ev, n, provider).writes;
    var before := WritesBefore(store, keys, i + 1, m, ev, n, provider);
    var mine := UserLoop(store, keys[m], ev, n, provider).writes;
    var after := Fanout(store, keys, m + 1, ev, n, provider).writes;
    var upTo := WritesBefore(store, keys, i, m, ev, n, provider);
    assert upTo == own + before;
    Regroup(whole, own, before, mine, after, rest, upTo);
  }

  /**
   * A recipient's array ends as its last write left it: the writes all replace the
   * whole array with an edit of the snapshot, so each one undoes the ones before it.
   */
  lemma UserLoopEndsWithLastWrite(store: Store, key: string, ev: TrackingEvent, n: Notification, provider: Provider)
    requires key in store
    requires UserLoop(store, key, ev, n, provider).writes != []
    ensures var ws := UserLoop(store, key, ev, n, provider).writes;
      && key in ApplyAll(store, ws)
      && ws[|ws| - 1].ReplaceTokens?
      && ApplyAll(store, ws)[key].fcmTokens == ws[|ws| - 1].tokens
      && ApplyAll(store, ws)[key].deviceIds == store[key].deviceIds
  {
    LastReplacementWins(store, key, UserLoop(store, key, ev, n, provider).writes);
  }

  /** The loop over a two-token snapshot, given what happens to each token. */
  lemma LoopOfTwo(key: string, a: TokenEntry, b: TokenEntry, ev: TrackingEvent, n: Notification, provider: Provider)
    requires !PruneFails(provider(key, 0))
    ensures var t := Loop(key, [a, b], 0, ev, n, provider);
      && t.writes == EditsAfter(a.fcmToken, provider(key, 0)) + EditsAfter(b.fcmToken, provider(key, 1))
      && t.sent == (if provider(key, 0).delivery.Delivered? then 1 else 0) + (if provider(key, 1).delivery.Delivered? then 1 else 0)
      && t.sent + t.failed == 2 + (if TouchFails(provider(key, 0)) then 1 else 0) + (if TouchFails(provider(key, 1)) then 1 else 0)
      && (t.aborted <==> PruneFails(provider(key, 1)))
  {
    var snapshot := [a, b];
    assert Loop(key, snapshot, 2, ev, n, provider) == NoTally();
    var t1 := Loop(key, snapshot, 1, ev, n, provider);
    assert t1.writes == EditsAfter(b.fcmToken, provider(key, 1)) + [];
  }

  lemma WritesOfTwo(key: string, snapshot: seq<TokenEntry>, eventType: string, e1: Edit, e2: Edit)
    ensures WritesOf(key, snapshot, eventType, [e1, e2]) ==
      [WriteOf(key, snapshot, eventType, e1), WriteOf(key, snapshot, eventType, e2)]
  {
  }

  /** A recipient with tokens gets its loop's tally, with the edits turned into writes. */
  lemma UserLoopIsLoop(store: Store, key: string, ev: TrackingEvent, n: Notification, provider: Provider)
    requires key in store && |store[key].fcmTokens| > 0
    ensures var ts := store[key].fcmTokens;
      var t := Loop(key, ts, 0, ev, n, provider);
      UserLoop(store, key, ev, n, provider) == Tally(t.sent, t.failed, t.sends, WritesOf(key, ts, ev.eventType, t.writes), t.aborted)
  {
  }

  /** A recipient with a two-token array: its loop's tally, with the edits turned into writes. */
  lemma UserLoopOfTwo(store: Store, key: string, a: TokenEntry, b: TokenEntry, ev: TrackingEvent, n: Notification, provider: Provider)
    requires key in store && store[key].fcmTokens == [a, b] && !PruneFails(provider(key, 0))
    ensures var t := UserLoop(store, key, ev, n, provider);
      && t.writes == WritesOf(key, [a, b], ev.eventType, EditsAfter(a.fcmToken, provider(key, 0)) + EditsAfter(b.fcmToken, provider(key, 1)))
      && t.sent == (if provider(key, 0).delivery.Delivered? then 1 else 0) + (if provider(key, 1).delivery.Delivered? then 1 else 0)
      && t.sent + t.failed == 2 + (if TouchFails(provider(key, 0)) then 1 else 0) + (if TouchFails(provider(key, 1)) then 1 else 0)
      && (t.aborted <==> PruneFails(provider(key, 1)))
  {
    LoopOfTwo(key, a, b, ev, n, provider);
    UserLoopIsLoop(store, key, ev, n, provider);
  }

  /** Two writes in a row to an existing document, the second replacing the array. */
  lemma ApplyTwo(store: Store, w1: Write, w2: Write)
    requires w1.ReplaceTokens? && w2.ReplaceTokens? && w1.key == w2.key && w1.key in store
    ensures var after := ApplyAll(store, [w1, w2]);
      && w1.key in after
      && after[w1.key].fcmTokens == w2.tokens
      && after[w1.key].lastTokenRemoval ==
           (if w2.stampRemoval || w1.stampRemoval then Some(ServerTime) else store[w1.key].lastTokenRemoval)
  {
    assert [w1, w2][1..] == [w2];
    ApplyOne(Apply(store, w1), w2);
  }

  /**
   * A prune does not stick when a later token of the same user is delivered: the
   * stamp write is computed from the snapshot, which still holds the pruned entry,
   * and puts it back. This relies on the stamp write being accepted by the store.
   */
  lemma PruneUndoneByLaterSend(store: Store, key: string, a: TokenEntry, b: TokenEntry, ev: TrackingEvent, n: Notification, provider: Provider)
    requires key in store && store[key].fcmTokens == [a, b] && a.fcmToken != b.fcmToken
    requires provider(key, 0) == Attempt(Rejected(NotRegistered), true)
    requires provider(key, 1) == Attempt(Delivered, true)
    ensures var t := UserLoop(store, key, ev, n, provider);
      var after := ApplyAll(store, t.writes);
      && t.sent == 1 && t.failed == 1
      && t.writes == [PruneWrite(key, [a, b], a.fcmToken), TouchWrite(key, [a, b], b.fcmToken, ev.eventType)]
      && key in after
      && after[key].fcmTokens == [a, Stamped(b, ev.eventType)]
  {
    var snapshot := [a, b];
    UserLoopOfTwo(store, key, a, b, ev, n, provider);
    assert EditsAfter(a.fcmToken, provider(key, 0)) + EditsAfter(b.fcmToken, provider(key, 1)) == [Prune(a.fcmToken), Touch(b.fcmToken)];
    var w1 := PruneWrite(key, snapshot, a.fcmToken);
    var w2 := TouchWrite(key, snapshot, b.fcmToken, ev.eventType);
    WritesOfTwo(key, snapshot, ev.eventType, Prune(a.fcmToken), Touch(b.fcmToken));
    ApplyTwo(store, w1, w2);
    TouchedSecond(a, b, ev.eventType);
  }

  lemma TouchedSecond(a: TokenEntry, b: TokenEntry, eventType: string)
    requires a.fcmToken != b.fcmToken
    ensures Touched([a, b], b.fcmToken, eventType) == [a, Stamped(b, eventType)]
  {
  }

  /**
   * Two dead tokens, both prune writes accepted: each prune is computed from the
   * snapshot, so the second puts back the entry the first removed, and the array
   * ends with the first dead token still in it.
   */
  lemma SecondPruneRestoresFirst(store: Store, key: string, a: TokenEntry, b: TokenEntry, ev: TrackingEvent, n: Notification, provider: Provider)
    requires key in store && store[key].fcmTokens == [a, b] && a.fcmToken != b.fcmToken
    requires provider(key, 0) == Attempt(Rejected(NotRegistered), true)
    requires provider(key, 1) == Attempt(Rejected(NotRegistered), true)
    ensures var t := UserLoop(store, key, ev, n, provider);
      var after := ApplyAll(store, t.writes);
      && t.sent == 0 && t.failed == 2 && !t.aborted
      && t.writes == [PruneWrite(key, [a, b], a.fcmToken), PruneWrite(key, [a, b], b.fcmToken)]
      && key in after
      && after[key].fcmTokens == [a]
      && after[key].lastTokenRemoval == Some(ServerTime)
  {
    var snapshot := [a, b];
    UserLoopOfTwo(store, key, a, b, ev, n, provider);
    assert EditsAfter(a.fcmToken, provider(key, 0)) + EditsAfter(b.fcmToken, provider(key, 1)) == [Prune(a.fcmToken), Prune(b.fcmToken)];
    var w1 := PruneWrite(key, snapshot, a.fcmToken);
    var w2 := PruneWrite(key, snapshot, b.fcmToken);
    WritesOfTwo(key, snapshot, ev.eventType, Prune(a.fcmToken), Prune(b.fcmToken));
    ApplyTwo(store, w1, w2);
    WithoutSecond(a, b);
  }

  lemma WithoutSecond(a: TokenEntry, b: TokenEntry)
    requires a.fcmToken != b.fcmToken
    ensures WithoutToken([a, b], b.fcmToken) == [a]
  {
    assert Filter([b], OtherToken(b.fcmToken)) == [];
    assert [a, b] == [a] + [b];
    FilterAppend([a], [b], OtherToken(b.fcmToken));
  }

  // ---------------------------------------------------------------------------
  // The handler
  // ---------------------------------------------------------------------------

  /** The answer, the messages sent and the writes that took effect. */
  datatype EventOutcome = EventOutcome(response: Response, sends: seq<Message>, writes: seq<Write>)

  /**
   * Everything after at least one recipient was found: render, fan out, and answer
   * with the counters, or with 500 when some prune write threw.
   */
  function Deliver(store: Store, recipients: seq<string>, ev: TrackingEvent, provider: Provider): (o: EventOutcome)
    requires forall m :: 0 <= m < |recipients| ==> recipients[m] in store
    ensures forall w :: w in o.writes ==>
      w.key in recipients && EditOf(w, w.key, store[w.key].fcmTokens, ev.eventType)
    ensures o.response.status == 200 || o.response == Reply(500, Failure("Erro interno ao processar evento."))
    ensures o.response.status == 500 <==> SomePruneFails(store, recipients, 0, provider)
    ensures o.response.status == 200 ==> o.response.payload.Counts?
    ensures !SomePruneFails(store, recipients, 0, provider) ==>
      && o.response.payload.Counts?
      && o.response.payload.sent == DeliveredTotal(store, recipients, 0, provider)
      && o.response.payload.sent + o.response.payload.failed
           == TotalTokens(store, recipients, 0) + TouchFailsTotal(store, recipients, 0, provider)
      && o.sends == Expected(store, recipients, 0, ev, Render(ev))
      && o.writes == OwedWrites(store, recipients, 0, ev.eventType, provider)
    ensures AllWritesSucceed(store, recipients, provider) ==>
      && o.response.status == 200
      && o.response.payload.Counts?
      && o.response.payload.sent + o.response.payload.failed == TotalTokens(store, recipients, 0)
  {
    var n := Render(ev);
    var t := Fanout(store, recipients, 0, ev, n, provider);
    FanoutWritesEditSnapshots(store, recipients, 0, ev, n, provider);
    FanoutAborts(store, recipients, 0, ev, n, provider);
    assert !SomePruneFails(store, recipients, 0, provider) ==>
      && !t.aborted
      && t.sends == Expected(store, recipients, 0, ev, n)
      && t.sent == DeliveredTotal(store, recipients, 0, provider)
      && t.sent + t.failed == TotalTokens(store, recipients, 0) + TouchFailsTotal(store, recipients, 0, provider)
      && t.writes == OwedWrites(store, recipients, 0, ev.eventType, provider)
    by {
      if !SomePruneFails(store, recipients, 0, provider) {
        FanoutComplete(store, recipients, 0, ev, n, provider);
      }
    }
    assert AllWritesSucceed(store, recipients, provider) ==>
      !SomePruneFails(store, recipients, 0, provider) && TouchFailsTotal(store, recipients, 0, provider) == 0
    by {
      if AllWritesSucceed(store, recipients, provider) {
        NoTouchFailsTotal(store, recipients, 0, provider);
      }
    }
    var response := if t.aborted then Reply(500, Failure("Erro interno ao processar evento."))
                    else Reply(200, Counts(t.sent, t.failed));
    EventOutcome(response, t.sends, t.writes)
  }

  /**
   * A throwing prune write in one recipient's loop does not stop the others: a
   * recipient none of whose own prune writes throws gets all its messages and all
   * its owed writes, as one contiguous block of the handler's result, whether the
   * answer is 200 or 500.
   */
  lemma DeliverIsolation(store: Store, recipients: seq<string>, m: nat, ev: TrackingEvent, provider: Provider)
    requires m < |recipients| && forall k :: 0 <= k < |recipients| ==> recipients[k] in store
    requires forall x :: 0 <= x < |store[recipients[m]].fcmTokens| ==> !PruneFails(provider(recipients[m], x))
    ensures var o := Deliver(store, recipients, ev, provider);
      var n := Render(ev);
      var key := recipients[m];
      var ts := store[key].fcmTokens;
      && o.sends ==
           SendsBefore(store, recipients, 0, m, ev, n, provider)
           + Owed(ts, 0, |ts|, ev, n)
           + Fanout(store, recipients, m + 1, ev, n, provider).sends
      && o.writes ==
           WritesBefore(store, recipients, 0, m, ev, n, provider)
           + WritesOf(key, ts, ev.eventType, OwedEdits(key, ts, provider, 0, |ts|))
           + Fanout(store, recipients, m + 1, ev, n, provider).writes
  {
    var n := Render(ev);
    var t := Fanout(store, recipients, 0, ev, n, provider);
    FanoutIsolation(store, recipients, 0, m, ev, n, provider);
    assert Deliver(store, recipients, ev, provider).sends == t.sends;
    assert Deliver(store, recipients, ev, provider).writes == t.writes;
  }

  /** Stamping entries changes no device id, so the array stays device-unique. */
  lemma TouchedKeepsUnique(snapshot: seq<TokenEntry>, token: string, eventType: string)
    requires UniqueDevices(snapshot)
    ensures UniqueDevices(Touched(snapshot, token, eventType))
  {
    var r := Touched(snapshot, token, eventType);
    assert forall i :: 0 <= i < |r| ==> r[i].deviceId == snapshot[i].deviceId;
  }

  /** A stamp or a prune of a device-unique snapshot writes a device-unique array. */
  lemma EditKeepsUnique(w: Write, key: string, snapshot: seq<TokenEntry>, eventType: string)
    requires UniqueDevices(snapshot) && EditOf(w, key, snapshot, eventType)
    ensures WriteKeepsUnique(w)
  {
    var m :| 0 <= m < |snapshot| &&
      (w == TouchWrite(key, snapshot, snapshot[m].fcmToken, eventType) || w == PruneWrite(key, snapshot, snapshot[m].fcmToken));
    TouchedKeepsUnique(snapshot, snapshot[m].fcmToken, eventType);
    WithoutTokenKeepsUnique(snapshot, snapshot[m].fcmToken);
  }

  /**
   * Whatever the event and whatever the provider does, the store the event route
   * leaves behind still holds at most one entry per device in every document.
   */
  lemma HandleEventKeepsUnique(store: Store, order: seq<string>, request: EventRequest, provider: Provider)
    requires ListsStore(order, store) && DevicesUnique(store)
    ensures DevicesUnique(ApplyAll(store, HandleEvent(store, order, request, provider).writes))
  {
    var o := HandleEvent(store, order, request, provider);
    forall i | 0 <= i < |o.writes|
      ensures WriteKeepsUnique(o.writes[i])
    {
      var w := o.writes[i];
      assert w in o.writes;
      var ev := Validate(request.event).value;
      EditKeepsUnique(w, w.key, store[w.key].fcmTokens, ev.eventType);
    }
    ApplyAllKeepsUnique(store, o.writes);
  }

  /**
   * The handler. OPTIONS is answered at once; any other method is processed. An
   * invalid event is refused before the store or the provider is touched; no
   * recipient is a success with nothing sent and nothing written.
   */
  function HandleEvent(store: Store, order: seq<string>, request: EventRequest, provider: Provider): (o: EventOutcome)
    requires ListsStore(order, store)
    ensures request.verb == "OPTIONS" ==> o == EventOutcome(Reply(200, Empty), [], [])
    ensures request.verb != "OPTIONS" && Validate(request.event).None? ==>
      o == EventOutcome(Reply(400, Failure("Dados de evento inválidos.")), [], [])
    ensures request.verb != "OPTIONS" && Validate(request.event).Some? ==>
      var ev := Validate(request.event).value;
      var recipients := Resolve(store, order, request.email, ev.deviceId);
      && (recipients == [] ==> o == EventOutcome(Reply(200, Notice("Nenhum usuário para notificar.")), [], []))
      && (recipients != [] ==> o == Deliver(store, recipients, ev, provider))
  {
    if request.verb == "OPTIONS" then EventOutcome(Reply(200, Empty), [], [])
    else
      match Validate(request.event)
      case None => EventOutcome(Reply(400, Failure("Dados de evento inválidos.")), [], [])
      case Some(ev) =>
        var recipients := Resolve(store, order, request.email, ev.deviceId);
        if recipients == [] then EventOutcome(Reply(200, Notice("Nenhum usuário para notificar.")), [], [])
        else Deliver(store, recipients, ev, provider)
  }

  /**
   * An event for a device no user has linked, without a hint, is answered with the
   * no-recipient notice and causes no send and no write.
   */
  lemma UnwatchedDeviceIsQuiet(store: Store, order: seq<string>, request: EventRequest, provider: Provider)
    requires ListsStore(order, store)
    requires request.verb != "OPTIONS" && Validate(request.event).Some? && !Truthy(request.email)
    requires forall k :: k in store ==> Validate(request.event).value.deviceId !in store[k].deviceIds
    ensures HandleEvent(store, order, request, provider) == EventOutcome(Reply(200, Notice("Nenhum usuário para notificar.")), [], [])
  {
  }
}
