/**
 * The `token-usuarios` collection as an abstract document store: one record per
 * user key, the writes the handlers issue, and the token-array edits they compute.
 */
module Documents {
  import opened Values
  import opened Seqs

  /** An opaque point in time: an ISO string stamped by the handler, or the store's own clock. */
  datatype Stamp = Iso(text: string) | ServerTime

  /** One element of a user's `fcmTokens` array. */
  datatype TokenEntry = TokenEntry(
    deviceId: string,
    fcmToken: string,
    userAgent: Option<string>,
    createdAt: Option<Stamp>,
    updatedAt: Option<Stamp>,
    lastUsed: Option<Stamp>,
    lastEvent: Option<string>)

  /**
   * One user document. A missing `fcmTokens` or `deviceIds` field reads as empty,
   * which is how every handler reads it (`data()?.fcmTokens || []`).
   */
  datatype UserRecord = UserRecord(
    fcmTokens: seq<TokenEntry>,
    deviceIds: set<string>,
    lastTokenRemoval: Option<Stamp>)

  type Store = map<string, UserRecord>

  /** The store calls the handlers make, in the order they make them. */
  datatype Write =
      /** `set({ fcmTokens })` without merge: the document becomes exactly this. */
    | Create(key: string, tokens: seq<TokenEntry>)
      /** `update({ fcmTokens[, lastTokenRemoval] })`: replaces the array of an existing document. */
    | ReplaceTokens(key: string, tokens: seq<TokenEntry>, stampRemoval: bool)
      /** `set({ deviceIds: arrayUnion(...) }, { merge: true })`. */
    | UnionDeviceIds(key: string, ids: set<string>)

  /**
   * The store after one write. An update of a missing document fails in the store
   * and changes nothing; the handlers only update documents they have just read.
   */
  function Apply(s: Store, w: Write): (r: Store)
    ensures r.Keys == s.Keys + {w.key} || r.Keys == s.Keys
    ensures forall k :: k in s && k != w.key ==> k in r && r[k] == s[k]
  {
    match w
    case Create(key, tokens) =>
      s[key := UserRecord(tokens, {}, None)]
    case ReplaceTokens(key, tokens, stampRemoval) =>
      if key in s then
        var before := s[key];
        s[key := before.(fcmTokens := tokens,
                      lastTokenRemoval := if stampRemoval then Some(ServerTime) else before.lastTokenRemoval)]
      else s
    case UnionDeviceIds(key, ids) =>
      if key in s then s[key := s[key].(deviceIds := s[key].deviceIds + ids)]
      else s[key := UserRecord([], ids, None)]
  }

  function ApplyAll(s: Store, ws: seq<Write>): Store
    decreases |ws|
  {
    if ws == [] then s else ApplyAll(Apply(s, ws[0]), ws[1..])
  }

  lemma ApplyOne(s: Store, w: Write)
    ensures ApplyAll(s, [w]) == Apply(s, w)
  {
    assert [w][1..] == [];
  }

  /** The keys a sequence of writes addresses. */
  function KeysOf(ws: seq<Write>): set<string> {
    set i | 0 <= i < |ws| :: ws[i].key
  }

  /** Writes leave every document they do not address exactly as it was. */
  lemma {:induction false} ApplyAllElsewhere(s: Store, ws: seq<Write>, k: string)
    requires k !in KeysOf(ws)
    ensures k in ApplyAll(s, ws) <==> k in s
    ensures k in s ==> ApplyAll(s, ws)[k] == s[k]
    decreases |ws|
  {
    if ws != [] {
      assert KeysOf(ws[1..]) <= KeysOf(ws) by {
        forall x | x in KeysOf(ws[1..]) ensures x in KeysOf(ws) {
          var i :| 0 <= i < |ws[1..]| && ws[1..][i].key == x;
          assert ws[i + 1].key == x;
        }
      }
      assert k != ws[0].key by { assert ws[0].key in KeysOf(ws); }
      ApplyAllElsewhere(Apply(s, ws[0]), ws[1..], k);
    }
  }

  /**
   * After a run of array replacements on one existing document, the array is
   * whatever the last replacement wrote: earlier replacements leave no trace.
   */
  lemma {:induction false} LastReplacementWins(s: Store, key: string, ws: seq<Write>)
    requires key in s && ws != []
    requires forall i :: 0 <= i < |ws| ==> ws[i].ReplaceTokens? && ws[i].key == key
    ensures key in ApplyAll(s, ws)
    ensures ApplyAll(s, ws)[key].fcmTokens == ws[|ws| - 1].tokens
    ensures ApplyAll(s, ws)[key].deviceIds == s[key].deviceIds
    decreases |ws|
  {
    var s' := Apply(s, ws[0]);
    if |ws| > 1 {
      LastReplacementWins(s', key, ws[1..]);
    }
  }

  /** Replacing an array by itself, without stamping a removal, changes nothing. */
  lemma ReplaceSameTokens(s: Store, key: string, tokens: seq<TokenEntry>)
    requires key in s && s[key].fcmTokens == tokens
    ensures Apply(s, ReplaceTokens(key, tokens, false)) == s
  {
    assert s[key].(fcmTokens := tokens) == s[key];
  }

  /** The entries of `ts` for every device other than `deviceId`. */
  function WithoutDevice(ts: seq<TokenEntry>, deviceId: string): (r: seq<TokenEntry>)
    ensures forall i :: 0 <= i < |r| ==> r[i].deviceId != deviceId
    ensures forall e: TokenEntry :: e.deviceId != deviceId ==> multiset(r)[e] == multiset(ts)[e]
    ensures IsSubsequence(r, ts)
  {
    Filter(ts, OtherDevice(deviceId))
  }

  function OtherDevice(deviceId: string): TokenEntry -> bool {
    (e: TokenEntry) => e.deviceId != deviceId
  }

  /** The entries of `ts` whose token is not `token`. */
  function WithoutToken(ts: seq<TokenEntry>, token: string): (r: seq<TokenEntry>)
    ensures forall i :: 0 <= i < |r| ==> r[i].fcmToken != token
    ensures forall e: TokenEntry :: e.fcmToken != token ==> multiset(r)[e] == multiset(ts)[e]
    ensures IsSubsequence(r, ts)
  {
    Filter(ts, OtherToken(token))
  }

  function OtherToken(token: string): TokenEntry -> bool {
    (e: TokenEntry) => e.fcmToken != token
  }

  /** Removing a token that is already gone changes nothing. */
  lemma WithoutTokenIdempotent(ts: seq<TokenEntry>, token: string)
    ensures WithoutToken(WithoutToken(ts, token), token) == WithoutToken(ts, token)
  {
    FilterIdempotent(ts, OtherToken(token));
  }

  /** At most one entry per device. */
  predicate UniqueDevices(ts: seq<TokenEntry>) {
    forall i, j :: 0 <= i < j < |ts| ==> ts[i].deviceId != ts[j].deviceId
  }

  /** Two distinct positions of a subsequence of a device-unique array name different devices. */
  lemma {:induction false} UniqueSubsequence(sub: seq<TokenEntry>, ts: seq<TokenEntry>, i: nat, j: nat)
    requires IsSubsequence(sub, ts) && UniqueDevices(ts)
    requires i < j < |sub|
    ensures sub[i].deviceId != sub[j].deviceId
    decreases |ts|
  {
    if sub[0] == ts[0] {
      if i == 0 {
        SubsequenceMembers(sub[1..], ts[1..]);
        assert sub[j] == sub[1..][j - 1];
        assert sub[j] in sub[1..];
        assert sub[j] in ts[1..];
        var k :| 0 <= k < |ts[1..]| && ts[1..][k] == sub[j];
        assert ts[k + 1] == sub[j];
      } else {
        UniqueSubsequence(sub[1..], ts[1..], i - 1, j - 1);
      }
    } else {
      UniqueSubsequence(sub, ts[1..], i, j);
    }
  }

  /** Removing a token keeps at most one entry per device. */
  lemma WithoutTokenKeepsUnique(ts: seq<TokenEntry>, token: string)
    requires UniqueDevices(ts)
    ensures UniqueDevices(WithoutToken(ts, token))
  {
    var r := WithoutToken(ts, token);
    forall i, j | 0 <= i < j < |r|
      ensures r[i].deviceId != r[j].deviceId
    {
      UniqueSubsequence(r, ts, i, j);
    }
  }

  /** Every document of the store holds at most one entry per device. */
  predicate DevicesUnique(s: Store) {
    forall k :: k in s ==> UniqueDevices(s[k].fcmTokens)
  }

  /** A write that carries an array carries one with at most one entry per device. */
  predicate WriteKeepsUnique(w: Write) {
    w.UnionDeviceIds? || UniqueDevices(w.tokens)
  }

  predicate WritesKeepUnique(ws: seq<Write>) {
    forall i :: 0 <= i < |ws| ==> WriteKeepsUnique(ws[i])
  }

  /** Writes whose arrays are device-unique keep every document device-unique. */
  lemma {:induction false} ApplyAllKeepsUnique(s: Store, ws: seq<Write>)
    requires DevicesUnique(s)
    requires WritesKeepUnique(ws)
    ensures DevicesUnique(ApplyAll(s, ws))
    decreases |ws|
  {
    if ws != [] {
      var s' := Apply(s, ws[0]);
      assert WriteKeepsUnique(ws[0]);
      forall k | k in s'
        ensures UniqueDevices(s'[k].fcmTokens)
      {
        if k != ws[0].key {
          assert s'[k] == s[k];
        }
      }
      assert WritesKeepUnique(ws[1..]) by {
        assert forall i :: 0 <= i < |ws[1..]| ==> ws[1..][i] == ws[i + 1];
      }
      ApplyAllKeepsUnique(s', ws[1..]);
    }
  }

  /** `tokens.find(t => t.deviceId === deviceId)`, as the index of the first match. */
  function FindDevice(ts: seq<TokenEntry>, deviceId: string): (r: Option<nat>)
    ensures r.None? <==> forall i :: 0 <= i < |ts| ==> ts[i].deviceId != deviceId
    ensures r.Some? ==> r.value < |ts| && ts[r.value].deviceId == deviceId
    ensures r.Some? ==> forall i :: 0 <= i < r.value ==> ts[i].deviceId != deviceId
    decreases |ts|
  {
    if ts == [] then None
    else if ts[0].deviceId == deviceId then Some(0)
    else
      match FindDevice(ts[1..], deviceId)
      case None => None
      case Some(i) => Some(i + 1)
  }
}
