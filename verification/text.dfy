/**
 * The string operations behind the two e-mail normalisations: quote stripping
 * (`String.prototype.replace` with a character-class regex), `trim()` and
 * `toLowerCase()`.
 */
module Text {
  import opened Seqs

  /** The characters JavaScript's `trim()` removes: WhiteSpace and LineTerminator. */
  predicate IsSpace(c: char) {
    || c == '\t' || c == '\n' || c == '\U{000B}' || c == '\U{000C}' || c == '\r'
    || c == ' ' || c == '\U{00A0}' || c == '\U{1680}'
    || ('\U{2000}' <= c <= '\U{200A}')
    || c == '\U{2028}' || c == '\U{2029}' || c == '\U{202F}' || c == '\U{205F}'
    || c == '\U{3000}' || c == '\U{FEFF}'
  }

  predicate AllSpace(s: string) {
    forall i :: 0 <= i < |s| ==> IsSpace(s[i])
  }

  /** Neither the first nor the last character is white space. */
  predicate NoOuterSpace(s: string) {
    s == [] || (!IsSpace(s[0]) && !IsSpace(s[|s| - 1]))
  }

  /** `r` is the part of `s` that starts at `i` once the white space on both sides is cut off. */
  predicate TrimsTo(s: string, i: nat, r: string) {
    && i + |r| <= |s|
    && r == s[i..i + |r|]
    && AllSpace(s[..i])
    && AllSpace(s[i + |r|..])
  }

  function TrimStart(s: string): (r: string)
    ensures |r| <= |s| && r == s[|s| - |r|..]
    ensures r == [] || !IsSpace(r[0])
    ensures AllSpace(s[..|s| - |r|])
    decreases |s|
  {
    if s != [] && IsSpace(s[0]) then
      var r := TrimStart(s[1..]);
      assert s[..|s| - |r|] == [s[0]] + s[1..][..|s| - 1 - |r|];
      r
    else s
  }

  function TrimEnd(s: string): (r: string)
    ensures |r| <= |s| && r == s[..|r|]
    ensures r == [] || !IsSpace(r[|r| - 1])
    ensures AllSpace(s[|r|..])
    decreases |s|
  {
    if s != [] && IsSpace(s[|s| - 1]) then
      var r := TrimEnd(s[..|s| - 1]);
      assert s[|r|..] == s[..|s| - 1][|r|..] + [s[|s| - 1]];
      r
    else s
  }

  /** `String.prototype.trim`. */
  function Trim(s: string): (r: string)
    ensures NoOuterSpace(r)
    ensures exists i :: TrimsTo(s, i, r)
  {
    var t := TrimStart(s);
    var r := TrimEnd(t);
    TrimBothEnds(s, t, r);
    r
  }

  lemma TrimBothEnds(s: string, t: string, r: string)
    requires |t| <= |s| && t == s[|s| - |t|..] && AllSpace(s[..|s| - |t|])
    requires t == [] || !IsSpace(t[0])
    requires |r| <= |t| && r == t[..|r|] && AllSpace(t[|r|..])
    requires r == [] || !IsSpace(r[|r| - 1])
    ensures NoOuterSpace(r)
    ensures TrimsTo(s, |s| - |t|, r)
  {
    var i := |s| - |t|;
    assert s[i..i + |r|] == r;
    assert s[i + |r|..] == t[|r|..];
  }

  /** Trimming a string that already has no outer white space returns it unchanged. */
  lemma TrimOfTrimmed(s: string)
    requires NoOuterSpace(s)
    ensures Trim(s) == s
  {
  }

  /** Lower-cases the ASCII capitals, as `toLowerCase()` does on them. */
  function LowerChar(c: char): char {
    if 'A' <= c <= 'Z' then (c as int + 32) as char else c
  }

  predicate IsUpper(c: char) {
    'A' <= c <= 'Z'
  }

  /** `toLowerCase()` on ASCII: every capital moves to its small letter, every other character stays. */
  function Lower(s: string): (r: string)
    ensures |r| == |s|
    ensures forall i :: 0 <= i < |s| ==> !IsUpper(r[i])
    ensures forall i :: 0 <= i < |s| && !IsUpper(s[i]) ==> r[i] == s[i]
    ensures forall i :: 0 <= i < |s| && IsUpper(s[i]) ==> r[i] as int == s[i] as int + 32
  {
    seq(|s|, i requires 0 <= i < |s| => LowerChar(s[i]))
  }

  /** Lower-casing keeps white space where it was, so it keeps a trimmed string trimmed. */
  lemma LowerKeepsNoOuterSpace(s: string)
    requires NoOuterSpace(s)
    ensures NoOuterSpace(Lower(s))
  {
  }

  /** Lower-casing a string with no capitals returns it unchanged. */
  lemma LowerOfLower(s: string)
    requires forall i :: 0 <= i < |s| ==> !IsUpper(s[i])
    ensures Lower(s) == s
  {
  }

  /** `s.replace(/[...]/g, "")`: every character of `quotes` removed, the rest kept in order. */
  function Strip(s: string, quotes: set<char>): (r: string)
    ensures forall i :: 0 <= i < |r| ==> r[i] !in quotes
    ensures forall c :: c !in quotes ==> multiset(r)[c] == multiset(s)[c]
    ensures IsSubsequence(r, s)
  {
    Filter(s, Keeps(quotes))
  }

  /** The test a character passes to survive `Strip`. */
  function Keeps(quotes: set<char>): char -> bool {
    c => c !in quotes
  }

  /** The characters notifications.ts strips from a registration e-mail: its class `[""]` lists `"` twice. */
  const RegistrationQuotes: set<char> := {'"'}

  /** The characters update-user-devices.ts strips: `"` and `'`. */
  const LinkQuotes: set<char> := {'"', '\''}

  /** No character of `s` belongs to `quotes`. */
  predicate NoneIn(s: string, quotes: set<char>) {
    forall i :: 0 <= i < |s| ==> s[i] !in quotes
  }

  /** Trimming only cuts characters off, so it adds no quote back. */
  lemma TrimKeepsNoneIn(s: string, quotes: set<char>)
    requires NoneIn(s, quotes)
    ensures NoneIn(Trim(s), quotes)
  {
    var r := Trim(s);
    var j: nat :| TrimsTo(s, j, r);
    forall i | 0 <= i < |r|
      ensures r[i] !in quotes
    {
      assert r[i] == s[j + i];
    }
  }

  /** Lower-casing maps no character into `quotes` unless it was already there or a capital. */
  lemma LowerKeepsNoneIn(s: string, quotes: set<char>)
    requires NoneIn(s, quotes)
    requires forall c :: c in quotes ==> !('a' <= c <= 'z')
    ensures NoneIn(Lower(s), quotes)
  {
  }

  /** `email.replace(quotes, "").trim().toLowerCase()`. */
  function CleanEmail(email: string, quotes: set<char>): (key: string)
    requires forall c :: c in quotes ==> !('a' <= c <= 'z')
    ensures NoneIn(key, quotes)
    ensures forall i :: 0 <= i < |key| ==> !IsUpper(key[i])
    ensures NoOuterSpace(key)
  {
    var stripped := Strip(email, quotes);
    var trimmed := Trim(stripped);
    TrimKeepsNoneIn(stripped, quotes);
    LowerKeepsNoneIn(trimmed, quotes);
    LowerKeepsNoOuterSpace(trimmed);
    Lower(trimmed)
  }

  /** The document key a token registration is stored under. */
  function RegistrationKey(email: string): (key: string)
    ensures forall i :: 0 <= i < |key| ==> key[i] != '"'
    ensures forall i :: 0 <= i < |key| ==> !IsUpper(key[i])
    ensures NoOuterSpace(key)
  {
    CleanEmail(email, RegistrationQuotes)
  }

  /** The document key device identifiers are linked under. */
  function LinkKey(email: string): (key: string)
    ensures forall i :: 0 <= i < |key| ==> key[i] != '"' && key[i] != '\''
    ensures forall i :: 0 <= i < |key| ==> !IsUpper(key[i])
    ensures NoOuterSpace(key)
  {
    CleanEmail(email, LinkQuotes)
  }

  /** Cleaning an already clean e-mail returns it unchanged. */
  lemma CleanEmailOfClean(email: string, quotes: set<char>)
    requires forall c :: c in quotes ==> !('a' <= c <= 'z')
    requires NoneIn(email, quotes)
    requires forall i :: 0 <= i < |email| ==> !IsUpper(email[i])
    requires NoOuterSpace(email)
    ensures CleanEmail(email, quotes) == email
  {
    FilterKeepsAll(email, Keeps(quotes));
    assert Strip(email, quotes) == email;
    TrimOfTrimmed(email);
    LowerOfLower(email);
  }

  /** Normalising a registration key a second time changes nothing. */
  lemma RegistrationKeyIdempotent(email: string)
    ensures RegistrationKey(RegistrationKey(email)) == RegistrationKey(email)
  {
    CleanEmailOfClean(RegistrationKey(email), RegistrationQuotes);
  }

  /** Normalising a link key a second time changes nothing. */
  lemma LinkKeyIdempotent(email: string)
    ensures LinkKey(LinkKey(email)) == LinkKey(email)
  {
    CleanEmailOfClean(LinkKey(email), LinkQuotes);
  }

  /** Trimming removes white space only: every other character survives it. */
  lemma TrimKeepsVisible(s: string, c: char)
    requires c in s && !IsSpace(c)
    ensures c in Trim(s)
  {
    TrimStartKeepsVisible(s, c);
    TrimEndKeepsVisible(TrimStart(s), c);
  }

  lemma {:induction false} TrimStartKeepsVisible(s: string, c: char)
    requires c in s && !IsSpace(c)
    ensures c in TrimStart(s)
    decreases |s|
  {
    if IsSpace(s[0]) {
      assert s == [s[0]] + s[1..];
      TrimStartKeepsVisible(s[1..], c);
    }
  }

  lemma {:induction false} TrimEndKeepsVisible(s: string, c: char)
    requires c in s && !IsSpace(c)
    ensures c in TrimEnd(s)
    decreases |s|
  {
    if IsSpace(s[|s| - 1]) {
      assert s == s[..|s| - 1] + [s[|s| - 1]];
      TrimEndKeepsVisible(s[..|s| - 1], c);
    }
  }

  /**
   * The two normalisations disagree on any address holding an apostrophe:
   * registration keeps it and linking removes it, so the two writes for the
   * same user land in different documents.
   */
  lemma KeysDivergeOnApostrophe(email: string)
    requires '\'' in email
    ensures '\'' in RegistrationKey(email)
    ensures '\'' !in LinkKey(email)
    ensures RegistrationKey(email) != LinkKey(email)
  {
    var stripped := Strip(email, RegistrationQuotes);
    assert multiset(stripped)['\''] == multiset(email)['\''];
    TrimKeepsVisible(stripped, '\'');
    var trimmed := Trim(stripped);
    var k :| 0 <= k < |trimmed| && trimmed[k] == '\'';
    assert Lower(trimmed)[k] == '\'';
  }
}
