/**
  The leak matcher: is a piece of public text evidence that an access point leaked, and which
  credential does it give away? SHA-256 is an arbitrary function giving at least 12 characters.
 */
module Matcher {
  import opened Common
  import opened Strings
  import LeakDatabase

  const TOKEN_LENGTH: nat := 48

  datatype TokenInfo = TokenInfo(id: nat, hash: string)
  datatype AccessPoint = AccessPoint(id: nat, stream: nat, path: string, isPrivate: bool, tokens: seq<TokenInfo>)

  predicate IsHex(c: char) {
    '0' <= c <= '9' || 'a' <= c <= 'f' || 'A' <= c <= 'F'
  }

  function LowerChar(c: char): char {
    if 'A' <= c <= 'F' then c - 'A' + 'a' else c
  }

  function Lower(s: string): string {
    seq(|s|, i requires 0 <= i < |s| => LowerChar(s[i]))
  }

  function Anchor(ap: AccessPoint, baseURL: string): string {
    TrimRight(baseURL, '/') + "/" + ap.path
  }

  /** At `i` the text has the anchor, a slash and 48 hex digits. */
  predicate IsCandidate(anchor: string, text: string, i: nat) {
    var start := i + |anchor| + 1;
    At(text, i, anchor + "/") && start + TOKEN_LENGTH <= |text| && forall k :: start <= k < start + TOKEN_LENGTH ==> IsHex(text[k])
  }

  function RawToken(anchor: string, text: string, i: nat): string
    requires IsCandidate(anchor, text, i)
  {
    var start := i + |anchor| + 1;
    text[start..start + TOKEN_LENGTH]
  }

  /** The leftmost candidate at or after `from`, as the regular expression finds it. */
  function CandidateFrom(anchor: string, text: string, from: nat): (r: Option<nat>)
    requires from <= |text|
    ensures r.Some? ==> from <= r.value && IsCandidate(anchor, text, r.value)
    ensures forall k :: from <= k <= |text| && (r.Some? ==> k < r.value) ==> !IsCandidate(anchor, text, k)
    decreases |text| - from
  {
    if IsCandidate(anchor, text, from) then Some(from)
    else if from == |text| then None
    else CandidateFrom(anchor, text, from + 1)
  }

  /** The first token row at or after `from` with this hash. */
  function TokenFrom(tokens: seq<TokenInfo>, hash: string, from: nat): (r: Option<nat>)
    requires from <= |tokens|
    ensures r.Some? ==> from <= r.value < |tokens| && tokens[r.value].hash == hash
    ensures forall k :: from <= k < |tokens| && (r.Some? ==> k < r.value) ==> tokens[k].hash != hash
    decreases |tokens| - from
  {
    if from == |tokens| then None
    else if tokens[from].hash == hash then Some(from)
    else TokenFrom(tokens, hash, from + 1)
  }

  function Redacted(anchor: string, digest: string): string
    requires |digest| >= 12
  {
    anchor + "/<redacted token, hash " + digest[..12] + ">"
  }

  function Classify(ap: AccessPoint, baseURL: string, text: string, sha256: string -> string): Option<LeakDatabase.Match>
    requires forall s :: |sha256(s)| >= 12
  {
    var anchor := Anchor(ap, baseURL);
    if !Contains(text, anchor) then None
    else if !ap.isPrivate then
      Some(LeakDatabase.Match(LeakDatabase.Confirmed, ap.id, ap.stream, None, anchor))
    else
      var i := CandidateFrom(anchor, text, 0);
      if i.None? then
        Some(LeakDatabase.Match(LeakDatabase.Mention, ap.id, ap.stream, None, anchor))
      else
        var digest := sha256(Lower(RawToken(anchor, text, i.value)));
        var k := TokenFrom(ap.tokens, digest, 0);
        if k.Some? then
          Some(LeakDatabase.Match(LeakDatabase.Confirmed, ap.id, ap.stream, Some(ap.tokens[k.value].id), Redacted(anchor, digest)))
        else
          Some(LeakDatabase.Match(LeakDatabase.Probable, ap.id, ap.stream, None, Redacted(anchor, digest)))
  }

  // ---- what the verdict means ----------------------------------------------

  ghost predicate Leftmost(anchor: string, text: string, i: nat) {
    IsCandidate(anchor, text, i) && forall k :: 0 <= k < i ==> !IsCandidate(anchor, text, k)
  }

  /** The text gives away a token of the access point at its leftmost candidate. */
  ghost predicate GivesAway(ap: AccessPoint, anchor: string, text: string, sha256: string -> string, id: nat) {
    exists i: nat, k :: Leftmost(anchor, text, i) && 0 <= k < |ap.tokens| && ap.tokens[k].id == id
                   && ap.tokens[k].hash == sha256(Lower(RawToken(anchor, text, i)))
  }

  lemma ClassifyMeaning(ap: AccessPoint, baseURL: string, text: string, sha256: string -> string)
    requires forall s :: |sha256(s)| >= 12
    ensures var anchor := Anchor(ap, baseURL);
            var r := Classify(ap, baseURL, text, sha256);
            && (r.None? <==> !Contains(text, anchor))
            && (r.Some? ==>
                  && r.value.point == ap.id && r.value.stream == ap.stream
                  && (r.value.confidence.Mention? <==> ap.isPrivate && forall i: nat :: !IsCandidate(anchor, text, i))
                  && (r.value.confidence.Confirmed? <==> !ap.isPrivate || exists id :: GivesAway(ap, anchor, text, sha256, id))
                  && (r.value.token.Some? ==> ap.isPrivate && GivesAway(ap, anchor, text, sha256, r.value.token.value))
                  && (r.value.confidence.Confirmed? && ap.isPrivate ==> r.value.token.Some?))
  {
    var anchor := Anchor(ap, baseURL);
    if Contains(text, anchor) && ap.isPrivate {
      var i := CandidateFrom(anchor, text, 0);
      if i.Some? {
        assert Leftmost(anchor, text, i.value);
        assert forall j: nat :: Leftmost(anchor, text, j) ==> j == i.value;
        var digest := sha256(Lower(RawToken(anchor, text, i.value)));
        var k := TokenFrom(ap.tokens, digest, 0);
        if k.Some? {
          assert GivesAway(ap, anchor, text, sha256, ap.tokens[k.value].id);
        }
      } else {
        assert forall j: nat :: IsCandidate(anchor, text, j) ==> j <= |text|;
      }
    }
  }

  /** What is stored for a text: the address, and for a private point the redacted token, if there is one. */
  lemma StoredValueIs(ap: AccessPoint, baseURL: string, text: string, sha256: string -> string)
    requires forall s :: |sha256(s)| >= 12
    requires Classify(ap, baseURL, text, sha256).Some?
    ensures var anchor, m := Anchor(ap, baseURL), Classify(ap, baseURL, text, sha256).value;
            && (!ap.isPrivate ==> m.matched == anchor)
            && (ap.isPrivate && (forall i: nat :: !IsCandidate(anchor, text, i)) ==> m.matched == anchor)
            && (forall i: nat :: ap.isPrivate && Leftmost(anchor, text, i) ==>
                  m.matched == anchor + "/<redacted token, hash " + sha256(Lower(RawToken(anchor, text, i)))[..12] + ">")
  {
    var anchor := Anchor(ap, baseURL);
    var i := CandidateFrom(anchor, text, 0);
    if i.Some? {
      assert Leftmost(anchor, text, i.value);
      assert forall j: nat :: Leftmost(anchor, text, j) ==> j == i.value;
    } else {
      assert forall j: nat :: IsCandidate(anchor, text, j) ==> j <= |text|;
    }
  }

  predicate HexDigit(c: char) {
    c in "0123456789abcdefABCDEF"
  }

  lemma HexIsListed(c: char)
    ensures IsHex(c) <==> HexDigit(c)
  {
    var digits := "0123456789abcdefABCDEF";
    if '0' <= c <= '9' {
      assert digits[c as int - '0' as int] == c;
    } else if 'a' <= c <= 'f' {
      assert digits[10 + c as int - 'a' as int] == c;
    } else if 'A' <= c <= 'F' {
      assert digits[16 + c as int - 'A' as int] == c;
    }
  }

  /** The point's address followed by a slash and 48 hexadecimal digits. */
  function WithToken(baseURL: string, path: string, token: string): string {
    TrimRight(baseURL, '/') + "/" + path + "/" + token
  }

  lemma TokenIsCandidate(anchor: string, before: string, token: string, after: string)
    requires |token| == 48 && forall k :: 0 <= k < 48 ==> HexDigit(token[k])
    ensures var text := before + (anchor + "/" + token) + after;
            IsCandidate(anchor, text, |before|) && RawToken(anchor, text, |before|) == token && Contains(text, anchor)
  {
    var text := before + (anchor + "/" + token) + after;
    forall k | 0 <= k < 48 ensures IsHex(token[k]) {
      HexIsListed(token[k]);
    }
    var at := |before|;
    assert text[at..at + |anchor + "/"|] == anchor + "/";
    assert text[at..at + |anchor|] == anchor && At(text, at, anchor);
    assert text[at + |anchor| + 1..at + |anchor| + 1 + 48] == token;
    assert forall k :: 0 <= k < 48 ==> text[at + |anchor| + 1 + k] == token[k];
  }

  /** Somewhere in the text, at `i`, stand the address, a slash and 48 hexadecimal digits. */
  ghost predicate TokenAt(anchor: string, text: string, i: nat) {
    exists token :: |token| == 48 && (forall k :: 0 <= k < 48 ==> HexDigit(token[k])) && At(text, i, anchor + "/" + token)
  }

  lemma CandidatesAreExactly(anchor: string, text: string, i: nat)
    ensures IsCandidate(anchor, text, i) <==> TokenAt(anchor, text, i)
  {
    var start := i + |anchor| + 1;
    if IsCandidate(anchor, text, i) {
      var token := text[start..start + 48];
      forall k | 0 <= k < 48 ensures HexDigit(token[k]) {
        HexIsListed(text[start + k]);
      }
      assert text[i..i + |anchor + "/" + token|] == text[i..i + |anchor + "/"|] + token;
    }
    if TokenAt(anchor, text, i) {
      var token :| |token| == 48 && (forall k :: 0 <= k < 48 ==> HexDigit(token[k])) && At(text, i, anchor + "/" + token);
      var found := text[i..i + |anchor + "/" + token|];
      assert text[i..i + |anchor + "/"|] == found[..|anchor + "/"|] == anchor + "/";
      forall k | start <= k < start + 48 ensures IsHex(text[k]) {
        assert text[k] == found[k - i] == token[k - start];
        HexIsListed(token[k - start]);
      }
    }
  }

  /**
    A text in which the first token after the address of a private point is `token`: it confirms the
    leak of the token row with that hash, if there is one, and is a probable leak otherwise.
   */
  lemma TextWithTokenIs(ap: AccessPoint, baseURL: string, before: string, token: string, after: string, sha256: string -> string)
    requires (forall s :: |sha256(s)| >= 12) && ap.isPrivate
    requires |token| == 48 && forall k :: 0 <= k < 48 ==> HexDigit(token[k])
    requires var text := before + WithToken(baseURL, ap.path, token) + after;
             forall i: nat :: i < |before| ==> !TokenAt(Anchor(ap, baseURL), text, i)
    ensures var r := Classify(ap, baseURL, before + WithToken(baseURL, ap.path, token) + after, sha256);
            && r.Some?
            && if exists k :: 0 <= k < |ap.tokens| && ap.tokens[k].hash == sha256(Lower(token))
               then r.value.confidence.Confirmed? && r.value.token.Some?
                    && exists k :: 0 <= k < |ap.tokens| && ap.tokens[k].hash == sha256(Lower(token)) && ap.tokens[k].id == r.value.token.value
               else r.value.confidence.Probable? && r.value.token.None?
  {
    var anchor := Anchor(ap, baseURL);
    var text := before + (anchor + "/" + token) + after;
    assert before + WithToken(baseURL, ap.path, token) + after == text;
    TokenIsCandidate(anchor, before, token, after);
    forall i: nat | i < |before| ensures !IsCandidate(anchor, text, i) {
      CandidatesAreExactly(anchor, text, i);
    }
    assert CandidateFrom(anchor, text, 0) == Some(|before|);
  }

  lemma LowerDigitIsListed(c: char)
    requires '0' <= c <= '9' || 'a' <= c <= 'f'
    ensures c in "0123456789abcdef"
  {
    var digits := "0123456789abcdef";
    if '0' <= c <= '9' {
      assert digits[c as int - '0' as int] == c;
    } else {
      assert digits[10 + c as int - 'a' as int] == c;
    }
  }

  /** Upper case digits are hashed as lower case ones. */
  lemma LowerIs(token: string, k: nat)
    requires k < |token| && HexDigit(token[k])
    ensures |Lower(token)| == |token| && Lower(token)[k] in "0123456789abcdef"
    ensures token[k] in "0123456789abcdef" ==> Lower(token)[k] == token[k]
    ensures token[k] in "ABCDEF" ==> Lower(token)[k] as int == token[k] as int + 32
  {
    HexIsListed(token[k]);
    LowerDigitIsListed(Lower(token)[k]);
  }

  /**
    A confirmed match names one credential of this very access point: the token given away, or
    the access point itself when its address alone is the credential.
   */
  lemma ConfirmedNamesOneCredential(ap: AccessPoint, baseURL: string, text: string, sha256: string -> string)
    requires forall s :: |sha256(s)| >= 12
    requires Classify(ap, baseURL, text, sha256).Some? && Classify(ap, baseURL, text, sha256).value.confidence.Confirmed?
    ensures var target := LeakDatabase.TargetOf(Classify(ap, baseURL, text, sha256).value);
            if ap.isPrivate then target.TokenTarget? && GivesAway(ap, Anchor(ap, baseURL), text, sha256, target.id)
            else target == LeakDatabase.PointTarget(ap.id)
  {
    ClassifyMeaning(ap, baseURL, text, sha256);
  }

  /** What is stored never contains a raw token that is not already part of the public address. */
  lemma StoredValueHidesTheToken(ap: AccessPoint, baseURL: string, text: string, sha256: string -> string, token: string)
    requires forall s :: |sha256(s)| >= 12
    requires Classify(ap, baseURL, text, sha256).Some?
    requires |token| == TOKEN_LENGTH && forall k :: 0 <= k < TOKEN_LENGTH ==> IsHex(token[k])
    requires Contains(Classify(ap, baseURL, text, sha256).value.matched, token)
    ensures Contains(Anchor(ap, baseURL), token)
  {
    var anchor := Anchor(ap, baseURL);
    var stored := Classify(ap, baseURL, text, sha256).value.matched;
    var i :| 0 <= i <= |stored| && At(stored, i, token);
    if stored != anchor {
      var end := i + TOKEN_LENGTH;
      assert |stored| <= |anchor| + 1 + 23 + 12 + 1;
      assert stored[|anchor|] == '/';
      forall k | i <= k < end ensures IsHex(stored[k]) {
        assert stored[k] == token[k - i];
      }
      assert end <= |anchor|;
      assert anchor[i..end] == stored[i..end];
    }
    assert At(anchor, i, token);
  }
}
