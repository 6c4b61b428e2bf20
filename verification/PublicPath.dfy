/**
  The admin's check of a public path, and what the gateway's router may rely on because of it.
 */
module PublicPath {
  import opened Common
  import opened Strings
  import opened Playlist
  import opened Routing

  datatype Problem =
    | EmptyOrSlashed
    | BadSegment(segment: string)
    | ReservedSegment
    | ReservedRoot

  predicate WordChar(c: char) {
    'a' <= c <= 'z' || 'A' <= c <= 'Z' || '0' <= c <= '9' || c == '_' || c == '-'
  }

  predicate Word(s: string) {
    s != "" && forall c :: c in s ==> WordChar(c)
  }

  /** The segment pattern; `$` also matches before a newline that ends the subject. */
  predicate MatchesSegment(seg: string) {
    Word(seg) || (seg != "" && seg[|seg| - 1] == '\n' && Word(seg[..|seg| - 1]))
  }

  function SegmentProblem(seg: string, index: nat): Option<Problem> {
    if seg == "" || !MatchesSegment(seg) then Some(BadSegment(seg))
    else if seg == "r" || seg == "R" then Some(ReservedSegment)
    else if index == 0 && seg == "_sv" then Some(ReservedRoot)
    else None
  }

  /** sv_validate_public_path: the first problem, in the order of the segments. */
  method ValidatePublicPath(path: string) returns (problem: Option<Problem>)
    ensures problem.None? <==> Accepted(path)
    ensures problem == Some(EmptyOrSlashed) <==> path == "" || path[0] == '/' || path[|path| - 1] == '/'
    ensures problem.Some? && problem != Some(EmptyOrSlashed) ==>
              exists i: nat :: i < |Split(path, '/')| && problem == SegmentProblem(Split(path, '/')[i], i)
                               && forall k: nat :: k < i ==> SegmentProblem(Split(path, '/')[k], k).None?
  {
    if path == "" || path[0] == '/' || path[|path| - 1] == '/' {
      return Some(EmptyOrSlashed);
    }
    var segments := Split(path, '/');
    for i := 0 to |segments|
      invariant forall k: nat :: k < i ==> SegmentProblem(segments[k], k).None?
    {
      var seg := segments[i];
      if seg == "" || !MatchesSegment(seg) {
        return Some(BadSegment(seg));
      }
      if seg == "r" || seg == "R" {
        return Some(ReservedSegment);
      }
      if i == 0 && seg == "_sv" {
        return Some(ReservedRoot);
      }
    }
    return None;
  }

  predicate Accepted(path: string) {
    && path != "" && path[0] != '/' && path[|path| - 1] != '/'
    && forall i :: 0 <= i < |Split(path, '/')| ==> SegmentProblem(Split(path, '/')[i], i).None?
  }

  /** Tokens that stand as one plain path segment. */
  predicate GoodToken(token: string) {
    token != "" && token != "r" && '/' !in token && '.' !in token && PlainText(token)
  }

  // ---- which paths are accepted ----------------------------------------------

  /** The characters the check's own message names. */
  predicate Listed(c: char) {
    c in "abcdefghijklmnopqrstuvwxyz" || c in "ABCDEFGHIJKLMNOPQRSTUVWXYZ" || c in "0123456789" || c == '_' || c == '-'
  }

  lemma LowerAreListed(c: char)
    ensures 'a' <= c <= 'z' <==> c in "abcdefghijklmnopqrstuvwxyz"
  {
    var letters := "abcdefghijklmnopqrstuvwxyz";
    if 'a' <= c <= 'z' {
      assert letters[c as int - 'a' as int] == c;
    }
  }

  lemma UpperAreListed(c: char)
    ensures 'A' <= c <= 'Z' <==> c in "ABCDEFGHIJKLMNOPQRSTUVWXYZ"
  {
    var letters := "ABCDEFGHIJKLMNOPQRSTUVWXYZ";
    if 'A' <= c <= 'Z' {
      assert letters[c as int - 'A' as int] == c;
    }
  }

  lemma WordCharsAreListed(c: char)
    ensures WordChar(c) <==> Listed(c)
  {
    LowerAreListed(c);
    UpperAreListed(c);
    var digits := "0123456789";
    if '0' <= c <= '9' {
      assert digits[c as int - '0' as int] == c;
    }
  }

  /** A segment of listed characters, at least one, and possibly a newline at its end. */
  predicate Spelled(seg: string) {
    && seg != "" && Listed(seg[0])
    && (forall k :: 0 <= k < |seg| - 1 ==> Listed(seg[k]))
    && (Listed(seg[|seg| - 1]) || seg[|seg| - 1] == '\n')
  }

  lemma SpelledExactly(seg: string)
    ensures seg != "" && MatchesSegment(seg) <==> Spelled(seg)
  {
    forall k | 0 <= k < |seg| ensures WordChar(seg[k]) <==> Listed(seg[k]) {
      WordCharsAreListed(seg[k]);
    }
    NewlineIsNotListed();
    WordByIndex(seg);
    if seg != "" {
      WordByIndex(seg[..|seg| - 1]);
    }
  }

  lemma NewlineIsNotListed()
    ensures !Listed('\n')
  {
    WordCharsAreListed('\n');
  }

  lemma WordByIndex(s: string)
    ensures Word(s) <==> s != "" && forall k :: 0 <= k < |s| ==> WordChar(s[k])
  {
  }

  /** The segment may stand at place `i` of a path. */
  predicate MayStand(seg: string, i: nat) {
    Spelled(seg) && seg != "r" && seg != "R" && (i == 0 ==> seg != "_sv")
  }

  lemma StandsExactly(seg: string, i: nat)
    ensures SegmentProblem(seg, i).None? <==> MayStand(seg, i)
  {
    SpelledExactly(seg);
  }

  /**
    A path is accepted exactly if no slash begins or ends it and each of its segments is spelled in
    the listed characters, up to a newline at its end, none is "r" or "R" and the first is not "_sv".
   */
  lemma PathIsAcceptedExactly(path: string)
    ensures Accepted(path) <==>
              && path != "" && path[0] != '/' && path[|path| - 1] != '/'
              && forall i :: 0 <= i < |Split(path, '/')| ==> MayStand(Split(path, '/')[i], i)
  {
    var segments := Split(path, '/');
    if Accepted(path) {
      forall i | 0 <= i < |segments| ensures MayStand(segments[i], i) {
        StandsExactly(segments[i], i);
      }
    } else if path != "" && path[0] != '/' && path[|path| - 1] != '/' {
      var i :| 0 <= i < |segments| && SegmentProblem(segments[i], i).Some?;
      StandsExactly(segments[i], i);
      assert !MayStand(Split(path, '/')[i], i);
    }
  }

  // ---- segments and characters ---------------------------------------------

  predicate PathChar(c: char) {
    WordChar(c) || c == '/' || c == '\n'
  }

  lemma {:induction false} CharsOfSegments(s: string)
    requires forall i :: 0 <= i < |Split(s, '/')| ==> forall c :: c in Split(s, '/')[i] ==> PathChar(c)
    ensures forall c :: c in s ==> PathChar(c)
    decreases |s|
  {
    if s != "" {
      var parts, rest := Split(s, '/'), Split(s[1..], '/');
      if s[0] == '/' {
        assert forall i :: 0 <= i < |rest| ==> rest[i] == parts[i + 1];
      } else {
        assert parts[0] == [s[0]] + rest[0] && s[0] in parts[0];
        assert forall c :: c in rest[0] ==> c in parts[0];
        assert forall i :: 1 <= i < |rest| ==> rest[i] == parts[i];
      }
      CharsOfSegments(s[1..]);
      assert s == [s[0]] + s[1..];
    }
  }

  lemma SegmentChars(seg: string)
    requires MatchesSegment(seg)
    ensures forall c :: c in seg ==> PathChar(c)
  {
    if !Word(seg) {
      assert seg == seg[..|seg| - 1] + ['\n'];
    }
  }

  lemma AcceptedChars(path: string)
    requires Accepted(path)
    ensures forall c :: c in path ==> PathChar(c)
  {
    var parts := Split(path, '/');
    forall i | 0 <= i < |parts| ensures forall c :: c in parts[i] ==> PathChar(c) {
      assert SegmentProblem(parts[i], i).None?;
      SegmentChars(parts[i]);
    }
    CharsOfSegments(path);
  }

  /** A marker in the path is a segment "r" that is not the first. */
  lemma MarkerIsSegment(p: string, k: nat)
    requires At(p + "/", k, MARKER)
    ensures exists i :: 1 <= i < |Split(p, '/')| && Split(p, '/')[i] == "r"
  {
    MarkerChars(p + "/", k);
    var a := p[..k];
    if k + 2 == |p| {
      assert p == a + ['/'] + "r";
      SplitOfConcat(a, '/', "r");
      SplitOfPlain("r", '/');
    } else {
      var rest := p[k + 3..];
      assert p == a + ['/'] + ("r" + ['/'] + rest);
      SplitOfConcat(a, '/', "r" + ['/'] + rest);
      SplitOfJoinedPair("r", '/', rest);
    }
    assert Split(p, '/')[|Split(a, '/')|] == "r";
  }

  lemma ReservedRootSegment(s: string)
    requires Reserved(s)
    ensures Split(s, '/')[0] == "_sv"
  {
    if s == "_sv" {
      SplitOfPlain(s, '/');
    } else {
      assert s == s[0..4] + s[4..];
      assert s == "_sv" + ['/'] + s[4..];
      SplitOfJoinedPair("_sv", '/', s[4..]);
    }
  }

  lemma SegmentsMakeProper(prefix: string)
    requires prefix != "" && PlainText(prefix)
    requires Split(prefix, '/')[0] != "_sv"
    requires forall i :: 1 <= i < |Split(prefix, '/')| ==> Split(prefix, '/')[i] != "r"
    ensures ProperPrefix(prefix)
  {
    if Contains(prefix + "/", MARKER) {
      var k :| 0 <= k <= |prefix + "/"| && At(prefix + "/", k, MARKER);
      MarkerIsSegment(prefix, k);
    }
    if Reserved(prefix) {
      ReservedRootSegment(prefix);
    }
  }

  // ---- what acceptance promises the router ---------------------------------

  /** Every accepted path is a prefix under which links come back, ... */
  lemma AcceptedIsProper(path: string)
    requires Accepted(path)
    ensures ProperPrefix(path) && '.' !in path
  {
    AcceptedChars(path);
    assert forall i :: 0 <= i < |Split(path, '/')| ==> SegmentProblem(Split(path, '/')[i], i).None?;
    SegmentsMakeProper(path);
  }

  /** ... and so is an accepted path followed by a token. */
  lemma AcceptedWithTokenIsProper(path: string, token: string)
    requires Accepted(path) && GoodToken(token)
    ensures ProperPrefix(path + "/" + token) && '.' !in path + "/" + token
  {
    AcceptedChars(path);
    SplitOfConcat(path, '/', token);
    SplitOfPlain(token, '/');
    assert forall i :: 0 <= i < |Split(path, '/')| ==> SegmentProblem(Split(path, '/')[i], i).None?;
    assert path + "/" + token == path + ['/'] + token;
    SegmentsMakeProper(path + "/" + token);
  }

  /** A public access point is reached by its path alone, and by no other. */
  lemma PublicPrefixResolves(store: Store, prefix: string, ap: AccessPoint)
    requires !ap.isPrivate
    ensures ResolvePrefix(store, prefix) == Found(ap, "") <==> prefix in store && store[prefix] == ap
    ensures ResolvePrefix(store, prefix).Found? && ResolvePrefix(store, prefix).ap == ap ==> ResolvePrefix(store, prefix).token == ""
  {
  }

  /** A private path and its token lead to the access point unless a public path is stored there. */
  lemma PrivatePrefixResolves(store: Store, path: string, token: string)
    requires path != "" && path in store && store[path].isPrivate && token != "" && '/' !in token
    ensures ResolvePrefix(store, path + "/" + token) == Found(store[path], token)
            <==> !(path + "/" + token in store && !store[path + "/" + token].isPrivate)
  {
    var prefix := path + "/" + token;
    assert prefix[|path| + 1..] == token && prefix[..|path|] == path;
    LastIndexIs(prefix, '/', |path|);
  }

  /** Only a private path followed by a slash and a token leads to a private access point. */
  lemma PrivateNeedsItsToken(store: Store, prefix: string)
    requires ResolvePrefix(store, prefix).Found? && ResolvePrefix(store, prefix).ap.isPrivate
    ensures var r := ResolvePrefix(store, prefix);
            r.token != "" && '/' !in r.token
            && exists path :: path in store && store[path] == r.ap && prefix == path + "/" + r.token
  {
    var cut := LastIndex(prefix, '/').value;
    var path, token := prefix[..cut], prefix[cut + 1..];
    assert prefix == path + "/" + token;
  }

  // ---- a newline the check lets through ------------------------------------

  lemma OneLineExactly(s: string, sep: char)
    ensures |Split(s, sep)| == 1 <==> sep !in s
  {
    JoinSplit(s, sep);
    if sep !in s {
      SplitOfPlain(s, sep);
    }
  }

  /** A reference is one line of a playlist exactly when prefix and extension hold no newline. */
  lemma ReferenceIsOneLine(codec: Codec, prefix: string, id: nat, target: Url)
    requires Lawful(codec) && EncodeRef(codec, prefix, id)(target).Some?
    ensures |Split(EncodeRef(codec, prefix, id)(target).value, '\n')| == 1
            <==> '\n' !in prefix && '\n' !in KeptExt(target.path)
  {
    var blob := codec.encode(target.text, id).value;
    Opened(codec, target.text, id);
    OneLineExactly(Link(prefix, blob, KeptExt(target.path)), '\n');
  }

  /** The check accepts a newline at the end of a segment. */
  lemma NewlineIsAccepted(word: string)
    requires Word(word)
    ensures Accepted(word + "\n")
  {
    var path := word + "\n";
    assert path[..|path| - 1] == word && word[0] in word;
    SplitOfPlain(path, '/');
  }
}
