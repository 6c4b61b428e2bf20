/**
  The gateway's links as a printer and a parser. encodeRef prints the references of a rewritten
  playlist; a player follows them, and ServeHTTP with resolvePrefix parses the path it asks for.
  Strings are byte strings; sealing and base64url are an arbitrary lawful codec.
 */
module Routing {
  import opened Common
  import opened Strings
  import opened Playlist

  datatype AccessPoint = AccessPoint(id: nat, isPrivate: bool)

  /** Access points by public path. */
  type Store = map<string, AccessPoint>

  datatype Resolved = NotFound | Found(ap: AccessPoint, token: string)

  /** What the store says of an access point and token when the request is made. */
  datatype Verdict = Admit | Unknown | Replaced

  type Check = (AccessPoint, string) -> Verdict

  /** Sealing of a target for an access point, and its opening. */
  datatype Codec = Codec(encode: (string, nat) -> Option<string>, decode: (string, nat) -> Option<string>)

  const MARKER: string := "/r/"

  predicate PlainText(s: string) {
    '%' !in s && '?' !in s && '#' !in s
  }

  predicate BlobText(s: string) {
    PlainText(s) && '.' !in s && '/' !in s && QUOTE !in s && '\n' !in s && '\r' !in s
  }

  /** What a codec promises: opening undoes sealing, blobs are base64url, and no blob holds a dot. */
  ghost predicate Lawful(codec: Codec) {
    && (forall t, id :: codec.encode(t, id).Some? ==>
          BlobText(codec.encode(t, id).value) && codec.decode(codec.encode(t, id).value, id) == Some(t))
    && (forall b, id :: codec.decode(b, id).Some? ==> '.' !in b)
  }

  // ---- printing ------------------------------------------------------------

  /** path.Ext: the last dot of the last path element, and what follows it. */
  function Ext(path: string): (r: string)
    ensures r == "" || (r[0] == '.' && '.' !in r[1..] && '/' !in r)
    ensures |r| <= |path| && path[|path| - |r|..] == r
  {
    ExtFrom(path, |path|)
  }

  function ExtFrom(path: string, i: nat): (r: string)
    requires i <= |path| && '.' !in path[i..] && '/' !in path[i..]
    ensures r == "" || (r[0] == '.' && '.' !in r[1..] && '/' !in r)
    ensures |r| <= |path| && path[|path| - |r|..] == r
  {
    if i == 0 || path[i - 1] == '/' then ""
    else if path[i - 1] == '.' then
      assert path[i - 1..][1..] == path[i..] && path[i - 1..] == ['.'] + path[i..];
      path[i - 1..]
    else
      assert path[i - 1..] == [path[i - 1]] + path[i..];
      ExtFrom(path, i - 1)
  }

  function KeptExt(path: string): (r: string)
    ensures r == "" || (r[0] == '.' && '.' !in r[1..] && '/' !in r)
  {
    if |Ext(path)| > 8 then "" else Ext(path)
  }

  /** encodeRef: the printer handed to the playlist rewriter for one request. */
  function EncodeRef(codec: Codec, prefix: string, id: nat): Encoder {
    (target: Url) =>
      var blob := codec.encode(target.text, id);
      if blob.None? then None else Some("/" + prefix + MARKER + blob.value + KeptExt(target.path))
  }

  // ---- what the player asks for --------------------------------------------

  function CutQuery(s: string): string {
    if s == "" || s[0] == '?' || s[0] == '#' then "" else [s[0]] + CutQuery(s[1..])
  }

  function HexValue(c: char): Option<nat> {
    if '0' <= c <= '9' then Some(c as nat - '0' as nat)
    else if 'a' <= c <= 'f' then Some(c as nat - 'a' as nat + 10)
    else if 'A' <= c <= 'F' then Some(c as nat - 'A' as nat + 10)
    else None
  }

  /** Percent-decoding of a request path; None for a malformed escape. */
  function Unescape(s: string): Option<string>
    decreases |s|
  {
    if s == "" then Some("")
    else if s[0] == '%' then
      if |s| < 3 || HexValue(s[1]).None? || HexValue(s[2]).None? then None else
      var rest := Unescape(s[3..]);
      var code := HexValue(s[1]).value * 16 + HexValue(s[2]).value;
      if rest.None? || code > 255 then None else Some([code as char] + rest.value)
    else
      var rest := Unescape(s[1..]);
      if rest.None? then None else Some([s[0]] + rest.value)
  }

  // ---- parsing -------------------------------------------------------------

  /** resolvePrefix: a public path, or a private public path followed by its token. */
  function ResolvePrefix(store: Store, prefix: string): Resolved {
    if prefix in store && !store[prefix].isPrivate then Found(store[prefix], "") else
    var cut := LastIndex(prefix, '/');
    if cut.None? || cut.value == 0 || cut.value == |prefix| - 1 then NotFound else
    var base, token := prefix[..cut.value], prefix[cut.value + 1..];
    if base !in store || !store[base].isPrivate then NotFound else Found(store[base], token)
  }

  function StripKnownExt(p: string): string {
    if HasSuffix(p, ".m3u8") then TrimSuffix(p, ".m3u8")
    else if HasSuffix(p, ".ts") then TrimSuffix(p, ".ts")
    else p
  }

  /** Cut at the first marker; without one the whole path is an entry link. */
  function SplitPath(reqPath: string): (string, string) {
    var at := Find(reqPath, MARKER, 0);
    if at.Some? then (reqPath[..at.value], reqPath[at.value + 1..]) else (StripKnownExt(reqPath), "")
  }

  function BlobOf(remainder: string): string {
    var blob := TrimPrefix(remainder, "r/");
    var dot := LastIndex(blob, '.');
    if dot.Some? then blob[..dot.value] else blob
  }

  datatype Route =
    | Malformed
    | NodeApi
    | Notice
    | Slate
    | Missing
    | Replacement(ap: AccessPoint, isEntry: bool)
    | Entry(ap: AccessPoint, token: string, prefix: string)
    | Resource(ap: AccessPoint, token: string, prefix: string, target: string)

  function Dispatch(store: Store, check: Check, codec: Codec, prefix: string, remainder: string): Route {
    match ResolvePrefix(store, prefix)
    case NotFound => Missing
    case Found(ap, token) =>
      match check(ap, token)
      case Unknown => Missing
      case Replaced => Replacement(ap, remainder == "")
      case Admit =>
        if remainder == "" then Entry(ap, token, prefix) else
        var target := codec.decode(BlobOf(remainder), ap.id);
        if target.None? then Missing else Resource(ap, token, prefix, target.value)
  }

  /** ServeHTTP for GET and HEAD, up to the choice of what is served. */
  function Serve(store: Store, check: Check, codec: Codec, path: string): Route {
    if HasPrefix(path, "/_sv/node/") then NodeApi else
    var reqPath := TrimPrefix(path, "/");
    if reqPath == "_sv/notice.png" then Notice
    else if Reserved(reqPath) then Slate
    else
      var (prefix, remainder) := SplitPath(reqPath);
      Dispatch(store, check, codec, prefix, remainder)
  }

  predicate Reserved(reqPath: string) {
    reqPath == "_sv" || HasPrefix(reqPath, "_sv/")
  }

  /** A player asks for a link it was given. */
  function Follow(store: Store, check: Check, codec: Codec, link: string): Route {
    var path := Unescape(CutQuery(link));
    if path.None? then Malformed else Serve(store, check, codec, path.value)
  }

  // ---- plain text passes through -------------------------------------------

  lemma {:induction false} CutKeepsPlain(a: string, b: string)
    requires PlainText(a)
    ensures CutQuery(a + b) == a + CutQuery(b)
    decreases |a|
  {
    if a == "" {
      assert a + b == b;
    } else {
      CutKeepsPlain(a[1..], b);
      assert (a + b)[1..] == a[1..] + b;
    }
  }

  function InFront(a: string, decoded: Option<string>): Option<string> {
    if decoded.None? then None else Some(a + decoded.value)
  }

  lemma InFrontTwice(a: string, c: char, decoded: Option<string>)
    ensures InFront([c], InFront(a, decoded)) == InFront([c] + a, decoded)
    ensures InFront("", decoded) == decoded
  {
    if decoded.Some? {
      assert [c] + (a + decoded.value) == [c] + a + decoded.value;
      assert "" + decoded.value == decoded.value;
    }
  }

  lemma UnescapeStep(c: char, rest: string)
    requires c != '%'
    ensures Unescape([c] + rest) == InFront([c], Unescape(rest))
  {
    assert ([c] + rest)[0] == c && ([c] + rest)[1..] == rest;
  }

  lemma {:induction false} UnescapeKeepsPlain(a: string, b: string)
    requires '%' !in a
    ensures Unescape(a + b) == InFront(a, Unescape(b))
    decreases |a|
  {
    if a == "" {
      assert a + b == b;
      InFrontTwice("", ' ', Unescape(b));
    } else {
      assert [a[0]] + a[1..] == a && [a[0]] + (a[1..] + b) == a + b;
      UnescapeStep(a[0], a[1..] + b);
      UnescapeKeepsPlain(a[1..], b);
      InFrontTwice(a[1..], a[0], Unescape(b));
    }
  }

  /** What an extension has become when the gateway sees it. */
  function SeenExt(ext: string): Option<string> {
    Unescape(CutQuery(ext))
  }

  lemma FollowedLink(store: Store, check: Check, codec: Codec, front: string, ext: string)
    requires PlainText(front)
    ensures Follow(store, check, codec, front + ext) ==
            if SeenExt(ext).None? then Malformed else Serve(store, check, codec, front + SeenExt(ext).value)
  {
    CutKeepsPlain(front, ext);
    UnescapeKeepsPlain(front, CutQuery(ext));
  }

  /** The dot that starts an extension is still there. */
  lemma SeenExtStarts(ext: string)
    requires ext == "" || ext[0] == '.'
    ensures SeenExt(ext).Some? ==> var seen := SeenExt(ext).value; seen == "" <==> ext == ""
    ensures SeenExt(ext).Some? && ext != "" ==> SeenExt(ext).value[0] == '.'
  {
  }

  // ---- proper prefixes -----------------------------------------------------

  /** Prefixes under which links come back: no marker in them, and not the slate's. */
  predicate ProperPrefix(prefix: string) {
    prefix != "" && PlainText(prefix) && !Contains(prefix + "/", MARKER) && !Reserved(prefix)
  }

  lemma ReservedChars(s: string)
    ensures Reserved(s) <==> |s| >= 3 && s[0] == '_' && s[1] == 's' && s[2] == 'v' && (|s| == 3 || s[3] == '/')
  {
    if |s| >= 4 {
      var root := s[0..4];
      assert root[0] == s[0] && root[1] == s[1] && root[2] == s[2] && root[3] == s[3];
      assert root == "_sv/" <==> root[0] == '_' && root[1] == 's' && root[2] == 'v' && root[3] == '/';
    }
  }

  lemma NotReserved(prefix: string, rest: string)
    requires !Reserved(prefix) && (rest == "" || rest[0] == '/' || rest[0] == '.')
    ensures !Reserved(prefix + rest)
  {
    ReservedChars(prefix);
    ReservedChars(prefix + rest);
  }

  lemma SpecialPathsAreReserved(path: string)
    requires path != "" && path[0] == '/' && !Reserved(path[1..])
    ensures !HasPrefix(path, "/_sv/node/") && TrimPrefix(path, "/") == path[1..] != "_sv/notice.png"
  {
    var reqPath := path[1..];
    ReservedChars(reqPath);
    ReservedChars("_sv/notice.png");
    PrefixChars(path, "/_sv/node/");
  }

  lemma MarkerChars(s: string, k: nat)
    ensures At(s, k, MARKER) <==> k + 3 <= |s| && s[k] == '/' && s[k + 1] == 'r' && s[k + 2] == '/'
  {
    if k + 3 <= |s| {
      var part := s[k..k + 3];
      assert part[0] == s[k] && part[1] == s[k + 1] && part[2] == s[k + 2];
      assert part == MARKER <==> part[0] == '/' && part[1] == 'r' && part[2] == '/';
    }
  }

  lemma NoMarkerAt(prefix: string, k: nat)
    requires !Contains(prefix + "/", MARKER)
    ensures !At(prefix + "/", k, MARKER)
  {
  }

  /** The marker printed after a proper prefix is the first one. */
  lemma MarkerIsFirst(prefix: string, rest: string)
    requires !Contains(prefix + "/", MARKER)
    ensures Find(prefix + MARKER + rest, MARKER, 0) == Some(|prefix|)
  {
    var s := prefix + MARKER + rest;
    forall k | 0 <= k < |prefix| ensures !At(s, k, MARKER) {
      NoMarkerAt(prefix, k);
      MarkerChars(prefix + "/", k);
      MarkerChars(s, k);
    }
    MarkerChars(s, |prefix|);
  }

  lemma NoMarkerInEntry(prefix: string, ext: string)
    requires !Contains(prefix + "/", MARKER) && '/' !in ext
    ensures Find(prefix + ext, MARKER, 0) == None
  {
    forall k | 0 <= k <= |prefix + ext| ensures !At(prefix + ext, k, MARKER) {
      NoMarkerAt(prefix, k);
      MarkerChars(prefix + "/", k);
      MarkerChars(prefix + ext, k);
    }
  }

  // ---- references come back ------------------------------------------------

  lemma BlobIsCutOut(blob: string, seen: string)
    requires BlobText(blob) && (seen == "" || seen[0] == '.')
    ensures seen == "" || '.' !in seen[1..] ==> BlobOf("r/" + blob + seen) == blob
    ensures seen != "" && '.' in seen[1..] ==> '.' in BlobOf("r/" + blob + seen)
  {
    var all := "r/" + blob + seen;
    var text := blob + seen;
    assert all[0..2] == "r/" && all[2..] == text;
    if seen != "" {
      assert text[|blob| + 1..] == seen[1..];
      if '.' in seen[1..] {
        var k: nat :| k < |seen[1..]| && seen[1..][k] == '.';
        LastIndexAtLeast(text, '.', |blob| + 1 + k);
        assert text[..LastIndex(text, '.').value][|blob|] == '.';
      } else {
        LastIndexIs(text, '.', |blob|);
        assert text[..|blob|] == blob;
      }
    }
  }

  lemma ReferencePathSplits(prefix: string, rest: string)
    requires ProperPrefix(prefix)
    ensures SplitPath(prefix + MARKER + rest) == (prefix, "r/" + rest)
    ensures !Reserved(prefix + MARKER + rest)
  {
    var reqPath := prefix + MARKER + rest;
    assert reqPath == prefix + (MARKER + rest);
    NotReserved(prefix, MARKER + rest);
    MarkerIsFirst(prefix, rest);
    assert reqPath[..|prefix|] == prefix && reqPath[|prefix| + 1..] == "r/" + rest;
  }

  lemma ServedPath(store: Store, check: Check, codec: Codec, reqPath: string)
    requires !Reserved(reqPath)
    ensures Serve(store, check, codec, "/" + reqPath) == Dispatch(store, check, codec, SplitPath(reqPath).0, SplitPath(reqPath).1)
  {
    var path := "/" + reqPath;
    assert path[1..] == reqPath;
    SpecialPathsAreReserved(path);
  }

  /** The extension, as the gateway sees it, still starts at the only dot. */
  predicate ExtSurvives(path: string) {
    var seen := SeenExt(KeptExt(path));
    seen.Some? && (seen.value == "" || '.' !in seen.value[1..])
  }

  function Link(prefix: string, blob: string, ext: string): string {
    "/" + prefix + MARKER + blob + ext
  }

  lemma PlainFront(prefix: string, blob: string)
    requires PlainText(prefix) && PlainText(blob)
    ensures PlainText("/" + prefix + MARKER + blob)
  {
  }

  lemma Regrouped(prefix: string, blob: string, seen: string)
    ensures "/" + prefix + MARKER + blob + seen == "/" + (prefix + MARKER + (blob + seen))
    ensures "r/" + (blob + seen) == "r/" + blob + seen
  {
  }

  lemma FollowedReference(store: Store, check: Check, codec: Codec, prefix: string, blob: string, ext: string)
    requires ProperPrefix(prefix) && BlobText(blob)
    ensures Follow(store, check, codec, Link(prefix, blob, ext)) ==
            if SeenExt(ext).None? then Malformed
            else Dispatch(store, check, codec, prefix, "r/" + blob + SeenExt(ext).value)
  {
    PlainFront(prefix, blob);
    FollowedLink(store, check, codec, "/" + prefix + MARKER + blob, ext);
    if SeenExt(ext).Some? {
      var seen := SeenExt(ext).value;
      ReferencePathSplits(prefix, blob + seen);
      Regrouped(prefix, blob, seen);
      ServedPath(store, check, codec, prefix + MARKER + (blob + seen));
    }
  }

  lemma Opened(codec: Codec, target: string, id: nat)
    requires Lawful(codec) && codec.encode(target, id).Some?
    ensures BlobText(codec.encode(target, id).value) && codec.decode(codec.encode(target, id).value, id) == Some(target)
  {
  }

  lemma Dotted(codec: Codec, blob: string, id: nat)
    requires Lawful(codec) && '.' in blob
    ensures codec.decode(blob, id).None?
  {
  }

  /**
    Following a reference leads back to the same access point, token, prefix and target, once the
    token and stream are checked again, exactly when the extension carries no escaped dot and no
    malformed escape.
   */
  lemma ReferenceComesBack(store: Store, check: Check, codec: Codec, prefix: string, target: Url, ap: AccessPoint, token: string)
    requires Lawful(codec) && ProperPrefix(prefix)
    requires ResolvePrefix(store, prefix) == Found(ap, token) && check(ap, token) == Admit
    requires EncodeRef(codec, prefix, ap.id)(target).Some?
    ensures Follow(store, check, codec, EncodeRef(codec, prefix, ap.id)(target).value) == Resource(ap, token, prefix, target.text)
            <==> ExtSurvives(target.path)
  {
    var blob, ext := codec.encode(target.text, ap.id).value, KeptExt(target.path);
    assert EncodeRef(codec, prefix, ap.id)(target).value == Link(prefix, blob, ext);
    Opened(codec, target.text, ap.id);
    FollowedReference(store, check, codec, prefix, blob, ext);
    SeenExtStarts(ext);
    if SeenExt(ext).Some? {
      BlobIsCutOut(blob, SeenExt(ext).value);
      if !ExtSurvives(target.path) {
        Dotted(codec, BlobOf("r/" + blob + SeenExt(ext).value), ap.id);
      }
    }
  }

  lemma EscapedDotIsSeen()
    ensures KeptExt("/seg" + ".a%2Eb") == ".a%2Eb" && SeenExt(".a%2Eb") == Some(".a.b") && !ExtSurvives("/seg" + ".a%2Eb")
  {
    EscapedDotIsKept();
    EscapedDotIsUnescaped();
  }

  lemma StillMissing(s: string, c: char, k: nat, i: nat)
    requires k <= i <= |s| && c !in s[k..]
    ensures c !in s[i..] && forall j :: i <= j < |s| ==> s[j] != c
  {
    assert forall j :: i <= j < |s| ==> s[j] == s[k..][j - k];
  }

  lemma {:induction false} ExtStartsAt(path: string, k: nat, i: nat)
    requires k < i <= |path| && path[k] == '.' && '.' !in path[k + 1..] && '/' !in path[k + 1..]
    ensures '.' !in path[i..] && '/' !in path[i..] && ExtFrom(path, i) == path[k..]
    decreases i
  {
    StillMissing(path, '.', k + 1, i);
    StillMissing(path, '/', k + 1, i);
    if i - 1 > k {
      ExtStartsAt(path, k, i - 1);
      StillMissing(path, '.', k + 1, i - 1);
      StillMissing(path, '/', k + 1, i - 1);
    }
  }

  /** The last dot of the last path element starts the extension, and up to seven characters after it are kept. */
  lemma ExtensionIsKeptExactly(base: string, ext: string)
    requires '.' !in ext && '/' !in ext
    ensures KeptExt(base + "." + ext) == if |ext| <= 7 then "." + ext else ""
  {
    var path := base + "." + ext;
    assert path[|base| + 1..] == ext && path[|base|..] == "." + ext;
    if ext == "" {
      assert ExtFrom(path, |path|) == path[|base|..];
    } else {
      ExtStartsAt(path, |base|, |path|);
    }
  }

  lemma {:induction false} NoDotFrom(path: string, k: nat, i: nat)
    requires k <= i <= |path| && '.' !in path[k..] && '/' !in path[k..] && (k == 0 || path[k - 1] == '/')
    ensures '.' !in path[i..] && '/' !in path[i..] && ExtFrom(path, i) == ""
    decreases i
  {
    StillMissing(path, '.', k, i);
    StillMissing(path, '/', k, i);
    if i > k {
      StillMissing(path, '.', k, i - 1);
      StillMissing(path, '/', k, i - 1);
      NoDotFrom(path, k, i - 1);
    }
  }

  /** A last path element without a dot has no extension. */
  lemma NoExtensionWithoutDot(dir: string, name: string)
    requires '.' !in name && '/' !in name
    ensures KeptExt(name) == "" && KeptExt(dir + "/" + name) == ""
  {
    var path := dir + "/" + name;
    assert path[|dir| + 1..] == name && name[0..] == name;
    NoDotFrom(path, |dir| + 1, |path|);
    NoDotFrom(name, 0, |name|);
  }

  lemma EscapedDotIsKept()
    ensures Ext("/seg" + ".a%2Eb") == ".a%2Eb"
  {
    var path := "/seg" + ".a%2Eb";
    assert path[5..] == "a%2Eb" && path[4..] == ".a%2Eb";
    ExtStartsAt(path, 4, |path|);
  }

  lemma {:induction false} CutNothing(s: string)
    requires '?' !in s && '#' !in s
    ensures CutQuery(s) == s
  {
    if s != "" {
      CutNothing(s[1..]);
    }
  }

  lemma DigitHasValue(c: char)
    requires '0' <= c <= '9' || 'a' <= c <= 'f' || 'A' <= c <= 'F'
    ensures var n := c as int; HexValue(c) == Some(if n <= 57 then n - 48 else if n <= 70 then n - 55 else n - 87)
  {
  }

  /** The digits whose value is `d`, in upper or lower case. */
  predicate IsDigitOf(c: char, d: nat) {
    d < 16 && if d < 10 then c as int == 48 + d else c as int == 55 + d || c as int == 87 + d
  }

  /** A percent sign and the two digits of a byte, in either case, are decoded to the byte. */
  lemma EscapeIsDecoded(h: char, l: char, byte: nat, rest: string)
    requires byte < 256 && IsDigitOf(h, byte / 16) && IsDigitOf(l, byte % 16) && Unescape(rest).Some?
    ensures Unescape(['%', h, l] + rest) == Some([byte as char] + Unescape(rest).value)
  {
    var s := ['%', h, l] + rest;
    DigitHasValue(h);
    DigitHasValue(l);
    assert s[0] == '%' && s[1] == h && s[2] == l && s[3..] == rest;
    assert byte / 16 * 16 + byte % 16 == byte;
  }

  lemma EscapeIsRead(rest: string)
    requires Unescape(rest).Some?
    ensures Unescape("%2E" + rest) == Some("." + Unescape(rest).value)
  {
    var s := "%2E" + rest;
    assert s[0] == '%' && s[1] == '2' && s[2] == 'E' && s[3..] == rest;
    assert HexValue('2') == Some(2) && HexValue('E') == Some(14) && 46 as char == '.';
  }

  lemma EscapedDotIsUnescaped()
    ensures SeenExt(".a%2Eb") == Some(".a.b") && '.' in ".a.b"[1..]
  {
    var ext := ".a%2Eb";
    CutNothing(ext);
    assert Unescape("b") == Some("b");
    EscapeIsRead("b");
    UnescapeKeepsPlain(".a", "%2E" + "b");
    assert ext == ".a" + ("%2E" + "b") && ".a" + ("." + "b") == ".a.b";
    assert ".a.b"[1..][1] == '.';
  }

  /** An extension with an escaped dot comes back with two dots, and the reference is not found again. */
  lemma EscapedDotLosesTheReference(store: Store, check: Check, codec: Codec, prefix: string, target: Url, ap: AccessPoint, token: string)
    requires Lawful(codec) && ProperPrefix(prefix)
    requires ResolvePrefix(store, prefix) == Found(ap, token) && check(ap, token) == Admit
    requires EncodeRef(codec, prefix, ap.id)(target).Some?
    requires target.path == "/seg" + ".a%2Eb"
    ensures Follow(store, check, codec, EncodeRef(codec, prefix, ap.id)(target).value) != Resource(ap, token, prefix, target.text)
  {
    EscapedDotIsSeen();
    ReferenceComesBack(store, check, codec, prefix, target, ap, token);
  }

  lemma WithoutSlash(path: string)
    requires path != "" && path[0] == '/'
    ensures TrimPrefix(path, "/") == path[1..] && path == "/" + path[1..]
  {
    assert path[0..1] == "/";
  }

  lemma ReservedPaths(path: string)
    requires path != "" && path[0] == '/'
    ensures Reserved(path[1..]) <==> path == "/_sv" || (|path| >= 5 && path[..5] == "/_sv/")
  {
    ReservedChars(path[1..]);
    if |path| >= 5 {
      var root := path[..5];
      assert root[0] == path[0] && root[1] == path[1] && root[2] == path[2] && root[3] == path[3] && root[4] == path[4];
      assert root == "/_sv/" <==> root[1] == '_' && root[2] == 's' && root[3] == 'v' && root[4] == '/';
    } else {
      assert path == "/_sv" <==> |path| == 4 && path[1] == '_' && path[2] == 's' && path[3] == 'v';
    }
  }

  lemma NodePaths(path: string)
    ensures HasPrefix(path, "/_sv/node/") <==> |path| >= 10 && path[..10] == "/_sv/node/"
    ensures |path| >= 10 && path[..10] == "/_sv/node/" ==> path[..5] == "/_sv/" && path != "/_sv/notice.png"
  {
    if |path| >= 10 && path[..10] == "/_sv/node/" {
      assert path[..5] == path[..10][..5] == "/_sv/";
      assert path[8] == path[..10][8] == 'e';
    }
  }

  lemma NoOtherRoute(store: Store, check: Check, codec: Codec, prefix: string, remainder: string)
    ensures var r := Dispatch(store, check, codec, prefix, remainder); !r.NodeApi? && !r.Notice? && !r.Slate?
  {
  }

  lemma ServedBy(store: Store, check: Check, codec: Codec, path: string)
    requires path != "" && TrimPrefix(path, "/") == path[1..] && path == "/" + path[1..]
    ensures var r := Serve(store, check, codec, path); var node := HasPrefix(path, "/_sv/node/");
            && (r.NodeApi? <==> node)
            && (r.Notice? <==> !node && path == "/_sv/notice.png")
            && (r.Slate? <==> !node && path != "/_sv/notice.png" && Reserved(path[1..]))
  {
    NoOtherRoute(store, check, codec, SplitPath(path[1..]).0, SplitPath(path[1..]).1);
    NoticePath(path);
  }

  lemma NoticePath(path: string)
    requires path != "" && path == "/" + path[1..]
    ensures path == "/_sv/notice.png" <==> path[1..] == "_sv/notice.png"
  {
    if path[1..] == "_sv/notice.png" {
      assert path == "/" + "_sv/notice.png";
    }
  }

  /** Paths under "_sv" go to the nodes, the notice and the slates, and no other path does. */
  lemma SpecialPaths(store: Store, check: Check, codec: Codec, path: string)
    requires path != "" && path[0] == '/'
    ensures var r := Serve(store, check, codec, path);
            && (r.NodeApi? <==> |path| >= 10 && path[..10] == "/_sv/node/")
            && (r.Notice? <==> path == "/_sv/notice.png")
            && (r.Slate? <==> (path == "/_sv" || (|path| >= 5 && path[..5] == "/_sv/")) && !r.NodeApi? && !r.Notice?)
  {
    WithoutSlash(path);
    ReservedPaths(path);
    NodePaths(path);
    ServedBy(store, check, codec, path);
  }

  /** An entry link of a point that is not admitted is missing, or replaced by its slate. */
  lemma WithdrawnEntry(store: Store, check: Check, codec: Codec, prefix: string, ext: string, ap: AccessPoint, token: string)
    requires ProperPrefix(prefix) && '.' !in prefix && (ext == "" || ext == ".m3u8" || ext == ".ts")
    requires ResolvePrefix(store, prefix) == Found(ap, token) && check(ap, token) != Admit
    ensures Follow(store, check, codec, "/" + prefix + ext) == if check(ap, token) == Unknown then Missing else Replacement(ap, true)
  {
    var path := "/" + prefix + ext;
    assert path == path + "" && path == "/" + (prefix + ext);
    PlainEntry(prefix, ext);
    FollowedLink(store, check, codec, path, "");
    EntryPathSplits(prefix, ext);
    ServedPath(store, check, codec, prefix + ext);
  }

  /** A reference issued for a credential that is no longer admitted gets nothing of the source. */
  lemma WithdrawnReference(store: Store, check: Check, codec: Codec, prefix: string, target: Url, ap: AccessPoint, token: string)
    requires Lawful(codec) && ProperPrefix(prefix)
    requires ResolvePrefix(store, prefix) == Found(ap, token) && check(ap, token) != Admit
    requires EncodeRef(codec, prefix, ap.id)(target).Some?
    ensures var r := Follow(store, check, codec, EncodeRef(codec, prefix, ap.id)(target).value);
            if SeenExt(KeptExt(target.path)).None? then r == Malformed
            else r == if check(ap, token) == Unknown then Missing else Replacement(ap, false)
  {
    var blob, ext := codec.encode(target.text, ap.id).value, KeptExt(target.path);
    assert EncodeRef(codec, prefix, ap.id)(target).value == Link(prefix, blob, ext);
    Opened(codec, target.text, ap.id);
    FollowedReference(store, check, codec, prefix, blob, ext);
  }

  /** Entry links, bare or with a known extension, lead to the entry. */
  lemma EntryLinkComesBack(store: Store, check: Check, codec: Codec, prefix: string, ext: string, ap: AccessPoint, token: string)
    requires ProperPrefix(prefix) && '.' !in prefix && (ext == "" || ext == ".m3u8" || ext == ".ts")
    requires ResolvePrefix(store, prefix) == Found(ap, token) && check(ap, token) == Admit
    ensures Follow(store, check, codec, "/" + prefix + ext) == Entry(ap, token, prefix)
  {
    var path := "/" + prefix + ext;
    assert path == path + "" && path == "/" + (prefix + ext);
    PlainEntry(prefix, ext);
    FollowedLink(store, check, codec, path, "");
    EntryPathSplits(prefix, ext);
    ServedPath(store, check, codec, prefix + ext);
  }

  lemma PlainEntry(prefix: string, ext: string)
    requires PlainText(prefix) && (ext == "" || ext == ".m3u8" || ext == ".ts")
    ensures PlainText("/" + prefix + ext)
  {
  }

  lemma EntryPathSplits(prefix: string, ext: string)
    requires ProperPrefix(prefix) && '.' !in prefix && (ext == "" || ext == ".m3u8" || ext == ".ts")
    ensures SplitPath(prefix + ext) == (prefix, "") && !Reserved(prefix + ext)
  {
    NotReserved(prefix, ext);
    NoMarkerInEntry(prefix, ext);
    KnownExtIsStripped(prefix, ext);
  }

  lemma KnownExtIsStripped(prefix: string, ext: string)
    requires '.' !in prefix && (ext == "" || ext == ".m3u8" || ext == ".ts")
    ensures StripKnownExt(prefix + ext) == prefix
  {
    var s := prefix + ext;
    assert s[|prefix|..] == ext && s[..|prefix|] == prefix;
    SuffixEnds(s, ".m3u8");
    SuffixEnds(s, ".ts");
  }
}
