/**
  Playlist rewriting as a transformation that preserves structure: reading the rewritten
  playlist gives the lines of the original, with each reference replaced by its encoding.
  Reference resolution (RFC 3986) is an arbitrary function that may fail.
 */
module Playlist {
  import opened Common
  import opened Strings

  /** An absolute target URL: its text and its decoded path. */
  datatype Url = Url(text: string, path: string)

  type Resolver = string -> Option<Url>
  type Encoder = Url -> Option<string>

  const OPENING: string := "URI=\""
  const QUOTE: char := '"'

  function Proxy(resolve: Resolver, encode: Encoder, uri: string): Option<string> {
    if resolve(uri).None? then None else encode(resolve(uri).value)
  }

  // ---- tag lines -----------------------------------------------------------

  /** A tag line is text interleaved with the values of URI="..." attributes. */
  datatype Tag = End(text: string) | Ref(before: string, uri: string, rest: Tag)

  function FindChar(s: string, c: char, from: nat): (r: Option<nat>)
    requires from <= |s|
    ensures r.Some? ==> from <= r.value < |s| && s[r.value] == c && forall k :: from <= k < r.value ==> s[k] != c
    ensures r.None? ==> forall k :: from <= k < |s| ==> s[k] != c
    decreases |s| - from
  {
    if from == |s| then None
    else if s[from] == c then Some(from)
    else FindChar(s, c, from + 1)
  }

  /** The next match of URI="([^"]*)" from the start of the line: where it begins and its value ends. */
  function NextRef(line: string): (r: Option<(nat, nat)>)
    ensures r.Some? ==> r.value.0 + |OPENING| <= r.value.1 < |line| && At(line, r.value.0, OPENING)
                        && line[r.value.1] == QUOTE
  {
    var i := Find(line, OPENING, 0);
    if i.None? then None else
    var j := FindChar(line, QUOTE, i.value + |OPENING|);
    if j.None? then None else Some((i.value, j.value))
  }

  function ReadTag(line: string): Tag
    decreases |line|
  {
    var r := NextRef(line);
    if r.None? then End(line) else
    var (i, j) := r.value;
    Ref(line[..i], line[i + |OPENING|..j], ReadTag(line[j + 1..]))
  }

  function Quoted(uri: string): string {
    OPENING + uri + [QUOTE]
  }

  function Render(t: Tag): string {
    match t
    case End(text) => text
    case Ref(before, uri, rest) => before + Quoted(uri) + Render(rest)
  }

  /** Replace every reference; None if one of them cannot be replaced. */
  function Replace(t: Tag, resolve: Resolver, encode: Encoder): Option<Tag> {
    match t
    case End(text) => Some(End(text))
    case Ref(before, uri, rest) =>
      var p, r := Proxy(resolve, encode, uri), Replace(rest, resolve, encode);
      if p.None? || r.None? then None else Some(Ref(before, p.value, r.value))
  }

  function RewriteTag(line: string, resolve: Resolver, encode: Encoder): Option<string> {
    var t := Replace(ReadTag(line), resolve, encode);
    if t.None? then None else Some(Render(t.value))
  }

  /** One reference, then the rest of the line. */
  lemma RewriteStep(line: string, i: nat, j: nat, resolve: Resolver, encode: Encoder)
    requires NextRef(line) == Some((i, j))
    ensures var p, rest := Proxy(resolve, encode, line[i + |OPENING|..j]), RewriteTag(line[j + 1..], resolve, encode);
            RewriteTag(line, resolve, encode) == if p.None? || rest.None? then None else Some(line[..i] + Quoted(p.value) + rest.value)
  {
  }

  /** rewriteTagAttrs: one scan over the line, remembering an error but finishing the scan. */
  method RewriteTagAttrs(line: string, resolve: Resolver, encode: Encoder) returns (r: Option<string>)
    ensures r == RewriteTag(line, resolve, encode)
  {
    var rest, out, failed := line, "", false;
    ThenNothing(RewriteTag(line, resolve, encode));
    while true
      invariant RewriteTag(line, resolve, encode) == Then(failed, out, RewriteTag(rest, resolve, encode))
      decreases |rest|
    {
      var next := NextRef(rest);
      if next.None? {
        break;
      }
      var (i, j) := next.value;
      RewriteStep(rest, i, j, resolve, encode);
      var proxied := Proxy(resolve, encode, rest[i + |OPENING|..j]);
      if proxied.None? {
        failed := true;
      } else {
        ThenMore(failed, out, rest[..i] + Quoted(proxied.value), RewriteTag(rest[j + 1..], resolve, encode));
        out := out + (rest[..i] + Quoted(proxied.value));
      }
      rest := rest[j + 1..];
    }
    return if failed then None else Some(out + rest);
  }

  /** What the scan will return, given what it has written and what the rest of the line becomes. */
  ghost function Then(failed: bool, out: string, rest: Option<string>): Option<string> {
    if failed || rest.None? then None else Some(out + rest.value)
  }

  lemma ThenNothing(rest: Option<string>)
    ensures Then(false, "", rest) == rest
  {
    assert rest.Some? ==> "" + rest.value == rest.value;
  }

  lemma ThenMore(failed: bool, out: string, more: string, rest: Option<string>)
    ensures Then(failed, out, if rest.None? then None else Some(more + rest.value)) == Then(failed, out + more, rest)
  {
    assert rest.Some? ==> out + (more + rest.value) == out + more + rest.value;
  }

  /** Reading a line apart loses nothing. */
  lemma {:induction false} RenderRead(line: string)
    ensures Render(ReadTag(line)) == line
    decreases |line|
  {
    var r := NextRef(line);
    if r.Some? {
      var (i, j) := r.value;
      RenderRead(line[j + 1..]);
      assert line == line[..i] + Quoted(line[i + |OPENING|..j]) + line[j + 1..];
    }
  }

  /** A reference that can stand inside a quoted attribute and on a line of its own. */
  predicate CleanReference(s: string) {
    s != "" && s[0] == '/' && QUOTE !in s && '\n' !in s && '\r' !in s
  }

  predicate CleanProxy(uri: string, resolve: Resolver, encode: Encoder) {
    var p := Proxy(resolve, encode, uri);
    p.Some? ==> CleanReference(p.value)
  }

  /** Every reference written for this tag is clean. */
  predicate CleanTag(t: Tag, resolve: Resolver, encode: Encoder) {
    match t
    case End(_) => true
    case Ref(_, uri, rest) => CleanProxy(uri, resolve, encode) && CleanTag(rest, resolve, encode)
  }

  lemma SliceOfPrefix(s: string, n: nat, k: nat, m: nat)
    requires k <= m <= n <= |s|
    ensures s[k..m] == s[..n][k..m]
  {
  }

  lemma AtInPrefix(line: string, after: string, n: nat, k: nat)
    requires k + |OPENING| <= n <= |line| && n <= |after| && after[..n] == line[..n]
    ensures At(after, k, OPENING) == At(line, k, OPENING)
  {
    SliceOfPrefix(line, n, k, k + |OPENING|);
    SliceOfPrefix(after, n, k, k + |OPENING|);
  }

  /** An earlier match would lie in the part of the line both share. */
  lemma NoEarlierMatch(line: string, after: string, i: nat)
    requires i + |OPENING| <= |line| && i + |OPENING| <= |after|
    requires after[..i + |OPENING|] == line[..i + |OPENING|]
    requires At(line, i, OPENING) && forall k :: 0 <= k < i ==> !At(line, k, OPENING)
    ensures Find(after, OPENING, 0) == Some(i)
  {
    forall k | 0 <= k <= i ensures At(after, k, OPENING) == At(line, k, OPENING) {
      AtInPrefix(line, after, i + |OPENING|, k);
    }
  }

  lemma FirstQuote(s: string, from: nat, at: nat)
    requires from <= at < |s| && s[at] == QUOTE && forall k :: from <= k < at ==> s[k] != QUOTE
    ensures FindChar(s, QUOTE, from) == Some(at)
  {
    var found := FindChar(s, QUOTE, from);
  }

  lemma Inserted(s: string, head: string, value: string, tail: string)
    requires s == head + value + [QUOTE] + tail
    ensures s[|head|..|head| + |value|] == value
    ensures s[|head| + |value|] == QUOTE
    ensures s[|head| + |value| + 1..] == tail
    ensures forall k :: |head| <= k < |head| + |value| ==> s[k] == value[k - |head|]
  {
  }

  /** Replacing the value of the first reference moves no match and creates none. */
  lemma FirstRefStays(line: string, i: nat, j: nat, value: string, tail: string)
    requires NextRef(line) == Some((i, j)) && QUOTE !in value
    ensures var after := line[..i] + Quoted(value) + tail;
            && NextRef(after) == Some((i, i + |OPENING| + |value|))
            && after[i + |OPENING| + |value| + 1..] == tail
            && after[..i] == line[..i] && after[i + |OPENING|..i + |OPENING| + |value|] == value
  {
    var after := line[..i] + Quoted(value) + tail;
    var head := line[..i] + OPENING;
    HeadRegrouped(line[..i], value, tail);
    SharedHead(line, i, after);
    NoEarlierMatch(line, after, i);
    RefFound(after, head, value, tail);
  }

  lemma RefFound(s: string, head: string, value: string, tail: string)
    requires s == head + value + [QUOTE] + tail && QUOTE !in value && |head| >= |OPENING|
    requires Find(s, OPENING, 0) == Some(|head| - |OPENING|)
    ensures NextRef(s) == Some((|head| - |OPENING|, |head| + |value|))
    ensures s[|head| + |value| + 1..] == tail && s[|head|..|head| + |value|] == value
  {
    Inserted(s, head, value, tail);
    FirstQuote(s, |head|, |head| + |value|);
  }

  lemma HeadRegrouped(before: string, value: string, tail: string)
    ensures before + Quoted(value) + tail == before + OPENING + value + [QUOTE] + tail
  {
  }

  lemma SharedHead(line: string, i: nat, after: string)
    requires At(line, i, OPENING) && line[..i] + OPENING <= after
    ensures after[..i + |OPENING|] == line[..i] + OPENING == line[..i + |OPENING|]
    ensures after[..i] == line[..i]
  {
    assert line[..i + |OPENING|] == line[..i] + line[i..i + |OPENING|];
    SliceOfPrefix(after, i + |OPENING|, 0, i);
    SliceOfPrefix(line, i + |OPENING|, 0, i);
  }

  lemma ReadAtRef(line: string, i: nat, j: nat)
    requires NextRef(line) == Some((i, j))
    ensures ReadTag(line) == Ref(line[..i], line[i + |OPENING|..j], ReadTag(line[j + 1..]))
  {
  }

  lemma ReplaceAtRef(line: string, i: nat, j: nat, resolve: Resolver, encode: Encoder)
    requires NextRef(line) == Some((i, j))
    requires CleanTag(ReadTag(line), resolve, encode) && RewriteTag(line, resolve, encode).Some?
    ensures var uri := line[i + |OPENING|..j];
            && CleanTag(ReadTag(line[j + 1..]), resolve, encode) && RewriteTag(line[j + 1..], resolve, encode).Some?
            && Proxy(resolve, encode, uri).Some? && CleanReference(Proxy(resolve, encode, uri).value)
            && Replace(ReadTag(line), resolve, encode)
               == Some(Ref(line[..i], Proxy(resolve, encode, uri).value, Replace(ReadTag(line[j + 1..]), resolve, encode).value))
  {
    ReadAtRef(line, i, j);
  }

  /** Reading the rewritten line gives the original tag with each reference replaced. */
  lemma {:induction false} ReadOfRewritten(line: string, resolve: Resolver, encode: Encoder)
    requires CleanTag(ReadTag(line), resolve, encode) && RewriteTag(line, resolve, encode).Some?
    ensures Some(ReadTag(RewriteTag(line, resolve, encode).value)) == Replace(ReadTag(line), resolve, encode)
    decreases |line|
  {
    var r := NextRef(line);
    if r.Some? {
      var (i, j) := r.value;
      ReplaceAtRef(line, i, j, resolve, encode);
      RewriteStep(line, i, j, resolve, encode);
      var value := Proxy(resolve, encode, line[i + |OPENING|..j]).value;
      var tail := RewriteTag(line[j + 1..], resolve, encode).value;
      ReadOfRewritten(line[j + 1..], resolve, encode);
      FirstRefStays(line, i, j, value, tail);
      ReadAtRef(line[..i] + Quoted(value) + tail, i, i + |OPENING| + |value|);
    }
  }

  // ---- whole playlists -----------------------------------------------------

  datatype Line = Blank | Tagged(tag: Tag) | Uri(uri: string)

  function ReadLine(raw: string): Line {
    var line := TrimRight(raw, '\r');
    if line == "" then Blank
    else if line[0] == '#' then Tagged(ReadTag(line))
    else Uri(line)
  }

  function Read(text: string): seq<Line> {
    var lines := Split(text, '\n');
    seq(|lines|, i requires 0 <= i < |lines| => ReadLine(lines[i]))
  }

  function ReplaceLine(l: Line, resolve: Resolver, encode: Encoder): Option<Line> {
    match l
    case Blank => Some(Blank)
    case Tagged(tag) => (var r := Replace(tag, resolve, encode); if r.None? then None else Some(Tagged(r.value)))
    case Uri(uri) => (var r := Proxy(resolve, encode, uri); if r.None? then None else Some(Uri(r.value)))
  }

  function RewriteLine(raw: string, resolve: Resolver, encode: Encoder): Option<string> {
    var line := TrimRight(raw, '\r');
    if line == "" then Some("")
    else if line[0] == '#' then RewriteTag(line, resolve, encode)
    else Proxy(resolve, encode, line)
  }

  /** RewritePlaylist: the first line that cannot be rewritten fails the playlist. */
  method RewritePlaylist(text: string, resolve: Resolver, encode: Encoder) returns (r: Option<string>)
    ensures r == Rewrite(text, resolve, encode)
  {
    var lines := Split(text, '\n');
    var out: seq<string> := [];
    for i := 0 to |lines|
      invariant |out| == i
      invariant forall k :: 0 <= k < i ==> RewriteLine(lines[k], resolve, encode) == Some(out[k])
    {
      var trimmed := TrimRight(lines[i], '\r');
      var rewritten: Option<string>;
      if trimmed == "" {
        rewritten := Some(trimmed);
      } else if trimmed[0] == '#' {
        rewritten := RewriteTagAttrs(trimmed, resolve, encode);
      } else {
        var target := resolve(trimmed);
        if target.None? {
          rewritten := None;
        } else {
          rewritten := encode(target.value);
        }
      }
      if rewritten.None? {
        return None;
      }
      out := out + [rewritten.value];
    }
    assert out == RewrittenLines(text, resolve, encode);
    return Some(Join(out, '\n'));
  }

  predicate AllRewritable(text: string, resolve: Resolver, encode: Encoder) {
    var lines := Split(text, '\n');
    forall i :: 0 <= i < |lines| ==> RewriteLine(lines[i], resolve, encode).Some?
  }

  function RewrittenLines(text: string, resolve: Resolver, encode: Encoder): seq<string>
    requires AllRewritable(text, resolve, encode)
  {
    var lines := Split(text, '\n');
    seq(|lines|, i requires 0 <= i < |lines| => RewriteLine(lines[i], resolve, encode).value)
  }

  function Rewrite(text: string, resolve: Resolver, encode: Encoder): Option<string> {
    if AllRewritable(text, resolve, encode) then Some(Join(RewrittenLines(text, resolve, encode), '\n')) else None
  }

  predicate CleanLine(l: Line, resolve: Resolver, encode: Encoder) {
    match l
    case Blank => true
    case Tagged(tag) => CleanTag(tag, resolve, encode)
    case Uri(uri) => CleanProxy(uri, resolve, encode)
  }

  /** Every reference written for this playlist is clean. */
  predicate CleanText(text: string, resolve: Resolver, encode: Encoder) {
    forall i :: 0 <= i < |Read(text)| ==> CleanLine(Read(text)[i], resolve, encode)
  }

  // ---- structure is preserved ----------------------------------------------

  lemma {:induction false} RenderedHasNoBreaks(t: Tag, resolve: Resolver, encode: Encoder)
    requires CleanTag(t, resolve, encode) && Replace(t, resolve, encode).Some?
    requires '\n' !in Render(t)
    ensures '\n' !in Render(Replace(t, resolve, encode).value)
    decreases t
  {
    if t.Ref? {
      assert forall c :: c in Render(t.rest) ==> c in Render(t);
      assert forall c :: c in t.before ==> c in Render(t);
      RenderedHasNoBreaks(t.rest, resolve, encode);
    }
  }

  /** A rewritten line has no line break and reads back as the original line, replaced. */
  lemma LineRoundTrip(raw: string, resolve: Resolver, encode: Encoder)
    requires CleanLine(ReadLine(raw), resolve, encode) && '\n' !in raw && RewriteLine(raw, resolve, encode).Some?
    ensures '\n' !in RewriteLine(raw, resolve, encode).value
    ensures Some(ReadLine(RewriteLine(raw, resolve, encode).value)) == ReplaceLine(ReadLine(raw), resolve, encode)
  {
    var line := TrimRight(raw, '\r');
    if line != "" && line[0] == '#' {
      RenderRead(line);
      ReadOfRewritten(line, resolve, encode);
      RenderedHasNoBreaks(ReadTag(line), resolve, encode);
      TagKeepsItsEnds(line, resolve, encode);
    } else if line != "" {
      NoTrailing(RewriteLine(raw, resolve, encode).value, '\r');
    }
  }

  lemma NoTrailing(s: string, c: char)
    requires s == "" || s[|s| - 1] != c
    ensures TrimRight(s, c) == s
  {
  }

  lemma TagKeepsItsEnds(line: string, resolve: Resolver, encode: Encoder)
    requires line != "" && line[0] == '#' && line[|line| - 1] != '\r'
    requires RewriteTag(line, resolve, encode).Some?
    ensures var after := RewriteTag(line, resolve, encode).value;
            after != "" && after[0] == '#' && TrimRight(after, '\r') == after
  {
    var after := RewriteTag(line, resolve, encode).value;
    FirstChar(line, resolve, encode);
    LastChar(line, resolve, encode);
    NoTrailing(after, '\r');
  }

  lemma FirstChar(line: string, resolve: Resolver, encode: Encoder)
    requires line != "" && line[0] == '#' && RewriteTag(line, resolve, encode).Some?
    ensures RewriteTag(line, resolve, encode).value != "" && RewriteTag(line, resolve, encode).value[0] == '#'
  {
    var r := NextRef(line);
    if r.Some? {
      assert line[r.value.0..r.value.0 + |OPENING|][0] == 'U';
    }
  }

  lemma {:induction false} LastChar(line: string, resolve: Resolver, encode: Encoder)
    requires (line == "" || line[|line| - 1] != '\r') && RewriteTag(line, resolve, encode).Some?
    ensures var after := RewriteTag(line, resolve, encode).value;
            after == "" || after[|after| - 1] != '\r'
    decreases |line|
  {
    var r := NextRef(line);
    if r.Some? {
      LastChar(line[r.value.1 + 1..], resolve, encode);
    }
  }

  /**
    The rewritten playlist has the same lines: blank lines stay blank, the text of tags outside
    URI values is untouched, and each reference is the encoding of its resolved target.
   */
  lemma RewritePreservesStructure(text: string, resolve: Resolver, encode: Encoder)
    requires CleanText(text, resolve, encode) && Rewrite(text, resolve, encode).Some?
    ensures var before, after := Read(text), Read(Rewrite(text, resolve, encode).value);
            && |after| == |before|
            && forall i :: 0 <= i < |before| ==> ReplaceLine(before[i], resolve, encode) == Some(after[i])
  {
    var lines := Split(text, '\n');
    var out := RewrittenLines(text, resolve, encode);
    forall i | 0 <= i < |lines|
      ensures '\n' !in out[i] && ReplaceLine(ReadLine(lines[i]), resolve, encode) == Some(ReadLine(out[i]))
    {
      assert CleanLine(Read(text)[i], resolve, encode);
      LineRoundTrip(lines[i], resolve, encode);
    }
    SplitJoin(out, '\n');
  }

  /** ... and it fails exactly when one of the references cannot be resolved or encoded. */
  lemma RewriteFailsExactly(text: string, resolve: Resolver, encode: Encoder)
    ensures Rewrite(text, resolve, encode).None? <==>
              exists i :: 0 <= i < |Read(text)| && ReplaceLine(Read(text)[i], resolve, encode).None?
  {
    var lines := Split(text, '\n');
    assert forall i :: 0 <= i < |lines| ==> (RewriteLine(lines[i], resolve, encode).None? <==> ReplaceLine(Read(text)[i], resolve, encode).None?);
  }
}
