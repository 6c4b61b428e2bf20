/**
  What counts as a reference in a playlist, told from its text alone: the first complete URI="..."
  of a tag line, then the first of what follows it, and every line that is neither blank nor a tag.
 */
module PlaylistReferences {
  import opened Common
  import opened Strings
  import opened Playlist

  /** The attribute starts at `i`, its value after the five characters. */
  predicate Starts(line: string, i: nat) {
    && i + 5 <= |line|
    && line[i] == 'U' && line[i + 1] == 'R' && line[i + 2] == 'I' && line[i + 3] == '=' && line[i + 4] == '"'
  }

  /** An attribute starts at `i`, and a quote ends its value at or before `j`. */
  predicate CompleteAt(line: string, i: nat, j: nat) {
    Starts(line, i) && i + 5 <= j < |line| && line[j] == '"'
  }

  ghost predicate NoneComplete(line: string) {
    forall i: nat, j: nat :: !CompleteAt(line, i, j)
  }

  lemma StartsAreOpenings(line: string, i: nat)
    ensures At(line, i, OPENING) <==> Starts(line, i)
  {
    if i + 5 <= |line| {
      var part := line[i..i + 5];
      assert part[0] == line[i] && part[1] == line[i + 1] && part[2] == line[i + 2] && part[3] == line[i + 3] && part[4] == line[i + 4];
      assert Starts(line, i) ==> part == OPENING;
    }
  }

  /** A tag line without a complete attribute is left as it is. */
  lemma PlainTagStays(line: string, resolve: Resolver, encode: Encoder)
    requires NoneComplete(line)
    ensures RewriteTag(line, resolve, encode) == Some(line)
  {
    var r := NextRef(line);
    if r.Some? {
      StartsAreOpenings(line, r.value.0);
      assert CompleteAt(line, r.value.0, r.value.1);
    }
  }

  /** No complete attribute of `a + "URI=\"" + u + "\"" + b` starts in `a`. */
  ghost predicate NoneStartsIn(a: string, line: string) {
    forall i: nat, j: nat :: i < |a| ==> !CompleteAt(line, i, j)
  }

  /** The line with one attribute spelled out. */
  function WithAttribute(a: string, u: string, b: string): string {
    a + ['U', 'R', 'I', '=', '"'] + u + ['"'] + b
  }

  lemma AttributeIsThere(a: string, u: string, b: string)
    ensures var line := WithAttribute(a, u, b);
            && Starts(line, |a|) && line[|a| + 5 + |u|] == '"'
            && (forall k :: |a| + 5 <= k < |a| + 5 + |u| ==> line[k] == u[k - |a| - 5])
            && line[..|a|] == a && line[|a| + 5..|a| + 5 + |u|] == u && line[|a| + 5 + |u| + 1..] == b
  {
  }

  lemma AttributeIsNext(a: string, u: string, b: string)
    requires '"' !in u && NoneStartsIn(a, WithAttribute(a, u, b))
    ensures NextRef(WithAttribute(a, u, b)) == Some((|a|, |a| + 5 + |u|))
  {
    var line := WithAttribute(a, u, b);
    AttributeIsThere(a, u, b);
    StartsAreOpenings(line, |a|);
    forall i: nat | i < |a| ensures !At(line, i, OPENING) {
      StartsAreOpenings(line, i);
      StartsBeforeIsComplete(a, u, b, i);
    }
    assert Find(line, OPENING, 0) == Some(|a|);
    FirstQuote(line, |a| + 5, |a| + 5 + |u|);
  }

  /** Where an attribute starts in `a`, the quotes that follow complete it. */
  lemma StartsBeforeIsComplete(a: string, u: string, b: string, i: nat)
    requires i < |a|
    ensures var line := WithAttribute(a, u, b); Starts(line, i) ==> CompleteAt(line, i, |a| + 5 + |u|)
  {
    AttributeIsThere(a, u, b);
  }

  lemma NextIsReplaced(a: string, u: string, b: string, resolve: Resolver, encode: Encoder)
    requires '"' !in u && NoneStartsIn(a, WithAttribute(a, u, b))
    ensures var p, rest := Proxy(resolve, encode, u), RewriteTag(b, resolve, encode);
            RewriteTag(WithAttribute(a, u, b), resolve, encode) ==
            if p.None? || rest.None? then None else Some(a + Quoted(p.value) + rest.value)
  {
    AttributeIsThere(a, u, b);
    AttributeIsNext(a, u, b);
    RewriteStep(WithAttribute(a, u, b), |a|, |a| + 5 + |u|, resolve, encode);
  }

  lemma SpelledOut(a: string, u: string, b: string)
    ensures a + "URI=\"" + u + "\"" + b == WithAttribute(a, u, b) == a + Quoted(u) + b
  {
    assert Quoted(u) == "URI=\"" + u + "\"";
  }

  /**
    The first complete URI="..." of a line has its value replaced by the encoding of its resolved
    target, the text before it stays, and what follows is rewritten in turn; it fails exactly if the
    value cannot be resolved or encoded or the rest cannot be rewritten.
   */
  lemma FirstAttributeIsReplaced(a: string, u: string, b: string, resolve: Resolver, encode: Encoder)
    requires '"' !in u && NoneStartsIn(a, a + "URI=\"" + u + "\"" + b)
    ensures var rest := RewriteTag(b, resolve, encode);
            RewriteTag(a + "URI=\"" + u + "\"" + b, resolve, encode) ==
            if resolve(u).None? || encode(resolve(u).value).None? || rest.None? then None
            else Some(a + "URI=\"" + encode(resolve(u).value).value + "\"" + rest.value)
  {
    SpelledOut(a, u, b);
    NextIsReplaced(a, u, b, resolve, encode);
    var p, rest := Proxy(resolve, encode, u), RewriteTag(b, resolve, encode);
    if p.Some? && rest.Some? {
      SpelledOut(a, p.value, rest.value);
    }
  }

  /** Every line is one or the other, so the two lemmas say what becomes of it. */
  lemma EveryTagIsPlainOrSplits(line: string)
    ensures NoneComplete(line) ||
            exists a, u, b :: line == a + "URI=\"" + u + "\"" + b && '"' !in u && NoneStartsIn(a, line)
  {
    var r := NextRef(line);
    if r.Some? {
      var (i, j) := r.value;
      SplitAtNext(line, i, j);
    } else {
      forall i: nat, j: nat ensures !CompleteAt(line, i, j) {
        NothingStarts(line, i, j);
      }
    }
  }

  lemma NothingStarts(line: string, i: nat, j: nat)
    requires NextRef(line).None?
    ensures !CompleteAt(line, i, j)
  {
    StartsAreOpenings(line, i);
    NoQuoteAfterFirst(line, j);
  }

  lemma NoQuoteAfterFirst(line: string, j: nat)
    requires NextRef(line).None?
    ensures var first := Find(line, OPENING, 0);
            first.Some? && first.value + 5 <= j < |line| ==> line[j] != '"'
  {
    var first := Find(line, OPENING, 0);
    if first.Some? {
      var quote := FindChar(line, QUOTE, first.value + |OPENING|);
    }
  }

  lemma SplitAtNext(line: string, i: nat, j: nat)
    requires NextRef(line) == Some((i, j))
    ensures exists a, u, b :: line == a + "URI=\"" + u + "\"" + b && '"' !in u && NoneStartsIn(a, line)
  {
    var a, u, b := line[..i], line[i + 5..j], line[j + 1..];
    StartsAreOpenings(line, i);
    assert line == WithAttribute(a, u, b) == a + "URI=\"" + u + "\"" + b;
    forall k: nat, m: nat | k < |a| ensures !CompleteAt(line, k, m) {
      StartsAreOpenings(line, k);
    }
  }

  // ---- lines ----------------------------------------------------------------

  lemma {:induction false} JoinOfConcat(a: seq<string>, b: seq<string>, sep: char)
    requires |a| > 0 && |b| > 0
    ensures Join(a + b, sep) == Join(a, sep) + [sep] + Join(b, sep)
    decreases |a|
  {
    assert (a + b)[1..] == a[1..] + b;
    if |a| > 1 {
      JoinOfConcat(a[1..], b, sep);
      assert a[0] + [sep] + (Join(a[1..], sep) + [sep] + Join(b, sep)) == a[0] + [sep] + Join(a[1..], sep) + [sep] + Join(b, sep);
    } else {
      assert a[1..] + b == b;
    }
  }

  lemma RewritableApart(first: string, rest: string, resolve: Resolver, encode: Encoder)
    ensures AllRewritable(first + ['\n'] + rest, resolve, encode) <==>
            AllRewritable(first, resolve, encode) && AllRewritable(rest, resolve, encode)
  {
    var a, b := Split(first, '\n'), Split(rest, '\n');
    SplitOfConcat(first, '\n', rest);
    assert forall i :: 0 <= i < |a| ==> (a + b)[i] == a[i];
    assert forall i :: 0 <= i < |b| ==> (a + b)[|a| + i] == b[i];
  }

  lemma RewrittenApart(first: string, rest: string, resolve: Resolver, encode: Encoder)
    requires AllRewritable(first + ['\n'] + rest, resolve, encode)
    requires AllRewritable(first, resolve, encode) && AllRewritable(rest, resolve, encode)
    ensures RewrittenLines(first + ['\n'] + rest, resolve, encode)
            == RewrittenLines(first, resolve, encode) + RewrittenLines(rest, resolve, encode)
  {
    SplitOfConcat(first, '\n', rest);
  }

  /** A playlist is rewritten line by line. */
  lemma LinesAreRewrittenApart(first: string, rest: string, resolve: Resolver, encode: Encoder)
    ensures var a, b := Rewrite(first, resolve, encode), Rewrite(rest, resolve, encode);
            Rewrite(first + ['\n'] + rest, resolve, encode) ==
            if a.None? || b.None? then None else Some(a.value + ['\n'] + b.value)
  {
    RewritableApart(first, rest, resolve, encode);
    if AllRewritable(first, resolve, encode) && AllRewritable(rest, resolve, encode) {
      RewrittenApart(first, rest, resolve, encode);
      JoinOfConcat(RewrittenLines(first, resolve, encode), RewrittenLines(rest, resolve, encode), '\n');
    }
  }

  lemma {:induction false} TrimsTo(line: string, tail: string)
    requires (forall k :: 0 <= k < |tail| ==> tail[k] == '\r') && (line == "" || line[|line| - 1] != '\r')
    ensures TrimRight(line + tail, '\r') == line
    decreases |tail|
  {
    if tail == "" {
      assert line + tail == line;
      NoTrailing(line, '\r');
    } else {
      assert (line + tail)[..|line + tail| - 1] == line + tail[..|tail| - 1];
      TrimsTo(line, tail[..|tail| - 1]);
    }
  }

  /** What becomes of a text of one line: nothing if it is blank, its attributes if it is a tag, else the whole. */
  lemma OneLineIsRewritten(line: string, tail: string, resolve: Resolver, encode: Encoder)
    requires '\n' !in line && (forall k :: 0 <= k < |tail| ==> tail[k] == '\r') && (line == "" || line[|line| - 1] != '\r')
    ensures Rewrite(line + tail, resolve, encode) ==
            if line == "" then Some("")
            else if line[0] == '#' then RewriteTag(line, resolve, encode)
            else if resolve(line).None? then None else encode(resolve(line).value)
  {
    var text := line + tail;
    SplitOfPlain(text, '\n');
    TrimsTo(line, tail);
    assert Split(text, '\n')[0] == text;
    if AllRewritable(text, resolve, encode) {
      assert RewrittenLines(text, resolve, encode) == [RewriteLine(text, resolve, encode).value];
    }
  }
}
