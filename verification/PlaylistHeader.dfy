/**
  The header line of a playlist: the sniff finds it behind a byte order mark or white space, while
  rewriting takes a first line that does not start with "#" for a reference.
 */
module PlaylistHeader {
  import opened Common
  import opened Strings
  import opened Playlist

  const HEADER: string := "#EXTM3U"
  const BYTE_ORDER_MARK: char := '\U{FEFF}'

  function TrimMark(text: string): string {
    if text != "" && text[0] == BYTE_ORDER_MARK then text[1..] else text
  }

  /** IsPlaylist */
  predicate IsPlaylist(text: string) {
    HasPrefix(TrimSpace(TrimMark(text)), HEADER)
  }

  /** The first line that is not blank, without the carriage returns at its end. */
  function FirstShownOf(lines: seq<string>): (r: Option<string>)
    ensures r.Some? ==> r.value != ""
  {
    if lines == [] then None
    else if TrimRight(lines[0], '\r') != "" then Some(TrimRight(lines[0], '\r'))
    else FirstShownOf(lines[1..])
  }

  function FirstShown(text: string): Option<string> {
    FirstShownOf(Split(text, '\n'))
  }

  // ---- where the first line shown is ---------------------------------------

  predicate IsBreak(c: char) {
    c == '\r' || c == '\n'
  }

  predicate AllBreaks(s: string) {
    forall k :: 0 <= k < |s| ==> IsBreak(s[k])
  }

  /** The text is breaks, the first line shown, and nothing or a break after it. */
  lemma {:induction false} FirstShownSplits(lines: seq<string>) returns (blanks: string, tail: string)
    requires FirstShownOf(lines).Some?
    ensures Join(lines, '\n') == blanks + FirstShownOf(lines).value + tail
    ensures AllBreaks(blanks) && (tail == "" || IsBreak(tail[0]))
    decreases |lines|
  {
    var raw := lines[0];
    var shown := TrimRight(raw, '\r');
    if shown != "" {
      var rest := if |lines| > 1 then ['\n'] + Join(lines[1..], '\n') else "";
      blanks, tail := "", raw[|shown|..] + rest;
      ShownThenRest(raw, shown, rest);
      assert |lines| > 1 ==> raw + ['\n'] + Join(lines[1..], '\n') == raw + rest;
    } else {
      var b, t := FirstShownSplits(lines[1..]);
      BlankThenRest(raw, b, FirstShownOf(lines[1..]).value, t);
      blanks, tail := raw + ['\n'] + b, t;
    }
  }

  lemma ShownThenRest(raw: string, shown: string, rest: string)
    requires shown <= raw
    ensures raw + rest == "" + shown + (raw[|shown|..] + rest)
  {
    assert raw == shown + raw[|shown|..];
  }

  lemma BlankThenRest(raw: string, blanks: string, line: string, tail: string)
    ensures raw + ['\n'] + (blanks + line + tail) == raw + ['\n'] + blanks + line + tail
  {
  }

  lemma {:induction false} NothingShown(lines: seq<string>)
    requires FirstShownOf(lines).None?
    ensures AllBreaks(Join(lines, '\n'))
    decreases |lines|
  {
    if |lines| > 1 {
      NothingShown(lines[1..]);
    }
  }

  /** Every playlist shows some line. */
  lemma PlaylistShowsALine(text: string)
    requires IsPlaylist(text)
    ensures FirstShown(text).Some?
  {
    var lines := Split(text, '\n');
    JoinSplit(text, '\n');
    PrefixChars(TrimSpace(TrimMark(text)), HEADER);
    assert text + "" == text;
    if FirstShownOf(lines).None? {
      NothingShown(lines);
      BreaksAreTrimmed(text, "");
    }
  }

  lemma {:induction false} BreaksAreTrimmed(blanks: string, rest: string)
    requires AllBreaks(blanks)
    ensures TrimSpace(blanks + rest) == TrimSpace(rest)
    decreases |blanks|
  {
    if blanks == "" {
      assert blanks + rest == rest;
    } else {
      assert (blanks + rest)[1..] == blanks[1..] + rest;
      BreaksAreTrimmed(blanks[1..], rest);
    }
  }

  /** Trimming a text that starts with no space removes spaces at its end. */
  lemma {:induction false} TrimmedAtTheEnd(s: string)
    requires s != "" && !IsSpace(s[0])
    ensures TrimSpace(s) <= s && forall k :: |TrimSpace(s)| <= k < |s| ==> IsSpace(s[k])
    decreases |s|
  {
    if IsSpace(s[|s| - 1]) {
      var front := s[..|s| - 1];
      TrimmedAtTheEnd(front);
      assert s == front + [s[|s| - 1]];
    }
  }

  predicate NoSpaces(p: string) {
    forall k :: 0 <= k < |p| ==> !IsSpace(p[k])
  }

  lemma PrefixOfTrimmed(s: string, p: string)
    requires s != "" && !IsSpace(s[0]) && p != "" && NoSpaces(p)
    ensures HasPrefix(TrimSpace(s), p) <==> HasPrefix(s, p)
  {
    TrimmedAtTheEnd(s);
    PrefixChars(s, p);
    var t := TrimSpace(s);
    if |p| <= |t| {
      assert t[0..|p|] == s[0..|p|];
    } else if |p| <= |s| {
      assert IsSpace(s[|p| - 1]);
    }
  }

  lemma PrefixOfLine(line: string, tail: string, p: string)
    requires (tail == "" || IsBreak(tail[0])) && NoSpaces(p)
    ensures HasPrefix(line + tail, p) <==> HasPrefix(line, p)
  {
    PrefixChars(line + tail, p);
    if |p| <= |line| {
      assert (line + tail)[0..|p|] == line[0..|p|];
    } else if tail != "" {
      assert (line + tail)[|line|] == tail[0];
    }
  }

  lemma HeaderHasNoSpaces()
    ensures NoSpaces(HEADER)
  {
  }

  /** If the first line shown starts with "#" or "/", the sniff looks at that line. */
  lemma SniffSeesFirstShown(text: string)
    requires FirstShown(text).Some? && (FirstShown(text).value[0] == '#' || FirstShown(text).value[0] == '/')
    ensures IsPlaylist(text) <==> HasPrefix(FirstShown(text).value, HEADER)
  {
    var line := FirstShown(text).value;
    JoinSplit(text, '\n');
    var blanks, tail := FirstShownSplits(Split(text, '\n'));
    NoMarkInFront(text, blanks, line, tail);
    HeaderHasNoSpaces();
    BreaksAreTrimmed(blanks, line + tail);
    PrefixOfTrimmed(line + tail, HEADER);
    PrefixOfLine(line, tail, HEADER);
  }

  lemma NoMarkInFront(text: string, blanks: string, line: string, tail: string)
    requires text == blanks + line + tail && AllBreaks(blanks) && line != "" && (line[0] == '#' || line[0] == '/')
    ensures TrimMark(text) == blanks + (line + tail) == text
    ensures !IsSpace((line + tail)[0])
  {
    assert text == blanks + (line + tail);
    assert text[0] == if blanks == "" then line[0] else blanks[0];
  }

  // ---- what rewriting does to it -------------------------------------------

  /** The rewritten lines show first what the first line shown becomes. */
  lemma {:induction false} FirstShownRewritten(lines: seq<string>, out: seq<string>, resolve: Resolver, encode: Encoder)
    requires |out| == |lines| && FirstShownOf(lines).Some?
    requires forall i :: 0 <= i < |lines| ==> RewriteLine(lines[i], resolve, encode) == Some(out[i]) && CleanLine(ReadLine(lines[i]), resolve, encode)
    ensures var line := FirstShownOf(lines).value;
            if line[0] == '#' then RewriteTag(line, resolve, encode).Some? && FirstShownOf(out) == RewriteTag(line, resolve, encode)
            else FirstShownOf(out).Some? && FirstShownOf(out).value[0] == '/'
    decreases |lines|
  {
    var line := TrimRight(lines[0], '\r');
    if line == "" {
      FirstShownRewritten(lines[1..], out[1..], resolve, encode);
    } else if line[0] == '#' {
      TagKeepsItsEnds(line, resolve, encode);
    } else {
      NoTrailing(out[0], '\r');
    }
  }

  /** A tag line keeps the text before its first reference, and so the header. */
  lemma HeaderSurvivesRewriting(line: string, resolve: Resolver, encode: Encoder)
    requires HasPrefix(line, HEADER) && RewriteTag(line, resolve, encode).Some?
    ensures HasPrefix(RewriteTag(line, resolve, encode).value, HEADER)
  {
    var r := NextRef(line);
    PrefixChars(line, HEADER);
    if r.Some? {
      var (i, j) := r.value;
      RewriteStep(line, i, j, resolve, encode);
      assert line[i..i + |OPENING|][0] == 'U';
      assert i >= 6;
      var after := RewriteTag(line, resolve, encode).value;
      assert forall k :: 0 <= k < 6 ==> after[k] == line[k];
      assert after[i] == 'U';
      assert i > 6 ==> after[6] == line[6];
      assert after[0..7] == HEADER;
    }
  }

  /**
    A text the sniff takes for a playlist is still one after rewriting exactly if its first line
    that is not blank starts with "#": behind a byte order mark, or behind white space other than
    empty lines, the header is lost.
   */
  lemma HeaderKeptExactly(text: string, resolve: Resolver, encode: Encoder)
    requires IsPlaylist(text) && CleanText(text, resolve, encode) && Rewrite(text, resolve, encode).Some?
    ensures FirstShown(text).Some?
    ensures IsPlaylist(Rewrite(text, resolve, encode).value) <==> FirstShown(text).value[0] == '#'
  {
    PlaylistShowsALine(text);
    var lines, out := Split(text, '\n'), RewrittenLines(text, resolve, encode);
    forall i | 0 <= i < |lines|
      ensures '\n' !in out[i] && RewriteLine(lines[i], resolve, encode) == Some(out[i]) && CleanLine(ReadLine(lines[i]), resolve, encode)
    {
      assert CleanLine(Read(text)[i], resolve, encode);
      LineRoundTrip(lines[i], resolve, encode);
    }
    SplitJoin(out, '\n');
    FirstShownRewritten(lines, out, resolve, encode);
    SniffSeesFirstShown(Rewrite(text, resolve, encode).value);
    var line := FirstShown(text).value;
    if line[0] == '#' {
      SniffSeesFirstShown(text);
      HeaderSurvivesRewriting(line, resolve, encode);
    } else {
      PrefixChars(FirstShownOf(out).value, HEADER);
    }
  }

  lemma HeaderBehindMarkIsSniffed()
    ensures IsPlaylist([BYTE_ORDER_MARK] + HEADER)
  {
    var text := [BYTE_ORDER_MARK] + HEADER;
    assert TrimMark(text) == text[1..] == HEADER;
    assert TrimSpace(HEADER) == HEADER;
    assert HEADER[0..|HEADER|] == HEADER;
  }

  lemma OneLineIsShown(text: string)
    requires '\n' !in text && text != "" && text[|text| - 1] != '\r'
    ensures FirstShown(text) == Some(text)
  {
    SplitOfPlain(text, '\n');
  }

  /** A header behind a byte order mark is taken for a playlist, and its line for a reference. */
  lemma HeaderBehindMarkIsLost(resolve: Resolver, encode: Encoder)
    ensures var text := ['\U{FEFF}'] + "#EXTM3U";
            && IsPlaylist(text) && FirstShown(text) == Some(text) && text[0] != '#'
            && (CleanText(text, resolve, encode) && Rewrite(text, resolve, encode).Some? ==>
                !IsPlaylist(Rewrite(text, resolve, encode).value))
  {
    var text := ['\U{FEFF}'] + "#EXTM3U";
    HeaderBehindMarkIsSniffed();
    OneLineIsShown(text);
    if CleanText(text, resolve, encode) && Rewrite(text, resolve, encode).Some? {
      HeaderKeptExactly(text, resolve, encode);
    }
  }
}
