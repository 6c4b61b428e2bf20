/**
  Wrapping and sizing: whatever text a slate draws fits the card. Widths are estimated in
  hundredths of the font size, so a size times a width is in hundredths of a pixel.
 */
module SlateLayout {
  import opened Common
  import opened Strings
  import opened SlateState
  import opened SlateText

  const LINE_RUNES: nat := 45
  const MIN_SIZE: nat := 28

  /** 1280 pixels, in hundredths. */
  const TARGET: nat := 128000

  // ---- wrapping ------------------------------------------------------------

  predicate CanCut(flat: string, i: nat) {
    i < |flat| && flat[i] == ' ' && |flat| - i - 1 <= LINE_RUNES
  }

  /** The last place at or before `i` where the line can be cut; 45 if there is none. */
  function CutFrom(flat: string, i: nat): (r: nat)
    ensures r == LINE_RUNES || (0 < r <= i && CanCut(flat, r))
    ensures (exists k :: 0 < k <= i && CanCut(flat, k)) ==> 0 < r <= i && CanCut(flat, r) && forall k :: r < k <= i ==> !CanCut(flat, k)
  {
    if i == 0 then LINE_RUNES else if CanCut(flat, i) then i else CutFrom(flat, i - 1)
  }

  predicate KeptAsIs(s: string) {
    var parts := Split(s, '\n');
    |parts| == 2 && |parts[0]| <= LINE_RUNES && |parts[1]| <= LINE_RUNES
  }

  function CutAt(flat: string, cut: nat): string
    requires cut <= |flat|
  {
    TrimSpace(flat[..cut]) + "\n" + TrimSpace(flat[cut..])
  }

  function WrapSubtitle(s: string): string {
    if KeptAsIs(s) then s else
    var flat := Flatten(s);
    if |flat| <= LINE_RUNES then flat else CutAt(flat, CutFrom(flat, LINE_RUNES))
  }

  method Wrap(s: string) returns (r: string)
    ensures r == WrapSubtitle(s)
  {
    var parts := Split(s, '\n');
    if |parts| == 2 && |parts[0]| <= LINE_RUNES && |parts[1]| <= LINE_RUNES {
      return s;
    }
    var flat := Flatten(s);
    if |flat| <= LINE_RUNES {
      return flat;
    }
    var cut, i := LINE_RUNES, LINE_RUNES;
    while i > 0
      invariant 0 <= i <= LINE_RUNES && cut == LINE_RUNES
      invariant CutFrom(flat, LINE_RUNES) == CutFrom(flat, i)
    {
      if flat[i] == ' ' && |flat| - i - 1 <= LINE_RUNES {
        cut := i;
        break;
      }
      i := i - 1;
    }
    return CutAt(flat, cut);
  }

  /** Lines of a wrapped text. */
  function Lines(s: string): seq<string> {
    Split(s, '\n')
  }

  predicate FitsCard(lines: seq<string>) {
    |lines| <= 2 && forall k :: 0 <= k < |lines| ==> |lines[k]| <= LINE_RUNES
  }

  lemma FlatHasNoBreak(s: string)
    ensures '\n' !in Flatten(s)
    ensures forall k :: 0 <= k < |Flatten(s)| ==> Flatten(s)[k] == ' ' || !IsSpace(Flatten(s)[k])
  {
    JoinedChars(Fields(s));
  }

  lemma TrimmedAfterSpace(s: string)
    requires s != "" && IsSpace(s[0])
    ensures |TrimSpace(s)| <= |s| - 1
  {
  }

  lemma TwoLines(a: string, b: string)
    requires '\n' !in a && '\n' !in b
    ensures Lines(a + "\n" + b) == [a, b]
  {
    assert a + "\n" + b == a + ['\n'] + b;
    SplitOfConcat(a, '\n', b);
    SplitOfPlain(a, '\n');
    SplitOfPlain(b, '\n');
  }

  lemma TwoLinesFit(a: string, b: string)
    requires '\n' !in a && '\n' !in b && |a| <= LINE_RUNES && |b| <= LINE_RUNES
    ensures FitsCard(Lines(a + "\n" + b))
  {
    TwoLines(a, b);
  }

  lemma CutHasNoBreak(flat: string, cut: nat)
    requires cut <= |flat| && '\n' !in flat
    ensures '\n' !in TrimSpace(flat[..cut]) && '\n' !in TrimSpace(flat[cut..])
  {
    assert forall c :: c in flat[..cut] ==> c in flat;
    assert forall c :: c in flat[cut..] ==> c in flat;
  }

  lemma CutFits(flat: string)
    requires LINE_RUNES < |flat| <= 2 * LINE_RUNES && '\n' !in flat
    ensures FitsCard(Lines(CutAt(flat, CutFrom(flat, LINE_RUNES))))
  {
    var cut := CutFrom(flat, LINE_RUNES);
    PartsFit(flat, cut);
    CutHasNoBreak(flat, cut);
    TwoLinesFit(TrimSpace(flat[..cut]), TrimSpace(flat[cut..]));
  }

  lemma PartsFit(flat: string, cut: nat)
    requires cut <= |flat| <= 2 * LINE_RUNES && (cut == LINE_RUNES || (cut < LINE_RUNES && CanCut(flat, cut)))
    ensures |TrimSpace(flat[..cut])| <= LINE_RUNES && |TrimSpace(flat[cut..])| <= LINE_RUNES
  {
    if cut < LINE_RUNES {
      TrimmedAfterSpace(flat[cut..]);
    }
  }

  /** Any subtitle of at most 90 runes is drawn in at most two lines of at most 45 runes. */
  lemma WrappedFits(s: string)
    requires |s| <= 2 * LINE_RUNES
    ensures FitsCard(Lines(WrapSubtitle(s)))
  {
    if !KeptAsIs(s) {
      FlatHasNoBreak(s);
      FlattenedIsNoLonger(s);
      var flat := Flatten(s);
      if |flat| <= LINE_RUNES {
        SplitOfPlain(flat, '\n');
      } else {
        CutFits(flat);
      }
    }
  }

  /** ... with the same characters in the same order, apart from spaces and breaks. */
  lemma WrappedKeepsInk(s: string)
    ensures Ink(WrapSubtitle(s)) == Ink(s)
  {
    if !KeptAsIs(s) {
      InkOfFlattened(s);
      var flat := Flatten(s);
      if |flat| > LINE_RUNES {
        var cut := CutFrom(flat, LINE_RUNES);
        var a, b := flat[..cut], flat[cut..];
        assert flat == a + b;
        InkOfConcat(a, b);
        InkOfTrimmed(a);
        InkOfTrimmed(b);
        InkOfConcat(TrimSpace(a) + "\n", TrimSpace(b));
        InkOfConcat(TrimSpace(a), "\n");
        assert Ink("\n") == "" by { assert "\n"[1..] == ""; }
      }
    }
  }

  /** A word is cut in two only if no space leaves both lines short enough. */
  lemma WordsAreKeptWhenPossible(s: string, k: nat)
    requires !KeptAsIs(s) && |Flatten(s)| > LINE_RUNES && 0 < k <= LINE_RUNES && CanCut(Flatten(s), k)
    ensures exists cut :: k <= cut <= LINE_RUNES && Flatten(s)[cut] == ' ' && WrapSubtitle(s) == CutAt(Flatten(s), cut)
  {
    var flat := Flatten(s);
    var cut := CutFrom(flat, LINE_RUNES);
    assert CanCut(flat, cut) && WrapSubtitle(s) == CutAt(flat, cut);
  }

  // ---- sizing --------------------------------------------------------------

  predicate Narrow(c: char) {
    || c == 'i' || c == 'l' || c == 'f' || c == 't' || c == 'j' || c == '.'
    || c == ',' || c == ':' || c == ';' || c == '!' || c == '\'' || c == '|'
  }

  /** Estimated width of a rune, in hundredths of the font size. */
  function RuneWidth(u: Tables, c: char): (w: nat)
    ensures 0 < w <= 115
  {
    if c == 'W' || c == 'M' then 112
    else if c == 'w' || c == 'm' then 95
    else if c == ' ' then 40
    else if Narrow(c) then 50
    else if u.upper(c) then 90
    else if u.digit(c) then 75
    else if c as int > 127 then 115
    else 70
  }

  function Width(u: Tables, line: string): nat {
    if line == "" then 0 else Width(u, line[..|line| - 1]) + RuneWidth(u, line[|line| - 1])
  }

  function Widest(u: Tables, lines: seq<string>): nat {
    if lines == [] then 0 else
    var rest, last := Widest(u, lines[..|lines| - 1]), Width(u, lines[|lines| - 1]);
    if last > rest then last else rest
  }

  /** The widest line is one of them, and none is wider. */
  lemma {:induction false} WidestIsMaximum(u: Tables, lines: seq<string>)
    ensures forall k :: 0 <= k < |lines| ==> Width(u, lines[k]) <= Widest(u, lines)
    ensures lines != [] ==> exists k :: 0 <= k < |lines| && Width(u, lines[k]) == Widest(u, lines)
    decreases |lines|
  {
    if lines != [] {
      var front := lines[..|lines| - 1];
      WidestIsMaximum(u, front);
      assert forall k :: 0 <= k < |front| ==> front[k] == lines[k];
      if Widest(u, lines) == Widest(u, front) && front != [] {
        var k :| 0 <= k < |front| && Width(u, front[k]) == Widest(u, front);
        assert Width(u, lines[k]) == Widest(u, lines);
      } else {
        assert Width(u, lines[|lines| - 1]) == Widest(u, lines);
      }
    }
  }

  function SizeFor(widest: nat, maximum: nat): nat {
    if widest == 0 then maximum else
    var n := TARGET / widest;
    var m := if n < MIN_SIZE then MIN_SIZE else n;
    if m > maximum then maximum else m
  }

  function FontSize(u: Tables, s: string, maximum: nat): nat {
    SizeFor(Widest(u, Lines(s)), maximum)
  }

  method FitFontSize(u: Tables, s: string, maximum: nat) returns (n: nat)
    ensures n == FontSize(u, s, maximum)
  {
    var longest, lines := 0, Lines(s);
    for i := 0 to |lines|
      invariant longest == Widest(u, lines[..i])
    {
      var width := MeasureLine(u, lines[i]);
      assert lines[..i + 1][..i] == lines[..i];
      if width > longest {
        longest := width;
      }
    }
    assert lines[..|lines|] == lines;
    if longest == 0 {
      return maximum;
    }
    n := TARGET / longest;
    if n < MIN_SIZE {
      n := MIN_SIZE;
    }
    if n > maximum {
      n := maximum;
    }
  }

  method MeasureLine(u: Tables, line: string) returns (width: nat)
    ensures width == Width(u, line)
  {
    width := 0;
    for j := 0 to |line|
      invariant width == Width(u, line[..j])
    {
      assert line[..j + 1][..j] == line[..j];
      width := width + RuneWidth(u, line[j]);
    }
    assert line[..|line|] == line;
  }

  lemma {:induction false} WidthBound(u: Tables, line: string)
    ensures Width(u, line) <= 115 * |line|
    decreases |line|
  {
    if line != "" {
      WidthBound(u, line[..|line| - 1]);
    }
  }

  lemma WidestBound(u: Tables, lines: seq<string>, runes: nat)
    requires forall k :: 0 <= k < |lines| ==> |lines[k]| <= runes
    ensures Widest(u, lines) <= 115 * runes
  {
    WidestIsMaximum(u, lines);
    if lines != [] {
      var k :| 0 <= k < |lines| && Width(u, lines[k]) == Widest(u, lines);
      WidthBound(u, lines[k]);
    }
  }

  lemma Monotone(a: nat, b: nat, c: nat)
    requires a <= b
    ensures a * c <= b * c
  {
  }

  lemma Quotient(widest: nat)
    requires widest > 0
    ensures var n := TARGET / widest; n * widest <= TARGET < (n + 1) * widest
  {
  }

  /** The size chosen is the largest up to the maximum that keeps to 1280 pixels, but never below 28. */
  lemma SizeIsLargest(widest: nat, maximum: nat)
    requires maximum >= MIN_SIZE
    ensures var n := SizeFor(widest, maximum);
            && 28 <= n <= maximum
            && (n * widest <= 128000 || n == 28)
            && (n == maximum || (n + 1) * widest > 128000)
  {
    if widest > 0 {
      Quotient(widest);
      var q, n := TARGET / widest, SizeFor(widest, maximum);
      if n <= q {
        Monotone(n, q, widest);
      }
      if n < maximum {
        Monotone(q + 1, n + 1, widest);
      }
    }
  }

  lemma SmallTimes(n: nat, widest: nat, bound: nat)
    requires widest <= bound
    ensures n * widest <= n * bound
  {
  }

  lemma SizedWidthFits(widest: nat, maximum: nat, width: nat, runes: nat)
    requires maximum >= MIN_SIZE && width <= widest <= 115 * runes
    ensures var n := SizeFor(widest, maximum); n * width <= TARGET || n * width <= MIN_SIZE * 115 * runes
  {
    SizeIsLargest(widest, maximum);
    SmallTimes(SizeFor(widest, maximum), width, widest);
  }

  /** Lines of at most `runes` runes stay within 1280 pixels, or within what the least size needs. */
  lemma SizedLineFits(u: Tables, lines: seq<string>, runes: nat, maximum: nat, k: nat)
    requires maximum >= MIN_SIZE && k < |lines| && forall i :: 0 <= i < |lines| ==> |lines[i]| <= runes
    ensures var n := SizeFor(Widest(u, lines), maximum);
            n * Width(u, lines[k]) <= TARGET || n * Width(u, lines[k]) <= MIN_SIZE * 115 * runes
  {
    var w := Widest(u, lines);
    var n := SizeFor(w, maximum);
    WidestIsMaximum(u, lines);
    WidestBound(u, lines, runes);
    SizedWidthFits(w, maximum, Width(u, lines[k]), runes);
  }

  // ---- every slate's text --------------------------------------------------

  const CAPACITY_TEXT: Text := Text("Capacity limit reached", "This stream is unavailable because its bandwidth limit was reached.")
  const PRIVATE_TEXT: Text := Text("Private stream", "This stream is not intended for public distribution.")
  const OWNER_TEXT: Text := Text("Access revoked", "The stream owner has revoked access to this URL.")
  const DISCONTINUED_TEXT: Text := Text("Stream discontinued", "This stream is permanently unavailable at this address.")
  const TEMPORARY_TEXT: Text := Text("Temporarily unavailable", "The source is not responding. Please try again shortly.")
  const REVOKED_TEXT: Text := Text("Stream unavailable", "This access URL has been revoked.")

  function DefaultText(reason: string): Text {
    if reason == "limited_bandwidth" then CAPACITY_TEXT
    else if reason == "not_intended_for_public" then PRIVATE_TEXT
    else if reason == "access_revoked_by_owner" then OWNER_TEXT
    else if reason == "stream_permanently_discontinued" then DISCONTINUED_TEXT
    else if reason == TEMPORARY_REASON then TEMPORARY_TEXT
    else REVOKED_TEXT
  }

  /** The text a slate draws: what was configured if it can be normalised, else the default. */
  function Drawn(u: Tables, reason: string, loaded: Option<Text>): Text {
    if loaded.Some? && NormalizeText(u, loaded.value).Some? then NormalizeText(u, loaded.value).value
    else DefaultText(reason)
  }

  predicate Short(t: Text) {
    |t.title| <= 32 && |t.subtitle| <= 90
  }

  lemma FirstDefaultsAreShort()
    ensures Short(CAPACITY_TEXT) && Short(PRIVATE_TEXT) && Short(OWNER_TEXT)
  {
  }

  lemma LastDefaultsAreShort()
    ensures Short(DISCONTINUED_TEXT) && Short(TEMPORARY_TEXT) && Short(REVOKED_TEXT)
  {
  }

  lemma DefaultIsShort(reason: string)
    ensures Short(DefaultText(reason))
  {
    FirstDefaultsAreShort();
    LastDefaultsAreShort();
  }

  lemma NormalizedIsShort(u: Tables, t: Text)
    requires NormalizeText(u, t).Some?
    ensures Short(NormalizeText(u, t).value)
  {
  }

  lemma DrawnIsShort(u: Tables, reason: string, loaded: Option<Text>)
    ensures Short(Drawn(u, reason, loaded))
  {
    if loaded.Some? && NormalizeText(u, loaded.value).Some? {
      NormalizedIsShort(u, loaded.value);
    } else {
      DefaultIsShort(reason);
    }
  }

  lemma {:induction false} PartsAreShort(s: string, k: nat)
    requires k < |Lines(s)|
    ensures |Lines(s)[k]| <= |s|
    decreases |s|
  {
    if s != "" {
      var rest := Split(s[1..], '\n');
      if s[0] == '\n' {
        if k > 0 {
          assert Lines(s)[k] == rest[k - 1];
          PartsAreShort(s[1..], k - 1);
        }
      } else {
        assert k > 0 ==> Lines(s)[k] == rest[k];
        PartsAreShort(s[1..], k);
      }
    }
  }

  /** Every line of the title keeps to 1280 pixels. */
  lemma TitleFits(u: Tables, reason: string, loaded: Option<Text>, k: nat)
    requires k < |Lines(Drawn(u, reason, loaded).title)|
    ensures var title := Drawn(u, reason, loaded).title;
            28 <= FontSize(u, title, 117) <= 117 && FontSize(u, title, 117) * Width(u, Lines(title)[k]) <= 128000
  {
    DrawnIsShort(u, reason, loaded);
    var title := Drawn(u, reason, loaded).title;
    forall i | 0 <= i < |Lines(title)| ensures |Lines(title)[i]| <= 32 {
      PartsAreShort(title, i);
    }
    SizedLineFits(u, Lines(title), 32, 117, k);
    SizeIsLargest(Widest(u, Lines(title)), 117);
  }

  /** The subtitle is at most two lines, and each keeps to 1449 pixels. */
  lemma SubtitleFits(u: Tables, reason: string, loaded: Option<Text>, k: nat)
    requires k < |Lines(WrapSubtitle(Drawn(u, reason, loaded).subtitle))|
    ensures var wrapped := WrapSubtitle(Drawn(u, reason, loaded).subtitle);
            && |Lines(wrapped)| <= 2 && |Lines(wrapped)[k]| <= 45
            && 28 <= FontSize(u, wrapped, 47) <= 47 && FontSize(u, wrapped, 47) * Width(u, Lines(wrapped)[k]) <= 144900
  {
    DrawnIsShort(u, reason, loaded);
    var wrapped := WrapSubtitle(Drawn(u, reason, loaded).subtitle);
    WrappedFits(Drawn(u, reason, loaded).subtitle);
    SizedLineFits(u, Lines(wrapped), LINE_RUNES, 47, k);
    SizeIsLargest(Widest(u, Lines(wrapped)), 47);
  }
}
