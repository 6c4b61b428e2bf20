/**
  What slate texts turn into, told from their characters: what cleaning leaves of a text, which texts
  are accepted, and where a subtitle is broken.
 */
module SlateWords {
  import opened Common
  import opened Strings
  import opened SlateState
  import opened SlateText
  import opened SlateLayout

  // ---- cleaning -------------------------------------------------------------

  /** A character that is drawn: neither white space, nor a control or format character. */
  predicate Drawable(u: Tables, c: char) {
    !IsSpace(c) && !u.format(c) && !(c as int < 32 || 127 <= c as int <= 159)
  }

  /** The characters of the text that are drawn, in order. */
  function Visible(u: Tables, s: string): string {
    if s == "" then "" else if Drawable(u, s[0]) then [s[0]] + Visible(u, s[1..]) else Visible(u, s[1..])
  }

  lemma {:induction false} VisibleOfUnixBreaks(u: Tables, s: string)
    ensures Visible(u, UnixBreaks(s)) == Visible(u, s)
    decreases |s|
  {
    if |s| >= 2 {
      if s[0] == '\r' && s[1] == '\n' {
        VisibleOfUnixBreaks(u, s[2..]);
        assert s[1..][1..] == s[2..];
        assert (['\n'] + UnixBreaks(s[2..]))[1..] == UnixBreaks(s[2..]);
      } else {
        VisibleOfUnixBreaks(u, s[1..]);
        assert ([s[0]] + UnixBreaks(s[1..]))[1..] == UnixBreaks(s[1..]);
      }
    }
  }

  lemma {:induction false} InkOfBlanked(u: Tables, s: string, allowBreak: bool)
    ensures Ink(Blanked(u, s, allowBreak)) == Visible(u, s)
    decreases |s|
  {
    if s != "" {
      assert Blanked(u, s, allowBreak)[1..] == Blanked(u, s[1..], allowBreak);
      InkOfBlanked(u, s[1..], allowBreak);
      BlankIsDrawable(u, s[0], allowBreak);
    }
  }

  lemma BlankIsDrawable(u: Tables, c: char, allowBreak: bool)
    ensures !IsSpace(Blank(u, c, allowBreak)) <==> Drawable(u, c)
    ensures Drawable(u, c) ==> Blank(u, c, allowBreak) == c
  {
  }

  /** Cleaning keeps every character that is drawn, in order, and adds nothing but space. */
  lemma CleanKeepsWhatIsDrawn(u: Tables, s: string, allowBreak: bool)
    ensures Ink(Clean(u, s, allowBreak)) == Visible(u, s)
  {
    var blanked := Blanked(u, UnixBreaks(s), allowBreak);
    VisibleOfUnixBreaks(u, s);
    InkOfBlanked(u, UnixBreaks(s), allowBreak);
    InkOfTrimmed(blanked);
    InkOfFlattened(TrimSpace(blanked));
  }

  /** Words stand apart by one space. */
  predicate SinglySpaced(s: string) {
    && (s == "" || (!IsSpace(s[0]) && !IsSpace(s[|s| - 1])))
    && forall k :: 0 <= k < |s| && IsSpace(s[k]) ==> s[k] == ' ' && 0 < k < |s| - 1 && !IsSpace(s[k - 1]) && !IsSpace(s[k + 1])
  }

  lemma JoinedPairIsSinglySpaced(word: string, rest: string)
    requires IsWord(word) && rest != "" && SinglySpaced(rest)
    ensures SinglySpaced(word + " " + rest)
  {
    var s := word + " " + rest;
    assert forall k :: 0 <= k < |word| ==> s[k] == word[k];
    assert s[|word|] == ' ';
    assert forall k :: 0 <= k < |rest| ==> s[|word| + 1 + k] == rest[k];
  }

  lemma {:induction false} FlatIsSinglySpaced(ws: seq<string>)
    requires Words(ws)
    ensures SinglySpaced(Join(ws, ' '))
    decreases |ws|
  {
    if |ws| == 1 {
      assert IsWord(ws[0]);
    } else if |ws| > 1 {
      FlatIsSinglySpaced(ws[1..]);
      JoinedChars(ws[1..]);
      assert IsWord(ws[0]);
      JoinedPairIsSinglySpaced(ws[0], Join(ws[1..], ' '));
    }
  }

  /** A cleaned title is words one space apart; a cleaned subtitle starts and ends with what is drawn. */
  lemma CleanIsTrimmed(u: Tables, s: string)
    ensures SinglySpaced(Clean(u, s, false))
    ensures var t := Clean(u, s, true); t == "" || (!IsSpace(t[0]) && !IsSpace(t[|t| - 1]))
  {
    FlatIsSinglySpaced(Fields(TrimSpace(Blanked(u, UnixBreaks(s), false))));
  }

  /** A line that cleaning leaves alone: no control or format character, and no space at its ends. */
  predicate Settled(u: Tables, s: string) {
    && (forall k :: 0 <= k < |s| ==> !u.format(s[k]) && !(s[k] as int < 32 || 127 <= s[k] as int <= 159))
    && s != "" && !IsSpace(s[0]) && !IsSpace(s[|s| - 1])
  }

  lemma {:induction false} NoReturns(s: string)
    requires forall k :: 0 <= k < |s| ==> s[k] != '\r'
    ensures UnixBreaks(s) == s
  {
  }

  lemma HeadOfTyped(a: string, b: string)
    requires a != ""
    ensures var s := a + "\r\n" + b; s[0] == a[0] && s[1..] == a[1..] + "\r\n" + b && |s| >= 3
    ensures [a[0]] + (a[1..] + "\n" + b) == a + "\n" + b
  {
  }

  lemma {:induction false} BreakBecomesUnix(a: string, b: string)
    requires '\r' !in a && '\r' !in b && b != ""
    ensures UnixBreaks(a + "\r\n" + b) == a + "\n" + b
    decreases |a|
  {
    if a == "" {
      var s := a + "\r\n" + b;
      assert s[0] == '\r' && s[1] == '\n' && s[2..] == b;
      NoReturns(b);
    } else {
      HeadOfTyped(a, b);
      BreakBecomesUnix(a[1..], b);
    }
  }

  lemma NothingIsBlanked(u: Tables, s: string)
    requires forall k :: 0 <= k < |s| ==> s[k] == '\n' || (!u.format(s[k]) && !(s[k] as int < 32 || 127 <= s[k] as int <= 159))
    ensures Blanked(u, s, true) == s
  {
  }

  lemma NothingToTrim(s: string)
    requires s != "" && !IsSpace(s[0]) && !IsSpace(s[|s| - 1])
    ensures TrimSpace(s) == s
  {
  }

  lemma SettledStays(u: Tables, a: string)
    requires Settled(u, a)
    ensures Clean(u, a, true) == a
  {
    NoReturns(a);
    NothingIsBlanked(u, a);
    NothingToTrim(a);
  }

  /** Cleaning what Unix breaks make of a text gives two settled lines. */
  lemma TwoSettledStay(u: Tables, a: string, b: string, typed: string)
    requires Settled(u, a) && Settled(u, b) && UnixBreaks(typed) == a + "\n" + b
    ensures Clean(u, typed, true) == a + "\n" + b
  {
    var s := a + "\n" + b;
    forall k | 0 <= k < |s|
      ensures s[k] == '\n' || (!u.format(s[k]) && !(s[k] as int < 32 || 127 <= s[k] as int <= 159))
    {
      assert s[k] == if k < |a| then a[k] else if k == |a| then '\n' else b[k - |a| - 1];
    }
    NothingIsBlanked(u, s);
    assert s[0] == a[0] && s[|s| - 1] == b[|b| - 1];
    NothingToTrim(s);
  }

  lemma SettledHasNoReturn(u: Tables, s: string)
    requires Settled(u, s)
    ensures '\r' !in s && '\n' !in s
  {
  }

  /** Cleaning a subtitle keeps settled lines and one break between them, however it was typed. */
  lemma CleanKeepsLines(u: Tables, a: string, b: string)
    requires Settled(u, a) && Settled(u, b)
    ensures Clean(u, a, true) == a
    ensures Clean(u, a + "\n" + b, true) == a + "\n" + b
    ensures Clean(u, a + "\r\n" + b, true) == a + "\n" + b
  {
    SettledStays(u, a);
    SettledHasNoReturn(u, a);
    SettledHasNoReturn(u, b);
    NoReturns(a + "\n" + b);
    TwoSettledStay(u, a, b, a + "\n" + b);
    BreakBecomesUnix(a, b);
    TwoSettledStay(u, a, b, a + "\r\n" + b);
  }

  // ---- limits ---------------------------------------------------------------

  /** The text has two line breaks or more. */
  ghost predicate TwoBreaks(s: string) {
    exists i, j :: 0 <= i < j < |s| && s[i] == '\n' && s[j] == '\n'
  }

  lemma {:induction false} BreaksAreCounted(s: string)
    ensures Breaks(s) == 0 <==> '\n' !in s
    ensures Breaks(s) <= 1 <==> !TwoBreaks(s)
    decreases |s|
  {
    if s != "" {
      var rest := s[1..];
      BreaksAreCounted(rest);
      assert s == [s[0]] + rest;
      if TwoBreaks(rest) {
        var i, j :| 0 <= i < j < |rest| && rest[i] == '\n' && rest[j] == '\n';
        assert s[i + 1] == '\n' && s[j + 1] == '\n';
      }
      if TwoBreaks(s) {
        var i, j :| 0 <= i < j < |s| && s[i] == '\n' && s[j] == '\n';
        assert rest[j - 1] == '\n';
        assert i > 0 ==> rest[i - 1] == '\n';
      }
      if s[0] == '\n' && '\n' in rest {
        var j :| 0 <= j < |rest| && rest[j] == '\n';
        assert s[0] == '\n' && s[j + 1] == '\n';
      }
    }
  }

  /**
    A text is accepted exactly if, cleaned, its title has 1 to 32 characters and its subtitle 1 to 90
    with at most one line break; and then it is the cleaned text.
   */
  lemma TextIsAcceptedExactly(u: Tables, t: Text)
    ensures var title, subtitle := Clean(u, t.title, false), Clean(u, t.subtitle, true);
            NormalizeText(u, t) ==
            if 1 <= |title| <= 32 && 1 <= |subtitle| <= 90 && !TwoBreaks(subtitle) then Some(Text(title, subtitle)) else None
  {
    BreaksAreCounted(Clean(u, t.subtitle, true));
  }

  /** What is drawn: the configured text, cleaned, if it is accepted, and the reason's own text otherwise. */
  lemma DrawnExactly(u: Tables, reason: string, t: Text)
    ensures var title, subtitle := Clean(u, t.title, false), Clean(u, t.subtitle, true);
            Drawn(u, reason, Some(t)) ==
            if 1 <= |title| <= 32 && 1 <= |subtitle| <= 90 && !TwoBreaks(subtitle) then Text(title, subtitle)
            else DefaultText(reason)
    ensures Drawn(u, reason, None) == DefaultText(reason)
  {
    TextIsAcceptedExactly(u, t);
  }

  /** The titles a slate has by default, one for each reason. */
  lemma EachReasonHasItsTitle(reason: string)
    ensures DefaultText(reason).title ==
            match reason
            case "limited_bandwidth" => "Capacity limit reached"
            case "not_intended_for_public" => "Private stream"
            case "access_revoked_by_owner" => "Access revoked"
            case "stream_permanently_discontinued" => "Stream discontinued"
            case "temporarily_unavailable" => "Temporarily unavailable"
            case _ => "Stream unavailable"
  {
  }

  // ---- where a subtitle is broken -------------------------------------------

  /** Two lines of at most 45 characters are drawn as they are. */
  lemma ShortLinesStay(a: string, b: string)
    requires '\n' !in a && '\n' !in b && |a| <= 45 && |b| <= 45
    ensures WrapSubtitle(a + "\n" + b) == a + "\n" + b
  {
    TwoLines(a, b);
  }

  /** The text is two lines of at most 45 characters. */
  ghost predicate TwoShortLines(s: string) {
    exists a, b :: s == a + "\n" + b && '\n' !in a && '\n' !in b && |a| <= 45 && |b| <= 45
  }

  lemma KeptAreTwoShortLines(s: string)
    ensures KeptAsIs(s) <==> TwoShortLines(s)
  {
    var parts := Split(s, '\n');
    JoinSplit(s, '\n');
    if KeptAsIs(s) {
      assert parts == [parts[0], parts[1]];
      assert Join(parts, '\n') == parts[0] + ['\n'] + parts[1] == parts[0] + "\n" + parts[1];
    }
    if TwoShortLines(s) {
      var a, b :| s == a + "\n" + b && '\n' !in a && '\n' !in b && |a| <= 45 && |b| <= 45;
      TwoLines(a, b);
    }
  }

  /** A space at `k` leaves at most 45 characters on either side. */
  predicate GoodBreak(flat: string, k: nat) {
    0 < k <= 45 && k < |flat| && flat[k] == ' ' && |flat| - k - 1 <= 45
  }

  /**
    Any other text is set in words one space apart; if that is too long for one line it is broken at
    the last space that leaves two lines of at most 45, and in the middle of a word after 45
    characters exactly if there is no such space.
   */
  lemma OthersAreBrokenExactly(s: string)
    requires !TwoShortLines(s)
    ensures var flat, r := Flatten(s), WrapSubtitle(s);
            && (|flat| <= 45 ==> r == flat)
            && (|flat| > 45 ==>
                  exists k :: 0 < k <= 45 && r == TrimSpace(flat[..k]) + "\n" + TrimSpace(flat[k..])
                              && (GoodBreak(flat, k) || (k == 45 && forall j :: !GoodBreak(flat, j)))
                              && forall j :: k < j ==> !GoodBreak(flat, j))
  {
    KeptAreTwoShortLines(s);
    var flat := Flatten(s);
    if |flat| > 45 {
      var cut := CutFrom(flat, 45);
      forall j: nat ensures GoodBreak(flat, j) <==> 0 < j <= 45 && CanCut(flat, j) {
      }
      assert WrapSubtitle(s) == TrimSpace(flat[..cut]) + "\n" + TrimSpace(flat[cut..]);
    }
  }

  lemma NoSpaceToTrim(s: string)
    requires forall k :: 0 <= k < |s| ==> !IsSpace(s[k])
    ensures TrimSpace(s) == s
  {
  }

  lemma OneWord(s: string)
    requires s != "" && forall k :: 0 <= k < |s| ==> !IsSpace(s[k])
    ensures Flatten(s) == s
  {
    assert WordEnd(s, 0) == |s|;
    assert s[..|s|] == s && s[|s|..] == "";
    assert Fields(s) == [s];
  }

  lemma TwoLinesBreak(s: string)
    ensures TwoShortLines(s) ==> exists k :: 0 <= k < |s| && IsSpace(s[k])
  {
    if TwoShortLines(s) {
      var a, b :| s == a + "\n" + b && '\n' !in a && '\n' !in b && |a| <= 45 && |b| <= 45;
      assert IsSpace(s[|a|]);
    }
  }

  lemma NoGoodBreak(s: string)
    requires forall k :: 0 <= k < |s| ==> !IsSpace(s[k])
    ensures forall j :: !GoodBreak(s, j)
  {
    forall j: nat ensures !GoodBreak(s, j) {
      assert IsSpace(' ');
    }
  }

  lemma BrokenInTheMiddle(s: string)
    requires !TwoShortLines(s) && |Flatten(s)| > 45 && forall j :: !GoodBreak(Flatten(s), j)
    ensures WrapSubtitle(s) == TrimSpace(Flatten(s)[..45]) + "\n" + TrimSpace(Flatten(s)[45..])
  {
    OthersAreBrokenExactly(s);
  }

  lemma HalvesAreInk(s: string)
    requires |s| == 90 && forall k :: 0 <= k < |s| ==> !IsSpace(s[k])
    ensures TrimSpace(s[..45]) == s[..45] && TrimSpace(s[45..]) == s[45..]
  {
    NoSpaceToTrim(s[..45]);
    NoSpaceToTrim(s[45..]);
  }

  /** Ninety characters without a space are split into two lines of 45. */
  lemma UnspacedIsHalved(s: string)
    requires |s| == 90 && forall k :: 0 <= k < |s| ==> !IsSpace(s[k])
    ensures WrapSubtitle(s) == s[..45] + "\n" + s[45..]
  {
    OneWord(s);
    TwoLinesBreak(s);
    NoGoodBreak(s);
    BrokenInTheMiddle(s);
    HalvesAreInk(s);
  }
}
