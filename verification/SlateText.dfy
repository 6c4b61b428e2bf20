/**
  Slate texts: normalising what an operator typed, wrapping the subtitle and choosing font sizes.
  Strings are sequences of runes; widths are in hundredths of the font size.
 */
module SlateText {
  import opened Common
  import opened Strings
  import opened SlateState

  datatype Text = Text(title: string, subtitle: string)

  // ---- character classes ---------------------------------------------------

  predicate IsControl(c: char) {
    c < 32 as char || 127 as char <= c <= 159 as char
  }

  /** The classes that Unicode lists in tables: format characters, upper case and digits. */
  datatype Tables = Tables(format: char -> bool, upper: char -> bool, digit: char -> bool)

  /** The space and the line feed are no format characters. */
  predicate Sound(u: Tables) {
    !u.format(' ') && !u.format('\n')
  }

  // ---- fields -------------------------------------------------

  function WordEnd(s: string, i: nat): (r: nat)
    requires i <= |s|
    ensures i <= r <= |s| && (r == |s| || IsSpace(s[r]))
    ensures forall k :: i <= k < r ==> !IsSpace(s[k])
    decreases |s| - i
  {
    if i == |s| || IsSpace(s[i]) then i else WordEnd(s, i + 1)
  }

  predicate IsWord(w: string) {
    w != "" && forall k :: 0 <= k < |w| ==> !IsSpace(w[k])
  }

  function Fields(s: string): (r: seq<string>)
    ensures forall k :: 0 <= k < |r| ==> IsWord(r[k])
    decreases |s|
  {
    if s == "" then []
    else if IsSpace(s[0]) then Fields(s[1..])
    else [s[..WordEnd(s, 0)]] + Fields(s[WordEnd(s, 0)..])
  }

  /** The words of a text, one space between them. */
  function Flatten(s: string): string {
    Join(Fields(s), ' ')
  }

  /** The text without its spaces and breaks. */
  function Ink(s: string): string {
    if s == "" then "" else if IsSpace(s[0]) then Ink(s[1..]) else [s[0]] + Ink(s[1..])
  }

  lemma {:induction false} InkOfConcat(a: string, b: string)
    ensures Ink(a + b) == Ink(a) + Ink(b)
    decreases |a|
  {
    if a == "" {
      assert a + b == b;
    } else {
      assert (a + b)[1..] == a[1..] + b;
      InkOfConcat(a[1..], b);
    }
  }

  lemma {:induction false} InkOfWord(w: string)
    requires forall k :: 0 <= k < |w| ==> !IsSpace(w[k])
    ensures Ink(w) == w
    decreases |w|
  {
    if w != "" {
      InkOfWord(w[1..]);
    }
  }

  lemma {:induction false} InkOfTrimmed(s: string)
    ensures Ink(TrimSpace(s)) == Ink(s)
    decreases |s|
  {
    if s != "" && IsSpace(s[0]) {
      InkOfTrimmed(s[1..]);
    } else if s != "" && IsSpace(s[|s| - 1]) {
      InkOfTrimmed(s[..|s| - 1]);
      var last := s[|s| - 1..];
      assert s == s[..|s| - 1] + last;
      InkOfConcat(s[..|s| - 1], last);
      assert Ink(last) == "" by { assert last[1..] == ""; }
    }
  }

  lemma {:induction false} InkOfFlattened(s: string)
    ensures Ink(Flatten(s)) == Ink(s)
    decreases |s|
  {
    if s != "" {
      if IsSpace(s[0]) {
        InkOfFlattened(s[1..]);
      } else {
        var n := WordEnd(s, 0);
        var word, rest := s[..n], Fields(s[n..]);
        assert s == word + s[n..];
        InkOfConcat(word, s[n..]);
        InkOfFlattened(s[n..]);
        InkOfJoinedPair(word, rest);
      }
    }
  }

  lemma InkOfJoinedPair(word: string, rest: seq<string>)
    ensures Ink(Join([word] + rest, ' ')) == Ink(word) + Ink(Join(rest, ' '))
  {
    if rest == [] {
      assert Join([word] + rest, ' ') == word;
      assert Ink(word) + Ink("") == Ink(word);
    } else {
      assert ([word] + rest)[1..] == rest;
      InkOfConcat(word + " ", Join(rest, ' '));
      InkOfConcat(word, " ");
      assert Ink(" ") == "" by { assert " "[1..] == ""; }
    }
  }

  /** Flattening does not make a text longer. */
  lemma {:induction false} FlattenedIsNoLonger(s: string)
    ensures |Flatten(s)| <= |s|
    decreases |s|
  {
    if s != "" {
      if IsSpace(s[0]) {
        FlattenedIsNoLonger(s[1..]);
      } else {
        var n := WordEnd(s, 0);
        var rest := Fields(s[n..]);
        if rest != [] {
          assert ([s[..n]] + rest)[1..] == rest;
          assert s[n..][1..] == s[n + 1..];
          FlattenedIsNoLonger(s[n + 1..]);
        }
      }
    }
  }

  predicate Words(ws: seq<string>) {
    forall k :: 0 <= k < |ws| ==> IsWord(ws[k])
  }

  lemma {:induction false} JoinedChars(ws: seq<string>)
    requires Words(ws)
    ensures var t := Join(ws, ' ');
            && (forall k :: 0 <= k < |t| ==> t[k] == ' ' || !IsSpace(t[k]))
            && (ws != [] ==> t != "" && !IsSpace(t[0]) && !IsSpace(t[|t| - 1]))
    decreases |ws|
  {
    if |ws| > 1 {
      JoinedChars(ws[1..]);
    } else if |ws| == 1 {
      assert IsWord(ws[0]);
    }
  }

  lemma WordEndOfPair(word: string, tail: string)
    requires IsWord(word) && (tail == "" || IsSpace(tail[0]))
    ensures WordEnd(word + tail, 0) == |word|
  {
    var n := WordEnd(word + tail, 0);
    assert forall k :: 0 <= k < |word| ==> (word + tail)[k] == word[k];
    if tail != "" {
      assert (word + tail)[|word|] == tail[0];
    }
  }

  /** The words of joined words are those words. */
  lemma {:induction false} FieldsOfJoined(ws: seq<string>)
    requires Words(ws)
    ensures Fields(Join(ws, ' ')) == ws
    decreases |ws|
  {
    if |ws| == 1 {
      WordEndOfPair(ws[0], "");
      assert ws[0] + "" == ws[0];
    } else if |ws| > 1 {
      var rest := Join(ws[1..], ' ');
      var text := ws[0] + (" " + rest);
      assert Join(ws, ' ') == text;
      WordEndOfPair(ws[0], " " + rest);
      assert IsWord(ws[0]);
      assert text[0] == ws[0][0] && text[..|ws[0]|] == ws[0] && text[|ws[0]|..] == " " + rest;
      assert (" " + rest)[1..] == rest;
      FieldsOfJoined(ws[1..]);
    }
  }

  // ---- normalising ---------------------------------------------------------

  function UnixBreaks(s: string): (r: string)
    ensures '\r' !in s ==> r == s
    decreases |s|
  {
    if |s| < 2 then s
    else if s[0] == '\r' && s[1] == '\n' then ['\n'] + UnixBreaks(s[2..])
    else
      assert '\r' !in s ==> '\r' !in s[1..];
      [s[0]] + UnixBreaks(s[1..])
  }

  function Blank(u: Tables, c: char, allowBreak: bool): char {
    if c == '\n' && allowBreak then c
    else if IsControl(c) || u.format(c) then ' '
    else c
  }

  function Blanked(u: Tables, s: string, allowBreak: bool): string {
    seq(|s|, i requires 0 <= i < |s| => Blank(u, s[i], allowBreak))
  }

  function Clean(u: Tables, s: string, allowBreak: bool): string {
    var t := TrimSpace(Blanked(u, UnixBreaks(s), allowBreak));
    if allowBreak then t else Flatten(t)
  }

  function Breaks(s: string): nat {
    |Split(s, '\n')| - 1
  }

  predicate WithinLimits(t: Text) {
    t.title != "" && t.subtitle != "" && |t.title| <= 32 && |t.subtitle| <= 90 && Breaks(t.subtitle) <= 1
  }

  function NormalizeText(u: Tables, t: Text): Option<Text> {
    var cleaned := Text(Clean(u, t.title, false), Clean(u, t.subtitle, true));
    if WithinLimits(cleaned) then Some(cleaned) else None
  }

  /** The loop over the runes. */
  method CleanText(u: Tables, s: string, allowBreak: bool) returns (r: string)
    ensures r == Clean(u, s, allowBreak)
  {
    var runes, b := UnixBreaks(s), "";
    for i := 0 to |runes|
      invariant |b| == i
      invariant forall k :: 0 <= k < i ==> b[k] == Blank(u, runes[k], allowBreak)
    {
      if runes[i] == '\n' && allowBreak {
        b := b + [runes[i]];
      } else if IsControl(runes[i]) || u.format(runes[i]) {
        b := b + [' '];
      } else {
        b := b + [runes[i]];
      }
    }
    assert b == Blanked(u, runes, allowBreak);
    r := TrimSpace(b);
    if !allowBreak {
      r := Flatten(r);
    }
  }

  predicate Tidy(u: Tables, s: string, allowBreak: bool) {
    forall c :: c in s ==> Blank(u, c, allowBreak) == c && c != '\r'
  }

  lemma BlankedIsTidy(u: Tables, s: string, allowBreak: bool)
    requires Sound(u)
    ensures Tidy(u, Blanked(u, s, allowBreak), allowBreak)
  {
  }

  lemma {:induction false} CharsOfJoined(ws: seq<string>, s: string)
    requires forall k :: 0 <= k < |ws| ==> forall c :: c in ws[k] ==> c in s
    ensures forall c :: c in Join(ws, ' ') ==> c == ' ' || c in s
    decreases |ws|
  {
    if |ws| > 1 {
      CharsOfJoined(ws[1..], s);
    }
  }

  lemma {:induction false} CharsOfFields(s: string)
    ensures forall k :: 0 <= k < |Fields(s)| ==> forall c :: c in Fields(s)[k] ==> c in s
    decreases |s|
  {
    if s != "" {
      if IsSpace(s[0]) {
        CharsOfFields(s[1..]);
      } else {
        CharsOfFields(s[WordEnd(s, 0)..]);
      }
    }
  }

  lemma CleanIsTidy(u: Tables, s: string, allowBreak: bool)
    requires Sound(u)
    ensures Tidy(u, Clean(u, s, allowBreak), allowBreak)
  {
    var blanked := Blanked(u, UnixBreaks(s), allowBreak);
    BlankedIsTidy(u, UnixBreaks(s), allowBreak);
    var t := TrimSpace(blanked);
    if !allowBreak {
      CharsOfFields(t);
      CharsOfJoined(Fields(t), t);
    }
  }

  lemma CleanTwice(u: Tables, s: string, allowBreak: bool)
    requires Sound(u)
    ensures Clean(u, Clean(u, s, allowBreak), allowBreak) == Clean(u, s, allowBreak)
  {
    var r := Clean(u, s, allowBreak);
    CleanIsTidy(u, s, allowBreak);
    assert Blanked(u, UnixBreaks(r), allowBreak) == r;
    if !allowBreak {
      var t := TrimSpace(Blanked(u, UnixBreaks(s), allowBreak));
      JoinedChars(Fields(t));
      FieldsOfJoined(Fields(t));
    }
  }

  /** Normalising again changes nothing, and an accepted text is accepted again. */
  lemma NormalizeTwice(u: Tables, t: Text)
    requires Sound(u) && NormalizeText(u, t).Some?
    ensures NormalizeText(u, NormalizeText(u, t).value) == NormalizeText(u, t)
  {
    CleanTwice(u, t.title, false);
    CleanTwice(u, t.subtitle, true);
  }
}
