/** Text values of the calendar export (backend/agents/exporter.py, _ics_escape): four passes
    of str.replace over the whole text, and the reader of the calendar standard that takes a
    value back in one pass (section 3.3.11 of RFC 5545). */
module Ics {
  import opened Basics
  import opened Text

  /** str.replace */
  function Replace(s: string, what: string, that: string): string
    requires what != ""
  {
    Join(Split(s, what), that)
  }

  /** Four passes over the whole text, the backslash first. */
  function Escape(s: string): string {
    Replace(Replace(Replace(Replace(s, "\\", "\\\\"), ";", "\\;"), ",", "\\,"), "\n", "\\n")
  }

  /** The same in one pass: what each character becomes. */
  function Translated(c: char): string {
    match c
    case '\\' => "\\\\"
    case ';' => "\\;"
    case ',' => "\\,"
    case '\n' => "\\n"
    case _ => [c]
  }

  function Translate(s: string): string {
    if s == "" then "" else Translated(s[0]) + Translate(s[1..])
  }

  /** TEXT values as section 3.3.11 of RFC 5545 reads them. */
  function Unescape(s: string): string {
    if s == "" then ""
    else if s[0] == '\\' && |s| >= 2 && s[1] in {'\\', ';', ',', 'n', 'N'} then
      [if s[1] in {'n', 'N'} then '\n' else s[1]] + Unescape(s[2..])
    else [s[0]] + Unescape(s[1..])
  }

  // ----- replacing one character -----

  function Swap(s: string, c: char, that: string): string {
    if s == "" then "" else (if s[0] == c then that else [s[0]]) + Swap(s[1..], c, that)
  }

  lemma {:induction false} SwapLacking(s: string, c: char, that: string)
    requires Lacks(s, c)
    ensures Swap(s, c, that) == s
  {
    if s != "" {
      SwapLacking(s[1..], c, that);
      assert [s[0]] + s[1..] == s;
    }
  }

  lemma {:induction false} SwapAppend(a: string, b: string, c: char, that: string)
    ensures Swap(a + b, c, that) == Swap(a, c, that) + Swap(b, c, that)
  {
    if a == "" {
      assert a + b == b;
    } else {
      assert (a + b)[1..] == a[1..] + b;
      SwapAppend(a[1..], b, c, that);
    }
  }

  lemma SwapOne(c: char, d: char, that: string)
    ensures Swap([d], c, that) == if d == c then that else [d]
  {
    assert [d][1..] == "";
  }

  lemma SwapAround(p: string, c: char, rest: string, that: string)
    requires Lacks(p, c)
    ensures Swap(p + [c] + rest, c, that) == p + that + Swap(rest, c, that)
  {
    SwapLacking(p, c, that);
    SwapOne(c, c, that);
    SwapAppend(p, [c], c, that);
    SwapAppend(p + [c], rest, c, that);
  }

  /** Splitting at a character and joining with a text swaps the one for the other. */
  lemma {:induction false} ReplaceIsSwap(s: string, c: char, that: string)
    ensures Replace(s, [c], that) == Swap(s, c, that)
    decreases |s|
  {
    FindFound(s, [c]);
    SplitLacks(s, c, 0);
    match Find(s, [c])
    case None =>
      assert Split(s, [c]) == [s];
      SwapLacking(s, c, that);
    case Some(i) =>
      var p, rest := s[..i], s[i + 1..];
      Rest(p, Split(rest, [c]));
      ReplaceIsSwap(rest, c, that);
      SwapAround(p, c, rest, that);
      assert s == p + [c] + rest;
  }

  // ----- four passes are one -----

  function Passes(s: string): string {
    Swap(Swap(Swap(Swap(s, '\\', "\\\\"), ';', "\\;"), ',', "\\,"), '\n', "\\n")
  }

  lemma PassesAppend(a: string, b: string)
    ensures Passes(a + b) == Passes(a) + Passes(b)
  {
    SwapAppend(a, b, '\\', "\\\\");
    var a1, b1 := Swap(a, '\\', "\\\\"), Swap(b, '\\', "\\\\");
    SwapAppend(a1, b1, ';', "\\;");
    var a2, b2 := Swap(a1, ';', "\\;"), Swap(b1, ';', "\\;");
    SwapAppend(a2, b2, ',', "\\,");
    SwapAppend(Swap(a2, ',', "\\,"), Swap(b2, ',', "\\,"), '\n', "\\n");
  }

  lemma Pair(x: char, y: char, c: char, that: string)
    requires x != c
    ensures Swap([x, y], c, that) == [x] + if y == c then that else [y]
  {
    SwapOne(c, x, that);
    SwapOne(c, y, that);
    SwapAppend([x], [y], c, that);
    assert [x] + [y] == [x, y];
  }

  lemma PassesOne(c: char)
    ensures Passes([c]) == Translated(c)
  {
    SwapOne('\\', c, "\\\\");
    SwapOne(';', c, "\\;");
    SwapOne(',', c, "\\,");
    SwapOne('\n', c, "\\n");
    Pair('\\', '\\', ';', "\\;");
    Pair('\\', '\\', ',', "\\,");
    Pair('\\', '\\', '\n', "\\n");
    Pair('\\', ';', ',', "\\,");
    Pair('\\', ';', '\n', "\\n");
    Pair('\\', ',', '\n', "\\n");
  }

  lemma {:induction false} EscapeIsTranslation(s: string)
    ensures Escape(s) == Translate(s)
  {
    EscapeIsPasses(s);
    PassesAreTranslation(s);
  }

  lemma EscapeIsPasses(s: string)
    ensures Escape(s) == Passes(s)
  {
    ReplaceIsSwap(s, '\\', "\\\\");
    var s1 := Swap(s, '\\', "\\\\");
    ReplaceIsSwap(s1, ';', "\\;");
    var s2 := Swap(s1, ';', "\\;");
    ReplaceIsSwap(s2, ',', "\\,");
    ReplaceIsSwap(Swap(s2, ',', "\\,"), '\n', "\\n");
  }

  lemma {:induction false} PassesAreTranslation(s: string)
    ensures Passes(s) == Translate(s)
  {
    if s != "" {
      PassesOne(s[0]);
      PassesAppend([s[0]], s[1..]);
      PassesAreTranslation(s[1..]);
      assert [s[0]] + s[1..] == s;
    }
  }

  // ----- and a reader gets every text back -----

  lemma UnescapeOne(c: char, rest: string)
    ensures Unescape(Translated(c) + rest) == [c] + Unescape(rest)
  {
    var all := Translated(c) + rest;
    if |Translated(c)| == 2 { assert all[2..] == rest; } else { assert all[1..] == rest; }
  }

  lemma {:induction false} UnescapeTranslate(s: string)
    ensures Unescape(Translate(s)) == s
    ensures Lacks(Translate(s), '\n')
  {
    if s != "" {
      UnescapeTranslate(s[1..]);
      UnescapeOne(s[0], Translate(s[1..]));
    }
  }

  lemma UnescapeEscape(s: string)
    ensures Unescape(Escape(s)) == s
    ensures Lacks(Escape(s), '\n')
  {
    EscapeIsTranslation(s);
    UnescapeTranslate(s);
  }

  /** With the backslash escaped last a text would be lost. */
  lemma OrderMatters()
    ensures Unescape(Swap(Swap(";", ';', "\\;"), '\\', "\\\\")) != ";"
  {
    SwapOne(';', ';', "\\;");
    SwapOne('\\', '\\', "\\\\");
    SwapOne('\\', ';', "\\\\");
    SwapAppend("\\", ";", '\\', "\\\\");
    assert "\\" + ";" == "\\;";
    assert "\\\\" + ";" == "\\\\;";
    assert "\\\\;"[2..] == ";";
  }
}
