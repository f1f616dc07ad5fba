/** Strings as the Python code handles them: strip, split, join, lower-case, decimal and
    hexadecimal numerals. A byte is modelled as the character with the same code (latin-1).
    White space is what str.strip knows, or bytes.strip, and the set is a parameter of the
    functions that strip. Searching goes from the left, and split cuts at the first occurrence
    of the separator, then goes on behind it. Lower-casing is done for ASCII letters only. */
module Text {

  import opened Basics

  // ----- white space -----

  /** What str.strip() and str.split() treat as white space. */
  const SPACES: set<char> :=
    {'\t', '\n', '\U{b}', '\U{c}', '\r', '\U{1c}', '\U{1d}', '\U{1e}', '\U{1f}', ' ', '\U{85}', '\U{a0}',
     '\U{1680}', '\U{2000}', '\U{2001}', '\U{2002}', '\U{2003}', '\U{2004}', '\U{2005}', '\U{2006}', '\U{2007}',
     '\U{2008}', '\U{2009}', '\U{200a}', '\U{2028}', '\U{2029}', '\U{202f}', '\U{205f}', '\U{3000}'}

  /** What bytes.strip() removes. */
  const BYTE_SPACES: set<char> := {' ', '\t', '\n', '\r', '\U{b}', '\U{c}'}

  const CRLF := "\r\n"

  // strip removes characters of ws from both ends; ws is whatever set the caller's strip uses.

  function LStrip(s: string, ws: set<char>): string {
    if s != "" && s[0] in ws then LStrip(s[1..], ws) else s
  }

  function RStrip(s: string, ws: set<char>): string {
    if s != "" && s[|s| - 1] in ws then RStrip(s[..|s| - 1], ws) else s
  }

  function Strip(s: string, ws: set<char>): string {
    RStrip(LStrip(s, ws), ws)
  }

  /** Neither end is white space (the empty string included). */
  predicate Stripped(s: string, ws: set<char>) {
    s == "" || (s[0] !in ws && s[|s| - 1] !in ws)
  }

  predicate Blank(s: string, ws: set<char>) {
    forall i :: 0 <= i < |s| ==> s[i] in ws
  }

  lemma {:induction false} LStripShape(s: string, ws: set<char>)
    ensures var r := LStrip(s, ws);
            |r| <= |s| && r == s[|s| - |r|..] && Blank(s[..|s| - |r|], ws) && (r == "" || r[0] !in ws)
  {
    if s != "" && s[0] in ws {
      LStripShape(s[1..], ws);
      var r := LStrip(s[1..], ws);
      var k := |s| - |r|;
      assert s[1..][k - 1..] == s[k..];
      forall i | 0 <= i < k ensures s[..k][i] in ws {
        if i > 0 { assert s[1..][..k - 1][i - 1] == s[i]; }
      }
    }
  }

  lemma {:induction false} RStripShape(s: string, ws: set<char>)
    ensures var r := RStrip(s, ws);
            |r| <= |s| && r == s[..|r|] && Blank(s[|r|..], ws) && (r == "" || r[|r| - 1] !in ws)
  {
    if s != "" && s[|s| - 1] in ws {
      var p := s[..|s| - 1];
      RStripShape(p, ws);
      var r := RStrip(p, ws);
      assert p[..|r|] == s[..|r|];
      forall i | 0 <= i < |s| - |r| ensures s[|r|..][i] in ws {
        if i < |p| - |r| { assert p[|r|..][i] == s[|r|..][i]; }
      }
    }
  }

  /** strip cuts s into blank + core + blank, and the core is stripped. */
  lemma StripShape(s: string, ws: set<char>) returns (k: nat)
    ensures k + |Strip(s, ws)| <= |s| && Strip(s, ws) == s[k..k + |Strip(s, ws)|]
    ensures Blank(s[..k], ws) && Blank(s[k + |Strip(s, ws)|..], ws) && Stripped(Strip(s, ws), ws)
  {
    LStripShape(s, ws);
    var l := LStrip(s, ws);
    RStripShape(l, ws);
    var r := Strip(s, ws);
    k := |s| - |l|;
    assert l == s[k..];
    assert l[|r|..] == s[k + |r|..];
    if r != "" { assert r[0] == l[0]; }
  }

  lemma StripStripped(s: string, ws: set<char>)
    requires Stripped(s, ws)
    ensures Strip(s, ws) == s
  {
  }

  lemma {:induction false} LStripBlank(b: string, s: string, ws: set<char>)
    requires Blank(b, ws)
    ensures LStrip(b + s, ws) == LStrip(s, ws)
  {
    if b == "" {
      assert b + s == s;
    } else {
      assert (b + s)[1..] == b[1..] + s;
      LStripBlank(b[1..], s, ws);
    }
  }

  lemma {:induction false} RStripBlank(s: string, b: string, ws: set<char>)
    requires Blank(b, ws)
    ensures RStrip(s + b, ws) == RStrip(s, ws)
  {
    if b == "" {
      assert s + b == s;
    } else {
      assert (s + b)[..|s + b| - 1] == s + b[..|b| - 1];
      RStripBlank(s, b[..|b| - 1], ws);
    }
  }

  /** A stripped core is what strip finds inside any blank padding. */
  lemma StripPadded(a: string, s: string, b: string, ws: set<char>)
    requires Blank(a, ws) && Blank(b, ws) && Stripped(s, ws)
    ensures Strip(a + s + b, ws) == s
  {
    assert a + s + b == a + (s + b);
    LStripBlank(a, s + b, ws);
    if s == "" {
      assert s + b == b + "";
      LStripBlank(b, "", ws);
    } else {
      RStripBlank(s, b, ws);
    }
  }

  // ----- search, split, join -----

  predicate OccursAt(s: string, sep: string, i: int) {
    0 <= i && i + |sep| <= |s| && s[i..i + |sep|] == sep
  }

  /** The first place sep occurs in s. */
  function Find(s: string, sep: string): Option<nat>
    requires sep != ""
  {
    if |s| < |sep| then None
    else if OccursAt(s, sep, 0) then Some(0)
    else match Find(s[1..], sep) case None => None case Some(i) => Some(i + 1)
  }

  lemma {:induction false} FindIs(s: string, sep: string, i: nat)
    requires sep != "" && OccursAt(s, sep, i)
    requires forall j :: 0 <= j < i ==> !OccursAt(s, sep, j)
    ensures Find(s, sep) == Some(i)
  {
    if i > 0 {
      assert !OccursAt(s, sep, 0);
      assert s[1..][i - 1..i - 1 + |sep|] == s[i..i + |sep|];
      forall j | 0 <= j < i - 1 ensures !OccursAt(s[1..], sep, j) {
        assert !OccursAt(s, sep, j + 1);
        if j + |sep| <= |s| - 1 { assert s[1..][j..j + |sep|] == s[j + 1..j + 1 + |sep|]; }
      }
      FindIs(s[1..], sep, i - 1);
    }
  }

  lemma {:induction false} FindNone(s: string, sep: string)
    requires sep != "" && Free(s, sep)
    ensures Find(s, sep) == None
  {
    if |s| >= |sep| {
      assert !OccursAt(s, sep, 0);
      forall j | 0 <= j <= |s[1..]| ensures !OccursAt(s[1..], sep, j) {
        assert !OccursAt(s, sep, j + 1);
        if j + |sep| <= |s| - 1 { assert s[1..][j..j + |sep|] == s[j + 1..j + 1 + |sep|]; }
      }
      FindNone(s[1..], sep);
    }
  }

  lemma {:induction false} FindFound(s: string, sep: string)
    requires sep != ""
    ensures match Find(s, sep)
            case Some(i) => OccursAt(s, sep, i) && forall j :: 0 <= j < i ==> !OccursAt(s, sep, j)
            case None => Free(s, sep)
  {
    if |s| >= |sep| && !OccursAt(s, sep, 0) {
      FindFound(s[1..], sep);
      forall j | 1 <= j ensures OccursAt(s, sep, j) <==> OccursAt(s[1..], sep, j - 1) {
        if j + |sep| <= |s| { assert s[1..][j - 1..j - 1 + |sep|] == s[j..j + |sep|]; }
      }
    }
  }

  /** s.split(sep) */
  function Split(s: string, sep: string): (parts: seq<string>)
    requires sep != ""
    ensures parts != []
    decreases |s|
  {
    match Find(s, sep)
    case None => [s]
    case Some(i) =>
      FindFound(s, sep);
      [s[..i]] + Split(s[i + |sep|..], sep)
  }

  /** sep.join(parts) */
  function Join(parts: seq<string>, sep: string): string {
    if parts == [] then ""
    else if |parts| == 1 then parts[0]
    else parts[0] + sep + Join(parts[1..], sep)
  }

  /** sep does not occur in s. */
  predicate Free(s: string, sep: string) {
    forall j :: 0 <= j <= |s| ==> !OccursAt(s, sep, j)
  }

  /** p followed by sep is cut exactly after p. */
  predicate CutsAfter(p: string, sep: string) {
    forall j :: 0 <= j < |p| ==> !OccursAt(p + sep, sep, j)
  }

  lemma FindAfter(p: string, sep: string, rest: string)
    requires sep != "" && CutsAfter(p, sep)
    ensures Find(p + sep + rest, sep) == Some(|p|)
  {
    var s := p + sep + rest;
    assert s[|p|..|p| + |sep|] == sep;
    forall j | 0 <= j < |p| ensures !OccursAt(s, sep, j) {
      assert !OccursAt(p + sep, sep, j);
      assert s[j..j + |sep|] == (p + sep)[j..j + |sep|];
    }
    FindIs(s, sep, |p|);
  }

  lemma SplitAfter(p: string, sep: string, rest: string)
    requires sep != "" && CutsAfter(p, sep)
    ensures Split(p + sep + rest, sep) == [p] + Split(rest, sep)
  {
    var s := p + sep + rest;
    FindAfter(p, sep, rest);
    assert s[..|p|] == p;
    assert s[|p| + |sep|..] == rest;
  }

  /** split undoes join when every part is cut where it ends. */
  lemma {:induction false} SplitJoin(parts: seq<string>, sep: string)
    requires sep != "" && parts != []
    requires forall k :: 0 <= k < |parts| - 1 ==> CutsAfter(parts[k], sep)
    requires Free(parts[|parts| - 1], sep)
    ensures Split(Join(parts, sep), sep) == parts
  {
    if |parts| == 1 {
      FindNone(parts[0], sep);
    } else {
      var rest := parts[1..];
      forall k | 0 <= k < |rest| - 1 ensures CutsAfter(rest[k], sep) {
        assert rest[k] == parts[k + 1];
      }
      SplitJoin(rest, sep);
      SplitAfter(parts[0], sep, Join(rest, sep));
      assert CutsAfter(parts[0], sep);
    }
  }

  /** A piece in front of the first separator holds none, and is cut where it ends. */
  lemma PieceInFront(s: string, sep: string, i: nat)
    requires sep != "" && OccursAt(s, sep, i) && forall j :: 0 <= j < i ==> !OccursAt(s, sep, j)
    ensures CutsAfter(s[..i], sep) && Free(s[..i], sep)
  {
    var p := s[..i];
    assert p + sep == s[..i + |sep|];
    forall j | 0 <= j < |p| ensures !OccursAt(p + sep, sep, j) {
      assert !OccursAt(s, sep, j);
      assert (p + sep)[j..j + |sep|] == s[j..j + |sep|];
    }
    forall j | 0 <= j <= |p| ensures !OccursAt(p, sep, j) {
      if j + |sep| <= |p| {
        assert !OccursAt(s, sep, j);
        assert p[j..j + |sep|] == s[j..j + |sep|];
      }
    }
  }

  predicate CutsWell(parts: seq<string>, sep: string) {
    && (forall k :: 0 <= k < |parts| - 1 ==> CutsAfter(parts[k], sep))
    && (forall k :: 0 <= k < |parts| ==> Free(parts[k], sep))
  }

  lemma CutsWellCons(p: string, parts: seq<string>, sep: string)
    requires CutsAfter(p, sep) && Free(p, sep) && CutsWell(parts, sep)
    ensures CutsWell([p] + parts, sep)
  {
    forall k | 0 <= k < |[p] + parts| - 1 ensures CutsAfter(([p] + parts)[k], sep) {
      if k > 0 { assert ([p] + parts)[k] == parts[k - 1]; }
    }
  }

  /** Every part but the last is cut where it ends, and the last holds no separator. */
  lemma {:induction false} SplitParts(s: string, sep: string)
    requires sep != ""
    ensures CutsWell(Split(s, sep), sep) && Join(Split(s, sep), sep) == s
    decreases |s|
  {
    FindFound(s, sep);
    match Find(s, sep)
    case None =>
    case Some(i) =>
      var p, rest := s[..i], s[i + |sep|..];
      SplitParts(rest, sep);
      PieceInFront(s, sep, i);
      CutsWellCons(p, Split(rest, sep), sep);
      Rest(p, Split(rest, sep));
      assert s == p + sep + rest;
  }

  predicate Lacks(s: string, c: char) {
    forall i :: 0 <= i < |s| ==> s[i] != c
  }

  lemma LacksCuts(p: string, c: char)
    requires Lacks(p, c)
    ensures CutsAfter(p, [c]) && Free(p, [c])
  {
    forall j | 0 <= j < |p| ensures !OccursAt(p + [c], [c], j) {
      assert (p + [c])[j..j + 1][0] == p[j];
    }
    forall j | 0 <= j <= |p| ensures !OccursAt(p, [c], j) {
      if j < |p| { assert p[j..j + 1][0] == p[j]; }
    }
  }

  lemma {:induction false} SplitLacks(s: string, c: char, k: nat)
    requires k < |Split(s, [c])|
    ensures Lacks(Split(s, [c])[k], c)
  {
    SplitParts(s, [c]);
    var p := Split(s, [c])[k];
    forall i | 0 <= i < |p| ensures p[i] != c {
      assert !OccursAt(p, [c], i);
      assert p[i..i + 1] == [p[i]];
    }
  }

  /** A piece inherits every lack of the whole. */
  lemma {:induction false} SplitKeepsLack(s: string, sep: string, c: char, k: nat)
    requires sep != "" && Lacks(s, c) && k < |Split(s, sep)|
    ensures Lacks(Split(s, sep)[k], c)
    decreases |s|
  {
    FindFound(s, sep);
    match Find(s, sep)
    case None =>
    case Some(i) => if k > 0 { SplitKeepsLack(s[i + |sep|..], sep, c, k - 1); }
  }

  // ----- letters and digits -----

  function LowerChar(c: char): char {
    if 'A' <= c <= 'Z' then c - 'A' + 'a' else c
  }

  /** str.lower on ASCII letters; other characters stay. */
  function Lower(s: string): (r: string)
    ensures |r| == |s|
  {
    seq(|s|, i requires 0 <= i < |s| => LowerChar(s[i]))
  }

  predicate IsDigit(c: char) { '0' <= c <= '9' }

  predicate AllDigits(s: string) {
    s != "" && forall i :: 0 <= i < |s| ==> IsDigit(s[i])
  }

  function DigitChar(d: nat): char
    requires d < 10
  {
    '0' + d as char
  }

  function DigitValue(c: char): nat
    requires IsDigit(c)
  {
    c as int - '0' as int
  }

  /** str(n) */
  function Decimal(n: nat): (s: string)
    ensures s != ""
  {
    if n < 10 then [DigitChar(n)] else Decimal(n / 10) + [DigitChar(n % 10)]
  }

  /** int(s) for a string of digits. */
  function ParseDecimal(s: string): nat
    requires forall i :: 0 <= i < |s| ==> IsDigit(s[i])
  {
    if s == "" then 0 else 10 * ParseDecimal(s[..|s| - 1]) + DigitValue(s[|s| - 1])
  }

  lemma {:induction false} DecimalRoundTrip(n: nat)
    ensures AllDigits(Decimal(n)) && ParseDecimal(Decimal(n)) == n
  {
    if n >= 10 {
      DecimalRoundTrip(n / 10);
      var s := Decimal(n);
      assert s[..|s| - 1] == Decimal(n / 10);
    } else {
      assert Decimal(n)[..0] == "";
    }
  }
}
