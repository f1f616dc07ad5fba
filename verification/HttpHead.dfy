/** Message heads: the strict parser and the printer of the preview proxy. */
module HttpHead {
  // Inverse to each other on exactly the heads the parser can produce.

  import opened Basics
  import opened Text

  type Header = (string, string)
  type Headers = seq<Header>

  datatype Head = Head(start: string, headers: Headers)

  const BREAKS: set<char> := {'\r', '\n'}
  const BLANKS: set<char> := {' ', '\t'}

  // ----- parsing -----

  predicate IsTokenChar(c: char) {
    || 'a' <= c <= 'z' || 'A' <= c <= 'Z' || '0' <= c <= '9'
    || c in {'!', '#', '$', '%', '&', '\'', '*', '+', '-', '.', '^', '_', '`', '|', '~'}
  }

  predicate IsToken(s: string) {
    s != "" && forall i :: 0 <= i < |s| ==> IsTokenChar(s[i])
  }

  /** No bare line break or NUL inside. */
  predicate OneLine(s: string) {
    Lacks(s, '\r') && Lacks(s, '\n') && Lacks(s, '\0')
  }

  predicate EndsWith(s: string, t: string) {
    |t| <= |s| && s[|s| - |t|..] == t
  }

  /** The head without leading line breaks and without the blank line that ends it. */
  function HeadText(raw: string): string {
    if EndsWith(raw, CRLF + CRLF) then
      var t := LStrip(raw, BREAKS);
      if |t| >= 4 then t[..|t| - 4] else ""
    else ""
  }

  function HeaderOf(line: string): Option<Header> {
    if line != "" && line[0] in BLANKS then None
    else
      match Find(line, ":")
      case None => None
      case Some(i) =>
        if i < |line| && IsToken(line[..i]) then Some((line[..i], Strip(line[i + 1..], BLANKS))) else None
  }

  function HeadersOf(lines: seq<string>): Option<Headers> {
    if lines == [] then Some([])
    else
      match (HeaderOf(lines[0]), HeadersOf(lines[1..]))
      case (Some(h), Some(hs)) => Some([h] + hs)
      case _ => None
  }

  /** _parse_head, as a function of the raw bytes. */
  function HeadOf(raw: string): Option<Head> {
    var text := HeadText(raw);
    var lines := Split(text, CRLF);
    if text == "" || exists k :: 0 <= k < |lines| && !OneLine(lines[k]) then None
    else match HeadersOf(lines[1..]) case None => None case Some(hs) => Some(Head(lines[0], hs))
  }

  /** What parsing yields when some headers are already behind. */
  function After(done: Headers, more: Option<Headers>): Option<Headers> {
    match more case None => None case Some(hs) => Some(done + hs)
  }

  lemma AfterNothing(more: Option<Headers>)
    ensures After([], more) == more
  {
    if more.Some? { assert [] + more.value == more.value; }
  }

  lemma AfterStep(lines: seq<string>, i: nat, done: Headers)
    requires i < |lines|
    ensures After(done, HeadersOf(lines[i..]))
         == match HeaderOf(lines[i]) case None => None case Some(h) => After(done + [h], HeadersOf(lines[i + 1..]))
  {
    assert lines[i..][1..] == lines[i + 1..];
    if HeaderOf(lines[i]).Some? && HeadersOf(lines[i + 1..]).Some? {
      var h, hs := HeaderOf(lines[i]).value, HeadersOf(lines[i + 1..]).value;
      assert done + ([h] + hs) == done + [h] + hs;
    }
  }

  /** The loop itself: header by header, giving up at the first malformed line. */
  method ParseHead(raw: string) returns (head: Option<Head>)
    ensures head == HeadOf(raw)
  {
    var text := HeadText(raw);
    if text == "" { return None; }
    var lines := Split(text, CRLF);
    if exists k :: 0 <= k < |lines| && !OneLine(lines[k]) { return None; }
    var headers: Headers := [];
    AfterNothing(HeadersOf(lines[1..]));
    for i := 1 to |lines|
      invariant HeadersOf(lines[1..]) == After(headers, HeadersOf(lines[i..]))
    {
      AfterStep(lines, i, headers);
      var header := HeaderOf(lines[i]);
      if header == None { return None; }
      headers := headers + [header.value];
    }
    assert lines[|lines|..] == [] && headers + [] == headers;
    head := Some(Head(lines[0], headers));
  }

  // ----- printing -----

  function LineFor(h: Header): string {
    h.0 + ": " + h.1
  }

  function LinesFor(hs: Headers): seq<string> {
    if hs == [] then [] else [LineFor(hs[0])] + LinesFor(hs[1..])
  }

  function FormatHead(head: Head): string {
    Join([head.start] + LinesFor(head.headers), CRLF) + CRLF + CRLF
  }

  // ----- exactly the heads that survive -----

  predicate HeaderOk(h: Header) {
    IsToken(h.0) && OneLine(h.1) && Stripped(h.1, BLANKS)
  }

  predicate HeadOk(head: Head) {
    && head.start != "" && OneLine(head.start)
    && forall i :: 0 <= i < |head.headers| ==> HeaderOk(head.headers[i])
  }

  lemma HeaderRoundTrip(h: Header)
    requires HeaderOk(h)
    ensures HeaderOf(LineFor(h)) == Some(h) && OneLine(LineFor(h)) && LineFor(h) != ""
  {
    var line := LineFor(h);
    assert line == h.0 + ":" + (" " + h.1);
    forall i | 0 <= i < |h.0| ensures h.0[i] != ':' && h.0[i] !in BLANKS && h.0[i] !in {'\r', '\n', '\0'} {
      assert IsTokenChar(h.0[i]);
    }
    LacksCuts(h.0, ':');
    FindAfter(h.0, ":", " " + h.1);
    assert line[..|h.0|] == h.0 && line[|h.0| + 1..] == " " + h.1;
    assert " " + h.1 == " " + h.1 + "";
    StripPadded(" ", h.1, "", BLANKS);
    forall i | 0 <= i < |line| ensures line[i] !in {'\r', '\n', '\0'} {
      if i >= |h.0| + 2 { assert line[i] == h.1[i - |h.0| - 2]; }
    }
  }

  lemma {:induction false} HeadersRoundTrip(hs: Headers)
    requires forall i :: 0 <= i < |hs| ==> HeaderOk(hs[i])
    ensures HeadersOf(LinesFor(hs)) == Some(hs) && |LinesFor(hs)| == |hs|
    ensures forall k :: 0 <= k < |hs| ==> OneLine(LinesFor(hs)[k])
  {
    if hs != [] {
      HeaderRoundTrip(hs[0]);
      HeadersRoundTrip(hs[1..]);
      assert LinesFor(hs)[1..] == LinesFor(hs[1..]);
      assert [hs[0]] + hs[1..] == hs;
    }
  }

  lemma OneLineCuts(p: string)
    requires OneLine(p)
    ensures CutsAfter(p, CRLF) && Free(p, CRLF)
  {
    forall j | 0 <= j < |p| ensures !OccursAt(p + CRLF, CRLF, j) {
      if j + 2 <= |p + CRLF| { assert (p + CRLF)[j..j + 2][0] == p[j]; }
    }
    forall j | 0 <= j <= |p| ensures !OccursAt(p, CRLF, j) {
      if j + 2 <= |p| { assert p[j..j + 2][0] == p[j]; }
    }
  }

  lemma HeadTextOfFormat(text: string)
    requires text != "" && text[0] !in BREAKS
    ensures HeadText(text + CRLF + CRLF) == text
  {
    var raw := text + CRLF + CRLF;
    assert raw[|raw| - 4..] == CRLF + CRLF;
    assert LStrip(raw, BREAKS) == raw;
    assert raw[..|raw| - 4] == text;
  }

  /** Printing a head the parser could have produced and parsing it again gives it back. */
  lemma FormatParse(head: Head)
    requires HeadOk(head)
    ensures HeadOf(FormatHead(head)) == Some(head)
  {
    var lines := [head.start] + LinesFor(head.headers);
    HeadersRoundTrip(head.headers);
    forall k | 0 <= k < |lines| ensures OneLine(lines[k]) && CutsAfter(lines[k], CRLF) && Free(lines[k], CRLF) {
      assert k > 0 ==> lines[k] == LinesFor(head.headers)[k - 1];
      OneLineCuts(lines[k]);
    }
    SplitJoin(lines, CRLF);
    var text := Join(lines, CRLF);
    assert text != "" && text[0] == head.start[0];
    HeadTextOfFormat(text);
    assert lines[1..] == LinesFor(head.headers);
  }

  lemma HeaderIsOk(line: string)
    requires OneLine(line) && HeaderOf(line).Some?
    ensures HeaderOk(HeaderOf(line).value)
  {
    FindFound(line, ":");
    var i := Find(line, ":").value;
    var v := line[i + 1..];
    var k := StripShape(v, BLANKS);
    var r := Strip(v, BLANKS);
    forall j | 0 <= j < |r| ensures r[j] !in {'\r', '\n', '\0'} {
      assert r[j] == line[i + 1 + k + j];
    }
  }

  lemma {:induction false} HeadersAreOk(lines: seq<string>)
    requires HeadersOf(lines).Some? && forall k :: 0 <= k < |lines| ==> OneLine(lines[k])
    ensures forall i :: 0 <= i < |HeadersOf(lines).value| ==> HeaderOk(HeadersOf(lines).value[i])
  {
    if lines != [] {
      HeaderIsOk(lines[0]);
      HeadersAreOk(lines[1..]);
    }
  }

  /** Every head the parser produces is of that kind. */
  lemma ParsedIsOk(raw: string)
    requires HeadOf(raw).Some?
    ensures HeadOk(HeadOf(raw).value)
  {
    var text := HeadText(raw);
    var lines := Split(text, CRLF);
    HeadersAreOk(lines[1..]);
    LStripShape(raw, BREAKS);
    FindFound(text, CRLF);
    assert text[0] == LStrip(raw, BREAKS)[0];
  }

  /** The printer is undone by the parser on exactly those heads. */
  lemma RoundTripExactly(head: Head)
    ensures HeadOf(FormatHead(head)) == Some(head) <==> HeadOk(head)
  {
    if HeadOk(head) {
      FormatParse(head);
    } else if HeadOf(FormatHead(head)) == Some(head) {
      ParsedIsOk(FormatHead(head));
    }
  }

  /** Parse, print, parse equals parse. */
  lemma ParsePrintParse(raw: string)
    requires HeadOf(raw).Some?
    ensures HeadOf(FormatHead(HeadOf(raw).value)) == HeadOf(raw)
  {
    ParsedIsOk(raw);
    FormatParse(HeadOf(raw).value);
  }
}
