/** The response half of the proxy, end to end: what the browser reads off the wire. */
module HttpRelay {
  import opened Basics
  import opened Text
  import opened HttpHead
  import opened HttpBody
  import opened HttpWire
  import opened HttpFraming
  import opened Inspector
  import Csp

  // ----- rewritten heads are heads the printer can print -----

  predicate Clean(v: string) {
    v != "" && OneLine(v) && Stripped(v, BLANKS)
  }

  /** What build_preview_config and the Host check guarantee of the values put in. */
  predicate ConfigOk(cfg: Config) {
    && Clean(cfg.targetOrigin) && Clean(cfg.targetHost)
    && OneLine(cfg.frontendOrigin) && Csp.OriginOk(cfg.frontendOrigin)
  }

  predicate AllOk(hs: Headers) {
    forall i :: 0 <= i < |hs| ==> HeaderOk(hs[i])
  }

  lemma {:induction false} SwapIsOk(url: string, from: seq<string>, origin: string)
    requires OneLine(url) && Stripped(url, BLANKS) && Clean(origin)
    ensures OneLine(SwapOrigin(url, from, origin)) && Stripped(SwapOrigin(url, from, origin), BLANKS)
  {
    if from != [] {
      if StartsAt(url, from[0]) {
        var r := url[|from[0]|..];
        var s := origin + r;
        forall i | 0 <= i < |s| ensures s[i] !in {'\r', '\n', '\0'} {
          if i >= |origin| { assert s[i] == url[|from[0]| + i - |origin|]; }
        }
        assert s[0] == origin[0] && s[|s| - 1] == if r == "" then origin[|origin| - 1] else url[|url| - 1];
      } else {
        SwapIsOk(url, from[1..], origin);
      }
    }
  }

  lemma {:induction false} HeadersUpOk(hs: Headers, cfg: Config, proxies: seq<string>, named: seq<string>, upgrade: bool)
    requires AllOk(hs) && ConfigOk(cfg)
    ensures AllOk(HeadersUp(hs, cfg, proxies, named, upgrade))
  {
    if hs != [] {
      assert HeaderOk(hs[0]);
      SwapIsOk(hs[0].1, proxies, cfg.targetOrigin);
      HeadersUpOk(hs[1..], cfg, proxies, named, upgrade);
    }
  }

  lemma ElemOneLine()
    ensures OneLine(Csp.SCRIPT_ELEM)
  {
  }

  lemma SpacesTrimBlanks(s: string)
    requires Stripped(s, SPACES)
    ensures Stripped(s, BLANKS)
  {
  }

  lemma PolicyIsOk(value: string, origin: string)
    requires OneLine(value) && OneLine(origin) && Csp.OriginOk(origin)
    ensures var r := Csp.RewriteCsp(value, origin).0; r.Some? ==> OneLine(r.value) && Stripped(r.value, BLANKS)
  {
    ElemOneLine();
    Csp.RewriteTrims(value, origin);
    Csp.RewriteLacks(value, origin, '\r');
    Csp.RewriteLacks(value, origin, '\n');
    Csp.RewriteLacks(value, origin, '\0');
    var r := Csp.RewriteCsp(value, origin).0;
    if r.Some? { SpacesTrimBlanks(r.value); }
  }

  lemma HeaderDownOk(h: Header, cfg: Config, proxy: string, named: seq<string>)
    requires HeaderOk(h) && ConfigOk(cfg) && Clean(proxy)
    ensures AllOk(HeaderDown(h, cfg, proxy, named))
  {
    if !DropsDown(Lower(h.0), named) && ValueDown(Lower(h.0), h.1, cfg, proxy).Some? {
      ValueDownOk(Lower(h.0), h.1, cfg, proxy);
    }
  }

  lemma ValueDownOk(name: string, value: string, cfg: Config, proxy: string)
    requires OneLine(value) && Stripped(value, BLANKS) && ConfigOk(cfg) && Clean(proxy)
    ensures var r := ValueDown(name, value, cfg, proxy); r.Some? ==> OneLine(r.value) && Stripped(r.value, BLANKS)
  {
    ValueDownCases(name, value, cfg, proxy);
    OneOfFourOk(ValueDown(name, value, cfg, proxy), value, cfg, proxy);
  }

  lemma ValueDownCases(name: string, value: string, cfg: Config, proxy: string)
    ensures var r := ValueDown(name, value, cfg, proxy);
      r == Csp.RewriteCsp(value, cfg.frontendOrigin).0 || r == Some(SwapOrigin(value, [cfg.targetOrigin], proxy))
      || r == Some(proxy) || r == Some(value)
  {
  }

  lemma OneOfFourOk(r: Option<string>, value: string, cfg: Config, proxy: string)
    requires OneLine(value) && Stripped(value, BLANKS) && ConfigOk(cfg) && Clean(proxy)
    requires r == Csp.RewriteCsp(value, cfg.frontendOrigin).0 || r == Some(SwapOrigin(value, [cfg.targetOrigin], proxy))
             || r == Some(proxy) || r == Some(value)
    ensures r.Some? ==> OneLine(r.value) && Stripped(r.value, BLANKS)
  {
    if r == Csp.RewriteCsp(value, cfg.frontendOrigin).0 {
      PolicyIsOk(value, cfg.frontendOrigin);
    } else {
      SwapIsOk(value, [cfg.targetOrigin], proxy);
    }
  }

  lemma AllOkConcat(a: Headers, b: Headers)
    requires AllOk(a) && AllOk(b)
    ensures AllOk(a + b)
  {
  }

  lemma {:induction false} HeadersDownOk(hs: Headers, cfg: Config, proxy: string, named: seq<string>)
    requires AllOk(hs) && ConfigOk(cfg) && Clean(proxy)
    ensures AllOk(HeadersDown(hs, cfg, proxy, named))
  {
    if hs != [] {
      assert HeaderOk(hs[0]);
      HeaderDownOk(hs[0], cfg, proxy, named);
      HeadersDownOk(hs[1..], cfg, proxy, named);
      AllOkConcat(HeaderDown(hs[0], cfg, proxy, named), HeadersDown(hs[1..], cfg, proxy, named));
    }
  }

  lemma OwnHeadersOk(n: nat)
    ensures HeaderOk(CLOSE) && HeaderOk(IDENTITY)
    ensures HeaderOk(("Content-Length", Decimal(n))) && HeaderOk(("Cache-Control", "no-store"))
  {
    DecimalRoundTrip(n);
    var d := Decimal(n);
    forall i | 0 <= i < |d| ensures d[i] !in BLANKS && d[i] !in {'\r', '\n', '\0'} { assert IsDigit(d[i]); }
  }

  lemma RequestHeadersOk(hs: Headers, cfg: Config, proxies: seq<string>, upgrade: bool)
    requires AllOk(hs) && ConfigOk(cfg)
    ensures AllOk(RequestHeaders(hs, cfg, proxies, upgrade))
  {
    OwnHeadersOk(0);
    HeadersUpOk(hs, cfg, proxies, ConnectionTokens(hs), upgrade);
  }

  lemma ResponseHeadersOk(hs: Headers, cfg: Config, proxy: string)
    requires AllOk(hs) && ConfigOk(cfg) && Clean(proxy)
    ensures AllOk(ResponseHeaders(hs, cfg, proxy))
  {
    OwnHeadersOk(0);
    HeadersDownOk(hs, cfg, proxy, ConnectionTokens(hs));
  }

  lemma {:induction false} WithoutStaleOk(hs: Headers)
    requires AllOk(hs)
    ensures AllOk(WithoutStale(hs))
  {
    if hs != [] {
      assert HeaderOk(hs[0]);
      WithoutStaleOk(hs[1..]);
    }
  }

  lemma EditedHeadersOk(hs: Headers, edited: Bytes)
    requires AllOk(hs)
    ensures AllOk(EditedHeaders(hs, edited))
  {
    OwnHeadersOk(|edited|);
    WithoutStaleOk(hs);
  }

  // ----- the status line -----

  /** Status and reason of a status line. */
  function StatusOf(line: string): Option<(nat, string)> {
    match Find(line, " ")
    case None => None
    case Some(i) =>
      FindFound(line, " ");
      var rest := line[i + 1..];
      var code := Split(rest, " ")[0];
      if "HTTP/1." <= line[..i] && AllDigits(code)
      then Some((ParseDecimal(code), if |code| < |rest| then rest[|code| + 1..] else ""))
      else None
  }

  function StatusLine(status: nat, reason: string): string {
    RStrip("HTTP/1.1 " + Decimal(status) + (" " + reason), SPACES)
  }

  lemma {:induction false} RStripKeeps(a: string, b: string)
    requires a != "" && a[|a| - 1] !in SPACES
    ensures RStrip(a + b, SPACES) == a + RStrip(b, SPACES)
  {
    if b == "" {
      assert a + b == a;
    } else {
      assert (a + b)[..|a + b| - 1] == a + b[..|b| - 1];
      if b[|b| - 1] in SPACES { RStripKeeps(a, b[..|b| - 1]); }
    }
  }

  lemma SplitHead(code: string, tail: string)
    requires Lacks(code, ' ') && (tail == "" || tail[0] == ' ')
    ensures Split(code + tail, " ")[0] == code
  {
    LacksCuts(code, ' ');
    if tail == "" {
      assert code + tail == code;
      FindNone(code, " ");
    } else {
      assert code + tail == code + " " + tail[1..];
      SplitAfter(code, " ", tail[1..]);
    }
  }

  lemma DigitsLack(s: string, c: char)
    requires AllDigits(s) && !IsDigit(c)
    ensures Lacks(s, c)
  {
  }

  lemma VersionLacks()
    ensures Lacks("HTTP/1.1", ' ') && "HTTP/1." <= "HTTP/1.1"
  {
  }

  /** The status line is the version, the status and what is left of the reason. */
  lemma StatusLineIs(status: nat, reason: string)
    ensures StatusLine(status, reason) == "HTTP/1.1" + " " + (Decimal(status) + RStrip(" " + reason, SPACES))
  {
    var code, tail := Decimal(status), RStrip(" " + reason, SPACES);
    var a := "HTTP/1.1 " + code;
    DecimalRoundTrip(status);
    assert IsDigit(code[|code| - 1]) && a[|a| - 1] == code[|code| - 1];
    RStripKeeps(a, " " + reason);
    Assoc("HTTP/1.1 ", code, tail);
  }

  lemma TailBegins(reason: string)
    ensures var tail := RStrip(" " + reason, SPACES); tail == "" || tail[0] == ' '
  {
    RStripShape(" " + reason, SPACES);
  }

  /** The browser reads the status the dev server sent. */
  lemma StatusSurvives(status: nat, reason: string)
    ensures StatusOf(StatusLine(status, reason)).Some? && StatusOf(StatusLine(status, reason)).value.0 == status
  {
    var code, tail := Decimal(status), RStrip(" " + reason, SPACES);
    DecimalRoundTrip(status);
    DigitsLack(code, ' ');
    TailBegins(reason);
    SplitHead(code, tail);
    StatusLineIs(status, reason);
    StatusAfterVersion(code + tail);
    VersionLacks();
  }

  lemma StatusAfterVersion(rest: string)
    ensures var line := "HTTP/1.1" + " " + rest;
            && Find(line, " ") == Some(8) && line[..8] == "HTTP/1.1" && line[9..] == rest
  {
    VersionLacks();
    LacksCuts("HTTP/1.1", ' ');
    FindAfter("HTTP/1.1", " ", rest);
  }

  lemma StatusLineOk(status: nat, reason: string)
    requires OneLine(reason)
    ensures StatusLine(status, reason) != "" && OneLine(StatusLine(status, reason))
  {
    var s := "HTTP/1.1 " + Decimal(status) + (" " + reason);
    RStripShape(s, SPACES);
    DecimalRoundTrip(status);
    var d := Decimal(status);
    forall i | 0 <= i < |s| ensures s[i] !in {'\r', '\n', '\0'} {
      if 9 <= i < 9 + |d| { assert IsDigit(d[i - 9]); }
    }
    assert s[0] == 'H';
  }

  lemma ReasonOneLine(line: string)
    requires OneLine(line) && StatusOf(line).Some?
    ensures OneLine(StatusOf(line).value.1)
  {
    FindFound(line, " ");
  }

  // ----- where the head ends -----

  const END := CRLF + CRLF

  predicate GoodLines(lines: seq<string>) {
    lines != [] && forall i :: 0 <= i < |lines| ==> lines[i] != "" && OneLine(lines[i])
  }

  lemma NoEndInLine(l: string, rest: string, j: nat)
    requires OneLine(l) && j <= |l| + 1 && (rest == "" || rest[0] != '\r')
    requires rest != "" || j < |l|
    ensures !OccursAt(l + CRLF + rest, END, j)
  {
    var s := l + CRLF + rest;
    if j + 4 <= |s| {
      var w := s[j..j + 4];
      assert w[0] == s[j] && w[2] == s[j + 2];
      assert END[0] == '\r' && END[2] == '\r';
      if j == |l| { assert s[j + 2] == rest[0]; }
    }
  }

  lemma NoEndInLast(l: string, j: nat)
    requires OneLine(l) && j < |l|
    ensures !OccursAt(l + END, END, j)
  {
    var s := l + END;
    if j + 4 <= |s| { assert s[j..j + 4][0] == l[j]; }
  }

  lemma BehindLine(l: string, rest: string, j: nat)
    requires j >= |l| + 2
    ensures OccursAt(l + CRLF + rest, END, j) ==> OccursAt(rest, END, j - |l| - 2)
  {
    var s := l + CRLF + rest;
    if j + 4 <= |s| { assert s[j..j + 4] == rest[j - |l| - 2..j - |l| - 2 + 4]; }
  }

  lemma {:induction false} EndOnlyAtEnd(lines: seq<string>, j: nat)
    requires GoodLines(lines) && j < |Join(lines, CRLF)|
    ensures !OccursAt(Join(lines, CRLF) + END, END, j)
    decreases |lines|
  {
    var l := lines[0];
    if |lines| == 1 {
      NoEndInLast(l, j);
    } else {
      var more := lines[1..];
      var rest := Join(more, CRLF);
      MoreGoodLines(lines);
      StartsLikeFirst(more);
      Assoc(l + CRLF, rest, END);
      if j < |l| + 2 {
        NoEndInLine(l, rest + END, j);
      } else {
        EndOnlyAtEnd(more, j - |l| - 2);
        BehindLine(l, rest + END, j);
      }
    }
  }

  lemma MoreGoodLines(lines: seq<string>)
    requires GoodLines(lines) && |lines| > 1
    ensures GoodLines(lines[1..])
  {
    forall i | 0 <= i < |lines[1..]| ensures lines[1..][i] != "" && OneLine(lines[1..][i]) {
      assert lines[1..][i] == lines[i + 1];
    }
  }

  lemma StartsLikeFirst(lines: seq<string>)
    requires GoodLines(lines)
    ensures Join(lines, CRLF) != "" && Join(lines, CRLF)[0] == lines[0][0] && lines[0][0] != '\r'
  {
    assert OneLine(lines[0]);
  }

  /** Reading up to the first blank line finds exactly the printed head. */
  lemma HeadEndsThere(head: Head, body: Bytes)
    requires HeadOk(head)
    ensures Find(FormatHead(head) + body, END) == Some(|FormatHead(head)| - 4)
  {
    var lines := [head.start] + LinesFor(head.headers);
    HeadersRoundTrip(head.headers);
    LinesNotEmpty(head.headers);
    forall k | 0 <= k < |lines| ensures lines[k] != "" && OneLine(lines[k]) {
      assert k > 0 ==> lines[k] == LinesFor(head.headers)[k - 1];
    }
    var text := Join(lines, CRLF);
    forall j | 0 <= j < |text| ensures !OccursAt(text + END, END, j) {
      EndOnlyAtEnd(lines, j);
    }
    FindAfter(text, END, body);
    assert FormatHead(head) == text + END;
  }

  lemma {:induction false} LinesNotEmpty(hs: Headers)
    ensures |LinesFor(hs)| == |hs| && forall k :: 0 <= k < |hs| ==> LinesFor(hs)[k] != ""
  {
    if hs != [] { LinesNotEmpty(hs[1..]); }
  }

  // ----- what a peer reads -----

  /** A peer that reads the message finds this head and, framed by it, exactly this data. */
  ghost predicate Reads(sent: Bytes, head: Head, side: Side, data: Bytes, limit: nat) {
    match Find(sent, END)
    case None => false
    case Some(i) =>
      && i + 4 <= |sent| && HeadOf(sent[..i + 4]) == Some(head)
      && FramingOf(head.headers, side).Ok?
      && BodyScan(FramingOf(head.headers, side).framing, sent[i + 4..], limit) == Whole(|sent[i + 4..]|, data)
  }

  lemma BodyAlone(f: Framing, s: Bytes, limit: nat)
    requires BodyScan(f, s, limit).Whole?
    ensures var b := s[..BodyScan(f, s, limit).used];
            BodyScan(f, b, limit) == Whole(|b|, BodyScan(f, s, limit).data)
  {
    if f.Chunked? {
      ScanIgnoresRest(s, "", limit);
      var b := s[..BodyScan(f, s, limit).used];
      assert b + "" == b;
    } else if f.UntilClose? {
      assert s[..|s|] == s;
    } else if f.Length? {
      assert s[..f.n][..f.n] == s[..f.n];
    }
  }

  lemma ReadsMessage(head: Head, body: Bytes, side: Side, data: Bytes, limit: nat)
    requires HeadOk(head) && FramingOf(head.headers, side).Ok?
    requires BodyScan(FramingOf(head.headers, side).framing, body, limit) == Whole(|body|, data)
    ensures Reads(FormatHead(head) + body, head, side, data, limit)
  {
    HeadEndsThere(head, body);
    var sent := FormatHead(head) + body;
    assert sent[..|FormatHead(head)|] == FormatHead(head) && sent[|FormatHead(head)|..] == body;
    FormatParse(head);
  }

  /** A forwarded response, framed by a header Connection does not name, reads as it was sent. */
  lemma ForwardedReads(start: string, hs: Headers, cfg: Config, proxy: string, side: Side, s: Bytes, limit: nat)
    requires start != "" && OneLine(start) && AllOk(hs) && ConfigOk(cfg) && Clean(proxy) && side.Response?
    requires FramingOf(hs, side).Ok? && !NamesDecider(hs, side)
    requires BodyScan(FramingOf(hs, side).framing, s, limit).Whole?
    ensures var scan := BodyScan(FramingOf(hs, side).framing, s, limit);
            var head := Head(start, ResponseHeaders(hs, cfg, proxy));
            Reads(FormatHead(head) + s[..scan.used], head, side, scan.data, limit)
  {
    ResponseKeepsFraming(hs, cfg, proxy, side);
    ResponseHeadersOk(hs, cfg, proxy);
    BodyAlone(FramingOf(hs, side).framing, s, limit);
    var scan := BodyScan(FramingOf(hs, side).framing, s, limit);
    ReadsMessage(Head(start, ResponseHeaders(hs, cfg, proxy)), s[..scan.used], side, scan.data, limit);
  }

  /** The same for a request on its way to the dev server. */
  lemma RequestReads(start: string, hs: Headers, cfg: Config, proxies: seq<string>, upgrade: bool, s: Bytes, limit: nat)
    requires start != "" && OneLine(start) && AllOk(hs) && ConfigOk(cfg)
    requires FramingOf(hs, Request).Ok? && !NamesDecider(hs, Request)
    requires BodyScan(FramingOf(hs, Request).framing, s, limit).Whole?
    ensures var scan := BodyScan(FramingOf(hs, Request).framing, s, limit);
            var head := Head(start, RequestHeaders(hs, cfg, proxies, upgrade));
            Reads(FormatHead(head) + s[..scan.used], head, Request, scan.data, limit)
  {
    RequestKeepsFraming(hs, cfg, proxies, upgrade);
    RequestHeadersOk(hs, cfg, proxies, upgrade);
    BodyAlone(FramingOf(hs, Request).framing, s, limit);
    var scan := BodyScan(FramingOf(hs, Request).framing, s, limit);
    ReadsMessage(Head(start, RequestHeaders(hs, cfg, proxies, upgrade)), s[..scan.used], Request, scan.data, limit);
  }

  lemma EditedReads(start: string, hs: Headers, edited: Bytes, side: Side, limit: nat)
    requires start != "" && OneLine(start) && AllOk(hs) && side.Response? && !Bodyless(side)
    ensures var head := Head(start, EditedHeaders(hs, edited));
            Reads(FormatHead(head) + edited, head, side, edited, limit)
  {
    EditedFraming(hs, edited, side);
    EditedHeadersOk(hs, edited);
    assert edited[..|edited|] == edited;
    ReadsMessage(Head(start, EditedHeaders(hs, edited)), edited, side, edited, limit);
  }

  // ----- the response half of _serve, from the first final response head on -----

  /** Relayed and Spliced have sent a whole response; ErrorPage has sent nothing yet and answers with
      an error page, HungUp has sent nothing and answers nothing; CutOff broke off in the middle. */
  datatype Outcome = Relayed | Spliced | ErrorPage(status: int) | HungUp | CutOff

  function EditedDocument(doc: Bytes, hs: Headers, cfg: Config): Bytes {
    Inject(doc, Tag(cfg.frontendOrigin, NonceDown(hs, cfg, ConnectionTokens(hs))))
  }

  /** A document that cannot be read: too large or garbled gets an error page, one that is cut short
      gets none. */
  function ReadOutcome(reading: Reading): Outcome {
    match reading
    case Got(_, _) => Spliced
    case Over => ErrorPage(502)
    case Bad(fault) => if fault == Garbled then ErrorPage(502) else HungUp
  }

  /** What the answer to one response head comes to, given the bytes that follow it. */
  function Expected(head: Head, asked: Headers, verb: string, rest: Bytes, limit: nat): Outcome {
    match StatusOf(head.start)
    case None => ErrorPage(502)
    case Some((status, _)) =>
      var side := Response(status, verb);
      match FramingOf(head.headers, side)
      case Refused(code) => ErrorPage(code)
      case Ok(f) =>
        if ShouldInject(asked, head.headers, side, f) then ReadOutcome(BodyReading(f, rest, limit, MAX_HTML))
        else if BodyScan(f, rest, limit).Whole? then Relayed
        else CutOff
  }

  /** A first part of what was received has been sent behind the head. */
  ghost predicate PartSent(before: Bytes, now: Bytes, head: Bytes, received: Bytes) {
    exists k :: 0 <= k <= |received| && now == before + (head + received[..k])
  }

  method Answer(up: Reader, down: Writer, head: Head, asked: Headers, verb: string, cfg: Config, proxy: string)
    returns (o: Outcome)
    requires HeadOk(head) && ConfigOk(cfg) && Clean(proxy)
    modifies up, down
    ensures o == Expected(head, asked, verb, old(up.rest), up.limit)
    ensures o.ErrorPage? || o.HungUp? ==> down.sent == old(down.sent)
    // cut off, the browser has the whole head and a first part of the body
    ensures o.CutOff? ==>
      var (status, reason) := StatusOf(head.start).value;
      var out := Head(StatusLine(status, reason), ResponseHeaders(head.headers, cfg, proxy));
      PartSent(old(down.sent), down.sent, FormatHead(out), old(up.rest))
    // the browser reads the status and the data sent, whole and with nothing left over
    ensures o.Relayed? ==>
      var (status, reason) := StatusOf(head.start).value;
      var side, out := Response(status, verb), Head(StatusLine(status, reason), ResponseHeaders(head.headers, cfg, proxy));
      var scan := BodyScan(FramingOf(head.headers, side).framing, old(up.rest), up.limit);
      && down.sent == old(down.sent) + (FormatHead(out) + old(up.rest)[..scan.used])
      && up.rest == old(up.rest)[scan.used..]
      && (!NamesDecider(head.headers, side) ==>
            Reads(FormatHead(out) + old(up.rest)[..scan.used], out, side, scan.data, up.limit))
    ensures o.Spliced? ==>
      var (status, reason) := StatusOf(head.start).value;
      var side := Response(status, verb);
      var scan := BodyScan(FramingOf(head.headers, side).framing, old(up.rest), up.limit);
      && scan.Whole?
      && var edited := EditedDocument(scan.data, head.headers, cfg);
         var out := Head(StatusLine(status, reason), EditedHeaders(ResponseHeaders(head.headers, cfg, proxy), edited));
         && down.sent == old(down.sent) + (FormatHead(out) + edited)
         && Reads(FormatHead(out) + edited, out, side, edited, up.limit)
  {
    var parsed := StatusOf(head.start);
    if parsed == None { return ErrorPage(502); }
    var (status, reason) := parsed.value;
    var side := Response(status, verb);
    var framed := FramingOf(head.headers, side);
    if framed.Refused? { return ErrorPage(framed.status); }
    var headers, nonce := RewriteResponse(head.headers, cfg, proxy);
    var line := StatusLine(status, reason);
    LineIsOk(head, status, reason);
    ResponseHeadersOk(head.headers, cfg, proxy);
    if ShouldInject(asked, head.headers, side, framed.framing) {
      o := ReadAndSplice(up, down, line, headers, framed.framing, side, Tag(cfg.frontendOrigin, nonce));
    } else {
      ghost var rest := up.rest;
      var out := FormatHead(Head(line, headers));
      if !NamesDecider(head.headers, side) && BodyScan(framed.framing, rest, up.limit).Whole? {
        ForwardedReads(line, head.headers, cfg, proxy, side, rest, up.limit);
      }
      o := SendAndCopy(up, down, out, framed.framing);
    }
  }

  /** The injecting branch. */
  method ReadAndSplice(up: Reader, down: Writer, line: string, headers: Headers, f: Framing, side: Side, tag: Bytes)
    returns (o: Outcome)
    requires line != "" && OneLine(line) && AllOk(headers) && side.Response? && !Bodyless(side) && !f.NoBody?
    modifies up, down
    ensures o == ReadOutcome(BodyReading(f, old(up.rest), up.limit, MAX_HTML))
    ensures o.ErrorPage? || o.HungUp? ==> down.sent == old(down.sent)
    ensures o.Spliced? ==>
      && BodyScan(f, old(up.rest), up.limit).Whole?
      && var edited := Inject(BodyScan(f, old(up.rest), up.limit).data, tag);
         var out := Head(line, EditedHeaders(headers, edited));
         && down.sent == old(down.sent) + (FormatHead(out) + edited)
         && Reads(FormatHead(out) + edited, out, side, edited, up.limit)
  {
    ReadingIsScan(f, up.rest, up.limit, MAX_HTML);
    var doc := ReadBody(up, f, MAX_HTML);
    match doc
    case TooLarge => o := ErrorPage(502);
    case Malformed => o := ErrorPage(502);
    case Dropped => o := HungUp;
    case Body(data) =>
      var edited := Inject(data, tag);
      var out := Head(line, EditedHeaders(headers, edited));
      EditedReads(line, headers, edited, side, up.limit);
      down.Write(FormatHead(out) + edited);
      o := Spliced;
  }

  method SendAndCopy(up: Reader, down: Writer, out: Bytes, f: Framing) returns (o: Outcome)
    modifies up, down
    ensures o == if BodyScan(f, old(up.rest), up.limit).Whole? then Relayed else CutOff
    ensures PartSent(old(down.sent), down.sent, out, old(up.rest))
    ensures o.Relayed? ==>
      var used := BodyScan(f, old(up.rest), up.limit).used;
      down.sent == old(down.sent) + (out + old(up.rest)[..used]) && up.rest == old(up.rest)[used..]
  {
    ghost var rest := up.rest;
    down.Write(out);
    label Sent:
    var ok := CopyBody(up, down, f);
    o := if ok then Relayed else CutOff;
    assert ForwardedPart@Sent(up, down);
    ghost var k :| 0 <= k <= |rest| && down.sent == old(down.sent) + out + rest[..k];
    Assoc(old(down.sent), out, rest[..k]);
    if ok {
      ghost var used := BodyScan(f, rest, up.limit).used;
      assert Forwarded@Sent(up, down, rest[..used]);
      assert rest == rest[..used] + rest[used..];
      Assoc(old(down.sent), out, rest[..used]);
      TailAfter(rest[..used], up.rest, rest, used);
    }
  }

  lemma TailAfter(a: Bytes, b: Bytes, s: Bytes, n: nat)
    requires n <= |s| && a == s[..n] && s == a + b
    ensures b == s[n..]
  {
  }

  lemma LineIsOk(head: Head, status: nat, reason: string)
    requires HeadOk(head) && StatusOf(head.start) == Some((status, reason))
    ensures StatusLine(status, reason) != "" && OneLine(StatusLine(status, reason))
  {
    ReasonOneLine(head.start);
    StatusLineOk(status, reason);
  }
}
