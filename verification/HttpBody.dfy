/** Message bodies of the preview proxy: the copier and the reader. */
module HttpBody {
  // The copier forwards a body with its framing intact and the reader decodes one, over a stream
  // that may arrive in pieces of any size. Both stop at the end of exactly one body, and at the
  // same place.

  import opened Basics
  import opened HttpWire
  import opened Text

  // ----- the stream -----

  /** The first line of s, its line break included, if it is complete and short enough. */
  function LineOf(s: Bytes, limit: nat): Option<Bytes> {
    match Find(s, CRLF)
    case Some(i) => if i <= limit && i + 2 <= |s| then Some(s[..i + 2]) else None
    case None => None
  }

  /** What goes wrong where there is no line, or no body: the stream ends too early, or what it
      holds is no size or too long for a line. */
  datatype Fault = CutShort | Garbled

  /** Why s does not begin with a line: it is taken for too long as soon as limit + 2 bytes have come
      without a line break. */
  function LineFault(s: Bytes, limit: nat): Fault {
    if |s| >= limit + 2 then Garbled else CutShort
  }

  predicate IsSuffix(t: Bytes, s: Bytes) {
    |t| <= |s| && t == s[|s| - |t|..]
  }

  /** What a peer sends before it closes. How much of it one read returns is left open. */
  class Reader {
    var rest: Bytes
    const limit: nat

    constructor (all: Bytes, limit: nat)
      ensures rest == all && this.limit == limit
    {
      rest := all;
      this.limit := limit;
    }

    /** At most max bytes; nothing only at the end of the stream (or when nothing was asked for). */
    method Read(max: nat) returns (chunk: Bytes)
      modifies this
      ensures old(rest) == chunk + rest && |chunk| <= max
      ensures chunk == "" <==> max == 0 || old(rest) == ""
    {
      if max == 0 || rest == "" { return ""; }
      var k: nat :| 1 <= k <= max && k <= |rest|;
      chunk, rest := rest[..k], rest[k..];
    }

    method ReadExactly(n: nat) returns (data: Option<Bytes>)
      modifies this
      ensures n <= |old(rest)| ==> data == Some(old(rest)[..n]) && rest == old(rest)[n..]
      ensures n > |old(rest)| ==> data == None && rest == ""
    {
      if n > |rest| {
        rest := "";
        return None;
      }
      data, rest := Some(rest[..n]), rest[n..];
    }

    method ReadLine() returns (line: Option<Bytes>, fault: Fault)
      modifies this
      ensures line == LineOf(old(rest), limit)
      ensures line.Some? ==> old(rest) == line.value + rest
      ensures line.None? ==> IsSuffix(rest, old(rest)) && fault == LineFault(old(rest), limit)
    {
      line, fault := LineOf(rest, limit), LineFault(rest, limit);
      if line.Some? {
        rest := rest[|line.value|..];
      } else if fault == CutShort {
        rest := "";
      }
    }
  }

  class Writer {
    var sent: Bytes

    constructor () ensures sent == "" { sent := ""; }

    method Write(data: Bytes)
      modifies this
      ensures sent == old(sent) + data
    {
      sent := sent + data;
    }
  }

  // ----- chunk sizes -----

  function HexValue(c: char): Option<nat> {
    if '0' <= c <= '9' then Some(c as int - '0' as int)
    else if 'a' <= c <= 'f' then Some(c as int - 'a' as int + 10)
    else if 'A' <= c <= 'F' then Some(c as int - 'A' as int + 10)
    else None
  }

  /** int(s, 16), for one or more hexadecimal digits. */
  function ParseHex(s: string): Option<nat> {
    if s == "" then None
    else
      match HexValue(s[|s| - 1])
      case None => None
      case Some(d) =>
        if |s| == 1 then Some(d)
        else match ParseHex(s[..|s| - 1]) case None => None case Some(n) => Some(16 * n + d)
  }

  /** The size a chunk line announces: what stands before the first ';', stripped. */
  function ChunkSize(line: Bytes): Option<nat>
    requires |line| >= 2
  {
    ParseHex(Strip(Split(line[..|line| - 2], ";")[0], BYTE_SPACES))
  }

  // ----- the chunked grammar, and the length of one body -----

  /** One chunk as it appears on the wire: size line, data, and the two bytes after it
      (a line break, though neither the copier nor the reader looks at it). */
  datatype Chunk = Chunk(line: Bytes, data: Bytes, tail: Bytes)

  datatype ChunkedBody = ChunkedBody(chunks: seq<Chunk>, last: Bytes, trailers: seq<Bytes>)

  predicate IsLine(l: Bytes, limit: nat) {
    |l| >= 2 && Find(l, CRLF) == Some(|l| - 2) && |l| - 2 <= limit
  }

  predicate IsChunk(c: Chunk, limit: nat) {
    IsLine(c.line, limit) && ChunkSize(c.line) == Some(|c.data|) && |c.data| > 0 && |c.tail| == 2
  }

  predicate AreTrailers(ts: seq<Bytes>, limit: nat) {
    && ts != [] && IsLine(ts[0], limit)
    && if ts[0] == CRLF then |ts| == 1 else AreTrailers(ts[1..], limit)
  }

  predicate WellFormed(b: ChunkedBody, limit: nat) {
    && (forall i :: 0 <= i < |b.chunks| ==> IsChunk(b.chunks[i], limit))
    && IsLine(b.last, limit) && ChunkSize(b.last) == Some(0)
    && AreTrailers(b.trailers, limit)
  }

  function Concat(parts: seq<Bytes>): Bytes {
    if parts == [] then "" else parts[0] + Concat(parts[1..])
  }

  function ChunksWire(cs: seq<Chunk>): Bytes {
    if cs == [] then "" else cs[0].line + cs[0].data + cs[0].tail + ChunksWire(cs[1..])
  }

  function ChunksData(cs: seq<Chunk>): Bytes {
    if cs == [] then "" else cs[0].data + ChunksData(cs[1..])
  }

  /** The body as bytes, and the data it carries. */
  function Wire(b: ChunkedBody): Bytes {
    ChunksWire(b.chunks) + b.last + Concat(b.trailers)
  }

  function Data(b: ChunkedBody): Bytes {
    ChunksData(b.chunks)
  }

  /** Bytes used by, and data carried in, the one chunked body at the head of s. */
  datatype Scan = Whole(used: nat, data: Bytes) | Broken

  function ScanTrailers(s: Bytes, limit: nat): (r: Option<nat>)
    ensures r.Some? ==> r.value <= |s|
    decreases |s|
  {
    match LineOf(s, limit)
    case None => None
    case Some(line) =>
      if line == CRLF then Some(2)
      else if |line| == 0 then None
      else match ScanTrailers(s[|line|..], limit) case None => None case Some(n) => Some(|line| + n)
  }

  /** What one turn of the chunked loop meets at the head of s: a chunk, the end of the body
      (last line and trailers), or something that does not parse or is cut off. */
  datatype Turn = More(used: nat, data: Bytes) | Last(used: nat) | Failed

  function TurnOf(s: Bytes, limit: nat): (t: Turn)
    ensures t.More? ==> 0 < t.used <= |s|
    ensures t.Last? ==> t.used <= |s|
  {
    match LineOf(s, limit)
    case None => Failed
    case Some(line) =>
      match ChunkSize(line)
      case None => Failed
      case Some(n) =>
        if n > 0 then
          if |line| + n + 2 <= |s| then More(|line| + n + 2, s[|line|..|line| + n]) else Failed
        else
          match ScanTrailers(s[|line|..], limit) case None => Failed case Some(u) => Last(|line| + u)
  }

  function ScanChunked(s: Bytes, limit: nat): (r: Scan)
    ensures r.Whole? ==> r.used <= |s|
    decreases |s|
  {
    match TurnOf(s, limit)
    case Failed => Broken
    case Last(u) => Whole(u, "")
    case More(u, d) => Behind(u, d, ScanChunked(s[u..], limit))
  }

  /** What a scan amounts to when a first part, carrying d, lies behind it. */
  function Behind(pos: nat, d: Bytes, scan: Scan): Scan {
    match scan case Broken => Broken case Whole(u, x) => Whole(pos + u, d + x)
  }

  /** The bytes of s that belong to its first body under framing f. */
  function BodyScan(f: Framing, s: Bytes, limit: nat): (r: Scan)
    ensures r.Whole? ==> r.used <= |s|
  {
    match f
    case NoBody => Whole(0, "")
    case Length(n) => if n <= |s| then Whole(n, s[..n]) else Broken
    case Chunked => ScanChunked(s, limit)
    case UntilClose => Whole(|s|, s)
  }

  // ----- the scan reads exactly the grammar -----

  lemma LineAhead(l: Bytes, rest: Bytes, limit: nat)
    requires IsLine(l, limit)
    ensures LineOf(l + rest, limit) == Some(l) && (l + rest)[|l|..] == rest
  {
    FindFound(l, CRLF);
    var p := l[..|l| - 2];
    assert l == p + CRLF;
    forall j | 0 <= j < |p| ensures !OccursAt(p + CRLF, CRLF, j) {
    }
    FindAfter(p, CRLF, rest);
    assert l + rest == p + CRLF + rest;
    assert (l + rest)[..|l|] == l;
  }

  lemma LineIsLine(s: Bytes, limit: nat)
    requires LineOf(s, limit).Some?
    ensures IsLine(LineOf(s, limit).value, limit)
  {
    FindFound(s, CRLF);
    var i := Find(s, CRLF).value;
    var l := s[..i + 2];
    assert l[i..i + 2] == CRLF;
    forall j | 0 <= j < i ensures !OccursAt(l, CRLF, j) {
      assert !OccursAt(s, CRLF, j);
      assert l[j..j + 2] == s[j..j + 2];
    }
    FindIs(l, CRLF, i);
  }

  function Plus(n: nat, more: Option<nat>): Option<nat> {
    match more case None => None case Some(u) => Some(n + u)
  }

  /** One trailer line at the head of the stream. */
  lemma TrailerLine(line: Bytes, rest: Bytes, limit: nat)
    requires IsLine(line, limit)
    ensures ScanTrailers(line + rest, limit) == if line == CRLF then Some(2) else Plus(|line|, ScanTrailers(rest, limit))
  {
    LineAhead(line, rest, limit);
  }

  lemma {:induction false} TrailersAhead(ts: seq<Bytes>, rest: Bytes, limit: nat)
    requires AreTrailers(ts, limit)
    ensures ScanTrailers(Concat(ts) + rest, limit) == Some(|Concat(ts)|)
  {
    if ts[0] == CRLF {
      OneTrailer(ts, rest, limit);
    } else {
      TrailersAhead(ts[1..], rest, limit);
      MoreTrailers(ts[0], Concat(ts[1..]), rest, limit);
    }
  }

  lemma OneTrailer(ts: seq<Bytes>, rest: Bytes, limit: nat)
    requires |ts| == 1 && ts[0] == CRLF && IsLine(CRLF, limit)
    ensures ScanTrailers(Concat(ts) + rest, limit) == Some(|Concat(ts)|)
  {
    assert Concat(ts[1..]) == "" && Concat(ts) == CRLF + "" == CRLF;
    TrailerLine(CRLF, rest, limit);
  }

  lemma MoreTrailers(t: Bytes, more: Bytes, rest: Bytes, limit: nat)
    requires IsLine(t, limit) && t != CRLF && ScanTrailers(more + rest, limit) == Some(|more|)
    ensures ScanTrailers(t + more + rest, limit) == Some(|t + more|)
  {
    Assoc(t, more, rest);
    var behind := more + rest;
    TrailerLine(t, behind, limit);
  }

  /** How far the trailers of all reach, seen from behind its part past. */
  ghost predicate TrailersFrom(all: Bytes, past: Bytes, here: Bytes, limit: nat) {
    all == past + here && ScanTrailers(all, limit) == Plus(|past|, ScanTrailers(here, limit))
  }

  lemma TrailersOn(all: Bytes, past: Bytes, line: Bytes, rest: Bytes, limit: nat)
    requires TrailersFrom(all, past, line + rest, limit) && IsLine(line, limit)
    ensures all == past + line + rest
    ensures line == CRLF ==> ScanTrailers(all, limit) == Some(|past + line|)
    ensures line != CRLF ==> TrailersFrom(all, past + line, rest, limit)
  {
    TrailerLine(line, rest, limit);
    Assoc(past, line, rest);
  }

  lemma DropPast(past: Bytes, here: Bytes)
    ensures (past + here)[|past|..] == here
  {
  }

  lemma Regroup(a: Bytes, b: Bytes, c: Bytes, d: Bytes, e: Bytes)
    ensures a + b + c + d + e == a + (b + c + (d + e))
    ensures (b + c + (d + e))[..|b|] == b && (b + c + (d + e))[|b| + |c|..] == d + e
  {
  }

  lemma WireStep(b: ChunkedBody)
    requires b.chunks != []
    ensures var c := b.chunks[0];
            Wire(b) == c.line + c.data + c.tail + Wire(b.(chunks := b.chunks[1..]))
  {
    var c, more := b.chunks[0], ChunksWire(b.chunks[1..]);
    Regroup4(c.line, c.data, c.tail, more, b.last + Concat(b.trailers));
    Assoc(c.line + c.data + c.tail + more, b.last, Concat(b.trailers));
    Assoc(more, b.last, Concat(b.trailers));
  }

  lemma Regroup4(a: Bytes, b: Bytes, c: Bytes, d: Bytes, e: Bytes)
    ensures a + b + c + d + e == a + b + c + (d + e)
  {
  }

  lemma {:induction false} ChunksAhead(b: ChunkedBody, rest: Bytes, limit: nat)
    requires WellFormed(b, limit)
    ensures ScanChunked(Wire(b) + rest, limit) == Whole(|Wire(b)|, Data(b))
    decreases |b.chunks|
  {
    if b.chunks == [] {
      LastAhead(b, rest, limit);
    } else {
      var b' := b.(chunks := b.chunks[1..]);
      ChunksAhead(b', rest, limit);
      ChunkAhead(b.chunks[0], Wire(b'), Data(b'), rest, limit);
      WireStep(b);
    }
  }

  lemma LastAhead(b: ChunkedBody, rest: Bytes, limit: nat)
    requires WellFormed(b, limit) && b.chunks == []
    ensures ScanChunked(Wire(b) + rest, limit) == Whole(|Wire(b)|, "")
  {
    assert Wire(b) + rest == b.last + (Concat(b.trailers) + rest);
    LineAhead(b.last, Concat(b.trailers) + rest, limit);
    TrailersAhead(b.trailers, rest, limit);
  }

  lemma TurnAhead(c: Chunk, more: Bytes, limit: nat)
    requires IsChunk(c, limit)
    ensures var head := c.line + c.data + c.tail;
            TurnOf(head + more, limit) == More(|head|, c.data) && (head + more)[|head|..] == more
  {
    var after := c.data + c.tail + more;
    assert c.line + c.data + c.tail + more == c.line + after;
    LineAhead(c.line, after, limit);
    assert (c.line + after)[|c.line|..|c.line| + |c.data|] == c.data;
  }

  lemma ChunkAhead(c: Chunk, wire: Bytes, data: Bytes, rest: Bytes, limit: nat)
    requires IsChunk(c, limit) && ScanChunked(wire + rest, limit) == Whole(|wire|, data)
    ensures var all := c.line + c.data + c.tail + wire;
            ScanChunked(all + rest, limit) == Whole(|all|, c.data + data)
  {
    Assoc(c.line + c.data + c.tail, wire, rest);
    TurnAhead(c, wire + rest, limit);
  }

  lemma {:induction false} TrailersFound(s: Bytes, limit: nat) returns (ts: seq<Bytes>)
    requires ScanTrailers(s, limit).Some?
    ensures AreTrailers(ts, limit) && Concat(ts) == s[..ScanTrailers(s, limit).value]
    decreases |s|
  {
    var line := LineOf(s, limit).value;
    LineIsLine(s, limit);
    if line == CRLF {
      ts := [CRLF];
      assert Concat(ts) == CRLF + Concat([]);
    } else {
      var more := TrailersFound(s[|line|..], limit);
      ts := [line] + more;
      assert ts[1..] == more;
    }
  }

  lemma AddChunk(c: Chunk, b: ChunkedBody, limit: nat) returns (r: ChunkedBody)
    requires IsChunk(c, limit) && WellFormed(b, limit)
    ensures WellFormed(r, limit)
    ensures Wire(r) == c.line + c.data + c.tail + Wire(b) && Data(r) == c.data + Data(b)
  {
    r := ChunkedBody([c] + b.chunks, b.last, b.trailers);
    assert r.chunks[1..] == b.chunks;
    assert r.(chunks := r.chunks[1..]) == b;
    WireStep(r);
  }

  lemma SliceOfSlice(s: Bytes, a: nat, b: nat, c: nat)
    requires a <= b <= c <= |s|
    ensures s[..a] + s[a..b] + s[b..c] == s[..c]
  {
  }

  lemma TurnIsChunk(s: Bytes, limit: nat) returns (c: Chunk)
    requires TurnOf(s, limit).More?
    ensures IsChunk(c, limit)
    ensures c.line + c.data + c.tail == s[..TurnOf(s, limit).used] && c.data == TurnOf(s, limit).data
  {
    var line := LineOf(s, limit).value;
    LineIsLine(s, limit);
    var n := ChunkSize(line).value;
    var a, b := |line|, |line| + n;
    c := Chunk(line, s[a..b], s[b..b + 2]);
    assert line == s[..a];
    SliceOfSlice(s, a, b, b + 2);
  }

  lemma TurnIsLast(s: Bytes, limit: nat) returns (b: ChunkedBody)
    requires TurnOf(s, limit).Last?
    ensures WellFormed(b, limit) && b.chunks == [] && Wire(b) == s[..TurnOf(s, limit).used]
  {
    var line := LineOf(s, limit).value;
    LineIsLine(s, limit);
    var after := s[|line|..];
    var ts := TrailersFound(after, limit);
    b := ChunkedBody([], line, ts);
    NoChunksWire(line, ts);
    LineThenRest(s, line);
    Cut(line, after, ScanTrailers(after, limit).value);
  }

  lemma NoChunksWire(line: Bytes, ts: seq<Bytes>)
    ensures Wire(ChunkedBody([], line, ts)) == line + Concat(ts)
  {
    assert "" + line == line;
  }

  lemma LineThenRest(s: Bytes, line: Bytes)
    requires line <= s
    ensures s == line + s[|line|..]
  {
  }

  lemma {:induction false} ChunksFound(s: Bytes, limit: nat) returns (b: ChunkedBody)
    requires ScanChunked(s, limit).Whole?
    ensures WellFormed(b, limit)
    ensures Wire(b) == s[..ScanChunked(s, limit).used] && Data(b) == ScanChunked(s, limit).data
    decreases |s|
  {
    match TurnOf(s, limit)
    case Last(u) => b := TurnIsLast(s, limit);
    case More(u, d) =>
      var b' := ChunksFound(s[u..], limit);
      var c := TurnIsChunk(s, limit);
      b := AddChunk(c, b', limit);
      CutTwice(s, u, ScanChunked(s[u..], limit).used);
  }

  lemma CutTwice(s: Bytes, u: nat, v: nat)
    requires u + v <= |s|
    ensures s[..u + v] == s[..u] + s[u..][..v]
  {
  }

  lemma Cut(line: Bytes, after: Bytes, u: nat)
    requires u <= |after|
    ensures (line + after)[..|line| + u] == line + after[..u]
  {
  }

  /** The scan finds a body exactly when s begins with one of the grammar, and measures it. */
  lemma ScanIsGrammar(s: Bytes, limit: nat)
    ensures ScanChunked(s, limit).Whole?
       <==> exists b :: WellFormed(b, limit) && Wire(b) <= s
    ensures forall b :: WellFormed(b, limit) && Wire(b) <= s
                   ==> ScanChunked(s, limit) == Whole(|Wire(b)|, Data(b))
  {
    forall b | WellFormed(b, limit) && Wire(b) <= s
      ensures ScanChunked(s, limit) == Whole(|Wire(b)|, Data(b))
    {
      assert s == Wire(b) + s[|Wire(b)|..];
      ChunksAhead(b, s[|Wire(b)|..], limit);
    }
    if ScanChunked(s, limit).Whole? {
      var b := ChunksFound(s, limit);
      assert Wire(b) <= s;
    }
  }

  /** A stream begins with at most one chunked body: where it ends is not a choice. */
  lemma OneBodyOnly(s: Bytes, a: ChunkedBody, b: ChunkedBody, limit: nat)
    requires WellFormed(a, limit) && WellFormed(b, limit) && Wire(a) <= s && Wire(b) <= s
    ensures Wire(a) == Wire(b) && Data(a) == Data(b)
  {
    ScanIsGrammar(s, limit);
  }

  /** Bytes after a body do not change where it ends. */
  lemma {:induction false} ScanIgnoresRest(s: Bytes, more: Bytes, limit: nat)
    requires ScanChunked(s, limit).Whole?
    ensures ScanChunked(s[..ScanChunked(s, limit).used] + more, limit) == ScanChunked(s, limit)
  {
    var b := ChunksFound(s, limit);
    ChunksAhead(b, more, limit);
  }

  // ----- the copier -----

  const CHUNK: nat := 0x1_0000

  lemma BehindTwice(p: nat, d: Bytes, q: nat, e: Bytes, scan: Scan)
    ensures Behind(p, d, Behind(q, e, scan)) == Behind(p + q, d + e, scan)
  {
    if scan.Whole? { Assoc(d, e, scan.data); }
  }

  /** The writer has been given exactly the first part of what the reader had. */
  twostate predicate Forwarded(r: Reader, w: Writer, done: Bytes)
    reads r, w
  {
    old(r.rest) == done + r.rest && w.sent == old(w.sent) + done
  }

  /** Whatever went wrong, only bytes that were read have been written, in order. */
  twostate predicate ForwardedPart(r: Reader, w: Writer)
    reads r, w
  {
    exists k :: 0 <= k <= |old(r.rest)| && w.sent == old(w.sent) + old(r.rest)[..k]
  }

  /** _copy_body: what is written is what was consumed, and that is exactly one body. */
  method CopyBody(r: Reader, w: Writer, f: Framing) returns (ok: bool)
    modifies r, w
    ensures ok <==> BodyScan(f, old(r.rest), r.limit).Whole?
    ensures ok ==> Forwarded(r, w, old(r.rest)[..BodyScan(f, old(r.rest), r.limit).used])
    ensures ForwardedPart(r, w)
  {
    match f
    case NoBody => ok := true;
      assert w.sent == old(w.sent) + old(r.rest)[..0];
      assert Forwarded(r, w, old(r.rest)[..0]);
    case Length(n) => ok := CopyLength(r, w, n);
    case Chunked => ok := CopyChunked(r, w);
    case UntilClose => CopyUntilClose(r, w); ok := true;
  }

  method CopyLength(r: Reader, w: Writer, n: nat) returns (ok: bool)
    modifies r, w
    ensures ok <==> n <= |old(r.rest)|
    ensures ok ==> Forwarded(r, w, old(r.rest)[..n])
    ensures ForwardedPart(r, w)
  {
    var remaining := n;
    ghost var done: Bytes := "";
    while remaining > 0
      invariant 0 <= remaining && remaining + |done| == n
      invariant Forwarded(r, w, done)
    {
      var chunk := r.Read(if CHUNK < remaining then CHUNK else remaining);
      if chunk == "" {
        assert done == old(r.rest)[..|done|];
        return false;
      }
      Assoc(done, chunk, r.rest);
      Assoc(old(w.sent), done, chunk);
      w.Write(chunk);
      done := done + chunk;
      remaining := remaining - |chunk|;
    }
    assert done == old(r.rest)[..|done|];
    ok := true;
  }

  method CopyUntilClose(r: Reader, w: Writer)
    modifies r, w
    ensures Forwarded(r, w, old(r.rest)[..|old(r.rest)|])
    ensures ForwardedPart(r, w)
  {
    ghost var done: Bytes := "";
    while true
      invariant Forwarded(r, w, done)
      decreases |r.rest|
    {
      var chunk := r.Read(CHUNK);
      if chunk == "" {
        assert done == old(r.rest)[..|old(r.rest)|];
        return;
      }
      Assoc(done, chunk, r.rest);
      Assoc(old(w.sent), done, chunk);
      w.Write(chunk);
      done := done + chunk;
    }
  }

  method CopyChunked(r: Reader, w: Writer) returns (ok: bool)
    modifies r, w
    ensures ok <==> ScanChunked(old(r.rest), r.limit).Whole?
    ensures ok ==> Forwarded(r, w, old(r.rest)[..ScanChunked(old(r.rest), r.limit).used])
    ensures ForwardedPart(r, w)
  {
    ghost var done: Bytes, data: Bytes := "", "";
    while true
      invariant Forwarded(r, w, done)
      invariant ScanChunked(old(r.rest), r.limit) == Behind(|done|, data, ScanChunked(r.rest, r.limit))
      decreases |r.rest|
    {
      ghost var here, sent := r.rest, w.sent;
      ghost var turn := TurnOf(here, r.limit);
      var step;
      ghost var part;
      step, part := CopyChunk(r, w);
      ForwardedMore(old(r.rest), old(w.sent), done, here, part);
      assert w.sent == old(w.sent) + (done + part);
      if step != Copied { return step == Finished; }
      BehindTwice(|done|, data, turn.used, turn.data, ScanChunked(r.rest, r.limit));
      done, data := done + part, data + turn.data;
    }
  }

  datatype CopyStep = Copied | Finished | GaveUp

  lemma ForwardedMore(all: Bytes, sent: Bytes, done: Bytes, here: Bytes, part: Bytes)
    requires all == done + here && part <= here
    ensures sent + done + part == sent + (done + part)
    ensures done + part == all[..|done| + |part|] && here[|part|..] == all[|done| + |part|..]
    ensures all == done + part + here[|part|..]
  {
  }

  /** One turn of the loop. part is what was read and written on. */
  method CopyChunk(r: Reader, w: Writer) returns (step: CopyStep, ghost part: Bytes)
    modifies r, w
    ensures part <= old(r.rest) && w.sent == old(w.sent) + part
    ensures match TurnOf(old(r.rest), r.limit)
            case Failed => step == GaveUp
            case Last(u) => step == Finished && |part| == u && r.rest == old(r.rest)[u..]
            case More(u, _) => step == Copied && |part| == u && r.rest == old(r.rest)[u..]
  {
    var line, _ := r.ReadLine();
    if line == None { return GaveUp, ""; }
    LineIsLine(old(r.rest), r.limit);
    assert r.rest == old(r.rest)[|line.value|..];
    w.Write(line.value);
    part := line.value;
    var n := ChunkSize(line.value);
    if n == None { return GaveUp, part; }
    if n.value == 0 {
      var ok;
      ghost var more;
      ok, more := CopyTrailers(r, w);
      ForwardedMore(old(r.rest), old(w.sent), part, old(r.rest)[|part|..], more);
      return if ok then Finished else GaveUp, part + more;
    }
    var rest := r.ReadExactly(n.value + 2);
    if rest == None { return GaveUp, part; }
    ForwardedMore(old(r.rest), old(w.sent), part, old(r.rest)[|part|..], rest.value);
    w.Write(rest.value);
    return Copied, part + rest.value;
  }

  method CopyTrailers(r: Reader, w: Writer) returns (ok: bool, ghost part: Bytes)
    modifies r, w
    ensures part <= old(r.rest) && w.sent == old(w.sent) + part
    ensures ok <==> ScanTrailers(old(r.rest), r.limit).Some?
    ensures ok ==> |part| == ScanTrailers(old(r.rest), r.limit).value && r.rest == old(r.rest)[|part|..]
  {
    part := "";
    assert part + r.rest == r.rest;
    while true
      invariant TrailersFrom(old(r.rest), part, r.rest, r.limit) && w.sent == old(w.sent) + part
      decreases |r.rest|
    {
      ghost var here := r.rest;
      var line, _ := r.ReadLine();
      if line == None {
        return false, part;
      }
      LineIsLine(here, r.limit);
      TrailersOn(old(r.rest), part, line.value, r.rest, r.limit);
      Assoc(old(w.sent), part, line.value);
      w.Write(line.value);
      part := part + line.value;
      if line.value == CRLF {
        DropPast(part, r.rest);
        return true, part;
      }
    }
  }

  // ----- the reader -----

  /** What reading a body under a limit comes to: bytes used and data, too much data, or a fault. */
  datatype Reading = Got(used: nat, data: Bytes) | Over | Bad(fault: Fault)

  function TrailerFault(s: Bytes, limit: nat): Fault
    decreases |s|
  {
    match LineOf(s, limit)
    case None => LineFault(s, limit)
    case Some(line) => if |line| == 0 then Garbled else TrailerFault(s[|line|..], limit)
  }

  /** Why a turn fails. */
  function TurnFault(s: Bytes, limit: nat): Fault {
    match LineOf(s, limit)
    case None => LineFault(s, limit)
    case Some(line) =>
      match ChunkSize(line)
      case None => Garbled
      case Some(n) => if n > 0 then CutShort else TrailerFault(s[|line|..], limit)
  }

  /** The size announced by the line at the head of s, if there is one. */
  function Announced(s: Bytes, limit: nat): nat {
    match LineOf(s, limit)
    case None => 0
    case Some(line) => match ChunkSize(line) case None => 0 case Some(n) => n
  }

  lemma AnnouncedIsData(s: Bytes, limit: nat)
    ensures TurnOf(s, limit).More? ==> |TurnOf(s, limit).data| == Announced(s, limit)
    ensures TurnOf(s, limit).Last? ==> Announced(s, limit) == 0
  {
  }

  /** A chunked body, with room bytes left under the limit: a size too large is refused before
      the data is asked for. */
  function ChunkedReading(s: Bytes, limit: nat, room: nat): Reading
    decreases |s|
  {
    AnnouncedIsData(s, limit);
    if Announced(s, limit) > room then Over
    else match TurnOf(s, limit)
      case Failed => Bad(TurnFault(s, limit))
      case Last(u) => Got(u, "")
      case More(u, d) => BehindReading(u, d, ChunkedReading(s[u..], limit, room - |d|))
  }

  function BehindReading(pos: nat, d: Bytes, reading: Reading): Reading {
    match reading case Got(u, x) => Got(pos + u, d + x) case _ => reading
  }

  function BodyReading(f: Framing, s: Bytes, limit: nat, room: nat): Reading {
    match f
    case Length(n) => if n > room then Over else if n <= |s| then Got(n, s[..n]) else Bad(CutShort)
    case Chunked => ChunkedReading(s, limit, room)
    case _ => if |s| > room then Over else Got(|s|, s)
  }

  /** The reader gets what the copier copies, unless it is over the limit, and nothing else. */
  predicate Agree(scan: Scan, reading: Reading, room: nat) {
    match scan
    case Whole(u, d) => reading == if |d| > room then Over else Got(u, d)
    case Broken => !reading.Got?
  }

  lemma BehindAgree(u: nat, d: Bytes, scan: Scan, reading: Reading, room: nat)
    requires |d| <= room && Agree(scan, reading, room - |d|)
    ensures Agree(Behind(u, d, scan), BehindReading(u, d, reading), room)
  {
  }

  lemma OverAgrees(s: Bytes, limit: nat, room: nat)
    requires Announced(s, limit) > room
    ensures Agree(ScanChunked(s, limit), ChunkedReading(s, limit, room), room)
  {
    AnnouncedIsData(s, limit);
  }

  lemma {:induction false} ChunkedReadingIsScan(s: Bytes, limit: nat, room: nat)
    ensures Agree(ScanChunked(s, limit), ChunkedReading(s, limit, room), room)
    decreases |s|
  {
    AnnouncedIsData(s, limit);
    if Announced(s, limit) > room {
      OverAgrees(s, limit, room);
    } else if TurnOf(s, limit).More? {
      var t := TurnOf(s, limit);
      ChunkedReadingIsScan(s[t.used..], limit, room - |t.data|);
      BehindAgree(t.used, t.data, ScanChunked(s[t.used..], limit),
                  ChunkedReading(s[t.used..], limit, room - |t.data|), room);
    }
  }

  lemma ReadingIsScan(f: Framing, s: Bytes, limit: nat, room: nat)
    requires !f.NoBody?
    ensures Agree(BodyScan(f, s, limit), BodyReading(f, s, limit, room), room)
  {
    if f.Chunked? { ChunkedReadingIsScan(s, limit, room); }
  }

  datatype ReadResult = Body(data: Bytes) | TooLarge | Dropped | Malformed

  function Result(reading: Reading): ReadResult {
    match reading
    case Got(_, d) => Body(d)
    case Over => TooLarge
    case Bad(fault) => if fault == CutShort then Dropped else Malformed
  }

  /** _read_body */
  method ReadBody(r: Reader, f: Framing, limit: nat) returns (res: ReadResult)
    modifies r
    ensures var reading := BodyReading(f, old(r.rest), r.limit, limit);
      res == Result(reading) && (reading.Got? ==> reading.used <= |old(r.rest)| && r.rest == old(r.rest)[reading.used..])
  {
    match f
    case Length(n) =>
      if n > limit { return TooLarge; }
      if n == 0 { return Body(""); }
      var data := r.ReadExactly(n);
      return match data case None => Dropped case Some(d) => Body(d);
    case Chunked => res := ReadChunked(r, limit);
    case _ => res := ReadUntilClose(r, limit);
  }

  method ReadUntilClose(r: Reader, limit: nat) returns (res: ReadResult)
    modifies r
    ensures res == if |old(r.rest)| > limit then TooLarge else Body(old(r.rest))
    ensures res.Body? ==> r.rest == ""
  {
    var parts: seq<Bytes> := [];
    var total := 0;
    while true
      invariant old(r.rest) == Concat(parts) + r.rest && total == |Concat(parts)| <= limit
      decreases |r.rest|
    {
      var chunk := r.Read(CHUNK);
      if chunk == "" { return Body(Concat(parts)); }
      total := total + |chunk|;
      if total > limit { return TooLarge; }
      ConcatMore(parts, chunk);
      parts := parts + [chunk];
    }
  }

  lemma {:induction false} ConcatMore(parts: seq<Bytes>, chunk: Bytes)
    ensures Concat(parts + [chunk]) == Concat(parts) + chunk
  {
    if parts == [] {
      assert parts + [chunk] == [chunk] && [chunk][1..] == [];
    } else {
      assert (parts + [chunk])[1..] == parts[1..] + [chunk];
      ConcatMore(parts[1..], chunk);
      Assoc(parts[0], Concat(parts[1..]), chunk);
    }
  }

  /** The chunked loop of the reader. */
  method ReadChunked(r: Reader, limit: nat) returns (res: ReadResult)
    modifies r
    ensures var reading := ChunkedReading(old(r.rest), r.limit, limit);
      res == Result(reading) && (reading.Got? ==> reading.used <= |old(r.rest)| && r.rest == old(r.rest)[reading.used..])
  {
    var parts: seq<Bytes> := [];
    var total := 0;
    ghost var past: Bytes := "";
    ReadFromStart(r.rest, r.limit, limit);
    while true
      invariant total == |Concat(parts)| <= limit
      invariant ReadTo(old(r.rest), past, Concat(parts), r.rest, r.limit, limit)
      decreases |r.rest|
    {
      ghost var here := r.rest;
      ghost var turn := TurnOf(here, r.limit);
      ReadOnward(old(r.rest), past, Concat(parts), here, r.limit, limit);
      var step := ReadChunk(r, limit - total);
      if step == Overflowed { return TooLarge; }
      if step.Faulty? { return if step.fault == CutShort then Dropped else Malformed; }
      if step == Ended { return Body(Concat(parts)); }
      past := past + here[..turn.used];
      total := total + |step.data|;
      ConcatMore(parts, step.data);
      parts := parts + [step.data];
    }
  }

  /** The reading of all, seen from behind its part past, which carried data. */
  ghost predicate ReadTo(all: Bytes, past: Bytes, data: Bytes, here: Bytes, limit: nat, room: nat) {
    && all == past + here && |data| <= room
    && ChunkedReading(all, limit, room) == BehindReading(|past|, data, ChunkedReading(here, limit, room - |data|))
  }

  lemma ReadFromStart(all: Bytes, limit: nat, room: nat)
    ensures ReadTo(all, "", Concat([]), all, limit, room)
  {
    assert "" + all == all;
    match ChunkedReading(all, limit, room)
    case Got(_, d) => assert "" + d == d;
    case _ =>
  }

  lemma BehindReadingTwice(p: nat, d: Bytes, q: nat, e: Bytes, reading: Reading)
    ensures BehindReading(p, d, BehindReading(q, e, reading)) == BehindReading(p + q, d + e, reading)
  {
    if reading.Got? { Assoc(d, e, reading.data); }
  }

  lemma OneChunkReads(here: Bytes, limit: nat, room: nat)
    requires TurnOf(here, limit).More? && Announced(here, limit) <= room
    ensures var t := TurnOf(here, limit);
      && |t.data| == Announced(here, limit)
      && ChunkedReading(here, limit, room)
         == BehindReading(t.used, t.data, ChunkedReading(here[t.used..], limit, room - |t.data|))
  {
    AnnouncedIsData(here, limit);
  }

  lemma ReadOneMore(all: Bytes, past: Bytes, data: Bytes, here: Bytes, limit: nat, room: nat)
    requires ReadTo(all, past, data, here, limit, room)
    requires TurnOf(here, limit).More? && Announced(here, limit) <= room - |data|
    ensures var t := TurnOf(here, limit);
      ReadTo(all, past + here[..t.used], data + t.data, here[t.used..], limit, room)
  {
    var t := TurnOf(here, limit);
    var left := room - |data|;
    OneChunkReads(here, limit, left);
    var more := ChunkedReading(here[t.used..], limit, left - |t.data|);
    BehindReadingTwice(|past|, data, t.used, t.data, more);
    CutAfter(past, here, t.used);
    assert left - |t.data| == room - |data + t.data|;
    assert |past + here[..t.used]| == |past| + t.used;
  }

  /** What one more turn makes of it. */
  lemma ReadOnward(all: Bytes, past: Bytes, data: Bytes, here: Bytes, limit: nat, room: nat)
    requires ReadTo(all, past, data, here, limit, room)
    ensures Announced(here, limit) > room - |data| ==> ChunkedReading(all, limit, room) == Over
    ensures Announced(here, limit) <= room - |data| && TurnOf(here, limit).Failed? ==>
      ChunkedReading(all, limit, room) == Bad(TurnFault(here, limit))
    ensures Announced(here, limit) <= room - |data| && TurnOf(here, limit).Last? ==>
      var u := TurnOf(here, limit).used;
      ChunkedReading(all, limit, room) == Got(|past| + u, data) && here[u..] == all[|past| + u..]
    ensures Announced(here, limit) <= room - |data| && TurnOf(here, limit).More? ==>
      var t := TurnOf(here, limit);
      ReadTo(all, past + here[..t.used], data + t.data, here[t.used..], limit, room)
  {
    if Announced(here, limit) <= room - |data| {
      if TurnOf(here, limit).More? {
        ReadOneMore(all, past, data, here, limit, room);
      } else if TurnOf(here, limit).Last? {
        assert data + "" == data;
        CutAfter(past, here, TurnOf(here, limit).used);
      }
    }
  }

  lemma CutAfter(past: Bytes, here: Bytes, u: nat)
    requires u <= |here|
    ensures here[u..] == (past + here)[|past| + u..]
    ensures past + here == past + here[..u] + here[u..]
  {
  }

  datatype ReadStep = Took(data: Bytes) | Ended | Overflowed | Faulty(fault: Fault)

  /** One turn of the reading loop, with room bytes left under the limit. */
  method ReadChunk(r: Reader, room: nat) returns (step: ReadStep)
    modifies r
    ensures Announced(old(r.rest), r.limit) > room ==> step == Overflowed
    ensures Announced(old(r.rest), r.limit) <= room ==>
      match TurnOf(old(r.rest), r.limit)
      case Failed => step == Faulty(TurnFault(old(r.rest), r.limit))
      case Last(u) => step == Ended && r.rest == old(r.rest)[u..]
      case More(u, d) => step == Took(d) && r.rest == old(r.rest)[u..]
  {
    ghost var here := r.rest;
    var line, fault := r.ReadLine();
    if line == None { return Faulty(fault); }
    assert r.rest == here[|line.value|..];
    var n := ChunkSize(line.value);
    if n == None { return Faulty(Garbled); }
    if n.value == 0 {
      var ended;
      ended, fault := SkipTrailers(r);
      return if ended then Ended else Faulty(fault);
    }
    if n.value > room { return Overflowed; }
    var piece := r.ReadExactly(n.value);
    if piece == None { return Faulty(CutShort); }
    var crlf := r.ReadExactly(2);
    if crlf == None { return Faulty(CutShort); }
    ReadOn(here, |line.value|, n.value);
    return Took(piece.value);
  }

  lemma ReadOn(s: Bytes, i: nat, n: nat)
    requires i + n + 2 <= |s|
    ensures s[i..][..n] == s[i..i + n] && s[i..][n..][2..] == s[i + n + 2..]
  {
  }

  method SkipTrailers(r: Reader) returns (ended: bool, fault: Fault)
    modifies r
    ensures ended <==> ScanTrailers(old(r.rest), r.limit).Some?
    ensures ended ==> r.rest == old(r.rest)[ScanTrailers(old(r.rest), r.limit).value..]
    ensures !ended ==> fault == TrailerFault(old(r.rest), r.limit)
  {
    ghost var past: Bytes := "";
    assert past + r.rest == r.rest;
    while true
      invariant TrailersFrom(old(r.rest), past, r.rest, r.limit)
      invariant TrailerFault(old(r.rest), r.limit) == TrailerFault(r.rest, r.limit)
      decreases |r.rest|
    {
      ghost var here := r.rest;
      var line;
      line, fault := r.ReadLine();
      if line == None { return false, fault; }
      LineIsLine(here, r.limit);
      assert here[|line.value|..] == r.rest;
      TrailersOn(old(r.rest), past, line.value, r.rest, r.limit);
      past := past + line.value;
      if line.value == CRLF {
        DropPast(past, r.rest);
        return true, fault;
      }
    }
  }

  // ----- an encoder, undone by the reader -----

  function HexDigit(d: nat): char
    requires d < 16
  {
    if d < 10 then '0' + d as char else 'a' + (d - 10) as char
  }

  function Hex(n: nat): (s: string)
    ensures s != ""
  {
    if n < 16 then [HexDigit(n)] else Hex(n / 16) + [HexDigit(n % 16)]
  }

  predicate IsHexString(s: string) {
    s != "" && forall i :: 0 <= i < |s| ==> HexValue(s[i]).Some?
  }

  lemma {:induction false} HexRoundTrip(n: nat)
    ensures IsHexString(Hex(n)) && ParseHex(Hex(n)) == Some(n)
  {
    if n >= 16 {
      HexRoundTrip(n / 16);
      assert Hex(n)[..|Hex(n)| - 1] == Hex(n / 16);
    }
  }

  /** A size line as an encoder writes it is read back as that size. */
  lemma HexIsPlain(s: string)
    requires IsHexString(s)
    ensures Lacks(s, ';') && Lacks(s, '\r') && Stripped(s, BYTE_SPACES)
  {
    assert HexValue(s[0]).Some? && HexValue(s[|s| - 1]).Some?;
  }

  lemma PlainSize(h: string)
    requires Lacks(h, ';') && Stripped(h, BYTE_SPACES)
    ensures ChunkSize(h + CRLF) == ParseHex(h)
  {
    assert (h + CRLF)[..|h + CRLF| - 2] == h;
    LacksCuts(h, ';');
    FindNone(h, ";");
    StripStripped(h, BYTE_SPACES);
  }

  lemma BreakBehind(h: string)
    requires Lacks(h, '\r')
    ensures Find(h + CRLF, CRLF) == Some(|h|)
  {
    assert (h + CRLF)[|h|..|h| + 2] == CRLF;
    forall j | 0 <= j < |h| ensures !OccursAt(h + CRLF, CRLF, j) {
      assert (h + CRLF)[j..j + 2][0] == h[j];
    }
    FindIs(h + CRLF, CRLF, |h|);
  }

  lemma SizeLine(n: nat)
    ensures ChunkSize(Hex(n) + CRLF) == Some(n)
    ensures Find(Hex(n) + CRLF, CRLF) == Some(|Hex(n)|)
  {
    HexRoundTrip(n);
    HexIsPlain(Hex(n));
    PlainSize(Hex(n));
    BreakBehind(Hex(n));
  }

  /** The chunked coding of a list of non-empty pieces (section 7.1 of RFC 9112). */
  function Encode(pieces: seq<Bytes>): Bytes {
    if pieces == [] then Hex(0) + CRLF + CRLF
    else Hex(|pieces[0]|) + CRLF + pieces[0] + CRLF + Encode(pieces[1..])
  }

  lemma LastTurn(more: Bytes, limit: nat)
    requires limit >= 1
    ensures TurnOf(Hex(0) + CRLF + CRLF + more, limit) == Last(|Hex(0) + CRLF + CRLF|)
  {
    var line := Hex(0) + CRLF;
    SizeLine(0);
    assert line + CRLF + more == line + (CRLF + more);
    LineAhead(line, CRLF + more, limit);
    assert CRLF[0..2] == CRLF;
    FindIs(CRLF, CRLF, 0);
    LineAhead(CRLF, more, limit);
  }

  /** Decoding what was encoded gives the pieces back, whatever follows on the stream. */
  lemma {:induction false} DecodeUndoesEncode(pieces: seq<Bytes>, more: Bytes, limit: nat)
    requires limit >= 1
    requires forall i :: 0 <= i < |pieces| ==> pieces[i] != "" && |Hex(|pieces[i]|)| <= limit
    ensures ScanChunked(Encode(pieces) + more, limit) == Whole(|Encode(pieces)|, Concat(pieces))
  {
    if pieces == [] {
      LastTurn(more, limit);
    } else {
      var d := pieces[0];
      var c := Chunk(Hex(|d|) + CRLF, d, CRLF);
      SizeLine(|d|);
      DecodeUndoesEncode(pieces[1..], more, limit);
      ChunkAhead(c, Encode(pieces[1..]), Concat(pieces[1..]), more, limit);
    }
  }
}
