/** Which documents get the inspector script, and where it is put
    (daemon/preview_proxy.py: should_inject, build_inspector_tag, inject_inspector). The marks
    looked for are those of the three patterns, read letter by letter without regard to case. */
module Inspector {
  import opened Basics
  import opened Text
  import opened HttpHead
  import opened HttpWire
  import opened HttpFraming

  const SCRIPT_PATH := "/mm-inspector.js"
  const MAX_HTML: nat := 0x100_0000

  predicate Contains(s: string, t: string) {
    exists i :: 0 <= i <= |s| && OccursAt(s, t, i)
  }

  /** _header: the first value under a name. */
  function First(hs: Headers, name: string): Option<string> {
    var values := Valued(hs, name);
    if values == [] then None else Some(values[0])
  }

  function Or(v: Option<string>, default: string): string {
    if v.Some? && v.value != "" then v.value else default
  }

  predicate IsHtml(got: Headers) {
    var kind := Or(First(got, "content-type"), "");
    && Lower(Strip(Split(kind, ";")[0], SPACES)) in {"text/html", "application/xhtml+xml"}
    && !Contains(Lower(kind), "charset=utf-16") && !Contains(Lower(kind), "charset=utf-32")
  }

  predicate IsDocumentRequest(asked: Headers) {
    match First(asked, "sec-fetch-dest")
    case Some(dest) => Lower(Strip(dest, SPACES)) in {"document", "iframe", "frame"}
    case None =>
      match First(asked, "accept")
      case None => true
      case Some(accept) => Contains(Lower(accept), "text/html") || Contains(accept, "*/*")
  }

  predicate ShouldInject(asked: Headers, got: Headers, side: Side, f: Framing) {
    && side.Response? && !Bodyless(side) && !f.NoBody?
    && IsHtml(got)
    && Lower(Strip(Or(First(got, "content-encoding"), "identity"), SPACES)) in {"", "identity"}
    && !(f.Length? && f.n > MAX_HTML)
    && IsDocumentRequest(asked)
  }

  // ----- the tag -----

  function EscapeChar(c: char): string {
    match c
    case '&' => "&amp;"
    case '<' => "&lt;"
    case '>' => "&gt;"
    case '"' => "&quot;"
    case '\'' => "&#x27;"
    case _ => [c]
  }

  function Escape(s: string): string {
    if s == "" then "" else EscapeChar(s[0]) + Escape(s[1..])
  }

  function Tag(origin: string, nonce: Option<string>): string {
    var o := Escape(RStrip(origin, {'/'}));
    "<script src=\"" + o + SCRIPT_PATH
    + ("\" data-mm-origin=\"" + o + "\" defer"
       + (if nonce.Some? then " nonce=\"" + Escape(nonce.value) + "\"" else "") + "></script>")
  }

  // ----- the place -----

  /** Where the tag may go, in order of preference. */
  datatype Mark = HeadClose | BodyOpen | BodyClose

  predicate StartsWithName(s: string, name: string) {
    |name| <= |s| && Lower(s[..|name|]) == name
  }

  predicate ClosesTag(s: string) {
    var r := LStrip(s, BYTE_SPACES);
    r != "" && r[0] == '>'
  }

  predicate MarkAt(doc: Bytes, i: nat, mark: Mark)
    requires i <= |doc|
  {
    match mark
    case HeadClose => StartsWithName(doc[i..], "</head") && ClosesTag(doc[i..][6..])
    case BodyOpen => StartsWithName(doc[i..], "<body") && |doc| > i + 5 && (doc[i + 5] in BYTE_SPACES || doc[i + 5] == '>')
    case BodyClose => StartsWithName(doc[i..], "</body") && ClosesTag(doc[i..][6..])
  }

  function Search(doc: Bytes, mark: Mark, i: nat): (r: Option<nat>)
    requires i <= |doc|
    ensures r.Some? ==> i <= r.value <= |doc| && MarkAt(doc, r.value, mark)
    ensures forall j :: i <= j <= |doc| && (r.None? || j < r.value) ==> !MarkAt(doc, j, mark)
    decreases |doc| - i
  {
    if MarkAt(doc, i, mark) then Some(i) else if i == |doc| then None else Search(doc, mark, i + 1)
  }

  function Place(doc: Bytes): (at: nat)
    ensures at <= |doc|
  {
    match Search(doc, HeadClose, 0)
    case Some(i) => i
    case None =>
      match Search(doc, BodyOpen, 0)
      case Some(i) => i
      case None => match Search(doc, BodyClose, 0) case Some(i) => i case None => |doc|
  }

  /** inject_inspector */
  function Inject(doc: Bytes, tag: Bytes): Bytes {
    if Contains(doc, SCRIPT_PATH) then doc else doc[..Place(doc)] + tag + doc[Place(doc)..]
  }

  lemma TagLoadsScript(origin: string, nonce: Option<string>)
    ensures Contains(Tag(origin, nonce), SCRIPT_PATH)
  {
    var o := Escape(RStrip(origin, {'/'}));
    var a := "<script src=\"" + o;
    var t := Tag(origin, nonce);
    assert OccursAt(t, SCRIPT_PATH, |a|) by { assert t[|a|..|a| + |SCRIPT_PATH|] == SCRIPT_PATH; }
  }

  lemma Around(a: string, s: string, b: string, t: string, i: nat)
    requires OccursAt(s, t, i)
    ensures Contains(a + s + b, t)
  {
    var all := a + s + b;
    assert all[|a| + i..|a| + i + |t|] == s[i..i + |t|];
    assert OccursAt(all, t, |a| + i);
  }

  /** The document is only added to, in one place, and never twice. */
  lemma InjectOnce(doc: Bytes, tag: Bytes, again: Bytes)
    requires Contains(tag, SCRIPT_PATH)
    ensures Inject(Inject(doc, tag), again) == Inject(doc, tag)
    ensures Contains(Inject(doc, tag), SCRIPT_PATH)
  {
    if !Contains(doc, SCRIPT_PATH) {
      var i :| 0 <= i <= |tag| && OccursAt(tag, SCRIPT_PATH, i);
      Around(doc[..Place(doc)], tag, doc[Place(doc)..], SCRIPT_PATH, i);
    }
  }

  predicate Marked(doc: Bytes, mark: Mark) {
    exists j :: 0 <= j <= |doc| && MarkAt(doc, j, mark)
  }

  /** The first place of this mark. */
  predicate FirstAt(doc: Bytes, at: nat, mark: Mark)
    requires at <= |doc|
  {
    MarkAt(doc, at, mark) && forall j :: 0 <= j < at ==> !MarkAt(doc, j, mark)
  }

  /** Cutting the tag out again gives back the document; the tag stands before the first end of
      the head, else before the first body tag, else before its end, else at the very end. */
  lemma InjectCutOut(doc: Bytes, tag: Bytes)
    requires !Contains(doc, SCRIPT_PATH)
    ensures var at, e := Place(doc), Inject(doc, tag);
      && |e| == |doc| + |tag| && e[at..at + |tag|] == tag && e[..at] + e[at + |tag|..] == doc
    ensures if Marked(doc, HeadClose) then FirstAt(doc, Place(doc), HeadClose)
            else if Marked(doc, BodyOpen) then FirstAt(doc, Place(doc), BodyOpen)
            else if Marked(doc, BodyClose) then FirstAt(doc, Place(doc), BodyClose)
            else Place(doc) == |doc|
  {
    CutOut(doc[..Place(doc)], tag, doc[Place(doc)..]);
    assert doc[..Place(doc)] + doc[Place(doc)..] == doc;
  }

  lemma CutOut(a: string, t: string, b: string)
    ensures var e := a + t + b;
      |e| == |a| + |t| + |b| && e[|a|..|a| + |t|] == t && e[..|a|] == a && e[|a| + |t|..] == b
  {
  }
}
