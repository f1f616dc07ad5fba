/** The Markdown form of an artifact: the exporter's writer and the importer's parser
    (backend/agents/exporter.py, _write_md; backend/agents/importer.py, parse_markdown_text),
    and the normal form of artifacts that come back from a file as they went in. The parser
    works block by block, and a block counts only up to the white space around it. */
module Markdown {
  import opened Basics
  import opened Text

  datatype Section = Section(heading: string, content: string, refs: seq<string>)

  datatype Artifact = Artifact(title: string, sections: seq<Section>)

  const GAP := "\n\n"
  const SOURCES := "*Sources: "
  const NEWLINES: set<char> := {'\n'}

  // ----- the writer -----

  function RefsLine(refs: seq<string>): string {
    SOURCES + Join(refs, ", ") + "*"
  }

  /** What a section puts into the document; each chunk is followed by an empty line. */
  function Chunks(s: Section): seq<string> {
    (if s.heading != "" then ["## " + s.heading] else [])
    + ((if s.content != "" then [s.content] else [])
       + (if s.refs != [] then [RefsLine(s.refs)] else []))
  }

  function AllChunks(ss: seq<Section>): seq<string> {
    if ss == [] then [] else Chunks(ss[0]) + AllChunks(ss[1..])
  }

  function Spaced(chunks: seq<string>): seq<string> {
    if chunks == [] then [] else [chunks[0], ""] + Spaced(chunks[1..])
  }

  function Written(a: Artifact): string {
    RStrip(Join(Spaced(["# " + a.title] + AllChunks(a.sections)), "\n"), SPACES) + "\n"
  }

  lemma {:induction false} SpacedAppend(a: seq<string>, b: seq<string>)
    ensures Spaced(a + b) == Spaced(a) + Spaced(b)
  {
    if a == [] {
      assert a + b == b;
    } else {
      assert (a + b)[1..] == a[1..] + b;
      SpacedAppend(a[1..], b);
    }
  }

  lemma SpacedOne(c: string)
    ensures Spaced([c]) == [c, ""]
  {
    assert [c][1..] == [];
  }

  lemma {:induction false} AllChunksAppend(a: seq<Section>, s: Section)
    ensures AllChunks(a + [s]) == AllChunks(a) + Chunks(s)
  {
    if a == [] {
      assert [] + [s] == [s] && [s][1..] == [];
    } else {
      assert (a + [s])[1..] == a[1..] + [s];
      AllChunksAppend(a[1..], s);
    }
  }

  /** _write_md */
  method WriteMd(a: Artifact) returns (text: string)
    ensures text == Written(a)
  {
    var lines := ["# " + a.title, ""];
    ghost var chunks := ["# " + a.title];
    SpacedOne("# " + a.title);
    assert a.sections[..0] == [] && chunks + [] == chunks;
    for i := 0 to |a.sections|
      invariant lines == Spaced(["# " + a.title] + AllChunks(a.sections[..i]))
    {
      var section := a.sections[i];
      ghost var before := ["# " + a.title] + AllChunks(a.sections[..i]);
      assert a.sections[..i + 1] == a.sections[..i] + [section];
      AllChunksAppend(a.sections[..i], section);
      SpacedAppend(before, Chunks(section));
      assert before + Chunks(section) == ["# " + a.title] + AllChunks(a.sections[..i + 1]);
      lines := SectionLines(lines, section);
    }
    assert a.sections[..|a.sections|] == a.sections;
    text := RStrip(Join(lines, "\n"), SPACES) + "\n";
  }

  lemma SpacedGrows(before: seq<string>, chunks: seq<string>, c: string)
    ensures before + Spaced(chunks) + [c] + [""] == before + Spaced(chunks + [c])
  {
    SpacedAppend(chunks, [c]);
    SpacedOne(c);
  }

  method SectionLines(before: seq<string>, section: Section) returns (lines: seq<string>)
    ensures lines == before + Spaced(Chunks(section))
  {
    lines := before;
    ghost var done: seq<string> := [];
    assert before + Spaced([]) == before;
    if section.heading != "" {
      SpacedGrows(before, done, "## " + section.heading);
      lines, done := lines + ["## " + section.heading] + [""], done + ["## " + section.heading];
    }
    if section.content != "" {
      SpacedGrows(before, done, section.content);
      lines, done := lines + [section.content] + [""], done + [section.content];
    }
    if section.refs != [] {
      SpacedGrows(before, done, RefsLine(section.refs));
      lines, done := lines + [RefsLine(section.refs)] + [""], done + [RefsLine(section.refs)];
    }
    assert done == Chunks(section);
  }

  // ----- the parser -----

  /** What the parser makes of one stripped, non-empty block. */
  datatype Kind = Titled(title: string, rest: string) | Headed(heading: string, rest: string)
                | Sourced(refs: seq<string>) | Plain

  function NonEmpty(parts: seq<string>): seq<string> {
    if parts == [] then [] else (if parts[0] == "" then [] else [parts[0]]) + NonEmpty(parts[1..])
  }

  function KindOf(b: string): Kind {
    var lines := Split(b, "\n");
    var first := Strip(lines[0], SPACES);
    var rest := Strip(Join(lines[1..], "\n"), NEWLINES);
    if "# " <= first then Titled(Strip(first[2..], SPACES), rest)
    else if "## " <= first then Headed(Strip(first[3..], SPACES), rest)
    else if SOURCES <= b && |b| > |SOURCES| && b[|b| - 1] == '*'
    then Sourced(NonEmpty(Split(b[|SOURCES|..|b| - 1], ", ")))
    else Plain
  }

  function AppendContent(s: Section, text: string): Section {
    var t := Strip(text, SPACES);
    if t == "" then s
    else if s.content != "" then s.(content := Strip(s.content + GAP + t, SPACES))
    else s.(content := t)
  }

  function Last(ss: seq<Section>): Section
    requires ss != []
  {
    ss[|ss| - 1]
  }

  function WithLast(ss: seq<Section>, s: Section): seq<Section>
    requires ss != []
  {
    ss[..|ss| - 1] + [s]
  }

  /** Text for the current section, which is opened without a heading if there is none. */
  function Onto(ss: seq<Section>, text: string): seq<Section> {
    if ss == [] then [AppendContent(Section("", "", []), text)] else WithLast(ss, AppendContent(Last(ss), text))
  }

  /** One turn of the loop. */
  function Feed(doc: Artifact, block: string): Artifact {
    var b := Strip(block, SPACES);
    if b == "" then doc else Turn(doc, KindOf(b), Strip(block, NEWLINES))
  }

  function Turn(doc: Artifact, kind: Kind, text: string): Artifact {
    match kind
    case Titled(title, rest) =>
      Artifact(title, if rest == "" then doc.sections else Onto(doc.sections, rest))
    case Headed(heading, rest) =>
      var blank := Section(heading, "", []);
      doc.(sections := doc.sections + [if rest == "" then blank else AppendContent(blank, rest)])
    case Sourced(refs) =>
      doc.(sections := if doc.sections == [] then Onto([], text)
                       else WithLast(doc.sections, Last(doc.sections).(refs := refs)))
    case Plain => doc.(sections := Onto(doc.sections, text))
  }

  function FeedAll(doc: Artifact, blocks: seq<string>): Artifact
    decreases |blocks|
  {
    if blocks == [] then doc else FeedAll(Feed(doc, blocks[0]), blocks[1..])
  }

  /** parse_markdown_text */
  function Parsed(text: string, default: string): Artifact {
    FeedAll(Artifact(default, []), Split(text, GAP))
  }

  // ----- the normal form -----

  /** A title or a heading: a non-empty stripped line. */
  predicate LineOk(t: string) {
    t != "" && Stripped(t, SPACES) && Lacks(t, '\n')
  }

  /** A non-empty stripped block without a blank line in it. */
  predicate BlockOk(b: string) {
    b != "" && Stripped(b, SPACES) && Free(b, GAP)
  }

  predicate RefsOk(refs: seq<string>) {
    forall k :: 0 <= k < |refs| ==> refs[k] != "" && Free(refs[k], ", ") && Free(refs[k], GAP)
  }

  function Paragraphs(content: string): seq<string> {
    if content == "" then [] else Split(content, GAP)
  }

  predicate BlocksOk(bs: seq<string>) {
    forall k :: 0 <= k < |bs| ==> BlockOk(bs[k])
  }

  /** Only the first section may lack a heading, and then it must have content. */
  predicate SectionShape(s: Section, first: bool) {
    && (if s.heading == "" then first && s.content != "" else LineOk(s.heading))
    && BlocksOk(Paragraphs(s.content)) && RefsOk(s.refs)
  }

  /** No paragraph reads as a heading, nor as a list of sources unless nothing comes before it. */
  predicate Readable(ps: seq<string>, bare: bool) {
    forall k :: 0 <= k < |ps| ==> KindOf(ps[k]).Plain? || (bare && k == 0 && KindOf(ps[k]).Sourced?)
  }

  predicate Shape(a: Artifact) {
    LineOk(a.title) && SectionsShape(a.sections, true)
  }

  predicate SectionsShape(ss: seq<Section>, first: bool) {
    forall i :: 0 <= i < |ss| ==> SectionShape(ss[i], first && i == 0)
  }

  predicate SectionNormal(s: Section, first: bool) {
    SectionShape(s, first) && Readable(Paragraphs(s.content), s.heading == "")
  }

  predicate Normal(a: Artifact) {
    LineOk(a.title) && SectionsNormal(a.sections, true)
  }

  predicate SectionsNormal(ss: seq<Section>, first: bool) {
    forall i :: 0 <= i < |ss| ==> SectionNormal(ss[i], first && i == 0)
  }

  // ----- strings -----

  lemma StripsToBlock(block: string)
    ensures Strip(Strip(block, NEWLINES), SPACES) == Strip(block, SPACES)
  {
    var k := StripShape(block, NEWLINES);
    var m := Strip(block, NEWLINES);
    var a, b := block[..k], block[k + |m|..];
    assert block == a + m + b;
    forall i | 0 <= i < |a| ensures a[i] in SPACES { assert a[i] in NEWLINES; }
    forall i | 0 <= i < |b| ensures b[i] in SPACES { assert b[i] in NEWLINES; }
    StripAround(a, m, b);
  }

  /** Blank ends do not change what strip leaves. */
  lemma StripAround(a: string, m: string, b: string)
    requires Blank(a, SPACES) && Blank(b, SPACES)
    ensures Strip(a + m + b, SPACES) == Strip(m, SPACES)
  {
    var k := StripShape(m, SPACES);
    var s := Strip(m, SPACES);
    var x, y := m[..k], m[k + |s|..];
    assert a + m + b == (a + x) + s + (y + b);
    StripPadded(a + x, s, y + b, SPACES);
  }

  /** A turn depends on the block only up to blank ends. */
  lemma FeedStripped(doc: Artifact, block: string)
    ensures Feed(doc, block) == Feed(doc, Strip(block, SPACES))
  {
    var b := Strip(block, SPACES);
    var k := StripShape(block, SPACES);
    StripStripped(b, SPACES);
    StripsToBlock(block);
    StripsToBlock(b);
  }

  lemma CharFree(s: string, c: char, sep: string)
    requires Lacks(s, c) && sep != "" && sep[0] == c
    ensures Free(s, sep)
  {
    forall j | 0 <= j <= |s| ensures !OccursAt(s, sep, j) {
      if j + |sep| <= |s| { assert s[j..j + |sep|][0] == s[j]; }
    }
  }

  lemma BlockCuts(b: string)
    requires BlockOk(b)
    ensures CutsAfter(b, GAP)
  {
    forall j | 0 <= j < |b| ensures !OccursAt(b + GAP, GAP, j) {
      if j + 2 <= |b| {
        assert !OccursAt(b, GAP, j);
        assert (b + GAP)[j..j + 2] == b[j..j + 2];
      } else {
        assert (b + GAP)[j..j + 2][0] == b[|b| - 1];
      }
    }
  }

  lemma BlockThenNewline(b: string)
    requires BlockOk(b)
    ensures Free(b + "\n", GAP) && Strip(b + "\n", SPACES) == b
  {
    var s := b + "\n";
    forall j | 0 <= j <= |s| ensures !OccursAt(s, GAP, j) {
      if j + 2 <= |b| {
        assert !OccursAt(b, GAP, j);
        assert s[j..j + 2] == b[j..j + 2];
      } else if j + 2 <= |s| {
        assert s[j..j + 2][0] == b[|b| - 1];
      }
    }
    assert s == "" + b + "\n";
    StripPadded("", b, "\n", SPACES);
  }

  lemma {:induction false} JoinAppend(parts: seq<string>, b: string, sep: string)
    requires parts != []
    ensures Join(parts + [b], sep) == Join(parts, sep) + sep + b
  {
    assert (parts + [b])[1..] == parts[1..] + [b];
    if |parts| > 1 {
      JoinAppend(parts[1..], b, sep);
      assert parts[0] + sep + (Join(parts[1..], sep) + sep + b) == parts[0] + sep + Join(parts[1..], sep) + sep + b;
    } else {
      assert parts[1..] + [b] == [b];
    }
  }

  lemma {:induction false} JoinConcat(a: seq<string>, b: seq<string>, sep: string)
    requires a != [] && b != []
    ensures Join(a + b, sep) == Join(a, sep) + sep + Join(b, sep)
  {
    assert (a + b)[1..] == a[1..] + b;
    if |a| > 1 {
      JoinConcat(a[1..], b, sep);
      assert a[0] + sep + (Join(a[1..], sep) + sep + Join(b, sep)) == a[0] + sep + Join(a[1..], sep) + sep + Join(b, sep);
    } else {
      assert a[1..] + b == b;
    }
  }

  lemma {:induction false} FeedAllAppend(doc: Artifact, a: seq<string>, b: seq<string>)
    ensures FeedAll(doc, a + b) == FeedAll(FeedAll(doc, a), b)
    decreases |a|
  {
    if a == [] {
      assert a + b == b;
    } else {
      assert (a + b)[1..] == a[1..] + b;
      FeedAllAppend(Feed(doc, a[0]), a[1..], b);
    }
  }

  lemma FeedOne(doc: Artifact, b: string)
    ensures FeedAll(doc, [b]) == Feed(doc, b)
  {
    assert Join([b][1..], "\n") == "";
  }

  // ----- what the parser makes of what the writer writes -----

  lemma OneLineOnly(b: string)
    requires Lacks(b, '\n')
    ensures Split(b, "\n") == [b]
  {
    LacksCuts(b, '\n');
    FindNone(b, "\n");
  }

  lemma MarkedLine(mark: string, t: string)
    requires LineOk(t) && (mark == "# " || mark == "## ")
    ensures BlockOk(mark + t) && Split(mark + t, "\n") == [mark + t] && Strip(mark + t, SPACES) == mark + t
  {
    var b := mark + t;
    assert b[0] == '#' && b[|b| - 1] == t[|t| - 1];
    OneLineOnly(b);
    CharFree(b, '\n', GAP);
    StripStripped(b, SPACES);
  }

  lemma TitleReads(t: string)
    requires LineOk(t)
    ensures KindOf("# " + t) == Titled(t, "") && BlockOk("# " + t)
  {
    MarkedLine("# ", t);
    var b := "# " + t;
    assert Join([b][1..], "\n") == "";
    assert b[2..] == t;
    StripStripped(t, SPACES);
  }

  lemma HeadingReads(h: string)
    requires LineOk(h)
    ensures KindOf("## " + h) == Headed(h, "") && BlockOk("## " + h)
  {
    MarkedLine("## ", h);
    var b := "## " + h;
    assert Join([b][1..], "\n") == "";
    assert b[3..] == h && b[1] == '#';
    StripStripped(h, SPACES);
  }

  lemma {:induction false} AllNonEmpty(parts: seq<string>)
    requires forall k :: 0 <= k < |parts| ==> parts[k] != ""
    ensures NonEmpty(parts) == parts
  {
    if parts != [] {
      AllNonEmpty(parts[1..]);
      assert [parts[0]] + parts[1..] == parts;
    }
  }

  lemma CommaCuts(r: string)
    requires Free(r, ", ")
    ensures CutsAfter(r, ", ")
  {
    var s := r + ", ";
    forall j | 0 <= j < |r| ensures !OccursAt(s, ", ", j) {
      if j + 2 <= |r| {
        assert !OccursAt(r, ", ", j);
        assert s[j..j + 2] == r[j..j + 2];
      } else {
        assert s[j..j + 2][1] == ',';
      }
    }
  }

  lemma RefsSplit(refs: seq<string>)
    requires RefsOk(refs) && refs != []
    ensures NonEmpty(Split(Join(refs, ", "), ", ")) == refs
  {
    forall k | 0 <= k < |refs| - 1 ensures CutsAfter(refs[k], ", ") { CommaCuts(refs[k]); }
    SplitJoin(refs, ", ");
    AllNonEmpty(refs);
  }

  lemma FreeAcross(a: string, b: string, c: char)
    requires Free(a, GAP) && Free(b, GAP) && c != '\n'
    ensures Free(a + [c] + b, GAP)
  {
    var s := a + [c] + b;
    forall j | 0 <= j <= |s| ensures !OccursAt(s, GAP, j) {
      if j + 2 <= |a| {
        assert !OccursAt(a, GAP, j);
        assert s[j..j + 2] == a[j..j + 2];
      } else if j > |a| && j + 2 <= |s| {
        assert !OccursAt(b, GAP, j - |a| - 1);
        assert s[j..j + 2] == b[j - |a| - 1..j - |a| + 1];
      } else if j + 2 <= |s| {
        assert s[j..j + 2][|a| - j] == c;
      }
    }
  }

  lemma {:induction false} JoinedRefsFree(refs: seq<string>)
    requires RefsOk(refs)
    ensures Free(Join(refs, ", "), GAP)
  {
    if |refs| > 1 {
      JoinedRefsFree(refs[1..]);
      var rest := Join(refs[1..], ", ");
      FreeAcross("", rest, ' ');
      assert "" + [' '] + rest == [' '] + rest;
      FreeAcross(refs[0], [' '] + rest, ',');
      assert refs[0] + ", " + rest == refs[0] + [','] + ([' '] + rest);
    }
  }

  lemma RefsLineBlock(refs: seq<string>)
    requires RefsOk(refs)
    ensures BlockOk(RefsLine(refs))
  {
    var inner := Join(refs, ", ");
    JoinedRefsFree(refs);
    FreeAcross(inner, "", '*');
    var tail := inner + ['*'] + "";
    SourcesLacksNewline();
    CharFree("*Sources:", '\n', GAP);
    FreeAcross("*Sources:", tail, ' ');
    assert RefsLine(refs) == "*Sources:" + [' '] + tail;
  }

  lemma SourcesLacksNewline()
    ensures Lacks("*Sources:", '\n') && SOURCES == "*Sources:" + " "
  {
  }

  lemma FirstLine(b: string)
    requires b != "" && b[0] != '\n'
    ensures Split(b, "\n")[0] != "" && Split(b, "\n")[0][0] == b[0]
  {
    FindFound(b, "\n");
    assert !OccursAt(b, "\n", 0) by { if |b| >= 1 { assert b[0..1] == [b[0]]; } }
  }

  lemma StripKeepsFirst(s: string)
    requires s != "" && s[0] !in SPACES
    ensures Strip(s, SPACES) != "" && Strip(s, SPACES)[0] == s[0]
  {
    RStripShape(s, SPACES);
    var r := RStrip(s, SPACES);
    assert s[0..] == s;
  }

  lemma RefsRead(refs: seq<string>)
    requires RefsOk(refs) && refs != []
    ensures KindOf(RefsLine(refs)) == Sourced(refs) && BlockOk(RefsLine(refs))
  {
    RefsLineBlock(refs);
    RefsSplit(refs);
    var b := RefsLine(refs);
    FirstLine(b);
    StripKeepsFirst(Split(b, "\n")[0]);
    assert b[|SOURCES|..|b| - 1] == Join(refs, ", ");
    assert b[..|SOURCES|] == SOURCES;
  }

  // ----- feeding one section -----

  lemma ContentGrows(s: Section, b: string)
    requires b != "" && Stripped(b, SPACES) && Stripped(s.content, SPACES)
    ensures AppendContent(s, b) == s.(content := if s.content == "" then b else s.content + GAP + b)
    ensures Stripped(AppendContent(s, b).content, SPACES)
  {
    StripStripped(b, SPACES);
    var c := s.content + GAP + b;
    assert c[|c| - 1] == b[|b| - 1];
    if s.content != "" { assert c[0] == s.content[0]; StripStripped(c, SPACES); }
  }

  lemma FeedPlain(doc: Artifact, b: string)
    requires BlockOk(b)
    requires KindOf(b).Plain? || (KindOf(b).Sourced? && doc.sections == [])
    ensures Feed(doc, b) == doc.(sections := Onto(doc.sections, b))
  {
    StripStripped(b, SPACES);
    StripStripped(b, NEWLINES) by { assert Stripped(b, NEWLINES); }
  }

  /** Paragraphs end up in the section that is open. */
  lemma {:induction false} FeedParagraphs(title: string, before: seq<Section>, s: Section, ps: seq<string>)
    requires BlocksOk(ps) && Readable(ps, false) && Stripped(s.content, SPACES)
    ensures FeedAll(Artifact(title, before + [s]), ps)
         == Artifact(title, before + [s.(content := Extended(s.content, ps))])
    decreases |ps|
  {
    if ps != [] {
      var doc := Artifact(title, before + [s]);
      assert KindOf(ps[0]).Plain?;
      FeedPlain(doc, ps[0]);
      ContentGrows(s, ps[0]);
      assert (before + [s])[..|before|] == before;
      RestReadable(ps);
      FeedParagraphs(title, before, AppendContent(s, ps[0]), ps[1..]);
    }
  }

  lemma RestReadable(ps: seq<string>)
    requires ps != [] && BlocksOk(ps)
    ensures BlocksOk(ps[1..])
    ensures Readable(ps, false) ==> Readable(ps[1..], false)
    ensures Readable(ps, true) ==> Readable(ps[1..], false)
  {
    forall k | 0 <= k < |ps[1..]| ensures ps[1..][k] == ps[k + 1] {}
  }

  function Extended(content: string, ps: seq<string>): string
    decreases |ps|
  {
    if ps == [] then content
    else Extended(if content == "" then ps[0] else content + GAP + ps[0], ps[1..])
  }

  lemma {:induction false} ExtendedIsJoin(content: string, ps: seq<string>)
    requires content != ""
    ensures Extended(content, ps) == Join([content] + ps, GAP)
    decreases |ps|
  {
    if ps == [] {
      assert [content] + ps == [content];
    } else {
      ExtendedIsJoin(content + GAP + ps[0], ps[1..]);
      assert ([content] + ps)[1..] == ps;
      var more := [content + GAP + ps[0]] + ps[1..];
      assert more[1..] == ps[1..];
      assert ps == [ps[0]] + ps[1..];
      if |ps| > 1 {
        assert content + GAP + (ps[0] + GAP + Join(ps[1..], GAP)) == content + GAP + ps[0] + GAP + Join(ps[1..], GAP);
      }
    }
  }

  lemma ParagraphsRejoin(content: string)
    requires BlocksOk(Paragraphs(content))
    ensures Extended("", Paragraphs(content)) == content
    ensures content != "" ==> Join(Paragraphs(content), GAP) == content
  {
    if content != "" {
      SplitParts(content, GAP);
      var ps := Paragraphs(content);
      assert BlockOk(ps[0]);
      ExtendedIsJoin(ps[0], ps[1..]);
      assert [ps[0]] + ps[1..] == ps;
    }
  }

  function Blocks(s: Section): seq<string> {
    (if s.heading != "" then ["## " + s.heading] else [])
    + (Paragraphs(s.content) + (if s.refs != [] then [RefsLine(s.refs)] else []))
  }

  /** Feeding the content of an open section without refs. */
  lemma FeedBody(title: string, before: seq<Section>, s: Section, open: Section, ps: seq<string>)
    requires RefsOk(s.refs) && Stripped(open.content, SPACES) && open.refs == [] && open.heading == s.heading
    requires BlocksOk(ps) && Readable(ps, false) && Extended(open.content, ps) == s.content
    ensures FeedAll(Artifact(title, before + [open]), ps + (if s.refs != [] then [RefsLine(s.refs)] else []))
         == Artifact(title, before + [s])
  {
    var doc := Artifact(title, before + [open]);
    var full := Artifact(title, before + [s.(refs := [])]);
    FeedParagraphs(title, before, open, ps);
    assert FeedAll(doc, ps) == full;
    if s.refs == [] {
      assert ps + [] == ps;
    } else {
      var line := RefsLine(s.refs);
      RefsRead(s.refs);
      StripStripped(line, SPACES);
      FeedAllAppend(doc, ps, [line]);
      FeedOne(full, line);
      assert (before + [s.(refs := [])])[..|before|] == before;
    }
  }

  /** A section in normal form comes back as it was, behind whatever came before it. */
  lemma FeedSection(title: string, before: seq<Section>, s: Section)
    requires SectionNormal(s, before == [])
    ensures FeedAll(Artifact(title, before), Blocks(s)) == Artifact(title, before + [s])
  {
    var ps := Paragraphs(s.content);
    var refs := if s.refs != [] then [RefsLine(s.refs)] else [];
    ParagraphsRejoin(s.content);
    if s.heading != "" {
      var line := "## " + s.heading;
      HeadingReads(s.heading);
      StripStripped(line, SPACES);
      var open := Section(s.heading, "", []);
      FeedAllAppend(Artifact(title, before), [line], ps + refs);
      FeedOne(Artifact(title, before), line);
      FeedBody(title, before, s, open, ps);
    } else {
      FeedBareSection(title, s);
      assert [] + (ps + refs) == ps + refs && before + [s] == [s];
    }
  }

  lemma FeedBareSection(title: string, s: Section)
    requires SectionShape(s, true) && Readable(Paragraphs(s.content), true) && s.heading == ""
    ensures FeedAll(Artifact(title, []), Paragraphs(s.content) + if s.refs != [] then [RefsLine(s.refs)] else [])
         == Artifact(title, [s])
  {
    var ps := Paragraphs(s.content);
    var refs := if s.refs != [] then [RefsLine(s.refs)] else [];
    ParagraphsRejoin(s.content);
    var doc := Artifact(title, []);
    assert BlockOk(ps[0]) && ps == [ps[0]] + ps[1..];
    FeedPlain(doc, ps[0]);
    var open := Section("", ps[0], []);
    ContentGrows(Section("", "", []), ps[0]);
    assert Feed(doc, ps[0]) == Artifact(title, [] + [open]);
    RestReadable(ps);
    assert ps + refs == [ps[0]] + (ps[1..] + refs);
    FeedAllAppend(doc, [ps[0]], ps[1..] + refs);
    FeedOne(doc, ps[0]);
    FeedBody(title, [], s, open, ps[1..]);
    assert [] + [s] == [s];
  }

  function AllBlocks(ss: seq<Section>): seq<string> {
    if ss == [] then [] else Blocks(ss[0]) + AllBlocks(ss[1..])
  }

  lemma RestNormal(ss: seq<Section>, first: bool)
    requires ss != [] && SectionsNormal(ss, first)
    ensures SectionsNormal(ss[1..], false) && SectionNormal(ss[0], first)
  {
    forall i | 0 <= i < |ss[1..]| ensures SectionNormal(ss[1..][i], false) { assert SectionNormal(ss[i + 1], false); }
  }

  lemma FeedSectionFirst(title: string, before: seq<Section>, s: Section, more: seq<string>)
    requires SectionNormal(s, before == [])
    ensures FeedAll(Artifact(title, before), Blocks(s) + more) == FeedAll(Artifact(title, before + [s]), more)
  {
    FeedSection(title, before, s);
    FeedAllAppend(Artifact(title, before), Blocks(s), more);
  }

  lemma {:induction false} FeedSections(title: string, before: seq<Section>, ss: seq<Section>)
    requires SectionsNormal(ss, before == [])
    ensures FeedAll(Artifact(title, before), AllBlocks(ss)) == Artifact(title, before + ss)
    decreases |ss|
  {
    if ss == [] {
      assert before + ss == before;
    } else {
      RestNormal(ss, before == []);
      FeedSectionFirst(title, before, ss[0], AllBlocks(ss[1..]));
      FeedSections(title, before + [ss[0]], ss[1..]);
      MoveFirst(before, ss);
    }
  }

  // ----- the written text, block by block -----

  lemma BlocksAreOk(s: Section, first: bool)
    requires SectionShape(s, first)
    ensures BlocksOk(Blocks(s)) && Blocks(s) != []
    ensures Chunks(s) != [] && Join(Chunks(s), GAP) == Join(Blocks(s), GAP)
  {
    var ps := Paragraphs(s.content);
    var refs := if s.refs != [] then [RefsLine(s.refs)] else [];
    var line := if s.heading != "" then ["## " + s.heading] else [];
    var tail := (if s.content != "" then [s.content] else []) + refs;
    if s.heading != "" { HeadingReads(s.heading); }
    RefsLineBlock(s.refs);
    ParagraphsRejoin(s.content);
    if s.content != "" { SameTail(s.content, ps, refs); } else { assert tail == ps + refs; }
    if line == [] {
      assert Chunks(s) == tail && Blocks(s) == ps + refs;
    } else if tail != [] {
      JoinConcat(line, tail, GAP);
      JoinConcat(line, ps + refs, GAP);
    }
  }

  lemma SameTail(content: string, ps: seq<string>, refs: seq<string>)
    requires ps != [] && Join(ps, GAP) == content
    ensures Join([content] + refs, GAP) == Join(ps + refs, GAP)
  {
    if refs == [] {
      assert [content] + refs == [content] && ps + refs == ps;
    } else {
      JoinConcat([content], refs, GAP);
      JoinConcat(ps, refs, GAP);
    }
  }

  lemma RestShape(ss: seq<Section>, first: bool)
    requires ss != [] && SectionsShape(ss, first)
    ensures SectionsShape(ss[1..], false) && SectionShape(ss[0], first)
  {
    forall i | 0 <= i < |ss[1..]| ensures SectionShape(ss[1..][i], false) { assert SectionShape(ss[i + 1], false); }
  }

  lemma {:induction false} AllBlocksAreOk(ss: seq<Section>, first: bool)
    requires SectionsShape(ss, first)
    ensures BlocksOk(AllBlocks(ss)) && (ss == [] || (AllBlocks(ss) != [] && AllChunks(ss) != []))
    ensures Join(AllChunks(ss), GAP) == Join(AllBlocks(ss), GAP)
    decreases |ss|
  {
    if ss != [] {
      var rest := ss[1..];
      RestShape(ss, first);
      BlocksAreOk(ss[0], first);
      AllBlocksAreOk(rest, false);
      BlocksOkConcat(Blocks(ss[0]), AllBlocks(rest));
      if rest == [] {
        assert Chunks(ss[0]) + [] == Chunks(ss[0]) && Blocks(ss[0]) + [] == Blocks(ss[0]);
      } else {
        JoinConcat(Chunks(ss[0]), AllChunks(rest), GAP);
        JoinConcat(Blocks(ss[0]), AllBlocks(rest), GAP);
      }
    }
  }

  lemma BlocksOkConcat(a: seq<string>, b: seq<string>)
    requires BlocksOk(a) && BlocksOk(b)
    ensures BlocksOk(a + b)
  {
  }

  lemma SpacedFirst(c: string, more: seq<string>, text: string)
    requires more != [] && Join(more, "\n") == text + "\n"
    ensures Join([c, ""] + more, "\n") == c + GAP + text + "\n"
  {
    assert ([c, ""] + more)[1..] == [""] + more;
    Rest("", more);
    assert Join([""] + more, "\n") == "" + "\n" + (text + "\n");
    assert c + "\n" + ("" + "\n" + (text + "\n")) == c + GAP + text + "\n";
  }

  lemma {:induction false} SpacedJoin(chunks: seq<string>)
    requires chunks != []
    ensures Join(Spaced(chunks), "\n") == Join(chunks, GAP) + "\n"
    decreases |chunks|
  {
    var c, rest := chunks[0], chunks[1..];
    if |chunks| == 1 {
      SpacedOne(c);
      assert chunks == [c];
      assert [c, ""][1..] == [""] && c + "\n" + "" == c + "\n";
    } else {
      SpacedJoin(rest);
      assert Spaced(rest) != [];
      SpacedFirst(c, Spaced(rest), Join(rest, GAP));
    }
  }

  lemma {:induction false} JoinEndsWell(bs: seq<string>)
    requires bs != [] && BlocksOk(bs)
    ensures Join(bs, GAP) != "" && Join(bs, GAP)[|Join(bs, GAP)| - 1] !in SPACES
  {
    assert BlockOk(bs[0]);
    if |bs| > 1 {
      JoinEndsWell(bs[1..]);
      var rest := Join(bs[1..], GAP);
      var s := bs[0] + GAP + rest;
      assert s[|s| - 1] == rest[|rest| - 1];
    }
  }

  function DocBlocks(a: Artifact): seq<string> {
    ["# " + a.title] + AllBlocks(a.sections)
  }

  lemma DocBlocksAreOk(a: Artifact)
    requires Shape(a)
    ensures BlocksOk(DocBlocks(a))
    ensures Join(["# " + a.title] + AllChunks(a.sections), GAP) == Join(DocBlocks(a), GAP)
  {
    var head := ["# " + a.title];
    TitleReads(a.title);
    AllBlocksAreOk(a.sections, true);
    BlocksOkConcat(head, AllBlocks(a.sections));
    if a.sections != [] {
      JoinConcat(head, AllChunks(a.sections), GAP);
      JoinConcat(head, AllBlocks(a.sections), GAP);
    }
  }

  lemma WrittenIsBlocks(a: Artifact)
    requires Shape(a)
    ensures Written(a) == Join(DocBlocks(a), GAP) + "\n"
  {
    var text := Join(DocBlocks(a), GAP);
    DocBlocksAreOk(a);
    SpacedJoin(["# " + a.title] + AllChunks(a.sections));
    RStripBlank(text, "\n", SPACES);
    JoinEndsWell(DocBlocks(a));
  }

  lemma {:induction false} SplitWritten(bs: seq<string>)
    requires bs != [] && BlocksOk(bs)
    ensures Split(Join(bs, GAP) + "\n", GAP) == bs[..|bs| - 1] + [bs[|bs| - 1] + "\n"]
    decreases |bs|
  {
    assert BlockOk(bs[0]);
    if |bs| == 1 {
      BlockThenNewline(bs[0]);
      FindNone(bs[0] + "\n", GAP);
      assert bs[..0] + [bs[0] + "\n"] == [bs[0] + "\n"];
    } else {
      var more := bs[1..];
      assert BlocksOk(more);
      SplitWritten(more);
      BlockCuts(bs[0]);
      var rest := Join(more, GAP);
      SplitAfter(bs[0], GAP, rest + "\n");
      assert bs[0] + GAP + rest + "\n" == bs[0] + GAP + (rest + "\n");
      assert [bs[0]] + more[..|more| - 1] == bs[..|bs| - 1];
    }
  }

  /** A line break behind the last block makes no difference. */
  lemma LastLineBreak(doc: Artifact, init: seq<string>, last: string)
    requires BlockOk(last)
    ensures FeedAll(doc, init + [last + "\n"]) == FeedAll(doc, init + [last])
  {
    var mid := FeedAll(doc, init);
    BlockThenNewline(last);
    StripStripped(last, SPACES);
    FeedAllAppend(doc, init, [last]);
    FeedAllAppend(doc, init, [last + "\n"]);
    FeedOne(mid, last);
    FeedOne(mid, last + "\n");
    FeedStripped(mid, last + "\n");
  }

  /** Parsing what was written feeds the blocks that were written. */
  lemma ParsedIsFed(a: Artifact, default: string)
    requires Shape(a)
    ensures Parsed(Written(a), default) == FeedAll(Artifact(default, []), DocBlocks(a))
  {
    var bs := DocBlocks(a);
    WrittenIsBlocks(a);
    DocBlocksAreOk(a);
    SplitWritten(bs);
    var init, last := bs[..|bs| - 1], bs[|bs| - 1];
    InitLast(bs);
    assert BlockOk(bs[|bs| - 1]);
    LastLineBreak(Artifact(default, []), init, last);
  }

  lemma FeedTitle(a: Artifact, default: string)
    requires LineOk(a.title)
    ensures FeedAll(Artifact(default, []), DocBlocks(a)) == FeedAll(Artifact(a.title, []), AllBlocks(a.sections))
  {
    var line := "# " + a.title;
    TitleReads(a.title);
    StripStripped(line, SPACES);
    FeedAllAppend(Artifact(default, []), [line], AllBlocks(a.sections));
    FeedOne(Artifact(default, []), line);
  }

  lemma NormalHasShape(a: Artifact)
    requires Normal(a)
    ensures Shape(a)
  {
    forall i | 0 <= i < |a.sections| ensures SectionShape(a.sections[i], i == 0) {
      assert SectionNormal(a.sections[i], i == 0);
    }
  }

  /** The importer undoes the exporter on every artifact in normal form. */
  lemma RoundTrip(a: Artifact, default: string)
    requires Normal(a)
    ensures Parsed(Written(a), default) == a
  {
    NormalHasShape(a);
    ParsedIsFed(a, default);
    FeedTitle(a, default);
    FeedSections(a.title, [], a.sections);
    assert [] + a.sections == a.sections;
  }
}
