/** The round trip through Markdown holds for the artifacts in normal form and for no others. */
module MarkdownExact {
  import opened Basics
  import opened Text
  import opened Markdown

  // ----- everything the parser returns has the shape of the normal form -----

  lemma SliceFree(b: string, from: nat, to: nat, sep: string)
    requires from <= to <= |b| && Free(b, sep) && sep != ""
    ensures Free(b[from..to], sep)
  {
    var x := b[from..to];
    forall j | 0 <= j <= |x| ensures !OccursAt(x, sep, j) { SliceOccurs(b, from, to, sep, j); }
  }

  lemma SliceOccurs(b: string, from: nat, to: nat, sep: string, j: nat)
    requires from <= to <= |b| && j <= to - from
    ensures OccursAt(b[from..to], sep, j) ==> OccursAt(b, sep, from + j)
  {
    if j + |sep| <= to - from { SliceTwice(b, from, to, j, j + |sep|); }
  }

  lemma StripFree(s: string, ws: set<char>, sep: string)
    requires Free(s, sep) && sep != ""
    ensures Free(Strip(s, ws), sep)
  {
    var k := StripShape(s, ws);
    SliceFree(s, k, k + |Strip(s, ws)|, sep);
  }

  /** What is left of a block behind its first line. */
  function Tail(b: string): string {
    var first := Split(b, "\n")[0];
    if |first| < |b| then b[|first| + 1..] else ""
  }

  lemma TailIsRest(b: string)
    ensures Tail(b) == Join(Split(b, "\n")[1..], "\n")
    ensures |Split(b, "\n")[0]| <= |b| && Split(b, "\n")[0] == b[..|Split(b, "\n")[0]|]
    ensures Lacks(Split(b, "\n")[0], '\n')
  {
    FindFound(b, "\n");
    SplitLacks(b, '\n', 0);
    match Find(b, "\n")
    case None => assert Split(b, "\n") == [b] && Join(Split(b, "\n")[1..], "\n") == "";
    case Some(i) =>
      SplitParts(b[i + 1..], "\n");
      assert Split(b, "\n") == [b[..i]] + Split(b[i + 1..], "\n");
      assert Split(b, "\n")[1..] == Split(b[i + 1..], "\n");
  }

  lemma StripLine(s: string)
    requires Lacks(s, '\n')
    ensures Stripped(Strip(s, SPACES), SPACES) && Lacks(Strip(s, SPACES), '\n')
  {
    var k := StripShape(s, SPACES);
  }

  /** Behind a marker of k characters a stripped line holds a title. */
  lemma AfterMark(s: string, mark: string)
    requires Lacks(s, '\n') && mark <= Strip(s, SPACES)
    requires mark != "" && mark[|mark| - 1] in SPACES
    ensures LineOk(Strip(Strip(s, SPACES)[|mark|..], SPACES))
  {
    var f := Strip(s, SPACES);
    StripLine(s);
    assert f[|mark| - 1] == mark[|mark| - 1];
    var t := f[|mark|..];
    assert t != "" && t[|t| - 1] == f[|f| - 1];
    StripLine(t);
    StripNotBlank(t);
  }

  lemma StripNotBlank(t: string)
    requires t != "" && t[|t| - 1] !in SPACES
    ensures Strip(t, SPACES) != ""
  {
    LStripShape(t, SPACES);
    assert t[..|t|] == t;
  }

  predicate RestOk(rest: string, b: string) {
    rest == "" || (BlockOk(Strip(rest, SPACES)) && |Strip(rest, SPACES)| < |b|)
  }

  lemma RestIsOk(b: string)
    requires BlockOk(b)
    ensures RestOk(Strip(Tail(b), NEWLINES), b)
  {
    TailIsRest(b);
    var t := Tail(b);
    if t != "" {
      SliceFree(b, |b| - |t|, |b|, GAP);
      assert b[|b| - |t|..|b|] == t;
      StripFree(t, SPACES, GAP);
      StripsToBlock(t);
      StripNotBlank(t);
      var k := StripShape(t, SPACES);
    }
  }

  lemma {:induction false} RefsAreOk(parts: seq<string>)
    requires forall k :: 0 <= k < |parts| ==> Free(parts[k], ", ") && Free(parts[k], GAP)
    ensures RefsOk(NonEmpty(parts))
  {
    if parts != [] { RefsAreOk(parts[1..]); }
  }

  lemma {:induction false} PiecesKeepFree(s: string, k: nat)
    requires Free(s, GAP) && k < |Split(s, ", ")|
    ensures Free(Split(s, ", ")[k], GAP)
    decreases |s|
  {
    FindFound(s, ", ");
    match Find(s, ", ")
    case None =>
    case Some(i) =>
      SliceFree(s, 0, i, GAP);
      SliceFree(s, i + 2, |s|, GAP);
      assert s[..i] == s[0..i] && s[i + 2..] == s[i + 2..|s|];
      if k > 0 { PiecesKeepFree(s[i + 2..], k - 1); }
  }

  lemma SourcedShape(b: string)
    requires BlockOk(b) && |b| > |SOURCES|
    ensures RefsOk(NonEmpty(Split(b[|SOURCES|..|b| - 1], ", ")))
  {
    var inner := b[|SOURCES|..|b| - 1];
    SliceFree(b, |SOURCES|, |b| - 1, GAP);
    SplitParts(inner, ", ");
    var parts := Split(inner, ", ");
    forall k | 0 <= k < |parts| ensures Free(parts[k], ", ") && Free(parts[k], GAP) {
      PiecesKeepFree(inner, k);
    }
    RefsAreOk(parts);
  }

  lemma KindShape(b: string)
    requires BlockOk(b)
    ensures match KindOf(b)
            case Titled(t, rest) => LineOk(t) && RestOk(rest, b)
            case Headed(h, rest) => LineOk(h) && RestOk(rest, b)
            case Sourced(refs) => RefsOk(refs)
            case Plain => true
  {
    TailIsRest(b);
    RestIsOk(b);
    var first := Split(b, "\n")[0];
    var f := Strip(first, SPACES);
    if "# " <= f {
      AfterMark(first, "# ");
    } else if "## " <= f {
      AfterMark(first, "## ");
    } else if |b| > |SOURCES| {
      SourcedShape(b);
    }
  }

  lemma ContentStripped(content: string)
    requires BlocksOk(Paragraphs(content))
    ensures Stripped(content, SPACES)
  {
    if content != "" {
      var ps := Paragraphs(content);
      ParagraphsRejoin(content);
      JoinEndsWell(ps);
      assert BlockOk(ps[0]);
      JoinStartsWell(ps);
    }
  }

  lemma JoinStartsWell(bs: seq<string>)
    requires bs != [] && bs[0] != ""
    ensures Join(bs, GAP) != "" && Join(bs, GAP)[0] == bs[0][0]
  {
  }

  lemma ParagraphAdded(content: string, b: string)
    requires BlocksOk(Paragraphs(content)) && BlockOk(b)
    ensures Paragraphs(if content == "" then b else content + GAP + b) == Paragraphs(content) + [b]
  {
    var ps := Paragraphs(content);
    var all := ps + [b];
    forall k | 0 <= k < |all| - 1 ensures CutsAfter(all[k], GAP) {
      assert BlockOk(ps[k]);
      BlockCuts(ps[k]);
    }
    SplitJoin(all, GAP);
    if content != "" {
      ParagraphsRejoin(content);
      JoinAppend(ps, b, GAP);
    }
  }

  lemma AppendShape(s: Section, text: string)
    requires BlocksOk(Paragraphs(s.content)) && BlockOk(Strip(text, SPACES))
    ensures var t := AppendContent(s, text);
      && t.heading == s.heading && t.refs == s.refs && t.content != ""
      && Paragraphs(t.content) == Paragraphs(s.content) + [Strip(text, SPACES)]
      && BlocksOk(Paragraphs(t.content))
      && |t.content| == (if s.content == "" then 0 else |s.content| + 2) + |Strip(text, SPACES)|
  {
    var b := Strip(text, SPACES);
    ContentStripped(s.content);
    StripStripped(b, SPACES);
    ContentGrows(s, b);
    ParagraphAdded(s.content, b);
  }

  lemma OntoShape(ss: seq<Section>, text: string)
    requires SectionsShape(ss, true) && BlockOk(Strip(text, SPACES))
    ensures SectionsShape(Onto(ss, text), true) && Onto(ss, text) != []
    ensures Weight(Onto(ss, text)) == Weight(ss) + |Strip(text, SPACES)| + 2
  {
    if ss == [] {
      AppendShape(Section("", "", []), text);
      WeightOne(Onto(ss, text)[0]);
    } else {
      var n := |ss| - 1;
      assert SectionShape(ss[n], n == 0);
      AppendShape(Last(ss), text);
      ReplaceLast(ss, AppendContent(Last(ss), text));
    }
  }

  function SectionWeight(s: Section): nat {
    if s.content == "" then 0 else |s.content| + 2
  }

  function Sum(f: Section -> nat, ss: seq<Section>): nat {
    if ss == [] then 0 else f(ss[0]) + Sum(f, ss[1..])
  }

  function Weight(ss: seq<Section>): nat {
    Sum(SectionWeight, ss)
  }

  lemma WeightOne(s: Section)
    ensures Weight([s]) == SectionWeight(s)
  {
    SumAppend(SectionWeight, [], s);
    assert [] + [s] == [s];
  }

  lemma {:induction false} SumAppend(f: Section -> nat, a: seq<Section>, s: Section)
    ensures Sum(f, a + [s]) == Sum(f, a) + f(s)
  {
    if a == [] {
      assert a + [s] == [s] && [s][1..] == [];
    } else {
      assert (a + [s])[1..] == a[1..] + [s];
      SumAppend(f, a[1..], s);
    }
  }

  lemma SumReplaceLast(f: Section -> nat, ss: seq<Section>, s: Section)
    requires ss != []
    ensures Sum(f, WithLast(ss, s)) == Sum(f, ss) - f(Last(ss)) + f(s)
  {
    var init := ss[..|ss| - 1];
    assert ss == init + [Last(ss)];
    SumAppend(f, init, Last(ss));
    SumAppend(f, init, s);
  }

  lemma ReplaceLast(ss: seq<Section>, s: Section)
    requires ss != [] && SectionsShape(ss, true) && SectionShape(s, |ss| == 1)
    ensures SectionsShape(WithLast(ss, s), true)
    ensures Weight(WithLast(ss, s)) == Weight(ss) - SectionWeight(Last(ss)) + SectionWeight(s)
  {
    SumReplaceLast(SectionWeight, ss, s);
    forall i | 0 <= i < |ss| ensures SectionShape(WithLast(ss, s)[i], i == 0) {
      if i < |ss| - 1 { assert SectionShape(ss[i], i == 0); }
    }
  }

  lemma OpenShape(ss: seq<Section>, s: Section)
    requires SectionsShape(ss, true) && s.heading != "" && SectionShape(s, false)
    ensures SectionsShape(ss + [s], true) && Weight(ss + [s]) == Weight(ss) + SectionWeight(s)
  {
    SumAppend(SectionWeight, ss, s);
  }

  predicate Shaped(doc: Artifact) {
    SectionsShape(doc.sections, true)
  }

  /** A block that lands in the content as it stands. */
  predicate Lands(doc: Artifact, b: string) {
    KindOf(b).Plain? || (KindOf(b).Sourced? && doc.sections == [])
  }

  /** One turn keeps the shape and adds no more than the block; less, unless the block lands. */
  lemma FeedShape(doc: Artifact, b: string)
    requires Shaped(doc) && BlockOk(b)
    ensures Shaped(Feed(doc, b)) && Weight(Feed(doc, b).sections) <= Weight(doc.sections) + |b| + 2
    ensures Weight(Feed(doc, b).sections) == Weight(doc.sections) + |b| + 2 <==> Lands(doc, b)
    ensures Lands(doc, b) || doc.sections != [] ==> Feed(doc, b).sections != []
  {
    StripStripped(b, SPACES);
    KindShape(b);
    if Lands(doc, b) {
      FeedPlain(doc, b);
      OntoShape(doc.sections, b);
    } else {
      match KindOf(b)
      case Titled(t, rest) => if rest != "" { OntoShape(doc.sections, rest); }
      case Headed(h, rest) => FeedHeaded(doc, h, rest);
      case Sourced(refs) =>
        var last := Last(doc.sections);
        assert SectionShape(last, |doc.sections| == 1);
        ReplaceLast(doc.sections, last.(refs := refs));
    }
  }

  lemma FeedHeaded(doc: Artifact, h: string, rest: string)
    requires Shaped(doc) && LineOk(h) && (rest == "" || BlockOk(Strip(rest, SPACES)))
    ensures var s := if rest == "" then Section(h, "", []) else AppendContent(Section(h, "", []), rest);
      && SectionsShape(doc.sections + [s], true)
      && Weight(doc.sections + [s]) <= Weight(doc.sections) + (if rest == "" then 0 else |Strip(rest, SPACES)| + 2)
  {
    var open := Section(h, "", []);
    if rest != "" { AppendShape(open, rest); }
    OpenShape(doc.sections, if rest == "" then open else AppendContent(open, rest));
  }

  lemma BlankFeeds(doc: Artifact, block: string)
    requires Shaped(doc) && Free(block, GAP)
    ensures Shaped(Feed(doc, block))
  {
    FeedStripped(doc, block);
    var b := Strip(block, SPACES);
    if b != "" {
      var k := StripShape(block, SPACES);
      StripFree(block, SPACES, GAP);
      FeedShape(doc, b);
    } else {
      assert Strip(b, SPACES) == "";
    }
  }

  lemma {:induction false} FeedAllShape(doc: Artifact, blocks: seq<string>)
    requires Shaped(doc) && forall k :: 0 <= k < |blocks| ==> Free(blocks[k], GAP)
    ensures Shaped(FeedAll(doc, blocks))
    decreases |blocks|
  {
    if blocks != [] {
      BlankFeeds(doc, blocks[0]);
      FeedAllShape(Feed(doc, blocks[0]), blocks[1..]);
    }
  }

  /** A turn keeps the title or sets one, and never a bad one. */
  lemma FeedTitles(doc: Artifact, block: string)
    requires Free(block, GAP)
    ensures Feed(doc, block).title == doc.title || LineOk(Feed(doc, block).title)
    ensures Strip(block, SPACES) != "" && KindOf(Strip(block, SPACES)).Titled? ==> LineOk(Feed(doc, block).title)
  {
    var b := Strip(block, SPACES);
    if b != "" {
      var k := StripShape(block, SPACES);
      StripFree(block, SPACES, GAP);
      KindShape(b);
    }
  }

  predicate AllFree(blocks: seq<string>) {
    forall k :: 0 <= k < |blocks| ==> Free(blocks[k], GAP)
  }

  lemma {:induction false} FeedAllTitles(doc: Artifact, blocks: seq<string>)
    requires AllFree(blocks)
    ensures FeedAll(doc, blocks).title == doc.title || LineOk(FeedAll(doc, blocks).title)
    decreases |blocks|
  {
    if blocks != [] {
      assert Free(blocks[0], GAP);
      FeedTitles(doc, blocks[0]);
      FeedAllTitles(Feed(doc, blocks[0]), blocks[1..]);
    }
  }

  /** Whatever the text, what the parser returns has the shape, its title perhaps the default. */
  lemma ParsedShape(text: string, default: string)
    ensures var a := Parsed(text, default);
      SectionsShape(a.sections, true) && (a.title == default || LineOk(a.title))
  {
    SplitParts(text, GAP);
    FeedAllShape(Artifact(default, []), Split(text, GAP));
    FeedAllTitles(Artifact(default, []), Split(text, GAP));
  }

  // ----- a paragraph that does not land is lost for good: weigh the contents -----

  function Total(ps: seq<string>): nat {
    if ps == [] then 0 else |ps[0]| + 2 + Total(ps[1..])
  }

  lemma {:induction false} ParagraphsWeigh(doc: Artifact, ps: seq<string>)
    requires Shaped(doc) && BlocksOk(ps)
    ensures Shaped(FeedAll(doc, ps)) && Weight(FeedAll(doc, ps).sections) <= Weight(doc.sections) + Total(ps)
    ensures Weight(FeedAll(doc, ps).sections) == Weight(doc.sections) + Total(ps) ==> Readable(ps, doc.sections == [])
    ensures doc.sections != [] ==> FeedAll(doc, ps).sections != []
    decreases |ps|
  {
    if ps != [] {
      var next := Feed(doc, ps[0]);
      assert BlockOk(ps[0]);
      FeedShape(doc, ps[0]);
      ParagraphsWeigh(next, ps[1..]);
      if Weight(FeedAll(doc, ps).sections) == Weight(doc.sections) + Total(ps) {
        assert Lands(doc, ps[0]);
        FirstReadable(doc, ps);
      }
    }
  }

  lemma FirstReadable(doc: Artifact, ps: seq<string>)
    requires ps != [] && Lands(doc, ps[0]) && Readable(ps[1..], false)
    ensures Readable(ps, doc.sections == [])
  {
    forall k | 0 < k < |ps| ensures KindOf(ps[k]).Plain? { assert ps[k] == ps[1..][k - 1]; }
  }

  lemma {:induction false} TotalIsLength(ps: seq<string>)
    requires ps != []
    ensures Total(ps) == |Join(ps, GAP)| + 2
  {
    if |ps| == 1 {
      assert ps[1..] == [];
    } else {
      TotalIsLength(ps[1..]);
    }
  }

  lemma ContentTotal(s: Section, first: bool)
    requires SectionShape(s, first)
    ensures Total(Paragraphs(s.content)) == SectionWeight(s)
  {
    if s.content != "" {
      ParagraphsRejoin(s.content);
      TotalIsLength(Paragraphs(s.content));
    }
  }

  function HeadingBlocks(s: Section): seq<string> {
    if s.heading != "" then ["## " + s.heading] else []
  }

  function RefsBlocks(s: Section): seq<string> {
    if s.refs != [] then [RefsLine(s.refs)] else []
  }

  /** The document when the content of a section has been fed, before its refs. */
  function BeforeRefs(doc: Artifact, s: Section): Artifact {
    FeedAll(FeedAll(doc, HeadingBlocks(s)), Paragraphs(s.content))
  }

  lemma FeedBlocks(doc: Artifact, s: Section)
    ensures FeedAll(doc, Blocks(s)) == FeedAll(BeforeRefs(doc, s), RefsBlocks(s))
  {
    FeedAllAppend(doc, HeadingBlocks(s), Paragraphs(s.content) + RefsBlocks(s));
    FeedAllAppend(FeedAll(doc, HeadingBlocks(s)), Paragraphs(s.content), RefsBlocks(s));
  }

  lemma FeedHeading(doc: Artifact, s: Section)
    requires Shaped(doc) && s.heading != "" && LineOk(s.heading)
    ensures var open := FeedAll(doc, HeadingBlocks(s));
            open == doc.(sections := doc.sections + [Section(s.heading, "", [])])
            && Shaped(open) && Weight(open.sections) == Weight(doc.sections)
  {
    var line := "## " + s.heading;
    HeadingReads(s.heading);
    StripStripped(line, SPACES);
    FeedOne(doc, line);
    OpenShape(doc.sections, Section(s.heading, "", []));
  }

  lemma FeedRefs(doc: Artifact, s: Section)
    requires Shaped(doc) && RefsOk(s.refs) && s.refs != []
    ensures FeedAll(doc, RefsBlocks(s)).title == doc.title
    ensures FeedAll(doc, RefsBlocks(s)).sections
         == if doc.sections == [] then [Section("", RefsLine(s.refs), [])]
            else WithLast(doc.sections, Last(doc.sections).(refs := s.refs))
    ensures Shaped(FeedAll(doc, RefsBlocks(s)))
    ensures doc.sections != [] ==> Weight(FeedAll(doc, RefsBlocks(s)).sections) == Weight(doc.sections)
  {
    var line := RefsLine(s.refs);
    RefsRead(s.refs);
    StripStripped(line, SPACES);
    FeedOne(doc, line);
    FeedShape(doc, line);
    if doc.sections == [] {
      FeedPlain(doc, line);
    } else {
      assert SectionShape(Last(doc.sections), |doc.sections| == 1);
      ReplaceLast(doc.sections, Last(doc.sections).(refs := s.refs));
    }
  }

  /** The refs of this section would become text of a new one. */
  predicate RefsStray(doc: Artifact, s: Section) {
    s.refs != [] && BeforeRefs(doc, s).sections == []
  }

  lemma SectionWeighs(doc: Artifact, s: Section, first: bool)
    requires Shaped(doc) && SectionShape(s, first) && !RefsStray(doc, s)
    ensures Shaped(FeedAll(doc, Blocks(s)))
    ensures Weight(FeedAll(doc, Blocks(s)).sections) <= Weight(doc.sections) + SectionWeight(s)
    ensures Weight(FeedAll(doc, Blocks(s)).sections) == Weight(doc.sections) + SectionWeight(s)
        ==> Readable(Paragraphs(s.content), s.heading == "")
  {
    var ps := Paragraphs(s.content);
    var open := FeedAll(doc, HeadingBlocks(s));
    FeedBlocks(doc, s);
    ContentTotal(s, first);
    if s.heading != "" { FeedHeading(doc, s); }
    ParagraphsWeigh(open, ps);
    if s.refs != [] { FeedRefs(BeforeRefs(doc, s), s); }
    BareIsWeaker(ps, open.sections == []);
  }

  lemma BareIsWeaker(ps: seq<string>, bare: bool)
    ensures Readable(ps, bare) ==> Readable(ps, true)
  {
  }

  lemma {:induction false} SectionsWeigh(doc: Artifact, ss: seq<Section>)
    requires Shaped(doc) && SectionsShape(ss, false)
    ensures Weight(FeedAll(doc, AllBlocks(ss)).sections) <= Weight(doc.sections) + Weight(ss)
    ensures Weight(FeedAll(doc, AllBlocks(ss)).sections) == Weight(doc.sections) + Weight(ss) ==> AllReadable(ss)
    decreases |ss|
  {
    if ss != [] {
      RestShape(ss, false);
      HeadedNeverStrays(doc, ss[0]);
      SectionWeighs(doc, ss[0], false);
      FeedAllAppend(doc, Blocks(ss[0]), AllBlocks(ss[1..]));
      SectionsWeigh(FeedAll(doc, Blocks(ss[0])), ss[1..]);
    }
  }

  predicate AllReadable(ss: seq<Section>) {
    ss == [] || (Readable(Paragraphs(ss[0].content), ss[0].heading == "") && AllReadable(ss[1..]))
  }

  lemma HeadedNeverStrays(doc: Artifact, s: Section)
    requires Shaped(doc) && SectionShape(s, false)
    ensures !RefsStray(doc, s)
  {
    FeedHeading(doc, s);
    ParagraphsWeigh(FeedAll(doc, HeadingBlocks(s)), Paragraphs(s.content));
  }

  lemma {:induction false} AllReadableIsNormal(ss: seq<Section>, first: bool)
    requires SectionsShape(ss, first) && AllReadable(ss)
    ensures SectionsNormal(ss, first)
    decreases |ss|
  {
    if ss != [] {
      RestShape(ss, first);
      AllReadableIsNormal(ss[1..], false);
      forall i | 0 <= i < |ss| ensures SectionNormal(ss[i], first && i == 0) {
        if i > 0 { assert SectionNormal(ss[1..][i - 1], false); }
      }
    }
  }

  // ----- refs that stray end up in the wrong place -----

  lemma {:induction false} FirstKept(doc: Artifact, blocks: seq<string>)
    requires |doc.sections| >= 2
    ensures FeedAll(doc, blocks).sections != [] && FeedAll(doc, blocks).sections[0] == doc.sections[0]
    decreases |blocks|
  {
    if blocks != [] { FirstKept(Feed(doc, blocks[0]), blocks[1..]); }
  }

  lemma BlocksOfFirst(ss: seq<Section>)
    requires ss != []
    ensures AllBlocks(ss)
         == HeadingBlocks(ss[0]) + (Paragraphs(ss[0].content) + RefsBlocks(ss[0]) + AllBlocks(ss[1..]))
  {
    Assoc(HeadingBlocks(ss[0]), Paragraphs(ss[0].content) + RefsBlocks(ss[0]), AllBlocks(ss[1..]));
  }

  lemma OpenedKeepsFirst(doc: Artifact, s: Section, more: seq<string>)
    requires Shaped(doc) && doc.sections != [] && s.heading != "" && LineOk(s.heading)
    ensures FeedAll(FeedAll(doc, HeadingBlocks(s)), more).sections != []
    ensures FeedAll(FeedAll(doc, HeadingBlocks(s)), more).sections[0] == doc.sections[0]
  {
    FeedHeading(doc, s);
    FirstKept(FeedAll(doc, HeadingBlocks(s)), more);
  }

  lemma HeadingKeepsFirst(doc: Artifact, ss: seq<Section>)
    requires Shaped(doc) && doc.sections != [] && SectionsShape(ss, false)
    ensures FeedAll(doc, AllBlocks(ss)).sections != []
    ensures FeedAll(doc, AllBlocks(ss)).sections[0] == doc.sections[0]
  {
    if ss != [] {
      var s := ss[0];
      var more := Paragraphs(s.content) + RefsBlocks(s) + AllBlocks(ss[1..]);
      RestShape(ss, false);
      BlocksOfFirst(ss);
      FeedAllAppend(doc, HeadingBlocks(s), more);
      OpenedKeepsFirst(doc, s, more);
    }
  }

  lemma StrayLosesRefs(doc: Artifact, ss: seq<Section>)
    requires Shaped(doc) && SectionsShape(ss, true) && ss != [] && RefsStray(doc, ss[0])
    ensures FeedAll(doc, AllBlocks(ss)).sections != ss
  {
    var s := ss[0];
    RestShape(ss, true);
    if s.heading != "" { HeadedNeverStrays(doc, s); }
    ParagraphsWeigh(FeedAll(doc, HeadingBlocks(s)), Paragraphs(s.content));
    FeedBlocks(doc, s);
    FeedRefs(BeforeRefs(doc, s), s);
    FeedAllAppend(doc, Blocks(s), AllBlocks(ss[1..]));
    HeadingKeepsFirst(FeedAll(doc, Blocks(s)), ss[1..]);
  }

  // ----- a default title that no line can give never comes back -----

  /** A block the parser takes for text, whatever it is fed to. */
  predicate IsText(block: string) {
    Strip(block, SPACES) != "" && KindOf(Strip(block, SPACES)).Plain?
  }

  function TextCount(blocks: seq<string>): nat {
    if blocks == [] then 0 else (if IsText(blocks[0]) then 1 else 0) + TextCount(blocks[1..])
  }

  function SectionTexts(s: Section): nat {
    TextCount(Paragraphs(s.content))
  }

  function Texts(ss: seq<Section>): nat {
    Sum(SectionTexts, ss)
  }

  lemma {:induction false} TextCountAppend(a: seq<string>, b: seq<string>)
    ensures TextCount(a + b) == TextCount(a) + TextCount(b)
  {
    if a == [] {
      assert a + b == b;
    } else {
      assert (a + b)[1..] == a[1..] + b;
      TextCountAppend(a[1..], b);
    }
  }

  lemma {:induction false} BlocksHoldTexts(ss: seq<Section>)
    ensures TextCount(AllBlocks(ss)) >= Texts(ss)
  {
    if ss != [] {
      var s := ss[0];
      BlocksHoldTexts(ss[1..]);
      TextCountAppend(HeadingBlocks(s), Paragraphs(s.content) + RefsBlocks(s));
      TextCountAppend(Paragraphs(s.content), RefsBlocks(s));
      TextCountAppend(Blocks(s), AllBlocks(ss[1..]));
    }
  }

  lemma AppendTexts(s: Section, text: string)
    requires BlocksOk(Paragraphs(s.content)) && BlockOk(Strip(text, SPACES))
    ensures SectionTexts(AppendContent(s, text))
         == SectionTexts(s) + if KindOf(Strip(text, SPACES)).Plain? then 1 else 0
  {
    var b := Strip(text, SPACES);
    AppendShape(s, text);
    StripStripped(b, SPACES);
    TextCountAppend(Paragraphs(s.content), [b]);
    assert [b][1..] == [];
  }

  lemma OntoTexts(ss: seq<Section>, text: string)
    requires SectionsShape(ss, true) && BlockOk(Strip(text, SPACES))
    ensures Texts(Onto(ss, text)) == Texts(ss) + if KindOf(Strip(text, SPACES)).Plain? then 1 else 0
  {
    if ss == [] {
      AppendTexts(Section("", "", []), text);
      SumAppend(SectionTexts, [], Onto(ss, text)[0]);
      assert [] + Onto(ss, text) == Onto(ss, text);
    } else {
      assert SectionShape(Last(ss), |ss| == 1);
      AppendTexts(Last(ss), text);
      SumReplaceLast(SectionTexts, ss, AppendContent(Last(ss), text));
    }
  }

  /** No turn loses text, and text is never taken for anything else. */
  lemma FeedTexts(doc: Artifact, b: string)
    requires Shaped(doc) && BlockOk(b)
    ensures Texts(Feed(doc, b).sections) >= Texts(doc.sections) + if KindOf(b).Plain? then 1 else 0
  {
    StripStripped(b, SPACES);
    KindShape(b);
    match KindOf(b)
    case Plain =>
      FeedPlain(doc, b);
      OntoTexts(doc.sections, b);
    case Titled(t, rest) => if rest != "" { OntoTexts(doc.sections, rest); }
    case Headed(h, rest) =>
      SumAppend(SectionTexts, doc.sections, Last(Feed(doc, b).sections));
    case Sourced(refs) =>
      if doc.sections == [] {
        FeedPlain(doc, b);
        OntoTexts(doc.sections, b);
      } else {
        SumReplaceLast(SectionTexts, doc.sections, Last(doc.sections).(refs := refs));
      }
  }

  lemma BlockTexts(doc: Artifact, block: string)
    requires Shaped(doc) && Free(block, GAP)
    ensures Shaped(Feed(doc, block))
    ensures Texts(Feed(doc, block).sections) >= Texts(doc.sections) + if IsText(block) then 1 else 0
  {
    BlankFeeds(doc, block);
    FeedStripped(doc, block);
    var b := Strip(block, SPACES);
    if b != "" {
      var k := StripShape(block, SPACES);
      StripFree(block, SPACES, GAP);
      FeedTexts(doc, b);
    }
  }

  lemma {:induction false} FeedAllTexts(doc: Artifact, blocks: seq<string>)
    requires Shaped(doc) && AllFree(blocks)
    ensures Shaped(FeedAll(doc, blocks))
    ensures Texts(FeedAll(doc, blocks).sections) >= Texts(doc.sections) + TextCount(blocks)
    decreases |blocks|
  {
    if blocks != [] {
      assert Free(blocks[0], GAP);
      BlockTexts(doc, blocks[0]);
      FeedAllTexts(Feed(doc, blocks[0]), blocks[1..]);
    }
  }

  /** Text may be cut at any blank line before it is parsed. */
  lemma {:induction false} CutAnywhere(doc: Artifact, x: string, y: string)
    ensures FeedAll(doc, Split(x + GAP + y, GAP)) == FeedAll(FeedAll(doc, Split(x, GAP)), Split(y, GAP))
    decreases |x|
  {
    FindFound(x, GAP);
    match Find(x, GAP)
    case Some(i) =>
      var rest := x[i + 2..];
      PieceInFront(x, GAP, i);
      assert x == x[..i] + GAP + rest;
      assert x + GAP + y == x[..i] + GAP + (rest + GAP + y);
      SplitAfter(x[..i], GAP, rest + GAP + y);
      CutAnywhere(Feed(doc, x[..i]), rest, y);
    case None =>
      CutBehind(doc, x, y);
  }

  lemma CutBehind(doc: Artifact, x: string, y: string)
    requires Free(x, GAP)
    ensures FeedAll(doc, Split(x + GAP + y, GAP)) == FeedAll(Feed(doc, x), Split(y, GAP))
    ensures Split(x, GAP) == [x]
  {
    FindNone(x, GAP);
    if x != "" && x[|x| - 1] == '\n' {
      var z := x[..|x| - 1];
      EndsOnce(x);
      assert x + GAP + y == z + GAP + ("\n" + y);
      SplitAfter(z, GAP, "\n" + y);
      SameStripped(doc, z, x);
      LeadingBreak(Feed(doc, x), y);
    } else {
      NoBreakCuts(x);
      SplitAfter(x, GAP, y);
    }
  }

  lemma NoBreakCuts(x: string)
    requires Free(x, GAP) && (x == "" || x[|x| - 1] != '\n')
    ensures CutsAfter(x, GAP)
  {
    forall j | 0 <= j < |x| ensures !OccursAt(x + GAP, GAP, j) {
      if j + 2 <= |x| {
        assert !OccursAt(x, GAP, j);
        assert (x + GAP)[j..j + 2] == x[j..j + 2];
      } else {
        assert (x + GAP)[j..j + 2][0] == x[|x| - 1];
      }
    }
  }

  lemma EndsOnce(x: string)
    requires Free(x, GAP) && x != "" && x[|x| - 1] == '\n'
    ensures CutsAfter(x[..|x| - 1], GAP) && x == x[..|x| - 1] + "\n"
  {
    var z := x[..|x| - 1];
    SliceFree(x, 0, |x| - 1, GAP);
    assert x[0..|x| - 1] == z;
    if z != "" && z[|z| - 1] == '\n' {
      assert x[|x| - 2..|x|] == GAP;
      assert OccursAt(x, GAP, |x| - 2);
    }
    NoBreakCuts(z);
  }

  lemma SameStripped(doc: Artifact, z: string, x: string)
    requires x == z + "\n"
    ensures Feed(doc, z) == Feed(doc, x)
  {
    FeedStripped(doc, z);
    FeedStripped(doc, x);
    assert x == "" + z + "\n";
    StripAround("", z, "\n");
    assert "" + z + "" == z;
  }

  lemma {:induction false} LeadingBreak(doc: Artifact, y: string)
    ensures FeedAll(doc, Split("\n" + y, GAP)) == FeedAll(doc, Split(y, GAP))
    decreases |y|
  {
    if y != "" && y[0] == '\n' {
      var rest := y[1..];
      assert "\n" + y == "" + GAP + rest && y == "\n" + rest;
      SplitAfter("", GAP, rest);
      BlankFirst(doc, Split(rest, GAP));
      LeadingBreak(doc, rest);
    } else {
      LeadingOnly(doc, y);
    }
  }

  lemma BlankFirst(doc: Artifact, blocks: seq<string>)
    ensures FeedAll(doc, [""] + blocks) == FeedAll(doc, blocks)
  {
    FeedAllAppend(doc, [""], blocks);
    FeedOne(doc, "");
  }

  lemma LeadingOnly(doc: Artifact, y: string)
    requires y == "" || y[0] != '\n'
    ensures FeedAll(doc, Split("\n" + y, GAP)) == FeedAll(doc, Split(y, GAP))
  {
    FindFound(y, GAP);
    var s := "\n" + y;
    assert !OccursAt(s, GAP, 0) by { if |s| >= 2 { assert s[0..2][1] == y[0]; } }
    assert s[1..] == y;
    match Find(y, GAP)
    case None => LeadingBlank(doc, y);
    case Some(i) =>
      assert s[..i + 1] == "\n" + y[..i] && s[i + 3..] == y[i + 2..];
      LeadingBlank(doc, y[..i]);
  }

  lemma LeadingBlank(doc: Artifact, z: string)
    ensures Feed(doc, "\n" + z) == Feed(doc, z)
  {
    FeedStripped(doc, z);
    FeedStripped(doc, "\n" + z);
    assert "\n" + z == "\n" + z + "";
    StripAround("\n", z, "");
  }

  /** It starts like the line of a title. */
  predicate Sharp(s: string) {
    s != "" && s[0] == '#' && (|s| == 1 || s[1] in SPACES)
  }

  lemma SharpStays(s: string, r: string)
    requires Sharp(s) && r <= s && r != ""
    ensures Sharp(r)
  {
  }

  lemma SharpStrips(s: string)
    requires Sharp(s)
    ensures Sharp(Strip(s, SPACES))
  {
    StripKeepsFirst(s);
    RStripShape(s, SPACES);
    SharpStays(s, Strip(s, SPACES));
  }

  /** Such a block gives a title or is text. */
  lemma SharpReads(b: string)
    requires Sharp(b)
    ensures KindOf(b).Titled? || KindOf(b).Plain?
  {
    var first := Split(b, "\n")[0];
    FirstLine(b);
    TailIsRest(b);
    SharpStays(b, first);
    SharpStrips(first);
  }

  lemma SharpStart(doc: Artifact, text: string)
    requires Shaped(doc) && Sharp(text)
    ensures AllFree(Split(text, GAP)) && Shaped(FeedAll(doc, Split(text, GAP)))
    ensures var read := FeedAll(doc, Split(text, GAP));
      LineOk(read.title) || Texts(read.sections) > Texts(doc.sections)
  {
    var blocks := Split(text, GAP);
    SplitParts(text, GAP);
    FirstBlockIsSharp(text);
    SharpStrips(blocks[0]);
    SharpReads(Strip(blocks[0], SPACES));
    FeedAllTexts(doc, blocks);
    FeedTitles(doc, blocks[0]);
    FeedAllTitles(Feed(doc, blocks[0]), blocks[1..]);
  }

  lemma FirstBlockIsSharp(text: string)
    requires Sharp(text)
    ensures Sharp(Split(text, GAP)[0])
  {
    FindFound(text, GAP);
    match Find(text, GAP)
    case None =>
    case Some(i) =>
      assert text[i..i + 2][0] == text[i];
      SharpStays(text, text[..i]);
  }

  /** Read back, a document gets another title, or text it did not have. */
  lemma BadTitleNeverReturns(a: Artifact, default: string)
    requires !LineOk(a.title)
    ensures Parsed(Written(a), default) != a
  {
    if Parsed(Written(a), default) == a {
      var doc, x, ss := Artifact(default, []), "# " + a.title, a.sections;
      ParsedShape(Written(a), default);
      if ss == [] {
        WrittenBare(a);
        SharpStart(doc, Written(a));
      } else {
        SharpStart(doc, x);
        ParsedInTwo(a, default);
        AllBlocksAreOk(ss, true);
        FeedAllTexts(FeedAll(doc, Split(x, GAP)), AllBlocks(ss));
        FeedAllTitles(FeedAll(doc, Split(x, GAP)), AllBlocks(ss));
        BlocksHoldTexts(ss);
      }
    }
  }

  lemma WrittenBare(a: Artifact)
    requires a.sections == []
    ensures Sharp(Written(a))
  {
    var x := "# " + a.title;
    assert [x] + [] == [x];
    SpacedOne(x);
    assert Join([x, ""], "\n") == x + "\n" by { assert [x, ""][1..] == [""]; }
    RStripShape(x + "\n", SPACES);
    assert (x + "\n")[0] == '#';
    RStripKeepsSharp(x + "\n");
  }

  lemma RStripKeepsSharp(s: string)
    requires Sharp(s)
    ensures Sharp(RStrip(s, SPACES) + "\n")
  {
    RStripShape(s, SPACES);
    var r := RStrip(s, SPACES);
    assert s[0..] == s;
  }

  lemma JoinedInTwo(x: string, ss: seq<Section>)
    requires SectionsShape(ss, true) && ss != []
    ensures Join(Spaced([x] + AllChunks(ss)), "\n") == x + GAP + Join(AllBlocks(ss), GAP) + "\n"
  {
    AllBlocksAreOk(ss, true);
    SpacedJoin([x] + AllChunks(ss));
    JoinConcat([x], AllChunks(ss), GAP);
  }

  lemma LineBreakTrimmed(text: string)
    requires text != "" && text[|text| - 1] !in SPACES
    ensures RStrip(text + "\n", SPACES) == text
  {
    RStripBlank(text, "\n", SPACES);
  }

  lemma WrittenInTwo(a: Artifact)
    requires SectionsShape(a.sections, true) && a.sections != []
    ensures Written(a) == "# " + a.title + GAP + (Join(AllBlocks(a.sections), GAP) + "\n")
  {
    var x, body := "# " + a.title, Join(AllBlocks(a.sections), GAP);
    JoinedInTwo(x, a.sections);
    AllBlocksAreOk(a.sections, true);
    JoinEndsWell(AllBlocks(a.sections));
    var text := x + GAP + body;
    assert text[|text| - 1] == body[|body| - 1];
    LineBreakTrimmed(text);
    Assoc(x + GAP, body, "\n");
  }

  lemma ParsedInTwo(a: Artifact, default: string)
    requires SectionsShape(a.sections, true) && a.sections != []
    ensures Parsed(Written(a), default)
         == FeedAll(FeedAll(Artifact(default, []), Split("# " + a.title, GAP)), AllBlocks(a.sections))
  {
    var x, bs := "# " + a.title, AllBlocks(a.sections);
    WrittenInTwo(a);
    AllBlocksAreOk(a.sections, true);
    assert BlockOk(bs[0]) && BlockOk(bs[|bs| - 1]);
    JoinStartsWell(bs);
    CutAnywhere(Artifact(default, []), x, Join(bs, GAP) + "\n");
    SplitWritten(bs);
    InitLast(bs);
    LastLineBreak(FeedAll(Artifact(default, []), Split(x, GAP)), bs[..|bs| - 1], bs[|bs| - 1]);
  }

  // ----- the theorem -----

  /** Round trip exactly on the normal form, whatever default title a caller passes. */
  lemma RoundTripExactly(a: Artifact, default: string)
    ensures Parsed(Written(a), default) == a <==> Normal(a)
  {
    if Normal(a) {
      RoundTrip(a, default);
    } else if !LineOk(a.title) {
      BadTitleNeverReturns(a, default);
    } else if Parsed(Written(a), default) == a {
      ParsedShape(Written(a), default);
      ParsedIsFed(a, default);
      FeedTitle(a, default);
      ComesBackIsNormal(a);
    }
  }

  /** A line of content that reads as a title is taken for one. */
  lemma TitleInContentIsLost(default: string)
    ensures var a := Artifact("t", [Section("h", "# x", [])]); Parsed(Written(a), default) != a
  {
    var a := Artifact("t", [Section("h", "# x", [])]);
    TitleReads("x");
    OneLineOnly("# x");
    CharFree("# x", '\n', GAP);
    FindNone("# x", GAP);
    assert Paragraphs("# x") == ["# x"];
    assert KindOf(Paragraphs(a.sections[0].content)[0]).Titled?;
    assert !SectionNormal(a.sections[0], true);
    RoundTripExactly(a, default);
  }

  lemma ComesBackIsNormal(a: Artifact)
    requires Shape(a) && FeedAll(Artifact(a.title, []), AllBlocks(a.sections)) == a
    ensures Normal(a)
  {
    var doc, ss := Artifact(a.title, []), a.sections;
    if ss != [] {
      if RefsStray(doc, ss[0]) {
        StrayLosesRefs(doc, ss);
      } else {
        RestShape(ss, true);
        SectionWeighs(doc, ss[0], true);
        FeedAllAppend(doc, Blocks(ss[0]), AllBlocks(ss[1..]));
        SectionsWeigh(FeedAll(doc, Blocks(ss[0])), ss[1..]);
        AllReadableIsNormal(ss, true);
      }
    }
  }
}
