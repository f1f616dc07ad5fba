/** The parser as the program runs it: `current` is the last record of the list it grows, and
    content is appended to it in place (backend/agents/importer.py). */
module Importer {
  import opened Basics
  import opened Text
  import opened Markdown

  class Record {
    var heading: string
    var content: string
    var refs: seq<string>

    /** _new_section */
    constructor (heading: string)
      ensures View() == Section(heading, "", [])
    {
      this.heading := heading;
      content := "";
      refs := [];
    }

    ghost function View(): Section
      reads this
    {
      Section(heading, content, refs)
    }

    /** _append_content */
    method Append(text: string)
      modifies this
      ensures View() == AppendContent(old(View()), text)
    {
      var t := Strip(text, SPACES);
      if t == "" { return; }
      content := if content != "" then Strip(content + GAP + t, SPACES) else t;
    }
  }

  ghost function Views(rs: seq<Record>): (ss: seq<Section>)
    reads rs
    ensures |ss| == |rs| && forall i :: 0 <= i < |rs| ==> ss[i] == rs[i].View()
  {
    if rs == [] then [] else Views(rs[..|rs| - 1]) + [rs[|rs| - 1].View()]
  }

  lemma SameButLast(now: seq<Section>, before: seq<Section>)
    requires |now| == |before| != 0 && forall i :: 0 <= i < |now| - 1 ==> now[i] == before[i]
    ensures now == WithLast(before, Last(now))
  {
  }

  /** Only the last record of a list has changed. */
  twostate lemma LastChanged(rs: seq<Record>)
    requires rs != [] && forall i :: 0 <= i < |rs| - 1 ==> unchanged(rs[i])
    ensures Views(rs) == WithLast(old(Views(rs)), rs[|rs| - 1].View())
  {
    var now, before := Views(rs), old(Views(rs));
    forall i | 0 <= i < |rs| - 1 ensures now[i] == before[i] { assert rs[i].View() == old(rs[i].View()); }
    SameButLast(now, before);
  }

  /** The title, the list and the record that is open: the last one, once there is one. */
  class Parser {
    var title: string
    var sections: seq<Record>
    var current: Record?
    ghost var made: set<Record>

    constructor (default: string)
      ensures Valid() && Doc() == Artifact(default, []) && sections == [] && made == {}
    {
      title := default;
      sections := [];
      current := null;
      made := {};
    }

    ghost predicate Valid()
      reads this
    {
      && NoRepeats(sections) && (forall i :: 0 <= i < |sections| ==> sections[i] in made)
      && (if sections == [] then current == null else current == sections[|sections| - 1])
    }

    /** At most one record has been made. */
    twostate predicate Grown()
      reads this
    {
      made == old(made) || (current != null && fresh(current) && made == old(made) + {current})
    }

    ghost function Doc(): Artifact
      reads this, sections
    {
      Artifact(title, Views(sections))
    }

    method Open(heading: string)
      requires Valid()
      modifies this
      ensures Valid() && title == old(title) && |sections| == |old(sections)| + 1
      ensures Views(sections) == old(Views(sections)) + [Section(heading, "", [])]
      ensures sections[..|old(sections)|] == old(sections) && fresh(sections[|sections| - 1])
      ensures made == old(made) + {sections[|sections| - 1]}
    {
      var r := new Record(heading);
      assert forall i :: 0 <= i < |sections| ==> sections[i] != r;
      sections := sections + [r];
      current := r;
      made := made + {r};
      assert sections[..|sections| - 1] == old(sections);
    }

    method AppendToOpen(text: string)
      requires Valid() && sections != []
      modifies current
      ensures Valid()
      ensures Views(sections) == WithLast(old(Views(sections)), AppendContent(Last(old(Views(sections))), text))
    {
      current.Append(text);
      LastChanged(sections);
    }

    method AppendToCurrent(text: string)
      requires Valid()
      modifies this, made
      ensures Valid() && title == old(title)
      ensures Grown()
      ensures Views(sections) == Onto(old(Views(sections)), text)
    {
      if current == null {
        Open("");
        AppendToOpen(text);
      } else {
        AppendToOpen(text);
      }
    }

    method OpenWith(heading: string, rest: string)
      requires Valid()
      modifies this
      ensures Valid() && title == old(title)
      ensures Grown()
      ensures Views(sections)
           == old(Views(sections))
              + [if rest == "" then Section(heading, "", []) else AppendContent(Section(heading, "", []), rest)]
    {
      ghost var before := Views(sections);
      Open(heading);
      if rest != "" {
        AppendToOpen(rest);
        assert (before + [Section(heading, "", [])])[..|before|] == before;
      }
    }

    method SetRefs(refs: seq<string>)
      requires Valid() && sections != []
      modifies current
      ensures Valid() && title == old(title) && sections == old(sections)
      ensures Views(sections) == WithLast(old(Views(sections)), Last(old(Views(sections))).(refs := refs))
    {
      current.refs := refs;
      LastChanged(sections);
    }

    /** One block. */
    method Take(block: string)
      requires Valid()
      modifies this, made
      ensures Valid() && Doc() == Feed(old(Doc()), block)
      ensures Grown()
    {
      var stripped := Strip(block, SPACES);
      if stripped != "" { TakeKind(KindOf(stripped), Strip(block, NEWLINES)); }
    }

    method TakeKind(kind: Kind, text: string)
      requires Valid()
      modifies this, made
      ensures Valid() && Doc() == Turn(old(Doc()), kind, text)
      ensures Grown()
    {
      match kind
      case Titled(found, rest) => Retitle(found, rest);
      case Headed(heading, rest) => OpenWith(heading, rest);
      case Sourced(refs) =>
        if current != null { SetRefs(refs); } else { AppendToCurrent(text); }
      case Plain => AppendToCurrent(text);
    }

    method Retitle(found: string, rest: string)
      requires Valid()
      modifies this, made
      ensures Valid() && title == found && Grown()
      ensures Views(sections) == if rest == "" then old(Views(sections)) else Onto(old(Views(sections)), rest)
    {
      title := found;
      assert Valid() && Views(sections) == old(Views(sections));
      if rest != "" { AppendToCurrent(rest); }
    }
  }

  method ParseMarkdown(text: string, default: string) returns (title: string, sections: seq<Record>)
    ensures fresh(sections) && NoRepeats(sections)
    ensures Artifact(title, Views(sections)) == Parsed(text, default)
  {
    var blocks := Split(text, GAP);
    var p := new Parser(default);
    assert blocks[0..] == blocks;
    for i := 0 to |blocks|
      invariant p.Valid() && fresh(p) && fresh(p.made)
      invariant FeedAll(p.Doc(), blocks[i..]) == Parsed(text, default)
    {
      assert blocks[i..][1..] == blocks[i + 1..];
      p.Take(blocks[i]);
    }
    assert blocks[|blocks|..] == [];
    title, sections := p.title, p.sections;
  }
}
