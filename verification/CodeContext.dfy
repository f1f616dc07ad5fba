/** Which lines a request covers, and how many of its files fit into the prompt
    (backend/agents/code_editor.py: resolve_scope, _extend_scope, _build_task_text). */
module CodeContext {
  import opened Basics
  import opened Text
  import opened CodeView

  // ----- from references to scope -----

  /** A selection sent along with the lines it was made on: whether it still stands there, and
      where else the saved file has it. */
  datatype Snippet = NoSnippet | Snippet(stands: bool, found: seq<Window>)

  datatype Ref = WholeFile(path: string) | Lines(path: string, from: int, to: int, snippet: Snippet)

  /** The lines a selection names, from the lower to the higher. */
  function Given(r: Ref): Window
    requires r.Lines?
  {
    if r.from > r.to then Window(r.to, r.from) else Window(r.from, r.to)
  }

  predicate Inside(w: Window, n: nat) {
    1 <= w.from <= w.to <= n
  }

  /** The text selected is not at the lines given, but at exactly one other place of the file. */
  predicate HasMoved(r: Ref, n: nat)
    requires r.Lines?
  {
    r.snippet.Snippet? && |r.snippet.found| == 1 && !(r.snippet.stands && Inside(Given(r), n))
  }

  /** _relocate, for a file of n lines. */
  function Relocate(r: Ref, n: nat): (w: Option<Window>)
    requires r.Lines?
    requires r.snippet.Snippet? ==> WithinFile(r.snippet.found, n)
    ensures w.Some? ==> WithinFile([w.value], n)
    ensures HasMoved(r, n) ==> w == Some(r.snippet.found[0])
    ensures !HasMoved(r, n) ==> w == if Inside(Given(r), n) then Some(Given(r)) else None
  {
    var given := Given(r);
    var inside := 1 <= given.from <= given.to <= n;
    var kept := if inside then Some(given) else None;
    match r.snippet
    case NoSnippet => kept
    case Snippet(stands, found) =>
      if inside && stands then Some(given)
      else if |found| == 1 then Some(found[0])
      else kept
  }

  type Sizes = map<string, nat>

  predicate Locatable(r: Ref, sizes: Sizes) {
    r.Lines? && r.snippet.Snippet? ==> WithinFile(r.snippet.found, Size(sizes, r.path))
  }

  /** A file that is not there has no lines. */
  function Size(sizes: Sizes, path: string): nat {
    if path in sizes then sizes[path] else 0
  }

  function SpanOf(r: Ref, sizes: Sizes): Option<Window>
    requires Locatable(r, sizes)
  {
    if r.Lines? then Relocate(r, Size(sizes, r.path)) else None
  }

  predicate AllLocatable(refs: seq<Ref>, sizes: Sizes) {
    forall k :: 0 <= k < |refs| ==> Locatable(refs[k], sizes)
  }

  /** The whole file (None), or only these lines. */
  type Scope = map<string, Option<seq<Window>>>

  predicate CoversWhole(refs: seq<Ref>, sizes: Sizes, path: string)
    requires AllLocatable(refs, sizes)
  {
    exists k :: 0 <= k < |refs| && refs[k].path == path && SpanOf(refs[k], sizes) == None
  }

  predicate Mentioned(refs: seq<Ref>, path: string) {
    exists k :: 0 <= k < |refs| && refs[k].path == path
  }

  /** The selections in a file, in the order they were made. */
  function Spans(refs: seq<Ref>, sizes: Sizes, path: string): (ws: seq<Window>)
    requires AllLocatable(refs, sizes)
    ensures WithinFile(ws, Size(sizes, path))
  {
    if refs == [] then []
    else
      var last := refs[|refs| - 1];
      var before := Spans(refs[..|refs| - 1], sizes, path);
      if last.path == path && SpanOf(last, sizes).Some? then before + [SpanOf(last, sizes).value] else before
  }

  /** One reference to the whole file makes its scope the whole file, whatever else is selected. */
  ghost predicate IsScope(files: Scope, refs: seq<Ref>, sizes: Sizes)
    requires AllLocatable(refs, sizes)
  {
    && (forall p :: p in files <==> Mentioned(refs, p))
    && forall p :: p in files ==> files[p] == if CoversWhole(refs, sizes, p) then None else Some(Spans(refs, sizes, p))
  }

  lemma OneMore(refs: seq<Ref>, r: Ref, sizes: Sizes, p: string)
    requires AllLocatable(refs + [r], sizes) && AllLocatable(refs, sizes) && Locatable(r, sizes)
    ensures Mentioned(refs + [r], p) <==> Mentioned(refs, p) || r.path == p
    ensures CoversWhole(refs + [r], sizes, p) <==> CoversWhole(refs, sizes, p) || (r.path == p && SpanOf(r, sizes) == None)
    ensures Spans(refs + [r], sizes, p)
         == if r.path == p && SpanOf(r, sizes).Some? then Spans(refs, sizes, p) + [SpanOf(r, sizes).value]
            else Spans(refs, sizes, p)
  {
    var all := refs + [r];
    assert all[..|refs|] == refs && all[|refs|] == r;
    if k :| 0 <= k < |refs| && refs[k].path == p { assert all[k] == refs[k]; }
    if k :| 0 <= k < |refs| && refs[k].path == p && SpanOf(refs[k], sizes) == None { assert all[k] == refs[k]; }
  }

  /** resolve_scope */
  method ResolveScope(refs: seq<Ref>, sizes: Sizes) returns (files: Scope)
    requires AllLocatable(refs, sizes)
    ensures IsScope(files, refs, sizes)
  {
    files := map[];
    for i := 0 to |refs|
      invariant AllLocatable(refs[..i], sizes) && IsScope(files, refs[..i], sizes)
    {
      var r := refs[i];
      assert refs[..i + 1] == refs[..i] + [r];
      ScopeMore(files, refs[..i], r, sizes);
      files := AddSpan(files, r.path, SpanOf(r, sizes));
    }
    assert refs[..|refs|] == refs;
  }

  lemma ScopeMore(files: Scope, refs: seq<Ref>, r: Ref, sizes: Sizes)
    requires AllLocatable(refs, sizes) && Locatable(r, sizes) && IsScope(files, refs, sizes)
    ensures AllLocatable(refs + [r], sizes) && IsScope(AddSpan(files, r.path, SpanOf(r, sizes)), refs + [r], sizes)
  {
    var now := AddSpan(files, r.path, SpanOf(r, sizes));
    forall p ensures p in now <==> Mentioned(refs + [r], p) {
      OneMore(refs, r, sizes, p);
    }
    forall p | p in now
      ensures now[p] == if CoversWhole(refs + [r], sizes, p) then None else Some(Spans(refs + [r], sizes, p)) {
      OneMore(refs, r, sizes, p);
      NotMentioned(refs, sizes, p);
      if SpanOf(r, sizes).Some? { assert [] + [SpanOf(r, sizes).value] == [SpanOf(r, sizes).value]; }
    }
  }

  function AddSpan(files: Scope, path: string, span: Option<Window>): Scope {
    match span
    case None => files[path := None]
    case Some(w) =>
      if path !in files then files[path := Some([w])]
      else if files[path].Some? then files[path := Some(files[path].value + [w])]
      else files
  }

  lemma {:induction false} NotMentioned(refs: seq<Ref>, sizes: Sizes, p: string)
    requires AllLocatable(refs, sizes)
    ensures !Mentioned(refs, p) ==> Spans(refs, sizes, p) == [] && !CoversWhole(refs, sizes, p)
  {
    if refs != [] {
      var before, last := refs[..|refs| - 1], refs[|refs| - 1];
      assert refs == before + [last];
      NotMentioned(before, sizes, p);
      OneMore(before, last, sizes, p);
    }
  }

  /** So every range that is rendered lies inside its file. */
  lemma ScopeWithin(files: Scope, refs: seq<Ref>, sizes: Sizes, p: string)
    requires AllLocatable(refs, sizes) && IsScope(files, refs, sizes) && p in files && files[p].Some?
    ensures WithinFile(files[p].value, Size(sizes, p))
  {
  }

  datatype Rule = Rule(path: string, lines: Window)

  function RuleLines(rules: seq<Rule>, path: string): seq<Window> {
    if rules == [] then []
    else
      var last := rules[|rules| - 1];
      RuleLines(rules[..|rules| - 1], path) + if last.path == path then [last.lines] else []
  }

  lemma RuleLinesMore(rules: seq<Rule>, r: Rule, path: string)
    ensures RuleLines(rules + [r], path) == RuleLines(rules, path) + if r.path == path then [r.lines] else []
  {
    assert (rules + [r])[..|rules|] == rules;
  }

  /** What a scope comes to with the rules on top; a whole file stays whole. */
  function Extended(scope: Scope, path: string, ruleLines: seq<Window>): Option<Option<seq<Window>>> {
    if path in scope then
      if scope[path].None? then Some(None) else Some(Some(scope[path].value + ruleLines))
    else if ruleLines == [] then None
    else Some(Some(ruleLines))
  }

  function Lookup(scope: Scope, path: string): Option<Option<seq<Window>>> {
    if path in scope then Some(scope[path]) else None
  }

  /** _extend_scope */
  method ExtendScope(scope: Scope, rules: seq<Rule>) returns (files: Scope)
    ensures forall p :: Lookup(files, p) == Extended(scope, p, RuleLines(rules, p))
  {
    files := scope;
    forall p ensures Lookup(files, p) == Extended(scope, p, RuleLines(rules[..0], p)) {
      if p in scope && scope[p].Some? { assert scope[p].value + [] == scope[p].value; }
    }
    for i := 0 to |rules|
      invariant forall p :: Lookup(files, p) == Extended(scope, p, RuleLines(rules[..i], p))
    {
      ghost var was := files;
      files := AddSpan(files, rules[i].path, Some(rules[i].lines));
      assert rules[..i + 1] == rules[..i] + [rules[i]];
      forall p ensures Lookup(files, p) == Extended(scope, p, RuleLines(rules[..i + 1], p)) {
        RuleLinesMore(rules[..i], rules[i], p);
        ExtendOne(scope, p, RuleLines(rules[..i], p), rules[i].lines);
        assert Lookup(was, p) == Extended(scope, p, RuleLines(rules[..i], p));
        assert RuleLines(rules[..i], p) + [] == RuleLines(rules[..i], p);
      }
    }
    assert rules[..|rules|] == rules;
  }

  lemma ExtendOne(scope: Scope, p: string, ws: seq<Window>, w: Window)
    ensures Extended(scope, p, ws + [w])
         == match Extended(scope, p, ws)
            case None => Some(Some([w]))
            case Some(None) => Some(None)
            case Some(Some(vs)) => Some(Some(vs + [w]))
  {
    assert ws + [w] != [] && [] + [w] == [w];
    if p in scope && scope[p].Some? { assert scope[p].value + (ws + [w]) == scope[p].value + ws + [w]; }
  }

  // ----- the text of a view -----

  function ItemText(item: Item, lines: seq<string>, ranges: Option<seq<Window>>): string
    requires item.Row? ==> 1 <= item.line <= |lines|
  {
    match item
    case Row(n) => RowText(lines, ranges, n)
    case Gap(a, b) => "[... lines " + Number(a) + "-" + Number(b) + " not shown ...]"
    case Cut(a, b) => "[... lines " + Number(a) + "-" + Number(b) + " not shown (size limit) ...]"
  }

  function Number(n: int): string {
    if n < 0 then "-" + Decimal(-n) else Decimal(n)
  }

  function Texts(items: seq<Item>, lines: seq<string>, ranges: Option<seq<Window>>): (ts: seq<string>)
    requires Rows(items, |lines|)
    ensures |ts| == |items|
  {
    if items == [] then []
    else Texts(items[..|items| - 1], lines, ranges) + [ItemText(items[|items| - 1], lines, ranges)]
  }

  lemma {:induction false} JoinLength(ts: seq<string>, t: string)
    ensures |Join(ts + [t], "\n")| == |Join(ts, "\n")| + (if ts == [] then 0 else 1) + |t|
  {
    if |ts| <= 1 {
      if |ts| == 1 { assert (ts + [t])[1..] == [t]; }
    } else {
      assert (ts + [t])[1..] == ts[1..] + [t];
      JoinLength(ts[1..], t);
    }
  }

  lemma {:induction false} UsedWithinText(items: seq<Item>, lines: seq<string>, ranges: Option<seq<Window>>)
    requires Rows(items, |lines|)
    ensures Used(items, lines, ranges) <= |Join(Texts(items, lines, ranges), "\n")| + if items == [] then 0 else 1
  {
    if items != [] {
      var before, last := items[..|items| - 1], items[|items| - 1];
      UsedWithinText(before, lines, ranges);
      JoinLength(Texts(before, lines, ranges), ItemText(last, lines, ranges));
    }
  }

  datatype FileView = FileView(path: string, limit: int, items: seq<Item>, text: string)

  /** _render_file: head and foot stand for the two marker lines around the body. */
  method RenderFile(path: string, lines: seq<string>, ranges: Option<seq<Window>>, extra: seq<Window>, budget: int,
                    head: string, foot: string) returns (v: FileView)
    requires SpansOk(ranges, extra, |lines|)
    ensures v.path == path && v.limit == (if budget < MAX_FILE_VIEW_CHARS then budget else MAX_FILE_VIEW_CHARS)
    ensures View(v.items, v.limit, lines, ranges, extra)
    ensures v.text == head + "\n" + Join(if lines == [] then ["[empty file]"] else Texts(v.items, lines, ranges), "\n")
                      + ("\n" + foot)
    ensures Used(v.items, lines, ranges) <= |v.text|
  {
    var limit := if budget < MAX_FILE_VIEW_CHARS then budget else MAX_FILE_VIEW_CHARS;
    var items := RenderItems(lines, ranges, extra, limit);
    UsedWithinText(items, lines, ranges);
    if lines == [] { NoItems(items); }
    var body := Join(if lines == [] then ["[empty file]"] else Texts(items, lines, ranges), "\n");
    v := FileView(path, limit, items, head + "\n" + body + ("\n" + foot));
  }

  lemma NoItems(items: seq<Item>)
    requires Tiles(items, 1)
    ensures items == []
  {
    if items != [] { TilesBelow(items[..|items| - 1], First(items[|items| - 1]), 0); }
  }

  // ----- the budget -----

  /** A stored file; version 0 has never been saved. */
  datatype File = File(lines: seq<string>, version: nat)

  predicate Present(path: string, files: map<string, File>) {
    path in files && files[path].version != 0
  }

  function RangesFor(path: string, scope: Scope): Option<seq<Window>> {
    if path in scope then scope[path] else Some([])
  }

  function RulesFor(path: string, rules: map<string, seq<Window>>): seq<Window> {
    if path in rules then rules[path] else []
  }

  predicate Renderable(path: string, files: map<string, File>, scope: Scope, rules: map<string, seq<Window>>) {
    Present(path, files) ==> SpansOk(RangesFor(path, scope), RulesFor(path, rules), |files[path].lines|)
  }

  function Paths(vs: seq<FileView>): seq<string> {
    if vs == [] then [] else Paths(vs[..|vs| - 1]) + [vs[|vs| - 1].path]
  }

  /** The paths of order that are (or are not) there, in order; only the person's own if asked. */
  function Pick(order: seq<string>, files: map<string, File>, scope: Scope, present: bool, own: bool): seq<string> {
    if order == [] then []
    else
      var p := order[|order| - 1];
      var before := Pick(order[..|order| - 1], files, scope, present, own);
      if Present(p, files) == present && (own ==> p in scope) then before + [p] else before
  }

  lemma PickMore(order: seq<string>, p: string, files: map<string, File>, scope: Scope, present: bool, own: bool)
    ensures Pick(order + [p], files, scope, present, own)
         == Pick(order, files, scope, present, own)
            + if Present(p, files) == present && (own ==> p in scope) then [p] else []
  {
    assert (order + [p])[..|order|] == order;
  }

  ghost predicate ViewOk(v: FileView, files: map<string, File>, scope: Scope, rules: map<string, seq<Window>>) {
    && Present(v.path, files) && v.limit <= MAX_FILE_VIEW_CHARS
    && View(v.items, v.limit, files[v.path].lines, RangesFor(v.path, scope), RulesFor(v.path, rules))
  }

  ghost predicate ViewsOk(vs: seq<FileView>, files: map<string, File>, scope: Scope, rules: map<string, seq<Window>>) {
    forall k :: 0 <= k < |vs| ==> ViewOk(vs[k], files, scope, rules)
  }

  ghost function RowsUsed(vs: seq<FileView>, files: map<string, File>, scope: Scope, rules: map<string, seq<Window>>): nat
    requires ViewsOk(vs, files, scope, rules)
  {
    if vs == [] then 0
    else
      var v := vs[|vs| - 1];
      RowsUsed(vs[..|vs| - 1], files, scope, rules) + Used(v.items, files[v.path].lines, RangesFor(v.path, scope))
  }

  function TextUsed(vs: seq<FileView>): nat {
    if vs == [] then 0 else TextUsed(vs[..|vs| - 1]) + |vs[|vs| - 1].text|
  }

  lemma ViewsMore(vs: seq<FileView>, v: FileView, files: map<string, File>, scope: Scope, rules: map<string, seq<Window>>)
    requires ViewsOk(vs, files, scope, rules) && ViewOk(v, files, scope, rules)
    ensures ViewsOk(vs + [v], files, scope, rules) && Paths(vs + [v]) == Paths(vs) + [v.path]
    ensures RowsUsed(vs + [v], files, scope, rules)
         == RowsUsed(vs, files, scope, rules) + Used(v.items, files[v.path].lines, RangesFor(v.path, scope))
    ensures TextUsed(vs + [v]) == TextUsed(vs) + |v.text|
  {
    assert (vs + [v])[..|vs|] == vs;
  }

  /** What holds of the loop's variables after i paths: up to point every file that is there is
      shown, and behind it none. */
  ghost predicate BuiltTo(i: nat, point: nat, order: seq<string>, files: map<string, File>, scope: Scope,
                          rules: map<string, seq<Window>>, views: seq<FileView>, omitted: seq<string>,
                          missing: seq<string>)
  {
    && point <= i <= |order|
    && Paths(views) == Pick(order[..point], files, scope, true, false)
    && omitted == Pick(order[point..i], files, scope, true, true)
    && missing == Pick(order[..i], files, scope, false, true)
    && ViewsOk(views, files, scope, rules)
    && RowsUsed(views, files, scope, rules) <= MAX_CONTEXT_CHARS
    && RowsUsed(views, files, scope, rules) <= TextUsed(views)
  }

  lemma PassMissing(i: nat, point: nat, order: seq<string>, files: map<string, File>, scope: Scope,
                    rules: map<string, seq<Window>>, views: seq<FileView>, omitted: seq<string>, missing: seq<string>)
    requires BuiltTo(i, point, order, files, scope, rules, views, omitted, missing)
    requires i < |order| && !Present(order[i], files)
    ensures BuiltTo(i + 1, if point == i then i + 1 else point, order, files, scope, rules, views, omitted,
                    missing + if order[i] in scope then [order[i]] else [])
  {
    Advance(order, point, i, files, scope);
  }

  lemma PassOmitted(i: nat, point: nat, order: seq<string>, files: map<string, File>, scope: Scope,
                    rules: map<string, seq<Window>>, views: seq<FileView>, omitted: seq<string>, missing: seq<string>)
    requires BuiltTo(i, point, order, files, scope, rules, views, omitted, missing)
    requires i < |order| && Present(order[i], files)
    ensures BuiltTo(i + 1, point, order, files, scope, rules, views,
                    omitted + (if order[i] in scope then [order[i]] else []), missing)
  {
    Advance(order, point, i, files, scope);
    assert missing + [] == missing;
  }

  lemma PassShown(i: nat, order: seq<string>, files: map<string, File>, scope: Scope,
                  rules: map<string, seq<Window>>, views: seq<FileView>, omitted: seq<string>, missing: seq<string>,
                  v: FileView)
    requires BuiltTo(i, i, order, files, scope, rules, views, omitted, missing)
    requires i < |order| && v.path == order[i] && ViewOk(v, files, scope, rules)
    requires Used(v.items, files[v.path].lines, RangesFor(v.path, scope)) <= |v.text|
    requires Used(v.items, files[v.path].lines, RangesFor(v.path, scope)) <= MAX_CONTEXT_CHARS - TextUsed(views)
    ensures BuiltTo(i + 1, i + 1, order, files, scope, rules, views + [v], omitted, missing)
  {
    Advance(order, i, i, files, scope);
    ViewsMore(views, v, files, scope, rules);
    assert missing + [] == missing;
  }

  method RenderNext(path: string, files: map<string, File>, scope: Scope, rules: map<string, seq<Window>>, budget: nat,
                    head: string, foot: string) returns (v: FileView)
    requires Present(path, files) && Renderable(path, files, scope, rules)
    ensures v.path == path && ViewOk(v, files, scope, rules)
    ensures Used(v.items, files[path].lines, RangesFor(path, scope)) <= |v.text|
    ensures Used(v.items, files[path].lines, RangesFor(path, scope)) <= budget
  {
    v := RenderFile(path, files[path].lines, RangesFor(path, scope), RulesFor(path, rules), budget, head, foot);
  }

  /** The loop of _build_task_text. All rows together keep to the limit, although the views with
      their markers may go over it; files are left out from some point of the order on, and then
      the views have all but used up the budget. */
  method BuildViews(order: seq<string>, files: map<string, File>, scope: Scope, rules: map<string, seq<Window>>,
                    heads: string -> string, foot: string)
    returns (views: seq<FileView>, omitted: seq<string>, missing: seq<string>, ghost point: nat)
    requires forall k :: 0 <= k < |order| ==> Renderable(order[k], files, scope, rules)
    ensures point <= |order|
    ensures Paths(views) == Pick(order[..point], files, scope, true, false)
    ensures omitted == Pick(order[point..], files, scope, true, true)
    ensures missing == Pick(order, files, scope, false, true)
    ensures ViewsOk(views, files, scope, rules) && RowsUsed(views, files, scope, rules) <= MAX_CONTEXT_CHARS
    ensures point < |order| ==> TextUsed(views) > MAX_CONTEXT_CHARS - MIN_BUDGET
  {
    views, omitted, missing, point := [], [], [], 0;
    var budget := MAX_CONTEXT_CHARS;
    BuiltNone(order, files, scope, rules);
    for i := 0 to |order|
      invariant budget == MAX_CONTEXT_CHARS - TextUsed(views) && (point < i ==> budget < MIN_BUDGET)
      invariant BuiltTo(i, point, order, files, scope, rules, views, omitted, missing)
    {
      var path := order[i];
      if !Present(path, files) {
        PassMissing(i, point, order, files, scope, rules, views, omitted, missing);
        missing := missing + if path in scope then [path] else [];
        if point == i { point := i + 1; }
      } else if budget < MIN_BUDGET {
        PassOmitted(i, point, order, files, scope, rules, views, omitted, missing);
        omitted := omitted + if path in scope then [path] else [];
      } else {
        var v := RenderNext(path, files, scope, rules, budget, heads(path), foot);
        PassShown(i, order, files, scope, rules, views, omitted, missing, v);
        TextMore(views, v);
        budget := budget - |v.text|;
        views := views + [v];
        point := i + 1;
      }
    }
    BuiltAll(point, order, files, scope, rules, views, omitted, missing);
  }

  lemma BuiltAll(point: nat, order: seq<string>, files: map<string, File>, scope: Scope,
                 rules: map<string, seq<Window>>, views: seq<FileView>, omitted: seq<string>, missing: seq<string>)
    requires BuiltTo(|order|, point, order, files, scope, rules, views, omitted, missing)
    ensures omitted == Pick(order[point..], files, scope, true, true)
    ensures missing == Pick(order, files, scope, false, true)
  {
    assert order[..|order|] == order && order[point..|order|] == order[point..];
  }

  lemma BuiltNone(order: seq<string>, files: map<string, File>, scope: Scope, rules: map<string, seq<Window>>)
    ensures BuiltTo(0, 0, order, files, scope, rules, [], [], [])
  {
    assert order[..0] == [];
  }

  lemma TextMore(vs: seq<FileView>, v: FileView)
    ensures TextUsed(vs + [v]) == TextUsed(vs) + |v.text|
  {
    assert (vs + [v])[..|vs|] == vs;
  }

  lemma Advance(order: seq<string>, point: nat, i: nat, files: map<string, File>, scope: Scope)
    requires point <= i < |order|
    ensures Pick(order[..i + 1], files, scope, false, true)
         == Pick(order[..i], files, scope, false, true)
            + if !Present(order[i], files) && order[i] in scope then [order[i]] else []
    ensures Pick(order[point..i + 1], files, scope, true, true)
         == Pick(order[point..i], files, scope, true, true)
            + if Present(order[i], files) && order[i] in scope then [order[i]] else []
    ensures Pick(order[..i + 1], files, scope, true, false)
         == Pick(order[..i], files, scope, true, false) + if Present(order[i], files) then [order[i]] else []
    ensures Pick(order[i + 1..i + 1], files, scope, true, true) == []
  {
    PickMore(order[..i], order[i], files, scope, false, true);
    PickMore(order[..i], order[i], files, scope, true, false);
    PickMore(order[point..i], order[i], files, scope, true, true);
    assert order[..i + 1] == order[..i] + [order[i]];
    assert order[point..i + 1] == order[point..i] + [order[i]];
  }
}
