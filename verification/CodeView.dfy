/** The numbered file views shown to the code editor's model: line windows, gap markers and two
    size limits (backend/agents/code_editor.py). */
module CodeView {
  import opened Basics
  import opened Text

  const CONTEXT_LINES: int := 20
  const MAX_CONTEXT_CHARS: int := 60000
  const MAX_FILE_VIEW_CHARS: int := 30000
  const MIN_BUDGET: int := 500

  /** Lines from..to, both included. */
  datatype Window = Window(from: int, to: int)

  predicate In(line: int, w: Window) {
    w.from <= line <= w.to
  }

  predicate Covers(ws: seq<Window>, line: int) {
    exists k :: 0 <= k < |ws| && In(line, ws[k])
  }

  // ----- sorted() -----

  predicate NotAfter(v: Window, w: Window) {
    v.from < w.from || (v.from == w.from && v.to <= w.to)
  }

  predicate Ordered(ws: seq<Window>) {
    forall i, j :: 0 <= i < j < |ws| ==> NotAfter(ws[i], ws[j])
  }

  function Insert(w: Window, ws: seq<Window>): (r: seq<Window>)
    ensures multiset(r) == multiset(ws) + multiset{w}
  {
    if ws == [] then [w]
    else if NotAfter(w, ws[0]) then [w] + ws
    else
      assert ws == [ws[0]] + ws[1..];
      [ws[0]] + Insert(w, ws[1..])
  }

  lemma OrderedCons(w: Window, ws: seq<Window>)
    requires Ordered(ws) && forall j :: 0 <= j < |ws| ==> NotAfter(w, ws[j])
    ensures Ordered([w] + ws)
  {
  }

  lemma OrderedRest(ws: seq<Window>)
    requires Ordered(ws) && ws != []
    ensures Ordered(ws[1..]) && forall v :: v in ws[1..] ==> NotAfter(ws[0], v)
  {
  }

  lemma {:induction false} InsertOrdered(w: Window, ws: seq<Window>)
    requires Ordered(ws)
    ensures Ordered(Insert(w, ws))
  {
    if ws != [] {
      if NotAfter(w, ws[0]) {
        OrderedCons(w, ws);
      } else {
        var rest := Insert(w, ws[1..]);
        OrderedRest(ws);
        InsertOrdered(w, ws[1..]);
        forall j | 0 <= j < |rest| ensures NotAfter(ws[0], rest[j]) { InsertedFrom(w, ws[1..], rest[j]); }
        OrderedCons(ws[0], rest);
      }
    }
  }

  lemma InsertedFrom(w: Window, ws: seq<Window>, v: Window)
    requires v in Insert(w, ws)
    ensures v == w || v in ws
  {
    assert v in multiset(Insert(w, ws));
  }

  function Sorted(ws: seq<Window>): (r: seq<Window>)
    ensures multiset(r) == multiset(ws)
  {
    if ws == [] then []
    else
      assert ws == [ws[0]] + ws[1..];
      Insert(ws[0], Sorted(ws[1..]))
  }

  lemma {:induction false} SortedOrdered(ws: seq<Window>)
    ensures Ordered(Sorted(ws))
  {
    if ws != [] {
      SortedOrdered(ws[1..]);
      InsertOrdered(ws[0], Sorted(ws[1..]));
    }
  }

  lemma SameLines(a: seq<Window>, b: seq<Window>, line: int)
    requires multiset(a) == multiset(b)
    ensures Covers(a, line) <==> Covers(b, line)
  {
    if k :| 0 <= k < |a| && In(line, a[k]) { Found(a, b, k); }
    if k :| 0 <= k < |b| && In(line, b[k]) { Found(b, a, k); }
  }

  lemma Found(a: seq<Window>, b: seq<Window>, k: nat)
    requires multiset(a) == multiset(b) && k < |a|
    ensures exists m :: 0 <= m < |b| && b[m] == a[k]
  {
    assert a[k] in multiset(a) && a[k] in multiset(b);
    assert a[k] in b;
  }

  // ----- merging -----

  /** At least one line lies between neighbours. */
  predicate Separated(ws: seq<Window>) {
    forall k :: 0 <= k < |ws| - 1 ==> ws[k].to + 1 < ws[k + 1].from
  }

  predicate WithinFile(ws: seq<Window>, total: int) {
    forall k :: 0 <= k < |ws| ==> 1 <= ws[k].from <= ws[k].to <= total
  }

  lemma CoversAppend(ws: seq<Window>, w: Window, line: int)
    ensures Covers(ws + [w], line) <==> Covers(ws, line) || In(line, w)
  {
    if k :| 0 <= k < |ws| && In(line, ws[k]) { assert In(line, (ws + [w])[k]); }
    if In(line, w) { assert In(line, (ws + [w])[|ws|]); }
  }

  /** The last window of out grows by w, or w follows it. */
  function Absorb(out: seq<Window>, w: Window): seq<Window> {
    if out != [] && w.from <= out[|out| - 1].to + 1 then
      var last := out[|out| - 1];
      out[..|out| - 1] + [Window(last.from, if w.to > last.to then w.to else last.to)]
    else out + [w]
  }

  lemma AbsorbLines(out: seq<Window>, w: Window, line: int)
    requires out != [] ==> out[|out| - 1].from <= w.from
    ensures Covers(Absorb(out, w), line) <==> Covers(out, line) || In(line, w)
  {
    if out != [] && w.from <= out[|out| - 1].to + 1 {
      var last := out[|out| - 1];
      assert out == out[..|out| - 1] + [last];
      CoversAppend(out[..|out| - 1], last, line);
      CoversAppend(out[..|out| - 1], Window(last.from, if w.to > last.to then w.to else last.to), line);
    } else {
      CoversAppend(out, w, line);
    }
  }

  lemma AbsorbKeeps(out: seq<Window>, w: Window, total: int)
    requires Separated(out) && (out != [] ==> out[|out| - 1].from <= w.from)
    ensures Separated(Absorb(out, w))
    ensures WithinFile(out, total) && 1 <= w.from <= w.to <= total ==> WithinFile(Absorb(out, w), total)
  {
  }

  /** What the loop has merged so far: all of it, and still in order. */
  ghost predicate Merges(out: seq<Window>, done: seq<Window>) {
    && Separated(out) && (forall line :: Covers(out, line) <==> Covers(done, line))
    && (forall total :: WithinFile(done, total) ==> WithinFile(out, total))
    && (out != [] ==> done != [] && out[|out| - 1].from <= done[|done| - 1].from)
  }

  lemma MergesMore(out: seq<Window>, done: seq<Window>, w: Window)
    requires Merges(out, done) && (done != [] ==> NotAfter(done[|done| - 1], w))
    ensures Merges(Absorb(out, w), done + [w])
  {
    forall line ensures Covers(Absorb(out, w), line) <==> Covers(done + [w], line) {
      AbsorbLines(out, w, line);
      CoversAppend(done, w, line);
    }
    AbsorbKeeps(out, w, 0);
    forall total | WithinFile(done + [w], total) ensures WithinFile(Absorb(out, w), total) {
      assert forall k :: 0 <= k < |done| ==> done[k] == (done + [w])[k];
      assert (done + [w])[|done|] == w;
      AbsorbKeeps(out, w, total);
    }
  }

  /** _merge_windows */
  method MergeWindows(windows: seq<Window>) returns (out: seq<Window>)
    ensures forall line :: Covers(out, line) <==> Covers(windows, line)
    ensures Separated(out)
    ensures forall total :: WithinFile(windows, total) ==> WithinFile(out, total)
  {
    var sorted := Sorted(windows);
    SortedOrdered(windows);
    out := [];
    for i := 0 to |sorted|
      invariant Merges(out, sorted[..i])
    {
      var w := sorted[i];
      assert sorted[..i + 1] == sorted[..i] + [w];
      MergesMore(out, sorted[..i], w);
      if out != [] && w.from <= out[|out| - 1].to + 1 {
        var last := out[|out| - 1];
        out := out[..|out| - 1] + [Window(last.from, if w.to > last.to then w.to else last.to)];
      } else {
        out := out + [w];
      }
    }
    assert sorted[..|sorted|] == sorted;
    SortedIsSame(windows, sorted);
  }

  lemma SortedIsSame(windows: seq<Window>, sorted: seq<Window>)
    requires multiset(windows) == multiset(sorted)
    ensures forall line :: Covers(sorted, line) <==> Covers(windows, line)
    ensures forall total :: WithinFile(windows, total) ==> WithinFile(sorted, total)
  {
    forall line ensures Covers(sorted, line) <==> Covers(windows, line) { SameLines(sorted, windows, line); }
    forall total | WithinFile(windows, total) ensures WithinFile(sorted, total) { SortedWithin(windows, sorted, total); }
  }

  lemma SortedWithin(a: seq<Window>, b: seq<Window>, total: int)
    requires multiset(a) == multiset(b) && WithinFile(a, total)
    ensures WithinFile(b, total)
  {
    forall k | 0 <= k < |b| ensures 1 <= b[k].from <= b[k].to <= total { Found(b, a, k); }
  }

  // ----- the view of one file -----

  datatype Item = Row(line: int) | Gap(from: int, to: int) | Cut(from: int, to: int)

  function Clamped(w: Window, total: int): Window {
    Window(if w.from < 1 then 1 else w.from, if w.to > total then total else w.to)
  }

  function Contexts(ranges: seq<Window>, total: int): seq<Window> {
    seq(|ranges|, k requires 0 <= k < |ranges| =>
      Clamped(Window(ranges[k].from - CONTEXT_LINES, ranges[k].to + CONTEXT_LINES), total))
  }

  /** The extra windows that begin inside the file. */
  function Extras(extra: seq<Window>, total: int): seq<Window> {
    if extra == [] then []
    else (if extra[0].from <= total then [Clamped(extra[0], total)] else []) + Extras(extra[1..], total)
  }

  /** The lines a view is meant to show. */
  predicate Wanted(ranges: Option<seq<Window>>, extra: seq<Window>, total: int, line: int) {
    match ranges
    case None => 1 <= line <= total
    case Some(rs) => Covers(Contexts(rs, total) + Extras(extra, total), line)
  }

  /** Ranges name lines of the file, extra windows at least lines. */
  predicate SpansOk(ranges: Option<seq<Window>>, extra: seq<Window>, total: int) {
    && (ranges.Some? ==> WithinFile(ranges.value, total))
    && forall k :: 0 <= k < |extra| ==> 1 <= extra[k].from <= extra[k].to
  }

  lemma WithinConcat(a: seq<Window>, b: seq<Window>, total: int)
    requires WithinFile(a, total) && WithinFile(b, total)
    ensures WithinFile(a + b, total)
  {
  }

  lemma {:induction false} ExtrasWithin(extra: seq<Window>, total: int)
    requires forall k :: 0 <= k < |extra| ==> 1 <= extra[k].from <= extra[k].to
    ensures WithinFile(Extras(extra, total), total)
  {
    if extra != [] {
      ExtrasWithin(extra[1..], total);
      var first := if extra[0].from <= total then [Clamped(extra[0], total)] else [];
      var rest := Extras(extra[1..], total);
      WithinConcat(first, rest, total);
    }
  }

  predicate Focused(ranges: Option<seq<Window>>, line: int) {
    ranges.Some? && Covers(ranges.value, line)
  }

  function Pad(s: string): string
    decreases 5 - |s|
  {
    if |s| >= 5 then s else Pad(" " + s)
  }

  function RowText(lines: seq<string>, ranges: Option<seq<Window>>, line: int): string
    requires 1 <= line <= |lines|
  {
    (if Focused(ranges, line) then ">" else " ") + Pad(Decimal(line)) + "| " + lines[line - 1]
  }

  predicate Rows(items: seq<Item>, total: int) {
    forall k :: 0 <= k < |items| && items[k].Row? ==> 1 <= items[k].line <= total
  }

  /** The characters the rows take up, a line break each. */
  function Used(items: seq<Item>, lines: seq<string>, ranges: Option<seq<Window>>): nat
    requires Rows(items, |lines|)
  {
    if items == [] then 0
    else
      var last := items[|items| - 1];
      Used(items[..|items| - 1], lines, ranges)
      + if last.Row? then |RowText(lines, ranges, last.line)| + 1 else 0
  }

  /** Item by item the lines go by without a hole or an overlap: next is the line that follows. */
  ghost predicate Tiles(items: seq<Item>, next: int) {
    if items == [] then next == 1
    else
      var last := items[|items| - 1];
      First(last) <= LastLine(last) == next - 1 && Tiles(items[..|items| - 1], First(last))
  }

  /** The lines an item stands for; none for the mark of an empty file. */
  function First(item: Item): int {
    match item case Row(n) => n case Gap(a, _) => a case Cut(a, _) => a
  }

  function LastLine(item: Item): int {
    match item case Row(n) => n case Gap(_, b) => b case Cut(_, b) => b
  }

  /** What the items of a view say is true of the lines they stand for. */
  predicate Truthful(items: seq<Item>, ranges: Option<seq<Window>>, extra: seq<Window>, total: int) {
    forall k :: 0 <= k < |items| ==>
      IsTrue(items[k], k == |items| - 1, ranges, extra, total)
  }

  predicate IsTrue(item: Item, last: bool, ranges: Option<seq<Window>>, extra: seq<Window>, total: int) {
    match item
    case Row(n) => Wanted(ranges, extra, total, n)
    case Gap(a, b) => NoneWanted(ranges, extra, total, a, b)
    case Cut(a, b) => last && b == total && Wanted(ranges, extra, total, a)
  }

  predicate NoneWanted(ranges: Option<seq<Window>>, extra: seq<Window>, total: int, a: int, b: int) {
    forall n :: a <= n <= b ==> !Wanted(ranges, extra, total, n)
  }

  predicate NoCut(items: seq<Item>) {
    forall k :: 0 <= k < |items| ==> !items[k].Cut?
  }

  method ChooseWindows(ranges: Option<seq<Window>>, extra: seq<Window>, total: nat) returns (windows: seq<Window>)
    requires SpansOk(ranges, extra, total)
    ensures Separated(windows) && WithinFile(windows, total)
    ensures forall n :: Covers(windows, n) <==> Wanted(ranges, extra, total, n)
  {
    match ranges
    case None =>
      windows := if total > 0 then [Window(1, total)] else [];
      if total > 0 { assert forall n :: In(n, windows[0]) <==> 1 <= n <= total; }
    case Some(rs) =>
      var wins := Contexts(rs, total) + Extras(extra, total);
      ExtrasWithin(extra, total);
      assert WithinFile(Contexts(rs, total), total);
      windows := MergeWindows(wins);
  }

  lemma Grow(items: seq<Item>, item: Item, lines: seq<string>, ranges: Option<seq<Window>>)
    requires Rows(items, |lines|) && (item.Row? ==> 1 <= item.line <= |lines|)
    ensures Rows(items + [item], |lines|)
    ensures Used(items + [item], lines, ranges)
         == Used(items, lines, ranges) + if item.Row? then |RowText(lines, ranges, item.line)| + 1 else 0
    ensures Tiles(items, First(item)) && First(item) <= LastLine(item) ==> Tiles(items + [item], LastLine(item) + 1)
  {
    assert (items + [item])[..|items|] == items;
  }

  /** State of the loop over the windows: the first windows have been shown. */
  ghost predicate Shown(items: seq<Item>, next: int, used: int, limit: int, lines: seq<string>,
                        ranges: Option<seq<Window>>, extra: seq<Window>) {
    && Rows(items, |lines|) && Tiles(items, next)
    && used == Used(items, lines, ranges) && (used <= limit || used == 0)
    && Truthful(items, ranges, extra, |lines|) && NoCut(items)
  }

  lemma ShownMore(items: seq<Item>, item: Item, next: int, used: int, limit: int, lines: seq<string>,
                  ranges: Option<seq<Window>>, extra: seq<Window>)
    requires Shown(items, next, used, limit, lines, ranges, extra)
    requires item.Row? || item.Gap?
    requires item.Row? ==> item.line == next && 1 <= next <= |lines| && Wanted(ranges, extra, |lines|, next)
                           && used + |RowText(lines, ranges, next)| + 1 <= limit
    requires item.Gap? ==> item.from == next <= item.to && NoneWanted(ranges, extra, |lines|, item.from, item.to)
    ensures Shown(items + [item], if item.Row? then next + 1 else item.to + 1,
                  if item.Row? then used + |RowText(lines, ranges, next)| + 1 else used, limit, lines, ranges, extra)
  {
    Grow(items, item, lines, ranges);
  }

  /** Between two neighbouring windows nothing is wanted. */
  lemma BetweenWindows(windows: seq<Window>, i: nat, total: int, n: int)
    requires Separated(windows) && WithinFile(windows, total) && i <= |windows|
    requires (i == 0 || windows[i - 1].to < n) && (i == |windows| || n < windows[i].from)
    ensures !Covers(windows, n)
  {
    forall k | 0 <= k < |windows| ensures !In(n, windows[k]) {
      if k < i { InOrder(windows, k, i - 1, total); } else { InOrder(windows, i, k, total); }
    }
  }

  lemma {:induction false} InOrder(windows: seq<Window>, j: nat, k: nat, total: int)
    requires Separated(windows) && WithinFile(windows, total) && j <= k < |windows|
    ensures windows[j].from <= windows[k].from && windows[j].to <= windows[k].to
    decreases k - j
  {
    if j < k {
      InOrder(windows, j, k - 1, total);
      assert windows[k - 1].to + 1 < windows[k].from;
    }
  }

  lemma GapIsUnwanted(windows: seq<Window>, i: nat, from: int, to: int, ranges: Option<seq<Window>>,
                      extra: seq<Window>, total: int)
    requires Separated(windows) && WithinFile(windows, total) && i <= |windows|
    requires (i == 0 || windows[i - 1].to < from) && (i == |windows| || to < windows[i].from)
    requires forall n :: Covers(windows, n) <==> Wanted(ranges, extra, total, n)
    ensures NoneWanted(ranges, extra, total, from, to)
  {
    forall n | from <= n <= to ensures !Wanted(ranges, extra, total, n) { BetweenWindows(windows, i, total, n); }
  }

  /** The rows of one window, until one does not fit. */
  method ShowWindow(w: Window, lines: seq<string>, ranges: Option<seq<Window>>, ghost extra: seq<Window>, limit: int,
                    before: seq<Item>, usedBefore: int) returns (items: seq<Item>, used: int, cutAt: Option<int>)
    requires 1 <= w.from <= w.to <= |lines|
    requires Shown(before, w.from, usedBefore, limit, lines, ranges, extra)
    requires forall n :: In(n, w) ==> Wanted(ranges, extra, |lines|, n)
    ensures Shown(items, if cutAt.Some? then cutAt.value else w.to + 1, used, limit, lines, ranges, extra)
    ensures cutAt.Some? ==> In(cutAt.value, w) && used + |RowText(lines, ranges, cutAt.value)| + 1 > limit
  {
    items, used, cutAt := before, usedBefore, None;
    for n := w.from to w.to + 1
      invariant Shown(items, n, used, limit, lines, ranges, extra)
    {
      var row := RowText(lines, ranges, n);
      assert In(n, w);
      if used + |row| + 1 > limit { return items, used, Some(n); }
      ShownMore(items, Row(n), n, used, limit, lines, ranges, extra);
      items, used := items + [Row(n)], used + |row| + 1;
    }
  }

  /** A finished view: tiles the file, says the truth, keeps to the limit, and stops short only
      at a row that would not have fitted. */
  ghost predicate View(items: seq<Item>, limit: int, lines: seq<string>, ranges: Option<seq<Window>>, extra: seq<Window>) {
    && Rows(items, |lines|) && Tiles(items, |lines| + 1) && Truthful(items, ranges, extra, |lines|)
    && (Used(items, lines, ranges) <= limit || Used(items, lines, ranges) == 0)
    && forall k :: 0 <= k < |items| && items[k].Cut? ==>
         1 <= items[k].from <= |lines|
         && Used(items, lines, ranges) + |RowText(lines, ranges, items[k].from)| + 1 > limit
  }

  /** The body of _render_file. */
  method RenderItems(lines: seq<string>, ranges: Option<seq<Window>>, extra: seq<Window>, limit: int)
    returns (items: seq<Item>)
    requires SpansOk(ranges, extra, |lines|)
    ensures View(items, limit, lines, ranges, extra)
  {
    var total := |lines|;
    var windows := ChooseWindows(ranges, extra, total);
    items := [];
    var used := 0;
    var prevEnd := 0;
    for i := 0 to |windows|
      invariant prevEnd == if i == 0 then 0 else windows[i - 1].to
      invariant Shown(items, prevEnd + 1, used, limit, lines, ranges, extra)
    {
      var w := windows[i];
      if w.from > prevEnd + 1 {
        GapIsUnwanted(windows, i, prevEnd + 1, w.from - 1, ranges, extra, total);
        ShownMore(items, Gap(prevEnd + 1, w.from - 1), prevEnd + 1, used, limit, lines, ranges, extra);
        items := items + [Gap(prevEnd + 1, w.from - 1)];
      }
      WindowIsWanted(windows, i, ranges, extra, total);
      var cutAt;
      items, used, cutAt := ShowWindow(w, lines, ranges, extra, limit, items, used);
      if cutAt.Some? {
        CutEnds(items, cutAt.value, used, limit, lines, ranges, extra);
        items := items + [Cut(cutAt.value, total)];
        return;
      }
      prevEnd := w.to;
    }
    if prevEnd < total {
      GapIsUnwanted(windows, |windows|, prevEnd + 1, total, ranges, extra, total);
      ShownMore(items, Gap(prevEnd + 1, total), prevEnd + 1, used, limit, lines, ranges, extra);
      items := items + [Gap(prevEnd + 1, total)];
    }
  }

  lemma WindowIsWanted(windows: seq<Window>, i: nat, ranges: Option<seq<Window>>, extra: seq<Window>, total: int)
    requires i < |windows| && forall n :: Covers(windows, n) <==> Wanted(ranges, extra, total, n)
    ensures forall n :: In(n, windows[i]) ==> Wanted(ranges, extra, total, n)
  {
  }

  lemma CutEnds(items: seq<Item>, cutAt: int, used: int, limit: int, lines: seq<string>,
                ranges: Option<seq<Window>>, extra: seq<Window>)
    requires Shown(items, cutAt, used, limit, lines, ranges, extra)
    requires 1 <= cutAt <= |lines| && Wanted(ranges, extra, |lines|, cutAt)
    requires used + |RowText(lines, ranges, cutAt)| + 1 > limit
    ensures View(items + [Cut(cutAt, |lines|)], limit, lines, ranges, extra)
  {
    Grow(items, Cut(cutAt, |lines|), lines, ranges);
  }

  // ----- what tiling means, line by line -----

  predicate StandsFor(item: Item, n: int) {
    First(item) <= n <= LastLine(item)
  }

  lemma {:induction false} TilesCover(items: seq<Item>, next: int, n: int)
    requires Tiles(items, next) && 1 <= n < next
    ensures exists k :: 0 <= k < |items| && StandsFor(items[k], n)
    ensures forall j, k :: 0 <= j < k < |items| ==> !(StandsFor(items[j], n) && StandsFor(items[k], n))
    decreases |items|
  {
    var before, last := items[..|items| - 1], items[|items| - 1];
    var start := First(last);
    TilesBelow(before, start, n);
    if n < start {
      TilesCover(before, start, n);
      var k :| 0 <= k < |before| && StandsFor(before[k], n);
      assert StandsFor(items[k], n);
      forall j, k | 0 <= j < k < |items| ensures !(StandsFor(items[j], n) && StandsFor(items[k], n)) {
        if k < |before| { assert items[j] == before[j] && items[k] == before[k]; }
      }
    } else {
      assert StandsFor(items[|items| - 1], n);
      forall j, k | 0 <= j < k < |items| ensures !(StandsFor(items[j], n) && StandsFor(items[k], n)) {
        assert items[j] == before[j];
      }
    }
  }

  lemma {:induction false} TilesBelow(items: seq<Item>, next: int, n: int)
    requires Tiles(items, next)
    ensures next >= 1 && (n >= next ==> forall k :: 0 <= k < |items| ==> !StandsFor(items[k], n))
    decreases |items|
  {
    if items != [] {
      var before, last := items[..|items| - 1], items[|items| - 1];
      TilesBelow(before, First(last), n);
      forall k | n >= next && 0 <= k < |items| ensures !StandsFor(items[k], n) {
        if k < |before| { assert items[k] == before[k]; }
      }
    }
  }

  /** Every line of the file is shown once or lies in exactly one marker; without a size cut
      the shown lines are the wanted ones. */
  lemma ViewAccountsForLine(items: seq<Item>, limit: int, lines: seq<string>, ranges: Option<seq<Window>>,
                            extra: seq<Window>, n: int)
    requires View(items, limit, lines, ranges, extra) && 1 <= n <= |lines|
    ensures exists k :: 0 <= k < |items| && StandsFor(items[k], n)
    ensures forall j, k :: 0 <= j < k < |items| ==> !(StandsFor(items[j], n) && StandsFor(items[k], n))
    ensures NoCut(items) ==> (Row(n) in items <==> Wanted(ranges, extra, |lines|, n))
  {
    TilesCover(items, |lines| + 1, n);
    var k :| 0 <= k < |items| && StandsFor(items[k], n);
    if items[k].Row? { assert items[k] == Row(n); }
    if m :| 0 <= m < |items| && items[m] == Row(n) { assert Wanted(ranges, extra, |lines|, n); }
  }
}
