/** The pool of fixer workers, which finish in any order. */
module FixerPool {
  // Models backend/agents/fixer_pool.py: how the modules are split, what a worker returns, and
  // what is collected from them.

  import opened Basics

  /** A value a model's answer may hold where text is expected: text, or any other JSON value. */
  datatype Json = Text(text: string) | NonText(value: string)

  /** A module as stored or answered; a missing language counts as python. */
  datatype Entry = Entry(language: Option<Json>, code: Json)

  type Submitted = seq<(string, Entry)>

  /** What ast.parse makes of a text. */
  datatype Verdict = Parses | SyntaxError | Raises

  type Parser = string -> Verdict

  /** What a worker's answer holds for one module name. */
  datatype Raw = Shaped(entry: Entry) | Bare(code: string) | Other

  /** How a worker's call ended: both providers failed, something nobody catches was raised, the
      answer was no JSON object, or answers by module name and a vote for the next destination. */
  datatype Outcome = Failed | Broken | Unreadable | Answered(answers: map<string, Raw>, vote: Option<string>)

  /** A value, or an exception. */
  datatype Attempt<T> = Value(value: T) | Raised

  datatype Result = MissingDependency | NoWorkers | Crashed | Pool(fixedCode: map<string, Entry>, next: Option<string>)

  // ----- the split -----

  predicate DistinctNames(s: Submitted) {
    forall i, j :: 0 <= i < j < |s| ==> s[i].0 != s[j].0
  }

  /** The modules at every n-th position from b on. */
  function Bucket(s: Submitted, n: nat, b: nat): (m: map<string, Entry>)
    requires n > 0
    ensures forall name :: name in m ==> exists i :: 0 <= i < |s| && i % n == b && s[i].0 == name
  {
    if s == [] then map[]
    else
      var last := |s| - 1;
      var before := Bucket(s[..last], n, b);
      if last % n == b then before[s[last].0 := s[last].1] else before
  }

  /** _partition_modules */
  method Partition(s: Submitted, n: nat) returns (buckets: seq<map<string, Entry>>)
    requires n > 0
    ensures |buckets| == n && forall b :: 0 <= b < n ==> buckets[b] == Bucket(s, n, b)
  {
    buckets := seq(n, _ => map[]);
    for i := 0 to |s|
      invariant |buckets| == n && forall b :: 0 <= b < n ==> buckets[b] == Bucket(s[..i], n, b)
    {
      assert s[..i + 1][..i] == s[..i];
      buckets := buckets[i % n := buckets[i % n][s[i].0 := s[i].1]];
    }
    assert s[..|s|] == s;
  }

  lemma NameIsNew(s: Submitted, n: nat, b: nat)
    requires n > 0 && DistinctNames(s) && s != []
    ensures s[|s| - 1].0 !in Bucket(s[..|s| - 1], n, b)
  {
    var init := s[..|s| - 1];
    forall i | 0 <= i < |init| ensures init[i].0 != s[|s| - 1].0 { assert init[i] == s[i]; }
  }

  lemma {:induction false} BucketHas(s: Submitted, n: nat, b: nat, i: nat)
    requires n > 0 && DistinctNames(s) && i < |s|
    ensures s[i].0 in Bucket(s, n, b) <==> i % n == b
    ensures i % n == b ==> Bucket(s, n, b)[s[i].0] == s[i].1
  {
    var last := |s| - 1;
    var init := s[..last];
    if i < last {
      BucketHas(init, n, b, i);
      assert init[i] == s[i] && s[i].0 != s[last].0;
    } else {
      NameIsNew(s, n, b);
    }
  }

  /** No module is in two buckets. */
  lemma BucketsDisjoint(s: Submitted, n: nat, a: nat, b: nat)
    requires n > 0 && DistinctNames(s) && a != b
    ensures Bucket(s, n, a).Keys !! Bucket(s, n, b).Keys
  {
    forall name | name in Bucket(s, n, a) ensures name !in Bucket(s, n, b) {
      var i :| 0 <= i < |s| && i % n == a && s[i].0 == name;
      BucketHas(s, n, b, i);
    }
  }

  lemma DivStep(k: nat, n: nat)
    requires n > 0
    ensures if k % n + 1 < n then (k + 1) % n == k % n + 1 && (k + 1) / n == k / n
            else (k + 1) % n == 0 && (k + 1) / n == k / n + 1
  {
    var q, r := k / n, k % n;
    assert k == q * n + r;
    if r + 1 < n {
      DivIs(k + 1, n, q, r + 1);
    } else {
      assert k + 1 == (q + 1) * n + 0;
      DivIs(k + 1, n, q + 1, 0);
    }
  }

  lemma DivIs(k: nat, n: nat, q: nat, r: nat)
    requires n > 0 && k == q * n + r && r < n
    ensures k / n == q && k % n == r
  {
    var q', r' := k / n, k % n;
    assert k == q' * n + r';
    assert (q - q') * n == q * n - q' * n;
    MulSmall(q - q', n);
  }

  lemma MulSmall(d: int, n: nat)
    requires n > 0 && 0 - n < d * n < n
    ensures d == 0
  {
    if d >= 1 { MulGrows(d, n); }
    if d <= -1 { MulGrows(-d, n); }
  }

  lemma MulGrows(d: int, n: nat)
    requires d >= 1
    ensures d * n >= n && (-d) * n == -(d * n)
  {
    assert (d - 1) * n >= 0;
  }

  function Share(k: nat, n: nat, b: nat): nat
    requires n > 0
  {
    k / n + if b < k % n then 1 else 0
  }

  /** Every worker gets its share, so two workers differ by at most one module. */
  lemma {:induction false} BucketSize(s: Submitted, n: nat, b: nat)
    requires n > 0 && DistinctNames(s) && b < n
    ensures |Bucket(s, n, b)| == Share(|s|, n, b)
  {
    if s == [] {
      DivIs(0, n, 0, 0);
    } else {
      var last := |s| - 1;
      BucketSize(s[..last], n, b);
      DivStep(last, n);
      if last % n == b {
        var before := Bucket(s[..last], n, b);
        NameIsNew(s, n, b);
        assert before[s[last].0 := s[last].1].Keys == before.Keys + {s[last].0};
      }
    }
  }

  lemma BucketsEven(s: Submitted, n: nat, a: nat, b: nat)
    requires n > 0 && DistinctNames(s) && a < n && b < n
    ensures -1 <= |Bucket(s, n, a)| - |Bucket(s, n, b)| <= 1
    ensures n <= |s| ==> Bucket(s, n, a) != map[]
  {
    BucketSize(s, n, a);
    BucketSize(s, n, b);
    if n <= |s| { SharePositive(|s|, n); }
  }

  lemma SharePositive(k: nat, n: nat)
    requires 0 < n <= k
    ensures k / n >= 1
  {
    var q, r := k / n, k % n;
    assert k == q * n + r;
    assert q == 0 ==> q * n == 0;
  }

  // ----- one worker -----

  predicate IsPython(e: Entry) {
    e.language == None || e.language == Some(Text("python"))
  }

  /** ast.parse takes text and raises a TypeError on anything else. */
  function Parse(code: Json, parser: Parser): Verdict {
    match code
    case Text(text) => parser(text)
    case NonText(_) => Raises
  }

  /** The entry an answer proposes for a module, if it has a shape that is understood. */
  function Proposed(raw: Raw, original: Entry): Option<Entry> {
    match raw
    case Other => None
    case Shaped(e) => Some(e)
    case Bare(code) =>
      Some(Entry(if original.language.Some? then original.language else Some(Text("python")), Text(code)))
  }

  /** _normalize_entry, which catches a SyntaxError and nothing else */
  function Normalized(raw: Raw, original: Entry, parser: Parser): Attempt<Entry> {
    match Proposed(raw, original)
    case None => Value(original)
    case Some(e) =>
      if !IsPython(e) then Value(e)
      else match Parse(e.code, parser)
        case Parses => Value(e)
        case SyntaxError => Value(original)
        case Raises => Raised
  }

  /** What becomes of one module in the hands of a worker. */
  function Fix(o: Outcome, name: string, original: Entry, parser: Parser): Attempt<Entry> {
    if o.Broken? then Raised
    else if o.Answered? && name in o.answers then Normalized(o.answers[name], original, parser)
    else Value(original)
  }

  function Vote(o: Outcome, bucket: map<string, Entry>): Option<string> {
    if o.Answered? && bucket != map[] then o.vote else None
  }

  /** No fix is lost and none is invented: a module is the original, or what its worker answered,
      and then it is not Python that does not parse. */
  lemma FixIsSafe(o: Outcome, name: string, original: Entry, parser: Parser)
    requires Fix(o, name, original, parser).Value?
    ensures var e := Fix(o, name, original, parser).value;
      e == original
      || (o.Answered? && name in o.answers
          && (o.answers[name] == Shaped(e) || (e.code.Text? && o.answers[name] == Bare(e.code.text)))
          && (IsPython(e) ==> e.code.Text? && parser(e.code.text) == Parses))
  {
  }

  /** A worker comes to grief over a module only if its call did, or over an entry labelled as
      Python whose code is no text, or is text on which the parser raises something of its own. */
  lemma RaisesExactly(o: Outcome, name: string, original: Entry, parser: Parser)
    ensures Fix(o, name, original, parser).Raised? <==>
      || o.Broken?
      || (o.Answered? && name in o.answers && Proposed(o.answers[name], original).Some?
          && var e := Proposed(o.answers[name], original).value;
             IsPython(e) && (e.code.Text? ==> parser(e.code.text) == Raises))
  {
  }

  /** _run_one_worker: the names in its answer are those it was given, unless it raises. */
  method RunOneWorker(modules: map<string, Entry>, o: Outcome, parser: Parser)
    returns (r: Attempt<(map<string, Entry>, Option<string>)>)
    ensures r.Raised? <==> exists name :: name in modules && Fix(o, name, modules[name], parser).Raised?
    ensures r.Value? ==> r.value.0.Keys == modules.Keys && r.value.1 == Vote(o, modules)
    ensures r.Value? ==>
      forall name :: name in modules ==> Fix(o, name, modules[name], parser) == Value(r.value.0[name])
  {
    if modules == map[] { return Value((map[], None)); }
    match o
    case Failed => return Value((modules, None));
    case Broken =>
      var name :| name in modules;
      assert Fix(o, name, modules[name], parser).Raised?;
      return Raised;
    case Unreadable => return Value((modules, None));
    case Answered(answers, next) =>
      var result: map<string, Entry> := map[];
      var todo := modules.Keys;
      while todo != {}
        invariant todo <= modules.Keys && result.Keys == modules.Keys - todo
        invariant forall name :: name in result ==> Fix(o, name, modules[name], parser) == Value(result[name])
        decreases |todo|
      {
        var name :| name in todo;
        var fixedEntry := if name in answers then Normalized(answers[name], modules[name], parser) else Value(modules[name]);
        if fixedEntry.Raised? { return Raised; }
        result := result[name := fixedEntry.value];
        todo := todo - {name};
      }
      r := Value((result, next));
  }

  // ----- the votes -----

  predicate Truthy(v: Option<string>) {
    v.Some? && v.value != ""
  }

  /** _merge_next_destinations: the vote of the lowest worker that has one. */
  method MergeNextDestinations(votes: seq<Option<string>>) returns (next: Option<string>)
    ensures next == None <==> forall i :: 0 <= i < |votes| ==> !Truthy(votes[i])
    ensures next.Some? ==> exists i :: 0 <= i < |votes| && IsFirst(votes, i) && next == votes[i]
  {
    for i := 0 to |votes|
      invariant forall k :: 0 <= k < i ==> !Truthy(votes[k])
    {
      if Truthy(votes[i]) {
        assert IsFirst(votes, i);
        return votes[i];
      }
    }
    next := None;
  }

  predicate IsFirst(votes: seq<Option<string>>, i: nat) {
    i < |votes| && Truthy(votes[i]) && forall k :: 0 <= k < i ==> !Truthy(votes[k])
  }

  // ----- the pool -----

  /** Some order in which all workers finish. */
  ghost predicate IsOrder(order: seq<nat>, n: nat) {
    |order| == n && (forall k :: 0 <= k < n ==> order[k] < n) && NoRepeats(order)
  }

  function Below(n: nat): (r: set<nat>)
    ensures |r| == n && forall k :: k in r <==> 0 <= k < n
  {
    if n == 0 then {} else Below(n - 1) + {n - 1}
  }

  lemma OrderCovers(order: seq<nat>, n: nat, i: nat)
    requires IsOrder(order, n) && i < n
    ensures i in order
  {
    ElementsCount(order);
    assert forall k :: k in Elements(order) ==> k in Below(n);
    SubsetSize(Elements(order), Below(n));
    assert i in Elements(order);
  }

  /** What its worker makes of the i-th module. */
  function FixAt(s: Submitted, n: nat, outcomes: seq<Outcome>, parser: Parser, i: nat): Attempt<Entry>
    requires n > 0 && |outcomes| == n && i < |s|
  {
    Fix(outcomes[i % n], s[i].0, s[i].1, parser)
  }

  /** Some worker raises over one of its modules. */
  ghost predicate SomeRaises(s: Submitted, n: nat, outcomes: seq<Outcome>, parser: Parser)
    requires n > 0 && |outcomes| == n
  {
    exists i :: 0 <= i < |s| && FixAt(s, n, outcomes, parser, i).Raised?
  }

  /** The map holds exactly the modules of the workers in done, each as its worker returned it. */
  ghost predicate Collected(got: map<string, Entry>, s: Submitted, n: nat, outcomes: seq<Outcome>, done: set<nat>,
                            parser: Parser)
    requires n > 0 && |outcomes| == n
  {
    && (forall name :: name in got ==> exists i :: 0 <= i < |s| && s[i].0 == name)
    && forall i :: 0 <= i < |s| ==> Has(got, s, n, outcomes, done, parser, i)
  }

  ghost predicate Has(got: map<string, Entry>, s: Submitted, n: nat, outcomes: seq<Outcome>, done: set<nat>,
                      parser: Parser, i: nat)
    requires n > 0 && |outcomes| == n && i < |s|
  {
    && (s[i].0 in got <==> i % n in done)
    && (i % n in done ==> FixAt(s, n, outcomes, parser, i) == Value(got[s[i].0]))
  }

  lemma CollectMore(got: map<string, Entry>, s: Submitted, n: nat, outcomes: seq<Outcome>, done: set<nat>,
                    parser: Parser, w: nat, more: map<string, Entry>)
    requires n > 0 && |outcomes| == n && DistinctNames(s) && w < n && w !in done
    requires Collected(got, s, n, outcomes, done, parser)
    requires more.Keys == Bucket(s, n, w).Keys
    requires forall name :: name in more ==> Fix(outcomes[w], name, Bucket(s, n, w)[name], parser) == Value(more[name])
    ensures Collected(got + more, s, n, outcomes, done + {w}, parser)
  {
    forall i | 0 <= i < |s| ensures Has(got + more, s, n, outcomes, done + {w}, parser, i) {
      BucketHas(s, n, w, i);
      assert Has(got, s, n, outcomes, done, parser, i);
    }
  }

  lemma RaisedThere(s: Submitted, n: nat, outcomes: seq<Outcome>, parser: Parser, w: nat, name: string)
    requires n > 0 && |outcomes| == n && DistinctNames(s) && w < n
    requires name in Bucket(s, n, w) && Fix(outcomes[w], name, Bucket(s, n, w)[name], parser).Raised?
    ensures SomeRaises(s, n, outcomes, parser)
  {
    var i :| 0 <= i < |s| && i % n == w && s[i].0 == name;
    BucketHas(s, n, w, i);
    assert FixAt(s, n, outcomes, parser, i).Raised?;
  }

  /** Every module submitted, as its worker returned it. */
  ghost predicate IsFixed(m: map<string, Entry>, s: Submitted, n: nat, outcomes: seq<Outcome>, parser: Parser)
    requires n > 0 && |outcomes| == n
  {
    && (forall name :: name in m ==> exists i :: 0 <= i < |s| && s[i].0 == name)
    && forall i :: 0 <= i < |s| ==> s[i].0 in m && FixAt(s, n, outcomes, parser, i) == Value(m[s[i].0])
  }

  lemma CollectedAll(got: map<string, Entry>, s: Submitted, n: nat, outcomes: seq<Outcome>, done: set<nat>,
                     parser: Parser)
    requires n > 0 && |outcomes| == n && Collected(got, s, n, outcomes, done, parser)
    requires forall w :: 0 <= w < n ==> w in done
    ensures IsFixed(got, s, n, outcomes, parser) && !SomeRaises(s, n, outcomes, parser)
  {
    forall i | 0 <= i < |s|
      ensures s[i].0 in got && FixAt(s, n, outcomes, parser, i) == Value(got[s[i].0]) {
      assert Has(got, s, n, outcomes, done, parser, i);
    }
  }

  /** There is at most one such map, whatever the order. */
  lemma FixedIsUnique(a: map<string, Entry>, b: map<string, Entry>, s: Submitted, n: nat, outcomes: seq<Outcome>,
                      parser: Parser)
    requires n > 0 && |outcomes| == n
    requires IsFixed(a, s, n, outcomes, parser) && IsFixed(b, s, n, outcomes, parser)
    ensures a == b
  {
    forall name | name in a || name in b ensures name in a && name in b && a[name] == b[name] {
      var i :| 0 <= i < |s| && s[i].0 == name;
      assert FixAt(s, n, outcomes, parser, i) == Value(a[s[i].0]) == Value(b[s[i].0]);
    }
  }

  function WorkerCount(s: Submitted, keys: nat): nat {
    var modules := if |s| > 1 then |s| else 1;
    if keys < modules then keys else modules
  }

  function VoteOf(s: Submitted, n: nat, outcomes: seq<Outcome>, w: nat): Option<string>
    requires n > 0 && |outcomes| == n && w < n
  {
    Vote(outcomes[w], Bucket(s, n, w))
  }

  function Votes(s: Submitted, n: nat, outcomes: seq<Outcome>): seq<Option<string>>
    requires n > 0 && |outcomes| == n
  {
    seq(n, w requires 0 <= w < n => VoteOf(s, n, outcomes, w))
  }

  /** run_fixer_pool, for workers that finish in the given order. The result does not depend on it. */
  method RunFixerPool(s: Submitted, keys: nat, outcomes: seq<Outcome>, order: seq<nat>, parser: Parser)
    returns (r: Result)
    requires DistinctNames(s)
    requires |outcomes| == WorkerCount(s, keys) && IsOrder(order, WorkerCount(s, keys))
    ensures r.MissingDependency? <==> s == []
    ensures r.NoWorkers? <==> s != [] && keys == 0
    ensures s != [] && keys > 0 ==> (r.Crashed? <==> SomeRaises(s, WorkerCount(s, keys), outcomes, parser))
    ensures r.Pool? ==>
      var n := WorkerCount(s, keys);
      && n > 0 && IsFixed(r.fixedCode, s, n, outcomes, parser)
      && (r.next == None <==> forall w :: 0 <= w < n ==> !Truthy(VoteOf(s, n, outcomes, w)))
      && (r.next.Some? ==>
            exists w :: 0 <= w < n && IsFirst(Votes(s, n, outcomes), w) && r.next == VoteOf(s, n, outcomes, w))
  {
    if s == [] { return MissingDependency; }
    var n := WorkerCount(s, keys);
    if n == 0 { return NoWorkers; }
    var buckets := Partition(s, n);
    var fixedCode: map<string, Entry> := map[];
    var nextVotes: seq<Option<string>> := seq(n, _ => None);
    ghost var done: set<nat> := {};
    for k := 0 to n
      invariant |nextVotes| == n && done == set j | 0 <= j < k :: order[j]
      invariant Collected(fixedCode, s, n, outcomes, done, parser)
      invariant forall w :: 0 <= w < n ==> nextVotes[w] == if w in done then VoteOf(s, n, outcomes, w) else None
    {
      var i := order[k];
      var answer := RunOneWorker(buckets[i], outcomes[i], parser);
      if answer.Raised? {
        var name :| name in buckets[i] && Fix(outcomes[i], name, buckets[i][name], parser).Raised?;
        RaisedThere(s, n, outcomes, parser, i, name);
        return Crashed;
      }
      CollectMore(fixedCode, s, n, outcomes, done, parser, i, answer.value.0);
      fixedCode := fixedCode + answer.value.0;
      nextVotes := nextVotes[i := answer.value.1];
      done := done + {i};
    }
    forall w | 0 <= w < n ensures w in done { OrderCovers(order, n, w); }
    CollectedAll(fixedCode, s, n, outcomes, done, parser);
    var next := MergeNextDestinations(nextVotes);
    assert nextVotes == Votes(s, n, outcomes);
    r := Pool(fixedCode, next);
  }

  /** A worker whose answer is `{"a": {"language": "python", "code": null}}` loses the pool its
      results, whatever the parser, though the other worker's answer is a fix. */
  lemma OneEntryLosesThePool(a: Entry, b: Entry, better: Entry, parser: Parser)
    requires IsPython(better) ==> better.code.Text? && parser(better.code.text) == Parses
    ensures var s := [("a", a), ("b", b)];
      var outcomes := [Answered(map["a" := Shaped(Entry(Some(Text("python")), NonText("null")))], None),
                       Answered(map["b" := Shaped(better)], None)];
      && WorkerCount(s, 2) == 2 && FixAt(s, 2, outcomes, parser, 1) == Value(better)
      && SomeRaises(s, 2, outcomes, parser)
  {
    var s := [("a", a), ("b", b)];
    var outcomes := [Answered(map["a" := Shaped(Entry(Some(Text("python")), NonText("null")))], None),
                     Answered(map["b" := Shaped(better)], None)];
    assert FixAt(s, 2, outcomes, parser, 0).Raised?;
  }
}
