/** What happens to the document when a source is deleted
    (backend/agents/backlink_detector.py, cleanup_for_removed_source). */
module TopicCleanup {
  import opened Basics
  import opened TopicStore

  predicate Touches(c: Connection, removed: set<Id>) {
    c.source in removed || c.target in removed
  }

  function Untouched(cs: seq<Connection>, removed: set<Id>): (r: seq<Connection>)
    ensures forall c :: c in r <==> c in cs && !Touches(c, removed)
  {
    if cs == [] then []
    else
      var r := Untouched(cs[..|cs| - 1], removed);
      var c := cs[|cs| - 1];
      assert cs == cs[..|cs| - 1] + [c];
      if Touches(c, removed) then r else r + [c]
  }

  // ----- removing by position, from the back -----

  /** Positions in falling order, all below n. */
  predicate Falling(at: seq<nat>, n: nat) {
    at == [] || (at[0] < n && Falling(at[1..], at[0]))
  }

  function Without(cs: seq<Connection>, at: seq<nat>): seq<Connection>
    requires Falling(at, |cs|)
  {
    if at == [] then cs
    else
      FallingLess(at[1..], at[0], |cs| - 1);
      Without(cs[..at[0]] + cs[at[0] + 1..], at[1..])
  }

  lemma FallingLess(at: seq<nat>, m: nat, n: nat)
    requires Falling(at, m) && m <= n
    ensures Falling(at, n)
  {
  }

  /** Elements behind all the positions stay where they are relative to the end. */
  lemma {:induction false} BehindStays(a: seq<Connection>, b: seq<Connection>, at: seq<nat>)
    requires Falling(at, |a|)
    ensures Falling(at, |a + b|) && Without(a + b, at) == Without(a, at) + b
    decreases |at|
  {
    FallingLess(at, |a|, |a + b|);
    if at != [] {
      var i := at[0];
      FallingLess(at[1..], i, |a| - 1);
      FallingLess(at[1..], i, |a + b| - 1);
      CutInFront(a, b, i);
      BehindStays(a[..i] + a[i + 1..], b, at[1..]);
    }
  }

  lemma CutInFront(a: seq<Connection>, b: seq<Connection>, i: nat)
    requires i < |a|
    ensures (a + b)[..i] + (a + b)[i + 1..] == a[..i] + a[i + 1..] + b
  {
  }

  /** The positions of the touching connections, last one first. */
  function Stale(cs: seq<Connection>, removed: set<Id>): (at: seq<nat>)
    ensures Falling(at, |cs|)
  {
    if cs == [] then []
    else
      var n := |cs| - 1;
      var rest := Stale(cs[..n], removed);
      FallingLess(rest, n, n + 1);
      if Touches(cs[n], removed) then [n] + rest else rest
  }

  /** Removing those positions from the list they were computed from is filtering it. */
  lemma {:induction false} RemovingIsFiltering(cs: seq<Connection>, removed: set<Id>)
    ensures Without(cs, Stale(cs, removed)) == Untouched(cs, removed)
  {
    if cs != [] {
      var n := |cs| - 1;
      var init, last := cs[..n], cs[n];
      assert cs == init + [last];
      RemovingIsFiltering(init, removed);
      BehindStays(init, [last], Stale(init, removed));
      if Touches(last, removed) {
        assert cs[..n] + cs[n + 1..] == init;
        assert ([n] + Stale(init, removed))[1..] == Stale(init, removed);
      }
    }
  }

  // ----- the stored list may hold dangling connections the read list does not show -----

  predicate NoneDangling(cs: seq<Connection>, topics: map<Id, Topic>) {
    forall i :: 0 <= i < |cs| ==> !Dangling(cs[i], topics)
  }

  predicate NoneTouches(cs: seq<Connection>, removed: set<Id>) {
    forall i :: 0 <= i < |cs| ==> !Touches(cs[i], removed)
  }

  lemma {:induction false} ResolvedAll(cs: seq<Connection>, topics: map<Id, Topic>)
    requires NoneDangling(cs, topics)
    ensures Resolved(cs, topics) == cs
  {
    if cs != [] {
      ResolvedAll(cs[..|cs| - 1], topics);
      assert cs == cs[..|cs| - 1] + [cs[|cs| - 1]];
    }
  }

  lemma {:induction false} StaleInFront(a: seq<Connection>, b: seq<Connection>, removed: set<Id>)
    requires NoneTouches(b, removed)
    ensures Stale(a + b, removed) == Stale(a, removed)
  {
    if b == [] {
      assert a + b == a;
    } else {
      var n := |b| - 1;
      assert (a + b)[..|a + b| - 1] == a + b[..n];
      StaleInFront(a, b[..n], removed);
    }
  }

  lemma {:induction false} UntouchedAppend(a: seq<Connection>, b: seq<Connection>, removed: set<Id>)
    requires NoneTouches(b, removed)
    ensures Untouched(a + b, removed) == Untouched(a, removed) + b
  {
    if b == [] {
      assert a + b == a;
    } else {
      var n := |b| - 1;
      assert (a + b)[..|a + b| - 1] == a + b[..n];
      UntouchedAppend(a, b[..n], removed);
      assert b == b[..n] + [b[n]];
    }
  }

  /** How much of a list matters: everything up to its last touching connection. */
  function Reach(cs: seq<Connection>, removed: set<Id>): (n: nat)
    ensures n <= |cs| && NoneTouches(cs[n..], removed)
    ensures n > 0 ==> Touches(cs[n - 1], removed)
  {
    if cs == [] then 0
    else if Touches(cs[|cs| - 1], removed) then |cs|
    else
      var init := cs[..|cs| - 1];
      var n := Reach(init, removed);
      assert forall i :: n <= i < |init| ==> cs[i] == init[n..][i - n];
      n
  }

  /** What the patch leaves of the stored list, its positions taken from the read list. */
  function Left(cs: seq<Connection>, topics: map<Id, Topic>, removed: set<Id>): seq<Connection> {
    FallingLess(Stale(Resolved(cs, topics), removed), |Resolved(cs, topics)|, |cs|);
    Without(cs, Stale(Resolved(cs, topics), removed))
  }

  /** Only connections within reach give positions. */
  lemma StaleWithinReach(cs: seq<Connection>, topics: map<Id, Topic>, removed: set<Id>)
    ensures Stale(Resolved(cs, topics), removed) == Stale(Resolved(cs[..Reach(cs, removed)], topics), removed)
  {
    var n := Reach(cs, removed);
    var a, b := cs[..n], cs[n..];
    assert cs == a + b;
    ResolvedAppend(a, b, topics);
    var shown := Resolved(b, topics);
    forall i | 0 <= i < |shown| ensures !Touches(shown[i], removed) { assert shown[i] in b; }
    StaleInFront(Resolved(a, topics), shown, removed);
  }

  /** Nothing dangles up to the last touching connection: then the right ones go. */
  lemma LeftIsFiltered(cs: seq<Connection>, topics: map<Id, Topic>, removed: set<Id>)
    requires NoneDangling(cs[..Reach(cs, removed)], topics)
    ensures Left(cs, topics, removed) == Untouched(cs, removed)
  {
    var n := Reach(cs, removed);
    var a, b := cs[..n], cs[n..];
    assert cs == a + b;
    ResolvedAll(a, topics);
    StaleWithinReach(cs, topics, removed);
    BehindStays(a, b, Stale(a, removed));
    RemovingIsFiltering(a, removed);
    UntouchedAppend(a, b, removed);
  }

  lemma {:induction false} SomeDangling(cs: seq<Connection>, topics: map<Id, Topic>)
    requires !NoneDangling(cs, topics)
    ensures |Resolved(cs, topics)| < |cs|
  {
    if !Dangling(cs[|cs| - 1], topics) {
      assert !NoneDangling(cs[..|cs| - 1], topics);
      SomeDangling(cs[..|cs| - 1], topics);
    }
  }

  /** Otherwise the last touching connection survives, as one that dangles from now on. */
  lemma LastTouchingStays(cs: seq<Connection>, topics: map<Id, Topic>, removed: set<Id>)
    requires !NoneDangling(cs[..Reach(cs, removed)], topics)
    ensures cs[Reach(cs, removed) - 1] in Left(cs, topics, removed)
  {
    var n := Reach(cs, removed);
    var front := Resolved(cs[..n], topics);
    StaleWithinReach(cs, topics, removed);
    SomeDangling(cs[..n], topics);
    var at := Stale(front, removed);
    FallingLess(at, |front|, n - 1);
    assert cs == cs[..n - 1] + cs[n - 1..];
    BehindStays(cs[..n - 1], cs[n - 1..], at);
    StaysBehind(Without(cs[..n - 1], at), cs[n - 1..]);
  }

  lemma StaysBehind(a: seq<Connection>, b: seq<Connection>)
    requires b != []
    ensures b[0] in a + b
  {
    assert (a + b)[|a|] == b[0];
  }

  /** The connections of the removed topics are gone exactly if nothing dangled up to the last
      of them; and then nothing else is gone, and the order is kept. */
  lemma CleanupExactly(cs: seq<Connection>, topics: map<Id, Topic>, removed: set<Id>)
    ensures NoneTouches(Left(cs, topics, removed), removed) <==> NoneDangling(cs[..Reach(cs, removed)], topics)
    ensures NoneDangling(cs[..Reach(cs, removed)], topics) <==> Left(cs, topics, removed) == Untouched(cs, removed)
  {
    var left := Left(cs, topics, removed);
    if NoneDangling(cs[..Reach(cs, removed)], topics) {
      LeftIsFiltered(cs, topics, removed);
      forall i | 0 <= i < |left| ensures !Touches(left[i], removed) { assert left[i] in left; }
    } else {
      LastTouchingStays(cs, topics, removed);
      var c := cs[Reach(cs, removed) - 1];
      var i :| 0 <= i < |left| && left[i] == c;
      assert Touches(c, removed) && c !in Untouched(cs, removed);
    }
  }

  /** With topics a and b, b to be removed: only the second of these two connections is shown, so
      it counts as the first, and the stored first one goes in its place. */
  lemma DanglingShiftsTheCut(topics: map<Id, Topic>)
    requires topics.Keys == {"a", "b"}
    ensures var cs := [Connection("a", "x", "r"), Connection("a", "b", "r")];
      Left(cs, topics, {"b"}) == [cs[1]] && !NoneTouches(Left(cs, topics, {"b"}), {"b"})
  {
    var cs := [Connection("a", "x", "r"), Connection("a", "b", "r")];
    assert cs == [cs[0]] + [cs[1]];
    ResolvedAppend([cs[0]], [cs[1]], topics);
    ResolvedAppend([], [cs[0]], topics);
    assert Resolved(cs, topics) == [cs[1]];
    StaleOne(cs[1], {"b"});
    assert cs[..0] + cs[1..] == [cs[1]];
    assert Without(cs, [0]) == Without([cs[1]], []);
    assert Touches([cs[1]][0], {"b"});
  }

  lemma StaleOne(c: Connection, removed: set<Id>)
    requires Touches(c, removed)
    ensures Stale([c], removed) == [0]
  {
    assert [c][..0] == [] && Stale([], removed) == [];
  }

  /** A stored document without dangling connections stays one. */
  lemma NothingDanglesAfter(cs: seq<Connection>, topics: map<Id, Topic>, removed: set<Id>)
    requires NoneDangling(cs, topics)
    ensures NoneDangling(Left(cs, topics, removed), Survivors(topics, removed))
    ensures Left(cs, topics, removed) == Untouched(cs, removed)
  {
    var n := Reach(cs, removed);
    forall i | 0 <= i < n ensures !Dangling(cs[..n][i], topics) { assert !Dangling(cs[i], topics); }
    LeftIsFiltered(cs, topics, removed);
    var left := Left(cs, topics, removed);
    forall i | 0 <= i < |left| ensures !Dangling(left[i], Survivors(topics, removed)) {
      assert left[i] in cs && !Touches(left[i], removed);
    }
  }

  // ----- the topics -----

  function RemovedTopics(topics: map<Id, Topic>, nodes: set<Id>): set<Id> {
    set id | id in topics && FromNodes(topics[id], nodes)
  }

  predicate FromNodes(t: Topic, nodes: set<Id>) {
    exists k :: 0 <= k < |t.sections| && t.sections[k] in nodes
  }

  predicate Orphaned(t: Topic, removed: set<Id>) {
    t.parent.Some? && t.parent.value in removed
  }

  /** The topics of other sources, those below a removed one moved to the top level. */
  function Survivors(topics: map<Id, Topic>, removed: set<Id>): map<Id, Topic> {
    map id | id in topics && id !in removed ::
      if Orphaned(topics[id], removed) then topics[id].(parent := None) else topics[id]
  }

  /** Survivors hang together: still a forest, and no parent is a removed topic. */
  lemma SurvivorsHang(topics: map<Id, Topic>, removed: set<Id>)
    requires Forest(topics)
    ensures Forest(Survivors(topics, removed))
    ensures forall id :: id in Survivors(topics, removed) ==> !Orphaned(Survivors(topics, removed)[id], removed)
  {
    FewerParents(topics, Survivors(topics, removed));
  }

  // ----- the operations, in the order they are put together -----

  method RemovalOps(doc: Doc, ghost raw: Doc, removed: set<Id>) returns (ops: seq<Op>)
    requires removed <= doc.topics.Keys && raw.topics == doc.topics
    ensures ApplyAll(raw, ops) == Some(raw.(topics := raw.topics - removed))
    ensures removed != {} ==> ops != []
  {
    ops := [];
    var todo := removed;
    assert raw.topics - (removed - removed) == raw.topics;
    while todo != {}
      invariant todo <= removed
      invariant ApplyAll(raw, ops) == Some(raw.(topics := raw.topics - (removed - todo)))
      invariant todo < removed ==> ops != []
      decreases |todo|
    {
      var id :| id in todo;
      ApplyLast(raw, ops, RemoveTopic(id));
      assert raw.topics - (removed - todo) - {id} == raw.topics - (removed - (todo - {id}));
      ops := ops + [RemoveTopic(id)];
      todo := todo - {id};
    }
    assert removed - {} == removed;
  }

  method OrphanOps(doc: Doc, ghost mid: Doc, removed: set<Id>) returns (ops: seq<Op>)
    requires mid.topics == doc.topics - removed
    ensures ApplyAll(mid, ops) == Some(mid.(topics := Survivors(doc.topics, removed)))
  {
    ops := [];
    var todo := doc.topics.Keys - removed;
    ghost var after := mid.topics;
    while todo != {}
      invariant todo <= doc.topics.Keys - removed
      invariant ApplyAll(mid, ops) == Some(mid.(topics := after))
      invariant after.Keys == doc.topics.Keys - removed
      invariant forall id :: id in after ==>
        after[id] == if id in todo then doc.topics[id] else Survivors(doc.topics, removed)[id]
      decreases |todo|
    {
      var id :| id in todo;
      todo := todo - {id};
      if Orphaned(doc.topics[id], removed) {
        var op := SetTopic(id, doc.topics[id].(parent := None));
        ApplyLast(mid, ops, op);
        ops := ops + [op];
        after := after[id := doc.topics[id].(parent := None)];
      }
    }
    assert after == Survivors(doc.topics, removed);
  }

  function Removals(at: seq<nat>): seq<Op> {
    if at == [] then [] else [RemoveConnection(at[0])] + Removals(at[1..])
  }

  /** Every position is in range when its turn comes. */
  lemma {:induction false} RemovalsApply(doc: Doc, at: seq<nat>)
    requires Falling(at, |doc.connections|)
    ensures ApplyAll(doc, Removals(at)) == Some(doc.(connections := Without(doc.connections, at)))
    decreases |at|
  {
    if at != [] {
      var i, cs := at[0], doc.connections;
      FallingLess(at[1..], i, |cs| - 1);
      RemovalsApply(doc.(connections := cs[..i] + cs[i + 1..]), at[1..]);
      assert Removals(at)[1..] == Removals(at[1..]);
    }
  }

  method StaleOps(cs: seq<Connection>, removed: set<Id>) returns (ops: seq<Op>)
    ensures ops == Removals(Stale(cs, removed))
  {
    ops := [];
    for i := 0 to |cs|
      invariant ops == Removals(Stale(cs[..i], removed))
    {
      assert cs[..i + 1][..i] == cs[..i];
      if Touches(cs[i], removed) {
        assert ([i as nat] + Stale(cs[..i], removed))[1..] == Stale(cs[..i], removed);
        ops := [RemoveConnection(i)] + ops;
      }
    }
    assert cs[..|cs|] == cs;
  }

  /** cleanup_for_removed_source. The patch never fails: what is left is the other sources' topics
      and the stored connections without those at the positions computed from the read copy. */
  method Cleanup(store: Store, nodes: set<Id>) returns (ops: seq<Op>)
    modifies store
    ensures var removed := RemovedTopics(old(store.doc).topics, nodes);
      && (ops == [] <==> removed == {})
      && store.doc == Doc(Survivors(old(store.doc).topics, removed),
                          Left(old(store.doc).connections, old(store.doc).topics, removed))
  {
    ghost var raw := store.doc;
    var doc := Read(store.doc);
    var removed := RemovedTopics(doc.topics, nodes);
    if removed == {} {
      NothingRemoved(raw);
      return [];
    }
    var first := RemovalOps(doc, raw, removed);
    ghost var mid := raw.(topics := raw.topics - removed);
    var second := OrphanOps(doc, mid, removed);
    var third := StaleOps(doc.connections, removed);
    ghost var at := Stale(doc.connections, removed);
    FallingLess(at, |doc.connections|, |raw.connections|);
    RemovalsApply(mid.(topics := Survivors(doc.topics, removed)), at);
    ApplyAppend(raw, first, second);
    ApplyAppend(raw, first + second, third);
    ops := first + second + third;
    var ok := store.Patch(ops);
    if !ok { ops := []; }
  }

  lemma NothingRemoved(doc: Doc)
    ensures Survivors(doc.topics, {}) == doc.topics
    ensures Left(doc.connections, doc.topics, {}) == doc.connections
  {
    var shown := Resolved(doc.connections, doc.topics);
    assert [] + shown == shown;
    StaleInFront([], shown, {});
  }

  /** What readers would see of the stored list if nothing were cut from it. */
  lemma {:induction false} SeenUncut(cs: seq<Connection>, topics: map<Id, Topic>, removed: set<Id>)
    ensures Resolved(cs, Survivors(topics, removed)) == Untouched(Resolved(cs, topics), removed)
  {
    if cs != [] {
      var init, c := cs[..|cs| - 1], cs[|cs| - 1];
      SeenUncut(init, topics, removed);
      SeenTwo(Resolved(init, topics), c, removed);
      assert Dangling(c, Survivors(topics, removed)) <==> Dangling(c, topics) || Touches(c, removed);
    }
  }

  /** The connections at these positions are not shown. */
  predicate AllHidden(cs: seq<Connection>, at: seq<nat>, topics: map<Id, Topic>) {
    forall j :: 0 <= j < |at| ==> at[j] < |cs| && Dangling(cs[at[j]], topics)
  }

  lemma OneLessSeen(a: seq<Connection>, c: Connection, b: seq<Connection>, topics: map<Id, Topic>)
    ensures if Dangling(c, topics) then Resolved(a + b, topics) == Resolved(a + [c] + b, topics)
            else |Resolved(a + b, topics)| < |Resolved(a + [c] + b, topics)|
  {
    ResolvedAppend(a + [c], b, topics);
    ResolvedAppend(a, [c], topics);
    ResolvedAppend(a, b, topics);
    var shown := Resolved(a, topics);
    assert shown + [] == shown;
  }

  lemma CutOneSeen(cs: seq<Connection>, i: nat, topics: map<Id, Topic>)
    requires i < |cs|
    ensures var seen, cut := Resolved(cs, topics), Resolved(cs[..i] + cs[i + 1..], topics);
      if Dangling(cs[i], topics) then cut == seen else |cut| < |seen|
  {
    assert cs == cs[..i] + [cs[i]] + cs[i + 1..];
    OneLessSeen(cs[..i], cs[i], cs[i + 1..], topics);
  }

  /** Cutting changes what is shown exactly if it cuts something that is shown. */
  lemma {:induction false} CutSeen(cs: seq<Connection>, at: seq<nat>, topics: map<Id, Topic>)
    requires Falling(at, |cs|)
    ensures |Resolved(Without(cs, at), topics)| <= |Resolved(cs, topics)|
    ensures Resolved(Without(cs, at), topics) == Resolved(cs, topics) <==> AllHidden(cs, at, topics)
    decreases |at|
  {
    if at != [] {
      var i := at[0];
      var cut := cs[..i] + cs[i + 1..];
      FallingLess(at[1..], i, |cs| - 1);
      CutOneSeen(cs, i, topics);
      CutSeen(cut, at[1..], topics);
      HiddenFirst(cs, at, cut, topics);
    }
  }

  lemma HiddenFirst(cs: seq<Connection>, at: seq<nat>, cut: seq<Connection>, topics: map<Id, Topic>)
    requires at != [] && Falling(at, |cs|) && cut == cs[..at[0]] + cs[at[0] + 1..]
    ensures AllHidden(cs, at, topics) <==> Dangling(cs[at[0]], topics) && AllHidden(cut, at[1..], topics)
  {
    FallingBelow(at[1..], at[0]);
    forall j | 0 < j < |at| ensures at[j] == at[1..][j - 1] < at[0] && cut[at[j]] == cs[at[j]] {
    }
    if AllHidden(cs, at, topics) {
      forall j | 0 <= j < |at[1..]| ensures Dangling(cut[at[1..][j]], topics) { assert at[j + 1] == at[1..][j]; }
    }
  }

  lemma {:induction false} FallingBelow(at: seq<nat>, n: nat)
    requires Falling(at, n)
    ensures forall j :: 0 <= j < |at| ==> at[j] < n
  {
    if at != [] {
      FallingBelow(at[1..], at[0]);
      forall j | 0 < j < |at| ensures at[j] < n { assert at[j] == at[1..][j - 1]; }
    }
  }

  /** A position may be cut unnoticed: what is stored there was hidden, or belongs to a removed topic. */
  predicate Unnoticed(c: Connection, topics: map<Id, Topic>, removed: set<Id>) {
    Dangling(c, topics) || Touches(c, removed)
  }

  lemma HiddenAfter(c: Connection, topics: map<Id, Topic>, removed: set<Id>)
    ensures Dangling(c, Survivors(topics, removed)) <==> Unnoticed(c, topics, removed)
  {
  }

  lemma HiddenIsUnnoticed(cs: seq<Connection>, at: seq<nat>, topics: map<Id, Topic>, removed: set<Id>)
    ensures AllHidden(cs, at, Survivors(topics, removed))
       <==> forall k :: k in at ==> k < |cs| && Unnoticed(cs[k], topics, removed)
  {
    forall j | 0 <= j < |at| && at[j] < |cs|
      ensures Dangling(cs[at[j]], Survivors(topics, removed)) <==> Unnoticed(cs[at[j]], topics, removed) {
      HiddenAfter(cs[at[j]], topics, removed);
    }
    if forall k :: k in at ==> k < |cs| && Unnoticed(cs[k], topics, removed) {
      forall j | 0 <= j < |at| ensures at[j] < |cs| && Unnoticed(cs[at[j]], topics, removed) { assert at[j] in at; }
    }
  }

  /** What readers see afterwards: no more than the connections they saw before, less those of the
      removed topics; and exactly these, in order, exactly if nothing else is stored at the positions
      cut. */
  lemma CleanupSeen(cs: seq<Connection>, topics: map<Id, Topic>, removed: set<Id>)
    ensures var seen, due := Resolved(Left(cs, topics, removed), Survivors(topics, removed)),
                             Untouched(Resolved(cs, topics), removed);
      && |seen| <= |due|
      && (seen == due <==>
            forall k :: k in Stale(Resolved(cs, topics), removed) ==>
              k < |cs| && Unnoticed(cs[k], topics, removed))
  {
    var at := Stale(Resolved(cs, topics), removed);
    FallingLess(at, |Resolved(cs, topics)|, |cs|);
    SeenUncut(cs, topics, removed);
    CutSeen(cs, at, Survivors(topics, removed));
    HiddenIsUnnoticed(cs, at, topics, removed);
  }

  /** A connection between two survivors is lost: only the last two of these three are shown, so
      that of the removed topic counts as the second, and the stored second one goes. */
  lemma LiveConnectionIsLost(topics: map<Id, Topic>)
    requires topics.Keys == {"a", "b", "c"}
    ensures var cs := [Connection("a", "x", "r"), Connection("a", "c", "r"), Connection("a", "b", "r")];
      && Left(cs, topics, {"b"}) == [cs[0], cs[2]]
      && Untouched(Resolved(cs, topics), {"b"}) == [cs[1]]
      && Resolved(Left(cs, topics, {"b"}), Survivors(topics, {"b"})) == []
  {
    var cs := [Connection("a", "x", "r"), Connection("a", "c", "r"), Connection("a", "b", "r")];
    ShownOfThree(cs[0], cs[1], cs[2], topics);
    StaleOfTwo(cs[1], cs[2], {"b"});
    assert cs[..1] + cs[2..] == [cs[0], cs[2]];
    assert Without(cs, [1]) == Without([cs[0], cs[2]], []);
    assert [cs[0], cs[2]] == [cs[0]] + [cs[2]];
    ResolvedAppend([cs[0]], [cs[2]], Survivors(topics, {"b"}));
    ResolvedAppend([], [cs[0]], Survivors(topics, {"b"}));
  }

  lemma ShownOfThree(x: Connection, y: Connection, z: Connection, topics: map<Id, Topic>)
    requires Dangling(x, topics) && !Dangling(y, topics) && !Dangling(z, topics)
    ensures Resolved([x, y, z], topics) == [y, z]
  {
    assert [x, y, z] == [x] + [y] + [z];
    ResolvedAppend([x] + [y], [z], topics);
    ResolvedAppend([x], [y], topics);
    ResolvedAppend([], [x], topics);
  }

  lemma StaleOfTwo(y: Connection, z: Connection, removed: set<Id>)
    requires !Touches(y, removed) && Touches(z, removed)
    ensures Stale([y, z], removed) == [1] && Untouched([y, z], removed) == [y]
  {
    assert [y, z][..1] == [y] && [y][..0] == [];
    assert Stale([y], removed) == Stale([], removed) == [];
    assert Untouched([y], removed) == [] + [y];
  }

  lemma SeenTwo(cs: seq<Connection>, c: Connection, removed: set<Id>)
    ensures Untouched(cs + [c], removed)
         == if Touches(c, removed) then Untouched(cs, removed) else Untouched(cs, removed) + [c]
  {
    assert (cs + [c])[..|cs|] == cs;
  }
}
