/** Joining the topics of a new source to the tree that is already there
    (backend/agents/backlink_detector.py, run_after_source_manager). */
module Backlinks {
  import opened Basics
  import opened Text
  import opened TopicStore

  const MAX_EXISTING: nat := 300

  // ----- what the model's answer may change: validated, never trusted -----

  datatype Reparent = Reparent(topic: Id, parent: Id)

  /** The answer as decoded: any ids, any relation text. */
  datatype Answer = Answer(reparents: seq<Reparent>, connections: seq<Connection>)

  function ValidReparents(items: seq<Reparent>, added: set<Id>, existing: set<Id>): (r: seq<Reparent>)
    ensures forall k :: 0 <= k < |r| ==> r[k].topic in added && r[k].parent in existing && r[k].topic != r[k].parent
  {
    if items == [] then []
    else
      var i := items[0];
      (if i.topic in added && i.parent in existing && i.topic != i.parent then [i] else [])
      + ValidReparents(items[1..], added, existing)
  }

  function ValidConnections(items: seq<Connection>, added: set<Id>, existing: set<Id>): (r: seq<Connection>)
    ensures forall k :: 0 <= k < |r| ==> r[k].source in added && r[k].target in existing && r[k].relation != ""
  {
    if items == [] then []
    else
      var i := items[0].(relation := Strip(items[0].relation, SPACES));
      (if i.source in added && i.target in existing && i.relation != "" then [i] else [])
      + ValidConnections(items[1..], added, existing)
  }

  /** For a source that is alone in its workspace: connections between its own topics. */
  function OwnConnections(items: seq<Connection>, ids: set<Id>): (r: seq<Connection>)
    ensures forall k :: 0 <= k < |r| ==> r[k].source in ids && r[k].target in ids && r[k].source != r[k].target
  {
    if items == [] then []
    else
      var i := items[0].(relation := Strip(items[0].relation, SPACES));
      (if i.source in ids && i.target in ids && i.source != i.target && i.relation != "" then [i] else [])
      + OwnConnections(items[1..], ids)
  }

  // ----- building the operations -----

  function Pairs(cs: seq<Connection>): set<set<Id>> {
    set i | 0 <= i < |cs| :: Pair(cs[i])
  }

  /** The connections whose pair is not taken, by the document or by an earlier one. */
  function Untaken(cs: seq<Connection>, taken: set<set<Id>>): (r: seq<Connection>)
    ensures forall c :: c in r ==> c in cs && Pair(c) !in taken
  {
    if cs == [] then []
    else if Pair(cs[0]) in taken then Untaken(cs[1..], taken)
    else [cs[0]] + Untaken(cs[1..], taken + {Pair(cs[0])})
  }

  function Adds(cs: seq<Connection>): seq<Op> {
    if cs == [] then [] else [AddConnection(cs[0])] + Adds(cs[1..])
  }

  predicate Known(rs: seq<Reparent>, topics: map<Id, Topic>) {
    forall k :: 0 <= k < |rs| ==> rs[k].topic in topics
  }

  function Moves(rs: seq<Reparent>, topics: map<Id, Topic>): seq<Op>
    requires Known(rs, topics)
  {
    if rs == [] then []
    else [SetTopic(rs[0].topic, topics[rs[0].topic].(parent := Some(rs[0].parent)))] + Moves(rs[1..], topics)
  }

  method MoveOps(rs: seq<Reparent>, doc: Doc) returns (ops: seq<Op>)
    requires Known(rs, doc.topics)
    ensures ops == Moves(rs, doc.topics)
  {
    ops := [];
    assert rs[0..] == rs;
    for i := 0 to |rs|
      invariant ops + Moves(rs[i..], doc.topics) == Moves(rs, doc.topics)
    {
      assert rs[i..][1..] == rs[i + 1..];
      ops := ops + [SetTopic(rs[i].topic, doc.topics[rs[i].topic].(parent := Some(rs[i].parent)))];
    }
    assert rs[|rs|..] == [] && ops + [] == ops;
  }

  method ConnectOps(cs: seq<Connection>, doc: Doc) returns (ops: seq<Op>)
    ensures ops == Adds(Untaken(cs, Pairs(doc.connections)))
  {
    ops := [];
    var existing := Pairs(doc.connections);
    var seen: set<set<Id>> := {};
    assert cs[0..] == cs && existing + {} == existing;
    for i := 0 to |cs|
      invariant ops + Adds(Untaken(cs[i..], existing + seen)) == Adds(Untaken(cs, existing))
    {
      var pair := Pair(cs[i]);
      AddsStep(cs, i, existing + seen);
      if pair in existing || pair in seen { continue; }
      assert existing + seen + {pair} == existing + (seen + {pair});
      Assoc(ops, [AddConnection(cs[i])], Adds(Untaken(cs[i + 1..], existing + seen + {pair})));
      seen := seen + {pair};
      ops := ops + [AddConnection(cs[i])];
    }
    assert cs[|cs|..] == [] && ops + [] == ops;
  }

  lemma AddsStep(cs: seq<Connection>, i: nat, taken: set<set<Id>>)
    requires i < |cs|
    ensures Adds(Untaken(cs[i..], taken))
         == if Pair(cs[i]) in taken then Adds(Untaken(cs[i + 1..], taken))
            else [AddConnection(cs[i])] + Adds(Untaken(cs[i + 1..], taken + {Pair(cs[i])}))
  {
    assert cs[i..][1..] == cs[i + 1..];
    Rest(cs[i], Untaken(cs[i + 1..], taken + {Pair(cs[i])}));
  }

  /** _build_ops: the document it is given is the one read before anything was written. */
  method BuildOps(rs: seq<Reparent>, cs: seq<Connection>, doc: Doc) returns (ops: seq<Op>)
    requires Known(rs, doc.topics)
    ensures ops == Moves(rs, doc.topics) + Adds(Untaken(cs, Pairs(doc.connections)))
  {
    var moves := MoveOps(rs, doc);
    var adds := ConnectOps(cs, doc);
    ops := moves + adds;
  }

  // ----- what the operations do -----

  lemma {:induction false} AddsApply(doc: Doc, cs: seq<Connection>)
    ensures ApplyAll(doc, Adds(cs)) == Some(doc.(connections := doc.connections + cs))
    decreases |cs|
  {
    if cs == [] {
      assert doc.connections + cs == doc.connections;
    } else {
      AddsApply(doc.(connections := doc.connections + [cs[0]]), cs[1..]);
      Rest(AddConnection(cs[0]), Adds(cs[1..]));
      Assoc(doc.connections, [cs[0]], cs[1..]);
      assert [cs[0]] + cs[1..] == cs;
    }
  }

  /** Topics after the moves, each written whole from the snapshot. */
  function Moved(topics: map<Id, Topic>, rs: seq<Reparent>, snapshot: map<Id, Topic>): (r: map<Id, Topic>)
    requires Known(rs, snapshot)
    decreases |rs|
  {
    if rs == [] then topics
    else Moved(topics[rs[0].topic := snapshot[rs[0].topic].(parent := Some(rs[0].parent))], rs[1..], snapshot)
  }

  lemma {:induction false} MovesApply(doc: Doc, rs: seq<Reparent>, snapshot: map<Id, Topic>)
    requires Known(rs, snapshot)
    ensures ApplyAll(doc, Moves(rs, snapshot)) == Some(doc.(topics := Moved(doc.topics, rs, snapshot)))
    decreases |rs|
  {
    if rs != [] {
      MovesApply(doc.(topics := doc.topics[rs[0].topic := snapshot[rs[0].topic].(parent := Some(rs[0].parent))]),
                 rs[1..], snapshot);
      assert Moves(rs, snapshot)[1..] == Moves(rs[1..], snapshot);
    }
  }

  /** The batches the validation lets through. */
  ghost predicate Batch(rs: seq<Reparent>, added: set<Id>, existing: set<Id>) {
    forall k :: 0 <= k < |rs| ==> rs[k].topic in added && rs[k].parent in existing
  }

  /** Only the parents of new topics change, and only to existing topics. */
  ghost predicate OnlyMoved(was: map<Id, Topic>, now: map<Id, Topic>, added: set<Id>, existing: set<Id>) {
    && now.Keys == was.Keys
    && forall id :: id in was ==>
         now[id] == was[id] || (id in added && exists e :: e in existing && now[id] == was[id].(parent := Some(e)))
  }

  lemma {:induction false} MovedOnly(topics: map<Id, Topic>, rs: seq<Reparent>, snapshot: map<Id, Topic>,
                                     added: set<Id>, existing: set<Id>)
    requires Batch(rs, added, existing) && added <= snapshot.Keys
    requires OnlyMoved(snapshot, topics, added, existing)
    ensures OnlyMoved(snapshot, Moved(topics, rs, snapshot), added, existing)
    decreases |rs|
  {
    if rs != [] {
      var r := rs[0];
      assert r.topic in added && r.parent in existing;
      MovedOnly(topics[r.topic := snapshot[r.topic].(parent := Some(r.parent))], rs[1..], snapshot, added, existing);
    }
  }

  // ----- the tree stays a forest -----

  /** No existing topic lies below a new one. */
  ghost predicate NoneBelow(topics: map<Id, Topic>, existing: set<Id>, added: set<Id>) {
    forall e, t :: e in existing && t in added ==> !Below(topics, e, t)
  }

  lemma {:induction false} ExistingKeepsUp(was: map<Id, Topic>, now: map<Id, Topic>, added: set<Id>, existing: set<Id>,
                                           e: Id, n: nat)
    requires OnlyMoved(was, now, added, existing) && NoneBelow(was, existing, added)
    requires e in existing && e !in added
    ensures Up(now, e, n) == Up(was, e, n)
    ensures Up(now, e, n).Some? ==> Up(now, e, n).value !in added
  {
    if n > 0 {
      ExistingKeepsUp(was, now, added, existing, e, n - 1);
      if Up(was, e, n).Some? {
        var y := Up(was, e, n).value;
        if y in added { assert Below(was, e, y); }
      }
    }
  }

  /** A path on which no parent has changed was there before. */
  lemma {:induction false} OldPath(was: map<Id, Topic>, now: map<Id, Topic>, x: Id, n: nat)
    requires now.Keys == was.Keys && Up(now, x, n).Some?
    requires forall m :: 0 <= m < n && Up(now, x, m).Some? && Up(now, x, m).value in was ==>
               now[Up(now, x, m).value] == was[Up(now, x, m).value]
    ensures Up(was, x, n) == Up(now, x, n)
  {
    if n > 0 {
      UpShorter(now, x, n - 1, n);
      OldPath(was, now, x, n - 1);
    }
  }

  /** A cycle through a moved topic would put an existing topic below it. */
  lemma NoCycleThrough(was: map<Id, Topic>, now: map<Id, Topic>, added: set<Id>, existing: set<Id>, t: Id, n: nat)
    requires OnlyMoved(was, now, added, existing) && NoneBelow(was, existing, added) && existing !! added
    requires t in was && now[t] != was[t] && n > 0
    ensures Up(now, t, n) != Some(t)
  {
    var e :| e in existing && now[t] == was[t].(parent := Some(e));
    assert Up(now, t, 0) == Some(t);
    assert Up(now, t, 1) == Some(e);
    UpTwice(now, t, 1, n - 1);
    ExistingKeepsUp(was, now, added, existing, e, n - 1);
  }

  lemma MovedIsForest(was: map<Id, Topic>, now: map<Id, Topic>, added: set<Id>, existing: set<Id>)
    requires OnlyMoved(was, now, added, existing) && NoneBelow(was, existing, added) && existing !! added
    requires Forest(was)
    ensures Forest(now)
  {
    forall x, n: nat | n > 0 && Up(now, x, n) == Some(x) ensures false {
      if m :| 0 <= m < n && Up(now, x, m).Some? && Up(now, x, m).value in was
              && now[Up(now, x, m).value] != was[Up(now, x, m).value] {
        var t := Up(now, x, m).value;
        UpTwice(now, x, n, m);
        UpTwice(now, x, m, n);
        NoCycleThrough(was, now, added, existing, t, n);
      } else {
        OldPath(was, now, x, n);
        assert Below(was, x, x);
      }
    }
  }

  /** Every batch the validation lets through keeps the forest... */
  ghost predicate EveryBatchSafe(topics: map<Id, Topic>, added: set<Id>, existing: set<Id>)
    requires added <= topics.Keys
  {
    forall rs: seq<Reparent> :: Batch(rs, added, existing) ==> Forest(Moved(topics, rs, topics))
  }

  /** ...exactly if no existing topic lies below a new one. */
  lemma SafeExactly(topics: map<Id, Topic>, added: set<Id>, existing: set<Id>)
    requires added <= topics.Keys && existing !! added && Forest(topics)
    ensures EveryBatchSafe(topics, added, existing) <==> NoneBelow(topics, existing, added)
  {
    if NoneBelow(topics, existing, added) {
      forall rs: seq<Reparent> | Batch(rs, added, existing) ensures Forest(Moved(topics, rs, topics)) {
        MovedOnly(topics, rs, topics, added, existing);
        MovedIsForest(topics, Moved(topics, rs, topics), added, existing);
      }
    } else {
      var e, t :| e in existing && t in added && Below(topics, e, t);
      UnsafeMove(topics, added, existing, e, t);
    }
  }

  /** Hanging a topic below its own descendant closes a cycle. */
  lemma UnsafeMove(topics: map<Id, Topic>, added: set<Id>, existing: set<Id>, e: Id, t: Id)
    requires added <= topics.Keys && e in existing && t in added && Below(topics, e, t) && e != t
    ensures !EveryBatchSafe(topics, added, existing)
  {
    var rs := [Reparent(t, e)];
    var now := Moved(topics, rs, topics);
    assert rs[1..] == [];
    var one := topics[t := topics[t].(parent := Some(e))];
    assert Moved(one, rs[1..], topics) == one && now == one;
    var n: nat :| n > 0 && Up(topics, e, n) == Some(t);
    var k := FirstArrival(topics, e, t, n);
    SamePathUntil(topics, now, e, t, k);
    assert Up(now, t, 0) == Some(t);
    assert Up(now, t, 1) == Some(e);
    UpTwice(now, t, 1, k);
    assert Below(now, t, t);
    assert Batch(rs, added, existing);
  }

  /** With an existing topic that was put below a new one by hand, a batch can close a cycle. */
  lemma UnsafeJoin(a: Topic, b: Topic)
    requires a.parent == None && b.parent == Some("a")
    ensures var topics := map["a" := a, "b" := b];
      Forest(topics) && !NoneBelow(topics, {"b"}, {"a"}) && !EveryBatchSafe(topics, {"a"}, {"b"})
  {
    var topics := map["a" := a, "b" := b];
    forall x, n: nat | n > 0 && Up(topics, x, n) == Some(x) ensures false { NoThirdAncestor(topics, x, n); }
    assert Up(topics, "b", 0) == Some("b");
    assert Up(topics, "b", 1) == Some("a");
    assert Below(topics, "b", "a");
    UnsafeMove(topics, {"a"}, {"b"}, "b", "a");
  }

  lemma {:induction false} NoThirdAncestor(topics: map<Id, Topic>, x: Id, n: nat)
    requires n > 0 && topics.Keys == {"a", "b"} && topics["a"].parent == None && topics["b"].parent == Some("a")
    ensures Up(topics, x, n) != Some(x)
    ensures Up(topics, x, n).Some? ==> Up(topics, x, n) == Some("a")
  {
    assert Up(topics, x, 0) == Some(x);
    if n > 1 { NoThirdAncestor(topics, x, n - 1); }
  }

  lemma {:induction false} FirstArrival(topics: map<Id, Topic>, e: Id, t: Id, n: nat) returns (k: nat)
    requires Up(topics, e, n) == Some(t)
    ensures k <= n && Up(topics, e, k) == Some(t) && forall m :: 0 <= m < k ==> Up(topics, e, m) != Some(t)
  {
    if m :| 0 <= m < n && Up(topics, e, m) == Some(t) { k := FirstArrival(topics, e, t, m); } else { k := n; }
  }

  lemma {:induction false} SamePathUntil(was: map<Id, Topic>, now: map<Id, Topic>, e: Id, t: Id, k: nat)
    requires forall m :: 0 <= m < k ==> Up(was, e, m) != Some(t)
    requires now.Keys == was.Keys && forall x :: x in was && x != t ==> now[x] == was[x]
    ensures Up(now, e, k) == Up(was, e, k)
  {
    if k > 0 { SamePathUntil(was, now, e, t, k - 1); }
  }

  /** It is enough that no topic outside the new ones has one of them as its parent. */
  lemma SourceApart(topics: map<Id, Topic>, existing: set<Id>, added: set<Id>)
    requires existing !! added
    requires forall x :: x in topics && x !in added && topics[x].parent.Some? ==> topics[x].parent.value !in added
    ensures NoneBelow(topics, existing, added)
  {
    forall e, t, n: nat | e in existing && t in added && n > 0 && Up(topics, e, n) == Some(t) ensures false {
      StaysOutside(topics, added, e, n);
    }
  }

  lemma {:induction false} StaysOutside(topics: map<Id, Topic>, added: set<Id>, e: Id, n: nat)
    requires e !in added
    requires forall x :: x in topics && x !in added && topics[x].parent.Some? ==> topics[x].parent.value !in added
    ensures Up(topics, e, n).Some? ==> Up(topics, e, n).value !in added
  {
    if n > 0 { StaysOutside(topics, added, e, n - 1); }
  }

  // ----- the pairs stay unique -----

  lemma {:induction false} UntakenUnique(cs: seq<Connection>, taken: set<set<Id>>)
    ensures PairsUnique(Untaken(cs, taken))
  {
    if cs != [] {
      if Pair(cs[0]) in taken {
        UntakenUnique(cs[1..], taken);
      } else {
        var rest := Untaken(cs[1..], taken + {Pair(cs[0])});
        UntakenUnique(cs[1..], taken + {Pair(cs[0])});
        forall j | 0 <= j < |rest| ensures Pair(rest[j]) != Pair(cs[0]) { assert rest[j] in rest; }
      }
    }
  }

  ghost predicate Apart(a: seq<Connection>, b: seq<Connection>) {
    forall i, j :: 0 <= i < |a| && 0 <= j < |b| ==> Pair(a[i]) != Pair(b[j])
  }

  lemma UniqueConcat(a: seq<Connection>, b: seq<Connection>)
    requires PairsUnique(a) && PairsUnique(b) && Apart(a, b)
    ensures PairsUnique(a + b)
  {
  }

  /** Endpoints that resolve, and a pair the read copy does not have: then the stored list,
      which may also hold dangling connections, does not have it either. */
  lemma NewToStored(stored: seq<Connection>, topics: map<Id, Topic>, cs: seq<Connection>)
    requires forall j :: 0 <= j < |cs| ==> !Dangling(cs[j], topics) && Pair(cs[j]) !in Pairs(Resolved(stored, topics))
    ensures Apart(stored, cs)
  {
    forall i, j | 0 <= i < |stored| && 0 <= j < |cs| ensures Pair(stored[i]) != Pair(cs[j]) {
      DanglingByPair(stored[i], topics);
      DanglingByPair(cs[j], topics);
      if !Dangling(stored[i], topics) { PairShown(stored, topics, i); }
    }
  }

  lemma PairShown(stored: seq<Connection>, topics: map<Id, Topic>, i: nat)
    requires i < |stored| && !Dangling(stored[i], topics)
    ensures Pair(stored[i]) in Pairs(Resolved(stored, topics))
  {
    var shown := Resolved(stored, topics);
    var k :| 0 <= k < |shown| && shown[k] == stored[i];
    assert Pair(shown[k]) in Pairs(shown);
  }

  // ----- the two phases -----

  datatype Tag = Tag(kind: string, target: Option<Id>)

  predicate Merges(id: Id, tags: map<Id, Tag>, existing: set<Id>) {
    id in tags && tags[id].kind == "merge" && tags[id].target.Some? && tags[id].target.value in existing
  }

  /** What phase one writes: for topics already known to state the same fact. */
  ghost predicate Merged(cs: seq<Connection>, fresh': set<Id>, tags: map<Id, Tag>, existing: set<Id>) {
    forall k :: 0 <= k < |cs| ==>
      cs[k].source in fresh' && Merges(cs[k].source, tags, existing)
      && cs[k].target == tags[cs[k].source].target.value && cs[k].relation == "same_fact_as"
  }

  /** A merge that is not connected yet. */
  predicate Due(id: Id, tags: map<Id, Tag>, existing: set<Id>, pairs: set<set<Id>>) {
    Merges(id, tags, existing) && {id, tags[id].target.value} !in pairs
  }

  function NewTopics(topicIds: seq<Id>, topics: map<Id, Topic>): set<Id> {
    set id | id in topicIds && id in topics
  }

  /** The topics phase two is left with. */
  function ToReconcile(topicIds: seq<Id>, tags: map<Id, Tag>, existing: set<Id>, topics: map<Id, Topic>): set<Id> {
    set id | id in NewTopics(topicIds, topics) && !Merges(id, tags, existing)
  }

  /** The merges to write: each new topic once, in the order given, if its pair is not taken. */
  function MergeList(ids: seq<Id>, tags: map<Id, Tag>, existing: set<Id>, doc: Doc): seq<Connection> {
    if ids == [] then []
    else
      var before, id := ids[..|ids| - 1], ids[|ids| - 1];
      MergeList(before, tags, existing, doc)
      + if id in doc.topics && id !in before && Due(id, tags, existing, Pairs(doc.connections))
        then [Connection(id, tags[id].target.value, "same_fact_as")] else []
  }

  lemma MergeListMore(ids: seq<Id>, id: Id, tags: map<Id, Tag>, existing: set<Id>, doc: Doc)
    ensures MergeList(ids + [id], tags, existing, doc)
         == MergeList(ids, tags, existing, doc)
            + if id in doc.topics && id !in ids && Due(id, tags, existing, Pairs(doc.connections))
              then [Connection(id, tags[id].target.value, "same_fact_as")] else []
  {
    assert (ids + [id])[..|ids|] == ids;
  }

  /** Splits the new topics, each looked at once, in the order given. */
  method SplitTopics(topicIds: seq<Id>, tags: map<Id, Tag>, existing: set<Id>, doc: Doc)
    returns (merges: seq<Connection>, reconcile: set<Id>)
    ensures reconcile == ToReconcile(topicIds, tags, existing, doc.topics)
    ensures merges == MergeList(topicIds, tags, existing, doc)
  {
    merges, reconcile := [], {};
    var seen: set<Id> := {};
    var pairs := Pairs(doc.connections);
    for i := 0 to |topicIds|
      invariant seen == NewTopics(topicIds[..i], doc.topics)
      invariant reconcile == set id | id in seen && !Merges(id, tags, existing)
      invariant merges == MergeList(topicIds[..i], tags, existing, doc)
    {
      var id := topicIds[i];
      assert topicIds[..i + 1] == topicIds[..i] + [id];
      MergeListMore(topicIds[..i], id, tags, existing, doc);
      assert merges + [] == merges;
      if id !in doc.topics || id in seen { continue; }
      seen := seen + {id};
      if Merges(id, tags, existing) {
        var c := Connection(id, tags[id].target.value, "same_fact_as");
        if Pair(c) !in pairs { merges := merges + [c]; }
      } else {
        reconcile := reconcile + {id};
      }
    }
    assert topicIds[..|topicIds|] == topicIds;
  }

  ghost predicate SourcesDiffer(cs: seq<Connection>) {
    forall i, j :: 0 <= i < j < |cs| ==> cs[i].source != cs[j].source
  }

  ghost predicate NoneTaken(cs: seq<Connection>, pairs: set<set<Id>>) {
    forall k :: 0 <= k < |cs| ==> Pair(cs[k]) !in pairs
  }

  lemma {:induction false} MergeListIs(ids: seq<Id>, tags: map<Id, Tag>, existing: set<Id>, doc: Doc)
    ensures var cs := MergeList(ids, tags, existing, doc);
      && Merged(cs, NewTopics(ids, doc.topics), tags, existing)
      && SourcesDiffer(cs) && NoneTaken(cs, Pairs(doc.connections))
      && forall k :: 0 <= k < |cs| ==> cs[k].source in ids
  {
    if ids != [] {
      var before := ids[..|ids| - 1];
      MergeListIs(before, tags, existing, doc);
      InitLast(ids);
    }
  }

  /** A write that may fail for reasons of its own. */
  method Write(store: Store, ops: seq<Op>, writable: bool) returns (ok: bool)
    modifies store
    ensures ok <==> writable && ops != [] && ApplyAll(old(store.doc), ops).Some?
    ensures store.doc == if ok then ApplyAll(old(store.doc), ops).value else old(store.doc)
  {
    ok := false;
    if writable && ops != [] { ok := store.Patch(ops); }
  }

  /** What a run leaves: connections only added, each between topics that exist and on a pair
      of its own; topics only moved. */
  ghost predicate Joined(was: Doc, now: Doc, added: set<Id>, existing: set<Id>) {
    && was.connections <= now.connections
    && (forall k :: |was.connections| <= k < |now.connections| ==> !Dangling(now.connections[k], was.topics))
    && (PairsUnique(was.connections) ==> PairsUnique(now.connections))
    && OnlyMoved(was.topics, now.topics, added, existing)
  }

  /** Writing one batch of connections, none of them on a pair that is stored. */
  lemma JoinMore(was: Doc, now: Doc, cs: seq<Connection>, added: set<Id>, existing: set<Id>)
    requires Joined(was, now, added, existing) && Apart(now.connections, cs) && PairsUnique(cs)
    requires forall k :: 0 <= k < |cs| ==> !Dangling(cs[k], was.topics)
    ensures Joined(was, now.(connections := now.connections + cs), added, existing)
  {
    if PairsUnique(now.connections) { UniqueConcat(now.connections, cs); }
  }

  /** The connections phase one has written, seen from phase two: each has an endpoint that
      phase two does not deal with. */
  ghost predicate OutsideOf(cs: seq<Connection>, ids: set<Id>) {
    forall k :: 0 <= k < |cs| ==> cs[k].source !in ids
  }

  lemma ApartConcat(a: seq<Connection>, b: seq<Connection>, cs: seq<Connection>)
    requires Apart(a, cs) && Apart(b, cs)
    ensures Apart(a + b, cs)
  {
  }

  lemma OutsideIsApart(a: seq<Connection>, cs: seq<Connection>, ids: set<Id>)
    requires OutsideOf(a, ids) && forall k :: 0 <= k < |cs| ==> cs[k].source in ids && cs[k].target in ids
    ensures Apart(a, cs)
  {
    forall i, j | 0 <= i < |a| && 0 <= j < |cs| ensures Pair(a[i]) != Pair(cs[j]) {
      assert a[i].source in Pair(a[i]);
    }
  }

  /** What phase two adds is new to what is stored by then, although it was checked against the
      document read before phase one. */
  lemma UntakenIsNew(was: Doc, merges: seq<Connection>, cs: seq<Connection>, ids: set<Id>)
    requires OutsideOf(merges, ids) && ids <= was.topics.Keys
    requires forall k :: 0 <= k < |cs| ==> cs[k].source in ids && cs[k].target in ids
    ensures var u := Untaken(cs, Pairs(Read(was).connections));
      && Apart(was.connections + merges, u) && PairsUnique(u)
      && forall k :: 0 <= k < |u| ==> !Dangling(u[k], was.topics)
  {
    var u := Untaken(cs, Pairs(Read(was).connections));
    forall k | 0 <= k < |u|
      ensures u[k].source in ids && u[k].target in ids && Pair(u[k]) !in Pairs(Read(was).connections) {
      assert u[k] in u;
      var m :| 0 <= m < |cs| && cs[m] == u[k];
    }
    UntakenUnique(cs, Pairs(Read(was).connections));
    NewToStored(was.connections, was.topics, u);
    OutsideIsApart(merges, u, ids);
    ApartConcat(was.connections, merges, u);
  }

  /** The document after phase two, of which was is the document before phase one and mid the
      one stored in between. */
  function Reconciled(was: Doc, mid: Doc, added: set<Id>, existing: set<Id>, answer: Answer): Doc
    requires added <= was.topics.Keys
  {
    var rs := ValidReparents(answer.reparents, added, existing);
    var cs := ValidConnections(answer.connections, added, existing);
    Doc(Moved(was.topics, rs, was.topics), mid.connections + Untaken(cs, Pairs(Read(was).connections)))
  }

  /** Phase two, with the document that was read before phase one. */
  method Reconcile(store: Store, ghost was: Doc, ghost merges: seq<Connection>, doc: Doc,
                   added: set<Id>, existing: set<Id>, answer: Answer, writable: bool) returns (applied: seq<Op>)
    requires doc == Read(was) && store.doc == was.(connections := was.connections + merges)
    requires Joined(was, store.doc, added, existing) && OutsideOf(merges, added + existing)
    requires added + existing <= was.topics.Keys
    modifies store
    ensures store.doc == if writable then Reconciled(was, old(store.doc), added, existing, answer) else old(store.doc)
    ensures Joined(was, store.doc, added, existing)
    ensures ApplyAll(old(store.doc), applied) == Some(store.doc)
  {
    var rs := ValidReparents(answer.reparents, added, existing);
    var cs := ValidConnections(answer.connections, added, existing);
    var ops := BuildOps(rs, cs, doc);
    ghost var u := Untaken(cs, Pairs(doc.connections));
    UntakenIsNew(was, merges, cs, added + existing);
    JoinMore(was, store.doc, u, added, existing);
    MovedOnly(was.topics, rs, was.topics, added, existing);
    OpsApply(store.doc, rs, cs, doc);
    var ok := Write(store, ops, writable);
    applied := if ok then ops else [];
  }

  lemma {:induction false} NoReparents(items: seq<Reparent>, existing: set<Id>)
    ensures ValidReparents(items, {}, existing) == []
  {
    if items != [] { NoReparents(items[1..], existing); }
  }

  lemma {:induction false} NoConnections(items: seq<Connection>, existing: set<Id>)
    ensures ValidConnections(items, {}, existing) == []
  {
    if items != [] { NoConnections(items[1..], existing); }
  }

  lemma NothingToReconcile(was: Doc, mid: Doc, existing: set<Id>, answer: Answer)
    requires mid.topics == was.topics
    ensures Reconciled(was, mid, {}, existing, answer) == mid
  {
    var rs := ValidReparents(answer.reparents, {}, existing);
    var cs := ValidConnections(answer.connections, {}, existing);
    NoReparents(answer.reparents, existing);
    NoConnections(answer.connections, existing);
    assert mid.connections + [] == mid.connections;
  }

  lemma OpsApply(now: Doc, rs: seq<Reparent>, cs: seq<Connection>, doc: Doc)
    requires now.topics == doc.topics && Known(rs, doc.topics)
    ensures ApplyAll(now, Moves(rs, doc.topics) + Adds(Untaken(cs, Pairs(doc.connections))))
         == Some(Doc(Moved(doc.topics, rs, doc.topics), now.connections + Untaken(cs, Pairs(doc.connections))))
  {
    var u := Untaken(cs, Pairs(doc.connections));
    MovesApply(now, rs, doc.topics);
    var mid := now.(topics := Moved(now.topics, rs, doc.topics));
    AddsApply(mid, u);
    ApplyAppend(now, Moves(rs, doc.topics), Adds(u));
  }

  lemma NothingJoined(doc: Doc, added: set<Id>, existing: set<Id>)
    ensures Joined(doc, doc, added, existing)
  {
  }

  /** What phase one adds is new to what is stored. */
  lemma MergesJoin(was: Doc, merges: seq<Connection>, fresh': set<Id>, tags: map<Id, Tag>, existing: set<Id>, added: set<Id>)
    requires Merged(merges, fresh', tags, existing) && fresh' + existing <= was.topics.Keys && existing !! fresh'
    requires SourcesDiffer(merges) && NoneTaken(merges, Pairs(Read(was).connections))
    ensures Joined(was, was.(connections := was.connections + merges), added, existing)
  {
    NewToStored(was.connections, was.topics, merges);
    forall i, j | 0 <= i < j < |merges| ensures Pair(merges[i]) != Pair(merges[j]) {
      assert merges[i].source in Pair(merges[i]);
    }
    NothingJoined(was, added, existing);
    JoinMore(was, was, merges, added, existing);
  }

  /** The first so many of the other topics, in the order of the document. */
  predicate Capped(existing: set<Id>, others: set<Id>) {
    if |others| <= MAX_EXISTING then existing == others else existing <= others && |existing| == MAX_EXISTING
  }

  /** The document after both phases, each of which may have failed to write. */
  function AfterJoin(was: Doc, topicIds: seq<Id>, tags: map<Id, Tag>, existing: set<Id>, answer: Option<Answer>,
                     writable: bool, writableAgain: bool): Doc {
    var merges := if writable then MergeList(topicIds, tags, existing, Read(was)) else [];
    var mid := was.(connections := was.connections + merges);
    if answer.Some? && writableAgain
    then Reconciled(was, mid, ToReconcile(topicIds, tags, existing, was.topics), existing, answer.value)
    else mid
  }

  /** The run for a workspace with other topics in it. Either write may fail, and
      there may be no usable answer; the answer itself is arbitrary. */
  method JoinSource(store: Store, topicIds: seq<Id>, tags: map<Id, Tag>, existing: set<Id>, answer: Option<Answer>,
                    writable: bool, writableAgain: bool) returns (applied: seq<Op>)
    requires existing != {} && Capped(existing, store.doc.topics.Keys - NewTopics(topicIds, store.doc.topics))
    modifies store
    ensures store.doc == AfterJoin(old(store.doc), topicIds, tags, existing, answer, writable, writableAgain)
    ensures var was, added := old(store.doc), ToReconcile(topicIds, tags, existing, old(store.doc).topics);
      && Joined(was, store.doc, added, existing)
      && (Forest(was.topics) && NoneBelow(was.topics, existing, added) ==> Forest(store.doc.topics))
    ensures ApplyAll(old(store.doc), applied) == Some(store.doc)
  {
    ghost var was := store.doc;
    var doc := Read(store.doc);
    var merges, added := SplitTopics(topicIds, tags, existing, doc);
    applied := WriteMerges(store, merges, topicIds, tags, existing, added, writable);
    ghost var mid, written := store.doc, if writable then merges else [];
    if added != {} && answer.Some? {
      var more := Reconcile(store, was, written, doc, added, existing, answer.value, writableAgain);
      ApplyAppend(was, applied, more);
      applied := applied + more;
    } else if answer.Some? {
      NothingToReconcile(was, mid, existing, answer.value);
    }
    if Forest(was.topics) && NoneBelow(was.topics, existing, added) {
      MovedIsForest(was.topics, store.doc.topics, added, existing);
    }
  }

  /** Phase one. */
  method WriteMerges(store: Store, merges: seq<Connection>, ghost topicIds: seq<Id>, ghost tags: map<Id, Tag>,
                     ghost existing: set<Id>, ghost added: set<Id>, writable: bool) returns (applied: seq<Op>)
    requires Capped(existing, store.doc.topics.Keys - NewTopics(topicIds, store.doc.topics))
    requires merges == MergeList(topicIds, tags, existing, Read(store.doc))
    requires forall id :: id in added ==> !Merges(id, tags, existing)
    modifies store
    ensures var written := if writable then merges else [];
      && store.doc == old(store.doc).(connections := old(store.doc).connections + written)
      && Joined(old(store.doc), store.doc, added, existing) && OutsideOf(written, added + existing)
    ensures ApplyAll(old(store.doc), applied) == Some(store.doc)
  {
    ghost var was := store.doc;
    ghost var fresh' := NewTopics(topicIds, was.topics);
    MergeListIs(topicIds, tags, existing, Read(was));
    MergesJoin(was, merges, fresh', tags, existing, added);
    OutsideMerges(merges, fresh', tags, existing, added);
    NothingJoined(was, added, existing);
    AddsApply(was, merges);
    assert was.connections + [] == was.connections;
    var ok := Write(store, Adds(merges), writable);
    applied := if ok then Adds(merges) else [];
  }

  lemma OutsideMerges(cs: seq<Connection>, fresh': set<Id>, tags: map<Id, Tag>, existing: set<Id>, added: set<Id>)
    requires Merged(cs, fresh', tags, existing) && existing !! fresh'
    requires forall id :: id in added ==> !Merges(id, tags, existing)
    ensures OutsideOf(cs, added + existing)
  {
    forall k | 0 <= k < |cs| ensures cs[k].source !in added + existing { assert Merges(cs[k].source, tags, existing); }
  }

  function AfterOwn(was: Doc, ids: set<Id>, answer: Answer, writable: bool): Doc {
    if |ids| < 2 || !writable then was
    else was.(connections :=
      was.connections + Untaken(OwnConnections(answer.connections, ids), Pairs(Read(was).connections)))
  }

  /** The same for a source that is alone in its workspace: no topic moves, and its topics are
      connected to each other. */
  method JoinOwn(store: Store, ids: set<Id>, answer: Answer, writable: bool) returns (applied: seq<Op>)
    requires ids <= store.doc.topics.Keys
    modifies store
    ensures store.doc == AfterOwn(old(store.doc), ids, answer, writable)
    ensures Joined(old(store.doc), store.doc, {}, {})
    ensures ApplyAll(old(store.doc), applied) == Some(store.doc)
  {
    ghost var was := store.doc;
    var doc := Read(store.doc);
    applied := [];
    NothingJoined(was, {}, {});
    if |ids| < 2 { return; }
    var cs := OwnConnections(answer.connections, ids);
    var ops := BuildOps([], cs, doc);
    ghost var u := Untaken(cs, Pairs(doc.connections));
    UntakenIsNew(was, [], cs, ids);
    assert was.connections + [] == was.connections;
    JoinMore(was, was, u, {}, {});
    OpsApply(was, [], cs, doc);
    var ok := Write(store, ops, writable);
    if ok { applied := ops; }
  }

  /** The document after a run: as it was if none of the ids is a topic, else with the source's
      topics connected to each other if there are no others, else joined to those. */
  function AfterRun(was: Doc, topicIds: seq<Id>, tags: map<Id, Tag>, existing: set<Id>, answer: Option<Answer>,
                    writable: bool, writableAgain: bool): Doc {
    var ids := NewTopics(topicIds, was.topics);
    if ids == {} then was
    else if was.topics.Keys == ids then if answer.Some? then AfterOwn(was, ids, answer.value, writable) else was
    else AfterJoin(was, topicIds, tags, existing, answer, writable, writableAgain)
  }

  /** run_after_source_manager; no answer stands for a call that failed. */
  method RunAfterSourceManager(store: Store, topicIds: seq<Id>, tags: map<Id, Tag>, existing: set<Id>,
                               answer: Option<Answer>, writable: bool, writableAgain: bool) returns (applied: seq<Op>)
    requires Capped(existing, store.doc.topics.Keys - NewTopics(topicIds, store.doc.topics))
    modifies store
    ensures store.doc == AfterRun(old(store.doc), topicIds, tags, existing, answer, writable, writableAgain)
    ensures var was, added := old(store.doc), ToReconcile(topicIds, tags, existing, old(store.doc).topics);
      && Joined(was, store.doc, added, existing)
      && (Forest(was.topics) && NoneBelow(was.topics, existing, added) ==> Forest(store.doc.topics))
    ensures ApplyAll(old(store.doc), applied) == Some(store.doc)
  {
    var topics := store.doc.topics;
    var ids := NewTopics(topicIds, topics);
    NothingJoined(store.doc, ToReconcile(topicIds, tags, existing, topics), existing);
    if topicIds == [] || ids == {} { return []; }
    if topics.Keys - ids == {} {
      assert topics.Keys == ids;
      if answer == None { return []; }
      ghost var was := store.doc;
      applied := JoinOwn(store, ids, answer.value, writable);
      OwnJoins(was, store.doc, ToReconcile(topicIds, tags, existing, topics), existing);
    } else {
      SomeExisting(existing, topics.Keys - ids);
      applied := JoinSource(store, topicIds, tags, existing, answer, writable, writableAgain);
    }
  }

  lemma SomeExisting(existing: set<Id>, others: set<Id>)
    requires Capped(existing, others) && others != {}
    ensures existing != {}
  {
  }

  lemma OwnJoins(was: Doc, now: Doc, added: set<Id>, existing: set<Id>)
    requires Joined(was, now, {}, {})
    ensures Joined(was, now, added, existing) && now.topics == was.topics
  {
    assert forall id :: id in was.topics ==> now.topics[id] == was.topics[id];
  }
}
