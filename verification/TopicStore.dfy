/** The workspace document of topics and connections, and the patches that change it
    (backend/eo/secondary_data.py), with what being a forest means for the topics and being
    on a pair of its own for the connections. */
module TopicStore {
  import opened Basics

  type Id = string

  /** What else a topic holds is carried along whole. */
  datatype Topic = Topic(text: string, parent: Option<Id>, sections: seq<Id>)

  datatype Connection = Connection(source: Id, target: Id, relation: string)

  datatype Doc = Doc(topics: map<Id, Topic>, connections: seq<Connection>)

  datatype Op = SetTopic(id: Id, topic: Topic) | RemoveTopic(id: Id)
              | AddConnection(connection: Connection) | RemoveConnection(index: nat)

  // ----- reading -----

  predicate Dangling(c: Connection, topics: map<Id, Topic>) {
    c.source !in topics || c.target !in topics
  }

  function Resolved(cs: seq<Connection>, topics: map<Id, Topic>): (r: seq<Connection>)
    ensures |r| <= |cs|
    ensures forall c :: c in r <==> c in cs && !Dangling(c, topics)
  {
    if cs == [] then []
    else
      var r := Resolved(cs[..|cs| - 1], topics);
      var c := cs[|cs| - 1];
      assert cs == cs[..|cs| - 1] + [c];
      if Dangling(c, topics) then r else r + [c]
  }

  /** Shown is what does not dangle, in order, as often as it is stored. */
  lemma {:induction false} ResolvedAppend(a: seq<Connection>, b: seq<Connection>, topics: map<Id, Topic>)
    ensures Resolved(a + b, topics) == Resolved(a, topics) + Resolved(b, topics)
    ensures |b| == 1 ==> Resolved(b, topics) == if Dangling(b[0], topics) then [] else b
  {
    if b == [] {
      assert a + b == a;
    } else {
      var n := |b| - 1;
      assert (a + b)[..|a + b| - 1] == a + b[..n];
      ResolvedAppend(a, b[..n], topics);
      if n == 0 { assert b[..0] == [] && b == [b[0]]; }
    }
  }

  /** get_secondary_data: dangling connections are not shown. */
  function Read(doc: Doc): Doc {
    doc.(connections := Resolved(doc.connections, doc.topics))
  }

  // ----- patching -----

  function ApplyOne(doc: Doc, op: Op): Option<Doc> {
    match op
    case SetTopic(id, topic) => Some(doc.(topics := doc.topics[id := topic]))
    case RemoveTopic(id) => Some(doc.(topics := doc.topics - {id}))
    case AddConnection(c) => Some(doc.(connections := doc.connections + [c]))
    case RemoveConnection(i) =>
      if i < |doc.connections| then Some(doc.(connections := doc.connections[..i] + doc.connections[i + 1..])) else None
  }

  function ApplyAll(doc: Doc, ops: seq<Op>): Option<Doc>
    decreases |ops|
  {
    if ops == [] then Some(doc)
    else match ApplyOne(doc, ops[0]) case None => None case Some(next) => ApplyAll(next, ops[1..])
  }

  class Store {
    var doc: Doc

    constructor (doc: Doc)
      ensures this.doc == doc
    {
      this.doc := doc;
    }

    /** apply_patch: every operation is tried on a copy, which is stored only if all succeed. */
    method Patch(ops: seq<Op>) returns (ok: bool)
      modifies this
      ensures ok <==> ops != [] && ApplyAll(old(doc), ops).Some?
      ensures doc == if ok then ApplyAll(old(doc), ops).value else old(doc)
    {
      if ops == [] { return false; }
      var copy := doc;
      assert ops[0..] == ops;
      for i := 0 to |ops|
        invariant doc == old(doc)
        invariant ApplyAll(copy, ops[i..]) == ApplyAll(doc, ops)
      {
        assert ops[i..][1..] == ops[i + 1..];
        var next := ApplyOne(copy, ops[i]);
        if next == None { return false; }
        copy := next.value;
      }
      assert ops[|ops|..] == [];
      doc := copy;
      ok := true;
    }
  }

  lemma {:induction false} ApplyAppend(doc: Doc, a: seq<Op>, b: seq<Op>)
    ensures ApplyAll(doc, a + b)
         == match ApplyAll(doc, a) case None => None case Some(mid) => ApplyAll(mid, b)
    decreases |a|
  {
    if a == [] {
      assert a + b == b;
    } else {
      assert (a + b)[1..] == a[1..] + b;
      match ApplyOne(doc, a[0])
      case None =>
      case Some(next) => ApplyAppend(next, a[1..], b);
    }
  }

  lemma ApplyLast(doc: Doc, a: seq<Op>, op: Op)
    ensures ApplyAll(doc, a + [op])
         == match ApplyAll(doc, a) case None => None case Some(mid) => ApplyOne(mid, op)
  {
    ApplyAppend(doc, a, [op]);
    assert [op][1..] == [];
    match ApplyAll(doc, a)
    case None =>
    case Some(mid) => assert ApplyAll(mid, [op]) == ApplyOne(mid, op);
  }

  // ----- the tree of topics -----

  /** The n-th ancestor, as far as the parents lead. */
  function Up(topics: map<Id, Topic>, x: Id, n: nat): Option<Id> {
    if n == 0 then Some(x)
    else match Up(topics, x, n - 1)
      case None => None
      case Some(y) => if y in topics then topics[y].parent else None
  }

  ghost predicate Below(topics: map<Id, Topic>, x: Id, y: Id) {
    exists n: nat :: n > 0 && Up(topics, x, n) == Some(y)
  }

  /** No topic is its own ancestor. */
  ghost predicate Forest(topics: map<Id, Topic>) {
    forall x :: !Below(topics, x, x)
  }

  lemma {:induction false} UpTwice(topics: map<Id, Topic>, x: Id, m: nat, n: nat)
    requires Up(topics, x, m).Some?
    ensures Up(topics, x, m + n) == Up(topics, Up(topics, x, m).value, n)
  {
    if n > 0 { UpTwice(topics, x, m, n - 1); }
  }

  lemma {:induction false} UpShorter(topics: map<Id, Topic>, x: Id, m: nat, n: nat)
    requires m <= n && Up(topics, x, n).Some?
    ensures Up(topics, x, m).Some?
  {
    if m < n { UpShorter(topics, x, m, n - 1); }
  }

  /** Cutting edges keeps a forest a forest. */
  lemma FewerParents(topics: map<Id, Topic>, fewer: map<Id, Topic>)
    requires Forest(topics)
    requires forall x :: x in fewer ==> x in topics && (fewer[x].parent == None || fewer[x].parent == topics[x].parent)
    ensures Forest(fewer)
  {
    forall x, n: nat | n > 0 && Up(fewer, x, n) == Some(x) ensures false {
      FewerUp(topics, fewer, x, n);
      assert Below(topics, x, x);
    }
  }

  lemma {:induction false} FewerUp(topics: map<Id, Topic>, fewer: map<Id, Topic>, x: Id, n: nat)
    requires forall x :: x in fewer ==> x in topics && (fewer[x].parent == None || fewer[x].parent == topics[x].parent)
    requires Up(fewer, x, n).Some?
    ensures Up(topics, x, n) == Up(fewer, x, n)
  {
    if n > 0 { FewerUp(topics, fewer, x, n - 1); }
  }

  // ----- the pairs that are connected -----

  function Pair(c: Connection): set<Id> {
    {c.source, c.target}
  }

  predicate PairsUnique(cs: seq<Connection>) {
    forall i, j :: 0 <= i < j < |cs| ==> Pair(cs[i]) != Pair(cs[j])
  }

  lemma DanglingByPair(c: Connection, topics: map<Id, Topic>)
    ensures Dangling(c, topics) <==> !(Pair(c) <= topics.Keys)
  {
  }
}
