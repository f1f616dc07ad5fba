/** Sequence, replay and resume (protocol/README.md, section 5). */
module Replay {
  // A state machine: a server that appends to numbered streams and puts them on a wire that can
  // be cut, a device that resumes from the highest number it received and ignores duplicates. In
  // every reachable state the device holds a prefix of the server's stream, and the transcript
  // recorded at the device breaks no rule of the checker but possibly two: a replayed message keeps
  // its old timestamp, and a greeting that is cut short is followed by another hello.

  import opened Messages
  import opened Checker
  import opened TranscriptRules
  import opened Basics

  datatype Link = Down | Greeting | Up

  datatype World = World(
    streams: map<RunId, seq<Message>>,  // server: everything appended to each run
    cursors: map<RunId, nat>,           // server: how far each run is sent on this connection
    wire: seq<Message>,                 // sent, not yet received, in order
    link: Link,
    highest: map<RunId, nat>,           // device: highest seq received per run
    transcript: Transcript,             // what was delivered, both directions
    minted: map<string, Origin>)        // every message id so far, and what it was minted for

  /** An id belongs to one position of one stream, or to a message outside the streams. */
  datatype Origin = OnRun(run: RunId, position: nat) | Elsewhere

  datatype Step =
    | Append(run: RunId, event: StreamEvent, id: string, ts: string)
    | Send(run: RunId)
    | Rewind(run: RunId, to: nat)
    | Deliver
    | Drop
    | Dial(id: string, ts: string)
    | Answer(id: string, ts: string)
    | Refuse(id: string, ts: string)
    | Begin(run: RunId, id: string, ts: string)
    | Resume(run: RunId, id: string, ts: string)
    | Say(body: Body, id: string, ts: string)

  function Highest(w: World, r: RunId): nat {
    if r in w.highest then w.highest[r] else 0
  }

  // ----- what each side may do -----

  /** The server's own duties: a call is proposed once, reported with its own tool, finished
      once; a run ends with no call open and nothing follows. */
  ghost predicate LegalEvent(s: seq<Message>, r: RunId, e: StreamEvent) {
    && !EndedIn(s, r)
    && match e
       case ToolProposed(c, _) => !ProposedIn(s, r, c)
       case ToolStarted(c, tool) => ToolOf(s, r, c) == Some(tool)
       case ToolFinished(c, tool) => ToolOf(s, r, c) == Some(tool) && !FinishedIn(s, r, c)
       case StateChanged(st) => IsTerminal(st) ==> forall c :: ProposedIn(s, r, c) ==> FinishedIn(s, r, c)
       case Quiet => true
  }

  /** The device speaks about runs it started and calls it saw proposed and not finished. */
  ghost predicate MaySay(w: World, b: Body) {
    || b.Ping? || b.Pong? || b.Error?
    || ((b.UserMessage? || b.Cancel?) && b.run in w.streams)
    || (AboutCall(b) && b.run in w.streams
        && ProposedIn(w.transcript, b.run, b.call) && !FinishedIn(w.transcript, b.run, b.call))
  }

  ghost predicate Enabled(w: World, s: Step) {
    match s
    case Append(r, e, id, _) => r in w.streams && id !in w.minted && LegalEvent(w.streams[r], r, e)
    case Send(r) => w.link.Up? && r in w.cursors && r in w.streams && w.cursors[r] < |w.streams[r]|
    case Rewind(r, to) => r in w.cursors && to <= w.cursors[r]
    case Deliver => w.wire != [] && w.wire[0].body.Stream?
    case Drop => !w.link.Down?
    case Dial(id, _) => w.link.Down? && id !in w.minted
    case Answer(id, _) => w.link.Greeting? && id !in w.minted
    case Refuse(id, _) => w.link.Greeting? && id !in w.minted
    case Begin(r, id, _) => w.link.Up? && r !in w.streams && id !in w.minted
    case Resume(r, id, _) => w.link.Up? && r in w.streams && r !in w.cursors && id !in w.minted
    case Say(b, id, _) => w.link.Up? && id !in w.minted && MaySay(w, b)
  }

  function Record(w: World, m: Message): World {
    w.(transcript := w.transcript + [m], minted := w.minted[m.id := Elsewhere])
  }

  ghost function After(w: World, s: Step): World
    requires Enabled(w, s)
  {
    match s
    case Append(r, e, id, ts) =>
      var m := Message(id, ts, Stream(r, |w.streams[r]| + 1, e));
      w.(streams := w.streams[r := w.streams[r] + [m]], minted := w.minted[id := OnRun(r, |w.streams[r]|)])
    case Send(r) =>
      w.(wire := w.wire + [w.streams[r][w.cursors[r]]], cursors := w.cursors[r := w.cursors[r] + 1])
    case Rewind(r, to) => w.(cursors := w.cursors[r := to])
    case Deliver => Received(w.(wire := w.wire[1..]), w.wire[0])
    case Drop => w.(link := Down, wire := [], cursors := map[])
    case Dial(id, ts) => Record(w.(link := Greeting), Message(id, ts, Hello))
    case Answer(id, ts) => Record(w.(link := Up), Message(id, ts, Welcome))
    case Refuse(id, ts) => Record(w.(link := Down), Message(id, ts, Error))
    case Begin(r, id, ts) =>
      Record(w.(streams := w.streams[r := []], cursors := w.cursors[r := 0]), Message(id, ts, RunStart(r)))
    case Resume(r, id, ts) =>
      Record(w.(cursors := w.cursors[r := Highest(w, r)]), Message(id, ts, RunResume(r, Highest(w, r))))
    case Say(b, id, ts) => Record(w, Message(id, ts, b))
  }

  /** The device takes a stream message: a number it already has is ignored. */
  function Received(w: World, m: Message): World
    requires m.body.Stream?
  {
    var r, n := m.body.run, m.body.seqNo;
    if n <= Highest(w, r) then w
    else w.(highest := w.highest[r := n], transcript := w.transcript + [m])
  }

  ghost predicate Next(w: World, w': World) {
    exists s :: Enabled(w, s) && w' == After(w, s)
  }

  predicate Initial(w: World) {
    w == World(map[], map[], [], Down, map[], [], map[])
  }

  /** A run of the system: states linked by steps, from the initial one. */
  ghost predicate Behaviour(ws: seq<World>) {
    Linked(ws) && Initial(ws[0])
  }

  ghost predicate Linked(ws: seq<World>) {
    ws != [] && forall i :: 0 <= i && i + 1 < |ws| ==> Next(ws[i], ws[i + 1])
  }

  // ----- the invariant -----

  ghost predicate StreamOk(s: seq<Message>, r: RunId) {
    s == [] || (StreamOk(s[..|s| - 1], r) && FollowsOn(s[..|s| - 1], r, s[|s| - 1]))
  }

  ghost predicate FollowsOn(s: seq<Message>, r: RunId, m: Message) {
    m.body.Stream? && m.body.run == r && m.body.seqNo == |s| + 1 && LegalEvent(s, r, m.body.event)
  }

  ghost predicate StreamsOk(w: World) {
    && (forall r :: r in w.streams ==> StreamOk(w.streams[r], r))
    && (forall r :: r in w.highest ==> r in w.streams && w.highest[r] <= |w.streams[r]|)
  }

  /** What was delivered of each run is a prefix of what the server appended. */
  ghost predicate LogsOk(w: World) {
    forall r :: LogOk(w, r)
  }

  ghost predicate LogOk(w: World, r: RunId) {
    && (r in w.streams <==> StartedIn(w.transcript, r))
    && (r in w.streams ==>
          && Highest(w, r) <= |w.streams[r]|
          && StreamOf(w.transcript, r) == w.streams[r][..Highest(w, r)])
  }

  /** Each id names one message; an undelivered stream message is not in the transcript. */
  ghost predicate IdsOk(w: World) {
    && DistinctIds(w.transcript)
    && (forall i :: 0 <= i < |w.transcript| ==> Delivered(w, w.transcript[i].id))
    && (forall r, k :: r in w.streams && 0 <= k < |w.streams[r]| ==> MintedFor(w, w.streams[r][k].id, r, k))
  }

  predicate MintedFor(w: World, id: string, r: RunId, k: int) {
    id in w.minted && w.minted[id] == OnRun(r, if k < 0 then 0 else k)
  }

  predicate Delivered(w: World, id: string) {
    && id in w.minted
    && match w.minted[id]
       case OnRun(r, k) => k < Highest(w, r)
       case Elsewhere => true
  }

  ghost predicate LinkOk(w: World) {
    && (w.link.Greeting? ==> AwaitsWelcome(w.transcript))
    && (w.link.Up? ==> OpenAfter(w.transcript) && !AwaitsWelcome(w.transcript))
    && (!w.link.Up? ==> w.wire == [] && w.cursors == map[])
  }

  /** Reading the wire from number n of run r on, no number is skipped, and at the end
      everything sent on this connection has been seen. */
  ghost predicate Unbroken(r: RunId, n: nat, wire: seq<Message>, sent: nat)
    decreases |wire|
  {
    if wire == [] then sent <= n
    else if CarriesRun(wire[0], r) then
      wire[0].body.seqNo <= n + 1 && Unbroken(r, Seen(n, wire[0]), wire[1..], sent)
    else Unbroken(r, n, wire[1..], sent)
  }

  predicate CarriesRun(m: Message, r: RunId) {
    m.body.Stream? && m.body.run == r
  }

  function Seen(n: nat, m: Message): nat {
    if m.body.Stream? && m.body.seqNo > n then n + 1 else n
  }

  ghost predicate WireOk(w: World) {
    && (forall i :: 0 <= i < |w.wire| ==> OnStream(w, w.wire[i]))
    && (forall r :: r in w.cursors ==> RunOnWire(w, r))
  }

  ghost predicate RunOnWire(w: World, r: RunId)
    requires r in w.cursors
  {
    r in w.streams && w.cursors[r] <= |w.streams[r]| && Unbroken(r, Highest(w, r), w.wire, w.cursors[r])
  }

  ghost predicate OnStream(w: World, m: Message) {
    && m.body.Stream? && m.body.run in w.streams && m.body.run in w.cursors
    && 1 <= m.body.seqNo <= |w.streams[m.body.run]|
    && m == w.streams[m.body.run][m.body.seqNo - 1]
  }

  ghost predicate Inv(w: World) {
    StreamsOk(w) && LogsOk(w) && IdsOk(w) && LinkOk(w) && WireOk(w) && AllFitButHellos(w.transcript)
  }

  // ----- streams decide the history of their run -----

  lemma {:induction false} StreamDecides(h: Transcript, r: RunId, c: CallId)
    ensures ProposedIn(h, r, c) <==> ProposedIn(StreamOf(h, r), r, c)
    ensures FinishedIn(h, r, c) <==> FinishedIn(StreamOf(h, r), r, c)
    ensures EndedIn(h, r) <==> EndedIn(StreamOf(h, r), r)
    ensures ToolOf(h, r, c) == ToolOf(StreamOf(h, r), r, c)
  {
    if h != [] {
      var h', m := h[..|h| - 1], h[|h| - 1];
      assert h == h' + [m];
      StreamDecides(h', r, c);
      StreamOfStep(h', m, r);
      ProposedStep(h', m, r, c); FinishedStep(h', m, r, c); EndedStep(h', m, r); ToolOfStep(h', m, r, c);
      var s := StreamOf(h', r);
      ProposedStep(s, m, r, c); FinishedStep(s, m, r, c); EndedStep(s, m, r); ToolOfStep(s, m, r, c);
    }
  }

  /** Each message of a stream followed on from the ones before it. */
  lemma {:induction false} StreamAt(s: seq<Message>, r: RunId, k: nat)
    requires StreamOk(s, r) && k < |s|
    ensures FollowsOn(s[..k], r, s[k]) && StreamOk(s[..k], r)
  {
    if k < |s| - 1 {
      StreamAt(s[..|s| - 1], r, k);
      assert s[..|s| - 1][..k] == s[..k];
    }
  }

  lemma StreamPrefix(s: seq<Message>, r: RunId, k: nat)
    requires StreamOk(s, r) && k <= |s|
    ensures StreamOk(s[..k], r)
  {
    if k < |s| { StreamAt(s, r, k); } else { assert s[..k] == s; }
  }

  /** A stream that keeps the server's duties leaves no call open when it ends. */
  lemma {:induction false} EndsClosed(s: seq<Message>, r: RunId, c: CallId)
    requires StreamOk(s, r)
    ensures !LeftOpen(s, r, c)
  {
    if s != [] {
      var s', m := s[..|s| - 1], s[|s| - 1];
      assert s == s' + [m];
      EndsClosed(s', r, c);
      ProposedStep(s', m, r, c);
      FinishedStep(s', m, r, c);
      EndedStep(s', m, r);
    }
  }

  // ----- preservation: one lemma per component and kind of step -----

  lemma AppendStreams(w: World, s: Step)
    requires StreamsOk(w) && Enabled(w, s) && s.Append?
    ensures StreamsOk(After(w, s))
  {
    var m := Message(s.id, s.ts, Stream(s.run, |w.streams[s.run]| + 1, s.event));
    var grown := w.streams[s.run] + [m];
    assert grown[..|grown| - 1] == w.streams[s.run];
  }

  lemma {:induction false} UnbrokenMore(r: RunId, n: nat, wire: seq<Message>, sent: nat, m: Message)
    requires Unbroken(r, n, wire, sent)
    requires m.body.Stream?
    requires m.body.run == r ==> m.body.seqNo == sent + 1
    ensures Unbroken(r, n, wire + [m], if m.body.run == r then sent + 1 else sent)
    decreases |wire|
  {
    if wire == [] {
      assert (wire + [m])[1..] == [];
    } else {
      assert (wire + [m])[1..] == wire[1..] + [m];
      UnbrokenMore(r, if CarriesRun(wire[0], r) then Seen(n, wire[0]) else n, wire[1..], sent, m);
    }
  }

  lemma {:induction false} UnbrokenLess(r: RunId, n: nat, wire: seq<Message>, sent: nat, sent': nat)
    requires Unbroken(r, n, wire, sent) && sent' <= sent
    ensures Unbroken(r, n, wire, sent')
    decreases |wire|
  {
    if wire != [] {
      UnbrokenLess(r, if CarriesRun(wire[0], r) then Seen(n, wire[0]) else n, wire[1..], sent, sent');
    }
  }

  /** A wire that carries nothing of r breaks nothing of r. */
  lemma {:induction false} UnbrokenElsewhere(r: RunId, n: nat, wire: seq<Message>)
    requires forall i :: 0 <= i < |wire| ==> !CarriesRun(wire[i], r)
    ensures Unbroken(r, n, wire, n)
  {
    if wire != [] {
      UnbrokenElsewhere(r, n, wire[1..]);
    }
  }

  lemma AppendWire(w: World, s: Step)
    requires WireOk(w) && Enabled(w, s) && s.Append?
    ensures WireOk(After(w, s))
  {
    var w' := After(w, s);
    forall i | 0 <= i < |w'.wire| ensures OnStream(w', w'.wire[i]) {
      assert OnStream(w, w.wire[i]);
    }
    forall r | r in w'.cursors ensures RunOnWire(w', r) {
      assert RunOnWire(w, r);
    }
  }

  lemma SendWire(w: World, s: Step)
    requires WireOk(w) && StreamsOk(w) && Enabled(w, s) && s.Send?
    ensures WireOk(After(w, s))
  {
    var w' := After(w, s);
    var m := w.streams[s.run][w.cursors[s.run]];
    StreamAt(w.streams[s.run], s.run, w.cursors[s.run]);
    forall i | 0 <= i < |w'.wire| ensures OnStream(w', w'.wire[i]) {
      if i < |w.wire| { assert OnStream(w, w.wire[i]); }
    }
    forall r | r in w'.cursors ensures RunOnWire(w', r) {
      assert RunOnWire(w, r);
      UnbrokenMore(r, Highest(w, r), w.wire, w.cursors[r], m);
    }
  }

  lemma RewindWire(w: World, s: Step)
    requires WireOk(w) && Enabled(w, s) && s.Rewind?
    ensures WireOk(After(w, s))
  {
    var w' := After(w, s);
    forall i | 0 <= i < |w'.wire| ensures OnStream(w', w'.wire[i]) {
      assert OnStream(w, w.wire[i]);
    }
    forall r | r in w'.cursors ensures RunOnWire(w', r) {
      assert RunOnWire(w, r);
      UnbrokenLess(r, Highest(w, r), w.wire, w.cursors[r], w'.cursors[r]);
    }
  }

  /** A delivered message the device did not have is the next number of its run. */
  lemma DeliverNext(w: World)
    requires WireOk(w) && Enabled(w, Deliver)
    ensures OnStream(w, w.wire[0])
    ensures w.wire[0].body.seqNo <= Highest(w, w.wire[0].body.run) + 1
  {
    assert OnStream(w, w.wire[0]);
    assert RunOnWire(w, w.wire[0].body.run);
  }

  lemma DeliverWire(w: World)
    requires WireOk(w) && Enabled(w, Deliver)
    ensures WireOk(After(w, Deliver))
  {
    var w' := After(w, Deliver);
    DeliverNext(w);
    forall i | 0 <= i < |w'.wire| ensures OnStream(w', w'.wire[i]) {
      assert OnStream(w, w.wire[i + 1]);
    }
    forall r | r in w'.cursors ensures RunOnWire(w', r) {
      assert RunOnWire(w, r);
    }
  }

  /** Run r joins the connection at the device's own position. */
  lemma JoinWire(w: World, s: Step)
    requires WireOk(w) && StreamsOk(w) && Enabled(w, s) && (s.Begin? || s.Resume?)
    ensures WireOk(After(w, s))
  {
    var w' := After(w, s);
    var r := s.run;
    if s.Begin? { assert r !in w.highest; }
    forall i | 0 <= i < |w'.wire| ensures OnStream(w', w'.wire[i]) && !CarriesRun(w.wire[i], r) {
      assert OnStream(w, w.wire[i]);
    }
    forall q | q in w'.cursors ensures RunOnWire(w', q) {
      if q == r {
        UnbrokenElsewhere(r, Highest(w, r), w.wire);
      } else {
        assert RunOnWire(w, q);
      }
    }
  }

  lemma OtherWire(w: World, s: Step)
    requires WireOk(w) && Enabled(w, s)
    requires s.Drop? || s.Dial? || s.Answer? || s.Refuse? || s.Say?
    ensures WireOk(After(w, s))
  {
    var w' := After(w, s);
    forall i | 0 <= i < |w'.wire| ensures OnStream(w', w'.wire[i]) {
      assert OnStream(w, w.wire[i]);
    }
    forall r | r in w'.cursors ensures RunOnWire(w', r) {
      assert RunOnWire(w, r);
    }
  }

  lemma WireKept(w: World, s: Step)
    requires WireOk(w) && StreamsOk(w) && Enabled(w, s)
    ensures WireOk(After(w, s))
  {
    match s
    case Append(_, _, _, _) => AppendWire(w, s);
    case Send(_) => SendWire(w, s);
    case Rewind(_, _) => RewindWire(w, s);
    case Deliver => DeliverWire(w);
    case Begin(_, _, _) => JoinWire(w, s);
    case Resume(_, _, _) => JoinWire(w, s);
    case _ => OtherWire(w, s);
  }

  lemma StreamsKept(w: World, s: Step)
    requires StreamsOk(w) && WireOk(w) && Enabled(w, s)
    ensures StreamsOk(After(w, s))
  {
    if s.Append? { AppendStreams(w, s); }
    if s.Deliver? { DeliverNext(w); }
  }

  /** The message a step records in the transcript, if any. */
  ghost function Recorded(w: World, s: Step): Option<Message>
    requires Enabled(w, s)
  {
    match s
    case Deliver => if w.wire[0].body.seqNo <= Highest(w, w.wire[0].body.run) then None else Some(w.wire[0])
    case Dial(id, ts) => Some(Message(id, ts, Hello))
    case Answer(id, ts) => Some(Message(id, ts, Welcome))
    case Refuse(id, ts) => Some(Message(id, ts, Error))
    case Begin(r, id, ts) => Some(Message(id, ts, RunStart(r)))
    case Resume(r, id, ts) => Some(Message(id, ts, RunResume(r, Highest(w, r))))
    case Say(b, id, ts) => Some(Message(id, ts, b))
    case _ => None
  }

  lemma TranscriptAfter(w: World, s: Step)
    requires Enabled(w, s)
    ensures After(w, s).transcript
         == if Recorded(w, s).Some? then w.transcript + [Recorded(w, s).value] else w.transcript
  {
  }

  lemma LinkKept(w: World, s: Step)
    requires LinkOk(w) && Enabled(w, s)
    ensures LinkOk(After(w, s))
  {
    TranscriptAfter(w, s);
    if Recorded(w, s).Some? { OpenStep(w.transcript, Recorded(w, s).value); }
  }

  lemma DeliverLogs(w: World, r: RunId)
    requires LogOk(w, r) && WireOk(w) && Enabled(w, Deliver)
    ensures LogOk(After(w, Deliver), r)
  {
    DeliverNext(w);
    if Recorded(w, Deliver).Some? { RecordedLog(w, w.wire[0], r); }
  }

  lemma RecordedLog(w: World, m: Message, r: RunId)
    requires LogOk(w, r) && OnStream(w, m) && m.body.seqNo == Highest(w, m.body.run) + 1
    ensures LogOk(Received(w, m), r)
  {
    StartedStep(w.transcript, m, r);
    StreamOfStep(w.transcript, m, r);
  }

  lemma BeginLog(w: World, s: Step)
    requires Enabled(w, s) && s.Begin? && LogOk(w, s.run) && StreamsOk(w) && AllFitButHellos(w.transcript)
    ensures LogOk(After(w, s), s.run)
  {
    var m := Message(s.id, s.ts, RunStart(s.run));
    StartedStep(w.transcript, m, s.run);
    StreamOfStep(w.transcript, m, s.run);
    NotStartedNoStream(w.transcript, s.run);
    assert s.run !in w.highest;
  }

  lemma AppendLog(w: World, s: Step, r: RunId)
    requires Enabled(w, s) && s.Append? && LogOk(w, r)
    ensures LogOk(After(w, s), r)
  {
  }

  /** A message that neither starts run r nor belongs to its stream leaves its log alone. */
  lemma OtherLog(w: World, w': World, m: Message, r: RunId)
    requires LogOk(w, r) && !m.body.Stream? && m.body != RunStart(r) && w'.transcript == w.transcript + [m]
    requires w'.highest == w.highest && (r in w'.streams <==> r in w.streams)
    requires r in w.streams ==> w'.streams[r] == w.streams[r]
    ensures LogOk(w', r)
  {
    StartedStep(w.transcript, m, r);
    StreamOfStep(w.transcript, m, r);
  }

  lemma SpokenLogs(w: World, s: Step, r: RunId)
    requires LogOk(w, r) && StreamsOk(w) && AllFitButHellos(w.transcript) && Enabled(w, s)
    requires !s.Deliver?
    ensures LogOk(After(w, s), r)
  {
    if s.Append? {
      AppendLog(w, s, r);
    } else if s.Begin? && s.run == r {
      BeginLog(w, s);
    } else if Recorded(w, s).Some? {
      OtherLog(w, After(w, s), Recorded(w, s).value, r);
    }
  }

  lemma LogsKept(w: World, s: Step)
    requires LogsOk(w) && StreamsOk(w) && WireOk(w) && AllFitButHellos(w.transcript) && Enabled(w, s)
    ensures LogsOk(After(w, s))
  {
    var w' := After(w, s);
    forall r ensures LogOk(w', r) {
      assert LogOk(w, r);
      if s.Deliver? { DeliverLogs(w, r); } else { SpokenLogs(w, s, r); }
    }
  }

  lemma FitButHellosStep(h: Transcript, m: Message)
    ensures AllFitButHellos(h + [m]) <==> AllFitButHellos(h) && FitsButHello(h, m)
  {
    var g := h + [m];
    assert g[..|h|] == h && g[|h|] == m;
    forall n | 0 <= n < |h| ensures g[..n] == h[..n] && g[n] == h[n] {
    }
    if AllFitButHellos(g) {
      forall n | 0 <= n < |h| ensures FitsButHello(h[..n], h[n]) {
        assert FitsButHello(g[..n], g[n]);
      }
      assert FitsButHello(g[..|h|], g[|h|]);
    }
  }

  lemma {:induction false} NotStartedNoStream(h: Transcript, r: RunId)
    requires AllFitButHellos(h) && !StartedIn(h, r)
    ensures StreamOf(h, r) == []
  {
    if h != [] {
      var h', m := h[..|h| - 1], h[|h| - 1];
      assert h == h' + [m];
      FitButHellosStep(h', m);
      StartedStep(h', m, r);
      StreamOfStep(h', m, r);
      NotStartedNoStream(h', r);
      assert !Violates(h', m, StreamBeforeStart);
    }
  }

  lemma DeliveredKept(w: World, s: Step)
    requires IdsOk(w) && WireOk(w) && Enabled(w, s)
    ensures forall i :: 0 <= i < |w.transcript| ==> Delivered(After(w, s), w.transcript[i].id)
  {
    if s.Deliver? { DeliverNext(w); }
    forall i | 0 <= i < |w.transcript| ensures Delivered(After(w, s), w.transcript[i].id) {
      assert Delivered(w, w.transcript[i].id);
    }
  }

  lemma MintedKept(w: World, s: Step)
    requires IdsOk(w) && StreamsOk(w) && WireOk(w) && Enabled(w, s)
    ensures forall r, k :: r in After(w, s).streams && 0 <= k < |After(w, s).streams[r]|
              ==> MintedFor(After(w, s), After(w, s).streams[r][k].id, r, k)
  {
    var w' := After(w, s);
    if s.Deliver? { DeliverNext(w); }
    forall r, k | r in w'.streams && 0 <= k < |w'.streams[r]| ensures MintedFor(w', w'.streams[r][k].id, r, k) {
      assert (s.Append? && s.run == r && k == |w.streams[r]|) || MintedFor(w, w.streams[r][k].id, r, k);
    }
  }

  /** A recorded message has an id that no recorded message had before. */
  lemma RecordedIsNew(w: World, s: Step)
    requires IdsOk(w) && StreamsOk(w) && WireOk(w) && Enabled(w, s) && Recorded(w, s).Some?
    ensures Delivered(After(w, s), Recorded(w, s).value.id)
    ensures forall i :: 0 <= i < |w.transcript| ==> w.transcript[i].id != Recorded(w, s).value.id
  {
    var m := Recorded(w, s).value;
    if s.Deliver? {
      DeliverNext(w);
      assert MintedFor(w, m.id, m.body.run, m.body.seqNo - 1);
    }
    forall i | 0 <= i < |w.transcript| ensures w.transcript[i].id != m.id {
      assert Delivered(w, w.transcript[i].id);
    }
  }

  lemma DistinctMore(t: Transcript, m: Message)
    requires DistinctIds(t) && forall i :: 0 <= i < |t| ==> t[i].id != m.id
    ensures DistinctIds(t + [m])
  {
  }

  lemma IdsKept(w: World, s: Step)
    requires IdsOk(w) && StreamsOk(w) && WireOk(w) && Enabled(w, s)
    ensures IdsOk(After(w, s))
  {
    DeliveredKept(w, s);
    MintedKept(w, s);
    TranscriptAfter(w, s);
    if Recorded(w, s).Some? {
      RecordedIsNew(w, s);
      DistinctMore(w.transcript, Recorded(w, s).value);
    }
  }

  lemma DeliveredFits(w: World)
    requires LogsOk(w) && StreamsOk(w) && LinkOk(w) && WireOk(w)
    requires Enabled(w, Deliver) && Recorded(w, Deliver).Some?
    ensures Fits(w.transcript, w.wire[0])
  {
    DeliverNext(w);
    var m := w.wire[0];
    var r, n := m.body.run, Highest(w, m.body.run);
    assert LogOk(w, r);
    StreamAt(w.streams[r], r, n);
    NextFits(w.transcript, w.streams[r][..n], r, m);
  }

  /** A message that follows on from what was delivered of its run fits an open connection. */
  lemma NextFits(t: Transcript, p: seq<Message>, r: RunId, m: Message)
    requires StreamOf(t, r) == p && StartedIn(t, r) && OpenAfter(t) && !AwaitsWelcome(t)
    requires StreamOk(p, r) && FollowsOn(p, r, m)
    ensures Fits(t, m)
  {
    if p != [] { StreamAt(p, r, |p| - 1); }
    assert LastSeq(t, r) == |p|;
    var c := if m.body.event.ToolProposed? || Reports(m.body) then m.body.event.call else "";
    StreamDecides(t, r, c);
    ToolOfProposed(t, r, c);
  }

  /** What the device and the connection may say, against what was recorded. */
  ghost predicate Sayable(t: Transcript, b: Body) {
    if b.Hello? then true
    else if b.Welcome? then AwaitsWelcome(t)
    else if b.Error? then AwaitsWelcome(t) || OpenAfter(t)
    else
      && !b.Stream? && OpenAfter(t) && !AwaitsWelcome(t)
      && (RunScoped(b) ==> (StartedIn(t, b.run) <==> !b.RunStart?))
      && (b.RunResume? ==> b.lastSeq == LastSeq(t, b.run))
      && (AboutCall(b) ==> ProposedIn(t, b.run, b.call) && !FinishedIn(t, b.run, b.call))
  }

  lemma SayableFits(t: Transcript, m: Message)
    requires Sayable(t, m.body)
    ensures FitsButHello(t, m)
  {
  }

  lemma SpokenFits(w: World, s: Step)
    requires LogsOk(w) && StreamsOk(w) && LinkOk(w)
    requires Enabled(w, s) && !s.Deliver? && Recorded(w, s).Some?
    ensures FitsButHello(w.transcript, Recorded(w, s).value)
  {
    var b := Recorded(w, s).value.body;
    if RunScoped(b) { assert LogOk(w, b.run); }
    if s.Resume? { LastDelivered(w, s.run); }
    SayableFits(w.transcript, Recorded(w, s).value);
  }

  lemma LastDelivered(w: World, r: RunId)
    requires LogOk(w, r) && StreamsOk(w) && r in w.streams
    ensures LastSeq(w.transcript, r) == Highest(w, r)
  {
    var n := Highest(w, r);
    if n > 0 { StreamAt(w.streams[r], r, n - 1); }
  }

  lemma StepKeepsInv(w: World, s: Step)
    requires Inv(w) && Enabled(w, s)
    ensures Inv(After(w, s))
  {
    StreamsKept(w, s);
    LogsKept(w, s);
    IdsKept(w, s);
    LinkKept(w, s);
    WireKept(w, s);
    TranscriptAfter(w, s);
    if Recorded(w, s).Some? {
      if s.Deliver? { DeliveredFits(w); } else { SpokenFits(w, s); }
      FitButHellosStep(w.transcript, Recorded(w, s).value);
    }
  }

  lemma NextKeepsInv(w: World, w': World)
    requires Inv(w) && Next(w, w')
    ensures Inv(w')
  {
    var s :| Enabled(w, s) && w' == After(w, s);
    StepKeepsInv(w, s);
  }

  lemma {:induction false} ReachableInv(ws: seq<World>)
    requires Behaviour(ws)
    ensures Inv(ws[|ws| - 1])
  {
    if |ws| > 1 {
      var before := ws[..|ws| - 1];
      forall i | 0 <= i && i + 1 < |before| ensures Next(before[i], before[i + 1]) {
        assert Next(ws[i], ws[i + 1]);
      }
      ReachableInv(before);
      NextKeepsInv(ws[|ws| - 2], ws[|ws| - 1]);
    }
  }

  // ----- the theorems -----

  /** Safety of replay: whatever disconnects, resumes and redeliveries happened, what the device
      recorded of a run is a prefix of what the server appended, as long as the device's highest number. */
  lemma DeviceHoldsPrefix(ws: seq<World>, r: RunId)
    requires Behaviour(ws) && r in ws[|ws| - 1].streams
    ensures var w := ws[|ws| - 1];
            && StreamOf(w.transcript, r) <= w.streams[r]
            && |StreamOf(w.transcript, r)| == Highest(w, r)
  {
    ReachableInv(ws);
    assert LogOk(ws[|ws| - 1], r);
  }

  /** Timestamps aside, a transcript the protocol produces breaks no rule except that on hellos,
      and that one exactly if some greeting was cut short and another hello followed. */
  lemma TranscriptsCohere(ws: seq<World>)
    requires Behaviour(ws)
    ensures var t := ws[|ws| - 1].transcript;
      && DistinctIds(t)
      && (Coherent(t) <==> HellosAnswered(t))
      && (HellosAnswered(t) <==> NoHelloTwice(t))
  {
    ReachableInv(ws);
    var w := ws[|ws| - 1];
    forall r, c ensures !LeftOpen(w.transcript, r, c) { NoCallLeft(w, r, c); }
    HellosDecide(w.transcript);
  }

  lemma NoCallLeft(w: World, r: RunId, c: CallId)
    requires StreamsOk(w) && LogsOk(w) && AllFitButHellos(w.transcript)
    ensures !LeftOpen(w.transcript, r, c)
  {
    assert LogOk(w, r);
    StreamDecides(w.transcript, r, c);
    if r in w.streams {
      StreamPrefix(w.streams[r], r, Highest(w, r));
      EndsClosed(w.streams[r][..Highest(w, r)], r, c);
    } else {
      NotStartedNoStream(w.transcript, r);
    }
  }

  /** What is still to be sent or received of run r. */
  function Backlog(w: World, r: RunId): int
    requires r in w.cursors && r in w.streams
  {
    |w.wire| + 2 * (|w.streams[r]| - w.cursors[r])
  }

  ghost predicate Attached(w: World, r: RunId) {
    w.link.Up? && r in w.cursors && r in w.streams && w.cursors[r] <= |w.streams[r]|
  }

  lemma DrainStep(w: World, r: RunId) returns (w': World)
    requires WireOk(w) && Attached(w, r) && Backlog(w, r) > 0
    ensures Next(w, w') && Attached(w', r) && w'.streams == w.streams && Backlog(w', r) < Backlog(w, r)
  {
    var s := if w.wire != [] then Deliver else Send(r);
    if w.wire != [] { assert OnStream(w, w.wire[0]); }
    w' := After(w, s);
    assert Enabled(w, s);
  }

  lemma Drained(w: World, r: RunId)
    requires WireOk(w) && LogsOk(w) && Attached(w, r) && Backlog(w, r) <= 0
    ensures StreamOf(w.transcript, r) == w.streams[r]
  {
    assert RunOnWire(w, r);
    assert LogOk(w, r);
  }

  lemma Prepend(w: World, ws: seq<World>)
    requires Linked(ws) && Next(w, ws[0])
    ensures Linked([w] + ws)
  {
    var all := [w] + ws;
    forall i | 0 <= i && i + 1 < |all| ensures Next(all[i], all[i + 1]) {
      if i > 0 { assert all[i] == ws[i - 1] && all[i + 1] == ws[i]; }
    }
  }

  /** Nothing is lost: once a run is attached again, delivering what is sent brings the device
      to the end of the stream. */
  lemma {:induction false} CatchUp(w: World, r: RunId) returns (ws: seq<World>)
    requires Inv(w) && Attached(w, r)
    ensures Linked(ws) && ws[0] == w
    ensures var end := ws[|ws| - 1];
            end.streams == w.streams && StreamOf(end.transcript, r) == w.streams[r]
    decreases Backlog(w, r)
  {
    if Backlog(w, r) <= 0 {
      Drained(w, r);
      return [w];
    }
    var w' := DrainStep(w, r);
    NextKeepsInv(w, w');
    var rest := CatchUp(w', r);
    Prepend(w, rest);
    ws := [w] + rest;
  }

  /** The same from any reachable state: the behaviour can go on until the device has it all. */
  lemma ResumeCatchesUp(ws: seq<World>, r: RunId) returns (more: seq<World>)
    requires Behaviour(ws) && Attached(ws[|ws| - 1], r)
    ensures Linked(more) && more[0] == ws[|ws| - 1]
    ensures var end := more[|more| - 1];
            end.streams == more[0].streams && StreamOf(end.transcript, r) == end.streams[r]
  {
    ReachableInv(ws);
    more := CatchUp(ws[|ws| - 1], r);
  }

  /** Only two rules are at risk: on protocol transcripts the checker's verdict is those two. */
  lemma AcceptedExactly(ws: seq<World>)
    requires Behaviour(ws)
    ensures var t := ws[|ws| - 1].transcript; Accepted(t) <==> TimesInOrder(t) && NoHelloTwice(t)
  {
    TranscriptsCohere(ws);
  }

  /** A step the checker will flag: what it records is stamped before the last message recorded, or
      is a hello after a greeting that was cut short. */
  ghost predicate Offends(w: World, s: Step)
    requires Enabled(w, s)
  {
    Recorded(w, s).Some? && w.transcript != []
    && (Before(Recorded(w, s).value.ts, w.transcript[|w.transcript| - 1].ts) || (s.Dial? && AwaitsWelcome(w.transcript)))
  }

  ghost predicate NextClean(w: World, w': World) {
    exists s :: Enabled(w, s) && w' == After(w, s) && !Offends(w, s)
  }

  /** Each state follows from the one before by a step that does not offend. */
  ghost predicate CleanSteps(ws: seq<World>) {
    forall i :: 0 <= i && i + 1 < |ws| ==> NextClean(ws[i], ws[i + 1])
  }

  lemma TimesMore(t: Transcript, m: Message)
    ensures TimesInOrder(t + [m]) <==> TimesInOrder(t) && (t == [] || !Before(m.ts, t[|t| - 1].ts))
  {
    var g := t + [m];
    if TimesInOrder(t) && (t == [] || !Before(m.ts, t[|t| - 1].ts)) {
      forall i, j | 0 <= i < j < |g| ensures !Before(g[j].ts, g[i].ts) {
        if j == |t| && i < |t| - 1 { NotBeforeTransitive(t[i].ts, t[|t| - 1].ts, m.ts); }
      }
    }
    if TimesInOrder(g) {
      forall i, j | 0 <= i < j < |t| ensures !Before(t[j].ts, t[i].ts) { assert g[i] == t[i] && g[j] == t[j]; }
      if t != [] { assert g[|t|] == m && g[|t| - 1] == t[|t| - 1]; }
    }
  }

  lemma HellosMore(t: Transcript, m: Message)
    ensures NoHelloTwice(t + [m]) <==> NoHelloTwice(t) && !(AwaitsWelcome(t) && m.body.Hello?)
  {
    var g := t + [m];
    assert forall i :: 0 <= i < |t| ==> g[i] == t[i];
    assert g[|t|] == m;
    if t != [] && NoHelloTwice(g) { assert g[|t| - 1] == t[|t| - 1]; }
  }

  ghost predicate Orderly(t: Transcript) {
    TimesInOrder(t) && NoHelloTwice(t)
  }

  lemma StepIsOrderly(w: World, s: Step)
    requires Enabled(w, s)
    ensures Orderly(After(w, s).transcript) <==> Orderly(w.transcript) && !Offends(w, s)
  {
    TranscriptAfter(w, s);
    if Recorded(w, s).Some? {
      var m := Recorded(w, s).value;
      OnlyDialsHello(w, s);
      TimesMore(w.transcript, m);
      HellosMore(w.transcript, m);
    }
  }

  lemma OnlyDialsHello(w: World, s: Step)
    requires Enabled(w, s) && Recorded(w, s).Some?
    ensures Recorded(w, s).value.body.Hello? <==> s.Dial?
  {
  }

  lemma {:induction false} OrderlyBySteps(ws: seq<World>)
    requires Behaviour(ws)
    ensures Orderly(ws[|ws| - 1].transcript) <==> CleanSteps(ws)
  {
    if |ws| > 1 {
      var n := |ws| - 1;
      var before := ws[..n];
      forall i | 0 <= i && i + 1 < |before| ensures Next(before[i], before[i + 1]) { assert Next(ws[i], ws[i + 1]); }
      OrderlyBySteps(before);
      assert Next(ws[n - 1], ws[n]);
      var s :| Enabled(ws[n - 1], s) && ws[n] == After(ws[n - 1], s);
      StepIsOrderly(ws[n - 1], s);
      if NextClean(ws[n - 1], ws[n]) {
        var s' :| Enabled(ws[n - 1], s') && ws[n] == After(ws[n - 1], s') && !Offends(ws[n - 1], s');
        StepIsOrderly(ws[n - 1], s');
      }
      LastIsClean(ws, n);
    }
  }

  lemma LastIsClean(ws: seq<World>, n: nat)
    requires |ws| == n + 1 && n > 0
    ensures CleanSteps(ws) <==> CleanSteps(ws[..n]) && NextClean(ws[n - 1], ws[n])
  {
    var before := ws[..n];
    assert forall i :: 0 <= i < n ==> before[i] == ws[i];
    if CleanSteps(ws) {
      forall i | 0 <= i && i + 1 < n ensures NextClean(before[i], before[i + 1]) { assert NextClean(ws[i], ws[i + 1]); }
      assert NextClean(ws[n - 1], ws[n - 1 + 1]);
    }
    if CleanSteps(before) && NextClean(ws[n - 1], ws[n]) {
      forall i | 0 <= i && i + 1 < |ws| ensures NextClean(ws[i], ws[i + 1]) {
        if i + 1 < n { assert NextClean(before[i], before[i + 1]); }
      }
    }
  }

  /** Which runs of the protocol the checker accepts: those without such a step. With clocks that
      never go back that leaves two: delivering an event older than what was recorded since, and
      dialling again after a cut greeting. */
  lemma AcceptedBySteps(ws: seq<World>)
    requires Behaviour(ws)
    ensures Accepted(ws[|ws| - 1].transcript) <==> CleanSteps(ws)
  {
    AcceptedExactly(ws);
    OrderlyBySteps(ws);
  }

  lemma Extend(ws: seq<World>, s: Step) returns (ws': seq<World>)
    requires Behaviour(ws) && Enabled(ws[|ws| - 1], s)
    ensures Behaviour(ws') && ws'[|ws'| - 1] == After(ws[|ws| - 1], s)
  {
    ws' := ws + [After(ws[|ws| - 1], s)];
    assert Next(ws[|ws| - 1], ws'[|ws|]);
    forall i | 0 <= i && i + 1 < |ws'| ensures Next(ws'[i], ws'[i + 1]) {
      if i + 1 < |ws| { assert Next(ws[i], ws[i + 1]); }
    }
  }

  /** First connection: run r is started and has one event, stamped 1, when the link drops. */
  lemma CutOff() returns (ws: seq<World>)
    ensures Behaviour(ws)
    ensures var w := ws[|ws| - 1];
            && w.link.Down? && w.streams == map["r" := [Message("d", "1", Stream("r", 1, Quiet))]]
            && w.minted.Keys == {"a", "b", "c", "d"} && w.highest == map[] && w.cursors == map[] && w.wire == []
  {
    ws := [World(map[], map[], [], Down, map[], [], map[])];
    ws := Extend(ws, Dial("a", "1"));
    ws := Extend(ws, Answer("b", "1"));
    ws := Extend(ws, Begin("r", "c", "1"));
    assert ws[|ws| - 1].streams == map["r" := []];
    ws := Extend(ws, Append("r", Quiet, "d", "1"));
    assert ws[|ws| - 1].streams["r"] == [Message("d", "1", Stream("r", 1, Quiet))];
    ws := Extend(ws, Drop);
  }

  /** And it does fail: an event stamped before a reconnect and replayed verbatim after it. */
  lemma VerbatimReplayCanGoBackInTime() returns (ws: seq<World>)
    ensures Behaviour(ws) && !TimesInOrder(ws[|ws| - 1].transcript)
  {
    ws := CutOff();
    ws := Extend(ws, Dial("e", "2"));
    ws := Extend(ws, Answer("f", "2"));
    ws := Extend(ws, Resume("r", "g", "2"));
    ws := Extend(ws, Send("r"));
    ws := Extend(ws, Deliver);
    var t := ws[|ws| - 1].transcript;
    assert t[|t| - 1].ts == "1" && t[|t| - 2].ts == "2" && Before("1", "2");
  }

  /** And a link cut between a hello and its answer: the next hello makes two in a row. */
  lemma CutGreetingIsFlagged() returns (ws: seq<World>)
    ensures Behaviour(ws) && !NoHelloTwice(ws[|ws| - 1].transcript) && !Coherent(ws[|ws| - 1].transcript)
  {
    ws := [World(map[], map[], [], Down, map[], [], map[])];
    ws := Extend(ws, Dial("a", "1"));
    ws := Extend(ws, Drop);
    ws := Extend(ws, Dial("b", "1"));
    var t := ws[|ws| - 1].transcript;
    assert t[0].body.Hello? && t[1].body.Hello?;
  }
}
