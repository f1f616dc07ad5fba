/** The messages of the M2C protocol, as far as the transcript checker looks at them,
    and the history a prefix of a transcript stands for.

    A message is well formed by construction: run_id is present exactly on run-scoped
    messages and seq exactly on the three server stream types. Timestamps stay the strings
    they are on the wire; payloads are cut down to what a rule of the checker mentions. */
module Messages {
  import opened Basics

  type RunId = string
  type CallId = string

  datatype RunState =
    | Created | Running | AwaitingApproval | Completed | PausedBudget
    | PausedDisconnected | PausedError | Cancelled | Failed | Expired

  predicate IsTerminal(s: RunState) {
    s in {Completed, Cancelled, Failed, Expired}
  }

  /** What a stream message reports. Quiet stands for text_delta, text_done, usage,
      notice and budget_warning, which carry nothing the checker reads. */
  datatype StreamEvent =
    | ToolProposed(call: CallId, tool: string)
    | ToolStarted(call: CallId, tool: string)
    | ToolFinished(call: CallId, tool: string)
    | StateChanged(state: RunState)
    | Quiet

  datatype Body =
    | Hello | Welcome | Error | Ping | Pong
    | RunStart(run: RunId)
    | RunResume(run: RunId, lastSeq: int)
    | UserMessage(run: RunId)
    | Cancel(run: RunId)
    | ToolResult(run: RunId, call: CallId)
    | ToolStream(run: RunId, call: CallId)
    | Approval(run: RunId, call: CallId)
    | Stream(run: RunId, seqNo: int, event: StreamEvent)

  datatype Message = Message(id: string, ts: string, body: Body)

  type Transcript = seq<Message>

  predicate RunScoped(b: Body) {
    !(b.Hello? || b.Welcome? || b.Error? || b.Ping? || b.Pong?)
  }

  /** tool_result, tool_stream or approval: a device message about one call. */
  predicate AboutCall(b: Body) {
    b.ToolResult? || b.ToolStream? || b.Approval?
  }

  predicate Proposes(b: Body, r: RunId, c: CallId) {
    b.Stream? && b.run == r && b.event.ToolProposed? && b.event.call == c
  }

  predicate Finishes(b: Body, r: RunId, c: CallId) {
    b.Stream? && b.run == r && b.event.ToolFinished? && b.event.call == c
  }

  predicate Ends(b: Body, r: RunId) {
    b.Stream? && b.run == r && b.event.StateChanged? && IsTerminal(b.event.state)
  }

  // ----- the history of a prefix -----

  ghost predicate StartedIn(h: Transcript, r: RunId) {
    exists i :: 0 <= i < |h| && h[i].body == RunStart(r)
  }

  ghost predicate ProposedIn(h: Transcript, r: RunId, c: CallId) {
    exists i :: 0 <= i < |h| && Proposes(h[i].body, r, c)
  }

  ghost predicate FinishedIn(h: Transcript, r: RunId, c: CallId) {
    exists i :: 0 <= i < |h| && Finishes(h[i].body, r, c)
  }

  ghost predicate EndedIn(h: Transcript, r: RunId) {
    exists i :: 0 <= i < |h| && Ends(h[i].body, r)
  }

  /** A hello waits for its answer exactly when it is the last message. */
  ghost predicate AwaitsWelcome(h: Transcript) {
    h != [] && h[|h| - 1].body.Hello?
  }

  /** Some hello was answered by welcome and no other hello came since. */
  ghost predicate OpenAfter(h: Transcript) {
    exists k :: OpenedAt(h, k)
  }

  ghost predicate OpenedAt(h: Transcript, k: int) {
    && 0 <= k && k + 1 < |h|
    && h[k].body.Hello? && h[k + 1].body.Welcome?
    && forall j :: k < j < |h| ==> !h[j].body.Hello?
  }

  /** The stream of run r inside h, in order of delivery. */
  ghost function StreamOf(h: Transcript, r: RunId): seq<Message> {
    if h == [] then []
    else
      var last, before := h[|h| - 1], StreamOf(h[..|h| - 1], r);
      if last.body.Stream? && last.body.run == r then before + [last] else before
  }

  ghost function LastSeq(h: Transcript, r: RunId): int {
    var s := StreamOf(h, r);
    if s == [] then 0 else if s[|s| - 1].body.Stream? then s[|s| - 1].body.seqNo else 0
  }

  /** The tool the latest proposal of a call named. */
  ghost function ToolOf(h: Transcript, r: RunId, c: CallId): Option<string> {
    if h == [] then None
    else
      var b := h[|h| - 1].body;
      if Proposes(b, r, c) then Some(b.event.tool) else ToolOf(h[..|h| - 1], r, c)
  }

  lemma {:induction false} ToolOfProposed(h: Transcript, r: RunId, c: CallId)
    ensures ToolOf(h, r, c).Some? <==> ProposedIn(h, r, c)
  {
    if h != [] {
      var p := h[..|h| - 1];
      ToolOfProposed(p, r, c);
      if ProposedIn(p, r, c) {
        var i :| 0 <= i < |p| && Proposes(p[i].body, r, c);
        assert Proposes(h[i].body, r, c);
      }
      if ProposedIn(h, r, c) {
        var i :| 0 <= i < |h| && Proposes(h[i].body, r, c);
        assert i == |h| - 1 || Proposes(p[i].body, r, c);
      }
    }
  }

  // ----- one more message -----

  lemma StreamOfStep(h: Transcript, m: Message, r: RunId)
    ensures StreamOf(h + [m], r)
         == if m.body.Stream? && m.body.run == r then StreamOf(h, r) + [m] else StreamOf(h, r)
  {
    assert (h + [m])[..|h|] == h;
  }

  lemma ToolOfStep(h: Transcript, m: Message, r: RunId, c: CallId)
    ensures ToolOf(h + [m], r, c)
         == if Proposes(m.body, r, c) then Some(m.body.event.tool) else ToolOf(h, r, c)
  {
    assert (h + [m])[..|h|] == h;
  }

  lemma StartedStep(h: Transcript, m: Message, r: RunId)
    ensures StartedIn(h + [m], r) <==> StartedIn(h, r) || m.body == RunStart(r)
  {
    var g := h + [m];
    if StartedIn(h, r) {
      var i :| 0 <= i < |h| && h[i].body == RunStart(r);
      assert g[i].body == RunStart(r);
    }
    if m.body == RunStart(r) { assert g[|h|].body == RunStart(r); }
  }

  lemma ProposedStep(h: Transcript, m: Message, r: RunId, c: CallId)
    ensures ProposedIn(h + [m], r, c) <==> ProposedIn(h, r, c) || Proposes(m.body, r, c)
  {
    var g := h + [m];
    if ProposedIn(h, r, c) {
      var i :| 0 <= i < |h| && Proposes(h[i].body, r, c);
      assert Proposes(g[i].body, r, c);
    }
    if Proposes(m.body, r, c) { assert Proposes(g[|h|].body, r, c); }
  }

  lemma FinishedStep(h: Transcript, m: Message, r: RunId, c: CallId)
    ensures FinishedIn(h + [m], r, c) <==> FinishedIn(h, r, c) || Finishes(m.body, r, c)
  {
    var g := h + [m];
    if FinishedIn(h, r, c) {
      var i :| 0 <= i < |h| && Finishes(h[i].body, r, c);
      assert Finishes(g[i].body, r, c);
    }
    if Finishes(m.body, r, c) { assert Finishes(g[|h|].body, r, c); }
  }

  lemma EndedStep(h: Transcript, m: Message, r: RunId)
    ensures EndedIn(h + [m], r) <==> EndedIn(h, r) || Ends(m.body, r)
  {
    var g := h + [m];
    if EndedIn(h, r) {
      var i :| 0 <= i < |h| && Ends(h[i].body, r);
      assert Ends(g[i].body, r);
    }
    if Ends(m.body, r) { assert Ends(g[|h|].body, r); }
  }

  lemma OpenStep(h: Transcript, m: Message)
    ensures OpenAfter(h + [m])
       <==> if m.body.Hello? then false
            else OpenAfter(h) || (AwaitsWelcome(h) && m.body.Welcome?)
  {
    var g := h + [m];
    assert g[|h|] == m;
    if !m.body.Hello? {
      if OpenAfter(h) {
        var k :| OpenedAt(h, k);
        assert OpenedAt(g, k);
      }
      if AwaitsWelcome(h) && m.body.Welcome? {
        assert OpenedAt(g, |h| - 1);
      }
      if OpenAfter(g) {
        var k :| OpenedAt(g, k);
        if k + 1 < |h| {
          assert forall j :: k < j < |h| ==> h[j] == g[j];
          assert OpenedAt(h, k);
        }
      }
    }
  }
}
