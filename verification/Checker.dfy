/** The transcript checker (protocol/validate.py, check_transcript). */
module Checker {
  // One pass that keeps nine pieces of state, proved to report exactly the violations the history
  // defines.

  import opened Messages
  import opened Basics

  // ----- timestamps: strings compared by code point -----

  predicate Before(a: string, b: string) {
    b != [] && (a == [] || a[0] < b[0] || (a[0] == b[0] && Before(a[1..], b[1..])))
  }

  lemma {:induction false} NotBeforeTransitive(a: string, b: string, c: string)
    requires !Before(b, a) && !Before(c, b)
    ensures !Before(c, a)
    decreases |a|
  {
    if a != [] && b != [] && c != [] && a[0] == b[0] == c[0] {
      NotBeforeTransitive(a[1..], b[1..], c[1..]);
    }
  }

  // ----- what one line can be blamed for -----

  datatype Kind =
    | DuplicateId | TimeBackwards
    | HelloUnanswered | NotAnAnswer | OutsideConnection
    | StartedTwice | ResumeUnknownRun | ResumeCursor | BeforeStart
    | StreamBeforeStart | WrongSeq | AfterTerminal
    | ProposedTwice | NeverProposed | AlreadyFinished
    | ReportNeverProposed | WrongTool | FinishedTwice

  /** Line(n, k): line n (counted from 1) breaks rule k.
      Unfinished(calls): these calls of ended runs were never finished. */
  datatype Problem =
    | Line(n: int, kind: Kind)
    | Unfinished(calls: set<(RunId, CallId)>)

  /** Does message m, arriving after history h, break rule k? A hello, and the welcome or
      error that answers one, is exempt from everything but the first two rules. */
  ghost predicate Violates(h: Transcript, m: Message, k: Kind) {
    var b := m.body;
    match k
    case DuplicateId => exists i :: 0 <= i < |h| && h[i].id == m.id
    case TimeBackwards => h != [] && Before(m.ts, h[|h| - 1].ts)
    case HelloUnanswered => b.Hello? && AwaitsWelcome(h)
    case NotAnAnswer => AwaitsWelcome(h) && !(b.Hello? || b.Welcome? || b.Error?)
    case OutsideConnection =>
      !b.Hello? && !b.Error? && !(b.Welcome? && AwaitsWelcome(h)) && !OpenAfter(h)
    case StartedTwice => b.RunStart? && StartedIn(h, b.run)
    case ResumeUnknownRun => b.RunResume? && !StartedIn(h, b.run)
    case ResumeCursor => b.RunResume? && StartedIn(h, b.run) && b.lastSeq != LastSeq(h, b.run)
    case BeforeStart =>
      (b.UserMessage? || b.Cancel? || AboutCall(b)) && !StartedIn(h, b.run)
    case StreamBeforeStart => b.Stream? && !StartedIn(h, b.run)
    case WrongSeq => b.Stream? && b.seqNo != LastSeq(h, b.run) + 1
    case AfterTerminal => b.Stream? && EndedIn(h, b.run)
    case ProposedTwice => b.Stream? && b.event.ToolProposed? && ProposedIn(h, b.run, b.event.call)
    case NeverProposed => AboutCall(b) && !ProposedIn(h, b.run, b.call)
    case AlreadyFinished => AboutCall(b) && ProposedIn(h, b.run, b.call) && FinishedIn(h, b.run, b.call)
    case ReportNeverProposed => Reports(b) && !ProposedIn(h, b.run, b.event.call)
    case WrongTool =>
      Reports(b) && ProposedIn(h, b.run, b.event.call) && ToolOf(h, b.run, b.event.call) != Some(b.event.tool)
    case FinishedTwice => b.Stream? && b.event.ToolFinished? && FinishedIn(h, b.run, b.event.call)
  }

  predicate Reports(b: Body) {
    b.Stream? && (b.event.ToolStarted? || b.event.ToolFinished?)
  }

  /** A call of an ended run that was proposed and never finished. */
  ghost predicate LeftOpen(h: Transcript, r: RunId, c: CallId) {
    ProposedIn(h, r, c) && !FinishedIn(h, r, c) && EndedIn(h, r)
  }

  /** No line breaks a rule and no ended run has an open call. */
  ghost predicate Clean(msgs: Transcript) {
    && LinesClean(msgs)
    && forall r, c :: !LeftOpen(msgs, r, c)
  }

  ghost predicate LinesClean(msgs: Transcript) {
    forall n, k :: 0 <= n < |msgs| ==> !Violates(msgs[..n], msgs[n], k)
  }

  /** The problems of line n, in the order the rules were tried. */
  function Blame(n: int, bad: seq<Kind>): (ps: seq<Problem>)
    ensures forall i, k :: Line(i, k) in ps <==> i == n && k in bad
    ensures forall p :: p in ps ==> p.Line?
  {
    if bad == [] then [] else [Line(n, bad[0])] + Blame(n, bad[1..])
  }

  // ----- the pass -----

  ghost predicate TracksIds(h: Transcript, seenIds: set<string>, lastTs: Option<string>) {
    && (forall x :: x in seenIds <==> exists i :: 0 <= i < |h| && h[i].id == x)
    && lastTs == (if h == [] then None else Some(h[|h| - 1].ts))
  }

  ghost predicate TracksRuns(h: Transcript, lastSeq: map<RunId, int>, started: set<RunId>, terminal: set<RunId>) {
    && (forall r :: r in started <==> StartedIn(h, r))
    && (forall r :: r in terminal <==> EndedIn(h, r))
    && (forall r :: LastSeq(h, r) == if r in lastSeq then lastSeq[r] else 0)
  }

  ghost predicate TracksCalls(h: Transcript, proposed: map<(RunId, CallId), string>, finished: set<(RunId, CallId)>) {
    && (forall r, c :: (r, c) in finished <==> FinishedIn(h, r, c))
    && (forall r, c :: (r, c) in proposed <==> ProposedIn(h, r, c))
    && (forall r, c :: (r, c) in proposed ==> ToolOf(h, r, c) == Some(proposed[(r, c)]))
  }

  lemma TracksIdsStep(h: Transcript, m: Message, seenIds: set<string>, lastTs: Option<string>)
    requires TracksIds(h, seenIds, lastTs)
    ensures TracksIds(h + [m], seenIds + {m.id}, Some(m.ts))
  {
    var g := h + [m];
    assert g[|h|] == m;
    assert forall i :: 0 <= i < |h| ==> g[i] == h[i];
  }

  lemma TracksRunsStep(h: Transcript, m: Message,
                       lastSeq: map<RunId, int>, started: set<RunId>, terminal: set<RunId>)
    requires TracksRuns(h, lastSeq, started, terminal)
    ensures TracksRuns(h + [m], NowDelivered(m.body, lastSeq), NowStarted(m.body, started), NowEnded(m.body, terminal))
  {
    var lastSeq', started', terminal' :=
      NowDelivered(m.body, lastSeq), NowStarted(m.body, started), NowEnded(m.body, terminal);
    forall r
      ensures r in started' <==> StartedIn(h + [m], r)
      ensures r in terminal' <==> EndedIn(h + [m], r)
      ensures LastSeq(h + [m], r) == if r in lastSeq' then lastSeq'[r] else 0
    {
      StartedStep(h, m, r);
      EndedStep(h, m, r);
      StreamOfStep(h, m, r);
    }
  }

  function NowDelivered(b: Body, lastSeq: map<RunId, int>): map<RunId, int> {
    if b.Stream? then lastSeq[b.run := b.seqNo] else lastSeq
  }

  function NowStarted(b: Body, started: set<RunId>): set<RunId> {
    if b.RunStart? then started + {b.run} else started
  }

  function NowEnded(b: Body, terminal: set<RunId>): set<RunId> {
    if b.Stream? && Ends(b, b.run) then terminal + {b.run} else terminal
  }

  lemma TracksCallsStep(h: Transcript, m: Message,
                        proposed: map<(RunId, CallId), string>, finished: set<(RunId, CallId)>)
    requires TracksCalls(h, proposed, finished)
    ensures TracksCalls(h + [m], NowProposed(m.body, proposed), NowFinished(m.body, finished))
  {
    var proposed', finished' := NowProposed(m.body, proposed), NowFinished(m.body, finished);
    forall r, c ensures (r, c) in finished' <==> FinishedIn(h + [m], r, c) {
      FinishedStep(h, m, r, c);
    }
    forall r, c
      ensures (r, c) in proposed' <==> ProposedIn(h + [m], r, c)
      ensures (r, c) in proposed' ==> ToolOf(h + [m], r, c) == Some(proposed'[(r, c)])
    {
      ProposedStep(h, m, r, c);
      ToolOfStep(h, m, r, c);
    }
  }

  function NowProposed(b: Body, proposed: map<(RunId, CallId), string>): map<(RunId, CallId), string> {
    if b.Stream? && b.event.ToolProposed? then proposed[(b.run, b.event.call) := b.event.tool] else proposed
  }

  function NowFinished(b: Body, finished: set<(RunId, CallId)>): set<(RunId, CallId)> {
    if b.Stream? && b.event.ToolFinished? then finished + {(b.run, b.event.call)} else finished
  }

  /** problems holds exactly the violations of the first n lines. */
  ghost predicate Reported(msgs: Transcript, n: nat, problems: seq<Problem>)
    requires n <= |msgs|
  {
    && (forall p :: p in problems ==> p.Line?)
    && (forall i, k :: Line(i, k) in problems
                  <==> 1 <= i <= n && Violates(msgs[..i - 1], msgs[i - 1], k))
  }

  lemma ReportedStep(msgs: Transcript, n: nat, problems: seq<Problem>, bad: seq<Kind>)
    requires n < |msgs| && Reported(msgs, n, problems)
    requires forall k :: k in bad <==> Violates(msgs[..n], msgs[n], k)
    ensures Reported(msgs, n + 1, problems + Blame(n + 1, bad))
  {
  }

  predicate EnvelopeKind(k: Kind) { k.DuplicateId? || k.TimeBackwards? }
  predicate ConnectionKind(k: Kind) { k.HelloUnanswered? || k.NotAnAnswer? || k.OutsideConnection? }
  predicate RunKind(k: Kind) {
    k.StartedTwice? || k.ResumeUnknownRun? || k.ResumeCursor? || k.BeforeStart?
    || k.StreamBeforeStart? || k.WrongSeq? || k.AfterTerminal?
  }
  predicate CallKind(k: Kind) {
    !EnvelopeKind(k) && !ConnectionKind(k) && !RunKind(k)
  }

  lemma VerdictIsUnion(h: Transcript, m: Message, envBad: seq<Kind>, connBad: seq<Kind>,
                       runBad: seq<Kind>, callBad: seq<Kind>)
    requires forall k :: k in envBad <==> EnvelopeKind(k) && Violates(h, m, k)
    requires forall k :: k in connBad <==> ConnectionKind(k) && Violates(h, m, k)
    requires forall k :: k in runBad <==> RunKind(k) && Violates(h, m, k)
    requires forall k :: k in callBad <==> CallKind(k) && Violates(h, m, k)
    ensures forall k :: k in envBad + connBad + runBad + callBad <==> Violates(h, m, k)
  {
  }

  lemma OutsideRuns(h: Transcript, m: Message, k: Kind)
    requires !RunScoped(m.body) && Violates(h, m, k)
    ensures EnvelopeKind(k) || ConnectionKind(k)
  {
  }

  /** Ids and timestamps. */
  method CheckEnvelope(ghost h: Transcript, m: Message, seenIds: set<string>, lastTs: Option<string>)
    returns (bad: seq<Kind>)
    requires TracksIds(h, seenIds, lastTs)
    ensures forall k :: k in bad <==> EnvelopeKind(k) && Violates(h, m, k)
  {
    bad := [];
    if m.id in seenIds { bad := bad + [DuplicateId]; }
    if lastTs.Some? && Before(m.ts, lastTs.value) { bad := bad + [TimeBackwards]; }
  }

  /** The hello/welcome grammar. handled is the loop's continue. */
  method CheckConnection(ghost h: Transcript, m: Message, connOpen: bool, expectingWelcome: bool)
    returns (bad: seq<Kind>, connOpen': bool, expectingWelcome': bool, handled: bool)
    requires connOpen == OpenAfter(h) && expectingWelcome == AwaitsWelcome(h)
    ensures forall k :: k in bad <==> ConnectionKind(k) && Violates(h, m, k)
    ensures connOpen' == OpenAfter(h + [m]) && expectingWelcome' == AwaitsWelcome(h + [m])
    ensures handled ==> !RunScoped(m.body)
  {
    OpenStep(h, m);
    var b := m.body;
    bad, connOpen', expectingWelcome', handled := [], connOpen, expectingWelcome, false;
    if b.Hello? {
      if expectingWelcome { bad := bad + [HelloUnanswered]; }
      return bad, false, true, true;
    }
    if expectingWelcome {
      if b.Welcome? { return [], true, false, true; }
      if b.Error? { return [], connOpen, false, true; }
      bad := bad + [NotAnAnswer];
      expectingWelcome' := false;
    }
    if !connOpen && !b.Error? { bad := bad + [OutsideConnection]; }
  }

  /** Starts, resume cursors and sequence numbers. */
  method CheckRun(ghost h: Transcript, m: Message,
                  lastSeq: map<RunId, int>, started: set<RunId>, terminal: set<RunId>)
    returns (bad: seq<Kind>, lastSeq': map<RunId, int>, started': set<RunId>)
    requires TracksRuns(h, lastSeq, started, terminal)
    ensures forall k :: k in bad <==> RunKind(k) && Violates(h, m, k)
    ensures started' == NowStarted(m.body, started)
    ensures lastSeq' == NowDelivered(m.body, lastSeq)
  {
    var b := m.body;
    bad, lastSeq', started' := [], lastSeq, started;
    if b.RunStart? {
      if b.run in started { bad := bad + [StartedTwice]; }
      started' := started + {b.run};
    } else if b.RunResume? {
      if b.run !in started {
        bad := bad + [ResumeUnknownRun];
      } else if b.lastSeq != (if b.run in lastSeq then lastSeq[b.run] else 0) {
        bad := bad + [ResumeCursor];
      }
    } else if b.UserMessage? || b.Cancel? || AboutCall(b) {
      if b.run !in started { bad := bad + [BeforeStart]; }
    }
    if b.Stream? {
      if b.run !in started { bad := bad + [StreamBeforeStart]; }
      var want := (if b.run in lastSeq then lastSeq[b.run] else 0) + 1;
      if b.seqNo != want { bad := bad + [WrongSeq]; }
      lastSeq' := lastSeq[b.run := b.seqNo];
      if b.run in terminal { bad := bad + [AfterTerminal]; }
    }
  }

  /** Proposals, results, reports and terminal states. */
  method CheckCall(ghost h: Transcript, m: Message, terminal: set<RunId>,
                   proposed: map<(RunId, CallId), string>, finished: set<(RunId, CallId)>)
    returns (bad: seq<Kind>, terminal': set<RunId>,
             proposed': map<(RunId, CallId), string>, finished': set<(RunId, CallId)>)
    requires TracksCalls(h, proposed, finished)
    ensures forall k :: k in bad <==> CallKind(k) && Violates(h, m, k)
    ensures terminal' == NowEnded(m.body, terminal)
    ensures proposed' == NowProposed(m.body, proposed) && finished' == NowFinished(m.body, finished)
  {
    var b := m.body;
    bad, terminal', proposed', finished' := [], terminal, proposed, finished;
    if b.Stream? && b.event.ToolProposed? {
      if (b.run, b.event.call) in proposed { bad := bad + [ProposedTwice]; }
      proposed' := proposed[(b.run, b.event.call) := b.event.tool];
    } else if AboutCall(b) {
      if (b.run, b.call) !in proposed {
        bad := bad + [NeverProposed];
      } else if (b.run, b.call) in finished {
        bad := bad + [AlreadyFinished];
      }
    } else if b.Stream? {
      if Reports(b) {
        var key := (b.run, b.event.call);
        if key !in proposed {
          bad := bad + [ReportNeverProposed];
        } else if proposed[key] != b.event.tool {
          bad := bad + [WrongTool];
        }
        if b.event.ToolFinished? {
          if key in finished { bad := bad + [FinishedTwice]; }
          finished' := finished + {key};
        }
      } else if b.event.StateChanged? && IsTerminal(b.event.state) {
        terminal' := terminal + {b.run};
      }
    }
  }

  /** Line 507: the calls of ended runs that were proposed and never finished. */
  method OpenCalls(ghost h: Transcript, terminal: set<RunId>,
                   proposed: map<(RunId, CallId), string>, finished: set<(RunId, CallId)>)
    returns (calls: set<(RunId, CallId)>)
    requires TracksCalls(h, proposed, finished)
    requires forall r :: r in terminal <==> EndedIn(h, r)
    ensures forall r, c :: (r, c) in calls <==> LeftOpen(h, r, c)
    ensures calls == {} <==> forall r, c :: !LeftOpen(h, r, c)
  {
    calls := set k | k in proposed && k !in finished && k.0 in terminal;
    if calls != {} {
      var k :| k in calls;
      assert LeftOpen(h, k.0, k.1);
    } else {
      forall r, c ensures !LeftOpen(h, r, c) {
        assert (r, c) !in calls;
      }
    }
  }

  /** The nine pieces of state the pass keeps. */
  datatype State = State(seenIds: set<string>, lastTs: Option<string>, connOpen: bool, expectingWelcome: bool,
                         runs: RunsSeen)

  datatype RunsSeen = RunsSeen(lastSeq: map<RunId, int>, started: set<RunId>, terminal: set<RunId>,
                               proposed: map<(RunId, CallId), string>, finished: set<(RunId, CallId)>)

  ghost predicate TracksScope(h: Transcript, s: RunsSeen) {
    TracksRuns(h, s.lastSeq, s.started, s.terminal) && TracksCalls(h, s.proposed, s.finished)
  }

  ghost predicate Tracks(h: Transcript, s: State) {
    && TracksIds(h, s.seenIds, s.lastTs)
    && s.connOpen == OpenAfter(h) && s.expectingWelcome == AwaitsWelcome(h)
    && TracksScope(h, s.runs)
  }

  lemma TracksScopeStep(h: Transcript, m: Message, s: RunsSeen)
    requires TracksScope(h, s)
    ensures TracksScope(h + [m], RunsSeen(NowDelivered(m.body, s.lastSeq), NowStarted(m.body, s.started),
                                          NowEnded(m.body, s.terminal), NowProposed(m.body, s.proposed),
                                          NowFinished(m.body, s.finished)))
  {
    TracksRunsStep(h, m, s.lastSeq, s.started, s.terminal);
    TracksCallsStep(h, m, s.proposed, s.finished);
  }

  /** Messages about connections leave the state of the runs alone. */
  lemma OutsideScope(h: Transcript, m: Message, s: RunsSeen)
    requires TracksScope(h, s) && !RunScoped(m.body)
    ensures TracksScope(h + [m], s)
  {
    TracksScopeStep(h, m, s);
  }

  method CheckScope(ghost h: Transcript, m: Message, s: RunsSeen)
    returns (runBad: seq<Kind>, callBad: seq<Kind>, next: RunsSeen)
    requires TracksScope(h, s)
    ensures TracksScope(h + [m], next)
    ensures forall k :: k in runBad <==> RunKind(k) && Violates(h, m, k)
    ensures forall k :: k in callBad <==> CallKind(k) && Violates(h, m, k)
  {
    TracksScopeStep(h, m, s);
    var lastSeq, started, terminal, proposed, finished;
    runBad, lastSeq, started := CheckRun(h, m, s.lastSeq, s.started, s.terminal);
    callBad, terminal, proposed, finished := CheckCall(h, m, s.terminal, s.proposed, s.finished);
    next := RunsSeen(lastSeq, started, terminal, proposed, finished);
  }

  lemma NoScopeKinds(h: Transcript, m: Message, k: Kind)
    requires !RunScoped(m.body)
    ensures RunKind(k) || CallKind(k) ==> !Violates(h, m, k)
  {
    if Violates(h, m, k) { OutsideRuns(h, m, k); }
  }

  /** One turn of the loop. */
  method CheckMessage(ghost h: Transcript, m: Message, s: State) returns (bad: seq<Kind>, next: State)
    requires Tracks(h, s)
    ensures Tracks(h + [m], next)
    ensures forall k :: k in bad <==> Violates(h, m, k)
  {
    TracksIdsStep(h, m, s.seenIds, s.lastTs);
    bad := CheckEnvelope(h, m, s.seenIds, s.lastTs);
    var connBad, connOpen, expectingWelcome, handled := CheckConnection(h, m, s.connOpen, s.expectingWelcome);
    var runBad: seq<Kind>, callBad: seq<Kind>, runs := [], [], s.runs;
    if !handled {
      runBad, callBad, runs := CheckScope(h, m, s.runs);
    } else {
      OutsideScope(h, m, s.runs);
      forall k ensures RunKind(k) || CallKind(k) ==> !Violates(h, m, k) { NoScopeKinds(h, m, k); }
    }
    VerdictIsUnion(h, m, bad, connBad, runBad, callBad);
    bad := bad + connBad + runBad + callBad;
    next := State(s.seenIds + {m.id}, Some(m.ts), connOpen, expectingWelcome, runs);
  }

  /** check_transcript: every problem reported is a real violation on that line, and every
      violation is reported. */
  method CheckTranscript(msgs: Transcript) returns (problems: seq<Problem>)
    ensures forall n, k :: Line(n, k) in problems
                      <==> 1 <= n <= |msgs| && Violates(msgs[..n - 1], msgs[n - 1], k)
    ensures (exists calls :: Unfinished(calls) in problems) <==> (exists r, c :: LeftOpen(msgs, r, c))
    ensures forall calls :: Unfinished(calls) in problems
                       ==> forall r, c :: (r, c) in calls <==> LeftOpen(msgs, r, c)
  {
    problems := [];
    var state := State({}, None, false, false, RunsSeen(map[], {}, {}, map[], {}));
    var n := 0;
    while n < |msgs|
      invariant 0 <= n <= |msgs|
      invariant Tracks(msgs[..n], state)
      invariant Reported(msgs, n, problems)
    {
      assert msgs[..n + 1] == msgs[..n] + [msgs[n]];
      var bad;
      bad, state := CheckMessage(msgs[..n], msgs[n], state);
      ReportedStep(msgs, n, problems, bad);
      n := n + 1;
      problems := problems + Blame(n, bad);
    }

    assert msgs[..n] == msgs;
    var openCalls := OpenCalls(msgs, state.runs.terminal, state.runs.proposed, state.runs.finished);
    if openCalls != {} {
      problems := problems + [Unfinished(openCalls)];
    }
  }

  /** An exact report is empty just when there was nothing to report. */
  lemma ReportedNothing(msgs: Transcript, problems: seq<Problem>)
    requires forall n, k :: Line(n, k) in problems
                       <==> 1 <= n <= |msgs| && Violates(msgs[..n - 1], msgs[n - 1], k)
    requires (exists calls :: Unfinished(calls) in problems) <==> (exists r, c :: LeftOpen(msgs, r, c))
    ensures problems == [] <==> Clean(msgs)
  {
    if problems == [] {
      forall n, k | 0 <= n < |msgs| ensures !Violates(msgs[..n], msgs[n], k) {
        assert Line(n + 1, k) !in problems;
      }
    } else {
      assert problems[0] in problems;
      match problems[0]
      case Line(n, k) => assert Violates(msgs[..n - 1], msgs[n - 1], k);
      case Unfinished(calls) =>
    }
  }
}
