/** The rules a transcript must keep. */
module TranscriptRules {
  // Stated over positions of the whole message list, with no running state, and the proof that the
  // one-pass checker decides exactly them.

  import opened Messages
  import opened Checker
  import opened Basics

  ghost predicate DistinctIds(t: Transcript) {
    forall i, j :: 0 <= i < j < |t| ==> t[i].id != t[j].id
  }

  ghost predicate TimesInOrder(t: Transcript) {
    forall i, j :: 0 <= i < j < |t| ==> !Before(t[j].ts, t[i].ts)
  }

  /** Whatever follows a hello is a welcome or an error. */
  ghost predicate HellosAnswered(t: Transcript) {
    forall i :: 0 <= i && i + 1 < |t| && t[i].body.Hello?
           ==> t[i + 1].body.Welcome? || t[i + 1].body.Error?
  }

  /** Everything but hello, error and the welcome answering a hello lies after some
      hello/welcome pair with no hello in between. */
  ghost predicate InsideConnections(t: Transcript) {
    forall i :: 0 <= i < |t| && NeedsConnection(t, i) ==> exists k :: HoldsOpen(t, k, i)
  }

  ghost predicate NeedsConnection(t: Transcript, i: nat)
    requires i < |t|
  {
    !t[i].body.Hello? && !t[i].body.Error? && !(t[i].body.Welcome? && i > 0 && t[i - 1].body.Hello?)
  }

  /** Message k is a hello answered by welcome, and no other hello comes before i. */
  ghost predicate HoldsOpen(t: Transcript, k: int, i: int) {
    && 0 <= k && k + 1 < i <= |t|
    && t[k].body.Hello? && t[k + 1].body.Welcome?
    && forall j :: k < j < i ==> !t[j].body.Hello?
  }

  ghost predicate StartedOnce(t: Transcript) {
    forall i, j :: 0 <= i < j < |t| && t[i].body.RunStart? ==> t[i].body != t[j].body
  }

  /** Every other run-scoped message comes after its run.start. */
  ghost predicate StartedFirst(t: Transcript) {
    forall i :: 0 <= i < |t| && RunScoped(t[i].body) && !t[i].body.RunStart?
           ==> exists j :: 0 <= j < i && t[j].body == RunStart(t[i].body.run)
  }

  /** The k-th stream message of a run is numbered k. */
  ghost predicate NumberedFromOne(t: Transcript) {
    forall i :: 0 <= i < |t| && t[i].body.Stream?
           ==> t[i].body.seqNo == |StreamOf(t[..i], t[i].body.run)| + 1
  }

  /** A resume asks for what was delivered before it, counted. */
  ghost predicate ResumesAtCount(t: Transcript) {
    forall i :: 0 <= i < |t| && t[i].body.RunResume?
           ==> t[i].body.lastSeq == |StreamOf(t[..i], t[i].body.run)|
  }

  ghost predicate ProposedOnce(t: Transcript) {
    forall i, j, r, c :: 0 <= i < j < |t| && Proposes(t[i].body, r, c) ==> !Proposes(t[j].body, r, c)
  }

  /** An approval, result or chunk names a call proposed before it and not yet finished. */
  ghost predicate CallsLive(t: Transcript) {
    forall i :: 0 <= i < |t| && AboutCall(t[i].body)
           ==> (exists j :: 0 <= j < i && Proposes(t[j].body, t[i].body.run, t[i].body.call))
               && forall j :: 0 <= j < i ==> !Finishes(t[j].body, t[i].body.run, t[i].body.call)
  }

  /** tool_started and tool_finished repeat the tool their call was proposed with. */
  ghost predicate ReportsMatch(t: Transcript) {
    forall i :: 0 <= i < |t| && Reports(t[i].body)
           ==> exists j :: 0 <= j < i && Proposes(t[j].body, t[i].body.run, t[i].body.event.call)
                           && t[j].body.event.tool == t[i].body.event.tool
  }

  ghost predicate FinishedOnce(t: Transcript) {
    forall i, j, r, c :: 0 <= i < j < |t| && Finishes(t[i].body, r, c) ==> !Finishes(t[j].body, r, c)
  }

  ghost predicate NothingAfterEnd(t: Transcript) {
    forall i, j, r :: 0 <= i < j < |t| && Ends(t[i].body, r) ==> !(t[j].body.Stream? && t[j].body.run == r)
  }

  /** Once a run has ended, each of its calls has been finished. */
  ghost predicate EndedRunsFinished(t: Transcript) {
    forall i, j, r, c :: 0 <= i < |t| && 0 <= j < |t| && Proposes(t[i].body, r, c) && Ends(t[j].body, r)
                    ==> exists k :: 0 <= k < |t| && Finishes(t[k].body, r, c)
  }

  ghost predicate Accepted(t: Transcript) {
    && DistinctIds(t) && TimesInOrder(t)
    && Coherent(t)
  }

  /** All rules but the two on ids and timestamps. */
  ghost predicate Coherent(t: Transcript) {
    && HellosAnswered(t) && InsideConnections(t)
    && StartedOnce(t) && StartedFirst(t)
    && NumberedFromOne(t) && ResumesAtCount(t)
    && ProposedOnce(t) && CallsLive(t) && ReportsMatch(t) && FinishedOnce(t)
    && NothingAfterEnd(t) && EndedRunsFinished(t)
  }

  // ----- each rule, kind by kind -----

  ghost predicate Never(t: Transcript, k: Kind) {
    forall n :: 0 <= n < |t| ==> !Violates(t[..n], t[n], k)
  }

  lemma IdsRule(t: Transcript)
    ensures DistinctIds(t) <==> Never(t, DuplicateId)
  {
    if Never(t, DuplicateId) {
      forall i, j | 0 <= i < j < |t| ensures t[i].id != t[j].id {
        assert !Violates(t[..j], t[j], DuplicateId);
        assert t[..j][i] == t[i];
      }
    }
  }

  lemma TimesRule(t: Transcript)
    ensures TimesInOrder(t) <==> Never(t, TimeBackwards)
  {
    if Never(t, TimeBackwards) {
      forall i, j | 0 <= i < j < |t| ensures !Before(t[j].ts, t[i].ts) {
        TimesBetween(t, i, j);
      }
    }
  }

  lemma {:induction false} TimesBetween(t: Transcript, i: nat, j: nat)
    requires Never(t, TimeBackwards) && i < j < |t|
    ensures !Before(t[j].ts, t[i].ts)
  {
    assert !Violates(t[..j], t[j], TimeBackwards);
    if i < j - 1 {
      TimesBetween(t, i, j - 1);
      NotBeforeTransitive(t[i].ts, t[j - 1].ts, t[j].ts);
    }
  }

  lemma HelloRule(t: Transcript)
    ensures HellosAnswered(t) <==> Never(t, HelloUnanswered) && Never(t, NotAnAnswer)
  {
    if Never(t, HelloUnanswered) && Never(t, NotAnAnswer) {
      forall i | 0 <= i && i + 1 < |t| && t[i].body.Hello?
        ensures t[i + 1].body.Welcome? || t[i + 1].body.Error?
      {
        assert AwaitsWelcome(t[..i + 1]);
        assert !Violates(t[..i + 1], t[i + 1], HelloUnanswered);
        assert !Violates(t[..i + 1], t[i + 1], NotAnAnswer);
      }
    }
  }

  lemma ConnectionRule(t: Transcript)
    ensures InsideConnections(t) <==> Never(t, OutsideConnection)
  {
    forall i | 0 <= i < |t|
      ensures Violates(t[..i], t[i], OutsideConnection) <==> NeedsConnection(t, i) && !exists k :: HoldsOpen(t, k, i)
    {
      assert forall j :: 0 <= j < i ==> t[..i][j] == t[j];
      if k :| OpenedAt(t[..i], k) { assert HoldsOpen(t, k, i); }
      if k :| HoldsOpen(t, k, i) { assert OpenedAt(t[..i], k); }
    }
  }

  lemma StartRules(t: Transcript)
    ensures StartedOnce(t) <==> Never(t, StartedTwice)
    ensures StartedFirst(t) <==> Never(t, ResumeUnknownRun) && Never(t, BeforeStart) && Never(t, StreamBeforeStart)
  {
    if Never(t, StartedTwice) {
      forall i, j | 0 <= i < j < |t| && t[i].body.RunStart? ensures t[i].body != t[j].body {
        assert !Violates(t[..j], t[j], StartedTwice);
        assert t[..j][i] == t[i];
      }
    }
    if Never(t, ResumeUnknownRun) && Never(t, BeforeStart) && Never(t, StreamBeforeStart) {
      forall i | 0 <= i < |t| && RunScoped(t[i].body) && !t[i].body.RunStart?
        ensures exists j :: 0 <= j < i && t[j].body == RunStart(t[i].body.run) {
        StartFound(t, i);
      }
    }
    if StartedFirst(t) {
      forall n | 0 <= n < |t| && RunScoped(t[n].body) && !t[n].body.RunStart?
        ensures StartedIn(t[..n], t[n].body.run)
      {
        StartedBefore(t, n);
      }
    }
  }

  lemma StartFound(t: Transcript, i: nat)
    requires i < |t| && RunScoped(t[i].body) && !t[i].body.RunStart?
    requires Never(t, ResumeUnknownRun) && Never(t, BeforeStart) && Never(t, StreamBeforeStart)
    ensures exists j :: 0 <= j < i && t[j].body == RunStart(t[i].body.run)
  {
    assert !Violates(t[..i], t[i], ResumeUnknownRun);
    assert !Violates(t[..i], t[i], BeforeStart);
    assert !Violates(t[..i], t[i], StreamBeforeStart);
    var j :| 0 <= j < |t[..i]| && t[..i][j].body == RunStart(t[i].body.run);
    assert t[j].body == RunStart(t[i].body.run);
  }

  lemma CountStep(h: Transcript, m: Message, r: RunId)
    requires LastSeq(h, r) == |StreamOf(h, r)|
    requires m.body.Stream? && m.body.run == r ==> m.body.seqNo == |StreamOf(h, r)| + 1
    ensures LastSeq(h + [m], r) == |StreamOf(h + [m], r)|
  {
    StreamOfStep(h, m, r);
  }

  /** While numbering holds, the last number delivered is the count delivered. */
  lemma {:induction false} LastIsCount(t: Transcript, n: nat, r: RunId)
    requires n <= |t|
    requires NumberedFromOne(t) || Never(t, WrongSeq)
    ensures LastSeq(t[..n], r) == |StreamOf(t[..n], r)|
  {
    if n > 0 {
      LastIsCount(t, n - 1, r);
      assert t[..n] == t[..n - 1] + [t[n - 1]];
      if Never(t, WrongSeq) {
        assert !Violates(t[..n - 1], t[n - 1], WrongSeq);
      }
      CountStep(t[..n - 1], t[n - 1], r);
    }
  }

  lemma NumberRule(t: Transcript)
    ensures NumberedFromOne(t) <==> Never(t, WrongSeq)
  {
    if NumberedFromOne(t) || Never(t, WrongSeq) {
      forall i | 0 <= i < |t| && t[i].body.Stream?
        ensures LastSeq(t[..i], t[i].body.run) == |StreamOf(t[..i], t[i].body.run)|
        ensures Never(t, WrongSeq) ==> !Violates(t[..i], t[i], WrongSeq)
      {
        LastIsCount(t, i, t[i].body.run);
      }
    }
  }

  lemma ResumeRule(t: Transcript)
    requires NumberedFromOne(t) && StartedFirst(t)
    ensures ResumesAtCount(t) <==> Never(t, ResumeCursor)
  {
    forall i | 0 <= i < |t| && t[i].body.RunResume?
      ensures t[i].body.lastSeq == |StreamOf(t[..i], t[i].body.run)| <==> !Violates(t[..i], t[i], ResumeCursor)
    {
      LastIsCount(t, i, t[i].body.run);
      StartedBefore(t, i);
    }
  }

  lemma StartedBefore(t: Transcript, i: nat)
    requires StartedFirst(t)
    requires i < |t| && RunScoped(t[i].body) && !t[i].body.RunStart?
    ensures StartedIn(t[..i], t[i].body.run)
  {
    var j :| 0 <= j < i && t[j].body == RunStart(t[i].body.run);
    assert t[..i][j] == t[j];
  }

  lemma OnceRules(t: Transcript)
    ensures ProposedOnce(t) <==> Never(t, ProposedTwice)
    ensures FinishedOnce(t) <==> Never(t, FinishedTwice)
    ensures NothingAfterEnd(t) <==> Never(t, AfterTerminal)
  {
    if Never(t, ProposedTwice) {
      forall i, j, r, c | 0 <= i < j < |t| && Proposes(t[i].body, r, c) ensures !Proposes(t[j].body, r, c) {
        assert !Violates(t[..j], t[j], ProposedTwice);
        assert Proposes(t[..j][i].body, r, c);
      }
    }
    if Never(t, FinishedTwice) {
      forall i, j, r, c | 0 <= i < j < |t| && Finishes(t[i].body, r, c) ensures !Finishes(t[j].body, r, c) {
        assert !Violates(t[..j], t[j], FinishedTwice);
        assert Finishes(t[..j][i].body, r, c);
      }
    }
    if Never(t, AfterTerminal) {
      forall i, j, r | 0 <= i < j < |t| && Ends(t[i].body, r)
        ensures !(t[j].body.Stream? && t[j].body.run == r)
      {
        assert !Violates(t[..j], t[j], AfterTerminal);
        assert Ends(t[..j][i].body, r);
      }
    }
  }

  lemma CallsRule(t: Transcript)
    ensures CallsLive(t) <==> Never(t, NeverProposed) && Never(t, AlreadyFinished)
  {
    if Never(t, NeverProposed) && Never(t, AlreadyFinished) {
      forall i | 0 <= i < |t| && AboutCall(t[i].body)
        ensures exists j :: 0 <= j < i && Proposes(t[j].body, t[i].body.run, t[i].body.call)
        ensures forall j :: 0 <= j < i ==> !Finishes(t[j].body, t[i].body.run, t[i].body.call)
      {
        assert !Violates(t[..i], t[i], NeverProposed);
        assert !Violates(t[..i], t[i], AlreadyFinished);
        var j :| 0 <= j < i && Proposes(t[..i][j].body, t[i].body.run, t[i].body.call);
        assert Proposes(t[j].body, t[i].body.run, t[i].body.call);
        assert forall j :: 0 <= j < i ==> t[..i][j] == t[j];
      }
    }
    if CallsLive(t) {
      forall i | 0 <= i < |t| && AboutCall(t[i].body)
        ensures ProposedIn(t[..i], t[i].body.run, t[i].body.call)
        ensures !FinishedIn(t[..i], t[i].body.run, t[i].body.call)
      {
        var j :| 0 <= j < i && Proposes(t[j].body, t[i].body.run, t[i].body.call);
        assert t[..i][j] == t[j];
      }
    }
  }

  /** The tool on record was named by an actual proposal. */
  lemma {:induction false} ToolOfWitness(h: Transcript, r: RunId, c: CallId) returns (j: nat)
    requires ToolOf(h, r, c).Some?
    ensures j < |h| && Proposes(h[j].body, r, c) && ToolOf(h, r, c) == Some(h[j].body.event.tool)
  {
    if Proposes(h[|h| - 1].body, r, c) {
      j := |h| - 1;
    } else {
      j := ToolOfWitness(h[..|h| - 1], r, c);
    }
  }

  lemma ReportRule(t: Transcript)
    requires ProposedOnce(t)
    ensures ReportsMatch(t) <==> Never(t, ReportNeverProposed) && Never(t, WrongTool)
  {
    if Never(t, ReportNeverProposed) && Never(t, WrongTool) {
      forall i | 0 <= i < |t| && Reports(t[i].body)
        ensures exists j :: 0 <= j < i && Proposes(t[j].body, t[i].body.run, t[i].body.event.call)
                            && t[j].body.event.tool == t[i].body.event.tool
      {
        assert !Violates(t[..i], t[i], ReportNeverProposed);
        assert !Violates(t[..i], t[i], WrongTool);
        var j := ToolOfWitness(t[..i], t[i].body.run, t[i].body.event.call);
        assert t[..i][j] == t[j];
      }
    }
    if ReportsMatch(t) {
      forall i | 0 <= i < |t| && Reports(t[i].body)
        ensures ToolOf(t[..i], t[i].body.run, t[i].body.event.call) == Some(t[i].body.event.tool)
        ensures ProposedIn(t[..i], t[i].body.run, t[i].body.event.call)
      {
        var r, c := t[i].body.run, t[i].body.event.call;
        var j :| 0 <= j < i && Proposes(t[j].body, r, c) && t[j].body.event.tool == t[i].body.event.tool;
        assert Proposes(t[..i][j].body, r, c);
        ToolOfProposed(t[..i], r, c);
        var j' := ToolOfWitness(t[..i], r, c);
        assert Proposes(t[j'].body, r, c);
        assert j' == j;
      }
    }
  }

  lemma EndRule(t: Transcript)
    ensures EndedRunsFinished(t) <==> forall r, c :: !LeftOpen(t, r, c)
  {
    if EndedRunsFinished(t) {
      forall r, c ensures !LeftOpen(t, r, c) {
        if ProposedIn(t, r, c) && EndedIn(t, r) {
          var i :| 0 <= i < |t| && Proposes(t[i].body, r, c);
          var j :| 0 <= j < |t| && Ends(t[j].body, r);
          assert exists k :: 0 <= k < |t| && Finishes(t[k].body, r, c);
        }
      }
    }
    if forall r, c :: !LeftOpen(t, r, c) {
      forall i, j, r, c | 0 <= i < |t| && 0 <= j < |t| && Proposes(t[i].body, r, c) && Ends(t[j].body, r)
        ensures exists k :: 0 <= k < |t| && Finishes(t[k].body, r, c)
      {
        assert !LeftOpen(t, r, c);
      }
    }
  }

  // ----- the main equivalence -----

  /** Message m breaks no rule other than those on ids and times. */
  ghost predicate Fits(h: Transcript, m: Message) {
    forall k :: !EnvelopeKind(k) ==> !Violates(h, m, k)
  }

  ghost predicate AllFit(t: Transcript) {
    forall n :: 0 <= n < |t| ==> Fits(t[..n], t[n])
  }

  ghost predicate NothingLeftOpen(t: Transcript) {
    forall r, c :: !LeftOpen(t, r, c)
  }

  lemma CoherentIsFit(t: Transcript)
    ensures Coherent(t) <==> AllFit(t) && NothingLeftOpen(t)
  {
    HelloRule(t); ConnectionRule(t); StartRules(t);
    NumberRule(t); OnceRules(t); CallsRule(t); EndRule(t);
    if NumberedFromOne(t) && StartedFirst(t) { ResumeRule(t); }
    if ProposedOnce(t) { ReportRule(t); }
    FitByKind(t);
  }

  /** Message m breaks no rule other than those, unless it is a hello right after a hello. */
  ghost predicate FitsButHello(h: Transcript, m: Message) {
    forall k :: !EnvelopeKind(k) && k != HelloUnanswered ==> !Violates(h, m, k)
  }

  ghost predicate AllFitButHellos(t: Transcript) {
    forall n :: 0 <= n < |t| ==> FitsButHello(t[..n], t[n])
  }

  ghost predicate NoHelloTwice(t: Transcript) {
    forall i :: 0 <= i && i + 1 < |t| && t[i].body.Hello? ==> !t[i + 1].body.Hello?
  }

  /** Then the rule on hellos decides all the others, and two hellos in a row are all that can
      break it. */
  lemma HellosDecide(t: Transcript)
    requires AllFitButHellos(t) && NothingLeftOpen(t)
    ensures Coherent(t) <==> HellosAnswered(t)
    ensures HellosAnswered(t) <==> NoHelloTwice(t)
  {
    forall i | 0 <= i && i + 1 < |t| && t[i].body.Hello?
      ensures t[i + 1].body.Hello? || t[i + 1].body.Welcome? || t[i + 1].body.Error? {
      assert FitsButHello(t[..i + 1], t[i + 1]) && AwaitsWelcome(t[..i + 1]);
      assert !Violates(t[..i + 1], t[i + 1], NotAnAnswer);
    }
    if HellosAnswered(t) {
      HelloRule(t);
      forall n | 0 <= n < |t| ensures Fits(t[..n], t[n]) {
        assert FitsButHello(t[..n], t[n]) && !Violates(t[..n], t[n], HelloUnanswered);
      }
      CoherentIsFit(t);
    }
  }

  lemma FitByKind(t: Transcript)
    ensures AllFit(t) <==> NeverAny(t)
  {
    if AllFit(t) {
      forall k | !EnvelopeKind(k) ensures Never(t, k) {
        assert forall n :: 0 <= n < |t| ==> Fits(t[..n], t[n]);
      }
    }
    if NeverAny(t) {
      forall n | 0 <= n < |t| ensures Fits(t[..n], t[n]) {
        forall k | !EnvelopeKind(k) ensures !Violates(t[..n], t[n], k) {
          NeverEach(t, k);
        }
      }
    }
  }

  ghost predicate NeverAny(t: Transcript) {
    && Never(t, HelloUnanswered) && Never(t, NotAnAnswer) && Never(t, OutsideConnection)
    && Never(t, StartedTwice) && Never(t, ResumeUnknownRun) && Never(t, ResumeCursor) && Never(t, BeforeStart)
    && Never(t, StreamBeforeStart) && Never(t, WrongSeq) && Never(t, AfterTerminal)
    && Never(t, ProposedTwice) && Never(t, NeverProposed) && Never(t, AlreadyFinished)
    && Never(t, ReportNeverProposed) && Never(t, WrongTool) && Never(t, FinishedTwice)
  }

  lemma NeverEach(t: Transcript, k: Kind)
    requires NeverAny(t) && !EnvelopeKind(k)
    ensures Never(t, k)
  {
    match k
    case HelloUnanswered => case NotAnAnswer =>
    case OutsideConnection => case StartedTwice => case ResumeUnknownRun => case ResumeCursor =>
    case BeforeStart => case StreamBeforeStart => case WrongSeq => case AfterTerminal =>
    case ProposedTwice => case NeverProposed => case AlreadyFinished =>
    case ReportNeverProposed => case WrongTool => case FinishedTwice =>
  }

  lemma CleanIsFit(t: Transcript)
    ensures Clean(t) <==> DistinctIds(t) && TimesInOrder(t) && AllFit(t) && NothingLeftOpen(t)
  {
    IdsRule(t);
    TimesRule(t);
    if Clean(t) {
      forall n | 0 <= n < |t| ensures Fits(t[..n], t[n]) {
        assert forall k :: !Violates(t[..n], t[n], k);
      }
      assert Never(t, DuplicateId) && Never(t, TimeBackwards);
    }
    if Never(t, DuplicateId) && Never(t, TimeBackwards) && AllFit(t) {
      forall n, k | 0 <= n < |t| ensures !Violates(t[..n], t[n], k) {
        assert Fits(t[..n], t[n]);
        if EnvelopeKind(k) { assert k == DuplicateId || k == TimeBackwards; }
      }
    }
  }

  /** The checker reports nothing exactly when every rule holds. */
  lemma CheckerDecidesRules(t: Transcript)
    ensures Clean(t) <==> Accepted(t)
  {
    CleanIsFit(t);
    CoherentIsFit(t);
  }

  /** check_transcript as its callers use it: an empty problem list means accepted. */
  method Validate(t: Transcript) returns (ok: bool)
    ensures ok <==> Accepted(t)
  {
    var problems := CheckTranscript(t);
    ReportedNothing(t, problems);
    CheckerDecidesRules(t);
    ok := problems == [];
  }
}
