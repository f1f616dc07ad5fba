/** Runs do not interfere with each other. */
module TranscriptRuns {
  // A transcript is accepted exactly when its ids and timestamps are in order and each run, seen
  // alone with the connection messages, is accepted. Hence any interleaving of good runs is good.

  import opened Messages
  import opened Checker
  import opened TranscriptRules
  import opened Basics

  predicate BelongsTo(m: Message, r: RunId) {
    RunScoped(m.body) ==> m.body.run == r
  }

  /** What remains of t when only run r and the connection messages are kept. */
  ghost function Project(t: Transcript, r: RunId): Transcript {
    if t == [] then []
    else
      var m, before := t[|t| - 1], Project(t[..|t| - 1], r);
      if BelongsTo(m, r) then before + [m] else before
  }

  lemma ProjectStep(h: Transcript, m: Message, r: RunId)
    ensures Project(h + [m], r) == if BelongsTo(m, r) then Project(h, r) + [m] else Project(h, r)
  {
    assert (h + [m])[..|h|] == h;
  }

  lemma {:induction false} ProjectionKeepsRun(h: Transcript, r: RunId)
    ensures StartedIn(Project(h, r), r) <==> StartedIn(h, r)
    ensures EndedIn(Project(h, r), r) <==> EndedIn(h, r)
    ensures StreamOf(Project(h, r), r) == StreamOf(h, r)
  {
    if h != [] {
      var h', m := h[..|h| - 1], h[|h| - 1];
      assert h == h' + [m];
      ProjectionKeepsRun(h', r);
      ProjectStep(h', m, r);
      StartedStep(h', m, r);
      EndedStep(h', m, r);
      StreamOfStep(h', m, r);
      if BelongsTo(m, r) {
        var p := Project(h', r);
        StartedStep(p, m, r);
        EndedStep(p, m, r);
        StreamOfStep(p, m, r);
      }
    }
  }

  lemma {:induction false} ProjectionKeepsCalls(h: Transcript, r: RunId, c: CallId)
    ensures ProposedIn(Project(h, r), r, c) <==> ProposedIn(h, r, c)
    ensures FinishedIn(Project(h, r), r, c) <==> FinishedIn(h, r, c)
    ensures ToolOf(Project(h, r), r, c) == ToolOf(h, r, c)
  {
    if h != [] {
      var h', m := h[..|h| - 1], h[|h| - 1];
      assert h == h' + [m];
      ProjectionKeepsCalls(h', r, c);
      ProjectStep(h', m, r);
      ProposedStep(h', m, r, c);
      FinishedStep(h', m, r, c);
      ToolOfStep(h', m, r, c);
      if BelongsTo(m, r) {
        var p := Project(h', r);
        ProposedStep(p, m, r, c);
        FinishedStep(p, m, r, c);
        ToolOfStep(p, m, r, c);
      }
    }
  }

  lemma AllFitStep(h: Transcript, m: Message)
    ensures AllFit(h + [m]) <==> AllFit(h) && Fits(h, m)
  {
    var g := h + [m];
    assert g[..|h|] == h && g[|h|] == m;
    forall n | 0 <= n < |h| ensures g[..n] == h[..n] && g[n] == h[n] {
    }
    if AllFit(g) {
      forall n | 0 <= n < |h| ensures Fits(h[..n], h[n]) {
        assert Fits(g[..n], g[n]);
      }
      assert Fits(g[..|h|], g[|h|]);
    }
  }

  /** In a transcript that fits, the connection looks the same from every run. */
  lemma {:induction false} ProjectionKeepsConnection(h: Transcript, r: RunId)
    requires AllFit(h)
    ensures OpenAfter(Project(h, r)) <==> OpenAfter(h)
    ensures AwaitsWelcome(Project(h, r)) <==> AwaitsWelcome(h)
  {
    if h != [] {
      var h', m := h[..|h| - 1], h[|h| - 1];
      assert h == h' + [m];
      AllFitStep(h', m);
      ProjectionKeepsConnection(h', r);
      ProjectStep(h', m, r);
      OpenStep(h', m);
      if BelongsTo(m, r) {
        OpenStep(Project(h', r), m);
      } else {
        assert !Violates(h', m, NotAnAnswer);
      }
    }
  }

  /** A message of run r (or of the connection) is judged the same with the other runs gone. */
  lemma SameVerdict(h: Transcript, m: Message, r: RunId)
    requires AllFit(h) && BelongsTo(m, r)
    ensures Fits(Project(h, r), m) <==> Fits(h, m)
  {
    ProjectionKeepsConnection(h, r);
    ProjectionKeepsRun(h, r);
    if Call(m.body).Some? { ProjectionKeepsCalls(h, r, Call(m.body).value); }
    forall k | !EnvelopeKind(k) ensures Violates(Project(h, r), m, k) <==> Violates(h, m, k) {
      SameKind(h, Project(h, r), m, k);
    }
  }

  /** The verdict on m reads no more of the history than this. */
  lemma SameKind(h: Transcript, p: Transcript, m: Message, k: Kind)
    requires !EnvelopeKind(k)
    requires OpenAfter(p) == OpenAfter(h) && AwaitsWelcome(p) == AwaitsWelcome(h)
    requires RunScoped(m.body) ==>
      && StartedIn(p, m.body.run) == StartedIn(h, m.body.run)
      && EndedIn(p, m.body.run) == EndedIn(h, m.body.run)
      && LastSeq(p, m.body.run) == LastSeq(h, m.body.run)
    requires Call(m.body).Some? ==>
      var c := Call(m.body).value;
      && ProposedIn(p, m.body.run, c) == ProposedIn(h, m.body.run, c)
      && FinishedIn(p, m.body.run, c) == FinishedIn(h, m.body.run, c)
      && ToolOf(p, m.body.run, c) == ToolOf(h, m.body.run, c)
    ensures Violates(p, m, k) <==> Violates(h, m, k)
  {
  }

  /** The call a message names, if it names one. */
  function Call(b: Body): Option<CallId> {
    if AboutCall(b) then Some(b.call)
    else if b.Stream? && (b.event.ToolProposed? || Reports(b)) then Some(b.event.call)
    else None
  }

  lemma {:induction false} FitDown(t: Transcript, r: RunId)
    requires AllFit(t)
    ensures AllFit(Project(t, r))
  {
    if t != [] {
      var h, m := t[..|t| - 1], t[|t| - 1];
      assert t == h + [m];
      AllFitStep(h, m);
      FitDown(h, r);
      ProjectStep(h, m, r);
      if BelongsTo(m, r) {
        SameVerdict(h, m, r);
        AllFitStep(Project(h, r), m);
      }
    }
  }

  lemma {:induction false} FitUp(t: Transcript)
    requires forall r :: AllFit(Project(t, r))
    ensures AllFit(t)
  {
    if t != [] {
      var h, m := t[..|t| - 1], t[|t| - 1];
      assert t == h + [m];
      forall r ensures AllFit(Project(h, r)) && (BelongsTo(m, r) ==> Fits(Project(h, r), m)) {
        ProjectStep(h, m, r);
        assert AllFit(Project(t, r));
        if BelongsTo(m, r) { AllFitStep(Project(h, r), m); }
      }
      FitUp(h);
      SameVerdict(h, m, if RunScoped(m.body) then m.body.run else "");
      AllFitStep(h, m);
    }
  }

  lemma {:induction false} ProjectionIsPart(t: Transcript, r: RunId, m: Message)
    requires m in Project(t, r)
    ensures m in t && BelongsTo(m, r)
  {
    if m in Project(t[..|t| - 1], r) {
      ProjectionIsPart(t[..|t| - 1], r, m);
    }
  }

  lemma LeftOpenByRun(t: Transcript, r: RunId)
    ensures NothingLeftOpen(Project(t, r)) <==> forall c :: !LeftOpen(t, r, c)
  {
    ProjectionKeepsRun(t, r);
    forall c ensures LeftOpen(Project(t, r), r, c) <==> LeftOpen(t, r, c) {
      ProjectionKeepsCalls(t, r, c);
    }
    forall r', c | r' != r ensures !LeftOpen(Project(t, r), r', c) {
      var p := Project(t, r);
      if i :| 0 <= i < |p| && Proposes(p[i].body, r', c) {
        ProjectionIsPart(t, r, p[i]);
      }
    }
  }

  /** Order of ids and times survives dropping messages. */
  lemma {:induction false} ProjectionKeepsEnvelope(t: Transcript, r: RunId)
    requires DistinctIds(t) && TimesInOrder(t)
    ensures DistinctIds(Project(t, r)) && TimesInOrder(Project(t, r))
  {
    if t != [] {
      var h, m := t[..|t| - 1], t[|t| - 1];
      assert t == h + [m];
      ProjectionKeepsEnvelope(h, r);
      ProjectStep(h, m, r);
      var p := Project(h, r);
      forall i | 0 <= i < |p| ensures p[i].id != m.id && !Before(m.ts, p[i].ts) {
        ProjectionIsPart(h, r, p[i]);
        var j :| 0 <= j < |h| && h[j] == p[i];
        assert t[j] == h[j] && t[|h|] == m;
      }
    }
  }

  ghost predicate EveryRunAccepted(t: Transcript) {
    forall r :: AcceptedAlone(t, r)
  }

  ghost predicate AcceptedAlone(t: Transcript, r: RunId) {
    Accepted(Project(t, r))
  }

  lemma ManyFromOne(t: Transcript, r: RunId)
    requires Accepted(t)
    ensures Accepted(Project(t, r))
  {
    CoherentIsFit(t);
    FitDown(t, r);
    ProjectionKeepsEnvelope(t, r);
    LeftOpenByRun(t, r);
    CoherentIsFit(Project(t, r));
  }

  lemma OneFromMany(t: Transcript)
    requires DistinctIds(t) && TimesInOrder(t)
    requires EveryRunAccepted(t)
    ensures Accepted(t)
  {
    forall r ensures AllFit(Project(t, r)) {
      assert AcceptedAlone(t, r);
      CoherentIsFit(Project(t, r));
    }
    forall r, c ensures !LeftOpen(t, r, c) {
      assert AcceptedAlone(t, r);
      CoherentIsFit(Project(t, r));
      LeftOpenByRun(t, r);
    }
    FitUp(t);
    CoherentIsFit(t);
  }

  /** The whole is accepted exactly when every run is. */
  lemma RunsDoNotInterfere(t: Transcript)
    ensures Accepted(t) <==> DistinctIds(t) && TimesInOrder(t) && EveryRunAccepted(t)
  {
    if Accepted(t) {
      forall r ensures AcceptedAlone(t, r) {
        ManyFromOne(t, r);
      }
    }
    if DistinctIds(t) && TimesInOrder(t) && EveryRunAccepted(t) {
      OneFromMany(t);
    }
  }
}
