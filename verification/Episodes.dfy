/** Runs in which the Host does less than it is documented to (apps/player-web/src/player.ts,
    apps/player-web/src/lifecycle.ts), each from entering the loop. */
module Episodes {
  import opened Text
  import opened Lifecycle
  import opened Reconcile
  import opened Host
  import opened Cycle
  import opened Anchor
  import opened Recent

  const SAMPLE := ClockSample(0, 0)
  const JUMPED := ClockSample(70_000, 10_000)

  /** The server's time, and this clock when the answer arrived. */
  function Said(serverTimeMs: int, receivedMs: int): Reply {
    Reply(serverTimeMs, receivedMs, "key", receivedMs, None, Basis(1, 1, "plan"))
  }

  /** The loop entered on a visible page with a restored activation. */
  function Restored(resting: bool): Cycle.State {
    var a := Activation("restored", 1, "binding");
    Cycle.State(
      Held(Flags(false, false, true, false, true, false, true, false, resting), Some(a),
           Memory(None, 1, None, 0.0, None), if resting then None else Some("restored"), Some(a), true),
      Waiting, None)
  }

  lemma RestoredEnters(resting: bool)
    ensures Enters(Restored(resting))
  {
  }

  // ---- one step at a time ---------------------------------------------------------------------

  /** A page that can reconcile, holding content of the binding. */
  predicate Showing(h: Held) {
    ForegroundEligible(h.flags) && !h.flags.resting && h.bound && h.active.Some? && h.active.value.binding == "binding"
  }

  lemma Begins(s: Cycle.State)
    requires s.phase.Waiting? && s.held.bound
    ensures Step(s, Begin(SAMPLE, SAMPLE)) == s.(phase := Confirming)
    ensures Step(s.(phase := Confirming), Authenticated("binding")) == s.(phase := Opening("binding"))
  {
    assert !ClockDiscontinuity(SAMPLE, SAMPLE);
  }

  lemma BeginsAfterAJump(s: Cycle.State)
    requires s.phase.Waiting? && s.held.bound
    ensures var t := Cycle.State(s.held.(flags := Discontinue(s.held.flags)), Confirming, s.link);
      && Discontinues(s, Begin(SAMPLE, JUMPED)) && Step(s, Begin(SAMPLE, JUMPED)) == t
      && Step(t, Authenticated("binding")) == t.(phase := Opening("binding"))
  {
  }

  lemma Opens(s: Cycle.State, nowMs: int)
    requires s.phase == Opening("binding") && Showing(s.held)
    ensures Step(s, Opened(false, nowMs)) == Cycle.State(
      s.held.(flags := s.held.flags.(serverBindingConfirmed := true)), Fetching(false, nowMs), Some("binding"))
    ensures Showing(Step(s, Opened(false, nowMs)).held)
  {
  }

  /** The first answer is always a change. */
  lemma AnswersFirst(s: Cycle.State, reply: Reply)
    requires s.phase.Fetching? && !s.phase.byCommand && s.held.memory.key.None?
    ensures Measures(s, Answered(reply, false))
    ensures Step(s, Answered(reply, false)) == s.(phase := Preparing(false, Planned(s.phase.askedMs, reply)))
  {
  }

  /** It is committed, released and accepted. */
  predicate Plays(s: Cycle.State, answer: Answer) {
    var f := s.held.flags;
    && s.phase.Reporting? && Showing(s.held) && ProofEligible(f) && f.selectionCurrent
    && s.held.memory.key == Some(answer.key) && s.held.memory.validUntilMs == answer.validUntilMs
    && s.held.memory.clockOffsetMs == answer.clockOffsetMs
  }

  function Next(h: Held): Activation { Activation("next", h.memory.generation + 1, "binding") }

  function AfterCommit(s: Cycle.State): Cycle.State
    requires s.phase.Preparing?
  {
    var h := s.held;
    s.(held := h.(memory := Raised(h.memory), committed := Some(Next(h))),
       phase := Releasing(false, s.phase.answer, Next(h)))
  }

  lemma CommitsNext(s: Cycle.State)
    requires s.phase.Preparing? && !s.phase.byCommand && s.link == Some("binding")
    ensures Step(s, Committed("next")) == AfterCommit(s)
  {
  }

  lemma ReleasesNext(s: Cycle.State)
    requires s.phase.Preparing? && Showing(s.held)
    ensures var t := Step(AfterCommit(s), Released(false));
      && t.phase.Reporting? && t.link == s.link && t.held.active == Some(Next(s.held)) && Showing(t.held)
      && t.held.memory == Accepted(Raised(s.held.memory), s.phase.answer)
      && t.held.flags.serverBindingConfirmed == s.held.flags.serverBindingConfirmed
      && t.held.flags.selectionCurrent && t.held.flags.localActivationAuthorized && t.held.flags.clockAnchored
  {
  }

  lemma AcceptsNext(s: Cycle.State)
    requires s.held.active.Some? && s.held.active.value.id == "next"
    ensures Step(s, Reported(Some("next"), true))
      == s.(held := s.held.(flags := s.held.flags.(runtimeActivationAccepted := true)))
  {
  }

  lemma Ends(s: Cycle.State)
    requires s.phase.Reporting?
    ensures Step(s, Done) == s.(phase := Waiting)
  {
  }

  /** From an answer that was planned to a play that counts. */
  lemma CommitsAndPlays(run: seq<Cycle.State>, events: seq<Event>, i: nat)
    requires i + 3 <= |events| && |run| == |events| + 1
    requires events[i..i + 3] == [Committed("next"), Released(false), Reported(Some("next"), true)]
    requires forall n | i <= n < i + 3 :: run[n + 1] == Step(run[n], events[n])
    requires run[i].phase.Preparing? && !run[i].phase.byCommand
    requires run[i].link == Some("binding") && Showing(run[i].held)
    ensures Commits(run[i + 1], events[i + 1]) && Plays(run[i + 3], run[i].phase.answer)
    ensures run[i + 1].phase.Releasing? && run[i + 2].phase.Reporting? && run[i + 3].link == run[i].link
    ensures run[i + 3].held.flags.serverBindingConfirmed == run[i].held.flags.serverBindingConfirmed
  {
    hide Step;
    assert events[i..i + 3][0] == events[i] && events[i..i + 3][1] == events[i + 1];
    assert events[i..i + 3][2] == events[i + 2];
    assert run[i + 1] == Step(run[i], events[i]) && run[i + 1 + 1] == Step(run[i + 1], events[i + 1]);
    assert run[i + 2 + 1] == Step(run[i + 2], events[i + 2]);
    CommitsNext(run[i]);
    ReleasesNext(run[i]);
    AcceptsNext(run[i + 2]);
  }

  ghost function Trace(s: Cycle.State, events: seq<Event>): (run: seq<Cycle.State>)
    ensures |run| == |events| + 1 && run[0] == s
    ensures forall n | 0 <= n < |events| :: run[n + 1] == Step(run[n], events[n])
    decreases |events|
  {
    if events == [] then [s] else [s] + Trace(Step(s, events[0]), events[1..])
  }

  lemma Enter(resting: bool, events: seq<Event>) returns (run: seq<Cycle.State>)
    ensures IsRun(run, events) && run[0] == Restored(resting)
  {
    RestoredEnters(resting);
    run := Trace(Restored(resting), events);
  }

  /** The first cycle of a run that enters with a restored activation, up to the
      selection being asked for. */
  lemma FirstAsks(run: seq<Cycle.State>, events: seq<Event>)
    requires IsRun(run, events) && run[0] == Restored(false) && |events| >= 3
    requires events[..3] == [Begin(SAMPLE, SAMPLE), Authenticated("binding"), Opened(false, 0)]
    ensures run[3].phase == Fetching(false, 0) && run[3].link == Some("binding") && Showing(run[3].held)
    ensures run[3].held.memory.key.None? && run[3].held.flags.serverBindingConfirmed
    ensures Asks(run[2], events[2]) && Confirms(run[2], events[2]) && run[1].phase.Confirming?
  {
    hide Step;
    assert events[..3][0] == events[0] && events[..3][1] == events[1] && events[..3][2] == events[2];
    assert run[0 + 1] == Step(run[0], events[0]) && run[1 + 1] == Step(run[1], events[1]);
    assert run[2 + 1] == Step(run[2], events[2]);
    Begins(run[0]);
    Opens(run[2], 0);
  }

  // ---- the clock ------------------------------------------------------------------------------

  /** Two cycles: the first commits what the server answers and the Runtime accepts
      it; before the second the clock jumps a minute, and the answer is the same but
      for the offset it measures. */
  const JUMPED_A_MINUTE: seq<Event> :=
    [Begin(SAMPLE, SAMPLE), Authenticated("binding"), Opened(false, 0), Answered(Said(0, 0), false),
     Committed("next"), Released(false), Reported(Some("next"), true), Done,
     Begin(SAMPLE, JUMPED), Authenticated("binding"), Opened(false, 70_000), Answered(Said(10_000, 70_000), false)]

  /** So health can resume on an offset from before a discontinuity. */
  lemma ProofOnAnOldOffset() returns (run: seq<Cycle.State>)
    ensures IsRun(run, JUMPED_A_MINUTE) && Discontinues(run[8], JUMPED_A_MINUTE[8])
    ensures MeaningfulEvidence(run[12].held.flags) && !AnsweredSince(run, JUMPED_A_MINUTE, 8, 12)
    ensures run[12].held.memory.clockOffsetMs == 0.0 && run[11].phase.Fetching?
    ensures Planned(run[11].phase.askedMs, JUMPED_A_MINUTE[11].reply).clockOffsetMs == -60_000.0
  {
    hide Step, Asks, Commits, Discontinues, Trace;
    var events := JUMPED_A_MINUTE;
    run := Enter(false, events);
    FirstAsks(run, events);
    AnswersFirst(run[3], Said(0, 0));
    assert run[3 + 1] == Step(run[3], events[3]);
    CommitsAndPlays(run, events, 4);
    Ends(run[7]);
    assert run[7 + 1] == Step(run[7], events[7]);
    BeginsAfterAJump(run[8]);
    assert run[8 + 1] == Step(run[8], events[8]) && run[9 + 1] == Step(run[9], events[9]);
    Opens(run[10], 70_000);
    assert run[10 + 1] == Step(run[10], events[10]);
    FindsTheSame(run[11], events[11].reply);
    assert run[11 + 1] == Step(run[11], events[11]);
    assert forall q | 8 < q < 12 :: !Measures(run[q], events[q]);
  }

  /** An answer that still stands leaves the offset, and anchors the clock. */
  lemma FindsTheSame(s: Cycle.State, reply: Reply)
    requires s.phase.Fetching? && Showing(s.held) && s.held.memory.key == Some(reply.key)
    requires s.held.memory.validUntilMs.None?
    requires s.held.flags.localActivationAuthorized && s.held.flags.runtimeActivationAccepted
    requires s.held.flags.serverBindingConfirmed
    ensures var t := Step(s, Answered(reply, false));
      !Measures(s, Answered(reply, false)) && MeaningfulEvidence(t.held.flags) && t.held.memory == s.held.memory
  {
  }

  /** The page is frozen for an hour while the server answers. */
  const FROZEN_WHILE_ASKED: seq<Event> :=
    [Begin(SAMPLE, SAMPLE), Authenticated("binding"), Opened(false, 0), Freeze, Resume,
     Answered(Said(0, 3_600_000), false), Committed("next"), Released(false), Reported(Some("next"), true)]

  /** The server read its clock as the page's said the same, and plays count half an
      hour off: the answer came after the discontinuity, but was asked for before. */
  lemma ProofOnHalfAGap() returns (run: seq<Cycle.State>)
    ensures IsRun(run, FROZEN_WHILE_ASKED) && Discontinues(run[4], FROZEN_WHILE_ASKED[4])
    ensures ProofEligible(run[9].held.flags) && run[9].held.memory.clockOffsetMs == -1_800_000.0
    ensures run[4].phase == Fetching(false, FROZEN_WHILE_ASKED[5].reply.serverTimeMs)
    ensures AnsweredSince(run, FROZEN_WHILE_ASKED, 4, 9) && !CommittedSince(run, FROZEN_WHILE_ASKED, 4, 9)
  {
    hide Step, Commits;
    var events := FROZEN_WHILE_ASKED;
    run := Enter(false, events);
    FirstAsks(run, events);
    FreezesAndResumes(run[3]);
    assert run[3 + 1] == Step(run[3], events[3]) && run[4 + 1] == Step(run[4], events[4]);
    AnswersFirst(run[5], events[5].reply);
    assert run[5 + 1] == Step(run[5], events[5]);
    assert events[6..9] == [Committed("next"), Released(false), Reported(Some("next"), true)];
    CommitsAndPlays(run, events, 6);
    assert AnsweredBy(run, events, 5, 7);
    forall p | 4 < p < 9 ensures !Asks(run[p], events[p]) {
      if Asks(run[p], events[p]) { AskingFetches(run, events, p); }
    }
  }

  lemma AskingFetches(run: seq<Cycle.State>, events: seq<Event>, p: nat)
    requires IsRun(run, events) && p < |events| && Asks(run[p], events[p])
    ensures !run[p].phase.Fetching? && run[p + 1].phase.Fetching?
  {
    assert run[p + 1] == Step(run[p], events[p]);
  }

  lemma FreezesAndResumes(s: Cycle.State)
    requires s.phase.Fetching? && Showing(s.held)
    ensures var t := Step(Step(s, Freeze), Resume);
      && Step(s, Freeze).phase == s.phase && t.phase == s.phase && t.link == s.link && Showing(t.held)
      && t.held.memory == s.held.memory && Discontinues(Step(s, Freeze), Resume)
  {
  }

  // ---- health ---------------------------------------------------------------------------------

  lemma HidesAndShows(s: Cycle.State)
    requires Showing(s.held)
    ensures var hidden := Step(s, Visibility(false));
      var t := Step(hidden, Visibility(true));
      && Resets(hidden, Visibility(true)) && hidden.phase == s.phase
      && t == s.(held := s.held.(flags := Reconfirm(s.held.flags)))
  {
  }

  /** The page is hidden and shown while the slot is opened. */
  const HIDDEN_WHILE_OPENING: seq<Event> :=
    [Begin(SAMPLE, SAMPLE), Authenticated("binding"), Visibility(false), Visibility(true), Opened(false, 0),
     Answered(Said(0, 0), false), Committed("next"), Released(false), Reported(Some("next"), true)]

  /** Health then rests on a session accepted before the page was hidden. */
  lemma HealthOnAnEarlierSession() returns (run: seq<Cycle.State>)
    ensures IsRun(run, HIDDEN_WHILE_OPENING) && MeaningfulEvidence(run[9].held.flags)
    ensures Resets(run[3], HIDDEN_WHILE_OPENING[3]) && FellDuring(run, HIDDEN_WHILE_OPENING, Identified, 4)
    ensures Confirms(run[4], HIDDEN_WHILE_OPENING[4])
    ensures forall i | 0 <= i < 9 :: Authenticates(run[i], HIDDEN_WHILE_OPENING[i]) <==> i == 1
  {
    hide Step, Resets;
    var events := HIDDEN_WHILE_OPENING;
    run := Enter(false, events);
    Begins(run[0]);
    assert run[0 + 1] == Step(run[0], events[0]) && run[1 + 1] == Step(run[1], events[1]);
    HidesAndShows(run[2]);
    assert run[2 + 1] == Step(run[2], events[2]) && run[3 + 1] == Step(run[3], events[3]);
    Opens(run[4], 0);
    assert run[4 + 1] == Step(run[4], events[4]);
    AnswersFirst(run[5], events[5].reply);
    assert run[5 + 1] == Step(run[5], events[5]);
    assert events[6..9] == [Committed("next"), Released(false), Reported(Some("next"), true)];
    CommitsAndPlays(run, events, 6);
    assert Throughout(run, Identified, 3, 4);
  }

  /** The page is hidden and shown while resources are prepared. */
  const HIDDEN_WHILE_PREPARING: seq<Event> :=
    [Begin(SAMPLE, SAMPLE), Authenticated("binding"), Opened(false, 0), Answered(Said(0, 0), false),
     Visibility(false), Visibility(true), Committed("next"), Released(false), Reported(Some("next"), true), Done,
     Begin(SAMPLE, SAMPLE), Authenticated("binding"), Opened(false, 10_000)]

  /** Health then resumes, before the server answers again, on a selection it answered
      before the page was hidden. */
  lemma HealthOnAnEarlierSelection() returns (run: seq<Cycle.State>)
    ensures IsRun(run, HIDDEN_WHILE_PREPARING) && MeaningfulEvidence(run[13].held.flags)
    ensures Resets(run[5], HIDDEN_WHILE_PREPARING[5]) && FellDuring(run, HIDDEN_WHILE_PREPARING, UnderWay, 7)
    ensures Reconciles(run[7], HIDDEN_WHILE_PREPARING[7])
    ensures forall i | 0 <= i < 13 :: Answers(run[i], HIDDEN_WHILE_PREPARING[i]) <==> i == 3
  {
    hide Step, Resets, Asks, Commits, Measures, Confirms, Discontinues, StillStands, Trace, Throughout;
    var events := HIDDEN_WHILE_PREPARING;
    run := Enter(false, events);
    FirstAsks(run, events);
    AnswersFirst(run[3], events[3].reply);
    assert run[3 + 1] == Step(run[3], events[3]);
    HidesAndShows(run[4]);
    assert run[4 + 1] == Step(run[4], events[4]) && run[5 + 1] == Step(run[5], events[5]);
    assert events[6..9] == [Committed("next"), Released(false), Reported(Some("next"), true)];
    CommitsAndPlays(run, events, 6);
    ThroughoutThree(run, 5);
    Ends(run[9]);
    assert run[9 + 1] == Step(run[9], events[9]);
    Begins(run[10]);
    assert run[10 + 1] == Step(run[10], events[10]) && run[11 + 1] == Step(run[11], events[11]);
    assert run[12 + 1] == Step(run[12], events[12]);
    ReopensHealthy(run[9], run[12], 10_000);
  }

  lemma ThroughoutThree(run: seq<Cycle.State>, i: nat)
    requires i + 2 < |run| && UnderWay(run[i].phase) && UnderWay(run[i + 1].phase) && UnderWay(run[i + 2].phase)
    ensures Throughout(run, UnderWay, i, i + 2)
  {
  }

  lemma ReopensHealthy(before: Cycle.State, s: Cycle.State, nowMs: int)
    requires exists answer :: Plays(before, answer)
    requires s == before.(phase := Opening("binding"))
    ensures MeaningfulEvidence(Step(s, Opened(false, nowMs)).held.flags)
  {
    Opens(s, nowMs);
  }

  // ---- what the server withdrew comes back on the screen ----------------------------------------

  const DISABLED_AT_REST: seq<Event> := [Begin(SAMPLE, SAMPLE), Fail(Forbidden), RestTimer(false)]

  /** A screen at rest is disabled by the server, and its active hours return: the
      activation kept from before is shown in place of the disabled surface. */
  lemma DisabledIsShownAgain() returns (run: seq<Cycle.State>)
    ensures IsRun(run, DISABLED_AT_REST)
    ensures run[2].held.shown.None? && !run[2].held.flags.localActivationAuthorized
    ensures ShowsUntrusted(run[2], DISABLED_AT_REST[2]) && run[3].held.shown == IdOf(run[3].held.active)
  {
    var events := DISABLED_AT_REST;
    run := Enter(true, events);
    assert run[0 + 1] == Step(run[0], events[0]) && run[1].phase.Confirming?;
    assert run[1 + 1] == Step(run[1], events[1]);
    assert run[2 + 1] == Step(run[2], events[2]);
  }
}
