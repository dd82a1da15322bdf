/** The Host's loop as a machine over awaits (apps/player-web/src/player.ts), and what
    holds in every state of every run, however the Runtime's reports, page events and
    timers fall between its steps. */
module Cycle {
  import opened Text
  import opened Lifecycle
  import opened Reconcile
  import opened Host

  datatype Phase =
    | Waiting                                   // for the next poll
    | Confirming                                // the server's identity and this browser's session
    | Opening(binding: string)                  // the Activity of the confirmed slot
    | Discarding(binding: string)               // another binding's activation
    | Checking(byCommand: bool)                 // the resources on disk
    | Fetching(byCommand: bool, askedMs: int)   // manifest, configuration and selection, asked for at that time
    | Preparing(byCommand: bool, answer: Answer)
    | Releasing(byCommand: bool, answer: Answer, activation: Activation)
    | Reporting                                 // heartbeat, commands, Activity
    | Withdrawing                               // discarding what the server took back
    | Leaving
    | Ended

  /** `link` is the binding the server last confirmed. */
  datatype State = State(held: Held, phase: Phase, link: Option<string>)

  /** What ends a stretch early: an unreachable server; a 401 or another identity; a
      403; the end of a pairing; anything else. */
  datatype Failure = Unreachable | Unauthorized | Forbidden | PairingOver | Other

  datatype Event =
    // Between any two awaits.
    | Reported(about: Option<string>, accepted: bool)
    | Visibility(visible: bool)
    | Freeze
    | Resume
    | RestTimer(rest: bool)
    // The end of an await of the cycle.
    | Begin(previous: ClockSample, current: ClockSample)
    | Pairing
    | Authenticated(binding: string)
    | Opened(check: bool, nowMs: int)
    | Discarded(nowMs: int)
    | Checked(intact: bool, nowMs: int)
    | Answered(reply: Reply, rest: bool)
    | Committed(id: string)
    | Released(rest: bool)
    | SyncNow(check: bool, nowMs: int)
    | Reload
    | Done
    | Fail(failure: Failure)

  function OnPage(h: Held, e: Event): Held {
    match e
    case Reported(id, accepted) => OnResult(h, id, accepted)
    case Visibility(visible) => OnVisibility(h, visible)
    case Freeze => OnFreeze(h)
    case Resume => OnResume(h)
    case RestTimer(rest) => ApplyRest(h, rest)
    case _ => h
  }

  function StartReconcile(h: Held, link: Option<string>, check: bool, byCommand: bool, nowMs: int): State {
    State(h, if check && h.active.Some? then Checking(byCommand) else Fetching(byCommand, nowMs), link)
  }

  function Confirm(h: Held, binding: string, check: bool, nowMs: int): State {
    var confirmed := h.(flags := h.flags.(serverBindingConfirmed := true));
    if ForegroundEligible(confirmed.flags) then StartReconcile(confirmed, Some(binding), check, false, nowMs)
    else State(confirmed, Reporting, Some(binding))
  }

  function DropActivation(h: Held): Held { h.(active := None, committed := None) }

  /** `onCycleError`. */
  function OnCycleError(s: State, failure: Failure): State {
    var h := s.held.(flags := Reconfirm(s.held.flags));
    match failure
    case Unreachable => s.(held := if h.active.None? then Surface(h) else h, phase := Waiting)
    case Unauthorized => s.(held := Revoke(h), phase := if h.active.Some? then Withdrawing else Leaving)
    case Forbidden => s.(held := Surface(Forget(Revoke(h))), phase := Waiting)
    case PairingOver => s.(held := Surface(h), phase := Ended)
    case Other => s.(held := h, phase := Waiting)
  }

  predicate ByCommand(p: Phase) {
    (p.Checking? || p.Fetching? || p.Preparing? || p.Releasing?) && p.byCommand
  }

  /** A failure of the cycle itself: not of a command, whose result it becomes. */
  predicate CycleFails(s: State, e: Event) {
    && e.Fail? && !s.phase.Waiting? && !s.phase.Withdrawing? && !s.phase.Leaving? && !s.phase.Ended?
    && !ByCommand(s.phase) && (e.failure.PairingOver? ==> s.phase.Confirming? && !s.held.bound)
  }

  function OnFailure(s: State, e: Event): State
    requires e.Fail?
  {
    if CycleFails(s, e) then OnCycleError(s, e.failure)
    else if ByCommand(s.phase) then s.(phase := Reporting)
    else if s.phase.Withdrawing? || s.phase.Leaving? then s.(held := Surface(Revoke(s.held)), phase := Ended)
    else s
  }

  function OnCycle(s: State, e: Event): State {
    var h := s.held;
    match (s.phase, e)
    case (Waiting, Begin(previous, current)) =>
      s.(held := if ClockDiscontinuity(previous, current) then h.(flags := Discontinue(h.flags))
        else h, phase := Confirming)
    case (Confirming, Pairing) => if h.bound then s else s.(held := Surface(h))
    case (Confirming, Authenticated(binding)) => s.(held := h.(bound := true), phase := Opening(binding))
    case (Opening(binding), Opened(check, nowMs)) =>
      if h.active.Some? && h.active.value.binding != binding then s.(phase := Discarding(binding))
      else Confirm(h, binding, check, nowMs)
    case (Discarding(binding), Discarded(nowMs)) =>
      Confirm(Surface(Forget(Revoke(DropActivation(h)))), binding, false, nowMs)
    case (Checking(byCommand), Checked(intact, nowMs)) =>
      s.(held := if intact then h else Distrust(h), phase := Fetching(byCommand, nowMs))
    case (Fetching(byCommand, askedMs), Answered(reply, rest)) =>
      var answer := Planned(askedMs, reply);
      if StillStands(h.memory, answer) then s.(held := Finish(h, rest), phase := Reporting)
      else s.(phase := Preparing(byCommand, answer))
    case (Preparing(byCommand, answer), Committed(id)) =>
      var a := Activation(id, h.memory.generation + 1, if s.link.Some? then s.link.value else "");
      s.(held := h.(memory := Raised(h.memory), committed := Some(a)), phase := Releasing(byCommand, answer, a))
    case (Releasing(_, answer, a), Released(rest)) =>
      s.(held := Finish(Adopt(h, answer, a), rest), phase := Reporting)
    case (Reporting, SyncNow(check, nowMs)) => StartReconcile(h, s.link, check, true, nowMs)
    case (Reporting, Reload) =>
      if h.active.Some? && !h.flags.resting
        && h.flags.localActivationAuthorized then s.(held := Publish(h, h.active.value)) else s
    case (Reporting, Done) => s.(phase := Waiting)
    case (Withdrawing, Discarded(_)) => s.(held := DropActivation(h), phase := Leaving)
    case (Leaving, Done) => s.(held := Surface(Forget(h)), phase := Ended)
    case _ => s
  }

  predicate FromPage(e: Event) { e.Reported? || e.Visibility? || e.Freeze? || e.Resume? || e.RestTimer? }

  function Step(s: State, e: Event): State {
    if FromPage(e) then s.(held := OnPage(s.held, e))
    else if e.Fail? then OnFailure(s, e)
    else OnCycle(s, e)
  }

  // ---- runs ------------------------------------------------------------------------------------

  /** The loop is entered with the restored activation, if there was one: authorized,
      sent to the Runtime unless the screen rests, and not yet accepted. */
  ghost predicate Enters(s: State) {
    var h := s.held;
    && s.phase == Waiting && s.link == None && h.memory.key == None
    && !h.flags.serverBindingConfirmed && !h.flags.selectionCurrent && h.flags.clockAnchored
    && (h.flags.localActivationAuthorized <==> h.active.Some?)
    && (h.active.Some? ==> h.bound && h.memory.generation == h.active.value.generation && h.committed == h.active)
    && (h.active.Some? && !h.flags.resting ==> h.shown == IdOf(h.active) && !h.flags.runtimeActivationAccepted)
    && (h.flags.resting ==> h.shown.None?)
  }

  ghost predicate IsRun(run: seq<State>, events: seq<Event>) {
    && |run| == |events| + 1 && Enters(run[0])
    && forall n | 0 <= n < |events| :: run[n + 1] == Step(run[n], events[n])
  }

  predicate Terminal(p: Phase) { p.Withdrawing? || p.Leaving? || p.Ended? }

  predicate Linked(p: Phase) { p.Checking? || p.Fetching? || p.Preparing? || p.Releasing? || p.Reporting? }

  ghost predicate Inv(s: State) {
    var h := s.held;
    // An authorized activation is held, and is what the Runtime was last sent.
    && (h.flags.localActivationAuthorized ==> h.active.Some? && (!h.flags.resting ==> h.shown == IdOf(h.active)))
    && (h.flags.resting ==> h.shown.None?)
    && (h.active.Some? || s.phase.Opening? || s.phase.Discarding? || Linked(s.phase) ==> h.bound)
    && (h.active.Some? ==> h.active.value.generation <= h.memory.generation)
    && (Terminal(s.phase) ==> !h.flags.localActivationAuthorized)
    // Where nothing is trusted, nothing accepted still stands.
    && (!h.flags.localActivationAuthorized && !Terminal(s.phase) ==> h.memory.key == None)
    // Content belongs to the binding the server confirmed.
    && (Linked(s.phase) || h.flags.serverBindingConfirmed ==> s.link.Some?)
    && (s.link.Some? && h.active.Some? ==> h.active.value.binding == s.link.value)
    && (s.phase.Releasing? ==>
          && s.phase.activation.generation == h.memory.generation && s.phase.activation.binding == s.link.value
          && (h.active.Some? ==> h.active.value.generation < h.memory.generation))
  }

  lemma PageKeepsInv(s: State, e: Event)
    requires Inv(s) && FromPage(e)
    ensures Inv(Step(s, e))
  {
    hide ApplyRest;
    if e.RestTimer? { RestOnlyShows(s.held, e.rest); }
  }

  lemma ErrorKeepsInv(s: State, failure: Failure)
    requires Inv(s) && !Terminal(s.phase) && (failure.PairingOver? ==> !s.held.bound)
    ensures Inv(OnCycleError(s, failure))
  {
  }

  lemma FailureKeepsInv(s: State, e: Event)
    requires Inv(s) && e.Fail?
    ensures Inv(Step(s, e))
  {
    hide OnCycleError;
    if CycleFails(s, e) {
      hide Inv;
      ErrorKeepsInv(s, e.failure);
    }
  }

  lemma ConfirmingKeepsInv(s: State, e: Event)
    requires Inv(s) && !FromPage(e) && !e.Fail?
    requires s.phase.Waiting? || s.phase.Confirming? || s.phase.Opening? || s.phase.Discarding?
    ensures Inv(OnCycle(s, e))
  {
    hide Finish, Adopt, StillStands;
  }

  lemma SelectingKeepsInv(s: State, e: Event)
    requires Inv(s) && !FromPage(e) && !e.Fail?
    requires s.phase.Checking? || s.phase.Fetching? || s.phase.Preparing?
    ensures Inv(OnCycle(s, e))
  {
    hide Finish, Adopt, StillStands, Confirm, OnScreen, Planned;
    if s.phase.Fetching? && e.Answered? {
      FinishOnlyShows(s.held, e.rest);
    }
  }

  lemma ReleasingKeepsInv(s: State, e: Event)
    requires Inv(s) && s.phase.Releasing? && e.Released?
    ensures Inv(OnCycle(s, e))
  {
    hide Finish, Adopt, StillStands, Confirm, StartReconcile;
    var h := Adopt(s.held, s.phase.answer, s.phase.activation);
    Adopts(s.held, s.phase.answer, s.phase.activation);
    FinishOnlyShows(h, e.rest);
  }

  lemma ReportingKeepsInv(s: State, e: Event)
    requires Inv(s) && !FromPage(e) && !e.Fail?
    requires s.phase.Reporting? || Terminal(s.phase) || (s.phase.Releasing? && !e.Released?)
    ensures Inv(OnCycle(s, e))
  {
    hide Finish, Adopt, StillStands, Confirm;
  }

  lemma CycleKeepsInv(s: State, e: Event)
    requires Inv(s) && !FromPage(e) && !e.Fail?
    ensures Inv(Step(s, e))
  {
    hide OnCycle, Inv;
    match s.phase
    case Waiting => ConfirmingKeepsInv(s, e);
    case Confirming => ConfirmingKeepsInv(s, e);
    case Opening(_) => ConfirmingKeepsInv(s, e);
    case Discarding(_) => ConfirmingKeepsInv(s, e);
    case Checking(_) => SelectingKeepsInv(s, e);
    case Fetching(_, _) => SelectingKeepsInv(s, e);
    case Preparing(_, _) => SelectingKeepsInv(s, e);
    case Releasing(_, _, _) =>
      if e.Released? {
        ReleasingKeepsInv(s, e);
      } else {
        ReportingKeepsInv(s, e);
      }
    case _ => ReportingKeepsInv(s, e);
  }

  lemma {:induction false} RunKeepsInv(run: seq<State>, events: seq<Event>, n: nat)
    requires IsRun(run, events) && n < |run|
    ensures Inv(run[n])
  {
    hide Step, Inv;
    if n == 0 {
      assert Inv(run[0]) by { EntersInv(run[0]); }
    } else {
      RunKeepsInv(run, events, n - 1);
      assert run[n - 1 + 1] == run[n];
      StepKeepsInv(run[n - 1], events[n - 1]);
    }
  }

  lemma EntersInv(s: State)
    requires Enters(s)
    ensures Inv(s)
  {
  }

  lemma StepKeepsInv(s: State, e: Event)
    requires Inv(s)
    ensures Inv(Step(s, e))
  {
    hide Step, Inv;
    if FromPage(e) {
      PageKeepsInv(s, e);
    } else if e.Fail? {
      FailureKeepsInv(s, e);
    } else {
      CycleKeepsInv(s, e);
    }
  }

  // ---- what counts, in the run's own terms ------------------------------------------------------

  predicate Confirms(s: State, e: Event) {
    || (s.phase.Opening? && e.Opened? && (s.held.active.Some? ==> s.held.active.value.binding == s.phase.binding))
    || (s.phase.Discarding? && e.Discarded?)
  }

  predicate Reconciles(s: State, e: Event) {
    || (s.phase.Fetching? && e.Answered? && StillStands(s.held.memory, Planned(s.phase.askedMs, e.reply)))
    || (s.phase.Releasing? && e.Released?)
  }

  predicate Discontinues(s: State, e: Event) {
    e.Resume? || (s.phase.Waiting? && e.Begin? && ClockDiscontinuity(e.previous, e.current))
  }

  /** A visibility change, a freeze, a discontinuity, a cycle's error or a revocation. */
  predicate Resets(s: State, e: Event) {
    || e.Visibility? || e.Freeze? || Discontinues(s, e) || CycleFails(s, e)
    || (s.phase.Discarding? && e.Discarded?)
    || (e.Fail? && (s.phase.Withdrawing? || s.phase.Leaving?))
  }

  ghost predicate ResetIn(run: seq<State>, events: seq<Event>, from: nat, to: nat)
    requires to <= |events| < |run|
  {
    exists q | from <= q < to :: Resets(run[q], events[q])
  }

  lemma PageFlags(h: Held, e: Event)
    requires FromPage(e)
    ensures var f, g := h.flags, OnPage(h, e).flags;
      && (g.serverBindingConfirmed ==> f.serverBindingConfirmed && !e.Visibility? && !e.Freeze? && !e.Resume?)
      && (g.selectionCurrent ==> f.selectionCurrent && !e.Visibility? && !e.Freeze? && !e.Resume?)
      && (g.clockAnchored ==> f.clockAnchored && !e.Resume?)
  {
    hide ApplyRest;
    if e.RestTimer? { RestOnlyShows(h, e.rest); }
  }

  lemma ErrorFlags(s: State, failure: Failure)
    ensures var f, g := s.held.flags, OnCycleError(s, failure).held.flags;
      !g.serverBindingConfirmed && !g.selectionCurrent && g.clockAnchored == f.clockAnchored
  {
  }

  lemma FailureFlags(s: State, e: Event)
    requires e.Fail?
    ensures var f, g := s.held.flags, OnFailure(s, e).held.flags;
      && (g.serverBindingConfirmed || g.selectionCurrent ==>
        !CycleFails(s, e) && !s.phase.Withdrawing? && !s.phase.Leaving?)
      && (g.serverBindingConfirmed ==> f.serverBindingConfirmed) && (g.selectionCurrent ==> f.selectionCurrent)
      && g.clockAnchored == f.clockAnchored
  {
    hide OnCycleError;
    if CycleFails(s, e) {
      hide CycleFails;
      ErrorFlags(s, e.failure);
    }
  }

  lemma CycleFlags(s: State, e: Event)
    requires !FromPage(e) && !e.Fail?
    ensures var f, g := s.held.flags, OnCycle(s, e).held.flags;
      && (g.serverBindingConfirmed && !Confirms(s, e) ==> f.serverBindingConfirmed && !Discontinues(s, e))
      && (g.selectionCurrent && !Reconciles(s, e) ==>
            f.selectionCurrent && !Discontinues(s, e) && !(s.phase.Discarding? && e.Discarded?))
      && (g.clockAnchored && !Reconciles(s, e) ==> f.clockAnchored && !Discontinues(s, e))
  {
    hide Finish, StillStands;
    if s.phase.Releasing? && e.Released? {
      FinishOnlyShows(Adopt(s.held, s.phase.answer, s.phase.activation), e.rest);
    } else if s.phase.Fetching? && e.Answered? {
      FinishOnlyShows(s.held, e.rest);
    }
  }

  /** What a flag says at the end of a step, it said before and nothing reset it, or
      the step was the one that sets it. */
  lemma StepFlags(s: State, e: Event)
    ensures var f, g := s.held.flags, Step(s, e).held.flags;
      && (g.serverBindingConfirmed ==> Confirms(s, e) || (f.serverBindingConfirmed && !Resets(s, e)))
      && (g.selectionCurrent ==> Reconciles(s, e) || (f.selectionCurrent && !Resets(s, e)))
      && (g.clockAnchored ==> Reconciles(s, e) || (f.clockAnchored && !Discontinues(s, e)))
  {
    hide OnPage, OnFailure, OnCycle, StillStands, CycleFails;
    assert CycleFails(s, e) ==> e.Fail? by { OnlyFailures(s, e); }
    if FromPage(e) {
      PageFlags(s.held, e);
    } else if e.Fail? {
      FailureFlags(s, e);
    } else {
      CycleFlags(s, e);
    }
  }

  lemma OnlyFailures(s: State, e: Event)
    ensures CycleFails(s, e) ==> e.Fail?
  {
  }

  lemma {:induction false} ConfirmedSince(run: seq<State>, events: seq<Event>, n: nat) returns (c: nat)
    requires IsRun(run, events) && n < |run| && run[n].held.flags.serverBindingConfirmed
    ensures c < n && Confirms(run[c], events[c]) && !ResetIn(run, events, c + 1, n)
    ensures forall q | c < q < n :: !Confirms(run[q], events[q])
  {
    hide Step, Confirms, Resets;
    assert n > 0;
    assert run[n - 1 + 1] == run[n];
    StepFlags(run[n - 1], events[n - 1]);
    if Confirms(run[n - 1], events[n - 1]) {
      c := n - 1;
    } else {
      c := ConfirmedSince(run, events, n - 1);
    }
  }

  lemma {:induction false} CurrentSince(run: seq<State>, events: seq<Event>, n: nat) returns (r: nat)
    requires IsRun(run, events) && n < |run| && run[n].held.flags.selectionCurrent
    ensures r < n && Reconciles(run[r], events[r]) && !ResetIn(run, events, r + 1, n)
    ensures forall q | r < q < n :: !Reconciles(run[q], events[q])
  {
    hide Step, Reconciles, Resets;
    assert n > 0;
    assert run[n - 1 + 1] == run[n];
    StepFlags(run[n - 1], events[n - 1]);
    if Reconciles(run[n - 1], events[n - 1]) {
      r := n - 1;
    } else {
      r := CurrentSince(run, events, n - 1);
    }
  }

  /** After a discontinuity the clock is anchored only by a reconciliation. */
  lemma {:induction false} AnchoredSince(run: seq<State>, events: seq<Event>, d: nat, n: nat) returns (r: nat)
    requires IsRun(run, events) && d < n < |run| && run[n].held.flags.clockAnchored && Discontinues(run[d], events[d])
    ensures d < r < n && Reconciles(run[r], events[r])
  {
    hide Step, Reconciles, Discontinues;
    assert run[n - 1 + 1] == run[n];
    StepFlags(run[n - 1], events[n - 1]);
    if Reconciles(run[n - 1], events[n - 1]) && d < n - 1 {
      r := n - 1;
    } else {
      assert d < n - 1 by { NotBoth(run[d], events[d]); }
      r := AnchoredSince(run, events, d, n - 1);
    }
  }

  lemma NotBoth(s: State, e: Event)
    ensures !(Reconciles(s, e) && Discontinues(s, e))
  {
  }

  // ---- the theorems -------------------------------------------------------------------------------

  /** Healthy reporting needs the server: a confirmation of the binding and a
      reconciliation have both completed, and nothing has reset either since; and
      the content reported belongs to the binding confirmed. */
  lemma HealthNeedsTheServer(run: seq<State>, events: seq<Event>, n: nat) returns (c: nat, r: nat)
    requires IsRun(run, events) && n < |run| && MeaningfulEvidence(run[n].held.flags)
    ensures c < n && Confirms(run[c], events[c]) && !ResetIn(run, events, c + 1, n)
    ensures r < n && Reconciles(run[r], events[r]) && !ResetIn(run, events, r + 1, n)
    ensures run[n].held.active.Some? && run[n].link == Some(run[n].held.active.value.binding)
  {
    hide Step, Confirms, Reconciles, Resets, ResetIn;
    c := ConfirmedSince(run, events, n);
    r := CurrentSince(run, events, n);
    RunKeepsInv(run, events, n);
  }

  lemma ApplyRestOnScreen(h: Held, rest: bool)
    requires OnScreen(ApplyRest(h, rest))
    ensures h.active.Some? ==>
      OnScreen(h) && ApplyRest(h, rest).active == h.active && ApplyRest(h, rest).shown == h.shown
  {
  }

  lemma PageOnScreen(h: Held, e: Event)
    requires FromPage(e) && OnScreen(OnPage(h, e)) && (h.flags.localActivationAuthorized ==> h.active.Some?)
    ensures var t := OnPage(h, e);
      e == Reported(IdOf(t.active), true) || (OnScreen(h) && t.active == h.active && t.shown == h.shown)
  {
    hide ApplyRest;
    if e.RestTimer? {
      RestOnlyShows(h, e.rest);
      ApplyRestOnScreen(h, e.rest);
    }
  }

  lemma FailureOnScreen(s: State, e: Event)
    requires Inv(s) && e.Fail? && OnScreen(OnFailure(s, e).held)
    ensures var t := OnFailure(s, e).held;
      OnScreen(s.held) && t.active == s.held.active && t.shown == s.held.shown
  {
  }

  lemma FinishOnScreen(h: Held, rest: bool)
    requires OnScreen(Finish(h, rest)) && (h.flags.localActivationAuthorized ==> h.active.Some?)
    ensures OnScreen(h) && Finish(h, rest).active == h.active && Finish(h, rest).shown == h.shown
  {
    hide ApplyRest;
    var g := h.(flags := Reconciled(h.flags));
    RestOnlyShows(g, rest);
    ApplyRestOnScreen(g, rest);
  }

  lemma CycleOnScreen(s: State, e: Event)
    requires Inv(s) && !FromPage(e) && !e.Fail? && OnScreen(OnCycle(s, e).held)
    ensures var t := OnCycle(s, e).held;
      OnScreen(s.held) && t.active == s.held.active && t.shown == s.held.shown
  {
    hide Finish, Adopt, StillStands;
    if s.phase.Releasing? && e.Released? {
      Adopts(s.held, s.phase.answer, s.phase.activation);
      FinishOnScreen(Adopt(s.held, s.phase.answer, s.phase.activation), e.rest);
    } else if s.phase.Fetching? && e.Answered? && StillStands(s.held.memory, Planned(s.phase.askedMs, e.reply)) {
      FinishOnScreen(s.held, e.rest);
    }
  }

  lemma StepOnScreen(s: State, e: Event)
    requires Inv(s) && OnScreen(Step(s, e).held)
    ensures var t := Step(s, e).held;
      e == Reported(IdOf(t.active), true) || (OnScreen(s.held) && t.active == s.held.active && t.shown == s.held.shown)
    ensures e != Reported(IdOf(Step(s, e).held.active), false)
  {
    if e.Reported? { NotRejected(s, e); }
    hide OnPage, OnFailure, OnCycle, OnScreen;
    if FromPage(e) {
      PageOnScreen(s.held, e);
    } else if e.Fail? {
      FailureOnScreen(s, e);
    } else {
      CycleOnScreen(s, e);
    }
  }

  lemma NotRejected(s: State, e: Event)
    requires e.Reported? && OnScreen(Step(s, e).held)
    ensures e != Reported(IdOf(Step(s, e).held.active), false)
  {
  }

  lemma {:induction false} AcceptedSince(run: seq<State>, events: seq<Event>, n: nat) returns (r: nat)
    requires IsRun(run, events) && n < |run| && OnScreen(run[n].held)
    ensures r < n && events[r] == Reported(IdOf(run[n].held.active), true)
    ensures forall q | r < q <= n :: run[q].held.active == run[n].held.active && run[q].held.shown == run[n].held.shown
    ensures forall q | r < q < n :: events[q] != Reported(IdOf(run[n].held.active), false)
  {
    hide Step, Inv;
    RunKeepsInv(run, events, 0);
    assert n > 0 by { NotAtFirst(run[0]); }
    assert run[n - 1 + 1] == run[n];
    RunKeepsInv(run, events, n - 1);
    StepOnScreen(run[n - 1], events[n - 1]);
    if events[n - 1] == Reported(IdOf(run[n].held.active), true) {
      r := n - 1;
    } else {
      r := AcceptedSince(run, events, n - 1);
    }
  }

  lemma NotAtFirst(s: State)
    requires Enters(s)
    ensures !OnScreen(s.held)
  {
  }

  /** Proof of play is grounded: an activation is held, it is what the Runtime was
      last sent and has been since the Runtime reported accepting it, which it has not
      taken back, and every clock discontinuity was followed by a reconciliation. */
  lemma ProofIsGrounded(run: seq<State>, events: seq<Event>, n: nat) returns (r: nat)
    requires IsRun(run, events) && n < |run| && ProofEligible(run[n].held.flags)
    ensures run[n].held.active.Some? && run[n].held.shown == IdOf(run[n].held.active)
    ensures r < n && events[r] == Reported(run[n].held.shown, true)
    ensures forall q | r < q <= n :: run[q].held.shown == run[n].held.shown
    ensures forall q | r < q < n :: events[q] != Reported(run[n].held.shown, false)
    ensures forall d | 0 <= d < n && Discontinues(run[d], events[d]) :: exists a | d < a < n ::
      Reconciles(run[a], events[a])
  {
    hide Step, Reconciles, Discontinues;
    RunKeepsInv(run, events, n);
    r := AcceptedSince(run, events, n);
    forall d | 0 <= d < n && Discontinues(run[d], events[d])
      ensures exists a | d < a < n :: Reconciles(run[a], events[a])
    {
      var a := AnchoredSince(run, events, d, n);
    }
  }

  /** An activation that lost its trust is waiting to be replaced. */
  predicate Untrusted(s: State) {
    s.held.active.Some? && !s.held.flags.localActivationAuthorized && !Terminal(s.phase)
  }

  ghost predicate Raises(s: State, g: nat) {
    s.held.memory.generation >= g && (s.phase.Releasing? ==> s.phase.activation.generation > g)
  }

  lemma StepRaises(s: State, e: Event, g: nat)
    requires Inv(s) && Raises(s, g)
    ensures Raises(Step(s, e), g)
    ensures !s.held.flags.localActivationAuthorized && !Reconciles(s, e) ==>
      !Step(s, e).held.flags.localActivationAuthorized
  {
    hide OnPage, OnFailure, OnCycle, Inv;
    if FromPage(e) {
      PageRaises(s.held, e);
    } else if e.Fail? {
      FailureRaises(s, e);
    } else {
      CycleRaises(s, e);
    }
  }

  lemma PageRaises(h: Held, e: Event)
    requires FromPage(e)
    ensures OnPage(h, e).memory == h.memory
    ensures OnPage(h, e).flags.localActivationAuthorized == h.flags.localActivationAuthorized
  {
    hide ApplyRest;
    if e.RestTimer? { RestOnlyShows(h, e.rest); }
  }

  lemma FailureRaises(s: State, e: Event)
    requires e.Fail?
    ensures var t := OnFailure(s, e);
      && t.held.memory.generation == s.held.memory.generation && (t.phase.Releasing? ==> t.phase == s.phase)
      && (t.held.flags.localActivationAuthorized ==> s.held.flags.localActivationAuthorized)
  {
  }

  lemma CycleRaises(s: State, e: Event)
    requires !FromPage(e) && !e.Fail?
    ensures var t := OnCycle(s, e);
      && t.held.memory.generation >= s.held.memory.generation
      && (t.phase.Releasing? && t.phase != s.phase ==>
            t.phase.activation.generation == t.held.memory.generation > s.held.memory.generation)
      && (t.held.flags.localActivationAuthorized ==> s.held.flags.localActivationAuthorized || Reconciles(s, e))
  {
    hide Finish, Adopt, StillStands;
    if s.phase.Releasing? && e.Released? {
      var h := Adopt(s.held, s.phase.answer, s.phase.activation);
      Adopts(s.held, s.phase.answer, s.phase.activation);
      FinishOnlyShows(h, e.rest);
    } else if s.phase.Fetching? && e.Answered? {
      FinishOnlyShows(s.held, e.rest);
    }
  }

  lemma {:induction false} StaysUntrusted(run: seq<State>, events: seq<Event>, i: nat, j: nat, g: nat)
    requires IsRun(run, events) && i <= j < |run| && !run[i].held.flags.localActivationAuthorized && Raises(run[i], g)
    requires forall q | i <= q < j :: !Reconciles(run[q], events[q])
    ensures !run[j].held.flags.localActivationAuthorized && Raises(run[j], g)
    decreases j
  {
    hide Step, Inv, Reconciles, Raises;
    if i < j {
      StaysUntrusted(run, events, i, j - 1, g);
      assert run[j - 1 + 1] == run[j];
      RunKeepsInv(run, events, j - 1);
      StepRaises(run[j - 1], events[j - 1], g);
    }
  }

  /** Repair is always pending when trust is lost: the key is empty, so the next
      reconciliation to complete takes over with a new activation of a higher
      generation, authorized, and shown unless the screen rests. */
  lemma RepairIsPending(run: seq<State>, events: seq<Event>, i: nat, j: nat)
    requires IsRun(run, events) && i <= j < |events| && Untrusted(run[i])
    requires forall q | i <= q < j :: !Reconciles(run[q], events[q])
    ensures run[i].held.memory.key == None
    ensures Reconciles(run[j], events[j]) ==>
      var h := run[j + 1].held;
      && h.active.Some? && h.flags.localActivationAuthorized && h.memory.key.Some?
      && h.active.value.generation == h.memory.generation > run[i].held.active.value.generation
      && (!h.flags.resting ==> h.shown == IdOf(h.active) && !h.flags.runtimeActivationAccepted)
  {
    hide Step;
    RunKeepsInv(run, events, i);
    var g := run[i].held.active.value.generation;
    StaysUntrusted(run, events, i, j, g);
    RunKeepsInv(run, events, j);
    if Reconciles(run[j], events[j]) {
      assert run[j + 1] == Step(run[j], events[j]);
      Replaces(run[j], events[j]);
    }
  }

  lemma Replaces(s: State, e: Event)
    requires Inv(s) && Reconciles(s, e) && s.held.memory.key == None
    ensures var h := Step(s, e).held;
      && s.phase.Releasing? && h.active == Some(s.phase.activation) && h.flags.localActivationAuthorized
      && h.memory.key == Some(s.phase.answer.key) && h.memory.generation == s.held.memory.generation
      && (!h.flags.resting ==> h.shown == IdOf(h.active) && !h.flags.runtimeActivationAccepted)
  {
  }

  // ---- what is shown without being trusted ----------------------------------------------------------

  /** A step that puts an activation on the screen although it is not authorized. */
  predicate ShowsUntrusted(s: State, e: Event) {
    var h := Step(s, e).held;
    h.active.Some? && h.shown == IdOf(h.active) && !h.flags.localActivationAuthorized && s.held.shown != h.shown
  }

  /** Only waking from rest does: an activation kept without trust, as after a 403, is
      shown again over the status surface when the active hours return. */
  lemma OnlyWakingShowsUntrusted(s: State, e: Event)
    requires Inv(s)
    ensures ShowsUntrusted(s, e) <==>
      e == RestTimer(false) && s.held.flags.resting && s.held.active.Some? && !s.held.flags.localActivationAuthorized
  {
    hide OnPage, OnFailure, OnCycle;
    if FromPage(e) {
      PageShows(s, e);
    } else if e.Fail? {
      FailureShows(s, e);
    } else {
      CycleShows(s, e);
    }
  }

  lemma PageShows(s: State, e: Event)
    requires Inv(s) && FromPage(e)
    ensures ShowsUntrusted(s, e) <==>
      e == RestTimer(false) && s.held.flags.resting && s.held.active.Some? && !s.held.flags.localActivationAuthorized
  {
  }

  lemma FailureShows(s: State, e: Event)
    requires e.Fail?
    ensures !ShowsUntrusted(s, e)
  {
  }

  lemma CycleShows(s: State, e: Event)
    requires Inv(s) && !FromPage(e) && !e.Fail?
    ensures !ShowsUntrusted(s, e)
  {
    hide Finish, Adopt;
    if s.phase.Releasing? && e.Released? {
      var h := Adopt(s.held, s.phase.answer, s.phase.activation);
      Adopts(s.held, s.phase.answer, s.phase.activation);
      FinishOnlyShows(h, e.rest);
    } else if s.phase.Fetching? && e.Answered? {
      FinishOnlyShows(s.held, e.rest);
    }
  }

  // ---- a reconciliation that fails ------------------------------------------------------------------

  predicate InSelection(p: Phase) { p.Fetching? || p.Preparing? || p.Releasing? }

  lemma StepInSelection(s: State, e: Event)
    requires Inv(s) && InSelection(s.phase) && InSelection(Step(s, e).phase)
    ensures var h, t := s.held, Step(s, e).held;
      && t.active == h.active
      && (Step(s, e).phase.Releasing? && !s.phase.Releasing? ==>
            t.memory == Raised(h.memory) && t.committed == Some(Step(s, e).phase.activation))
      && (s.phase.Releasing? ==> Step(s, e).phase == s.phase)
      && (Step(s, e).phase.Releasing? == s.phase.Releasing? ==> t.memory == h.memory && t.committed == h.committed)
  {
  }

  lemma {:induction false} DuringSelection(run: seq<State>, events: seq<Event>, i: nat, j: nat)
    requires IsRun(run, events) && i <= j < |run| && run[i].phase.Fetching?
    requires forall q | i <= q <= j :: InSelection(run[q].phase)
    ensures run[j].held.active == run[i].held.active
    ensures if run[j].phase.Releasing?
            then run[j].held.memory == Raised(run[i].held.memory)
              && run[j].held.committed == Some(run[j].phase.activation)
                 && run[j].phase.activation.generation == run[j].held.memory.generation
            else run[j].held.memory == run[i].held.memory && run[j].held.committed == run[i].held.committed
    decreases j
  {
    hide Step;
    RunKeepsInv(run, events, j);
    if i < j {
      DuringSelection(run, events, i, j - 1);
      assert run[j - 1 + 1] == run[j];
      RunKeepsInv(run, events, j - 1);
      StepInSelection(run[j - 1], events[j - 1]);
    }
  }

  /** A reconciliation that fails leaves the accepted inputs and the activation held
      as they were, and the one on disk and its generation too, exactly when it had
      not committed: a failure to release what it pinned comes after the commit. */
  lemma FailureLeavesTheActivation(run: seq<State>, events: seq<Event>, i: nat, j: nat)
    requires IsRun(run, events) && i <= j < |events| && run[i].phase.Fetching? && events[j].Fail?
    requires forall q | i <= q <= j :: InSelection(run[q].phase)
    ensures run[j].held.active == run[i].held.active && run[j].held.memory.key == run[i].held.memory.key
    ensures (run[j].held.memory == run[i].held.memory && run[j].held.committed == run[i].held.committed)
       <==> !run[j].phase.Releasing?
    ensures run[j].phase.Releasing? ==>
      && run[j].held.memory.generation == run[i].held.memory.generation + 1
      && run[j].held.committed.Some? && run[j].held.committed.value.generation == run[j].held.memory.generation
      && (run[j].held.active.Some? ==> run[j].held.committed != run[j].held.active)
  {
    hide Step;
    DuringSelection(run, events, i, j);
    RunKeepsInv(run, events, j);
  }
}
