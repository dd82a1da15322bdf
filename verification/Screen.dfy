/** What is on the screen, and what the server is asked, over runs of the Host's loop
    (apps/player-web/src/player.ts). */
module Screen {
  import opened Text
  import opened Lifecycle
  import opened Reconcile
  import opened Host
  import opened Cycle
  import opened Anchor

  // ---- status surfaces -------------------------------------------------------------------

  /** A step by which the page says that nothing may be shown: disabled by a 403; left
      for good after a 401 or with another server; pairing that ended; a server that
      cannot be reached, no content yet to be had, or content of another binding, with
      nothing held. */
  predicate Surfaces(s: Cycle.State, e: Event) {
    || (CycleFails(s, e) && (e.failure.Forbidden? || e.failure.PairingOver?
          || (e.failure.Unreachable? && s.held.active.None?)))
    || (s.phase.Leaving? && e.Done?)
    || ((s.phase.Withdrawing? || s.phase.Leaving?) && e.Fail?)
    || (s.phase.Discarding? && e.Discarded?)
    || (s.phase.Confirming? && !s.held.bound && e.Pairing?)
  }

  /** A screen at rest wakes holding an activation. */
  predicate Wakes(s: Cycle.State, e: Event) { e == RestTimer(false) && s.held.flags.resting && s.held.active.Some? }

  predicate Off(s: Cycle.State) { s.held.shown.None? && !s.held.flags.localActivationAuthorized }

  lemma SurfaceIsOff(s: Cycle.State, e: Event)
    requires Inv(s) && Surfaces(s, e)
    ensures Off(Step(s, e))
  {
  }

  lemma StaysOffOneStep(s: Cycle.State, e: Event)
    requires Inv(s) && Off(s) && !Wakes(s, e) && !Commits(s, e)
    ensures Off(Step(s, e))
  {
    hide OnPage, OnFailure, OnCycle, Inv;
    if FromPage(e) {
      PageStaysOff(s, e);
    } else if e.Fail? {
      FailureStaysOff(s, e);
    } else {
      CycleStaysOff(s, e);
    }
  }

  lemma PageStaysOff(s: Cycle.State, e: Event)
    requires FromPage(e) && Off(s) && !Wakes(s, e)
    ensures Off(Step(s, e))
  {
  }

  lemma FailureStaysOff(s: Cycle.State, e: Event)
    requires e.Fail? && Off(s)
    ensures Off(Step(s, e))
  {
  }

  lemma CycleStaysOff(s: Cycle.State, e: Event)
    requires Inv(s) && !FromPage(e) && !e.Fail? && Off(s) && !Commits(s, e)
    ensures Off(Step(s, e))
  {
    hide Finish, Adopt;
  }

  /** From such a step on the screen stays off, until one at rest wakes holding what
      was kept, or a reconciliation commits an activation anew. */
  lemma {:induction false} StaysOff(run: seq<Cycle.State>, events: seq<Event>, i: nat, j: nat)
    requires IsRun(run, events) && i < j <= |events| && Surfaces(run[i], events[i])
    requires forall q | i < q < j :: !Wakes(run[q], events[q]) && !Commits(run[q], events[q])
    ensures run[j].held.shown.None? && !run[j].held.flags.localActivationAuthorized
    decreases j
  {
    hide Step, Inv, Surfaces, Wakes, Commits;
    RunKeepsInv(run, events, j - 1);
    assert run[j - 1 + 1] == Step(run[j - 1], events[j - 1]);
    if i + 1 == j {
      SurfaceIsOff(run[i], events[i]);
    } else {
      StaysOff(run, events, i, j - 1);
      StaysOffOneStep(run[j - 1], events[j - 1]);
    }
  }

  /** And those two show something: what was kept, or the new one unless it rests. */
  lemma ShowsAgain(run: seq<Cycle.State>, events: seq<Event>, n: nat)
    requires IsRun(run, events) && n < |events| && (Wakes(run[n], events[n]) || Commits(run[n], events[n]))
    ensures var h := run[n + 1].held;
      && h.active.Some? && (Wakes(run[n], events[n]) ==> h.active == run[n].held.active)
      && (Commits(run[n], events[n]) ==> h.active == Some(run[n].phase.activation))
      && (!h.flags.resting ==> h.shown == IdOf(h.active) && !ProofEligible(h.flags))
  {
    hide Step, Inv, Finish, Adopt;
    RunKeepsInv(run, events, n);
    assert run[n + 1] == Step(run[n], events[n]);
    if Commits(run[n], events[n]) {
      CommitShows(run[n], events[n]);
    } else {
      WakeShows(run[n], events[n]);
    }
  }

  lemma CommitShows(s: Cycle.State, e: Event)
    requires Inv(s) && Commits(s, e)
    ensures var h := Step(s, e).held;
      && h.active == Some(s.phase.activation)
      && (!h.flags.resting ==> h.shown == IdOf(h.active) && !ProofEligible(h.flags))
  {
    hide Finish, Adopt;
    var h := Adopt(s.held, s.phase.answer, s.phase.activation);
    Adopts(s.held, s.phase.answer, s.phase.activation);
    FinishOnlyShows(h, e.rest);
  }

  lemma WakeShows(s: Cycle.State, e: Event)
    requires Wakes(s, e)
    ensures var h := Step(s, e).held;
      h.active == s.held.active && (!h.flags.resting ==> h.shown == IdOf(h.active) && !ProofEligible(h.flags))
  {
  }

  /** An operator's reload sends what is held again, to be accepted again, wherever an
      authorized activation is shown. */
  lemma ReloadsAgain(run: seq<Cycle.State>, events: seq<Event>, n: nat)
    requires IsRun(run, events) && n < |events| && run[n].phase.Reporting? && events[n] == Reload
    requires run[n].held.flags.localActivationAuthorized && !run[n].held.flags.resting
    ensures run[n + 1].held.shown == IdOf(run[n].held.active) && !run[n + 1].held.flags.runtimeActivationAccepted
    ensures run[n + 1].held.active == run[n].held.active && run[n + 1].held.active.Some?
  {
    RunKeepsInv(run, events, n);
    assert run[n + 1] == Step(run[n], events[n]);
  }

  // ---- what a failure leaves alone ---------------------------------------------------------

  /** A server that cannot be reached, or a cycle that fails in any other way, ends
      health and nothing else: what is held goes on being shown, trusted and counted. */
  lemma KeepsPlaying(run: seq<Cycle.State>, events: seq<Event>, n: nat)
    requires IsRun(run, events) && n < |events| && CycleFails(run[n], events[n]) && run[n].held.active.Some?
    requires events[n].failure.Unreachable? || events[n].failure.Other?
    ensures var h, t := run[n].held, run[n + 1].held;
      && t.shown == h.shown && t.active == h.active && t.committed == h.committed && t.memory == h.memory
      && t.flags.localActivationAuthorized == h.flags.localActivationAuthorized
      && ProofEligible(t.flags) == ProofEligible(h.flags) && !MeaningfulEvidence(t.flags)
      && run[n + 1].phase.Waiting?
  {
    assert run[n + 1] == Step(run[n], events[n]);
  }

  /** A command's reconciliation that fails changes nothing, and the cycle goes on. */
  lemma FailedCommand(run: seq<Cycle.State>, events: seq<Event>, n: nat)
    requires IsRun(run, events) && n < |events| && ByCommand(run[n].phase) && events[n].Fail?
    ensures run[n + 1].held == run[n].held && run[n + 1].phase.Reporting? && run[n + 1].link == run[n].link
  {
    assert run[n + 1] == Step(run[n], events[n]);
  }

  /** A 403 keeps what is held for later, but neither trusts nor counts it, and the
      server is asked again. */
  lemma DisabledKeeps(run: seq<Cycle.State>, events: seq<Event>, n: nat)
    requires IsRun(run, events) && n < |events| && CycleFails(run[n], events[n]) && events[n].failure.Forbidden?
    ensures var h, t := run[n].held, run[n + 1].held;
      && t.active == h.active && t.committed == h.committed && t.shown.None? && t.memory.key.None?
      && !t.flags.localActivationAuthorized && !ProofEligible(t.flags) && run[n + 1].phase.Waiting?
  {
    assert run[n + 1] == Step(run[n], events[n]);
  }

  // ---- leaving ------------------------------------------------------------------------------

  /** A page that is leaving holds nothing any more. */
  lemma {:induction false} LeavesNothing(run: seq<Cycle.State>, events: seq<Event>, n: nat)
    requires IsRun(run, events) && n <= |events| && run[n].phase.Leaving?
    ensures run[n].held.active.None?
  {
    hide Step;
    assert n > 0;
    assert run[n] == Step(run[n - 1], events[n - 1]);
    LeavingFrom(run[n - 1], events[n - 1]);
    if run[n - 1].phase.Leaving? {
      LeavesNothing(run, events, n - 1);
    }
  }

  lemma LeavingFrom(s: Cycle.State, e: Event)
    requires Step(s, e).phase.Leaving?
    ensures Step(s, e).held.active.None? || (s.phase.Leaving? && Step(s, e).held.active == s.held.active)
  {
    hide Adopt, Finish;
    if e.RestTimer? { RestOnlyShows(s.held, e.rest); }
  }

  /** The last step of a 401 leaves nothing on the screen, held, or remembered. */
  lemma LeftWithNothing(run: seq<Cycle.State>, events: seq<Event>, n: nat)
    requires IsRun(run, events) && n < |events| && run[n].phase.Leaving? && events[n] == Done
    ensures var t := run[n + 1];
      t.phase.Ended? && t.held.active.None? && t.held.shown.None? && t.held.memory.key.None?
  {
    LeavesNothing(run, events, n);
    assert run[n + 1] == Step(run[n], events[n]);
  }

  /** What is discarded is gone from the page and from disk; another binding's content
      from the screen too, before the binding is confirmed. */
  lemma Discards(run: seq<Cycle.State>, events: seq<Event>, n: nat)
    requires IsRun(run, events) && n < |events| && events[n].Discarded?
    requires run[n].phase.Withdrawing? || run[n].phase.Discarding?
    ensures var t := run[n + 1].held;
      && t.active.None? && t.committed.None? && !t.flags.localActivationAuthorized
      && (run[n].phase.Discarding? ==> t.shown.None? && t.memory.key.None? && t.flags.serverBindingConfirmed)
  {
    RunKeepsInv(run, events, n);
    assert run[n + 1] == Step(run[n], events[n]);
  }

  /** A 401, or another identity, discards what is held before anything else. */
  lemma WithdrawnFirst(run: seq<Cycle.State>, events: seq<Event>, n: nat)
    requires IsRun(run, events) && n < |events| && events[n] == Fail(Unauthorized) && CycleFails(run[n], events[n])
    ensures var t := run[n + 1];
      && !t.held.flags.localActivationAuthorized && !MeaningfulEvidence(t.held.flags) && !ProofEligible(t.held.flags)
      && if run[n].held.active.Some? then t.phase.Withdrawing? else t.phase.Leaving?
  {
    assert run[n + 1] == Step(run[n], events[n]);
  }

  // ---- what is asked, and when ---------------------------------------------------------------

  /** A check of the resources on disk is due and there is an activation to check. */
  predicate ChecksFirst(s: Cycle.State, e: Event) {
    s.held.active.Some? && ((s.phase.Opening? && e.Opened? && e.check) || (e.SyncNow? && e.check))
  }

  /** The selection is asked for once the binding is confirmed, in the foreground, and
      not before a check that is due; or when a command asks for it. */
  lemma AsksWhen(s: Cycle.State, e: Event)
    requires Inv(s)
    ensures Asks(s, e) <==>
      || (Confirms(s, e) && ForegroundEligible(s.held.flags) && !ChecksFirst(s, e))
      || (s.phase.Reporting? && e.SyncNow? && !ChecksFirst(s, e))
      || (s.phase.Checking? && e.Checked?)
  {
    hide Finish, Adopt, StillStands, ApplyRest;
  }

  /** A page in the background only reports; one with a check due checks. */
  lemma ConfirmedThen(s: Cycle.State, e: Event)
    requires Inv(s) && Confirms(s, e)
    ensures var t := Step(s, e);
      && t.held.flags.serverBindingConfirmed && t.link == Some(s.phase.binding)
      && if !ForegroundEligible(s.held.flags) then t.phase.Reporting?
         else if ChecksFirst(s, e) then t.phase.Checking? else t.phase.Fetching?
  {
  }

  lemma CommandedThen(s: Cycle.State, e: Event)
    requires s.phase.Reporting? && e.SyncNow?
    ensures Step(s, e).phase.Checking? <==> ChecksFirst(s, e)
    ensures Step(s, e).phase.Checking? || Step(s, e).phase.Fetching?
    ensures ByCommand(Step(s, e).phase)
  {
  }

  /** A missing resource ends trust, and what is shown counts no more; a check that
      finds all of them changes nothing. */
  lemma MissingEndsTrust(run: seq<Cycle.State>, events: seq<Event>, n: nat)
    requires IsRun(run, events) && n < |events| && run[n].phase.Checking? && events[n].Checked?
    ensures run[n + 1].phase.Fetching?
    ensures events[n].intact ==> run[n + 1].held == run[n].held
    ensures !events[n].intact ==> !run[n + 1].held.flags.localActivationAuthorized && run[n + 1].held.memory.key.None?
    ensures !events[n].intact ==> !ProofEligible(run[n + 1].held.flags)
  {
    assert run[n + 1] == Step(run[n], events[n]);
  }

  // ---- the page ------------------------------------------------------------------------------------

  /** Whether the page was last said to be visible. */
  ghost function LastVisible(run: seq<Cycle.State>, events: seq<Event>, n: nat): bool
    requires n <= |events| < |run|
  {
    if n == 0 then run[0].held.flags.visible
    else if events[n - 1].Visibility? then events[n - 1].visible
    else LastVisible(run, events, n - 1)
  }

  /** Whether it was last frozen rather than resumed. */
  ghost function LastFrozen(run: seq<Cycle.State>, events: seq<Event>, n: nat): bool
    requires n <= |events| < |run|
  {
    if n == 0 then run[0].held.flags.frozen
    else if events[n - 1].Freeze? then true
    else if events[n - 1].Resume? then false
    else LastFrozen(run, events, n - 1)
  }

  /** What counts as the foreground is what the page's last events said. */
  lemma {:induction false} ForegroundIs(run: seq<Cycle.State>, events: seq<Event>, n: nat)
    requires IsRun(run, events) && n <= |events|
    ensures ForegroundEligible(run[n].held.flags) <==>
      LastVisible(run, events, n) && !LastFrozen(run, events, n)
    ensures run[n].held.flags.visible == LastVisible(run, events, n)
    ensures run[n].held.flags.frozen == LastFrozen(run, events, n)
  {
    hide Step;
    if n > 0 {
      ForegroundIs(run, events, n - 1);
      assert run[n] == Step(run[n - 1], events[n - 1]);
      StepForeground(run[n - 1], events[n - 1]);
    }
  }

  predicate SameForeground(f: Flags, g: Flags) { g.visible == f.visible && g.frozen == f.frozen }

  lemma RestForeground(h: Held, rest: bool)
    ensures SameForeground(h.flags, ApplyRest(h, rest).flags)
  {
    RestCases(h, rest);
    hide ApplyRest;
  }

  lemma FinishForeground(h: Held, rest: bool)
    ensures SameForeground(h.flags, Finish(h, rest).flags)
  {
    hide ApplyRest;
    RestForeground(h.(flags := Reconciled(h.flags)), rest);
  }

  lemma AdoptForeground(h: Held, answer: Answer, a: Activation)
    ensures SameForeground(h.flags, Adopt(h, answer, a).flags)
  {
  }

  lemma FailureForeground(s: Cycle.State, e: Event)
    requires e.Fail?
    ensures SameForeground(s.held.flags, OnFailure(s, e).held.flags)
  {
    hide OnCycleError, CycleFails;
    ErrorForeground(s, e.failure);
  }

  lemma ErrorForeground(s: Cycle.State, failure: Failure)
    ensures SameForeground(s.held.flags, OnCycleError(s, failure).held.flags)
  {
  }

  lemma ConfirmForeground(h: Held, link: Option<string>, binding: string, check: bool, nowMs: int)
    ensures SameForeground(h.flags, Confirm(h, binding, check, nowMs).held.flags)
    ensures forall byCommand :: StartReconcile(h, link, check, byCommand, nowMs).held == h
  {
  }

  lemma CycleForeground(s: Cycle.State, e: Event)
    requires !FromPage(e) && !e.Fail?
    ensures SameForeground(s.held.flags, OnCycle(s, e).held.flags)
  {
    hide Finish, Adopt, StillStands, Confirm, StartReconcile, ClockDiscontinuity, Planned;
    if s.phase.Releasing? && e.Released? {
      AdoptForeground(s.held, s.phase.answer, s.phase.activation);
      FinishForeground(Adopt(s.held, s.phase.answer, s.phase.activation), e.rest);
    } else if s.phase.Fetching? && e.Answered? {
      FinishForeground(s.held, e.rest);
    } else if s.phase.Opening? && e.Opened? {
      ConfirmForeground(s.held, s.link, s.phase.binding, e.check, e.nowMs);
    } else if s.phase.Discarding? && e.Discarded? {
      var h := Surface(Forget(Revoke(DropActivation(s.held))));
      ConfirmForeground(h, s.link, s.phase.binding, false, e.nowMs);
    } else if s.phase.Reporting? && e.SyncNow? {
      ConfirmForeground(s.held, s.link, "", e.check, e.nowMs);
    }
  }

  lemma StepForeground(s: Cycle.State, e: Event)
    ensures var f, g := s.held.flags, Step(s, e).held.flags;
      && g.visible == (if e.Visibility? then e.visible else f.visible)
      && g.frozen == (e.Freeze? || (f.frozen && !e.Resume?))
  {
    hide ApplyRest, OnFailure, OnCycle;
    if FromPage(e) {
      if e.RestTimer? { RestForeground(s.held, e.rest); }
    } else if e.Fail? {
      FailureForeground(s, e);
    } else {
      CycleForeground(s, e);
    }
  }
}
