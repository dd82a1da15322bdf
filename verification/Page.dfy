/** The Browser Player as it runs (apps/player-web/src/player.ts): the handlers and
    the stretches of the cycle, each changing the Host's fields in place, and each
    one step of the machine in Cycle. */
module Page {
  import opened Text
  import opened Lifecycle
  import opened Reconcile
  import opened Host
  import opened Cycle

  class BrowserPlayer {
    const host: Player
    var phase: Phase
    var link: Option<string>

    function Now(): Cycle.State
      reads this, host, host.state, host.store
    {
      Cycle.State(host.Now(), phase, link)
    }

    constructor (host: Player)
      ensures this.host == host && Now() == Cycle.State(host.Now(), Waiting, None)
    {
      this.host, phase, link := host, Waiting, None;
    }

    // ---- handlers, between any two awaits ------------------------------------------------

    method OnEvent(e: Event)
      requires FromPage(e) && Inv(Now())
      modifies host, host.state
      ensures Now() == Step(old(Now()), e) && Inv(Now())
    {
      StepKeepsInv(Now(), e);
      hide Inv, ApplyRest;
      match e
      case Reported(about, accepted) => host.RuntimeResult(about, accepted);
      case Visibility(visible) => host.Visibility(visible);
      case Freeze => host.Freeze();
      case Resume => host.Resume();
      case RestTimer(rest) => host.EvaluateRest(rest);
    }

    // ---- the cycle, from one await to the next -----------------------------------------------

    method BeginCycle(previous: ClockSample, current: ClockSample)
      requires phase.Waiting? && Inv(Now())
      modifies this, host.state
      ensures Now() == Step(old(Now()), Begin(previous, current)) && Inv(Now())
    {
      StepKeepsInv(Now(), Begin(previous, current));
      hide Inv;
      if ClockDiscontinuity(previous, current) {
        host.state.MarkClockDiscontinuity();
      }
      phase := Confirming;
    }

    method ShowPairing()
      requires phase.Confirming? && !host.bound && Inv(Now())
      modifies host
      ensures Now() == Step(old(Now()), Pairing) && Inv(Now())
    {
      StepKeepsInv(Now(), Pairing);
      hide Inv;
      host.ShowSurface();
    }

    method SignedIn(binding: string)
      requires phase.Confirming? && Inv(Now())
      modifies this, host
      ensures Now() == Step(old(Now()), Authenticated(binding)) && Inv(Now())
    {
      StepKeepsInv(Now(), Authenticated(binding));
      hide Inv;
      host.bound := true;
      phase := Opening(binding);
    }

    /** Another binding's activation is discarded before anything is confirmed. */
    method SlotOpened(check: bool, nowMs: int)
      requires phase.Opening? && Inv(Now())
      modifies this, host.state
      ensures Now() == Step(old(Now()), Opened(check, nowMs)) && Inv(Now())
    {
      StepKeepsInv(Now(), Opened(check, nowMs));
      hide Inv;
      var binding := phase.binding;
      if host.active.Some? && host.active.value.binding != binding {
        phase := Discarding(binding);
      } else {
        Confirmed(binding, check, nowMs);
      }
    }

    method OtherDiscarded(nowMs: int)
      requires phase.Discarding? && Inv(Now())
      modifies this, host, host.state, host.store
      ensures Now() == Step(old(Now()), Discarded(nowMs)) && Inv(Now())
    {
      StepKeepsInv(Now(), Discarded(nowMs));
      hide Inv, Confirm;
      var binding := phase.binding;
      host.active, host.store.committed := None, None;
      host.Withdraw();
      host.ForgetKey();
      host.ShowSurface();
      Confirmed(binding, false, nowMs);
    }

    method Confirmed(binding: string, check: bool, nowMs: int)
      modifies this, host.state
      ensures Now() == Confirm(old(host.Now()), binding, check, nowMs)
    {
      host.state.serverBindingConfirmed := true;
      link := Some(binding);
      if ForegroundEligible(host.state.Now()) {
        phase := if check && host.active.Some? then Checking(false) else Fetching(false, nowMs);
      } else {
        phase := Reporting;
      }
    }

    method ResourcesChecked(intact: bool, nowMs: int)
      requires phase.Checking? && Inv(Now())
      modifies this, host.state, host.store
      ensures Now() == Step(old(Now()), Checked(intact, nowMs)) && Inv(Now())
    {
      StepKeepsInv(Now(), Checked(intact, nowMs));
      hide Inv;
      host.Verified(intact);
      phase := Fetching(phase.byCommand, nowMs);
    }

    method ServerAnswered(reply: Reply, rest: bool)
      requires phase.Fetching? && Inv(Now())
      modifies this, host, host.state
      ensures Now() == Step(old(Now()), Answered(reply, rest)) && Inv(Now())
    {
      StepKeepsInv(Now(), Answered(reply, rest));
      hide Inv, Finish, StillStands;
      var answer := Planned(phase.askedMs, reply);
      if StillStands(host.store.Recall(), answer) {
        host.FinishReconcile(rest);
        phase := Reporting;
      } else {
        phase := Preparing(phase.byCommand, answer);
      }
    }

    method ActivationCommitted(id: string)
      requires phase.Preparing? && Inv(Now())
      modifies this, host.store
      ensures Now() == Step(old(Now()), Committed(id)) && Inv(Now())
    {
      StepKeepsInv(Now(), Committed(id));
      hide Inv;
      var a := Activation(id, host.store.generation + 1, if link.Some? then link.value else "");
      host.store.generation := a.generation;
      host.store.committed := Some(a);
      phase := Releasing(phase.byCommand, phase.answer, a);
    }

    method PinsReleased(rest: bool)
      requires phase.Releasing? && Inv(Now())
      modifies this, host, host.state, host.store
      ensures Now() == Step(old(Now()), Released(rest)) && Inv(Now())
    {
      StepKeepsInv(Now(), Released(rest));
      Releases(Now(), rest);
      hide Inv, Finish, Take, Step, OnlyShows;
      host.store.Remember(phase.answer);
      host.TakeOver(phase.activation);
      host.FinishReconcile(rest);
      phase := Reporting;
    }

    method SyncCommand(check: bool, nowMs: int)
      requires phase.Reporting? && Inv(Now())
      modifies this
      ensures Now() == Step(old(Now()), SyncNow(check, nowMs)) && Inv(Now())
    {
      StepKeepsInv(Now(), SyncNow(check, nowMs));
      hide Inv;
      phase := if check && host.active.Some? then Checking(true) else Fetching(true, nowMs);
    }

    method ReloadCommand()
      requires phase.Reporting? && Inv(Now())
      modifies host, host.state
      ensures Now() == Step(old(Now()), Reload) && Inv(Now())
    {
      StepKeepsInv(Now(), Reload);
      hide Inv;
      if host.active.Some? && !host.state.resting && host.state.localActivationAuthorized {
        host.Send(host.active.value);
      }
    }

    method EndCycle()
      requires phase.Reporting? && Inv(Now())
      modifies this
      ensures Now() == Step(old(Now()), Done) && Inv(Now())
    {
      StepKeepsInv(Now(), Done);
      hide Inv;
      phase := Waiting;
    }

    // ---- errors ----------------------------------------------------------------------------------

    method CycleError(failure: Failure)
      requires CycleFails(Now(), Fail(failure)) && Inv(Now())
      modifies this, host, host.state, host.store
      ensures Now() == Step(old(Now()), Fail(failure)) && Inv(Now())
    {
      StepKeepsInv(Now(), Fail(failure));
      hide Inv, CycleFails;
      host.state.RequireReconfirmation();
      match failure
      case Unreachable =>
        if host.active.None? { host.ShowSurface(); }
        phase := Waiting;
      case Unauthorized =>
        host.Withdraw();
        phase := if host.active.Some? then Withdrawing else Leaving;
      case Forbidden =>
        host.Withdraw();
        host.ForgetKey();
        host.ShowSurface();
        phase := Waiting;
      case PairingOver =>
        host.ShowSurface();
        phase := Ended;
      case Other => phase := Waiting;
    }

    /** A reconciliation a command asked for fails: the cycle goes on. */
    method CommandError(failure: Failure)
      requires ByCommand(phase) && Inv(Now())
      modifies this
      ensures Now() == Step(old(Now()), Fail(failure)) && Inv(Now())
    {
      StepKeepsInv(Now(), Fail(failure));
      hide Inv;
      phase := Reporting;
    }

    method OwnDiscarded(nowMs: int)
      requires phase.Withdrawing? && Inv(Now())
      modifies this, host, host.store
      ensures Now() == Step(old(Now()), Discarded(nowMs)) && Inv(Now())
    {
      StepKeepsInv(Now(), Discarded(nowMs));
      hide Inv;
      host.active, host.store.committed := None, None;
      phase := Leaving;
    }

    method Leave()
      requires phase.Leaving? && Inv(Now())
      modifies this, host, host.store
      ensures Now() == Step(old(Now()), Done) && Inv(Now())
    {
      StepKeepsInv(Now(), Done);
      hide Inv;
      host.ForgetKey();
      host.ShowSurface();
      phase := Ended;
    }
  }

  lemma Releases(s: Cycle.State, rest: bool)
    requires s.phase.Releasing?
    ensures Step(s, Released(rest))
         == s.(held := Finish(Adopt(s.held, s.phase.answer, s.phase.activation), rest), phase := Reporting)
  {
    hide Finish, Adopt;
  }

  // ---- a reconciliation nothing interrupts ----------------------------------------------------

  ghost function After(s: Cycle.State, events: seq<Event>): Cycle.State
    decreases |events|
  {
    if events == [] then s else After(Step(s, events[0]), events[1..])
  }

  /** The awaits that one call of `reconcileSelection` goes through, as its stages end. */
  function Awaits(memory: Memory, askedMs: int, stages: Stages, id: string, rest: bool): seq<Event> {
    if stages.reply.None? then [Fail(Other)]
    else
      var answered := Answered(stages.reply.value, rest);
      if StillStands(memory, Planned(askedMs, stages.reply.value)) then [answered]
      else if !stages.prepares || !stages.commits then [answered, Fail(Other)]
      else if !stages.releases then [answered, Committed(id), Fail(Other)]
      else [answered, Committed(id), Released(rest)]
  }

  /** What is held after it. */
  function AtOnce(h: Held, askedMs: int, stages: Stages, id: string, binding: string, rest: bool): Held {
    if stages.reply.None? then h
    else if StillStands(h.memory, Planned(askedMs, stages.reply.value)) then Finish(h, rest)
    else if !stages.prepares || !stages.commits then h
    else
      var a := Activation(id, h.memory.generation + 1, binding);
      var committed := h.(memory := Raised(h.memory), committed := Some(a));
      if !stages.releases then committed
      else Finish(Adopt(committed, Planned(askedMs, stages.reply.value), a), rest)
  }

  /** The machine from Fetching on, when nothing falls between its steps. */
  lemma Uninterrupted(s: Cycle.State, stages: Stages, id: string, rest: bool)
    requires s.phase.Fetching? && s.phase.byCommand && s.link.Some?
    ensures After(s, Awaits(s.held.memory, s.phase.askedMs, stages, id, rest))
      == Cycle.State(AtOnce(s.held, s.phase.askedMs, stages, id, s.link.value, rest), Reporting, s.link)
  {
    hide Finish, Adopt, StillStands;
    if stages.reply.None? {
      One(s, Fail(Other));
    } else {
      var reply := stages.reply.value;
      var answer := Planned(s.phase.askedMs, reply);
      var next := Step(s, Answered(reply, rest));
      if StillStands(s.held.memory, answer) {
        One(s, Answered(reply, rest));
      } else if !stages.prepares || !stages.commits {
        Two(s, Answered(reply, rest), Fail(Other));
      } else {
        Commits(s, reply, id);
        hide Step;
        if !stages.releases {
          Three(s, Answered(reply, rest), Committed(id), Fail(Other));
          ReleaseFails(s, answer, id);
        } else {
          Three(s, Answered(reply, rest), Committed(id), Released(rest));
          ReleaseEnds(s, answer, id, rest);
        }
      }
    }
  }

  /** Where a reconciliation is when it has committed. */
  function WhenCommitted(s: Cycle.State, answer: Answer, id: string): Cycle.State
    requires s.link.Some?
  {
    var a := Activation(id, s.held.memory.generation + 1, s.link.value);
    s.(held := s.held.(memory := Raised(s.held.memory), committed := Some(a)), phase := Releasing(true, answer, a))
  }

  lemma Commits(s: Cycle.State, reply: Reply, id: string)
    requires s.phase.Fetching? && s.phase.byCommand && s.link.Some?
    requires !StillStands(s.held.memory, Planned(s.phase.askedMs, reply))
    ensures forall rest ::
      Step(Step(s, Answered(reply, rest)), Committed(id)) == WhenCommitted(s, Planned(s.phase.askedMs, reply), id)
  {
    hide StillStands;
    var answer := Planned(s.phase.askedMs, reply);
    assert forall rest :: Step(s, Answered(reply, rest)) == s.(phase := Preparing(true, answer));
  }

  lemma ReleaseFails(s: Cycle.State, answer: Answer, id: string)
    requires s.link.Some?
    ensures Step(WhenCommitted(s, answer, id), Fail(Other)) == WhenCommitted(s, answer, id).(phase := Reporting)
  {
  }

  lemma ReleaseEnds(s: Cycle.State, answer: Answer, id: string, rest: bool)
    requires s.link.Some?
    ensures var c := WhenCommitted(s, answer, id);
      Step(c, Released(rest)) == c.(held := Finish(Adopt(c.held, answer, c.phase.activation), rest), phase := Reporting)
  {
    hide Finish, Adopt;
  }

  lemma One(s: Cycle.State, a: Event)
    ensures After(s, [a]) == Step(s, a)
  {
    hide Step;
    assert [a][1..] == [];
  }

  lemma Two(s: Cycle.State, a: Event, b: Event)
    ensures After(s, [a, b]) == Step(Step(s, a), b)
  {
    hide Step;
    assert [a, b][1..] == [b];
    One(Step(s, a), b);
  }

  lemma Three(s: Cycle.State, a: Event, b: Event, c: Event)
    ensures After(s, [a, b, c]) == Step(Step(Step(s, a), b), c)
  {
    hide Step;
    assert [a, b, c][1..] == [b, c];
    Two(Step(s, a), b, c);
  }

  /** `reconcileSelection`, and what the page does with its answer, leave what the
      machine's own steps do when no event falls between them. */
  method ReconcileAtOnce(page: BrowserPlayer, stages: Stages, id: string, rest: bool)
    requires page.phase.Fetching? && page.phase.byCommand && page.link.Some?
    modifies page, page.host, page.host.state, page.host.store
    ensures page.Now()
         == After(old(page.Now()), Awaits(old(page.host.store.Recall()), old(page.phase).askedMs, stages, id, rest))
  {
    hide Finish, Take, StillStands;
    Uninterrupted(page.Now(), stages, id, rest);
    hide After, Awaits;
    var r := page.host.store.ReconcileSelection(page.phase.askedMs, stages, id, page.link.value);
    if r.Ok? {
      if r.value.Changed? {
        page.host.TakeOver(r.value.activation);
      }
      page.host.FinishReconcile(rest);
    }
    page.phase := Reporting;
  }
}
