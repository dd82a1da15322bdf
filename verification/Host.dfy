/** A Browser Player's Host (apps/player-web/src/player.ts) from the moment it enters
    its loop: a step for every stretch of the cycle between two awaits, and a step
    for every report of the Runtime, page event and timer that may come between
    them. */
module Host {
  import opened Text
  import opened Lifecycle
  import opened Reconcile

  /** What the Host holds. `shown` is the activation the Runtime was last sent, None
      when that was a status or rest surface; `committed` is the one on disk; `bound`
      says the identity names a binding. */
  datatype Held = Held(flags: Flags, active: Option<Activation>, memory: Memory,
                       shown: Option<string>, committed: Option<Activation>, bound: bool)

  function IdOf(activation: Option<Activation>): Option<string> {
    match activation case Some(a) => Some(a.id) case None => None
  }

  // ---- what each stretch of code changes ------------------------------------------------

  function OnResult(h: Held, id: Option<string>, accepted: bool): Held {
    if id != IdOf(h.active) then h else h.(flags := h.flags.(runtimeActivationAccepted := accepted))
  }

  function Surface(h: Held): Held { h.(shown := None) }

  function Publish(h: Held, a: Activation): Held {
    h.(flags := h.flags.(runtimeActivationAccepted := false), shown := Some(a.id))
  }

  /** `rest` is what the active hours say now; without an activation there is no
      policy, and nothing rests. */
  function ApplyRest(h: Held, rest: bool): Held {
    var resting, was := rest && h.active.Some?, h.flags.resting;
    var now := h.(flags := h.flags.(resting := resting));
    if resting && !was then Surface(now)
    else if !resting && was then
      if now.active.Some? then Publish(now, now.active.value) else Surface(now)
    else now
  }

  function OnVisibility(h: Held, visible: bool): Held { h.(flags := Reconfirm(h.flags.(visible := visible))) }

  function OnFreeze(h: Held): Held { h.(flags := Reconfirm(h.flags.(frozen := true))) }

  function OnResume(h: Held): Held { h.(flags := Discontinue(h.flags.(frozen := false))) }

  function Forget(h: Held): Held { h.(memory := h.memory.(key := None)) }

  function Distrust(h: Held): Held { Forget(h).(flags := h.flags.(localActivationAuthorized := false)) }

  function Revoke(h: Held): Held { h.(flags := Revoked(h.flags)) }

  /** The new activation takes over, unless the screen rests. */
  function Take(h: Held, a: Activation): Held {
    var next := h.(active := Some(a), flags := h.flags.(localActivationAuthorized := true));
    if next.flags.resting then next else Publish(next, a)
  }

  /** A reconciliation that commits remembers what it accepted, and takes over. */
  function Adopt(h: Held, answer: Answer, a: Activation): Held { Take(h.(memory := Accepted(h.memory, answer)), a) }

  function Finish(h: Held, rest: bool): Held { ApplyRest(h.(flags := Reconciled(h.flags)), rest) }

  // ---- what the rest policy and a reconciliation change ------------------------------------

  /** An authorized activation on an active screen that the Runtime has accepted. */
  predicate OnScreen(h: Held) {
    h.flags.localActivationAuthorized && h.flags.runtimeActivationAccepted && !h.flags.resting
  }

  /** Evaluating the rest policy changes what is shown and whether it is accepted,
      and nothing else; what is held is shown again when the screen wakes. */
  ghost predicate OnlyShows(h: Held, t: Held) {
    && t.active == h.active && t.memory == h.memory && t.committed == h.committed && t.bound == h.bound
    && t.flags.localActivationAuthorized == h.flags.localActivationAuthorized
    && (h.active.Some? && (h.flags.resting || h.shown == IdOf(h.active)) && !t.flags.resting ==>
      t.shown == IdOf(t.active))
    && (OnScreen(t) && h.active.Some? ==> OnScreen(h) && t.shown == h.shown)
  }

  /** Rest needs an activation with a policy; it hides what is shown, and waking shows
      what is held. */
  ghost predicate RestsOrWakes(h: Held, t: Held, rest: bool) {
    && OnlyShows(h, t) && t.flags.resting == (rest && h.active.Some?)
    && (t.flags.resting && !h.flags.resting ==> t.shown.None?)
    && (!t.flags.resting && h.flags.resting ==> t.shown == IdOf(t.active))
  }

  lemma RestCases(h: Held, rest: bool)
    ensures var resting, was := rest && h.active.Some?, h.flags.resting;
      var now := h.(flags := h.flags.(resting := resting));
      && (resting && !was ==> ApplyRest(h, rest) == Surface(now))
      && (!resting && was && h.active.Some? ==> ApplyRest(h, rest) == Publish(now, h.active.value))
      && (!resting && was && h.active.None? ==> ApplyRest(h, rest) == Surface(now))
      && (resting == was ==> ApplyRest(h, rest) == now)
  {
  }

  lemma RestIs(h: Held, rest: bool)
    ensures RestsOrWakes(h, ApplyRest(h, rest), rest)
  {
    RestOnlyShows(h, rest);
    hide OnlyShows;
  }

  lemma RestOnlyShows(h: Held, rest: bool)
    ensures OnlyShows(h, ApplyRest(h, rest))
    ensures ApplyRest(h, rest).flags.serverBindingConfirmed == h.flags.serverBindingConfirmed
    ensures ApplyRest(h, rest).flags.selectionCurrent == h.flags.selectionCurrent
    ensures ApplyRest(h, rest).flags.clockAnchored == h.flags.clockAnchored
    ensures ApplyRest(h, rest).flags.resting == (rest && h.active.Some?)
    ensures (h.flags.resting ==> h.shown.None?) ==> ApplyRest(h, rest).flags.resting ==> ApplyRest(h, rest).shown.None?
  {
    var resting, was := rest && h.active.Some?, h.flags.resting;
    if resting == was {
    } else if resting {
    } else {
    }
  }

  lemma FinishOnlyShows(h: Held, rest: bool)
    ensures OnlyShows(h, Finish(h, rest))
    ensures Finish(h, rest).flags.serverBindingConfirmed == h.flags.serverBindingConfirmed
    ensures Finish(h, rest).flags.selectionCurrent && Finish(h, rest).flags.clockAnchored
    ensures (h.flags.resting ==> h.shown.None?) ==> Finish(h, rest).flags.resting ==> Finish(h, rest).shown.None?
  {
    hide ApplyRest;
    RestOnlyShows(h.(flags := Reconciled(h.flags)), rest);
  }

  lemma Adopts(h: Held, answer: Answer, a: Activation)
    ensures var t := Adopt(h, answer, a);
      && t.active == Some(a) && t.memory == Accepted(h.memory, answer) && t.committed == h.committed
        && t.bound == h.bound
      && t.flags.localActivationAuthorized && (t.flags.resting || t.shown == Some(a.id))
      && t.flags.serverBindingConfirmed == h.flags.serverBindingConfirmed
      && !OnScreen(t) && (!t.flags.resting ==> !t.flags.runtimeActivationAccepted)
      && t.flags.resting == h.flags.resting && (t.flags.resting ==> t.shown == h.shown)
  {
  }

  // ---- the Host as the page holds it ---------------------------------------------------------

  /** The fields of a running Host, changed in place by its event handlers. */
  class Player {
    const state: HostState
    const store: Store
    var active: Option<Activation>
    var shown: Option<string>
    var bound: bool

    function Now(): Held
      reads this, state, store
    {
      Held(state.Now(), active, store.Recall(), shown, store.committed, bound)
    }

    constructor (state: HostState, store: Store, active: Option<Activation>, bound: bool)
      ensures Now() == Held(state.Now(), active, store.Recall(), None, store.committed, bound)
      ensures this.state == state && this.store == store
    {
      this.state, this.store, this.active, this.shown, this.bound := state, store, active, None, bound;
    }

    /** Nothing but the Runtime's own acceptance of the activation held puts it on
        screen. */
    method RuntimeResult(id: Option<string>, accepted: bool)
      modifies state`runtimeActivationAccepted
      ensures Now() == OnResult(old(Now()), id, accepted)
      ensures id != IdOf(active) ==> Now() == old(Now())
      ensures OnScreen(Now()) && !OnScreen(old(Now())) ==> accepted && id == IdOf(active)
    {
      if id != IdOf(active) {
        return;
      }
      state.runtimeActivationAccepted := accepted;
    }

    /** What is sent is shown, and counts for nothing until the Runtime accepts it. */
    method Send(a: Activation)
      modifies this`shown, state`runtimeActivationAccepted
      ensures Now() == Publish(old(Now()), a)
      ensures shown == Some(a.id) && !OnScreen(Now()) && !ProofEligible(state.Now())
      ensures active == old(active) && state.localActivationAuthorized == old(state.localActivationAuthorized)
    {
      state.runtimeActivationAccepted := false;
      shown := Some(a.id);
    }

    /** A status surface: no activation is on the screen. */
    method ShowSurface()
      modifies this`shown
      ensures Now() == Surface(old(Now())) && shown.None?
    {
      shown := None;
    }

    /** Rest hides what is shown, waking shows what is held, and neither lets anything
        count that did not. */
    method EvaluateRest(rest: bool)
      modifies this`shown, state`resting, state`runtimeActivationAccepted
      ensures Now() == ApplyRest(old(Now()), rest)
      ensures RestsOrWakes(old(Now()), Now(), rest)
    {
      RestIs(Now(), rest);
      RestCases(Now(), rest);
      hide RestsOrWakes, OnScreen, ProofEligible, ApplyRest, Publish, Surface;
      ghost var before := Now();
      var resting := rest && active.Some?;
      var was := state.resting;
      state.resting := resting;
      ghost var now := Now();
      assert now == before.(flags := before.flags.(resting := resting));
      if resting && !was {
        ShowSurface();
        assert Now() == Surface(now);
      } else if !resting && was {
        if active.Some? {
          Send(active.value);
          assert Now() == Publish(now, active.value);
        } else {
          ShowSurface();
          assert Now() == Surface(now);
        }
      }
    }

    /** Health needs the server again; what may be counted otherwise is as it was. */
    method Visibility(visible: bool)
      modifies state
      ensures Now() == OnVisibility(old(Now()), visible)
      ensures !MeaningfulEvidence(state.Now()) && OnScreen(Now()) == OnScreen(old(Now()))
      ensures ProofEligible(state.Now()) ==> visible && OnScreen(old(Now())) && old(state.clockAnchored)
    {
      state.visible := visible;
      state.RequireReconfirmation();
    }

    /** A frozen page is neither healthy nor counted, and keeps what it was showing. */
    method Freeze()
      modifies state
      ensures Now() == OnFreeze(old(Now()))
      ensures !MeaningfulEvidence(state.Now()) && !ProofEligible(state.Now()) && OnScreen(Now()) == OnScreen(old(Now()))
    {
      state.frozen := true;
      state.RequireReconfirmation();
    }

    /** A page that was frozen counts nothing until it is anchored again. */
    method Resume()
      modifies state
      ensures Now() == OnResume(old(Now()))
      ensures !MeaningfulEvidence(state.Now()) && !ProofEligible(state.Now()) && OnScreen(Now()) == OnScreen(old(Now()))
    {
      state.frozen := false;
      state.MarkClockDiscontinuity();
    }

    /** A committed activation takes over: held, trusted, and not counted before the
        Runtime accepts it. */
    method TakeOver(a: Activation)
      modifies this`active, this`shown, state`localActivationAuthorized, state`runtimeActivationAccepted
      ensures Now() == Take(old(Now()), a)
      ensures active == Some(a) && state.localActivationAuthorized && !OnScreen(Now())
      ensures !state.resting ==> shown == Some(a.id) && !ProofEligible(state.Now())
    {
      active := Some(a);
      state.localActivationAuthorized := true;
      if !state.resting {
        Send(a);
      }
    }

    /** The end of either kind of reconciliation: current, anchored, at rest or not. */
    method FinishReconcile(rest: bool)
      modifies this`shown, state
      ensures Now() == Finish(old(Now()), rest)
      ensures OnlyShows(old(Now()), Now()) && state.selectionCurrent && state.clockAnchored
      ensures MeaningfulEvidence(state.Now()) ==> old(state.serverBindingConfirmed)
    {
      FinishOnlyShows(Now(), rest);
      hide OnlyShows;
      state.MarkReconciled();
      EvaluateRest(rest);
    }

    /** Whether every resource of the activation is still on disk: a missing one ends
        trust, and then no answer of the server still stands. */
    method Verified(intact: bool)
      modifies state`localActivationAuthorized, store`key
      ensures Now() == if intact then old(Now()) else Distrust(old(Now()))
      ensures !intact ==> !OnScreen(Now()) && !ProofEligible(state.Now()) && forall answer ::
        !StillStands(store.Recall(), answer)
    {
      if !intact {
        state.localActivationAuthorized := false;
        store.key := None;
      }
    }

    /** The server withdrew the binding: nothing is trusted, counted or healthy. */
    method Withdraw()
      modifies state
      ensures Now() == Revoke(old(Now())) && !OnScreen(Now()) && !MeaningfulEvidence(state.Now())
    {
      state.RevokeLocalAuthority();
    }

    /** Nothing accepted stands any longer. */
    method ForgetKey()
      modifies store`key
      ensures Now() == Forget(old(Now())) && forall answer :: !StillStands(store.Recall(), answer)
    {
      store.key := None;
    }
  }
}
