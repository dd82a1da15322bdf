/** The independent facts that decide whether a Browser Player may count and report
    playback (apps/player-web/src/lifecycle.ts). */
module Lifecycle {

  datatype Flags = Flags(
    serverBindingConfirmed: bool, selectionCurrent: bool,
    localActivationAuthorized: bool, runtimeActivationAccepted: bool,
    visible: bool, frozen: bool, clockAnchored: bool, recovering: bool, resting: bool)

  datatype ClockSample = ClockSample(wallMs: int, monotonicMs: int)

  function Abs(n: int): nat { if n < 0 then -n else n }

  predicate ClockDiscontinuity(previous: ClockSample, current: ClockSample) {
    var wall, monotonic := current.wallMs - previous.wallMs, current.monotonicMs - previous.monotonicMs;
    monotonic < 0 || Abs(wall - monotonic) > 5_000
  }

  /** A clock has not jumped exactly when the wall clock went as far as the monotonic
      one, to five seconds either way, and that did not go back. */
  lemma DiscontinuityExactly(previous: ClockSample, current: ClockSample)
    ensures var elapsed := current.monotonicMs - previous.monotonicMs;
      !ClockDiscontinuity(previous, current) <==>
        elapsed >= 0 && previous.wallMs + elapsed - 5_000 <= current.wallMs <= previous.wallMs + elapsed + 5_000
  {
  }

  predicate ForegroundEligible(f: Flags) { f.visible && !f.frozen }

  predicate ProofEligible(f: Flags) {
    ForegroundEligible(f) && f.localActivationAuthorized && f.runtimeActivationAccepted && f.clockAnchored && !f.resting
  }

  predicate MeaningfulEvidence(f: Flags) {
    ProofEligible(f) && f.serverBindingConfirmed && f.selectionCurrent
  }

  function Reconfirm(f: Flags): Flags { f.(serverBindingConfirmed := false, selectionCurrent := false) }

  function Discontinue(f: Flags): Flags { Reconfirm(f).(clockAnchored := false) }

  function Reconciled(f: Flags): Flags { f.(selectionCurrent := true, clockAnchored := true, recovering := false) }

  function Revoked(f: Flags): Flags {
    Reconfirm(f).(localActivationAuthorized := false, runtimeActivationAccepted := false)
  }

  /** The state every part of the Host reads and changes in place. */
  class HostState {
    var serverBindingConfirmed: bool
    var selectionCurrent: bool
    var localActivationAuthorized: bool
    var runtimeActivationAccepted: bool
    var visible: bool
    var frozen: bool
    var clockAnchored: bool
    var recovering: bool
    var resting: bool

    function Now(): Flags
      reads this
    {
      Flags(serverBindingConfirmed, selectionCurrent, localActivationAuthorized, runtimeActivationAccepted,
            visible, frozen, clockAnchored, recovering, resting)
    }

    constructor (visible: bool, wasDiscarded: bool)
      ensures Now() == Flags(false, false, false, false, visible, false, true, wasDiscarded, false)
    {
      serverBindingConfirmed, selectionCurrent := false, false;
      localActivationAuthorized, runtimeActivationAccepted := false, false;
      this.visible, frozen, clockAnchored, recovering, resting := visible, false, true, wasDiscarded, false;
    }

    method RequireReconfirmation()
      modifies this
      ensures Now() == Reconfirm(old(Now()))
      ensures !MeaningfulEvidence(Now()) && ProofEligible(Now()) == ProofEligible(old(Now()))
    {
      serverBindingConfirmed := false;
      selectionCurrent := false;
    }

    method MarkClockDiscontinuity()
      modifies this
      ensures Now() == Discontinue(old(Now()))
      ensures !MeaningfulEvidence(Now()) && !ProofEligible(Now())
    {
      RequireReconfirmation();
      clockAnchored := false;
    }

    method MarkReconciled()
      modifies this
      ensures Now() == Reconciled(old(Now()))
      ensures ProofEligible(Now()) <==>
        ForegroundEligible(Now()) && localActivationAuthorized && runtimeActivationAccepted && !resting
      ensures MeaningfulEvidence(Now()) <==> ProofEligible(Now()) && old(serverBindingConfirmed)
      ensures !recovering && visible == old(visible) && frozen == old(frozen)
    {
      selectionCurrent := true;
      clockAnchored := true;
      recovering := false;
    }

    method RevokeLocalAuthority()
      modifies this
      ensures Now() == Revoked(old(Now()))
      ensures !MeaningfulEvidence(Now()) && !ProofEligible(Now())
    {
      RequireReconfirmation();
      localActivationAuthorized := false;
      runtimeActivationAccepted := false;
    }
  }
}
