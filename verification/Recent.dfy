/** How recent the answers behind healthy evidence are (apps/player-web/src/lifecycle.ts):
    which exchange with the server each flag rests on, and when a discontinuity, a
    freeze or a failure came after that exchange although the flag was set after it. */
module Recent {
  import opened Text
  import opened Lifecycle
  import opened Reconcile
  import opened Host
  import opened Cycle
  import opened Anchor

  /** From the server's acceptance of the session to the confirmation. */
  predicate Identified(p: Phase) { p.Opening? || p.Discarding? }

  /** From asking for its identity to the confirmation. */
  predicate Establishing(p: Phase) { p.Confirming? || Identified(p) }

  predicate Authenticates(s: Cycle.State, e: Event) { s.phase.Confirming? && e.Authenticated? }

  predicate Starts(s: Cycle.State, e: Event) { s.phase.Waiting? && e.Begin? }

  predicate Answers(s: Cycle.State, e: Event) { s.phase.Fetching? && e.Answered? }

  /** A stretch of phases from one step up to another. */
  ghost predicate Throughout(run: seq<Cycle.State>, within: Phase -> bool, from: nat, to: nat)
    requires to < |run|
  {
    forall m | from <= m <= to :: within(run[m].phase)
  }

  /** Something was reset within the stretch that led to a step. */
  ghost predicate FellDuring(run: seq<Cycle.State>, events: seq<Event>, within: Phase -> bool, to: nat)
    requires to < |events| < |run|
  {
    exists d | 0 <= d <= to :: Resets(run[d], events[d]) && Throughout(run, within, d, to)
  }

  /** The step by which a stretch was entered. */
  lemma {:induction false} Entered(run: seq<Cycle.State>, within: Phase -> bool, to: nat) returns (from: nat)
    requires to < |run| && within(run[to].phase) && !within(run[0].phase)
    ensures from < to && !within(run[from].phase) && Throughout(run, within, from + 1, to)
  {
    if within(run[to - 1].phase) {
      from := Entered(run, within, to - 1);
    } else {
      from := to - 1;
    }
  }

  lemma ResetWithin(run: seq<Cycle.State>, events: seq<Event>, within: Phase -> bool, from: nat, to: nat, n: nat)
    requires from < to < n <= |events| < |run|
    requires !within(run[from].phase) && Throughout(run, within, from + 1, to) && !ResetIn(run, events, to + 1, n)
    ensures ResetIn(run, events, from + 1, n) <==> FellDuring(run, events, within, to)
  {
    hide Resets;
    if ResetIn(run, events, from + 1, n) {
      var d :| from + 1 <= d < n && Resets(run[d], events[d]);
      assert d <= to;
      assert Throughout(run, within, d, to);
    }
    if FellDuring(run, events, within, to) {
      var d :| 0 <= d <= to && Resets(run[d], events[d]) && Throughout(run, within, d, to);
      assert from < d;
    }
  }

  // ---- what begins each stretch ------------------------------------------------------------

  lemma StepIdentified(s: Cycle.State, e: Event)
    requires !Identified(s.phase) && Identified(Step(s, e).phase)
    ensures Authenticates(s, e) && Establishing(s.phase)
  {
  }

  lemma StepEstablishing(s: Cycle.State, e: Event)
    requires !Establishing(s.phase) && Establishing(Step(s, e).phase)
    ensures Starts(s, e)
  {
  }

  lemma StepSelection(s: Cycle.State, e: Event)
    requires !InSelection(s.phase) && InSelection(Step(s, e).phase)
    ensures Asks(s, e)
  {
  }

  lemma StepAnswered(s: Cycle.State, e: Event)
    requires !UnderWay(s.phase) && UnderWay(Step(s, e).phase)
    ensures Answers(s, e)
  {
  }

  lemma ConfirmsWithin(s: Cycle.State, e: Event)
    requires Confirms(s, e)
    ensures Identified(s.phase) && Establishing(s.phase)
  {
  }

  lemma ReconcilesWithin(s: Cycle.State, e: Event)
    requires Reconciles(s, e)
    ensures InSelection(s.phase) && (Answers(s, e) || UnderWay(s.phase))
  {
  }

  lemma AtFirst(run: seq<Cycle.State>, events: seq<Event>)
    requires IsRun(run, events)
    ensures var p := run[0].phase; !Establishing(p) && !Identified(p) && !InSelection(p) && !UnderWay(p)
  {
  }

  // ---- the theorems ---------------------------------------------------------------------------

  /** The session behind the last confirmation: asked for at `b`, accepted at `a`. */
  lemma SessionOf(run: seq<Cycle.State>, events: seq<Event>, c: nat) returns (b: nat, a: nat)
    requires IsRun(run, events) && c < |events| && Confirms(run[c], events[c])
    ensures b < a < c && Starts(run[b], events[b]) && Authenticates(run[a], events[a])
    ensures !Establishing(run[b].phase) && Throughout(run, Establishing, b + 1, c)
    ensures !Identified(run[a].phase) && Throughout(run, Identified, a + 1, c)
  {
    hide Step, Establishing, Identified, Confirms;
    AtFirst(run, events);
    ConfirmsWithin(run[c], events[c]);
    a := Entered(run, Identified, c);
    assert run[a + 1] == Step(run[a], events[a]) && Identified(run[a + 1].phase);
    StepIdentified(run[a], events[a]);
    b := Entered(run, Establishing, a);
    assert run[b + 1] == Step(run[b], events[b]) && Establishing(run[b + 1].phase);
    StepEstablishing(run[b], events[b]);
    forall m | b + 1 <= m <= c ensures Establishing(run[m].phase) {
      if m > a { assert Identified(run[m].phase); IdentifiedEstablishes(run[m].phase); }
    }
  }

  lemma IdentifiedEstablishes(p: Phase)
    requires Identified(p)
    ensures Establishing(p)
  {
  }

  /** The selection behind a reconciliation: asked for at `p`, answered at `q`. */
  lemma SelectionOf(run: seq<Cycle.State>, events: seq<Event>, r: nat) returns (p: nat, q: nat)
    requires IsRun(run, events) && r < |events| && Reconciles(run[r], events[r])
    ensures p < q <= r && Asks(run[p], events[p]) && Answers(run[q], events[q])
    ensures !InSelection(run[p].phase) && Throughout(run, InSelection, p + 1, r)
    ensures q < r ==> !UnderWay(run[q].phase) && Throughout(run, UnderWay, q + 1, r)
    ensures q == r ==> !UnderWay(run[r].phase)
  {
    hide Step, Reconciles, Asks;
    AtFirst(run, events);
    ReconcilesWithin(run[r], events[r]);
    p := Entered(run, InSelection, r);
    assert run[p + 1] == Step(run[p], events[p]) && InSelection(run[p + 1].phase);
    StepSelection(run[p], events[p]);
    if Answers(run[r], events[r]) {
      q := r;
    } else {
      q := Entered(run, UnderWay, r);
      assert run[q + 1] == Step(run[q], events[q]) && UnderWay(run[q + 1].phase);
      StepAnswered(run[q], events[q]);
    }
  }

  /** Healthy evidence rests on a session accepted and a selection answered. Nothing
      was reset since the confirmation at `c` and the reconciliation at `r` completed;
      but a reset came after the session was accepted exactly when one fell while the
      slot was opened, or another binding's content discarded, on the way to `c`, and
      after the selection was answered exactly when one fell between that answer and
      the end of the reconciliation. In the same way it came after either was asked
      for exactly when it fell anywhere on the way. */
  lemma HealthIsAsOldAsItsAnswers(run: seq<Cycle.State>, events: seq<Event>,
                                  n: nat) returns (b: nat, a: nat, c: nat, p: nat, q: nat, r: nat)
    requires IsRun(run, events) && n < |run| && MeaningfulEvidence(run[n].held.flags)
    ensures b < a < c < n && Starts(run[b], events[b]) && Authenticates(run[a], events[a])
    ensures Confirms(run[c], events[c]) && forall i | c < i < n :: !Confirms(run[i], events[i])
    ensures p < q <= r < n && Asks(run[p], events[p]) && Answers(run[q], events[q])
    ensures Reconciles(run[r], events[r]) && forall i | r < i < n :: !Reconciles(run[i], events[i])
    ensures !ResetIn(run, events, c + 1, n) && !ResetIn(run, events, r + 1, n)
    ensures ResetIn(run, events, a + 1, n) <==> FellDuring(run, events, Identified, c)
    ensures ResetIn(run, events, b + 1, n) <==> FellDuring(run, events, Establishing, c)
    ensures ResetIn(run, events, q + 1, n) <==> FellDuring(run, events, UnderWay, r)
    ensures ResetIn(run, events, p + 1, n) <==> FellDuring(run, events, InSelection, r)
  {
    hide Step, Confirms, Reconciles, Resets, ResetIn, FellDuring, Throughout, Asks;
    hide Establishing, Identified, InSelection, UnderWay;
    c := ConfirmedSince(run, events, n);
    r := CurrentSince(run, events, n);
    b, a := SessionOf(run, events, c);
    p, q := SelectionOf(run, events, r);
    ResetWithin(run, events, Identified, a, c, n);
    ResetWithin(run, events, Establishing, b, c, n);
    ResetWithin(run, events, InSelection, p, r, n);
    if q < r {
      ResetWithin(run, events, UnderWay, q, r, n);
    } else {
      NotDuring(run, events, r);
    }
  }

  lemma NotDuring(run: seq<Cycle.State>, events: seq<Event>, r: nat)
    requires r < |events| < |run| && !UnderWay(run[r].phase)
    ensures !FellDuring(run, events, UnderWay, r)
  {
    hide UnderWay;
  }
}
