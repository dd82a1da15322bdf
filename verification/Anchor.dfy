/** Which clock offset a Browser Player counts by (apps/player-web/src/lifecycle.ts,
    apps/player-web/src/reconcile.ts): when, in a run, its samples were taken. */
module Anchor {
  import opened Text
  import opened Lifecycle
  import opened Reconcile
  import opened Host
  import opened Cycle

  // ---- when the remembered offset was measured -------------------------------------------

  /** The clock is sampled and the server asked. */
  predicate Asks(s: Cycle.State, e: Event) { !s.phase.Fetching? && Step(s, e).phase.Fetching? }

  /** The server's answer is not what is remembered, or no longer in time. */
  predicate Measures(s: Cycle.State, e: Event) {
    s.phase.Fetching? && e.Answered? && !StillStands(s.held.memory, Planned(s.phase.askedMs, e.reply))
  }

  predicate Commits(s: Cycle.State, e: Event) { s.phase.Releasing? && e.Released? }

  predicate UnderWay(p: Phase) { p.Preparing? || p.Releasing? }

  /** The last step at which the server was asked, or -1. */
  ghost function AskedAt(run: seq<Cycle.State>, events: seq<Event>, n: nat): int
    requires n <= |events| < |run|
  {
    if n == 0 then -1 else if Asks(run[n - 1], events[n - 1]) then n - 1 else AskedAt(run, events, n - 1)
  }

  /** The last step at which it answered, or -1. */
  ghost function AnsweredAt(run: seq<Cycle.State>, events: seq<Event>, n: nat): int
    requires n <= |events| < |run|
  {
    if n == 0 then -1
    else if run[n - 1].phase.Fetching? && events[n - 1].Answered? then n - 1
    else AnsweredAt(run, events, n - 1)
  }

  /** The step at which the offset remembered was computed, its second sample taken; or
      -1 for the offset the loop was entered with. */
  ghost function MeasuredAt(run: seq<Cycle.State>, events: seq<Event>, n: nat): int
    requires n <= |events| < |run|
  {
    if n == 0 then -1
    else if Commits(run[n - 1], events[n - 1]) then AnsweredAt(run, events, n - 1)
    else MeasuredAt(run, events, n - 1)
  }

  lemma {:induction false} MeasuredBefore(run: seq<Cycle.State>, events: seq<Event>, n: nat)
    requires n <= |events| < |run|
    ensures -1 <= MeasuredAt(run, events, n) < n
  {
    if n > 0 {
      MeasuredBefore(run, events, n - 1);
      AnswersRise(run, events, n - 1, n - 1);
    }
  }

  /** The step at which its first sample was taken, or -1. */
  ghost function SampledFrom(run: seq<Cycle.State>, events: seq<Event>, n: nat): int
    requires n <= |events| < |run|
  {
    MeasuredBefore(run, events, n);
    var q := MeasuredAt(run, events, n);
    if q < 0 then -1 else AskedAt(run, events, q)
  }

  lemma AsksWithTheClock(s: Cycle.State, e: Event)
    requires Asks(s, e)
    ensures (e.Opened? || e.Discarded? || e.Checked? || e.SyncNow?) && Step(s, e).phase.askedMs == e.nowMs
  {
    hide OnPage, Finish, Adopt, StillStands, Surface, Revoke, Forget, Distrust;
  }

  lemma StepFetching(s: Cycle.State, e: Event)
    requires Step(s, e).phase.Fetching?
    ensures Asks(s, e) || Step(s, e).phase == s.phase
  {
    hide OnPage, Finish, Adopt, StillStands, Surface, Revoke, Forget, Distrust;
  }

  /** What is awaited was asked for once, and what the clock said then is known. */
  lemma {:induction false} SampleHeld(run: seq<Cycle.State>, events: seq<Event>, n: nat)
    requires IsRun(run, events) && n <= |events| && run[n].phase.Fetching?
    ensures var p := AskedAt(run, events, n);
      && 0 <= p < n && Asks(run[p], events[p]) && forall m | p < m <= n :: run[m].phase == run[n].phase
  {
    hide Step;
    assert n > 0;
    assert run[n - 1 + 1] == run[n];
    StepFetching(run[n - 1], events[n - 1]);
    if !Asks(run[n - 1], events[n - 1]) {
      SampleHeld(run, events, n - 1);
    }
  }

  lemma StepUnderWay(s: Cycle.State, e: Event)
    requires UnderWay(Step(s, e).phase)
    ensures Measures(s, e) || UnderWay(s.phase)
    ensures Step(s, e).phase.answer == if Measures(s, e) then Planned(s.phase.askedMs, e.reply) else s.phase.answer
    ensures UnderWay(s.phase) ==> !Measures(s, e)
  {
  }

  /** What a reconciliation under way will remember, it was answered, and found changed. */
  lemma {:induction false} AnswerHeld(run: seq<Cycle.State>, events: seq<Event>, n: nat)
    requires IsRun(run, events) && n <= |events| && UnderWay(run[n].phase)
    ensures var q := AnsweredAt(run, events, n);
      && 0 <= q < n && Measures(run[q], events[q])
      && Planned(run[q].phase.askedMs, events[q].reply) == run[n].phase.answer
      && forall m | q < m <= n :: UnderWay(run[m].phase)
  {
    hide Step, Measures, StillStands;
    assert n > 0;
    assert run[n - 1 + 1] == run[n];
    StepUnderWay(run[n - 1], events[n - 1]);
    if UnderWay(run[n - 1].phase) {
      AnswerHeld(run, events, n - 1);
    } else {
      assert run[n - 1].phase.Fetching? && events[n - 1].Answered? by { MeasuresAnAnswer(run[n - 1], events[n - 1]); }
    }
  }

  lemma MeasuresAnAnswer(s: Cycle.State, e: Event)
    requires Measures(s, e)
    ensures s.phase.Fetching? && e.Answered?
  {
  }

  lemma StepOffset(s: Cycle.State, e: Event)
    ensures Step(s, e).held.memory.clockOffsetMs ==
      if Commits(s, e) then s.phase.answer.clockOffsetMs else s.held.memory.clockOffsetMs
  {
    hide OnPage, OnFailure, OnCycle;
    if FromPage(e) {
      PageRaises(s.held, e);
    } else if e.Fail? {
      FailureOffset(s, e);
    } else {
      CycleOffset(s, e);
    }
  }

  lemma FailureOffset(s: Cycle.State, e: Event)
    requires e.Fail?
    ensures OnFailure(s, e).held.memory.clockOffsetMs == s.held.memory.clockOffsetMs
  {
  }

  lemma CycleOffset(s: Cycle.State, e: Event)
    requires !FromPage(e) && !e.Fail?
    ensures OnCycle(s, e).held.memory.clockOffsetMs ==
      if Commits(s, e) then s.phase.answer.clockOffsetMs else s.held.memory.clockOffsetMs
  {
    hide Finish, Adopt, StillStands;
    if s.phase.Releasing? && e.Released? {
      var h := Adopt(s.held, s.phase.answer, s.phase.activation);
      Adopts(s.held, s.phase.answer, s.phase.activation);
      FinishOnlyShows(h, e.rest);
    } else if s.phase.Fetching? && e.Answered? {
      FinishOnlyShows(s.held, e.rest);
    }
  }

  /** The offset a run counts by was computed once, at a step that found something
      changed, from the server's time and the clock when it was asked and answered. */
  lemma {:induction false} OffsetIsMeasured(run: seq<Cycle.State>, events: seq<Event>, n: nat)
    requires IsRun(run, events) && n <= |events|
    ensures var q, p := MeasuredAt(run, events, n), SampledFrom(run, events, n);
      && (q < 0 ==> run[n].held.memory.clockOffsetMs == run[0].held.memory.clockOffsetMs)
      && (q >= 0 ==>
        && 0 <= p < q < n && Asks(run[p], events[p]) && Measures(run[q], events[q])
        && (forall m | p < m <= q :: run[m].phase.Fetching?)
        && (events[p].Opened? || events[p].Discarded? || events[p].Checked? || events[p].SyncNow?)
        && run[n].held.memory.clockOffsetMs
           == OffsetMs(events[p].nowMs, events[q].reply.receivedMs, events[q].reply.serverTimeMs))
  {
    hide Step, Measures, StillStands, Asks, OffsetMs;
    if n > 0 {
      assert run[n - 1 + 1] == run[n];
      StepOffset(run[n - 1], events[n - 1]);
      if Commits(run[n - 1], events[n - 1]) {
        AnswerHeld(run, events, n - 1);
        var q := AnsweredAt(run, events, n - 1);
        assert run[q].phase.Fetching? && events[q].Answered? by { MeasuresAnAnswer(run[q], events[q]); }
        SampleHeld(run, events, q);
        var p := AskedAt(run, events, q);
        AsksWithTheClock(run[p], events[p]);
        assert run[p + 1] == Step(run[p], events[p]);
      } else {
        OffsetIsMeasured(run, events, n - 1);
      }
    }
  }

  lemma {:induction false} AnswersRise(run: seq<Cycle.State>, events: seq<Event>, m: nat, n: nat)
    requires m <= n <= |events| < |run|
    ensures -1 <= AnsweredAt(run, events, m) <= AnsweredAt(run, events, n) < n
    decreases n
  {
    if n > 0 {
      AnswersRise(run, events, if m < n then m else n - 1, n - 1);
    }
  }

  lemma {:induction false} CommitsMeasure(run: seq<Cycle.State>, events: seq<Event>, r: nat, n: nat)
    requires r < n <= |events| < |run| && Commits(run[r], events[r])
    ensures AnsweredAt(run, events, r) <= MeasuredAt(run, events, n)
    decreases n
  {
    if r < n - 1 {
      CommitsMeasure(run, events, r, n - 1);
      if Commits(run[n - 1], events[n - 1]) { AnswersRise(run, events, r, n - 1); }
    }
  }

  lemma {:induction false} MeasuredByCommit(run: seq<Cycle.State>, events: seq<Event>, n: nat) returns (r: nat)
    requires n <= |events| < |run| && MeasuredAt(run, events, n) >= 0
    ensures r < n && Commits(run[r], events[r]) && AnsweredAt(run, events, r) == MeasuredAt(run, events, n)
  {
    if Commits(run[n - 1], events[n - 1]) {
      r := n - 1;
    } else {
      r := MeasuredByCommit(run, events, n - 1);
    }
  }

  lemma {:induction false} AnsweredThen(run: seq<Cycle.State>, events: seq<Event>, q: nat, r: nat)
    requires q < r <= |events| < |run| && Measures(run[q], events[q])
    requires forall m | q < m <= r :: UnderWay(run[m].phase)
    ensures AnsweredAt(run, events, r) == q
    decreases r
  {
    if q + 1 < r { AnsweredThen(run, events, q, r - 1); }
  }

  lemma {:induction false} AsksRise(run: seq<Cycle.State>, events: seq<Event>, m: nat, n: nat)
    requires m <= n <= |events| < |run|
    ensures -1 <= AskedAt(run, events, m) <= AskedAt(run, events, n) < n
    decreases n
  {
    if n > 0 {
      AsksRise(run, events, if m < n then m else n - 1, n - 1);
    }
  }

  lemma {:induction false} AskedThen(run: seq<Cycle.State>, events: seq<Event>, p: nat, q: nat)
    requires p < q <= |events| < |run| && Asks(run[p], events[p])
    requires forall m | p < m <= q :: run[m].phase.Fetching?
    ensures AskedAt(run, events, q) == p
    decreases q
  {
    if p + 1 < q { AskedThen(run, events, p, q - 1); }
  }

  /** One reconciliation: answered at `q`, where it found a change, and committed at `r`. */
  ghost predicate AnsweredBy(run: seq<Cycle.State>, events: seq<Event>, q: nat, r: nat)
    requires q < r < |events| < |run|
  {
    Measures(run[q], events[q]) && Commits(run[r], events[r]) && forall m | q < m <= r :: UnderWay(run[m].phase)
  }

  /** And asked at `p`. */
  ghost predicate CommittedBy(run: seq<Cycle.State>, events: seq<Event>, p: nat, q: nat, r: nat)
    requires p < q < r < |events| < |run|
  {
    Asks(run[p], events[p]) && (forall m | p < m <= q :: run[m].phase.Fetching?) && AnsweredBy(run, events, q, r)
  }

  /** One reconciliation was answered since a point, found a change and committed it. */
  ghost predicate AnsweredSince(run: seq<Cycle.State>, events: seq<Event>, d: nat, n: nat)
    requires n <= |events| < |run|
  {
    exists q, r | d < q < r < n :: AnsweredBy(run, events, q, r)
  }

  /** One was asked since, too. */
  ghost predicate CommittedSince(run: seq<Cycle.State>, events: seq<Event>, d: nat, n: nat)
    requires n <= |events| < |run|
  {
    exists p, q, r | d < p < q < r < n :: CommittedBy(run, events, p, q, r)
  }

  /** After a discontinuity an anchored clock means some reconciliation has completed,
      but the offset counted by was sampled after it, at both ends, exactly when one
      since was asked, found a change and committed it: one that finds nothing changed
      does not measure afresh, one answered before the discontinuity measured before
      it, and one it fell into took the offset across it. */
  lemma AnchoredOffset(run: seq<Cycle.State>, events: seq<Event>, d: nat, n: nat)
    requires IsRun(run, events) && d < n <= |events| && Discontinues(run[d], events[d])
    requires run[n].held.flags.clockAnchored
    ensures exists r | d < r < n :: Reconciles(run[r], events[r])
    ensures SampledFrom(run, events, n) > d <==> CommittedSince(run, events, d, n)
    ensures MeasuredAt(run, events, n) > d <==> AnsweredSince(run, events, d, n)
    ensures SampledFrom(run, events, n) <= d < MeasuredAt(run, events, n) ==> run[d].phase.Fetching?
  {
    hide Step, Measures, Reconciles, Discontinues, Asks, MeasuredAt, SampledFrom, CommittedSince, AnsweredSince;
    hide OffsetMs;
    var a := AnchoredSince(run, events, d, n);
    OffsetIsMeasured(run, events, n);
    DoesNotAsk(run[d], events[d]);
    AnsweredExactly(run, events, d, n);
    SampledExactly(run, events, d, n);
  }

  lemma DoesNotAsk(s: Cycle.State, e: Event)
    requires Discontinues(s, e)
    ensures !Asks(s, e)
  {
  }

  lemma AnsweredExactly(run: seq<Cycle.State>, events: seq<Event>, d: nat, n: nat)
    requires IsRun(run, events) && d < n <= |events|
    ensures MeasuredAt(run, events, n) > d <==> AnsweredSince(run, events, d, n)
  {
    hide Step, Measures, Commits, UnderWay, MeasuredAt, AnsweredAt;
    if MeasuredAt(run, events, n) > d {
      var q, r := MeasuredIn(run, events, n);
      assert AnsweredBy(run, events, q, r);
    }
    if AnsweredSince(run, events, d, n) {
      var q, r :| d < q < r < n && AnsweredBy(run, events, q, r);
      AnsweredThen(run, events, q, r);
      CommitsMeasure(run, events, r, n);
    }
  }

  lemma SampledExactly(run: seq<Cycle.State>, events: seq<Event>, d: nat, n: nat)
    requires IsRun(run, events) && d < n <= |events|
    ensures SampledFrom(run, events, n) > d <==> CommittedSince(run, events, d, n)
  {
    hide Step, SampledFrom, CommittedSince;
    if SampledFrom(run, events, n) > d {
      SampledIsCommitted(run, events, d, n);
    }
    if CommittedSince(run, events, d, n) {
      CommittedIsSampled(run, events, d, n);
    }
  }

  lemma SampledIsCommitted(run: seq<Cycle.State>, events: seq<Event>, d: nat, n: nat)
    requires IsRun(run, events) && d < n <= |events| && SampledFrom(run, events, n) > d
    ensures CommittedSince(run, events, d, n)
  {
    hide Step, Measures, Commits, Asks, UnderWay, MeasuredAt, AskedAt, OffsetMs;
    OffsetIsMeasured(run, events, n);
    var q, r := MeasuredIn(run, events, n);
    var p := SampledFrom(run, events, n);
    assert CommittedBy(run, events, p, q, r);
  }

  lemma CommittedIsSampled(run: seq<Cycle.State>, events: seq<Event>, d: nat, n: nat)
    requires d < n <= |events| < |run| && CommittedSince(run, events, d, n)
    ensures SampledFrom(run, events, n) > d
  {
    hide CommittedBy, SampledFrom;
    var p, q, r :| d < p < q < r < n && CommittedBy(run, events, p, q, r);
    SampledSince(run, events, p, q, r, n);
  }

  lemma SampledSince(run: seq<Cycle.State>, events: seq<Event>, p: nat, q: nat, r: nat, n: nat)
    requires p < q < r < n <= |events| < |run| && CommittedBy(run, events, p, q, r)
    ensures SampledFrom(run, events, n) >= p
  {
    hide Measures, UnderWay, Commits, Asks, MeasuredAt, AnsweredAt, AskedAt;
    AnsweredThen(run, events, q, r);
    MeasuredBefore(run, events, n);
    AskedThen(run, events, p, q);
    CommitsMeasure(run, events, r, n);
    AsksRise(run, events, q, MeasuredAt(run, events, n));
  }

  /** The reconciliation that committed the offset in force. */
  lemma MeasuredIn(run: seq<Cycle.State>, events: seq<Event>, n: nat) returns (q: nat, r: nat)
    requires IsRun(run, events) && n <= |events| && MeasuredAt(run, events, n) >= 0
    ensures q == MeasuredAt(run, events, n) && q < r < n
    ensures Measures(run[q], events[q]) && Commits(run[r], events[r]) && forall m | q < m <= r :: UnderWay(run[m].phase)
  {
    hide Step, Measures;
    r := MeasuredByCommit(run, events, n);
    AnswerHeld(run, events, r);
    q := MeasuredAt(run, events, n);
  }

  // ---- what an unchanged answer is compared with -------------------------------------------

  lemma StepMemory(s: Cycle.State, e: Event)
    ensures var was, now := s.held.memory, Step(s, e).held.memory;
      if Commits(s, e) then
        now.key == Some(s.phase.answer.key) && now.validUntilMs == s.phase.answer.validUntilMs
        && now.basis == Some(s.phase.answer.basis)
      else (now.key == was.key || now.key.None?) && now.validUntilMs == was.validUntilMs && now.basis == was.basis
  {
    hide OnPage, OnFailure, OnCycle;
    if FromPage(e) {
      PageRaises(s.held, e);
    } else if e.Fail? {
      FailureMemory(s, e);
    } else {
      CycleMemory(s, e);
    }
  }

  lemma FailureMemory(s: Cycle.State, e: Event)
    requires e.Fail?
    ensures var was, now := s.held.memory, OnFailure(s, e).held.memory;
      (now.key == was.key || now.key.None?) && now.validUntilMs == was.validUntilMs && now.basis == was.basis
  {
  }

  lemma CycleMemory(s: Cycle.State, e: Event)
    requires !FromPage(e) && !e.Fail?
    ensures var was, now := s.held.memory, OnCycle(s, e).held.memory;
      if Commits(s, e) then
        now.key == Some(s.phase.answer.key) && now.validUntilMs == s.phase.answer.validUntilMs
        && now.basis == Some(s.phase.answer.basis)
      else (now.key == was.key || now.key.None?) && now.validUntilMs == was.validUntilMs && now.basis == was.basis
  {
    hide Finish, Adopt, StillStands;
    if s.phase.Releasing? && e.Released? {
      var h := Adopt(s.held, s.phase.answer, s.phase.activation);
      Adopts(s.held, s.phase.answer, s.phase.activation);
      FinishOnlyShows(h, e.rest);
    } else if s.phase.Fetching? && e.Answered? {
      FinishOnlyShows(s.held, e.rest);
    }
  }

  /** What is remembered is the last answer committed, or nothing that stands. */
  lemma {:induction false} RemembersTheLast(run: seq<Cycle.State>, events: seq<Event>, n: nat)
    requires IsRun(run, events) && n <= |events| && run[n].held.memory.key.Some?
    ensures var q, memory := MeasuredAt(run, events, n), run[n].held.memory;
      && 0 <= q < n && Measures(run[q], events[q])
      && memory.key == Some(events[q].reply.key) && memory.validUntilMs == events[q].reply.validUntilMs
      && memory.basis == Some(events[q].reply.basis)
  {
    hide Step, Measures, StillStands;
    assert n > 0;
    assert run[n - 1 + 1] == run[n];
    StepMemory(run[n - 1], events[n - 1]);
    if Commits(run[n - 1], events[n - 1]) {
      AnswerHeld(run, events, n - 1);
      var q := AnsweredAt(run, events, n - 1);
      MeasuresAnAnswer(run[q], events[q]);
    } else {
      RemembersTheLast(run, events, n - 1);
    }
  }

  /** An answer is found unchanged, and nothing is committed, exactly when its key is
      that of the last answer committed, which has not been given up since, and the
      server's time is before the limit that one gave, if it gave one. */
  lemma UnchangedExactly(run: seq<Cycle.State>, events: seq<Event>, n: nat)
    requires IsRun(run, events) && n < |events| && run[n].phase.Fetching? && events[n].Answered?
    ensures var p, q, reply := AskedAt(run, events, n), MeasuredAt(run, events, n), events[n].reply;
      && 0 <= p < n && Asks(run[p], events[p])
      && (events[p].Opened? || events[p].Discarded? || events[p].Checked? || events[p].SyncNow?)
      && (run[n + 1].phase.Reporting? || run[n + 1].phase.Preparing?)
      && (run[n + 1].phase.Reporting? <==>
            && run[n].held.memory.key.Some? && 0 <= q < n && events[q].Answered? && events[q].reply.key == reply.key
            && (events[q].reply.validUntilMs.Some? ==>
                  CorrectedMs(events[p].nowMs, reply) < events[q].reply.validUntilMs.value as real))
      && (run[n + 1].phase.Reporting? ==>
            && run[n + 1].held.committed == run[n].held.committed
            && run[n + 1].held.active == run[n].held.active)
  {
    hide Step, Asks, Measures, MeasuredAt, AskedAt;
    Remembered(run, events, n);
    SampleHeld(run, events, n);
    var p := AskedAt(run, events, n);
    AsksWithTheClock(run[p], events[p]);
    assert run[n + 1] == Step(run[n], events[n]) && run[p + 1] == Step(run[p], events[p]);
    AnsweredStep(run[n], events[n]);
  }

  lemma Remembered(run: seq<Cycle.State>, events: seq<Event>, n: nat)
    requires IsRun(run, events) && n <= |events|
    ensures run[n].held.memory.key.Some? ==>
      var q := MeasuredAt(run, events, n);
      && 0 <= q < n && events[q].Answered?
      && run[n].held.memory.key == Some(events[q].reply.key)
      && run[n].held.memory.validUntilMs == events[q].reply.validUntilMs
  {
    hide Step, MeasuredAt;
    if run[n].held.memory.key.Some? {
      RemembersTheLast(run, events, n);
    }
  }

  lemma AnsweredStep(s: Cycle.State, e: Event)
    requires s.phase.Fetching? && e.Answered?
    ensures var t := Step(s, e);
      && (t.phase.Reporting? || t.phase.Preparing?)
      && (t.phase.Reporting? <==>
            && s.held.memory.key == Some(e.reply.key)
            && (s.held.memory.validUntilMs.Some? ==>
                  CorrectedMs(s.phase.askedMs, e.reply) < s.held.memory.validUntilMs.value as real))
      && (t.phase.Reporting? ==> t.held.committed == s.held.committed && t.held.active == s.held.active)
  {
    hide Finish;
    FinishOnlyShows(s.held, e.rest);
  }
}
