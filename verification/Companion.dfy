/** What the Companion said and what became of it (apps/player-web/src/companion-bridge.ts):
    where the outcome of every call comes from, whose answers are heard, and which
    capabilities are offered. */
module Companion {
  import opened Text
  import opened Bridge

  /** The bridge after the first events of a run. */
  ghost function At(events: seq<Event>, n: nat): State
    requires n <= |events|
  {
    Run(FRESH, events[..n])
  }

  lemma {:induction false} RunAppends(s: State, events: seq<Event>, e: Event)
    ensures Run(s, events + [e]) == Step(Run(s, events), e)
    decreases |events|
  {
    hide Step;
    if events == [] {
      assert [] + [e] == [e] && [e][1..] == [];
    } else {
      assert (events + [e])[0] == events[0] && (events + [e])[1..] == events[1..] + [e];
      RunAppends(Step(s, events[0]), events[1..], e);
    }
  }

  lemma Next(events: seq<Event>, n: nat)
    requires n < |events|
    ensures At(events, n + 1) == Step(At(events, n), events[n])
  {
    assert events[..n + 1] == events[..n] + [events[n]];
    RunAppends(FRESH, events[..n], events[n]);
  }

  lemma SoundAt(events: seq<Event>, n: nat)
    requires n <= |events|
    ensures Sound(At(events, n))
  {
    hide Run, Sound;
    FreshIsSound();
    RunKeeps(FRESH, events[..n]);
  }

  lemma AtFirst(events: seq<Event>)
    ensures At(events, 0) == FRESH
  {
    assert events[..0] == [];
  }

  // ---- outcomes ----------------------------------------------------------------------------

  /** A call waits under an id. */
  predicate Awaits(s: State, id: nat, call: nat) { id in s.pending && s.pending[id].call == call }

  /** A step settles a call with the Companion's own answer to it, because its own timer
      fired, or because there is no connection any more, or there was none. */
  ghost predicate Settles(s: State, e: Event, call: nat, outcome: Outcome) {
    || (exists connection, id :: s.connection == Some(connection) && Awaits(s, id, call)
          && e == Receive(Answer(connection, Some(id), outcome)))
    || (outcome == Outcome(false, "companion_timeout")
        && exists id :: Awaits(s, id, call) && e == Fire(s.pending[id].timer))
    || (outcome == Outcome(false, "companion_disconnected")
        && ((exists id :: Awaits(s, id, call) && s.connection.Some? && Step(s, e).connection.None?)
            || (e == Invoke && s.connection.None? && call == s.ledger.calls)))
  }

  lemma StepSettles(s: State, e: Event, call: nat)
    requires Sound(s) && call in Step(s, e).ledger.outcomes
    requires !(call in s.ledger.outcomes && s.ledger.outcomes[call] == Step(s, e).ledger.outcomes[call])
    ensures Settles(s, e, call, Step(s, e).ledger.outcomes[call])
  {
    hide Sound, Fired, CallsOf, AllCleared;
    match e
    case Receive(message) => MessageSettles(s, message, call);
    case Refresh =>
    case Invoke =>
    case Fire(t) => FiringSettles(s, t, call);
  }

  lemma CutSettles(s: State, call: nat)
    requires call in Disconnected(s).ledger.outcomes
    ensures Disconnected(s).connection.None?
    ensures ((exists id :: Awaits(s, id, call)) && Disconnected(s).ledger.outcomes[call] == DISCONNECTED)
      || (call in s.ledger.outcomes && s.ledger.outcomes[call] == Disconnected(s).ledger.outcomes[call])
  {
    hide AllCleared;
    if call in CallsOf(s.pending) {
      var id :| id in s.pending && s.pending[id].call == call;
      assert Awaits(s, id, call);
    }
  }

  lemma MessageSettles(s: State, message: Message, call: nat)
    requires Sound(s) && call in Step(s, Receive(message)).ledger.outcomes
    requires !(call in s.ledger.outcomes && s.ledger.outcomes[call] == Step(s, Receive(message)).ledger.outcomes[call])
    ensures Settles(s, Receive(message), call, Step(s, Receive(message)).ledger.outcomes[call])
  {
    hide Sound, Disconnected;
    match message
    case Answer(connection, id, outcome) =>
      assert id.Some? && Awaits(s, id.value, call);
    case Bye(_) => CutSettles(s, call);
    case _ =>
  }

  lemma FiringSettles(s: State, t: nat, call: nat)
    requires Sound(s) && call in Step(s, Fire(t)).ledger.outcomes
    requires !(call in s.ledger.outcomes && s.ledger.outcomes[call] == Step(s, Fire(t)).ledger.outcomes[call])
    ensures Settles(s, Fire(t), call, Step(s, Fire(t)).ledger.outcomes[call])
  {
    hide Sound, Fired, Disconnected;
    if t !in s.clock.timers {
      NotFired(s, t);
    } else {
      FiringIs(s, t);
      TimerOf(s, t);
      if s.clock.timers[t].ForRefresh? {
        CutSettles(ClearRefresh(s), call);
        assert forall id :: Awaits(ClearRefresh(s), id, call) ==> Awaits(s, id, call);
      } else {
        assert Awaits(s, s.clock.timers[t].id, call);
      }
    }
  }

  lemma TimerOf(s: State, t: nat)
    requires Sound(s) && t in s.clock.timers
    ensures s.clock.timers[t].ForInvoke? ==>
      s.clock.timers[t].id in s.pending && s.pending[s.clock.timers[t].id].timer == t
    ensures s.clock.timers[t].ForRefresh? ==> s.connection.Some? && s.refreshTimer == Some(t)
  {
  }

  /** Every outcome of a run is accounted for by the step that settled the call. */
  lemma {:induction false} EveryOutcomeIsAccounted(events: seq<Event>, n: nat, call: nat) returns (i: nat)
    requires n <= |events| && call in At(events, n).ledger.outcomes
    ensures i < n && Settles(At(events, i), events[i], call, At(events, n).ledger.outcomes[call])
  {
    hide Step, At, Settles, Sound;
    assert n > 0 by { NothingSettled(events); }
    Next(events, n - 1);
    SoundAt(events, n - 1);
    var s, t := At(events, n - 1), At(events, n);
    if call in s.ledger.outcomes && s.ledger.outcomes[call] == t.ledger.outcomes[call] {
      i := EveryOutcomeIsAccounted(events, n - 1, call);
    } else {
      StepSettles(s, events[n - 1], call);
      i := n - 1;
    }
  }

  lemma NothingSettled(events: seq<Event>)
    ensures At(events, 0).ledger.outcomes == map[]
  {
    AtFirst(events);
  }

  /** And an answer that comes in time settles its call with what the Companion said,
      and no other. */
  lemma AnsweredAsReceived(events: seq<Event>, connection: string, id: nat, outcome: Outcome)
    requires Run(FRESH, events).connection == Some(connection) && id in Run(FRESH, events).pending
    ensures var s := Run(FRESH, events);
      var t := Step(s, Receive(Answer(connection, Some(id), outcome)));
      && SettledAs(t.ledger, s.pending[id].call, outcome)
      && t.pending == s.pending - {id} && s.pending[id].timer !in t.clock.timers
      && forall other | other in s.pending && other != id :: s.pending[other].timer in t.clock.timers
  {
    hide Run, Sound;
    FreshIsSound();
    RunKeeps(FRESH, events);
    var s := Run(FRESH, events);
    hide Resolved;
    ResolvesOne(s, id, outcome);
    OwnTimers(s, id, outcome);
  }

  lemma OwnTimers(s: State, id: nat, outcome: Outcome)
    requires Sound(s) && id in s.pending
    ensures var t := Resolved(s, id, outcome);
      && t.pending == s.pending - {id} && s.pending[id].timer !in t.clock.timers
      && forall other | other in s.pending && other != id :: s.pending[other].timer in t.clock.timers
  {
  }

  // ---- the connection ---------------------------------------------------------------------------

  /** The connection is lost exactly by its own bye, or by a refresh that nobody
      answered; nothing another connection says ends it. */
  lemma LostExactly(events: seq<Event>, n: nat)
    requires n < |events| && At(events, n).connection.Some?
    ensures var s := At(events, n);
      At(events, n + 1).connection.None? <==>
        || events[n] == Receive(Bye(s.connection.value))
        || (s.refreshTimer.Some? && events[n] == Fire(s.refreshTimer.value))
  {
    hide At, Sound;
    Next(events, n);
    SoundAt(events, n);
    Loses(At(events, n), events[n]);
  }

  lemma Loses(s: State, e: Event)
    requires Sound(s) && s.connection.Some?
    ensures Step(s, e).connection.None? <==>
      e == Receive(Bye(s.connection.value)) || (s.refreshTimer.Some? && e == Fire(s.refreshTimer.value))
    ensures Step(s, e).connection.Some? ==> Step(s, e).connection == s.connection
  {
    hide Sound, Fired, CallsOf, AllCleared, AllFailed;
    match e
    case Fire(t) =>
      if t !in s.clock.timers {
        NotFired(s, t);
        if s.refreshTimer.Some? { RefreshRuns(s); }
      } else {
        FiringIs(s, t);
        TimerOf(s, t);
        if s.refreshTimer.Some? { RefreshRuns(s); }
      }
    case _ =>
  }

  /** While connected, the connection is the one whose hello came first. */
  lemma {:induction false} ConnectedBy(events: seq<Event>, n: nat) returns (i: nat)
    requires n <= |events| && At(events, n).connection.Some?
    ensures i < n && events[i] == Receive(Hello(At(events, n).connection.value)) && At(events, i).connection.None?
    ensures forall j | i < j <= n :: At(events, j).connection == At(events, n).connection
  {
    hide Step, At, Sound;
    assert n > 0 by { NothingConnected(events); }
    Next(events, n - 1);
    SoundAt(events, n - 1);
    if At(events, n - 1).connection.None? {
      Connects(At(events, n - 1), events[n - 1]);
      i := n - 1;
    } else {
      Loses(At(events, n - 1), events[n - 1]);
      i := ConnectedBy(events, n - 1);
    }
  }

  lemma NothingConnected(events: seq<Event>)
    ensures At(events, 0).connection.None?
  {
    AtFirst(events);
  }

  lemma Connects(s: State, e: Event)
    requires Sound(s) && s.connection.None? && Step(s, e).connection.Some?
    ensures e == Receive(Hello(Step(s, e).connection.value))
  {
    hide CallsOf, AllCleared, AllFailed;
  }

  // ---- what is offered -----------------------------------------------------------------------------

  predicate Describes(s: State, e: Event) {
    e.Receive? && e.message.Described? && s.connection == Some(e.message.connection)
  }

  lemma Offers(s: State, e: Event)
    requires Sound(s)
    ensures var t := Step(s, e);
      if Describes(s, e) then
        t.registered && t.described == e.message.capabilities && t.refreshTimer.None? && t.connection == s.connection
      else t.registered ==> s.registered && t.described == s.described && t.connection == s.connection
    ensures Step(s, e).connection.Some? && s.registered ==> Step(s, e).registered
  {
    hide Sound, Fired, CallsOf, AllCleared, AllFailed;
    Kept(s);
    match e
    case Fire(t) =>
      if t !in s.clock.timers {
        NotFired(s, t);
      } else {
        FiringIs(s, t);
      }
    case _ =>
  }

  lemma Kept(s: State)
    requires Sound(s)
    ensures s.registered ==> s.connection.Some?
  {
  }

  /** The capabilities offered are those this connection described last. */
  lemma {:induction false} OffersTheLast(events: seq<Event>, n: nat) returns (i: nat)
    requires n <= |events| && At(events, n).registered
    ensures i < n && Describes(At(events, i), events[i])
    ensures At(events, n).described == events[i].message.capabilities
    ensures At(events, n).connection == Some(events[i].message.connection)
    ensures forall j | i < j < n :: !Describes(At(events, j), events[j])
    ensures forall j | i < j < n :: At(events, j).connection == At(events, n).connection
  {
    hide Step, At, Sound, Describes;
    assert n > 0 by { NothingOffered(events); }
    Next(events, n - 1);
    SoundAt(events, n - 1);
    Offers(At(events, n - 1), events[n - 1]);
    if Describes(At(events, n - 1), events[n - 1]) {
      i := n - 1;
      Described(At(events, i), events[i]);
    } else {
      i := OffersTheLast(events, n - 1);
    }
  }

  lemma NothingOffered(events: seq<Event>)
    ensures !At(events, 0).registered
  {
    AtFirst(events);
  }

  lemma Described(s: State, e: Event)
    requires Describes(s, e)
    ensures e.Receive? && e.message.Described? && s.connection == Some(e.message.connection)
  {
  }

  /** A refresh waits until this connection describes itself, or its own deadline
      passes and the connection is lost with it; asked for while disconnected, it is
      nothing. */
  lemma RefreshWaits(events: seq<Event>, n: nat)
    requires n < |events|
    ensures var s, t := At(events, n), At(events, n + 1);
      && (events[n] == Refresh && s.connection.Some? ==> t.refreshTimer.Some?)
      && (s.refreshTimer.Some? && !Describes(s, events[n]) && t.connection.Some? ==> t.refreshTimer == s.refreshTimer)
      && (Describes(s, events[n]) ==> t.refreshTimer.None?)
      && (s.refreshTimer.None? && t.refreshTimer.Some? ==> events[n] == Refresh && s.connection.Some?)
  {
    hide At, Sound;
    Next(events, n);
    SoundAt(events, n);
    Refreshes(At(events, n), events[n]);
  }

  lemma Refreshes(s: State, e: Event)
    requires Sound(s)
    ensures var t := Step(s, e);
      && (e == Refresh && s.connection.Some? ==> t.refreshTimer.Some?)
      && (s.refreshTimer.Some? && !Describes(s, e) && t.connection.Some? ==> t.refreshTimer == s.refreshTimer)
      && (Describes(s, e) ==> t.refreshTimer.None?)
      && (s.refreshTimer.None? && t.refreshTimer.Some? ==> e == Refresh && s.connection.Some?)
  {
    hide Sound, Fired, CallsOf, AllCleared, AllFailed;
    match e
    case Fire(t) =>
      if t !in s.clock.timers {
        NotFired(s, t);
      } else {
        FiringIs(s, t);
        TimerOf(s, t);
      }
    case _ =>
  }
}
