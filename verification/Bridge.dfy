/** The Browser Player's side of the Companion bridge
    (apps/player-web/src/companion-bridge.ts): requests that are answered, time out
    or are cut off, and each settled once. */
module Bridge {
  import opened Text

  type Capabilities = map<string, string>

  /** A message that passed validation: this window, this origin, protocol 1. The id
      of an answer is a number where it has the form the bridge gives its requests. */
  datatype Message =
    | Hello(connection: string)
    | Described(connection: string, capabilities: Capabilities)
    | Answer(connection: string, id: Option<nat>, outcome: Outcome)
    | Bye(connection: string)
    | Unknown(connection: string)

  datatype Outcome = Outcome(success: bool, code: string)

  const DISCONNECTED := Outcome(false, "companion_disconnected")
  const TIMED_OUT := Outcome(false, "companion_timeout")

  /** A request sent and not answered: the call it was made for, and its timer. */
  datatype Pending = Pending(call: nat, timer: nat)

  datatype Timer = ForInvoke(id: nat) | ForRefresh

  /** The bridge with what it sees of the browser: the timers that will fire, and the
      calls made of it with how often and how each was settled. */
  datatype State = State(
    connection: Option<string>, described: Capabilities, pending: map<nat, Pending>, counter: nat,
    refreshTimer: Option<nat>, registered: bool, clock: Clock, ledger: Ledger)

  datatype Clock = Clock(timers: map<nat, Timer>, next: nat) {
    function Set(timer: Timer): Clock { Clock(timers[next := timer], next + 1) }
    function Cleared(t: nat): Clock { this.(timers := timers - {t}) }
  }

  datatype Ledger = Ledger(calls: nat, settled: multiset<nat>, outcomes: map<nat, Outcome>) {
    function Called(): Ledger { this.(calls := calls + 1) }
    function Settled(call: nat, outcome: Outcome): Ledger {
      Ledger(calls, settled + multiset{call}, outcomes[call := outcome])
    }
  }

  const FRESH := State(None, map[], map[], 0, None, false, Clock(map[], 0), Ledger(0, multiset{}, map[]))

  // ---- what each handler changes ---------------------------------------------------------

  function ClearRefresh(s: State): State {
    match s.refreshTimer
    case None => s
    case Some(t) => s.(clock := s.clock.Cleared(t), refreshTimer := None)
  }

  ghost function CallsOf(pending: map<nat, Pending>): set<nat> { set id | id in pending :: pending[id].call }

  ghost function TimersOf(pending: map<nat, Pending>): set<nat> { set id | id in pending :: pending[id].timer }

  ghost function AllFailed(ledger: Ledger, pending: map<nat, Pending>): Ledger {
    Ledger(ledger.calls, ledger.settled + multiset(CallsOf(pending)),
           ledger.outcomes + map call | call in CallsOf(pending) :: DISCONNECTED)
  }

  ghost function AllCleared(clock: Clock, pending: map<nat, Pending>): Clock {
    clock.(timers := clock.timers - TimersOf(pending))
  }

  /** Every request fails, and the provider leaves. */
  ghost function Disconnected(s: State): State {
    var c := ClearRefresh(s);
    State(None, map[], map[], c.counter, None, false, AllCleared(c.clock, c.pending), AllFailed(c.ledger, c.pending))
  }

  function Resolved(s: State, id: nat, outcome: Outcome): State
    requires id in s.pending
  {
    s.(pending := s.pending - {id}, clock := s.clock.Cleared(s.pending[id].timer),
       ledger := s.ledger.Settled(s.pending[id].call, outcome))
  }

  ghost function OnMessage(s: State, message: Message): State {
    match message
    case Hello(connection) => if s.connection.Some? then s else s.(connection := Some(connection))
    case Described(connection, capabilities) =>
      if s.connection != Some(connection) then s
      else ClearRefresh(s).(described := capabilities, registered := true)
    case Answer(connection, id, outcome) =>
      if s.connection != Some(connection) || id.None? || id.value !in s.pending then s
        else Resolved(s, id.value, outcome)
    case Bye(connection) => if s.connection != Some(connection) then s else Disconnected(s)
    case Unknown(_) => s
  }

  function Refreshed(s: State): State {
    if s.connection.None? || s.refreshTimer.Some? then s
    else s.(refreshTimer := Some(s.clock.next), clock := s.clock.Set(ForRefresh), counter := s.counter + 1)
  }

  /** A call made while disconnected is settled at once, and sends nothing. */
  function Invoked(s: State): State {
    var call, id := s.ledger.calls, s.counter + 1;
    if s.connection.None? then s.(ledger := s.ledger.Called().Settled(call, DISCONNECTED))
    else s.(ledger := s.ledger.Called(), counter := id, pending := s.pending[id := Pending(call, s.clock.next)],
            clock := s.clock.Set(ForInvoke(id)))
  }

  /** A timer that fires is gone before its callback runs. */
  ghost function Fired(s: State, t: nat): State {
    if t !in s.clock.timers then s
    else
      var rest := s.(clock := s.clock.Cleared(t));
      match s.clock.timers[t]
      case ForRefresh => Disconnected(rest.(refreshTimer := None))
      case ForInvoke(id) =>
        if id in s.pending
        then rest.(pending := s.pending - {id}, ledger := s.ledger.Settled(s.pending[id].call, TIMED_OUT))
        else rest
  }

  // ---- the bridge ----------------------------------------------------------------------------

  class CompanionBridge {
    var connection: Option<string>
    var described: Capabilities
    var pending: map<nat, Pending>
    var counter: nat
    var refreshTimer: Option<nat>
    var registered: bool
    // The browser's timers, and the promises handed out.
    var clock: Clock
    var ledger: Ledger

    function Now(): State
      reads this
    {
      State(connection, described, pending, counter, refreshTimer, registered, clock, ledger)
    }

    constructor ()
      ensures Now() == FRESH
    {
      connection, described, pending, counter := None, map[], map[], 0;
      refreshTimer, registered := None, false;
      clock, ledger := Clock(map[], 0), Ledger(0, multiset{}, map[]);
    }

    method Receive(message: Message)
      requires Sound(Now())
      modifies this
      ensures Now() == OnMessage(old(Now()), message) && Sound(Now())
    {
      hide Sound;
      MessageKeepsSound(Now(), message);
      CallsDiffer(Now());
      if message.Hello? {
        if connection.Some? {
          return;
        }
        connection := Some(message.connection);
        return;
      }
      if connection != Some(message.connection) {
        return;
      }
      match message
      case Hello(_) =>
      case Described(_, capabilities) =>
        ClearRefreshTimer();
        described := capabilities;
        registered := true;
      case Answer(_, id, outcome) =>
        if id.Some? && id.value in pending {
          var waiting := pending[id.value];
          pending := pending - {id.value};
          clock := clock.Cleared(waiting.timer);
          ledger := ledger.Settled(waiting.call, outcome);
        }
      case Bye(_) => Disconnect();
      case Unknown(_) =>
    }

    method ClearRefreshTimer()
      modifies this`clock, this`refreshTimer
      ensures Now() == ClearRefresh(old(Now()))
    {
      if refreshTimer.Some? {
        clock := clock.Cleared(refreshTimer.value);
        refreshTimer := None;
      }
    }

    method Refresh()
      requires Sound(Now())
      modifies this
      ensures Now() == Refreshed(old(Now())) && Sound(Now())
    {
      hide Sound;
      RefreshKeepsSound(Now());
      if connection.None? || refreshTimer.Some? {
        return;
      }
      refreshTimer := Some(clock.next);
      clock := clock.Set(ForRefresh);
      counter := counter + 1;
    }

    method Invoke() returns (call: nat)
      requires Sound(Now())
      modifies this
      ensures call == old(ledger.calls) && Now() == Invoked(old(Now())) && Sound(Now())
    {
      hide Sound;
      InvokeKeepsSound(Now());
      call := ledger.calls;
      ledger := ledger.Called();
      if connection.None? {
        ledger := ledger.Settled(call, DISCONNECTED);
        return;
      }
      counter := counter + 1;
      pending := pending[counter := Pending(call, clock.next)];
      clock := clock.Set(ForInvoke(counter));
    }

    method Disconnect()
      requires DistinctCalls(pending)
      modifies this
      ensures Now() == Disconnected(old(Now()))
    {
      hide DistinctCalls, AllCleared, AllFailed;
      ClearRefreshTimer();
      FailPending();
      pending := map[];
      connection := None;
      described := map[];
      registered := false;
    }

    /** Fails every request; the order they fail in cannot be observed. */
    method FailPending()
      requires DistinctCalls(pending)
      modifies this`clock, this`ledger
      ensures clock == AllCleared(old(clock), pending) && ledger == AllFailed(old(ledger), pending)
    {
      hide DistinctCalls, Others, AllCleared, AllFailed;
      var open := pending.Keys;
      NoneClosed(old(clock), old(ledger), pending);
      while open != {}
        invariant open <= pending.Keys
        invariant clock == AllCleared(old(clock), Others(pending, open))
        invariant ledger == AllFailed(old(ledger), Others(pending, open))
      {
        var id :| id in open;
        OneMoreClosed(old(clock), old(ledger), pending, open, id);
        clock := clock.Cleared(pending[id].timer);
        ledger := ledger.Settled(pending[id].call, DISCONNECTED);
        open := open - {id};
      }
      AllClosed(pending);
    }

    method TimerFires(t: nat)
      requires Sound(Now())
      modifies this
      ensures Now() == Fired(old(Now()), t) && Sound(Now())
    {
      hide Sound, Disconnected;
      FiringKeepsSound(Now(), t);
      CallsDiffer(Now());
      if t !in clock.timers {
        return;
      }
      var timer := clock.timers[t];
      clock := clock.Cleared(t);
      match timer
      case ForRefresh =>
        refreshTimer := None;
        Disconnect();
      case ForInvoke(id) =>
        if id in pending {
          ledger := ledger.Settled(pending[id].call, TIMED_OUT);
          pending := pending - {id};
        }
    }
  }

  /** The requests a disconnecting bridge has been through. */
  ghost function Others(pending: map<nat, Pending>, open: set<nat>): map<nat, Pending> {
    map id | id in pending && id !in open :: pending[id]
  }

  ghost predicate DistinctCalls(pending: map<nat, Pending>) {
    forall a, b | a in pending && b in pending && pending[a].call == pending[b].call :: a == b
  }

  lemma OneMoreCall(pending: map<nat, Pending>, id: nat, p: Pending)
    requires id !in pending
    ensures CallsOf(pending[id := p]) == CallsOf(pending) + {p.call}
    ensures TimersOf(pending[id := p]) == TimersOf(pending) + {p.timer}
  {
    var more := pending[id := p];
    assert id in more && more[id] == p;
    forall i | i in pending ensures pending[i].call in CallsOf(more) && pending[i].timer in TimersOf(more) {
      assert i in more && more[i] == pending[i];
    }
  }

  lemma OneMoreClosed(clock: Clock, ledger: Ledger, pending: map<nat, Pending>, open: set<nat>, id: nat)
    requires id in open && open <= pending.Keys && DistinctCalls(pending)
    ensures AllCleared(clock, Others(pending, open - {id}))
      == AllCleared(clock, Others(pending, open)).Cleared(pending[id].timer)
    ensures AllFailed(ledger, Others(pending, open - {id}))
         == AllFailed(ledger, Others(pending, open)).Settled(pending[id].call, DISCONNECTED)
  {
    hide CallsOf, TimersOf, AllCleared, AllFailed;
    var before := Others(pending, open);
    assert Others(pending, open - {id}) == before[id := pending[id]];
    NotAmong(pending, open, id);
    hide Others, DistinctCalls;
    OneMoreFailed(ledger, before, id, pending[id]);
    OneMoreCleared(clock, before, id, pending[id]);
  }

  lemma OneMoreCleared(clock: Clock, pending: map<nat, Pending>, id: nat, p: Pending)
    requires id !in pending
    ensures AllCleared(clock, pending[id := p]) == AllCleared(clock, pending).Cleared(p.timer)
  {
    hide CallsOf, TimersOf;
    OneMoreCall(pending, id, p);
    assert clock.timers - (TimersOf(pending) + {p.timer}) == clock.timers - TimersOf(pending) - {p.timer};
  }

  lemma OneMoreFailed(ledger: Ledger, pending: map<nat, Pending>, id: nat, p: Pending)
    requires id !in pending && p.call !in CallsOf(pending)
    ensures AllFailed(ledger, pending[id := p]) == AllFailed(ledger, pending).Settled(p.call, DISCONNECTED)
  {
    hide CallsOf, TimersOf;
    OneMoreCall(pending, id, p);
    OneMoreOutcome(ledger.outcomes, CallsOf(pending), p.call);
  }

  lemma OneMoreOutcome(outcomes: map<nat, Outcome>, calls: set<nat>, call: nat)
    requires call !in calls
    ensures multiset(calls + {call}) == multiset(calls) + multiset{call}
    ensures outcomes + (map c | c in calls + {call} :: DISCONNECTED)
         == (outcomes + map c | c in calls :: DISCONNECTED)[call := DISCONNECTED]
  {
  }

  lemma NotAmong(pending: map<nat, Pending>, open: set<nat>, id: nat)
    requires id in open && open <= pending.Keys && DistinctCalls(pending)
    ensures id !in Others(pending, open) && pending[id].call !in CallsOf(Others(pending, open))
  {
  }

  lemma NoneClosed(clock: Clock, ledger: Ledger, pending: map<nat, Pending>)
    ensures AllCleared(clock, Others(pending, pending.Keys)) == clock
    ensures AllFailed(ledger, Others(pending, pending.Keys)) == ledger
  {
    assert Others(pending, pending.Keys) == map[];
    assert CallsOf(map[]) == {} && TimersOf(map[]) == {};
  }

  lemma AllClosed(pending: map<nat, Pending>)
    ensures Others(pending, {}) == pending
  {
  }

  // ---- what always holds ------------------------------------------------------------------------

  /** Every call is pending and not settled, or settled once. */
  ghost predicate CallsSound(pending: map<nat, Pending>, l: Ledger) {
    && DistinctCalls(pending)
    && (forall id | id in pending :: pending[id].call < l.calls)
    && (forall call: nat :: l.settled[call] == if call < l.calls && call !in CallsOf(pending) then 1 else 0)
    && (forall call: nat :: call in l.settled <==> call in l.outcomes)
  }

  /** The live timers are those of the pending requests and of the refresh. */
  ghost predicate TimersSound(pending: map<nat, Pending>, counter: nat, clock: Clock, refresh: Option<nat>) {
    var timers := clock.timers;
    && (forall id | id in pending ::
      id <= counter && pending[id].timer in timers && timers[pending[id].timer] == ForInvoke(id))
    && (forall t | t in timers :: t < clock.next && (timers[t].ForRefresh? ==> refresh == Some(t)))
    && (forall t | t in timers && timers[t].ForInvoke? :: timers[t].id in pending && pending[timers[t].id].timer == t)
    && (refresh.Some? ==> refresh.value in timers && timers[refresh.value] == ForRefresh)
  }

  /** Nothing is waited for, nor offered, without a connection. */
  ghost predicate LinkSound(s: State) {
    && (s.connection.None? ==> s.pending == map[] && s.refreshTimer.None? && !s.registered)
    && (!s.registered ==> s.described == map[])
  }

  ghost predicate Sound(s: State) {
    && CallsSound(s.pending, s.ledger)
    && TimersSound(s.pending, s.counter, s.clock, s.refreshTimer)
    && LinkSound(s)
  }

  lemma CallsDiffer(s: State)
    requires Sound(s)
    ensures DistinctCalls(s.pending)
  {
  }

  lemma FewerCalls(pending: map<nat, Pending>, id: nat)
    requires id in pending && DistinctCalls(pending)
    ensures CallsOf(pending - {id}) == CallsOf(pending) - {pending[id].call}
    ensures pending[id].call in CallsOf(pending)
  {
    var rest := pending - {id};
    forall c ensures c in CallsOf(rest) <==> c in CallsOf(pending) && c != pending[id].call {
      if c in CallsOf(pending) && c != pending[id].call {
        var i :| i in pending && pending[i].call == c;
        assert i in rest && rest[i].call == c;
      }
    }
  }

  lemma CallsResolve(pending: map<nat, Pending>, l: Ledger, id: nat, outcome: Outcome)
    requires CallsSound(pending, l) && id in pending
    ensures CallsSound(pending - {id}, l.Settled(pending[id].call, outcome))
  {
    hide CallsOf;
    FewerCalls(pending, id);
  }

  lemma CallsCut(pending: map<nat, Pending>, l: Ledger)
    requires CallsSound(pending, l)
    ensures CallsSound(map[], AllFailed(l, pending))
  {
    assert CallsOf(map[]) == {};
  }

  lemma CallsInvoke(pending: map<nat, Pending>, l: Ledger, id: nat, timer: nat)
    requires CallsSound(pending, l) && id !in pending
    ensures CallsSound(pending[id := Pending(l.calls, timer)], l.Called())
  {
    hide CallsOf;
    OneMoreCall(pending, id, Pending(l.calls, timer));
  }

  lemma CallsRefuse(pending: map<nat, Pending>, l: Ledger, outcome: Outcome)
    requires CallsSound(pending, l)
    ensures CallsSound(pending, l.Called().Settled(l.calls, outcome))
  {
    assert l.calls !in CallsOf(pending);
  }

  lemma TimersResolve(pending: map<nat, Pending>, counter: nat, clock: Clock, refresh: Option<nat>, id: nat)
    requires TimersSound(pending, counter, clock, refresh) && id in pending
    ensures TimersSound(pending - {id}, counter, clock.Cleared(pending[id].timer), refresh)
  {
  }

  lemma TimersCut(pending: map<nat, Pending>, counter: nat, clock: Clock)
    requires TimersSound(pending, counter, clock, None)
    ensures TimersSound(map[], counter, AllCleared(clock, pending), None)
    ensures AllCleared(clock, pending).timers == map[]
  {
    forall t | t in clock.timers ensures t in TimersOf(pending) {
      assert clock.timers[t].ForInvoke? && pending[clock.timers[t].id].timer == t;
    }
  }

  lemma TimersClear(pending: map<nat, Pending>, counter: nat, clock: Clock, refresh: Option<nat>)
    requires TimersSound(pending, counter, clock, refresh) && refresh.Some?
    ensures TimersSound(pending, counter, clock.Cleared(refresh.value), None)
  {
  }

  lemma TimersInvoke(pending: map<nat, Pending>, counter: nat, clock: Clock, refresh: Option<nat>, call: nat)
    requires TimersSound(pending, counter, clock, refresh)
    ensures counter + 1 !in pending
    ensures TimersSound(pending[counter + 1 := Pending(call, clock.next)], counter + 1,
      clock.Set(ForInvoke(counter + 1)), refresh)
  {
  }

  lemma TimersRefresh(pending: map<nat, Pending>, counter: nat, clock: Clock)
    requires TimersSound(pending, counter, clock, None)
    ensures TimersSound(pending, counter + 1, clock.Set(ForRefresh), Some(clock.next))
  {
  }

  lemma ClearKeepsSound(s: State)
    requires Sound(s)
    ensures Sound(ClearRefresh(s))
  {
    hide CallsSound, TimersSound;
    if s.refreshTimer.Some? {
      TimersClear(s.pending, s.counter, s.clock, s.refreshTimer);
    }
  }

  /** What is left after a disconnect: no request, no timer, no provider. */
  lemma DisconnectKeepsSound(s: State)
    requires Sound(s)
    ensures Sound(Disconnected(s)) && Disconnected(s).clock.timers == map[]
  {
    ClearKeepsSound(s);
    hide CallsSound, TimersSound, AllFailed, AllCleared;
    var c := ClearRefresh(s);
    CallsCut(c.pending, c.ledger);
    TimersCut(c.pending, c.counter, c.clock);
  }

  lemma ResolveKeepsSound(s: State, id: nat, outcome: Outcome)
    requires Sound(s) && id in s.pending
    ensures Sound(Resolved(s, id, outcome))
  {
    hide CallsSound, TimersSound;
    CallsResolve(s.pending, s.ledger, id, outcome);
    TimersResolve(s.pending, s.counter, s.clock, s.refreshTimer, id);
  }

  lemma MessageKeepsSound(s: State, message: Message)
    requires Sound(s)
    ensures Sound(OnMessage(s, message))
  {
    hide CallsSound, TimersSound, Resolved, Disconnected;
    match message
    case Hello(_) =>
    case Described(_, _) => ClearKeepsSound(s);
    case Answer(_, id, outcome) => if id.Some? && id.value in s.pending { ResolveKeepsSound(s, id.value, outcome); }
    case Bye(_) => DisconnectKeepsSound(s);
    case Unknown(_) =>
  }

  lemma RefreshKeepsSound(s: State)
    requires Sound(s)
    ensures Sound(Refreshed(s))
  {
    hide CallsSound, TimersSound;
    if s.refreshTimer.None? {
      TimersRefresh(s.pending, s.counter, s.clock);
    }
  }

  lemma InvokeKeepsSound(s: State)
    requires Sound(s)
    ensures Sound(Invoked(s))
  {
    hide CallsSound, TimersSound;
    if s.connection.Some? {
      TimersInvoke(s.pending, s.counter, s.clock, s.refreshTimer, s.ledger.calls);
      CallsInvoke(s.pending, s.ledger, s.counter + 1, s.clock.next);
    } else {
      CallsRefuse(s.pending, s.ledger, DISCONNECTED);
    }
  }

  /** A refresh's timer that fires has been cleared already; a request's is the
      request's own. */
  lemma FiringIs(s: State, t: nat)
    requires Sound(s) && t in s.clock.timers
    ensures s.clock.timers[t].ForRefresh? ==> Fired(s, t) == Disconnected(ClearRefresh(s))
    ensures s.clock.timers[t].ForInvoke? ==>
      s.clock.timers[t].id in s.pending && Fired(s, t) == Resolved(s, s.clock.timers[t].id, TIMED_OUT)
  {
    hide CallsSound, Disconnected;
  }

  lemma FiringKeepsSound(s: State, t: nat)
    requires Sound(s)
    ensures Sound(Fired(s, t))
  {
    hide Sound;
    if t in s.clock.timers {
      FiringIs(s, t);
      if s.clock.timers[t].ForRefresh? {
        ClearKeepsSound(s);
        DisconnectKeepsSound(ClearRefresh(s));
      } else {
        ResolveKeepsSound(s, s.clock.timers[t].id, TIMED_OUT);
      }
    }
  }

  // ---- runs --------------------------------------------------------------------------------------------

  datatype Event = Receive(message: Message) | Refresh | Invoke | Fire(t: nat)

  ghost function Step(s: State, e: Event): State {
    match e
    case Receive(message) => OnMessage(s, message)
    case Refresh => Refreshed(s)
    case Invoke => Invoked(s)
    case Fire(t) => Fired(s, t)
  }

  ghost function Run(s: State, events: seq<Event>): State
    decreases |events|
  {
    if events == [] then s else Run(Step(s, events[0]), events[1..])
  }

  /** A settled call stays settled, once, and as it was. */
  ghost predicate Keeps(s: State, t: State) {
    && s.ledger.calls <= t.ledger.calls
    && forall call: nat | call < s.ledger.calls && s.ledger.settled[call] == 1 ::
         t.ledger.settled[call] == 1 && call in s.ledger.outcomes
         && call in t.ledger.outcomes && t.ledger.outcomes[call] == s.ledger.outcomes[call]
  }

  lemma StepKeepsSound(s: State, e: Event)
    requires Sound(s)
    ensures Sound(Step(s, e))
  {
    hide Sound, OnMessage, Refreshed, Invoked, Fired;
    match e
    case Receive(message) => MessageKeepsSound(s, message);
    case Refresh => RefreshKeepsSound(s);
    case Invoke => InvokeKeepsSound(s);
    case Fire(t) => FiringKeepsSound(s, t);
  }

  /** A call with an outcome already is neither pending nor yet to be made. */
  lemma SettledIsOver(s: State, call: nat)
    requires Sound(s) && call < s.ledger.calls && s.ledger.settled[call] == 1
    ensures call !in CallsOf(s.pending) && call in s.ledger.outcomes
    ensures forall id | id in s.pending :: s.pending[id].call != call
  {
    assert call in s.ledger.settled;
  }

  lemma StepKeeps(s: State, e: Event)
    requires Sound(s)
    ensures Keeps(s, Step(s, e))
  {
    hide Sound, CallsOf;
    forall call: nat | call < s.ledger.calls && s.ledger.settled[call] == 1
      ensures Step(s, e).ledger.settled[call] == 1 && call in Step(s, e).ledger.outcomes
      ensures Step(s, e).ledger.outcomes[call] == s.ledger.outcomes[call]
    {
      SettledIsOver(s, call);
      CallKept(s, e, call);
    }
    CallsGrow(s, e);
  }

  lemma CallsGrow(s: State, e: Event)
    ensures s.ledger.calls <= Step(s, e).ledger.calls
  {
    hide CallsOf, AllCleared;
  }

  lemma CallKept(s: State, e: Event, call: nat)
    requires Sound(s) && call < s.ledger.calls && s.ledger.settled[call] == 1
    requires call !in CallsOf(s.pending) && call in s.ledger.outcomes
    requires forall id | id in s.pending :: s.pending[id].call != call
    ensures Step(s, e).ledger.settled[call] == 1 && call in Step(s, e).ledger.outcomes
    ensures Step(s, e).ledger.outcomes[call] == s.ledger.outcomes[call]
  {
    hide Sound, CallsOf, AllCleared, Fired;
    match e
    case Fire(t) =>
      if t in s.clock.timers {
        FiringIs(s, t);
      } else {
        assert Fired(s, t) == s by { NotFired(s, t); }
      }
    case _ =>
  }

  lemma NotFired(s: State, t: nat)
    requires t !in s.clock.timers
    ensures Fired(s, t) == s
  {
  }

  lemma {:induction false} RunKeeps(s: State, events: seq<Event>)
    requires Sound(s)
    ensures Sound(Run(s, events)) && Keeps(s, Run(s, events))
    decreases |events|
  {
    hide Sound, Step;
    if events == [] {
      assert Keeps(s, s) by { KeepsItself(s); }
    } else {
      StepKeepsSound(s, events[0]);
      StepKeeps(s, events[0]);
      RunKeeps(Step(s, events[0]), events[1..]);
    }
  }

  lemma KeepsItself(s: State)
    requires Sound(s)
    ensures Keeps(s, s)
  {
  }

  // ---- the theorems ---------------------------------------------------------------------------------------

  ghost predicate SettledAs(l: Ledger, call: nat, outcome: Outcome) {
    l.settled[call] == 1 && call in l.outcomes && l.outcomes[call] == outcome
  }

  /** A request waiting for its answer, with its own timer running. */
  ghost predicate Waits(s: State, call: nat) {
    exists id :: id in s.pending && s.pending[id].call == call && s.pending[id].timer in s.clock.timers
                 && s.clock.timers[s.pending[id].timer] == ForInvoke(id)
  }

  /** Under any interleaving of answers, timeouts, byes, unanswered refreshes and
      reconnects, every call made of the bridge is settled exactly once, or not yet
      settled and waiting; a settled call keeps its one outcome; and while anything is
      pending, a refresh waits, or the provider is offered, there is a connection. */
  lemma EveryCallSettlesOnce(before: seq<Event>, after: seq<Event>, call: nat)
    requires call < Run(FRESH, before).ledger.calls
    ensures var s := Run(FRESH, before);
      && (s.ledger.settled[call] == 0 ==> Waits(s, call))
      && (s.ledger.settled[call] != 0 ==> call in s.ledger.outcomes && s.ledger.settled[call] == 1)
      && (forall outcome | SettledAs(s.ledger, call, outcome) :: SettledAs(Run(s, after).ledger, call, outcome))
      && (s.pending != map[] || s.refreshTimer.Some? || s.registered ==> s.connection.Some?)
  {
    hide Run, CallsOf;
    FreshIsSound();
    RunKeeps(FRESH, before);
    var s := Run(FRESH, before);
    RunKeeps(s, after);
    if s.ledger.settled[call] == 0 {
      Waiting(s, call);
    } else {
      assert call in s.ledger.settled;
    }
  }

  lemma Waiting(s: State, call: nat)
    requires Sound(s) && call < s.ledger.calls && s.ledger.settled[call] == 0
    ensures Waits(s, call)
  {
    assert call in CallsOf(s.pending);
    var id :| id in s.pending && s.pending[id].call == call;
  }

  lemma FreshIsSound()
    ensures Sound(FRESH)
  {
  }

  /** A request's own timer settles it, whatever the Companion does. */
  lemma TimerSettles(events: seq<Event>, id: nat)
    requires id in Run(FRESH, events).pending
    ensures var s := Run(FRESH, events);
      var t := Step(s, Fire(s.pending[id].timer));
      SettledAs(t.ledger, s.pending[id].call, TIMED_OUT) && id !in t.pending
  {
    hide Run, Fired, Sound, Resolved;
    FreshIsSound();
    RunKeeps(FRESH, events);
    var s := Run(FRESH, events);
    NotYet(s, id);
    FiringIs(s, s.pending[id].timer);
    ResolvesOne(s, id, TIMED_OUT);
  }

  lemma ResolvesOne(s: State, id: nat, outcome: Outcome)
    requires Sound(s) && id in s.pending
    ensures SettledAs(Resolved(s, id, outcome).ledger, s.pending[id].call, outcome)
    ensures id !in Resolved(s, id, outcome).pending
  {
    NotYet(s, id);
    hide Sound, CallsOf;
  }

  lemma NotYet(s: State, id: nat)
    requires Sound(s) && id in s.pending
    ensures s.ledger.settled[s.pending[id].call] == 0 && s.pending[id].call in CallsOf(s.pending)
    ensures s.pending[id].timer in s.clock.timers && s.clock.timers[s.pending[id].timer] == ForInvoke(id)
  {
  }

  /** A refresh that nobody answers fails every request, and leaves nothing running
      and nothing offered. */
  lemma SilenceSettlesAll(events: seq<Event>, id: nat)
    requires id in Run(FRESH, events).pending && Run(FRESH, events).refreshTimer.Some?
    ensures var s := Run(FRESH, events);
      var t := Step(s, Fire(s.refreshTimer.value));
      && SettledAs(t.ledger, s.pending[id].call, DISCONNECTED)
      && t.clock.timers == map[] && t.pending == map[] && !t.registered && t.connection.None?
  {
    hide Run, Fired, Sound, Disconnected;
    FreshIsSound();
    RunKeeps(FRESH, events);
    var s := Run(FRESH, events);
    RefreshRuns(s);
    FiringIs(s, s.refreshTimer.value);
    ClearKeepsSound(s);
    CutOff(ClearRefresh(s), id);
  }

  lemma RefreshRuns(s: State)
    requires Sound(s) && s.refreshTimer.Some?
    ensures s.refreshTimer.value in s.clock.timers && s.clock.timers[s.refreshTimer.value].ForRefresh?
  {
  }

  lemma CutOff(s: State, id: nat)
    requires Sound(s) && id in s.pending && s.refreshTimer.None?
    ensures var t := Disconnected(s);
      && SettledAs(t.ledger, s.pending[id].call, DISCONNECTED)
      && t.clock.timers == map[] && t.pending == map[] && !t.registered && t.connection.None?
  {
    DisconnectKeepsSound(s);
    NotYet(s, id);
    hide Sound, CallsOf, AllCleared;
  }
}
