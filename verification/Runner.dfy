/** One command's way through the Browser Player (apps/player-web/src/commands.ts),
    a step between every two awaits. The page may be reloaded, or the poll given
    up, at any of them; the store is all that outlives it. */
module Runner {
  import opened Text
  import opened Commands

  datatype Command = Command(id: string, kind: string, key: string)

  /** Which types have a handler of the Host's own, and whether providers are asked
      about the rest. */
  datatype Host = Host(handled: string -> bool, providers: bool)

  datatype Phase =
    | Idle
    | Looking(command: Command)                          // the record is being read
    | Acknowledging(command: Command)
    | Routing(command: Command)                          // a provider is being asked
    | Starting(command: Command)                         // the running record is being written
    | Ready(command: Command)                            // written; the handler is called next
    | Handling(command: Command)
    | Storing(command: Command, named: Command, result: CommandResult)   // the done record is being written
    | Reporting(command: Command, result: CommandResult)

  datatype State = State(records: Records, phase: Phase)

  datatype Event =
    | Deliver(command: Command)
    | Look
    | Acknowledged
    | Routed(answer: Option<CommandResult>)
    | Written(at: int)
    | Call
    | Handled(result: CommandResult)
    | Report
    | Stop      // a reload, a refused acknowledgement, or an error that ends the poll

  function Unsupported(kind: string): CommandResult {
    CommandResult(false, "unsupported_command", "Browser Player does not support " + kind + ".")
  }

  function Entry(command: Command, status: Status, outcome: Option<CommandResult>, at: int): Stored {
    Stored(command.id, command.kind, status, outcome, at)
  }

  function KnownResult(known: Stored): CommandResult {
    if known.status == Done && known.outcome.Some? then known.outcome.value else INTERRUPTED
  }

  /** An event that does not fit the phase changes nothing. */
  function Step(host: Host, s: State, e: Event): State {
    match (s.phase, e)
    case (_, Stop) => s.(phase := Idle)
    case (Idle, Deliver(command)) => s.(phase := Looking(command))
    case (Looking(command), Look) =>
      if command.key !in s.records then s.(phase := Acknowledging(command))
      else
        var known := s.records[command.key];
        // The record of a command cut short keeps the identity it was given.
        s.(phase := if known.status
          == Running then Storing(command, Command(known.commandId, known.kind, command.key), KnownResult(known))
                    else Reporting(command, KnownResult(known)))
    case (Acknowledging(command), Acknowledged) =>
      s.(phase :=
        if host.handled(command.kind) then Starting(command)
        else if host.providers then Routing(command)
        else Storing(command, command, Unsupported(command.kind)))
    case (Routing(command), Routed(answer)) =>
      s.(phase := match answer
                  case Some(result) => Storing(command, command, result)
                  case None => Storing(command, command, Unsupported(command.kind)))
    case (Starting(command), Written(at)) =>
      State(Put(s.records, command.key, Entry(command, Running, None, at)), Ready(command))
    case (Ready(command), Call) => s.(phase := Handling(command))
    case (Handling(command), Handled(result)) => s.(phase := Storing(command, command, result))
    case (Storing(command, named, result), Written(at)) =>
      State(Put(s.records, command.key, Entry(named, Done, Some(result), at)), Reporting(command, result))
    case (Reporting(_, _), Report) => s.(phase := Idle)
    case _ => s
  }

  // ---- runs ---------------------------------------------------------------------------------

  /** A run starts with a page that has nothing in hand, over any store. */
  ghost predicate IsRun(host: Host, run: seq<State>, events: seq<Event>) {
    && |run| == |events| + 1 && run[0].phase == Idle && Sound(run[0].records)
    && forall n | 0 <= n < |events| :: run[n + 1] == Step(host, run[n], events[n])
  }

  /** Every finished record has a result. */
  ghost predicate Sound(records: Records) {
    forall key | key in records :: records[key].status == Done <==> records[key].outcome.Some?
  }

  /** The handler of a key is called. */
  predicate Calls(s: State, e: Event, key: string) { s.phase.Ready? && s.phase.command.key == key && e == Call }

  /** A provider is asked to run a key. */
  predicate Asks(s: State, key: string) { s.phase.Routing? && s.phase.command.key == key }

  predicate Reports(s: State, e: Event, key: string, result: CommandResult) {
    s.phase.Reporting? && s.phase.command.key == key && s.phase.result == result && e == Report
  }

  /** After the lookup found nothing, and until the handler is called. */
  predicate Fresh(p: Phase, command: Command) {
    p == Acknowledging(command) || p == Routing(command) || p == Starting(command) || p == Ready(command)
  }

  /** What one command in hand knows about its record. */
  ghost predicate Agrees(s: State) {
    && Sound(s.records)
    && match s.phase
       case Acknowledging(c) => c.key !in s.records
       case Routing(c) => c.key !in s.records
       case Starting(c) => c.key !in s.records
       case Ready(c) => c.key in s.records ==> s.records[c.key].status == Running
       case Handling(c) => c.key in s.records ==> s.records[c.key].status == Running
       case Storing(c, _, _) => c.key in s.records ==> s.records[c.key].status == Running
       case Reporting(c, result) => c.key in s.records ==> s.records[c.key].outcome == Some(result)
       case _ => true
  }

  lemma StepAgrees(host: Host, s: State, e: Event)
    requires Agrees(s)
    ensures Agrees(Step(host, s, e))
  {
    hide Newer, Older;
  }

  lemma {:induction false} RunAgrees(host: Host, run: seq<State>, events: seq<Event>, n: nat)
    requires IsRun(host, run, events) && n < |run|
    ensures Agrees(run[n])
  {
    hide Step, Agrees;
    if n == 0 {
      assert Agrees(run[0]) by { StartAgrees(run[0]); }
    } else {
      RunAgrees(host, run, events, n - 1);
      StepAgrees(host, run[n - 1], events[n - 1]);
    }
  }

  lemma StartAgrees(s: State)
    requires s.phase == Idle && Sound(s.records)
    ensures Agrees(s)
  {
  }

  // ---- at most once --------------------------------------------------------------------------

  lemma FreshFrom(host: Host, s: State, e: Event, command: Command)
    requires Fresh(Step(host, s, e).phase, command)
    ensures Fresh(s.phase, command) || (s.phase == Looking(command) && command.key !in s.records)
  {
    hide Put;
  }

  /** A command about to be handled was looked up, and not found, since anything
      else was handled. */
  lemma {:induction false} LookedUp(host: Host, run: seq<State>, events: seq<Event>, n: nat,
                                    command: Command) returns (m: nat)
    requires IsRun(host, run, events) && n < |run| && Fresh(run[n].phase, command)
    ensures m < n && command.key !in run[m].records && run[m].phase == Looking(command)
    ensures forall q | m < q <= n :: Fresh(run[q].phase, command)
  {
    hide Step, Fresh;
    assert n > 0 by { NotIdle(run[n].phase, command); }
    FreshFrom(host, run[n - 1], events[n - 1], command);
    if Fresh(run[n - 1].phase, command) {
      m := LookedUp(host, run, events, n - 1, command);
    } else {
      m := n - 1;
    }
  }

  lemma NotIdle(p: Phase, command: Command)
    requires Fresh(p, command)
    ensures p != Idle
  {
  }

  lemma NotHandled(p: Phase, command: Command)
    requires p.Handling?
    ensures !Fresh(p, command)
  {
  }

  /** A handler is called at most once for a key as long as the key is remembered:
      between two calls, in any run with reloads, lost answers and repeated
      deliveries, there is a moment when the store had forgotten it. */
  lemma AtMostOnce(host: Host, run: seq<State>, events: seq<Event>, i: nat, j: nat, key: string) returns (m: nat)
    requires IsRun(host, run, events) && i < j < |events|
    requires Calls(run[i], events[i], key) && Calls(run[j], events[j], key)
    ensures i < m < j && key !in run[m].records
  {
    hide Put;
    var command := run[j].phase.command;
    m := LookedUp(host, run, events, j, command);
    assert run[i + 1].phase.Handling?;
    NotHandled(run[i + 1].phase, command);
  }

  /** A provider is never asked about a command whose outcome is stored. */
  lemma StoredIsNotAsked(host: Host, run: seq<State>, events: seq<Event>, n: nat, key: string)
    requires IsRun(host, run, events) && n < |run| && Asks(run[n], key)
    ensures key !in run[n].records
  {
    hide Step;
    RunAgrees(host, run, events, n);
  }

  // ---- when a provider is asked again -----------------------------------------------------

  /** What a command delivered to an idle page leads to, when no handler has it. */
  function Delivered(host: Host, s: State, command: Command): State {
    Step(host, Step(host, Step(host, s, Deliver(command)), Look), Acknowledged)
  }

  /** On a clock that moves forward, a provider is asked about a delivered command
      exactly when nothing was ever written for its key, as when an earlier ask was
      cut off before its write, or two hundred other keys have been since. */
  lemma AskedAgainExactly(host: Host, run: seq<State>, events: seq<Event>, n: nat, command: Command)
    requires IsRun(host, run, events) && n <= |events| && run[0].records == map[] && run[n].phase == Idle
    requires LaterEachTime(WritesIn(run, events, 0, |events|))
    requires host.providers && !host.handled(command.kind)
    ensures var writes := WritesIn(run, events, 0, n);
      Asks(Delivered(host, run[n], command), command.key) <==>
        command.key !in KeysOf(writes) || |Since(writes, command.key)| >= 200
  {
    hide LaterEachTime, Replay, KeysOf, Since, WritesIn, Put;
    RunWrites(host, run, events, n);
    WritesSplit(run, events, n, |events|);
    FewerWrites(WritesIn(run, events, 0, n), WritesIn(run, events, n, |events|));
    KeepsTheMostRecent(WritesIn(run, events, 0, n));
    assert Kept(WritesIn(run, events, 0, n), command.key) <==> command.key in run[n].records;
  }

  /** But nothing is stored before a provider is asked: a reload while it works, and
      a second delivery, ask it again. */
  lemma ProvidersMayBeAskedAgain(host: Host, command: Command) returns (run: seq<State>, events: seq<Event>)
    requires host.providers && !host.handled(command.kind)
    ensures IsRun(host, run, events) && |run| == 8 && forall n | 0 <= n < |run| :: run[n].records == map[]
    ensures Asks(run[3], command.key) && run[4].phase == Idle && Asks(run[7], command.key)
  {
    events := [Deliver(command), Look, Acknowledged, Stop, Deliver(command), Look, Acknowledged];
    var idle, looking := State(map[], Idle), State(map[], Looking(command));
    var acknowledging, routing := State(map[], Acknowledging(command)), State(map[], Routing(command));
    run := [idle, looking, acknowledging, routing, idle, looking, acknowledging, routing];
  }

  // ---- results -----------------------------------------------------------------------------------

  predicate Finished(s: State, key: string, result: CommandResult) {
    key in s.records && s.records[key].status == Done && s.records[key].outcome == Some(result)
  }

  lemma StepKeepsFinished(host: Host, s: State, e: Event, key: string, result: CommandResult)
    requires Agrees(s) && Finished(s, key, result) && key in Step(host, s, e).records
    ensures Finished(Step(host, s, e), key, result)
  {
    hide Newer, Older;
  }

  /** Once a result is stored, every report for the key carries it, across any
      reloads, as long as the key is remembered. */
  lemma {:induction false} ResultsAreStable(host: Host, run: seq<State>, events: seq<Event>, i: nat, j: nat,
                                            key: string,
                                            result: CommandResult, reported: CommandResult)
    requires IsRun(host, run, events) && i <= j < |events| && Finished(run[i], key, result)
    requires forall n | i <= n <= j :: key in run[n].records
    requires Reports(run[j], events[j], key, reported)
    ensures reported == result
  {
    hide Step;
    StaysFinished(host, run, events, i, j, key, result);
    RunAgrees(host, run, events, j);
  }

  lemma {:induction false} StaysFinished(host: Host, run: seq<State>, events: seq<Event>, i: nat, j: nat, key: string,
                                         result: CommandResult)
    requires IsRun(host, run, events) && i <= j < |run| && Finished(run[i], key, result)
    requires forall n | i <= n <= j :: key in run[n].records
    ensures Finished(run[j], key, result)
    decreases j - i
  {
    hide Step, Agrees, Finished;
    if i < j {
      StaysFinished(host, run, events, i, j - 1, key, result);
      RunAgrees(host, run, events, j - 1);
      assert run[j - 1 + 1] == run[j];
      StepKeepsFinished(host, run[j - 1], events[j - 1], key, result);
    }
  }

  /** A key whose handler was called and did not return: its record says running,
      and whatever is in hand will say interrupted. */
  ghost predicate CutShort(s: State, key: string) {
    key in s.records ==>
      if s.records[key].status == Running then
        match s.phase
        case Ready(c) => c.key != key
        case Handling(c) => c.key != key
        case Storing(c, _, result) => c.key == key ==> result == INTERRUPTED
        case _ => true
      else s.records[key].outcome == Some(INTERRUPTED)
  }

  lemma StepKeepsCutShort(host: Host, s: State, e: Event, key: string)
    requires Agrees(s) && key in s.records && CutShort(s, key) && key in Step(host, s, e).records
    ensures CutShort(Step(host, s, e), key)
  {
    hide Newer, Older;
  }

  lemma {:induction false} StaysCutShort(host: Host, run: seq<State>, events: seq<Event>, i: nat, j: nat, key: string)
    requires IsRun(host, run, events) && i <= j < |run| && CutShort(run[i], key)
    requires forall n | i <= n <= j :: key in run[n].records
    ensures CutShort(run[j], key)
    decreases j - i
  {
    hide Step, Agrees, CutShort;
    if i < j {
      StaysCutShort(host, run, events, i, j - 1, key);
      RunAgrees(host, run, events, j - 1);
      assert run[j - 1 + 1] == run[j];
      StepKeepsCutShort(host, run[j - 1], events[j - 1], key);
    }
  }

  /** A handler cut short by a reload is only ever reported as interrupted, as long
      as its key is remembered. */
  lemma CutShortIsInterrupted(host: Host, run: seq<State>, events: seq<Event>, i: nat, j: nat, key: string,
                              reported: CommandResult)
    requires IsRun(host, run, events) && i < j < |events|
    requires run[i].phase.Handling? && run[i].phase.command.key == key && events[i] == Stop
    requires forall n | i <= n <= j :: key in run[n].records
    requires Reports(run[j], events[j], key, reported)
    ensures reported == INTERRUPTED
  {
    hide Put;
    RunAgrees(host, run, events, i);
    assert run[i + 1] == Step(host, run[i], events[i]) && run[i + 1].records == run[i].records;
    assert CutShort(run[i + 1], key);
    StaysCutShort(host, run, events, i + 1, j, key);
    RunAgrees(host, run, events, j);
  }

  /** The write at one step forgets what it has just written. */
  ghost predicate ForgetsItsOwn(s: State, e: Event, key: string, result: CommandResult) {
    s.phase.Storing? && s.phase.command.key == key && s.phase.result == result && e.Written?
    && |Newer(s.records[key := Entry(s.phase.named, Done, Some(result), e.at)], key)| >= 200
  }

  /** What is about to be reported has been stored, unless two hundred records of a
      later time pushed it out of the store as it was written. */
  lemma {:induction false} StoredBeforeReported(host: Host, run: seq<State>, events: seq<Event>, n: nat, key: string,
                                                result: CommandResult)
    requires IsRun(host, run, events) && n < |run| && run[n].phase.Reporting?
    requires run[n].phase.command.key == key && run[n].phase.result == result
    ensures exists m | 0 <= m <= n ::
      Finished(run[m], key, result) || (m < n && ForgetsItsOwn(run[m], events[m], key, result))
  {
    hide Step, Agrees, ForgetsItsOwn, Finished;
    assert n > 0;
    RunAgrees(host, run, events, n - 1);
    ReportingFrom(host, run[n - 1], events[n - 1]);
    if run[n - 1].phase == run[n].phase {
      StoredBeforeReported(host, run, events, n - 1, key, result);
    }
  }

  lemma ReportingFrom(host: Host, s: State, e: Event)
    requires Agrees(s) && Step(host, s, e).phase.Reporting?
    ensures var t := Step(host, s, e);
      || s.phase == t.phase
      || Finished(t, t.phase.command.key, t.phase.result) || ForgetsItsOwn(s, e, t.phase.command.key, t.phase.result)
  {
    hide Newer, Older;
    if s.phase.Storing? && e.Written? {
      JustWrittenIsKept(s.records, s.phase.command.key, Entry(s.phase.named, Done, Some(s.phase.result), e.at));
    }
  }

  // ---- how long a command is remembered ------------------------------------------------------------

  ghost function WriteOf(s: State, e: Event): seq<Writing> {
    match (s.phase, e)
    case (Starting(command), Written(at)) => [Writing(command.key, Entry(command, Running, None, at))]
    case (Storing(command, named, result), Written(at)) => [Writing(command.key, Entry(named, Done, Some(result), at))]
    case _ => []
  }

  /** What a run writes from one point to another. */
  ghost function WritesIn(run: seq<State>, events: seq<Event>, i: nat, n: nat): seq<Writing>
    requires n <= |events| < |run|
  {
    if n <= i then [] else WritesIn(run, events, i, n - 1) + WriteOf(run[n - 1], events[n - 1])
  }

  lemma StepWrites(host: Host, s: State, e: Event, writes: seq<Writing>)
    requires s.records == Replay(writes)
    ensures Step(host, s, e).records == Replay(writes + WriteOf(s, e))
  {
    hide Put;
    if WriteOf(s, e) == [] {
      assert writes + WriteOf(s, e) == writes;
    } else {
      var w := WriteOf(s, e)[0];
      assert (writes + [w])[..|writes|] == writes;
      assert WriteOf(s, e) == [w];
    }
  }

  lemma {:induction false} RunWrites(host: Host, run: seq<State>, events: seq<Event>, n: nat)
    requires IsRun(host, run, events) && n <= |events| && run[0].records == map[]
    ensures run[n].records == Replay(WritesIn(run, events, 0, n))
  {
    hide Step, WriteOf, Replay;
    if n == 0 {
      assert Replay([]) == map[] by { EmptyReplay(); }
    } else {
      RunWrites(host, run, events, n - 1);
      assert run[n - 1 + 1] == run[n];
      StepWrites(host, run[n - 1], events[n - 1], WritesIn(run, events, 0, n - 1));
    }
  }

  lemma EmptyReplay()
    ensures Replay([]) == map[]
  {
  }

  lemma {:induction false} WritesSplit(run: seq<State>, events: seq<Event>, i: nat, n: nat)
    requires i <= n <= |events| < |run|
    ensures WritesIn(run, events, 0, n) == WritesIn(run, events, 0, i) + WritesIn(run, events, i, n)
    decreases n
  {
    hide WriteOf;
    if i < n { WritesSplit(run, events, i, n - 1); }
  }

  /** A command about to be handled is the last one written. */
  lemma {:induction false} ReadyIsWritten(host: Host, run: seq<State>, events: seq<Event>, n: nat)
    requires IsRun(host, run, events) && n <= |events| && run[n].phase.Ready?
    ensures var writes := WritesIn(run, events, 0, n);
      writes != [] && writes[|writes| - 1].key == run[n].phase.command.key
  {
    hide Put;
    assert n > 0;
    assert run[n - 1 + 1] == Step(host, run[n - 1], events[n - 1]);
    if run[n - 1].phase.Ready? {
      ReadyIsWritten(host, run, events, n - 1);
    }
  }

  lemma {:induction false} SinceIsAfter(a: seq<Writing>, b: seq<Writing>, key: string)
    requires a != [] && a[|a| - 1].key == key
    ensures Since(a + b, key) <= KeysOf(b) - {key} && key in KeysOf(a + b)
    decreases |b|
  {
    assert (a + b)[|a| - 1] == a[|a| - 1];
    if b == [] {
      assert a + b == a;
    } else {
      var n := |b| - 1;
      assert (a + b)[..|a| + n] == a + b[..n];
      SinceIsAfter(a, b[..n], key);
    }
  }

  lemma {:induction false} FewerWrites(writes: seq<Writing>, more: seq<Writing>)
    requires LaterEachTime(writes + more)
    ensures LaterEachTime(writes)
  {
    forall i, j | 0 <= i < j < |writes| ensures writes[i].entry.at < writes[j].entry.at {
      assert (writes + more)[i] == writes[i] && (writes + more)[j] == writes[j];
    }
  }

  /** On a clock that never goes back, a key's handler is called again only after
      two hundred other commands have been written: the whole protocol and the
      eviction together. */
  lemma TwoHundredOthersBetween(host: Host, run: seq<State>, events: seq<Event>, i: nat, j: nat,
                                key: string) returns (m: nat)
    requires IsRun(host, run, events) && run[0].records == map[] && i < j < |events|
    requires LaterEachTime(WritesIn(run, events, 0, |events|))
    requires Calls(run[i], events[i], key) && Calls(run[j], events[j], key)
    ensures i < m < j && |KeysOf(WritesIn(run, events, i, m)) - {key}| >= 200
  {
    hide Step, LaterEachTime, Replay, KeysOf, Since, WritesIn;
    m := AtMostOnce(host, run, events, i, j, key);
    RunWrites(host, run, events, m);
    WritesSplit(run, events, m, |events|);
    FewerWrites(WritesIn(run, events, 0, m), WritesIn(run, events, m, |events|));
    KeepsTheMostRecent(WritesIn(run, events, 0, m));
    WritesSplit(run, events, i, m);
    ReadyIsWritten(host, run, events, i);
    SinceIsAfter(WritesIn(run, events, 0, i), WritesIn(run, events, i, m), key);
    SmallerSet(Since(WritesIn(run, events, 0, m), key), KeysOf(WritesIn(run, events, i, m)) - {key});
  }
}
