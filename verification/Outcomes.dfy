/** Where every result of a command comes from (apps/player-web/src/commands.ts): what
    is stored and reported is what the handler returned, what a provider answered, what
    was known already, or that nobody has the command. */
module Outcomes {
  import opened Text
  import opened Commands
  import opened Runner

  /** The record of a command's key is read, and there is none. */
  ghost predicate LooksInVain(run: seq<State>, events: seq<Event>, l: nat, command: Command)
    requires l < |events| < |run|
  {
    run[l].phase == Looking(command) && events[l] == Look && command.key !in run[l].records
  }

  /** Its own handler is called after a step and returns the result before another. */
  ghost predicate Returns(run: seq<State>, events: seq<Event>, l: nat, n: nat, command: Command, result: CommandResult)
    requires n <= |events| < |run|
  {
    exists c, q | l < c < q < n ::
      && Calls(run[c], events[c], command.key) && run[c].phase == Ready(command)
      && run[q].phase == Handling(command) && events[q] == Handled(result)
  }

  /** The providers answer with it, or none of them has the command. */
  ghost predicate Answers(run: seq<State>, events: seq<Event>, l: nat, n: nat, command: Command, result: CommandResult)
    requires n <= |events| < |run|
  {
    exists q | l < q < n ::
      && run[q].phase == Routing(command) && events[q].Routed?
      && if events[q].answer.Some? then result == events[q].answer.value else Refuses(result)
  }

  predicate Refuses(result: CommandResult) { !result.success && result.code == "unsupported_command" }

  /** What was known of a key when it was looked up: its result, or that it was cut
      short. */
  ghost predicate Knew(s: State, key: string, result: CommandResult) {
    key in s.records
    && if s.records[key].status == Done then s.records[key].outcome == Some(result)
       else !result.success && result.code == "interrupted"
  }

  /** The result of a command in hand at a step, looked up at an earlier one. */
  ghost predicate Accounts(host: Host, run: seq<State>, events: seq<Event>, l: nat, n: nat, command: Command,
                           result: CommandResult)
    requires l < n <= |events| < |run|
  {
    if LooksInVain(run, events, l, command) then
      if host.handled(command.kind) then Returns(run, events, l, n, command, result)
      else if host.providers then Answers(run, events, l, n, command, result)
      else Refuses(result)
    else run[l].phase == Looking(command) && events[l] == Look && Knew(run[l], command.key, result)
  }

  /** A command in hand, since it was looked up. */
  ghost predicate Traces(host: Host, run: seq<State>, events: seq<Event>, l: nat, n: nat)
    requires l < n <= |events| < |run|
  {
    match run[n].phase
    case Idle => false
    case Looking(_) => false
    case Acknowledging(c) => LooksInVain(run, events, l, c)
    case Routing(c) => LooksInVain(run, events, l, c) && host.providers && !host.handled(c.kind)
    case Starting(c) => LooksInVain(run, events, l, c) && host.handled(c.kind)
    case Ready(c) => LooksInVain(run, events, l, c) && host.handled(c.kind)
    case Handling(c) => LooksInVain(run, events, l, c) && host.handled(c.kind)
      && exists i | l < i < n :: Calls(run[i], events[i], c.key) && run[i].phase == Ready(c)
    case Storing(c, _, result) => Accounts(host, run, events, l, n, c, result)
    case Reporting(c, result) => Accounts(host, run, events, l, n, c, result)
  }

  lemma AccountsStill(host: Host, run: seq<State>, events: seq<Event>, l: nat, n: nat, command: Command,
                      result: CommandResult)
    requires l < n < |events| < |run| && Accounts(host, run, events, l, n, command, result)
    ensures Accounts(host, run, events, l, n + 1, command, result)
  {
    hide LooksInVain, Knew, Refuses;
    if LooksInVain(run, events, l, command) {
      if host.handled(command.kind) {
        var c, q :| l < c < q < n && Calls(run[c], events[c], command.key) && run[c].phase == Ready(command)
          && run[q].phase == Handling(command) && events[q] == Handled(result);
        assert Returns(run, events, l, n + 1, command, result);
      } else if host.providers {
        var q :| l < q < n && run[q].phase == Routing(command) && events[q].Routed?
          && if events[q].answer.Some? then result == events[q].answer.value else Refuses(result);
        assert Answers(run, events, l, n + 1, command, result);
      }
    }
  }

  /** What is in hand was looked up, and nothing else has been in hand since. */
  lemma {:induction false} InHand(host: Host, run: seq<State>, events: seq<Event>, n: nat) returns (l: nat)
    requires IsRun(host, run, events) && n <= |events| && !run[n].phase.Idle? && !run[n].phase.Looking?
    ensures l < n && Traces(host, run, events, l, n)
  {
    hide Step, Traces;
    assert run[n - 1 + 1] == run[n];
    var s := run[n - 1];
    NotFromIdle(host, s, events[n - 1]);
    if s.phase.Looking? {
      l := n - 1;
      RunAgrees(host, run, events, n - 1);
      LookedUpNow(host, run, events, n - 1);
    } else {
      l := InHand(host, run, events, n - 1);
      NextInHand(host, run, events, l, n - 1);
    }
  }

  lemma NotFromIdle(host: Host, s: State, e: Event)
    ensures s.phase.Idle? ==> var p := Step(host, s, e).phase; p.Idle? || p.Looking?
  {
  }

  lemma LookedUpNow(host: Host, run: seq<State>, events: seq<Event>, n: nat)
    requires IsRun(host, run, events) && n < |events| && run[n].phase.Looking? && Agrees(run[n])
    requires !run[n + 1].phase.Idle? && !run[n + 1].phase.Looking?
    ensures Traces(host, run, events, n, n + 1)
  {
    hide Put;
    assert run[n + 1] == Step(host, run[n], events[n]);
  }

  lemma NextInHand(host: Host, run: seq<State>, events: seq<Event>, l: nat, n: nat)
    requires IsRun(host, run, events) && l < n < |events| && Traces(host, run, events, l, n)
    requires !run[n + 1].phase.Idle? && !run[n + 1].phase.Looking?
    ensures Traces(host, run, events, l, n + 1)
  {
    hide Put, Accounts, LooksInVain;
    var s, t := run[n], run[n + 1];
    assert t == Step(host, s, events[n]);
    match s.phase
    case Storing(c, _, result) => AccountsStill(host, run, events, l, n, c, result);
    case Reporting(c, result) => AccountsStill(host, run, events, l, n, c, result);
    case Handling(c) => ReturnsNow(host, run, events, l, n);
    case Routing(c) => AnswersNow(host, run, events, l, n);
    case Acknowledging(c) => AcknowledgedNow(host, run, events, l, n);
    case _ =>
  }

  lemma ReturnsNow(host: Host, run: seq<State>, events: seq<Event>, l: nat, n: nat)
    requires IsRun(host, run, events) && l < n < |events| && run[n].phase.Handling?
    requires Traces(host, run, events, l, n) && !run[n + 1].phase.Idle?
    ensures Traces(host, run, events, l, n + 1)
  {
    hide Put, LooksInVain;
    assert run[n + 1] == Step(host, run[n], events[n]);
    var command := run[n].phase.command;
    var i :| l < i < n && Calls(run[i], events[i], command.key) && run[i].phase == Ready(command);
    if events[n].Handled? {
      assert Returns(run, events, l, n + 1, command, events[n].result);
    }
  }

  lemma AnswersNow(host: Host, run: seq<State>, events: seq<Event>, l: nat, n: nat)
    requires IsRun(host, run, events) && l < n < |events| && run[n].phase.Routing?
    requires Traces(host, run, events, l, n) && !run[n + 1].phase.Idle?
    ensures Traces(host, run, events, l, n + 1)
  {
    hide Put, LooksInVain;
    assert run[n + 1] == Step(host, run[n], events[n]);
    if events[n].Routed? {
      assert Answers(run, events, l, n + 1, run[n].phase.command, run[n + 1].phase.result);
    }
  }

  lemma AcknowledgedNow(host: Host, run: seq<State>, events: seq<Event>, l: nat, n: nat)
    requires IsRun(host, run, events) && l < n < |events| && run[n].phase.Acknowledging?
    requires Traces(host, run, events, l, n) && !run[n + 1].phase.Idle?
    ensures Traces(host, run, events, l, n + 1)
  {
    hide Put;
    assert run[n + 1] == Step(host, run[n], events[n]);
  }

  // ---- the theorems ---------------------------------------------------------------------------

  /** What is about to be stored or reported for a command is what was known of its key
      when it was looked up; or, where nothing was, what its handler returned, what a
      provider answered, or, exactly where there is no handler and no provider
      answered, that it is not supported. */
  lemma ReportedIsAccounted(host: Host, run: seq<State>, events: seq<Event>, n: nat) returns (l: nat)
    requires IsRun(host, run, events) && n <= |events| && (run[n].phase.Storing? || run[n].phase.Reporting?)
    ensures l < n && Accounts(host, run, events, l, n, run[n].phase.command, run[n].phase.result)
  {
    hide Step, Accounts;
    l := InHand(host, run, events, n);
  }

  /** A result a key is stored with. */
  predicate StoredAs(records: Records, key: string, result: CommandResult) {
    key in records && records[key].status == Done && records[key].outcome == Some(result)
  }

  lemma StoresOnly(host: Host, s: State, e: Event, key: string, result: CommandResult)
    requires StoredAs(Step(host, s, e).records, key, result)
    ensures StoredAs(s.records, key, result)
      || (s.phase.Storing? && s.phase.command.key == key && s.phase.result == result && e.Written?)
  {
    hide Newer, Older;
  }

  /** And every result stored was stored for its command, and so accounted for, unless
      the store held it when the run began. */
  lemma {:induction false} StoredIsAccounted(host: Host, run: seq<State>, events: seq<Event>, n: nat, key: string,
                                             result: CommandResult)
    requires IsRun(host, run, events) && n <= |events| && StoredAs(run[n].records, key, result)
    ensures StoredAs(run[0].records, key, result) || exists w, l | 0 <= l < w < n ::
      && run[w].phase.Storing? && run[w].phase.command.key == key && events[w].Written?
      && Accounts(host, run, events, l, w, run[w].phase.command, result)
  {
    hide Step, Accounts, StoredAs;
    if n > 0 {
      assert run[n - 1 + 1] == run[n];
      StoresOnly(host, run[n - 1], events[n - 1], key, result);
      if StoredAs(run[n - 1].records, key, result) {
        StoredIsAccounted(host, run, events, n - 1, key, result);
      } else {
        var l := ReportedIsAccounted(host, run, events, n - 1);
      }
    }
  }

  /** A handler is called only for a command that has one, and providers are asked
      only about one that has none. */
  lemma CalledRightly(host: Host, run: seq<State>, events: seq<Event>, n: nat)
    requires IsRun(host, run, events) && n <= |events|
    ensures run[n].phase.Ready? || run[n].phase.Handling? ==> host.handled(run[n].phase.command.kind)
    ensures run[n].phase.Routing? ==> host.providers && !host.handled(run[n].phase.command.kind)
  {
    hide Step, Accounts, LooksInVain;
    if run[n].phase.Ready? || run[n].phase.Handling? || run[n].phase.Routing? {
      var l := InHand(host, run, events, n);
    }
  }

  predicate StoredFor(records: Records, key: string, id: string, kind: string) {
    key in records && records[key].commandId == id && records[key].kind == kind
  }

  /** The command in hand will be stored under the identity its key has, if it has one. */
  ghost predicate KeepsIdentity(s: State, key: string, id: string, kind: string) {
    && StoredFor(s.records, key, id, kind)
    && match s.phase
       case Acknowledging(c) => c.key != key
       case Routing(c) => c.key != key
       case Starting(c) => c.key != key
       case Ready(c) => c.key == key ==> c.id == id && c.kind == kind
       case Handling(c) => c.key == key ==> c.id == id && c.kind == kind
       case Storing(c, named, _) => c.key == key ==> named.id == id && named.kind == kind
       case _ => true
  }

  lemma StepKeepsIdentity(host: Host, s: State, e: Event, key: string, id: string, kind: string)
    requires Agrees(s) && KeepsIdentity(s, key, id, kind) && key in Step(host, s, e).records
    ensures KeepsIdentity(Step(host, s, e), key, id, kind)
  {
    hide Newer, Older;
  }

  lemma NewlyStored(host: Host, s: State, e: Event, key: string)
    requires Agrees(s) && key !in s.records && key in Step(host, s, e).records
    ensures var t := Step(host, s, e); KeepsIdentity(t, key, t.records[key].commandId, t.records[key].kind)
  {
    hide Newer, Older;
  }

  lemma {:induction false} Identified(host: Host, run: seq<State>, events: seq<Event>, n: nat, key: string)
    requires IsRun(host, run, events) && n <= |events| && key in run[n].records
    ensures KeepsIdentity(run[n], key, run[n].records[key].commandId, run[n].records[key].kind)
  {
    hide Step, Agrees;
    if n > 0 {
      assert run[n - 1 + 1] == run[n];
      RunAgrees(host, run, events, n - 1);
      if key in run[n - 1].records {
        var was := run[n - 1].records[key];
        Identified(host, run, events, n - 1, key);
        StepKeepsIdentity(host, run[n - 1], events[n - 1], key, was.commandId, was.kind);
      } else {
        NewlyStored(host, run[n - 1], events[n - 1], key);
      }
    }
  }

  /** A key keeps the command it was first stored for, through reloads and whatever
      command repeats the key, as long as it is remembered. */
  lemma {:induction false} StoredForTheFirst(host: Host, run: seq<State>, events: seq<Event>, i: nat, j: nat,
                                             key: string)
    requires IsRun(host, run, events) && i <= j <= |events|
    requires forall n | i <= n <= j :: key in run[n].records
    ensures run[j].records[key].commandId == run[i].records[key].commandId
    ensures run[j].records[key].kind == run[i].records[key].kind
    decreases j - i
  {
    hide Step, Agrees, KeepsIdentity;
    if i < j {
      StoredForTheFirst(host, run, events, i, j - 1, key);
      RunAgrees(host, run, events, j - 1);
      Identified(host, run, events, j - 1, key);
      assert run[j - 1 + 1] == run[j];
      var was := run[j - 1].records[key];
      StepKeepsIdentity(host, run[j - 1], events[j - 1], key, was.commandId, was.kind);
      Kept(run[j], key, was.commandId, was.kind);
    }
  }

  lemma Kept(s: State, key: string, id: string, kind: string)
    requires KeepsIdentity(s, key, id, kind)
    ensures key in s.records && s.records[key].commandId == id && s.records[key].kind == kind
  {
  }
}
