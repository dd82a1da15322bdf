/** Bringing a Browser Player in line with the server's selection
    (apps/player-web/src/reconcile.ts): what is remembered between reconciliations,
    and what a failure at each stage leaves behind. */
module Reconcile {
  import opened Text

  /** An activation: prepared content for one binding, numbered as it was committed. */
  datatype Activation = Activation(id: string, generation: nat, binding: string)

  /** The versions an activation was planned from, and the plan. */
  datatype Basis = Basis(manifestVersion: int, configRevision: int, plan: string)

  /** `key` is None where nothing accepted still stands. */
  datatype Memory = Memory(key: Option<string>, generation: nat, validUntilMs: Option<int>, clockOffsetMs: real,
                           basis: Option<Basis>)

  /** What the server answered, as it was received and planned: the manifest's time,
      this clock when the last answer was there, and this clock when the plan was. */
  datatype Reply = Reply(serverTimeMs: int, receivedMs: int, key: string, nowMs: int, validUntilMs: Option<int>,
                         basis: Basis)

  /** The same, with the offset of the server's clock. */
  datatype Answer = Answer(key: string, nowMs: int, clockOffsetMs: real, validUntilMs: Option<int>, basis: Basis)

  /** The server is taken to have read its clock midway between asking and answering. */
  function OffsetMs(askedMs: int, receivedMs: int, serverTimeMs: int): real {
    serverTimeMs as real - (askedMs + receivedMs) as real / 2.0
  }

  /** The time of the plan by the server's clock, as far as the answer shows it. */
  function CorrectedMs(askedMs: int, reply: Reply): real {
    reply.serverTimeMs as real + (reply.nowMs as real - (askedMs + reply.receivedMs) as real / 2.0)
  }

  function Planned(askedMs: int, reply: Reply): Answer {
    Answer(reply.key, reply.nowMs, OffsetMs(askedMs, reply.receivedMs, reply.serverTimeMs), reply.validUntilMs,
           reply.basis)
  }

  /** The same inputs, still inside their time. */
  predicate StillStands(memory: Memory, answer: Answer) {
    && memory.key == Some(answer.key)
    && (memory.validUntilMs.None? || answer.nowMs as real + answer.clockOffsetMs < memory.validUntilMs.value as real)
  }

  function Raised(memory: Memory): Memory { memory.(generation := memory.generation + 1) }

  function Accepted(memory: Memory, answer: Answer): Memory {
    Memory(Some(answer.key), memory.generation, answer.validUntilMs, answer.clockOffsetMs, Some(answer.basis))
  }

  datatype Outcome = Unchanged | Changed(activation: Activation)

  datatype Failed = NotAnswered | NotPrepared | NotCommitted | NotReleased

  /** What each stage does in one reconciliation: the server's answers, preparing the
      resources, committing, and releasing the pins held meanwhile. */
  datatype Stages = Stages(reply: Option<Reply>, prepares: bool, commits: bool, releases: bool)

  /** The page's memory and the committed activation on disk. */
  class Store {
    var key: Option<string>
    var generation: nat
    var validUntilMs: Option<int>
    var clockOffsetMs: real
    var basis: Option<Basis>
    var committed: Option<Activation>

    function Recall(): Memory
      reads this
    {
      Memory(key, generation, validUntilMs, clockOffsetMs, basis)
    }

    constructor (memory: Memory, committed: Option<Activation>)
      ensures Recall() == memory && this.committed == committed
    {
      key, generation := memory.key, memory.generation;
      validUntilMs, clockOffsetMs, basis := memory.validUntilMs, memory.clockOffsetMs, memory.basis;
      this.committed := committed;
    }

    /** What a reconciliation that committed remembers. */
    method Remember(answer: Answer)
      modifies this`key, this`validUntilMs, this`clockOffsetMs, this`basis
      ensures Recall() == Accepted(old(Recall()), answer)
      ensures answer.validUntilMs.None? ==> StillStands(Recall(), answer)
    {
      key := Some(answer.key);
      validUntilMs := answer.validUntilMs;
      clockOffsetMs := answer.clockOffsetMs;
      basis := Some(answer.basis);
    }

    /** A key that is empty never stands, so a success after it commits a new
        activation. A failure leaves everything as it was, except that a commit is
        not undone when releasing fails: then the activation on disk is the new one
        and its number is taken, though the call fails. */
    method ReconcileSelection(askedMs: int, stages: Stages, id: string,
                              binding: string) returns (r: Result<Outcome, Failed>)
      modifies this
      ensures r.Ok? <==> stages.reply.Some? && (StillStands(old(Recall()), Planned(askedMs, stages.reply.value))
                                               || (stages.prepares && stages.commits && stages.releases))
      ensures r.Ok? ==> (r.value.Unchanged? <==> StillStands(old(Recall()), Planned(askedMs, stages.reply.value)))
      ensures stages.reply.Some? ==> (r == Ok(Unchanged) <==>
        && old(key) == Some(stages.reply.value.key)
        && (old(validUntilMs).Some? ==> CorrectedMs(askedMs, stages.reply.value) < old(validUntilMs).value as real))
      ensures r == Ok(Unchanged) ==> old(key).Some? && Recall() == old(Recall()) && committed == old(committed)
      ensures r.Ok? && r.value.Changed? ==>
        && r.value.activation == Activation(id, old(generation) + 1, binding) && committed == Some(r.value.activation)
        && Recall() == Accepted(Raised(old(Recall())), Planned(askedMs, stages.reply.value))
      ensures r.Ok? && r.value.Changed? ==>
        key == Some(stages.reply.value.key) && validUntilMs == stages.reply.value.validUntilMs
        && basis == Some(stages.reply.value.basis)
      ensures r.Ok? && old(key).None? ==> r.value.Changed?
      ensures r.Err? && r.error != NotReleased ==> Recall() == old(Recall()) && committed == old(committed)
      ensures r == Err(NotReleased) ==>
        Recall() == Raised(old(Recall())) && committed == Some(Activation(id, old(generation) + 1, binding))
      ensures r == Err(NotReleased) <==>
        stages.reply.Some? && !StillStands(old(Recall()), Planned(askedMs, stages.reply.value))
        && stages.prepares && stages.commits && !stages.releases
    {
      if stages.reply.None? {
        return Err(NotAnswered);
      }
      var answer := Planned(askedMs, stages.reply.value);
      if StillStands(Recall(), answer) {
        return Ok(Unchanged);
      }
      if !stages.prepares {
        return Err(NotPrepared);
      }
      if !stages.commits {
        return Err(NotCommitted);
      }
      var next := generation + 1;
      var activation := Activation(id, next, binding);
      committed := Some(activation);
      generation := next;
      if !stages.releases {
        return Err(NotReleased);
      }
      Remember(answer);
      r := Ok(Changed(activation));
    }
  }
}
