/**
 One actor's admission loop. Invocations run one at a time until the actor allows the next one
 in; from then on they overlap, and their outcomes commit in the sequence the actor assigned.
 */
module Admission {
  import opened Names
  import opened Snapshots
  import opened ActorRuntime

  datatype Outcome =
    | Interleaved(sequence: nat, result: Json, state: Json, notifies: bool)
    | Finished(executed: Execution)
    | Rejected

  /** An interleaved outcome with the invocation it belongs to. */
  datatype Ready = Ready(id: nat, requestId: string, attribution: Json, outcome: Outcome)

  /** What the caller of an invocation is told. */
  datatype Sent = Sent(id: nat, reply: Reply)

  /** The outcome with number `n` committed, and its caller was told its result. */
  predicate ToldOf(entry: Ready, n: nat, waiting: map<nat, Ready>, sent: Sent) {
    && n in waiting && entry == waiting[n] && entry.outcome.Interleaved?
    && sent == Sent(entry.id, Completed(entry.outcome.result))
  }

  /** So for all since `start`, in sequence; one whose commit failed is told so, and stops the actor. */
  predicate Told(history: seq<Ready>, stopped: bool, replies: seq<Sent>, waiting: map<nat, Ready>, start: nat) {
    && start <= |history| && |replies| == |history| - start + (if stopped then 1 else 0)
    && (forall k :: start <= k < |history| ==> ToldOf(history[k], k + 1, waiting, replies[k - start]))
    && (stopped ==> |history| + 1 in waiting && replies[|history| - start] == Sent(waiting[|history| + 1].id, Failed))
  }

  lemma ToldOneMore(history: seq<Ready>, replies: seq<Sent>, waiting: map<nat, Ready>, start: nat, next: Ready)
    requires Told(history, false, replies, waiting, start) && |history| + 1 in waiting
    requires next == waiting[|history| + 1] && next.outcome.Interleaved?
    ensures Told(history + [next], false, replies + [Sent(next.id, Completed(next.outcome.result))], waiting, start)
    ensures Told(history, true, replies + [Sent(next.id, Failed)], waiting, start)
  {
    var (more, told) := (history + [next], replies + [Sent(next.id, Completed(next.outcome.result))]);
    forall k | start <= k < |more| ensures ToldOf(more[k], k + 1, waiting, told[k - start]) {
      if k < |history| {
        assert ToldOf(history[k], k + 1, waiting, replies[k - start]);
      }
    }
    var failed := replies + [Sent(next.id, Failed)];
    forall k | start <= k < |history| ensures ToldOf(history[k], k + 1, waiting, failed[k - start]) {
      assert ToldOf(history[k], k + 1, waiting, replies[k - start]);
    }
  }

  /** What has committed has the numbers 1, 2, 3, ...; what waits has later ones, each under its own. */
  predicate QueueOk(ready: map<nat, Ready>, history: seq<Ready>, nextSequence: nat) {
    && (forall n :: n in ready ==> n >= nextSequence && ready[n].outcome.Interleaved? && ready[n].outcome.sequence == n)
    && nextSequence == |history| + 1
    && (forall k :: 0 <= k < |history| ==> history[k].outcome.Interleaved? && history[k].outcome.sequence == k + 1)
  }

  /** Everything that waited has committed or still waits, as it was. */
  predicate Kept(before: map<nat, Ready>, after: map<nat, Ready>, history: seq<Ready>) {
    forall n :: n in before ==> if 0 < n <= |history| then history[n - 1] == before[n] else n in after && after[n] == before[n]
  }

  lemma KeptOn(before: map<nat, Ready>, ready: map<nat, Ready>, history: seq<Ready>)
    requires Kept(before, ready, history) && |history| + 1 in ready && ready.Keys <= before.Keys
    ensures |history| + 1 in before && before[|history| + 1] == ready[|history| + 1]
    ensures Kept(before, ready - {|history| + 1}, history + [ready[|history| + 1]])
  {
  }

  /** The next invocation is held up as before, until the caller of the one that holds it up was answered. */
  predicate Freed(before: Option<nat>, after: Option<nat>, replies: seq<Sent>) {
    after == if before.Some? && exists k :: 0 <= k < |replies| && replies[k].reply.Completed? && replies[k].id == before.value
             then None else before
  }

  lemma FreedOneMore(before: Option<nat>, middle: Option<nat>, after: Option<nat>, replies: seq<Sent>, sent: Sent)
    requires Freed(before, middle, replies)
    requires after == if sent.reply.Completed? && middle == Some(sent.id) then None else middle
    ensures Freed(before, after, replies + [sent])
  {
    var more := replies + [sent];
    assert more[|replies|] == sent && forall k :: 0 <= k < |replies| ==> more[k] == replies[k];
  }

  lemma QueueMoves(ready: map<nat, Ready>, history: seq<Ready>, nextSequence: nat)
    requires QueueOk(ready, history, nextSequence) && nextSequence in ready
    ensures QueueOk(ready - {nextSequence}, history, nextSequence)
    ensures QueueOk(ready - {nextSequence}, history + [ready[nextSequence]], nextSequence + 1)
  {
  }

  class Mailbox {
    const runtime: Runtime
    var running: set<nat>
    var ready: map<nat, Ready>
    var nextSequence: nat
    var nextInvocation: nat
    var blockedOn: Option<nat>
    var interleaved: bool
    var stopped: bool
    // The outcomes committed so far, in order.
    ghost var history: seq<Ready>

    ghost predicate Core()
      reads this, runtime
    {
      && runtime.Valid()
      && (forall id :: id in running ==> id <= nextInvocation)
      && (!interleaved ==> ready == map[])
      && (!interleaved ==> running == if blockedOn.Some? then {blockedOn.value} else {})
      && (!stopped && (interleaved || running != {}) ==>
            runtime.cached.Some? && runtime.cached.value.pending.None?)
      && QueueOk(ready, history, nextSequence)
      && (!interleaved ==> history == [])
      && (history != [] && !stopped ==> runtime.cached.value.state == Some(history[|history| - 1].outcome.state))
    }

    ghost predicate Valid()
      reads this, runtime
    {
      Core() && (!stopped ==> nextSequence !in ready)
    }

    constructor (runtime: Runtime)
      requires runtime.Valid()
      ensures this.runtime == runtime && Valid() && !stopped && history == []
    {
      this.runtime := runtime;
      running, ready, nextSequence, nextInvocation := {}, map[], 1, 0;
      blockedOn, interleaved, stopped, history := None, false, false, [];
    }

    /** The actor allowed the next invocation in while one is running. */
    method Permit()
      requires Valid() && !stopped && blockedOn.Some?
      modifies this
      ensures Valid() && !stopped && blockedOn.None? && interleaved
      ensures running == old(running) && history == old(history)
    {
      interleaved := true;
      blockedOn := None;
    }

    /** A repeated request whose write is still open when it is admitted, and becomes durable too late. */
    predicate AnsweredLate(requestId: string, replay: bool, o: Outside)
      reads runtime
    {
      && runtime.authority && replay && runtime.Repeats(requestId) && (runtime.cached.Some? || o.loads)
      && !Settled(runtime.Current().value) && Resolves(runtime.Current().value, o) && o.lapses
    }

    /**
     Resolves what is pending, then starts the invocation or answers it at once. A completed answer
     is for durable state; it is one the protocol knows unless authority lapsed during the write.
     */
    method Admit(requestId: string, replay: bool, o: Outside) returns (reply: Option<Reply>)
      requires Valid() && !stopped && blockedOn.None?
      modifies this, runtime
      ensures Valid()
      ensures reply.None? ==> !stopped && blockedOn.Some? && running == old(running) + {blockedOn.value}
                              && blockedOn.value !in old(running)
      ensures reply.Some? ==> running == old(running)
      ensures stopped ==> reply == Some(Failed)
      ensures history == old(history)
      ensures reply.Some? && reply.value.Completed? ==>
                && old(runtime.Repeats(requestId))
                && Some(reply.value.result) == old(LatestResult(runtime.Current().value))
                && runtime.trace.ledger.committed == runtime.trace.ledger.last
                && runtime.trace.executions == old(runtime.trace.executions)
      ensures (reply.Some? && reply.value.Completed? && !runtime.Backed()) <==> old(AnsweredLate(requestId, replay, o))
    {
      var prepared := runtime.Prepare(requestId, replay, o);
      if prepared.Answered? {
        if prepared.reply == HostError {
          stopped := true;
          return Some(Failed);
        }
        return Some(prepared.reply);
      }
      Start();
      reply := None;
    }

    /** An invocation runs under a number never used before, and holds up the next. */
    method Start()
      requires Valid() && !stopped && blockedOn.None? && runtime.cached.Some? && runtime.cached.value.pending.None?
      modifies this`nextInvocation, this`blockedOn, this`running
      ensures Valid() && blockedOn.Some? && blockedOn.value !in old(running)
      ensures running == old(running) + {blockedOn.value}
    {
      nextInvocation := nextInvocation + 1;
      blockedOn := Some(nextInvocation);
      running := running + {nextInvocation};
    }

    /** Commits the outcome whose turn it is, with its own state, and reports its own result; a failure stops the actor. */
    method CommitNext(o: Outside) returns (sent: Sent)
      requires Core() && !stopped && interleaved && nextSequence in ready
      modifies this, runtime
      ensures Core() && interleaved && running == old(running)
      ensures ready == old(ready) - {old(nextSequence)}
      ensures sent.id == old(ready)[old(nextSequence)].id && sent.reply.Completed? == !stopped && (stopped ==> sent.reply == Failed)
      ensures history == if stopped then old(history) else old(history) + [old(ready)[old(nextSequence)]]
      ensures blockedOn == if sent.reply.Completed? && old(blockedOn) == Some(sent.id) then None else old(blockedOn)
      ensures sent.reply.Completed? <==> Commits(old(runtime.authority), old(runtime.cached).value, old(ready)[old(nextSequence)], o)
      ensures sent.reply.Completed? ==>
                && var next := old(ready)[old(nextSequence)];
                && runtime.Backed() && sent.reply.result == next.outcome.result
                && runtime.cached.value.state == Some(next.outcome.state)
      ensures runtime.trace.ledger.issued != old(runtime.trace.ledger.issued) ==>
                && var next := old(ready)[old(nextSequence)];
                Records(old(runtime.trace.ledger.issued), runtime.trace.ledger.issued, old(runtime.cached).value.version + 1,
                        next.requestId, next.outcome.result, next.outcome.state, next.attribution)
      ensures sent.reply.Completed? && old(runtime.cached).value.state != Some(old(ready)[old(nextSequence)].outcome.state) ==>
                runtime.cached.value.lastRequest == Some(old(ready)[old(nextSequence)].requestId)
    {
      var next := ready[nextSequence];
      QueueMoves(ready, history, nextSequence);
      ready := ready - {nextSequence};
      var outcome := next.outcome;
      var reply :=
        runtime.CommitInterleaved(next.requestId, outcome.result, outcome.state, outcome.notifies, next.attribution, o);
      if !reply.Completed? {
        stopped := true;
        return Sent(next.id, Failed);
      }
      history := history + [next];
      nextSequence := nextSequence + 1;
      Release(next.id);
      sent := Sent(next.id, reply);
    }

    static predicate Commits(authority: bool, c: Cached, next: Ready, o: Outside)
      requires next.outcome.Interleaved?
    {
      CompletesWith(authority, c, next.requestId, Returned(next.outcome.result, next.outcome.state, next.outcome.notifies), o)
    }

    /** Commits every outcome whose turn has come, in sequence. */
    method CommitReady(o: nat -> Outside) returns (replies: seq<Sent>)
      requires Core() && !stopped && interleaved
      modifies this, runtime
      ensures Valid() && old(history) <= history && running == old(running)
      ensures Told(history, stopped, replies, old(ready), |old(history)|) && Freed(old(blockedOn), blockedOn, replies)
      ensures !stopped ==> Kept(old(ready), ready, history)
    {
      replies := [];
      while nextSequence in ready
        invariant Core() && !stopped && interleaved && old(history) <= history && running == old(running)
        invariant Told(history, stopped, replies, old(ready), |old(history)|) && Freed(old(blockedOn), blockedOn, replies)
        invariant ready.Keys <= old(ready).Keys && Kept(old(ready), ready, history)
        decreases |ready|
      {
        replies := CommitTurn(replies, old(ready), |old(history)|, old(blockedOn), o(nextSequence));
        if stopped {
          return;
        }
      }
    }

    method CommitTurn(
        told: seq<Sent>, ghost waiting: map<nat, Ready>, ghost start: nat, ghost blocked: Option<nat>, o: Outside)
        returns (replies: seq<Sent>)
      requires Core() && !stopped && interleaved && nextSequence in ready
      requires ready.Keys <= waiting.Keys && Kept(waiting, ready, history) && Told(history, false, told, waiting, start)
      requires Freed(blocked, blockedOn, told)
      modifies this, runtime
      ensures Core() && interleaved && running == old(running) && old(history) <= history && |ready| < |old(ready)|
      ensures ready.Keys <= waiting.Keys && Told(history, stopped, replies, waiting, start)
      ensures Freed(blocked, blockedOn, replies)
      ensures !stopped ==> Kept(waiting, ready, history)
    {
      KeptOn(waiting, ready, history);
      ToldOneMore(history, told, waiting, start, ready[nextSequence]);
      assert ready.Keys == (ready - {nextSequence}).Keys + {nextSequence};
      var sent := CommitNext(o);
      replies := told + [sent];
      FreedOneMore(blocked, old(blockedOn), blockedOn, told, sent);
    }

    method Commit(next: Ready, o: nat -> Outside) returns (replies: seq<Sent>)
      requires Core() && !stopped && interleaved && next.outcome.Interleaved?
      requires nextSequence <= next.outcome.sequence && next.outcome.sequence !in ready
      modifies this, runtime
      ensures Valid() && old(history) <= history && running == old(running)
      ensures Told(history, stopped, replies, old(ready)[next.outcome.sequence := next], |old(history)|)
      ensures Freed(old(blockedOn), blockedOn, replies)
      ensures !stopped ==>
                if next.outcome.sequence <= |history| then history[next.outcome.sequence - 1] == next
                else next.outcome.sequence in ready && ready[next.outcome.sequence] == next
    {
      ready := ready[next.outcome.sequence := next];
      replies := CommitReady(o);
    }

    /**
     An invocation finished. A serial outcome commits at once; an interleaved one waits for its
     turn. Either way nothing is pending when a commit starts, every caller is told the result of its
     own execution, and anything that leaves a commit unresolved between overlapping invocations
     stops the actor.
     */
    method Executed(done: Ready, o: nat -> Outside) returns (replies: seq<Sent>)
      requires Valid() && !stopped && done.id in running
      modifies this, runtime
      ensures Valid() && old(history) <= history && running == old(running) - {done.id}
      ensures done.outcome.Interleaved? && (done.outcome.sequence <= |old(history)| || done.outcome.sequence in old(ready)) ==>
                stopped && replies == [Sent(done.id, Failed)] && history == old(history)
      ensures done.outcome.Interleaved? && !(done.outcome.sequence <= |old(history)| || done.outcome.sequence in old(ready)) ==>
                && Told(history, stopped, replies, old(ready)[done.outcome.sequence := done], |old(history)|)
                && Freed(old(blockedOn), blockedOn, replies)
                && (!stopped ==>
                      if done.outcome.sequence <= |history| then history[done.outcome.sequence - 1] == done
                      else done.outcome.sequence in ready && ready[done.outcome.sequence] == done)
      ensures !done.outcome.Interleaved? ==>
                && history == old(history) && |replies| == 1 && replies[0].id == done.id && ready == old(ready)
                && blockedOn == if old(blockedOn) == Some(done.id) then None else old(blockedOn)
      ensures !done.outcome.Interleaved? ==> (stopped <==> old(interleaved) && done.outcome.Finished?)
      ensures !done.outcome.Interleaved? ==>
                (replies[0].reply.Completed? <==>
                 Finishes(old(interleaved), old(runtime.authority), old(runtime.cached), done, o(0)))
      ensures !done.outcome.Interleaved? && runtime.trace.ledger.issued != old(runtime.trace.ledger.issued) ==>
                RecordsSerial(old(runtime.trace.ledger.issued), runtime.trace.ledger.issued, old(runtime.cached), done)
      ensures !done.outcome.Interleaved? && replies[0].reply.Completed? ==>
                && runtime.Backed() && replies[0].reply.result == done.outcome.executed.result
                && runtime.cached.value.state == Some(done.outcome.executed.state)
    {
      if !done.outcome.Interleaved? {
        var sent := FinishAlone(done, o(0));
        return [sent];
      }
      running := running - {done.id};
      interleaved := true;
      if done.outcome.sequence < nextSequence || done.outcome.sequence in ready {
        stopped := true;
        return [Sent(done.id, Failed)];
      }
      replies := Commit(done, o);
    }

    /** A serial outcome, which commits at once, or a rejection. */
    method FinishAlone(done: Ready, o: Outside) returns (sent: Sent)
      requires Valid() && !stopped && done.id in running && !done.outcome.Interleaved?
      modifies this, runtime
      ensures Valid() && running == old(running) - {done.id}
      ensures history == old(history) && sent.id == done.id && ready == old(ready)
      ensures blockedOn == if old(blockedOn) == Some(done.id) then None else old(blockedOn)
      ensures stopped <==> old(interleaved) && done.outcome.Finished?
      ensures sent.reply.Completed? <==> Finishes(old(interleaved), old(runtime.authority), old(runtime.cached), done, o)
      ensures sent.reply.Completed? ==>
                && runtime.Backed() && sent.reply.result == done.outcome.executed.result
                && runtime.cached.value.state == Some(done.outcome.executed.state)
      ensures runtime.trace.ledger.issued != old(runtime.trace.ledger.issued) ==>
                RecordsSerial(old(runtime.trace.ledger.issued), runtime.trace.ledger.issued, old(runtime.cached), done)
    {
      running := running - {done.id};
      var reply := Failed;
      if interleaved {
        stopped := done.outcome.Finished?;
      } else if done.outcome.Finished? {
        reply := runtime.FinishMethod(done.requestId, done.outcome.executed, done.attribution, o);
      }
      Release(done.id);
      sent := Sent(done.id, reply);
    }

    /** A serial call that returned completes as the runtime says. */
    static predicate Finishes(interleaved: bool, authority: bool, c: Option<Cached>, done: Ready, o: Outside) {
      && !interleaved && c.Some? && done.outcome.Finished? && done.outcome.executed.Returned?
      && CompletesWith(authority, c.value, done.requestId, done.outcome.executed, o)
    }

    /** The one version issued is that of this call. */
    static ghost predicate RecordsSerial(
        before: map<nat, Snapshot>, after: map<nat, Snapshot>, c: Option<Cached>, done: Ready)
    {
      && c.Some? && done.outcome.Finished? && done.outcome.executed.Returned?
      && Records(before, after, c.value.version + 1, done.requestId, done.outcome.executed.result,
                 done.outcome.executed.state, done.attribution)
    }

    method Release(id: nat)
      modifies this`blockedOn
      ensures blockedOn == if old(blockedOn) == Some(id) then None else old(blockedOn)
    {
      if blockedOn == Some(id) {
        blockedOn := None;
      }
    }
  }
}
