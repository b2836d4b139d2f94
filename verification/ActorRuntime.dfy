/**
 The host's commit machine for one actor under one owner epoch: cached state, at most one pending
 commit, ticket chaining and replay. Everything outside the runtime (storage, transport,
 JavaScript execution, socket publication, clock, authority) may fail at any call.
 */
module ActorRuntime {
  import opened Names
  import opened Snapshots

  /** A write ticket for one state version. */
  datatype Plan = Plan(version: nat, objectName: string, expires: int, stream: Stream)

  datatype Pending = Pending(snapshot: Snapshot, ticket: Plan, durable: bool)

  datatype Cached = Cached(
    epoch: nat, version: nat, state: Option<Json>, lastRequest: Option<string>, lastResult: Option<Json>,
    nextWrite: Option<Plan>, pending: Option<Pending>)

  datatype Reply = Completed(result: Json) | Failed | HostError

  datatype Execution = Returned(result: Json, state: Json, notifies: bool) | Threw

  datatype Prepared = Execute(state: Option<Json>) | Answered(reply: Reply)

  /**
   What the outside does during one call: whether the stored state loads, the clock, whether a
   ticket is granted, whether a write reports success, whether sockets are reached, and whether
   authority lapses during a write or before an answer.
   */
  datatype Outside = Outside(
    loads: bool, now: int, grants: bool, written: bool, publishes: bool, lapses: bool, fades: bool)

  const TICKET_SAFETY_MS: nat := 5000
  const TICKET_LIFETIME_MS: nat := 60000

  // ---- The writer's account ----

  datatype Step = Issues(s: Snapshot) | Commits | Answers | Lapses

  /** `last` is issued, `committed` is known durable, `answered` was reported while authority held. */
  datatype Ledger = Ledger(issued: map<nat, Snapshot>, last: nat, committed: nat, answered: nat, authority: bool)

  predicate CanTake(l: Ledger, step: Step) {
    match step
    case Issues(s) => l.committed == l.last && s.version == l.last + 1 < U64_LIMIT
    case Commits => l.committed < l.last
    case Answers => l.authority
    case Lapses => true
  }

  function Took(l: Ledger, step: Step): Ledger {
    match step
    case Issues(s) => l.(issued := l.issued[s.version := s], last := s.version)
    case Commits => l.(committed := l.last)
    case Answers => l.(answered := l.committed)
    case Lapses => l.(authority := false)
  }

  function Opening(start: nat): Ledger {
    Ledger(map[], start, start, start, true)
  }

  predicate Legal(start: nat, steps: seq<Step>) {
    steps == [] ||
    var n := |steps| - 1;
    Legal(start, steps[..n]) && CanTake(Replay(start, steps[..n]), steps[n])
  }

  function Replay(start: nat, steps: seq<Step>): Ledger {
    if steps == [] then Opening(start)
    else
      var n := |steps| - 1;
      Took(Replay(start, steps[..n]), steps[n])
  }

  lemma OneMore(start: nat, steps: seq<Step>, step: Step)
    requires Legal(start, steps) && CanTake(Replay(start, steps), step)
    ensures Legal(start, steps + [step]) && Replay(start, steps + [step]) == Took(Replay(start, steps), step)
  {
    assert (steps + [step])[..|steps|] == steps;
  }

  // ---- What the outside has seen ----

  datatype Attempt = Attempt(version: nat, objectName: string, bytes: Bytes)

  /**
   Everything the runtime has done since it loaded version `start`: the writer's steps with the
   account they add up to, every write attempt, executions, and the versions its automatic state
   notifications carried.
   */
  datatype Trace = Trace(
    start: nat, steps: seq<Step>, ledger: Ledger, attempts: seq<Attempt>, executions: nat, notified: seq<nat>)
  {
    function Take(step: Step): Trace {
      this.(steps := steps + [step], ledger := Took(ledger, step))
    }

    function Attempting(stream: Stream, s: Snapshot): Trace {
      this.(attempts := attempts + [Attempt(s.version, ObjectName(stream, s.version), Encoded(s))])
    }

    function Notify(): Trace {
      this.(notified := notified + [ledger.committed])
    }

    function Execute(): Trace {
      this.(executions := executions + 1)
    }
  }

  predicate AttemptOk(l: Ledger, stream: Stream, a: Attempt) {
    && a.version in l.issued
    && a.bytes == Encoded(l.issued[a.version])
    && a.objectName == ObjectName(stream, a.version)
  }

  ghost predicate LedgerOk(l: Ledger, start: nat, stream: Stream) {
    && start <= l.answered <= l.committed <= l.last <= l.committed + 1
    && l.last < U64_LIMIT
    && (forall v :: v in l.issued <==> start < v <= l.last)
    && (forall v :: v in l.issued ==> ValidSnapshot(l.issued[v]))
    && (forall v :: v in l.issued ==> l.issued[v].version == v && l.issued[v].epoch == stream.epoch)
  }

  /** The account is what the steps add up to, and nothing outside it was written or notified. */
  ghost predicate TraceOk(t: Trace, stream: Stream) {
    && LedgerOk(t.ledger, t.start, stream)
    && Legal(t.start, t.steps) && Replay(t.start, t.steps) == t.ledger
    && (forall i :: 0 <= i < |t.attempts| ==> AttemptOk(t.ledger, stream, t.attempts[i]))
    && (forall i :: 0 <= i < |t.notified| ==> t.notified[i] <= t.ledger.committed)
    && (forall i, j :: 0 <= i < j < |t.notified| ==> t.notified[i] <= t.notified[j])
  }

  /** Nothing that was issued, committed or answered is taken back; without authority nothing is answered. */
  ghost predicate LedgerGrows(a: Ledger, b: Ledger) {
    && a.last <= b.last && a.committed <= b.committed && a.answered <= b.answered
    && (forall v :: v in a.issued ==> v in b.issued && b.issued[v] == a.issued[v])
    && (!a.authority ==> !b.authority && b.answered == a.answered)
  }

  ghost predicate Continues(a: Trace, b: Trace) {
    && b.start == a.start
    && LedgerGrows(a.ledger, b.ledger)
    && a.steps <= b.steps
    && a.attempts <= b.attempts
    && a.executions <= b.executions
    && a.notified <= b.notified
  }

  /** All attempts ever made for one version carry the same object name and the same bytes. */
  lemma AttemptsAgree(t: Trace, stream: Stream, i: nat, j: nat)
    requires TraceOk(t, stream) && i < |t.attempts| && j < |t.attempts|
    requires t.attempts[i].version == t.attempts[j].version
    ensures t.attempts[i] == t.attempts[j]
  {
    assert AttemptOk(t.ledger, stream, t.attempts[i]) && AttemptOk(t.ledger, stream, t.attempts[j]);
  }

  /** Committed versions rise by exactly one. */
  lemma CommitsRiseByOne(t: Trace, stream: Stream)
    requires TraceOk(t, stream) && CanTake(t.ledger, Commits)
    ensures Took(t.ledger, Commits).committed == t.ledger.committed + 1
  {
  }

  lemma StepKeepsTrace(t: Trace, stream: Stream, step: Step)
    requires TraceOk(t, stream) && CanTake(t.ledger, step)
    requires step.Issues? ==> step.s.epoch == stream.epoch && ValidSnapshot(step.s)
    ensures TraceOk(t.Take(step), stream) && Continues(t, t.Take(step))
  {
    OneMore(t.start, t.steps, step);
    forall i | 0 <= i < |t.attempts| ensures AttemptOk(Took(t.ledger, step), stream, t.attempts[i]) {
      assert AttemptOk(t.ledger, stream, t.attempts[i]);
    }
  }

  lemma AttemptKeepsTrace(t: Trace, stream: Stream, s: Snapshot)
    requires TraceOk(t, stream) && s.version in t.ledger.issued && t.ledger.issued[s.version] == s
    ensures TraceOk(t.Attempting(stream, s), stream) && Continues(t, t.Attempting(stream, s))
  {
  }

  lemma NotifyKeepsTrace(t: Trace, stream: Stream)
    requires TraceOk(t, stream)
    ensures TraceOk(t.Notify(), stream) && Continues(t, t.Notify())
  {
  }

  lemma SameTrace(t: Trace)
    ensures Continues(t, t) && Apart(t, t)
  {
  }

  lemma ContinuesOn(a: Trace, b: Trace, c: Trace)
    requires Continues(a, b) && Continues(b, c)
    ensures Continues(a, c)
  {
  }

  /** Only writes happened in between: no execution and no notification. */
  predicate Apart(a: Trace, b: Trace) {
    a.executions == b.executions && a.notified == b.notified
  }

  // ---- The cache ----

  predicate TicketOk(plan: Plan, stream: Stream, version: nat) {
    plan.version == version && plan.stream == stream && plan.objectName == ObjectName(stream, version)
  }

  predicate Reflects(c: Cached, s: Snapshot) {
    && c.version == s.version
    && c.state == Some(s.state)
    && c.lastRequest == Some(s.requestId)
    && c.lastResult == Some(s.result)
  }

  /** The cache shows the last committed version; what is pending is the next one. */
  ghost predicate CachedOk(c: Cached, stream: Stream, l: Ledger) {
    && c.epoch == stream.epoch
    && (c.version in l.issued ==> Reflects(c, l.issued[c.version]))
    && (c.lastRequest.Some? <==> c.lastResult.Some?)
    && (c.nextWrite.Some? ==> TicketOk(c.nextWrite.value, stream, c.version + 1))
    && (if c.pending.None? then l.last == l.committed == c.version
        else
          var p := c.pending.value;
          && l.last == c.version + 1
          && l.committed == (if p.durable then l.last else c.version)
          && l.last in l.issued && l.issued[l.last] == p.snapshot
          && TicketOk(p.ticket, stream, l.last))
  }

  /** The request whose result a retry must return: the pending one, else the last committed one. */
  function LatestRequest(c: Cached): Option<string> {
    if c.pending.Some? then Some(c.pending.value.snapshot.requestId) else c.lastRequest
  }

  function LatestResult(c: Cached): Option<Json> {
    if c.pending.Some? then Some(c.pending.value.snapshot.result) else c.lastResult
  }

  function EffectiveState(c: Cached): Option<Json> {
    if c.pending.Some? then Some(c.pending.value.snapshot.state) else c.state
  }

  /** `next` has nothing pending and shows what `c` showed or had pending. */
  predicate Resumes(next: Cached, c: Cached) {
    && next.pending.None?
    && next.state == EffectiveState(c)
    && next.lastRequest == LatestRequest(c)
    && next.lastResult == LatestResult(c)
  }

  function Durable(c: Cached): Cached
    requires c.pending.Some?
  {
    c.(pending := Some(c.pending.value.(durable := true)))
  }

  /** The cache once its pending commit is known durable, with the ticket for the version after it. */
  function Resolved(c: Cached): Cached
    requires c.pending.Some?
  {
    var (s, ticket) := (c.pending.value.snapshot, c.pending.value.ticket);
    Cached(c.epoch, s.version, Some(s.state), Some(s.requestId), Some(s.result),
           Some(ticket.(version := s.version + 1, objectName := ObjectName(ticket.stream, s.version + 1))), None)
  }

  /** Nothing is pending, or what is pending is known durable. */
  predicate Settled(c: Cached) {
    c.pending.None? || c.pending.value.durable
  }

  /** A pending commit gets resolved: it is or becomes durable, and there is a version after it. */
  predicate Resolves(c: Cached, o: Outside) {
    c.pending.Some? ==>
      var p := c.pending.value;
      && (p.durable || (o.written && (p.ticket.expires > o.now + TICKET_SAFETY_MS || o.grants)))
      && p.snapshot.version + 1 < U64_LIMIT
  }

  /** What one completed call stores. */
  predicate Carries(s: Snapshot, requestId: string, result: Json, state: Json, attribution: Json) {
    s.requestId == requestId && s.result == result && s.state == state && s.attribution == attribution
  }

  /** One more version was issued, for this call. */
  ghost predicate Records(
      before: map<nat, Snapshot>, after: map<nat, Snapshot>, version: nat, requestId: string, result: Json, state: Json,
      attribution: Json)
  {
    && version !in before && version in after && after == before[version := after[version]]
    && Carries(after[version], requestId, result, state, attribution)
  }

  /** The one version issued since is that of this call, and the cache shows it or has it pending. */
  ghost predicate IssuedFor(
      before: map<nat, Snapshot>, last: nat, after: map<nat, Snapshot>, c: Cached, requestId: string, executed: Execution,
      attribution: Json)
  {
    && executed.Returned?
    && Records(before, after, last + 1, requestId, executed.result, executed.state, attribution)
    && LatestRequest(c) == Some(requestId)
    && LatestResult(c) == Some(executed.result)
  }

  /**
   What an execution on `shown` leads to: a completed call reports its result and shows its state,
   and a version is issued, for this call, exactly if that state is new.
   */
  ghost predicate Ran(
      reply: Reply, before: map<nat, Snapshot>, last: nat, after: map<nat, Snapshot>, c: Cached, requestId: string,
      shown: Option<Json>, executed: Execution, attribution: Json)
  {
    && (reply.Completed? ==>
          && executed.Returned? && reply.result == executed.result && c.state == Some(executed.state)
          && (after == before <==> Some(executed.state) == shown))
    && (after != before ==> IssuedFor(before, last, after, c, requestId, executed, attribution))
  }

  /** A ticket for the next version lasts or is granted, and the write reports success. */
  predicate CanPublish(c: Cached, o: Outside) {
    && c.version + 2 < U64_LIMIT && o.written
    && (o.grants || (c.nextWrite.Some? && c.nextWrite.value.expires > o.now + 5000))
  }

  /** A call that returned is answered: it publishes what it changed, with authority to the end. */
  predicate CompletesWith(authority: bool, c: Cached, requestId: string, executed: Execution, o: Outside)
    requires executed.Returned?
  {
    && authority && !o.fades && (executed.notifies ==> o.publishes)
    && (c.state != Some(executed.state) ==>
          CanPublish(c, o) && Storable(c.epoch, requestId, executed.state) && !o.lapses)
  }

  /** A repeated request is answered: authority holds to the end, and what is pending gets resolved. */
  predicate Replays(authority: bool, cached: bool, c: Cached, o: Outside) {
    authority && (cached || o.loads) && Resolves(c, o) && (Settled(c) || !o.lapses)
  }

  /** Nothing outside fails. */
  predicate Smooth(o: Outside) {
    o.loads && o.grants && o.written && o.publishes && !o.lapses && !o.fades
  }

  /** The execution returned something that can be stored. */
  predicate Succeeds(executed: Execution, stream: Stream, requestId: string) {
    executed.Returned? && Storable(stream.epoch, requestId, executed.state)
  }

  /** The encoding reads back exactly what can be stored. */
  lemma StoredReadsBack(s: Snapshot)
    ensures Decode(Encoded(s)) == if s.version > 0 && Storable(s.epoch, s.requestId, s.state) then Some(s) else None
  {
  }

  lemma SmoothResolves(c: Option<Cached>, stream: Stream, l: Ledger, o: Outside)
    requires c.Some? && c.value.pending.Some? ==> CachedOk(c.value, stream, l) && l.issued[l.last].version == l.last
    ensures Smooth(o) && l.last + 2 < U64_LIMIT && c.Some? ==> Resolves(c.value, o)
  {
  }

  lemma SmoothCompletes(c: Cached, stream: Stream, l: Ledger, requestId: string, executed: Execution, o: Outside)
    requires CachedOk(c, stream, l) && c.pending.None? && executed.Returned?
    ensures Smooth(o) && l.last + 2 < U64_LIMIT && Succeeds(executed, stream, requestId) ==>
              CompletesWith(true, c, requestId, executed, o)
  {
  }

  lemma SameLast(a: Ledger, b: Ledger, start: nat, stream: Stream)
    requires LedgerOk(a, start, stream) && LedgerOk(b, start, stream)
    ensures a.issued == b.issued ==> a.last == b.last
  {
    assert a.last > start ==> a.last in a.issued;
    assert b.last > start ==> b.last in b.issued;
  }

  /** A socket event has no result of its own. */
  function Silent(executed: Execution): Execution {
    if executed.Returned? then Returned("null", executed.state, executed.notifies) else executed
  }

  /** What a snapshot can hold. */
  predicate Storable(epoch: nat, requestId: string, state: Json) {
    epoch > 0 && requestId != "" && |requestId| <= 255 && "{" <= state && |state| <= MAX_ACTOR_STATE_BYTES
  }

  lemma IssuedIsOk(c: Cached, stream: Stream, l: Ledger, start: nat, s: Snapshot, plan: Plan)
    requires LedgerOk(l, start, stream) && CachedOk(c, stream, l) && c.pending.None?
    requires s.version == c.version + 1 && TicketOk(plan, stream, s.version)
    ensures CachedOk(c.(nextWrite := None, pending := Some(Pending(s, plan, false))), stream, Took(l, Issues(s)))
  {
  }

  lemma DurableIsOk(c: Cached, stream: Stream, l: Ledger)
    requires CachedOk(c, stream, l) && c.pending.Some? && !c.pending.value.durable
    ensures CachedOk(Durable(c), stream, Took(l, Commits))
  {
  }

  lemma ResolvedIsOk(c: Cached, stream: Stream, l: Ledger, start: nat)
    requires LedgerOk(l, start, stream) && CachedOk(c, stream, l) && c.pending.Some? && c.pending.value.durable
    ensures CachedOk(Resolved(c), stream, l) && Reflects(Resolved(c), c.pending.value.snapshot)
  {
  }

  function NewCache(epoch: nat): Cached {
    Cached(epoch, 0, None, None, None, None, None)
  }

  /** A stored snapshot becomes the cache, or is refused. */
  function FromLoaded(epoch: nat, version: nat, bytes: Bytes): (c: Option<Cached>)
    ensures c.Some? <==> Decode(bytes).Some? && Decode(bytes).value.version == version && Decode(bytes).value.epoch <= epoch
    ensures c.Some? ==> c.value.epoch == epoch && c.value.pending.None? && Reflects(c.value, Decode(bytes).value)
    ensures c.Some? ==> c.value.nextWrite.None?
  {
    match Decode(bytes)
    case None => None
    case Some(s) =>
      if s.version != version || s.epoch > epoch then None
      else Some(Cached(epoch, version, Some(s.state), Some(s.requestId), Some(s.result), None, None))
  }

  class Runtime {
    const stream: Stream
    // What storage holds for the actor when its state is loaded.
    const storedVersion: nat
    const storedBytes: Option<Bytes>
    var cached: Option<Cached>
    // Whether the host's lease is still confirmed; once gone it never comes back.
    var authority: bool
    ghost var trace: Trace

    ghost predicate Account()
      reads this
    {
      TraceOk(trace, stream) && trace.start == storedVersion && authority == trace.ledger.authority
    }

    ghost predicate Valid()
      reads this
    {
      && Account()
      && (match cached
          case Some(c) => CachedOk(c, stream, trace.ledger)
          case None => trace.ledger == Opening(storedVersion).(authority := authority))
    }

    /** What a load gives: the stored state, or none if it does not match its version and epoch. */
    function Stored(): (c: Option<Cached>)
      ensures storedVersion == 0 && storedBytes.None? ==>
                c == Some(Cached(stream.epoch, 0, None, None, None, None, None))
    {
      if storedVersion == 0 then (if storedBytes.None? then Some(NewCache(stream.epoch)) else None)
      else if storedBytes.None? then None
      else FromLoaded(stream.epoch, storedVersion, storedBytes.value)
    }

    /** The state the next request meets, cached or still to be loaded. */
    function Current(): Option<Cached>
      reads this
    {
      if cached.Some? then cached else Stored()
    }

    constructor (stream: Stream, storedVersion: nat, storedBytes: Option<Bytes>)
      requires storedVersion < U64_LIMIT
      ensures this.stream == stream && this.storedVersion == storedVersion && this.storedBytes == storedBytes
      ensures Valid() && cached.None? && authority
    {
      this.stream, this.storedVersion, this.storedBytes := stream, storedVersion, storedBytes;
      cached, authority := None, true;
      trace := Trace(storedVersion, [], Opening(storedVersion), [], 0, []);
    }

    // ---- The outside ----

    /** Time passes; authority may lapse. */
    method Elapse(lapses: bool)
      requires Account()
      modifies this`authority, this`trace
      ensures Account() && Continues(old(trace), trace)
      ensures authority == (old(authority) && !lapses)
      ensures trace == old(trace) || trace == old(trace).Take(Lapses)
    {
      if lapses {
        StepKeepsTrace(trace, stream, Lapses);
        authority, trace := false, trace.Take(Lapses);
      }
    }

    /** A reply leaves while authority holds. */
    ghost method Answer()
      requires Account() && authority
      modifies this`trace
      ensures Account() && Continues(old(trace), trace) && trace == old(trace).Take(Answers)
      ensures trace.ledger.answered == trace.ledger.committed
    {
      StepKeepsTrace(trace, stream, Answers);
      trace := trace.Take(Answers);
    }

    /** A ticket for the version after `version`, as the activation's storage issues it. */
    method PrepareWrite(version: nat, o: Outside) returns (plan: Option<Plan>)
      ensures plan.Some? <==> o.grants && version + 1 < U64_LIMIT
      ensures plan.Some? ==> TicketOk(plan.value, stream, version + 1) && plan.value.expires > o.now + TICKET_SAFETY_MS
    {
      if !o.grants || version + 1 >= U64_LIMIT {
        return None;
      }
      plan := Some(Plan(version + 1, ObjectName(stream, version + 1), o.now + TICKET_LIFETIME_MS, stream));
    }

    /** One write attempt; an error leaves open whether it took effect. */
    method WriteSnapshot(ticket: Plan, s: Snapshot, o: Outside) returns (ok: bool)
      requires Account() && TicketOk(ticket, stream, s.version)
      requires s.version in trace.ledger.issued && trace.ledger.issued[s.version] == s
      modifies this`authority, this`trace
      ensures Account() && Continues(old(trace), trace) && Apart(old(trace), trace)
      ensures trace.ledger == old(trace).ledger.(authority := authority)
      ensures trace.attempts == old(trace).attempts + [Attempt(s.version, ObjectName(stream, s.version), Encoded(s))]
      ensures ok == o.written && authority == (old(authority) && !o.lapses)
    {
      ghost var before := trace;
      AttemptKeepsTrace(trace, stream, s);
      trace := trace.(attempts := trace.attempts + [Attempt(ticket.version, ticket.objectName, Encoded(s))]);
      ghost var attempted := trace;
      Elapse(o.lapses);
      ContinuesOn(before, attempted, trace);
      ok := o.written;
    }

    // ---- Commits ----

    /** Writes the pending snapshot once; the same bytes go to the same object every time. */
    method TryWrite(c: Cached, o: Outside) returns (ok: bool, next: Cached)
      requires Account() && CachedOk(c, stream, trace.ledger) && c.pending.Some? && !c.pending.value.durable
      modifies this`authority, this`trace
      ensures Account() && CachedOk(next, stream, trace.ledger) && Continues(old(trace), trace)
      ensures Apart(old(trace), trace)
      ensures trace.ledger.issued == old(trace).ledger.issued && trace.ledger.answered == old(trace).ledger.answered
      ensures next == if ok then Durable(c) else c
      ensures ok == o.written && authority == (old(authority) && !o.lapses)
    {
      ghost var before := trace;
      next := c;
      ok := WriteSnapshot(c.pending.value.ticket, c.pending.value.snapshot, o);
      if ok {
        StepKeepsTrace(trace, stream, Commits);
        DurableIsOk(c, stream, trace.ledger);
        ghost var attempted := trace;
        trace := trace.Take(Commits);
        ContinuesOn(before, attempted, trace);
        next := Durable(c);
      }
    }

    /** An expiring ticket is replaced by a fresh one for the same object, or the writer is fenced. */
    method Renew(c: Cached, o: Outside) returns (ok: bool, next: Cached)
      requires LedgerOk(trace.ledger, trace.start, stream) && CachedOk(c, stream, trace.ledger) && c.pending.Some?
      ensures CachedOk(next, stream, trace.ledger)
      ensures next.pending.Some? && next == c.(pending := Some(c.pending.value.(ticket := next.pending.value.ticket)))
      ensures ok <==> c.pending.value.ticket.expires > o.now + TICKET_SAFETY_MS || o.grants
      ensures ok ==> next.pending.value.ticket.expires > o.now + TICKET_SAFETY_MS
      ensures c.pending.value.ticket.expires > o.now + TICKET_SAFETY_MS ==> next == c
    {
      next := c;
      if c.pending.value.ticket.expires > o.now + TICKET_SAFETY_MS {
        return true, next;
      }
      var renewed := PrepareWrite(c.version, o);
      if renewed.None? || renewed.value.stream != c.pending.value.ticket.stream
         || renewed.value.objectName != c.pending.value.ticket.objectName
      {
        return false, next;
      }
      next := c.(pending := Some(c.pending.value.(ticket := renewed.value)));
      ok := true;
    }

    method WriteAgain(c: Cached, o: Outside) returns (ok: bool, next: Cached)
      requires Account() && CachedOk(c, stream, trace.ledger) && c.pending.Some? && !c.pending.value.durable
      modifies this`authority, this`trace
      ensures Account() && CachedOk(next, stream, trace.ledger) && Continues(old(trace), trace)
      ensures Apart(old(trace), trace)
      ensures trace.ledger.issued == old(trace).ledger.issued && trace.ledger.answered == old(trace).ledger.answered
      ensures ok <==> o.written && (c.pending.value.ticket.expires > o.now + TICKET_SAFETY_MS || o.grants)
      ensures ok ==> authority == (old(authority) && !o.lapses)
      ensures next.pending.Some? && next.pending.value.snapshot == c.pending.value.snapshot
      ensures next.pending.value.durable == ok && next == c.(pending := next.pending)
    {
      ok, next := Renew(c, o);
      if ok {
        ok, next := TryWrite(next, o);
      }
    }

    /** Resolves a pending commit: writes it again unless it is known durable, then moves the cache on. */
    method FinishPending(c: Cached, o: Outside) returns (ok: bool, next: Cached)
      requires Account() && CachedOk(c, stream, trace.ledger)
      modifies this`authority, this`trace
      ensures Account() && CachedOk(next, stream, trace.ledger) && Continues(old(trace), trace)
      ensures Apart(old(trace), trace)
      ensures trace.ledger.issued == old(trace).ledger.issued && trace.ledger.answered == old(trace).ledger.answered
      ensures ok <==> Resolves(c, o)
      ensures Settled(c) ==> trace == old(trace) && authority == old(authority)
      ensures c.pending.None? ==> next == c
      ensures ok && !Settled(c) ==> authority == (old(authority) && !o.lapses)
      ensures ok ==> next.pending.None?
      ensures ok && c.pending.Some? ==> Reflects(next, c.pending.value.snapshot)
      ensures !ok ==> next.pending.Some? && next.pending.value.snapshot == c.pending.value.snapshot
      ensures !ok ==> next == c.(pending := next.pending)
    {
      next := c;
      if c.pending.None? {
        return true, next;
      }
      if !c.pending.value.durable {
        ok, next := WriteAgain(c, o);
        if !ok {
          return;
        }
      }
      ok, next := MoveOn(next);
    }

    /** The durable pending state becomes the cached one, if there is a version after it. */
    method MoveOn(c: Cached) returns (ok: bool, next: Cached)
      requires Account() && CachedOk(c, stream, trace.ledger) && c.pending.Some? && c.pending.value.durable
      ensures CachedOk(next, stream, trace.ledger)
      ensures ok <==> c.pending.value.snapshot.version + 1 < U64_LIMIT
      ensures if ok then next.pending.None? && Reflects(next, c.pending.value.snapshot) else next == c
    {
      if c.pending.value.snapshot.version + 1 >= U64_LIMIT {
        return false, c;
      }
      ResolvedIsOk(c, stream, trace.ledger, trace.start);
      return true, Resolved(c);
    }

    /** The chained ticket while it lasts for the next version, else a fresh one. */
    method NextTicket(c: Cached, o: Outside) returns (plan: Option<Plan>)
      requires CachedOk(c, stream, trace.ledger)
      ensures plan.Some? ==> TicketOk(plan.value, stream, c.version + 1) && plan.value.expires > o.now + TICKET_SAFETY_MS
      ensures c.nextWrite.Some? && c.nextWrite.value.expires > o.now + TICKET_SAFETY_MS ==> plan == c.nextWrite
      ensures plan.Some? <==>
              || (c.nextWrite.Some? && c.nextWrite.value.expires > o.now + TICKET_SAFETY_MS)
              || (o.grants && c.version + 1 < U64_LIMIT)
    {
      plan := c.nextWrite;
      if plan.None? || plan.value.version != c.version + 1 || plan.value.expires <= o.now + TICKET_SAFETY_MS {
        plan := PrepareWrite(c.version, o);
      }
      if plan.Some? && (plan.value.version != c.version + 1 || plan.value.stream.epoch != c.epoch) {
        plan := None;
      }
    }

    /** Issues a snapshot: from now on it is pending. */
    method Install(c: Cached, s: Snapshot, plan: Plan) returns (next: Cached)
      requires Account() && CachedOk(c, stream, trace.ledger) && c.pending.None? && TicketOk(plan, stream, s.version)
      requires s.version == c.version + 1 < U64_LIMIT && s.epoch == stream.epoch && ValidSnapshot(s)
      modifies this`trace
      ensures Account() && CachedOk(next, stream, trace.ledger) && Continues(old(trace), trace)
      ensures Apart(old(trace), trace) && authority == old(authority)
      ensures next == c.(nextWrite := None, pending := Some(Pending(s, plan, false)))
      ensures trace.ledger == Took(old(trace).ledger, Issues(s))
    {
      StepKeepsTrace(trace, stream, Issues(s));
      IssuedIsOk(c, stream, trace.ledger, trace.start, s, plan);
      trace := trace.Take(Issues(s));
      next := c.(nextWrite := None, pending := Some(Pending(s, plan, false)));
    }

    /** Issues a snapshot, writes it and resolves it. */
    method Persist(c: Cached, s: Snapshot, plan: Plan, o: Outside) returns (ok: bool, next: Cached)
      requires Account() && CachedOk(c, stream, trace.ledger) && c.pending.None? && TicketOk(plan, stream, s.version)
      requires s.version == c.version + 1 < U64_LIMIT && s.epoch == stream.epoch && ValidSnapshot(s)
      modifies this`authority, this`trace
      ensures Account() && CachedOk(next, stream, trace.ledger) && Continues(old(trace), trace)
      ensures Apart(old(trace), trace)
      ensures s.version !in old(trace).ledger.issued && trace.ledger.issued == old(trace).ledger.issued[s.version := s]
      ensures ok <==> o.written && s.version + 1 < U64_LIMIT
      ensures authority == (old(authority) && !o.lapses)
      ensures ok ==> next.pending.None? && Reflects(next, s)
      ensures !ok ==> next.pending.Some? && next.pending.value.snapshot == s
      ensures !ok ==> next == c.(nextWrite := None, pending := next.pending)
    {
      ghost var before := trace;
      next := Install(c, s, plan);
      ghost var issued := trace;
      ok, next := TryWrite(next, o);
      ghost var written := trace;
      ContinuesOn(before, issued, written);
      if ok {
        ok, next := FinishPending(next, o);
        ContinuesOn(before, written, trace);
      }
    }

    /**
     Commits a new state as the next version, under the request and with the result it belongs to.
     What cannot be confirmed stays pending, with the same content.
     */
    method Publish(c: Cached, requestId: string, result: Json, state: Json, attribution: Json, o: Outside)
        returns (ok: bool, next: Cached)
      requires Account() && CachedOk(c, stream, trace.ledger) && c.pending.None?
      modifies this`authority, this`trace
      ensures Account() && CachedOk(next, stream, trace.ledger) && Continues(old(trace), trace)
      ensures Apart(old(trace), trace)
      ensures ok ==> next.pending.None? && next.version == c.version + 1 && next.state == Some(state)
      ensures ok ==> next.lastRequest == Some(requestId) && next.lastResult == Some(result)
      ensures ok <==> CanPublish(c, o) && Storable(c.epoch, requestId, state)
      ensures ok ==> authority == (old(authority) && !o.lapses)
      ensures ok || next.pending.Some? ==>
                Records(old(trace).ledger.issued, trace.ledger.issued, c.version + 1, requestId, result, state, attribution)
      ensures !ok ==> next == c.(nextWrite := next.nextWrite, pending := next.pending)
      ensures !ok && next.pending.Some? ==> Carries(next.pending.value.snapshot, requestId, result, state, attribution)
      ensures !ok && next.pending.None? ==> trace.ledger.issued == old(trace).ledger.issued
    {
      next := if c.version + 1 >= U64_LIMIT then c else c.(nextWrite := None);
      var draft := Draft(c, requestId, result, state, attribution, o);
      if draft.None? {
        SameTrace(trace);
        return false, next;
      }
      ok, next := Persist(c, draft.value.snapshot, draft.value.ticket, o);
    }

    /** The snapshot of one call and a ticket to write it, if there can be both. */
    method Draft(c: Cached, requestId: string, result: Json, state: Json, attribution: Json, o: Outside)
        returns (draft: Option<Pending>)
      requires CachedOk(c, stream, trace.ledger)
      ensures draft.Some? <==>
              && c.version + 1 < U64_LIMIT && Storable(c.epoch, requestId, state)
              && (o.grants || (c.nextWrite.Some? && c.nextWrite.value.expires > o.now + 5000))
      ensures draft.Some? ==> TicketOk(draft.value.ticket, stream, c.version + 1)
      ensures draft.Some? ==> ValidSnapshot(draft.value.snapshot)
      ensures draft.Some? ==> draft.value.snapshot.epoch == c.epoch && draft.value.snapshot.version == c.version + 1
      ensures draft.Some? ==> Carries(draft.value.snapshot, requestId, result, state, attribution)
    {
      if c.version + 1 >= U64_LIMIT {
        return None;
      }
      var plan := NextTicket(c, o);
      if plan.None? {
        return None;
      }
      var s := Snapshot(c.epoch, c.version + 1, requestId, state, result, attribution);
      if !ValidSnapshot(s) {
        return None;
      }
      draft := Some(Pending(s, plan.value, false));
    }

    // ---- Requests ----

    /** Takes the cache out, or loads the stored state. */
    method TakeOrLoad(o: Outside) returns (c: Option<Cached>)
      requires Valid()
      modifies this`cached
      ensures cached.None?
      ensures c == if old(cached).Some? then old(cached) else if o.loads then Stored() else None
      ensures c.Some? ==> c == old(Current()) && CachedOk(c.value, stream, trace.ledger)
    {
      c, cached := cached, None;
      if c.Some? || !o.loads {
        return;
      }
      if storedVersion == 0 {
        c := if storedBytes.None? then Some(NewCache(stream.epoch)) else None;
      } else if storedBytes.Some? {
        c := FromLoaded(stream.epoch, storedVersion, storedBytes.value);
      }
    }

    /**
     Resolves what is pending, after authority was checked. If that ends in an answer, it leaves
     with the check when the state was known durable then, else with the resolved write.
     */
    method Resume(c: Cached, ghost answers: bool, o: Outside) returns (ok: bool, next: Cached)
      requires Account() && CachedOk(c, stream, trace.ledger) && authority
      modifies this`authority, this`trace
      ensures Account() && CachedOk(next, stream, trace.ledger) && Continues(old(trace), trace)
      ensures Apart(old(trace), trace) && trace.ledger.issued == old(trace).ledger.issued
      ensures ok <==> Resolves(c, o)
      ensures ok ==> Resumes(next, c)
      ensures c.pending.None? ==> next.pending.None?
      ensures ok && answers ==> (trace.ledger.answered == trace.ledger.committed <==> Settled(c) || authority)
      ensures ok ==> authority == (Settled(c) || !o.lapses)
    {
      ghost var before := trace;
      if answers && Settled(c) {
        Answer();
      }
      ghost var checked := trace;
      ok, next := FinishPending(c, o);
      ghost var resolved := trace;
      ContinuesOn(before, checked, resolved);
      if ok && answers && authority {
        Answer();
        ContinuesOn(before, resolved, trace);
      }
    }

    /** The request is the latest one, so its stored result answers it. */
    predicate Repeats(requestId: string)
      reads this
    {
      Current().Some? && LatestRequest(Current().value) == Some(requestId)
    }

    /**
     Resolves what is pending; then a repeated request is answered from the cache, without execution.
     Authority is checked only before: the answer is one the protocol knows exactly if the state was
     known durable at that check, or authority still holds once the pending write is.
     */
    method Prepare(requestId: string, replay: bool, o: Outside) returns (r: Prepared)
      requires Valid()
      modifies this
      ensures Valid() && trace.executions == old(trace).executions
      ensures Continues(old(trace), trace) && trace.ledger.issued == old(trace).ledger.issued
      ensures old(cached).Some? ==> cached.Some?
      ensures old(cached).Some? && old(cached).value.pending.None? ==> cached.value.pending.None?
      ensures r.Answered? && r.reply.Completed? <==>
              && old(authority) && replay && old(Repeats(requestId)) && (old(cached).Some? || o.loads)
              && Resolves(old(Current()).value, o)
      ensures r.Execute? || r.reply.Completed? ==>
                old(Current()).Some? && cached.Some? && Resumes(cached.value, old(Current()).value)
      ensures r.Execute? ==> r.state == cached.value.state && !(replay && old(Repeats(requestId)))
      ensures r.Answered? && r.reply.Completed? ==> Some(r.reply.result) == LatestResult(old(Current()).value)
      ensures r.Answered? && r.reply.Completed? ==>
                (trace.ledger.answered == trace.ledger.committed <==> Settled(old(Current()).value) || authority)
      ensures r.Execute? <==>
              && old(authority) && old(Current()).Some? && !(replay && old(Repeats(requestId)))
              && (old(cached).Some? || o.loads) && Resolves(old(Current()).value, o)
      ensures r.Execute? || r.reply.Completed? ==> authority == (Settled(old(Current()).value) || !o.lapses)
      ensures r == Answered(HostError) <==> !(old(authority) && old(Current()).Some? && (old(cached).Some? || o.loads))
    {
      if !authority {
        return Answered(HostError);
      }
      var c := TakeOrLoad(o);
      if c.None? {
        return Answered(HostError);
      }
      r := Continue(c.value, requestId, replay, o);
    }

    method Continue(c: Cached, requestId: string, replay: bool, o: Outside) returns (r: Prepared)
      requires Account() && CachedOk(c, stream, trace.ledger) && authority
      modifies this`cached, this`authority, this`trace
      ensures Valid() && trace.executions == old(trace).executions
      ensures Continues(old(trace), trace) && trace.ledger.issued == old(trace).ledger.issued
      ensures cached.Some? && (c.pending.None? ==> cached.value.pending.None?)
      ensures Resolves(c, o) ==> Resumes(cached.value, c)
      ensures r == if !Resolves(c, o) then Answered(Failed)
                   else if replay && LatestRequest(c) == Some(requestId) && LatestResult(c).Some?
                   then Answered(Completed(LatestResult(c).value))
                   else Execute(EffectiveState(c))
      ensures r.Answered? && r.reply.Completed? ==>
                (trace.ledger.answered == trace.ledger.committed <==> Settled(c) || authority)
      ensures Resolves(c, o) ==> authority == (Settled(c) || !o.lapses)
    {
      var ok, next := Resume(c, replay && LatestRequest(c) == Some(requestId), o);
      cached := Some(next);
      if !ok {
        return Answered(Failed);
      }
      if replay && next.lastRequest == Some(requestId) && next.lastResult.Some? {
        return Answered(Completed(next.lastResult.value));
      }
      return Execute(next.state);
    }

    /** Sends automatic state notifications stamped with the committed version, then answers. */
    method CompleteWith(version: nat, result: Json, notifies: bool, o: Outside) returns (reply: Reply)
      requires Valid() && cached.Some? && cached.value.pending.None? && version == cached.value.version
      modifies this`authority, this`trace
      ensures Valid() && Continues(old(trace), trace) && trace.executions == old(trace).executions
      ensures trace.ledger.issued == old(trace).ledger.issued
      ensures trace.ledger.committed == trace.ledger.last == version
      ensures reply.Completed? ==> reply.result == result && trace.ledger.answered == version
      ensures reply.Completed? <==> old(authority) && !o.fades && (notifies ==> o.publishes)
      ensures authority == (old(authority) && !o.fades)
      ensures trace.notified == old(trace).notified + (if notifies && authority then [version] else [])
    {
      ghost var before := trace;
      Elapse(o.fades);
      if !authority {
        return HostError;
      }
      ghost var elapsed := trace;
      Answer();
      ContinuesOn(before, elapsed, trace);
      if notifies {
        ghost var told := trace;
        Notify(version);
        ContinuesOn(before, told, trace);
        if !o.publishes {
          return Failed;
        }
      }
      return Completed(result);
    }

    /** A batch of state effects, all stamped with the committed version. */
    ghost method Notify(version: nat)
      requires Account() && version == trace.ledger.committed
      modifies this`trace
      ensures Account() && trace == old(trace).(notified := old(trace).notified + [version])
      ensures Continues(old(trace), trace)
    {
      NotifyKeepsTrace(trace, stream);
      trace := trace.(notified := trace.notified + [version]);
    }

    /** A reply the protocol knows: the shown state is durable and was answered with authority. */
    ghost predicate Backed()
      reads this
    {
      && cached.Some? && cached.value.pending.None?
      && trace.ledger.answered == trace.ledger.committed == trace.ledger.last == cached.value.version
    }

    /**
     How a call leaves the cache: with a state that is new, the next version was issued for it and is
     shown or pending, under its request ID and with its result; else nothing was issued. Nothing
     but that version can have been notified.
     */
    twostate predicate CallLeaves(requestId: string, result: Json, state: Json, notifies: bool, attribution: Json)
      reads this
    {
      && old(cached).Some? && cached.Some?
      && (old(cached).value.state == Some(state) ==> cached == old(cached) && trace.ledger.issued == old(trace).ledger.issued)
      && (trace.ledger.issued != old(trace).ledger.issued ==>
            && Records(old(trace).ledger.issued, trace.ledger.issued, old(cached).value.version + 1,
                       requestId, result, state, attribution)
            && LatestRequest(cached.value) == Some(requestId)
            && LatestResult(cached.value) == Some(result)
            && EffectiveState(cached.value) == Some(state))
      && (trace.ledger.issued == old(trace).ledger.issued ==> cached.value.(nextWrite := None) == old(cached).value.(nextWrite := None))
      && (trace.notified == old(trace).notified || (notifies && trace.notified == old(trace).notified + [cached.value.version]))
    }

    /** Commits what an execution returned, unless it changed nothing, and answers. */
    method FinishMethod(requestId: string, executed: Execution, attribution: Json, o: Outside) returns (reply: Reply)
      requires Valid() && cached.Some? && cached.value.pending.None?
      modifies this
      ensures Valid() && cached.Some? && Continues(old(trace), trace)
      ensures trace.executions == old(trace).executions
      ensures reply.Completed? ==> authority && Backed()
      ensures reply.Completed? ==>
                executed.Returned? && reply.result == executed.result && cached.value.state == Some(executed.state)
      ensures executed.Threw? ==> trace == old(trace) && cached == old(cached)
      ensures executed.Returned? ==> CallLeaves(requestId, executed.result, executed.state, executed.notifies, attribution)
      ensures executed.Returned? ==>
                (reply.Completed? <==> CompletesWith(old(authority), old(cached).value, requestId, executed, o))
    {
      if executed.Threw? {
        return Failed;
      }
      var published;
      published, reply := Conclude(requestId, executed.result, executed.state, executed.notifies, attribution, o);
      if !published {
        return Failed;
      }
    }

    /** A changed state is published first; either way the answer needs authority. */
    method Conclude(requestId: string, result: Json, state: Json, notifies: bool, attribution: Json, o: Outside)
        returns (published: bool, reply: Reply)
      requires Valid() && cached.Some? && cached.value.pending.None?
      modifies this
      ensures Valid() && cached.Some? && Continues(old(trace), trace)
      ensures trace.executions == old(trace).executions
      ensures reply.Completed? ==>
                published && authority && Backed() && reply.result == result && cached.value.state == Some(state)
      ensures CallLeaves(requestId, result, state, notifies, attribution)
      ensures reply.Completed? <==>
              CompletesWith(old(authority), old(cached).value, requestId, Returned(result, state, notifies), o)
    {
      ghost var before := trace;
      published := PublishIfNew(requestId, result, state, attribution, o);
      if !published {
        return false, HostError;
      }
      ghost var stored := trace;
      reply := CompleteWith(cached.value.version, result, notifies, o);
      ContinuesOn(before, stored, trace);
    }

    /** A state that is not the shown one becomes the next version. */
    method PublishIfNew(requestId: string, result: Json, state: Json, attribution: Json, o: Outside)
        returns (published: bool)
      requires Valid() && cached.Some? && cached.value.pending.None?
      modifies this`cached, this`authority, this`trace
      ensures Valid() && Continues(old(trace), trace) && Apart(old(trace), trace)
      ensures CallLeaves(requestId, result, state, false, attribution)
      ensures var isNew := old(cached).value.state != Some(state);
              && (published <==> (isNew ==> CanPublish(old(cached).value, o) && Storable(old(cached).value.epoch, requestId, state)))
              && (published ==> authority == (old(authority) && (isNew ==> !o.lapses)))
      ensures published ==> cached.value.pending.None? && cached.value.state == Some(state)
    {
      published := true;
      var c := cached.value;
      if c.state != Some(state) {
        cached := None;
        var next;
        published, next := Publish(c, requestId, result, state, attribution, o);
        cached := Some(next);
      }
    }

    method ExecuteOnce(requestId: string, behavior: Option<Json> -> Execution, attribution: Json, o: Outside)
        returns (reply: Reply)
      requires Valid() && cached.Some? && cached.value.pending.None?
      modifies this
      ensures Valid() && cached.Some? && Continues(old(trace), trace)
      ensures trace.executions == old(trace).executions + 1
      ensures reply.Completed? ==> authority && Backed()
      ensures Ran(reply, old(trace).ledger.issued, old(trace).ledger.last, trace.ledger.issued, cached.value, requestId,
                  old(cached).value.state, behavior(old(cached).value.state), attribution)
      ensures var executed := behavior(old(cached).value.state);
              reply.Completed? <==>
              executed.Returned? && CompletesWith(old(authority), old(cached).value, requestId, executed, o)
    {
      var executed := behavior(cached.value.state);
      ghost var before := trace;
      trace := trace.Execute();
      ghost var counted := trace;
      reply := FinishMethod(requestId, executed, attribution, o);
      ContinuesOn(before, counted, trace);
    }

    /**
     One method call. A reply `Completed` is one the protocol knows, for durable state: either this
     call's own execution, or the stored result of the same request. Repeating the latest request,
     cached, pending or only stored, never executes again and never issues another version. A version
     is issued only for what the execution returned, under this request ID and with its result, and
     then this request is the latest. With nothing in the way the call completes.
     */
    method InvokeActor(
        requestId: string, behavior: Option<Json> -> Execution, attribution: Json, first: Outside, second: Outside)
        returns (reply: Reply)
      requires Valid()
      modifies this
      ensures Valid() && Continues(old(trace), trace)
      ensures old(trace).executions <= trace.executions <= old(trace).executions + 1
      ensures reply.Completed? ==> authority && Backed() && old(Current()).Some?
      ensures trace.executions == old(trace).executions ==> trace.ledger.issued == old(trace).ledger.issued
      ensures trace.executions > old(trace).executions ==>
                && old(Current()).Some? && cached.Some? && !old(Repeats(requestId))
                && Ran(reply, old(trace).ledger.issued, old(trace).ledger.last, trace.ledger.issued, cached.value, requestId,
                       EffectiveState(old(Current()).value), behavior(EffectiveState(old(Current()).value)), attribution)
      ensures reply.Completed? && trace.executions == old(trace).executions ==>
                old(Repeats(requestId)) && cached.value.state == EffectiveState(old(Current()).value)
      ensures old(Repeats(requestId)) ==>
                && trace.executions == old(trace).executions
                && (reply.Completed? ==> Some(reply.result) == LatestResult(old(Current()).value))
                && (reply.Completed? <==> Replays(old(authority), old(cached).Some?, old(Current()).value, first))
      ensures old(authority) && old(Current()).Some? && !old(Repeats(requestId)) && Smooth(first) && Smooth(second) &&
              old(trace).ledger.last + 2 < U64_LIMIT && Succeeds(behavior(EffectiveState(old(Current()).value)), stream, requestId)
              ==> reply.Completed?
    {
      reply := Handle(requestId, true, behavior, attribution, first, second, Current());
      ghost var done := trace;
      reply := CheckAgain(reply);
      ContinuesOn(old(trace), done, trace);
    }

    /** Prepares a call and, unless that answers it, executes it once. */
    method Handle(
        requestId: string, replay: bool, behavior: Option<Json> -> Execution, attribution: Json, first: Outside,
        second: Outside, ghost c: Option<Cached>)
        returns (reply: Reply)
      requires Valid() && c == Current()
      modifies this
      ensures Valid() && Continues(old(trace), trace)
      ensures old(trace).executions <= trace.executions <= old(trace).executions + 1
      ensures reply.Completed? ==> c.Some? && cached.Some? && cached.value.pending.None?
      ensures trace.executions == old(trace).executions ==> trace.ledger.issued == old(trace).ledger.issued
      ensures trace.executions > old(trace).executions ==>
                && c.Some? && cached.Some? && !(replay && old(Repeats(requestId)))
                && (reply.Completed? ==> authority && Backed())
                && Ran(reply, old(trace).ledger.issued, old(trace).ledger.last, trace.ledger.issued, cached.value, requestId,
                       EffectiveState(c.value), behavior(EffectiveState(c.value)), attribution)
      ensures reply.Completed? && trace.executions == old(trace).executions ==>
                replay && old(Repeats(requestId)) && cached.value.state == EffectiveState(c.value)
      ensures replay && old(Repeats(requestId)) ==>
                && trace.executions == old(trace).executions
                && (reply.Completed? ==> Some(reply.result) == LatestResult(c.value))
                && (reply.Completed? && authority <==> Replays(old(authority), old(cached).Some?, c.value, first))
      ensures (&& old(authority) && c.Some? && !(replay && old(Repeats(requestId))) && Smooth(first) && Smooth(second)
               && old(trace).ledger.last + 2 < U64_LIMIT && Succeeds(behavior(EffectiveState(c.value)), stream, requestId))
              ==> reply.Completed? && trace.executions == old(trace).executions + 1
    {
      SmoothResolves(c, stream, trace.ledger, first);
      var prepared := Prepare(requestId, replay, first);
      if prepared.Answered? {
        return prepared.reply;
      }
      SameLast(old(trace).ledger, trace.ledger, trace.start, stream);
      reply := Proceed(requestId, behavior, attribution, second, old(trace), c.value);
    }

    /** Executes on the state that was shown or pending when the call began. */
    method Proceed(
        requestId: string, behavior: Option<Json> -> Execution, attribution: Json, o: Outside, ghost start: Trace,
        ghost c: Cached)
        returns (reply: Reply)
      requires Valid() && cached.Some? && Resumes(cached.value, c) && Continues(start, trace)
      requires start.ledger.issued == trace.ledger.issued && start.ledger.last == trace.ledger.last
      modifies this
      ensures Valid() && cached.Some? && Continues(start, trace) && trace.executions == old(trace).executions + 1
      ensures reply.Completed? ==> authority && Backed()
      ensures Ran(reply, start.ledger.issued, start.ledger.last, trace.ledger.issued, cached.value, requestId,
                  EffectiveState(c), behavior(EffectiveState(c)), attribution)
      ensures (&& old(authority) && Smooth(o) && start.ledger.last + 2 < U64_LIMIT
               && Succeeds(behavior(EffectiveState(c)), stream, requestId)) ==> reply.Completed?
    {
      if behavior(cached.value.state).Returned? {
        SmoothCompletes(cached.value, stream, trace.ledger, requestId, behavior(cached.value.state), o);
      }
      reply := ExecuteOnce(requestId, behavior, attribution, o);
      ContinuesOn(start, old(trace), trace);
    }

    /** The second check of authority; a completed call is answered with it. */
    method CheckAgain(reply: Reply) returns (r: Reply)
      requires Valid() && (reply.Completed? ==> cached.Some? && cached.value.pending.None?)
      modifies this`trace
      ensures Valid() && Continues(old(trace), trace) && Apart(old(trace), trace)
      ensures trace.ledger.issued == old(trace).ledger.issued
      ensures r == if authority then reply else HostError
      ensures r.Completed? ==> Backed()
    {
      if !authority {
        return HostError;
      }
      if reply.Completed? {
        Answer();
      }
      r := reply;
    }

    /**
     One socket event: like a method call, but never answered from the cache, and with the result
     null, which is what a version issued for it carries.
     */
    method HandleSocketEvent(
        requestId: string, behavior: Option<Json> -> Execution, attribution: Json, first: Outside, second: Outside)
        returns (reply: Reply)
      requires Valid()
      modifies this
      ensures Valid() && Continues(old(trace), trace)
      ensures trace.executions <= old(trace).executions + 1
      ensures reply.Completed? ==> trace.executions == old(trace).executions + 1
      ensures reply.Completed? ==> authority && Backed() && old(Current()).Some?
      ensures reply.Completed? ==>
                && var executed := behavior(EffectiveState(old(Current()).value));
                && executed.Returned? && reply.result == "null" && cached.value.state == Some(executed.state)
                && (trace.ledger.issued == old(trace).ledger.issued <==>
                    Some(executed.state) == EffectiveState(old(Current()).value))
      ensures trace.ledger.issued != old(trace).ledger.issued ==>
                && old(Current()).Some? && cached.Some?
                && var executed := behavior(EffectiveState(old(Current()).value));
                && executed.Returned?
                && IssuedFor(old(trace).ledger.issued, old(trace).ledger.last, trace.ledger.issued, cached.value, requestId,
                             Returned("null", executed.state, false), attribution)
      ensures old(authority) && old(Current()).Some? && Smooth(first) && Smooth(second) &&
              old(trace).ledger.last + 2 < U64_LIMIT && Succeeds(behavior(EffectiveState(old(Current()).value)), stream, requestId)
              ==> reply.Completed?
    {
      reply := Handle(requestId, false, state => Silent(behavior(state)), attribution, first, second, Current());
      ghost var done := trace;
      reply := CheckAgain(reply);
      ContinuesOn(old(trace), done, trace);
    }

    /** Commits the outcome of an invocation that ran beside others; nothing may be pending. */
    method CommitInterleaved(requestId: string, result: Json, state: Json, notifies: bool, attribution: Json, o: Outside)
        returns (reply: Reply)
      requires Valid() && cached.Some? && cached.value.pending.None?
      modifies this
      ensures Valid() && cached.Some? && Continues(old(trace), trace)
      ensures reply.Completed? ==> Backed() && reply.result == result && cached.value.state == Some(state)
      ensures CallLeaves(requestId, result, state, notifies, attribution)
      ensures reply.Completed? && old(cached).value.state != Some(state) ==>
                cached.value.lastRequest == Some(requestId) && cached.value.lastResult == Some(result)
      ensures reply.Completed? <==>
              CompletesWith(old(authority), old(cached).value, requestId, Returned(result, state, notifies), o)
    {
      if !authority {
        return HostError;
      }
      var published;
      published, reply := Conclude(requestId, result, state, notifies, attribution, o);
    }
  }

  // ---- Retries ----

  /**
   A call and its retry, with any behavior and anything outside in between. Once the call has issued
   a version, completed or not, the retry executes nothing, issues nothing and can only return what
   the first execution returned. If the call completed and authority lasts, the retry completes.
   */
  method InvokeTwice(
      runtime: Runtime, requestId: string, behavior: Option<Json> -> Execution, other: Option<Json> -> Execution,
      attribution: Json, o: seq<Outside>)
      returns (told: Reply, retold: Reply, ghost middle: Trace)
    requires runtime.Valid() && |o| == 4
    modifies runtime
    ensures runtime.Valid() && Continues(old(runtime.trace), middle) && Continues(middle, runtime.trace)
    ensures middle.ledger.issued != old(runtime.trace.ledger.issued) ==>
              && runtime.trace.executions == middle.executions
              && runtime.trace.ledger.issued == middle.ledger.issued
              && old(runtime.Current()).Some?
              && var executed := behavior(EffectiveState(old(runtime.Current()).value));
              && executed.Returned?
              && (retold.Completed? ==> retold.result == executed.result)
              && (told.Completed? ==> told.result == executed.result && retold == told)
  {
    told := runtime.InvokeActor(requestId, behavior, attribution, o[0], o[1]);
    middle := runtime.trace;
    retold := runtime.InvokeActor(requestId, other, attribution, o[2], o[3]);
  }

  /** After a restart a retry of the request that made the stored snapshot returns its result, unexecuted. */
  method RetryAfterReload(runtime: Runtime, s: Snapshot, behavior: Option<Json> -> Execution, first: Outside, second: Outside)
      returns (reply: Reply)
    requires runtime.Valid() && runtime.cached.None? && ValidSnapshot(s)
    requires runtime.storedVersion == s.version && runtime.storedBytes == Some(Encoded(s)) && s.epoch <= runtime.stream.epoch
    modifies runtime
    ensures runtime.Valid() && runtime.trace.executions == old(runtime.trace.executions)
    ensures runtime.trace.ledger.issued == old(runtime.trace.ledger.issued)
    ensures reply.Completed? <==> old(runtime.authority) && first.loads
    ensures reply.Completed? ==>
              reply.result == s.result && runtime.cached.Some? && runtime.cached.value.state == Some(s.state)
  {
    reply := runtime.InvokeActor(s.requestId, behavior, s.attribution, first, second);
  }
}
