/** The runtime's steps are the steps of the protocol's writer, and nothing else moves that writer. */
module RuntimeRefinement {
  import opened Names
  import opened Snapshots
  import Runtime = ActorRuntime
  import Sockets
  import opened Activation
  import opened ActivationSafety

  function WriterOf(l: Runtime.Ledger, mode: Mode): Writer {
    Writer(l.issued, l.last, l.committed, l.answered, l.authority, mode)
  }

  /** A write that was reported durable is in the bucket, or every replica in use confirmed it. */
  predicate Written(ep: Epoch, version: nat) {
    || version in ep.bucket
    || (ep.writer.mode.Active? && forall r :: r in ep.writer.mode.members ==> version in ep.Rep(r).confirmed)
  }

  function EventOf(ep: Epoch, step: Runtime.Step): WriterEvent {
    match step
    case Issues(s) => Issue(s)
    case Commits => if ep.writer.last in ep.bucket then CommitUpload else CommitReplicas
    case Answers => Answer
    case Lapses => Lapse
  }

  /** Each step of the runtime is an enabled event of the protocol with the same effect. */
  lemma StepRefines(ep: Epoch, l: Runtime.Ledger, step: Runtime.Step)
    requires ep.writer == WriterOf(l, ep.writer.mode) && Runtime.CanTake(l, step)
    requires step.Issues? ==> step.s.epoch == ep.stream.epoch
    requires step.Commits? ==> Written(ep, l.last)
    ensures Enabled(ep, Writing(EventOf(ep, step)))
    ensures Apply(ep, Writing(EventOf(ep, step))).writer == WriterOf(Runtime.Took(l, step), ep.writer.mode)
  {
  }

  /** An event in the runtime's terms: a step of the writer, or none. */
  function StepsOf(ev: Event): seq<Runtime.Step> {
    match ev
    case Writing(Issue(s)) => [Runtime.Issues(s)]
    case Writing(CommitUpload) => [Runtime.Commits]
    case Writing(CommitReplicas) => [Runtime.Commits]
    case Writing(Answer) => [Runtime.Answers]
    case Writing(Lapse) => [Runtime.Lapses]
    case _ => []
  }

  function Project(events: seq<Event>): seq<Runtime.Step> {
    if events == [] then [] else StepsOf(events[0]) + Project(events[1..])
  }

  /** The writer's account is what the steps add up to. */
  ghost predicate Accounts(start: nat, steps: seq<Runtime.Step>, w: Writer) {
    Runtime.Legal(start, steps) && w == WriterOf(Runtime.Replay(start, steps), w.mode)
  }

  lemma WritingProjects(ep: Epoch, ev: WriterEvent, l: Runtime.Ledger)
    requires CanWrite(ep, ev) && ep.writer == WriterOf(l, ep.writer.mode)
    ensures var step := StepsOf(Writing(ev))[0];
            Runtime.CanTake(l, step) && Wrote(ep.writer, ev) == WriterOf(Runtime.Took(l, step), ep.writer.mode)
  {
  }

  lemma OtherEventsKeepWriter(ep: Epoch, ev: Event)
    requires Enabled(ep, ev) && !ev.Writing?
    ensures Apply(ep, ev).writer == ep.writer.(mode := Apply(ep, ev).writer.mode)
  {
    match ev
    case Upload(_) =>
    case OnReplica(_, _) =>
    case OnSession(step) => StepKeepsWriter(ep, step);
    case Reading(_, _) =>
  }

  lemma StepKeepsWriter(ep: Epoch, step: SessionEvent)
    requires CanStep(ep, step)
    ensures Stepped(ep, step).writer == ep.writer.(mode := Stepped(ep, step).writer.mode)
  {
  }

  lemma EventAccounts(start: nat, steps: seq<Runtime.Step>, ep: Epoch, ev: Event)
    requires Enabled(ep, ev) && Accounts(start, steps, ep.writer)
    ensures Accounts(start, steps + StepsOf(ev), Apply(ep, ev).writer)
  {
    if ev.Writing? {
      WritingProjects(ep, ev.write, Runtime.Replay(start, steps));
      Runtime.OneMore(start, steps, StepsOf(ev)[0]);
      assert StepsOf(ev) == [StepsOf(ev)[0]];
    } else {
      OtherEventsKeepWriter(ep, ev);
      assert steps + StepsOf(ev) == steps;
    }
  }

  /**
   In every run of the protocol the writer's account is what its steps add up to: whatever the
   runtime answered is what the protocol calls answered, and the other way round.
   */
  lemma {:induction false} RunAccounts(start: nat, steps: seq<Runtime.Step>, ep: Epoch, events: seq<Event>)
    requires CanRun(ep, events) && Accounts(start, steps, ep.writer)
    ensures Accounts(start, steps + Project(events), Run(ep, events).writer)
    decreases |events|
  {
    if events == [] {
      assert steps + Project(events) == steps;
    } else {
      var (first, rest) := (StepsOf(events[0]), Project(events[1..]));
      EventAccounts(start, steps, ep, events[0]);
      RunAccounts(start, steps + first, Apply(ep, events[0]), events[1..]);
      assert steps + first + rest == steps + (first + rest);
    }
  }

  /** `stamps` are versions of `notified` in its order, each any number of times. */
  predicate StampedFrom(stamps: seq<nat>, notified: seq<nat>)
    decreases |stamps| + |notified|
  {
    || stamps == []
    || (&& notified != []
        && ((stamps[0] == notified[0] && StampedFrom(stamps[1..], notified)) || StampedFrom(stamps, notified[1..])))
  }

  lemma {:induction false} StampsAreNotified(stamps: seq<nat>, notified: seq<nat>, i: nat)
    requires StampedFrom(stamps, notified) && i < |stamps|
    ensures stamps[i] in notified
    decreases |stamps| + |notified|
  {
    if stamps[0] == notified[0] && StampedFrom(stamps[1..], notified) {
      if i > 0 {
        StampsAreNotified(stamps[1..], notified, i - 1);
      }
    } else {
      StampsAreNotified(stamps, notified[1..], i);
    }
  }

  lemma {:induction false} StampsAreSorted(stamps: seq<nat>, notified: seq<nat>)
    requires StampedFrom(stamps, notified) && Sockets.Sorted(notified)
    ensures Sockets.Sorted(stamps)
    decreases |stamps| + |notified|
  {
    if stamps == [] {
    } else if stamps[0] == notified[0] && StampedFrom(stamps[1..], notified) {
      StampsAreSorted(stamps[1..], notified);
      forall i, j | 0 <= i < j < |stamps| ensures stamps[i] <= stamps[j] {
        StampsAreNotified(stamps, notified, j);
        assert i > 0 ==> stamps[i] == stamps[1..][i - 1];
        assert stamps[j] == stamps[1..][j - 1];
      }
    } else {
      StampsAreSorted(stamps, notified[1..]);
    }
  }

  /**
   A completion stamps all its state effects with the committed version, which never goes back, so
   sockets receive them in order, however many each completion sends.
   */
  lemma NotifiedStateArrivesInOrder(t: Runtime.Trace, stream: Stream, actions: seq<Sockets.Action>, id: string)
    requires Runtime.TraceOk(t, stream) && StampedFrom(Sockets.VersionsOf(actions), t.notified)
    requires id in Sockets.ActAll(map[], actions)
    ensures var received := Sockets.ActAll(map[], actions)[id].channel.received;
            Sockets.SnapshotFirst(received) && Sockets.Ascending(received)
  {
    StampsAreSorted(Sockets.VersionsOf(actions), t.notified);
    Sockets.StampedStateArrivesInOrder(actions, id);
  }
}
