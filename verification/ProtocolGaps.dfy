/**
 Runs in which the code falls short of the recovery guarantee, and the exact conditions that rule
 them out.
 */
module ProtocolGaps {
  import opened Names
  import opened Snapshots
  import opened ReplicaViews
  import opened Activation
  import opened ActivationInvariant
  import opened ActivationSafety

  function Example(epoch: nat): Snapshot {
    Snapshot(epoch, 1, "request", "{}", "null", "null")
  }

  // ---- A recovery that overlaps sealing ----

  /** An initialized replica without snapshots, not yet synced. */
  const Idle := Replica(View(true, false, None), Blank, {})

  /** Replica 0 is initialized, recorded and in use. */
  lemma ReplicaInUse(stream: Stream) returns (ep: Epoch)
    requires stream.baseVersion == 0
    ensures Reachable(Claimed(stream, None), ep)
    ensures ep == Claimed(stream, None).(
                    session := Session({0}, Open, 1),
                    replicas := map[0 := Idle],
                    writer := Writer(map[], 0, 0, 0, true, Active({0})))
  {
    var start := Claimed(stream, None);
    assert CanRun(start, []) && Run(start, []) == start;
    ep := Next(start, start, OnSession(Register({0})));
    ep := Next(start, ep, OnReplica(0, Initialize));
    ep := Next(start, ep, OnSession(EnableInitial));
  }

  /** Version 1 is acknowledged while it is only on replica 0, which a recovery is about to ask. */
  lemma AcknowledgedOnReplicaOnly(stream: Stream) returns (ep: Epoch)
    requires stream.baseVersion == 0
    ensures Reachable(Claimed(stream, None), ep)
    ensures ep.stream == stream && ep.base == None && ep.bucket == map[] && ep.session == Session({0}, Open, 1)
    ensures ep.swaps == {} && ep.readers == map[]
    ensures var view := View(true, false, Some(Example(stream.epoch)));
            0 in ep.replicas && ep.replicas[0] == Replica(view, view, {1})
    ensures ep.writer == Writer(map[1 := Example(stream.epoch)], 1, 1, 1, true, Active({0}))
  {
    var start := Claimed(stream, None);
    ep := ReplicaInUse(stream);
    ep := Next(start, ep, Writing(Issue(Example(stream.epoch))));
    ep := Next(start, ep, OnReplica(0, Append(1)));
    ep := Next(start, ep, OnReplica(0, Confirm(1)));
    ep := Next(start, ep, Writing(CommitReplicas));
    ep := Next(start, ep, Writing(Answer));
    assert ep.writer.issued == map[1 := Example(stream.epoch)];
    assert ep.replicas[0].confirmed == {1};
  }

  /** The recovery has listed an empty bucket when a takeover starts and stores version 1. */
  lemma ListedBeforeTakeover(stream: Stream) returns (ep: Epoch)
    requires stream.baseVersion == 0
    ensures Reachable(Claimed(stream, None), ep)
    ensures ep.stream == stream && ep.base == None && ep.session == Session({0}, Recovering, 2)
    ensures 1 in ep.bucket
    ensures ep.Rep(0).disk == View(true, true, Some(Example(stream.epoch)))
    ensures ep.readers == map[7 := Reader(false, 1, {}, Listed, None, {}, {}, false, false)]
  {
    var start := Claimed(stream, None);
    ep := AcknowledgedOnReplicaOnly(stream);
    ep := Next(start, ep, Reading(7, Begin(false)));
    ep := Next(start, ep, Reading(7, List(None)));
    ep := Next(start, ep, Writing(Lapse));
    ep := Next(start, ep, OnSession(StartRecovery));
    ep := Next(start, ep, OnReplica(0, Seal));
    ep := Next(start, ep, OnReplica(0, Sync));
    ep := Next(start, ep, Upload(1));
  }

  /**
   A plain recovery lists the bucket, then the session is sealed by a takeover that stores
   version 1, then the recovery sees a sealed session with nobody to ask: it returns no state
   although version 1 had been acknowledged before it began.
   */
  lemma OverlappingRecoveryCanBeStale(stream: Stream) returns (ep: Epoch)
    requires stream.baseVersion == 0
    ensures Reachable(Claimed(stream, None), ep)
    ensures 7 in ep.readers && ep.readers[7].phase == Done && !ep.readers[7].takeover
    ensures ep.readers[7].sealedAtMembers && !ep.readers[7].sealedAtList
    ensures ResultVersion(ep.readers[7].candidate) < ep.readers[7].floor
  {
    var start := Claimed(stream, None);
    ep := ListedBeforeTakeover(stream);
    ep := Next(start, ep, OnSession(FinishRecovery({0}, Some(1))));
    ep := Next(start, ep, Reading(7, Members));
    ep := Next(start, ep, Reading(7, Finish));
  }

  // ---- Replacement while another replacement is in flight ----

  /** Runs of whatever the code may do, rivals or not. */
  predicate CanOccur(ep: Epoch, events: seq<Event>)
    decreases |events|
  {
    events == [] || (Possible(ep, events[0]) && CanOccur(Apply(ep, events[0]), events[1..]))
  }

  function Occur(ep: Epoch, events: seq<Event>): Epoch
    requires CanOccur(ep, events)
    decreases |events|
  {
    if events == [] then ep else Occur(Apply(ep, events[0]), events[1..])
  }

  /** No further repair begins. */
  predicate WithoutRepair(events: seq<Event>) {
    forall i :: 0 <= i < |events| && events[i].OnSession? ==> !events[i].step.Suspend?
  }

  const Confirmation := OnSession(ConfirmReplaced)

  /** The record names the targets, and nothing that is or will be in flight names others. */
  ghost predicate Settled(ep: Epoch, targets: set<Id>) {
    && ep.session.state != Absent
    && ep.session.members == targets
    && !ep.writer.mode.Repairing?
    && (forall swap :: swap in ep.swaps ==> swap.generation <= ep.session.generation)
    && NoRivalSwap(ep, targets)
  }

  lemma EventKeepsSettled(ep: Epoch, ev: Event, targets: set<Id>)
    requires Settled(ep, targets) && Possible(ep, ev) && (ev.OnSession? ==> !ev.step.Suspend?)
    ensures Settled(Apply(ep, ev), targets)
  {
  }

  lemma {:induction false} OccurKeepsSettled(ep: Epoch, events: seq<Event>, targets: set<Id>)
    requires Settled(ep, targets) && CanOccur(ep, events) && WithoutRepair(events)
    ensures Settled(Occur(ep, events), targets)
    decreases |events|
  {
    if events != [] {
      EventKeepsSettled(ep, events[0], targets);
      forall i | 0 <= i < |events| - 1 && events[1..][i].OnSession? ensures !events[1..][i].step.Suspend? {
        assert events[1..][i] == events[i + 1];
      }
      OccurKeepsSettled(Apply(ep, events[0]), events[1..], targets);
    }
  }

  /** Over every run from the confirmation to the next repair, the record names the targets. */
  ghost predicate StaysRecorded(ep: Epoch, targets: set<Id>) {
    forall events :: CanOccur(ep, events) && WithoutRepair(events) ==> Occur(ep, events).session.members == targets
  }

  /**
   A confirmed replacement stays the recorded set, whatever happens and whatever lands before the
   next repair, exactly if no rival was in flight when it was confirmed.
   */
  lemma ConfirmedSetStaysRecorded(ep: Epoch)
    requires Inv(ep) && Possible(ep, Confirmation)
    ensures StaysRecorded(Apply(ep, Confirmation), ep.writer.mode.targets) <==> Enabled(ep, Confirmation)
  {
    var (next, targets) := (Apply(ep, Confirmation), ep.writer.mode.targets);
    forall swap | swap in ep.swaps ensures swap.generation <= ep.session.generation {
      assert SwapOk(ep, swap);
    }
    if NoRivalSwap(ep, targets) {
      forall events | CanOccur(next, events) && WithoutRepair(events)
        ensures Occur(next, events).session.members == targets
      {
        OccurKeepsSettled(next, events, targets);
      }
    } else {
      var rival :| rival in ep.swaps && rival.generation == ep.session.generation && rival.targets != targets;
      var landing := [OnSession(Deliver(rival))];
      assert landing[1..] == [];
      var after := Apply(next, landing[0]);
      assert CanOccur(after, []) && Occur(after, []) == after;
      assert CanOccur(next, landing) && Occur(next, landing) == after;
    }
  }

  /**
   A replacement of {0} by {1} is proposed and given up while its request is still under way;
   the next one proposes the set {0} that the record already holds.
   */
  lemma RivalInFlight(stream: Stream) returns (ep: Epoch)
    requires stream.baseVersion == 0
    ensures Reachable(Claimed(stream, None), ep)
    ensures Possible(ep, Confirmation) && !Enabled(ep, Confirmation)
    ensures ep == Claimed(stream, None).(
                    session := Session({0}, Open, 1), swaps := {Swap({1}, 0, 1)},
                    replicas := map[0 := Idle, 1 := Idle], writer := Writer(map[], 0, 0, 0, true, Repairing({0}, 0)))
  {
    var start := Claimed(stream, None);
    ep := ReplicaInUse(stream);
    ep := Next(start, ep, OnReplica(1, Initialize));
    ep := Next(start, ep, OnSession(Suspend({1})));
    ep := Next(start, ep, OnSession(Propose(1)));
    ep := Next(start, ep, OnSession(GiveUp));
    ep := Next(start, ep, OnSession(Suspend({0})));
    assert ep.replicas == map[0 := Idle, 1 := Idle];
    assert Swap({1}, 0, 1) in ep.swaps;
  }

  lemma Then(start: Epoch, ep: Epoch, ev: Event) returns (next: Epoch)
    requires MayReach(start, ep) && Possible(ep, ev)
    ensures next == Apply(ep, ev) && MayReach(start, next)
  {
    var events :| CanOccur(start, events) && Occur(start, events) == ep;
    OccurMore(start, events, ev);
    next := Apply(ep, ev);
  }

  ghost predicate MayReach(start: Epoch, ep: Epoch) {
    exists events :: CanOccur(start, events) && Occur(start, events) == ep
  }

  lemma {:induction false} OccurMore(ep: Epoch, events: seq<Event>, ev: Event)
    requires CanOccur(ep, events) && Possible(Occur(ep, events), ev)
    ensures CanOccur(ep, events + [ev]) && Occur(ep, events + [ev]) == Apply(Occur(ep, events), ev)
    decreases |events|
  {
    if events != [] {
      assert (events + [ev])[1..] == events[1..] + [ev];
      OccurMore(Apply(ep, events[0]), events[1..], ev);
    }
  }

  /** Version 1 is issued, confirmed by replica 0 alone and acknowledged. */
  lemma AcknowledgeOnZero(start: Epoch, from: Epoch) returns (ep: Epoch)
    requires MayReach(start, from) && 0 in from.replicas && from.replicas[0] == Idle
    requires from.writer == Writer(map[], 0, 0, 0, true, Active({0}))
    ensures MayReach(start, ep) && ep.writer.answered == 1
    ensures ep == from.(writer := ep.writer, replicas := from.replicas[0 := ep.Rep(0)])
  {
    ep := Then(start, from, Writing(Issue(Example(from.stream.epoch))));
    ep := Then(start, ep, OnReplica(0, Append(1)));
    ep := Then(start, ep, OnReplica(0, Confirm(1)));
    ep := Then(start, ep, Writing(CommitReplicas));
    ep := Then(start, ep, Writing(Answer));
  }

  /**
   The replacement is confirmed with a rival in flight: version 1 is acknowledged by replica 0,
   the late request makes {1} the recorded set, and a takeover that hears from replica 1 recovers
   nothing. It makes no difference whether the request lands before the set is taken into use.
   */
  lemma RivalReplacementCanLoseState(stream: Stream, early: bool) returns (before: Epoch, ep: Epoch)
    requires stream.baseVersion == 0
    ensures Reachable(Claimed(stream, None), before)
    ensures Possible(before, Confirmation) && !Enabled(before, Confirmation)
    ensures MayReach(Apply(before, Confirmation), ep)
    ensures ep.writer.answered == 1
    ensures 7 in ep.readers && ep.readers[7].phase == Done && ep.readers[7].takeover
    ensures ep.readers[7].candidate == None
  {
    before := RivalInFlight(stream);
    var start := Apply(before, Confirmation);
    assert CanOccur(start, []) && Occur(start, []) == start;
    var landing := OnSession(Deliver(Swap({1}, 0, 1)));
    ep := start;
    if early {
      ep := Then(start, ep, landing);
    }
    ep := Then(start, ep, OnSession(EnableReplaced));
    ep := AcknowledgeOnZero(start, ep);
    if !early {
      ep := Then(start, ep, landing);
    }
    ep := RecoverNothing(start, ep);
  }

  lemma RecoverNothing(start: Epoch, from: Epoch) returns (ep: Epoch)
    requires MayReach(start, from)
    requires from.session == Session({1}, Open, 2) && 1 in from.replicas && from.replicas[1] == Idle
    requires from.base == None && from.bucket == map[] && from.readers == map[]
    ensures MayReach(start, ep) && ep.writer.answered == from.writer.answered
    ensures 7 in ep.readers && ep.readers[7].phase == Done && ep.readers[7].takeover
    ensures ep.readers[7].candidate == None
  {
    ep := Then(start, from, Writing(Lapse));
    ep := Then(start, ep, OnSession(StartRecovery));
    ep := Then(start, ep, OnReplica(1, Seal));
    ep := Then(start, ep, OnReplica(1, Sync));
    ep := Then(start, ep, OnSession(FinishRecovery({1}, None)));
    ep := Then(start, ep, Reading(7, Begin(true)));
    ep := Then(start, ep, Reading(7, List(None)));
    ep := Then(start, ep, Reading(7, Members));
    ep := Then(start, ep, Reading(7, Finish));
  }

  // ---- An answer after the lease has lapsed ----

  /** A takeover of an activation whose only version is still being written finds nothing. */
  lemma TakenOverEmpty(stream: Stream) returns (ep: Epoch)
    requires stream.baseVersion == 0
    ensures Reachable(Claimed(stream, None), ep)
    ensures ep.bucket == map[] && ep.writer == Writer(map[1 := Example(stream.epoch)], 1, 0, 0, false, Initial)
    ensures 7 in ep.readers && ep.readers[7].phase == Done && ep.readers[7].takeover
    ensures ep.readers[7].candidate == None
  {
    var start := Claimed(stream, None);
    assert CanRun(start, []) && Run(start, []) == start;
    ep := Next(start, start, Writing(Issue(Example(stream.epoch))));
    ep := Next(start, ep, Writing(Lapse));
    ep := Next(start, ep, OnSession(StartRecovery));
    ep := Next(start, ep, Reading(7, Begin(true)));
    ep := Next(start, ep, Reading(7, List(None)));
    ep := Next(start, ep, Reading(7, Members));
    ep := Next(start, ep, Reading(7, Finish));
  }

  /**
   Version 1 is still being written when the lease lapses. A takeover seals, finds an empty bucket
   and finishes; only then does the write land. Whoever is told now that the request completed is
   told of a version the next owner does not have.
   */
  lemma LateAnswerCanBeLost(stream: Stream) returns (ep: Epoch)
    requires stream.baseVersion == 0
    ensures Reachable(Claimed(stream, None), ep)
    ensures !ep.writer.authority && ep.writer.committed == 1 && ep.writer.answered == 0
    ensures 7 in ep.readers && ep.readers[7].phase == Done && ep.readers[7].takeover
    ensures ResultVersion(ep.readers[7].candidate) < ep.writer.committed
    ensures !Possible(ep, Writing(Answer))
  {
    ep := TakenOverEmpty(stream);
    ep := Next(Claimed(stream, None), ep, Upload(1));
    ep := Next(Claimed(stream, None), ep, Writing(CommitUpload));
  }
}
