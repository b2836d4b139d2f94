/** A takeover can always be finished, given one replica of the recorded set. */
module TakeoverProgress {
  import opened Names
  import opened Snapshots
  import opened ReplicaViews
  import opened Activation
  import opened ActivationInvariant
  import opened ActivationSafety

  /** Sealed replicas of the recorded set, at least one if there are any, and the newest head among them. */
  predicate Collected(ep: Epoch, witnesses: set<Id>, top: Option<nat>) {
    && witnesses <= ep.session.members
    && (ep.session.members == {} || witnesses != {})
    && (forall r :: r in witnesses ==> ep.Rep(r).disk.initialized && ep.Rep(r).disk.sealed)
    && IsTop(ep, witnesses, top)
  }

  lemma TopIsIssued(ep: Epoch, witnesses: set<Id>, top: nat)
    requires ReplicasOk(ep) && IsTop(ep, witnesses, Some(top))
    ensures top in ep.writer.issued
  {
    var r :| r in witnesses && ep.Rep(r).disk.head.Some? && ep.Rep(r).disk.head.value.version == top;
    assert ReplicaOk(ep, ep.Rep(r));
  }

  /** Restoring the newest collected head changes nothing else, and then the recovery can finish. */
  lemma RestoredCanFinish(ep: Epoch, witnesses: set<Id>, top: nat)
    requires ep.session.state == Recovering && Collected(ep, witnesses, Some(top)) && top in ep.writer.issued
    ensures CanStep(Uploaded(ep, top), FinishRecovery(witnesses, Some(top)))
  {
    var next := Uploaded(ep, top);
    assert next.session == ep.session && next.replicas == ep.replicas && top in next.bucket;
    assert forall r :: next.Rep(r) == ep.Rep(r);
  }

  /** From one reachable state to the next. */
  lemma Go(start: Epoch, from: Epoch, ev: Event) returns (ep: Epoch)
    requires Reachable(start, from) && Inv(from) && Enabled(from, ev)
    ensures ep == Apply(from, ev) && Reachable(start, ep) && Inv(ep)
  {
    EventKeepsInv(from, ev);
    ep := Next(start, from, ev);
  }

  /** The newest collected head was issued, so it can be restored, and then the recovery can finish. */
  lemma RecoveryCanFinish(start: Epoch, ep: Epoch, witnesses: set<Id>, top: Option<nat>) returns (restored: Epoch)
    requires Reachable(start, ep) && Inv(ep) && ep.session.state == Recovering && Collected(ep, witnesses, top)
    ensures Reachable(start, restored) && Inv(restored) && restored == ep.(bucket := restored.bucket)
    ensures CanStep(restored, FinishRecovery(witnesses, top))
  {
    restored := ep;
    if top.Some? {
      TopIsIssued(ep, witnesses, top.value);
      RestoredCanFinish(ep, witnesses, top.value);
      restored := Go(start, ep, Upload(top.value));
    }
  }

  /** While a session is recovering nothing but the end of the recovery changes its record. */
  lemma EventKeepsRecovering(ep: Epoch, ev: Event)
    requires SwapsOk(ep) && Enabled(ep, ev) && ep.session.state in {Recovering, Sealed}
    ensures Apply(ep, ev).session.state in {Recovering, Sealed}
    ensures Apply(ep, ev).session.members == ep.session.members
  {
    if ev.OnSession? && ev.step.Deliver? {
      assert SwapOk(ep, ev.step.swap);
    }
  }

  lemma {:induction false} RunKeepsRecovering(ep: Epoch, events: seq<Event>)
    requires Inv(ep) && CanRun(ep, events) && ep.session.state in {Recovering, Sealed}
    ensures Run(ep, events).session.state in {Recovering, Sealed}
    ensures Run(ep, events).session.members == ep.session.members
    decreases |events|
  {
    if events != [] {
      EventKeepsInv(ep, events[0]);
      EventKeepsRecovering(ep, events[0]);
      RunKeepsRecovering(Apply(ep, events[0]), events[1..]);
    }
  }

  /**
   What was collected stays what it was: whatever happens, crashes and late writes included, the
   recovery that collected these witnesses can finish with the same top, unless another has.
   */
  lemma CollectedStays(ep: Epoch, events: seq<Event>, witnesses: set<Id>, top: Option<nat>) returns (restored: Epoch)
    requires Inv(ep) && CanRun(ep, events) && ep.session.state == Recovering && Collected(ep, witnesses, top)
    requires Run(ep, events).session.state != Sealed
    ensures Collected(Run(ep, events), witnesses, top)
    ensures Reachable(Run(ep, events), restored) && CanStep(restored, FinishRecovery(witnesses, top))
  {
    var end := Run(ep, events);
    RunKeepsInv(ep, events);
    RunKeepsRecovering(ep, events);
    forall r | r in witnesses ensures end.Rep(r) == ep.Rep(r) {
      SealFreezes(ep, events, r);
    }
    assert CanRun(end, []) && Run(end, []) == end;
    restored := RecoveryCanFinish(end, end, witnesses, top);
  }

  lemma {:induction false} NewestOf(keys: set<nat>) returns (newest: Option<nat>)
    ensures IsNewest(keys, newest)
    decreases |keys|
  {
    if keys == {} {
      newest := None;
    } else {
      var key :| key in keys;
      var rest := NewestOf(keys - {key});
      newest := if rest.Some? && key < rest.value then rest else Some(key);
      assert forall w :: w in keys ==> w == key || w in keys - {key};
    }
  }

  function HeadVersion(v: View): Option<nat> {
    if v.head.Some? then Some(v.head.value.version) else None
  }

  lemma SealedAlone(ep: Epoch, r: Id)
    requires r in ep.session.members && ep.Rep(r).disk.initialized && ep.Rep(r).disk.sealed
    ensures Collected(ep, {r}, HeadVersion(ep.Rep(r).disk))
  {
    assert r in {r};
  }

  /** Sealing one replica durably. */
  lemma OneReplicaCollects(start: Epoch, from: Epoch, r: Id) returns (ep: Epoch, top: Option<nat>)
    requires Reachable(start, from) && Inv(from) && from.session.state == Recovering
    requires r in from.session.members && from.Rep(r).memory.initialized
    ensures Reachable(start, ep) && Inv(ep) && ep == from.(replicas := ep.replicas) && Collected(ep, {r}, top)
  {
    ep := Go(start, from, OnReplica(r, Seal));
    ep := Go(start, ep, OnReplica(r, Sync));
    top := HeadVersion(ep.Rep(r).disk);
    SealedAlone(ep, r);
  }

  /** One answering replica is enough to seal: it is sealed and synced, its head restored. */
  lemma OneReplicaSeals(start: Epoch, from: Epoch, r: Id) returns (ep: Epoch)
    requires Reachable(start, from) && Inv(from) && from.session.state == Recovering
    requires r in from.session.members && from.Rep(r).memory.initialized
    ensures Reachable(start, ep) && Inv(ep) && ep.session.state == Sealed && ep.readers == from.readers
  {
    var top;
    ep, top := OneReplicaCollects(start, from, r);
    ep := RecoveryCanFinish(start, ep, {r}, top);
    ep := Go(start, ep, OnSession(FinishRecovery({r}, top)));
  }

  lemma CanSeal(start: Epoch, r: Id) returns (ep: Epoch)
    requires Inv(start) && !start.writer.authority
    requires start.session.members == {} || (r in start.session.members && start.Rep(r).memory.initialized)
    ensures Reachable(start, ep) && Inv(ep) && ep.session.state == Sealed && ep.readers == start.readers
  {
    assert CanRun(start, []) && Run(start, []) == start;
    ep := start;
    if ep.session.state in {Absent, Open} {
      ep := Go(start, ep, OnSession(StartRecovery));
    }
    if ep.session.state == Recovering {
      if ep.session.members == {} {
        ep := Go(start, ep, OnSession(FinishRecovery({}, None)));
      } else {
        ep := OneReplicaSeals(start, ep, r);
      }
    }
  }

  lemma SealedCanBeRead(start: Epoch, from: Epoch, id: nat) returns (ep: Epoch)
    requires Reachable(start, from) && Inv(from) && from.session.state == Sealed && id !in from.readers
    ensures Reachable(start, ep) && Inv(ep) && id in ep.readers
    ensures ep.readers[id].takeover && ep.readers[id].phase == Done
  {
    ep := ReadOn(start, from, id, Begin(true));
    var newest := NewestOf(ep.bucket.Keys);
    ep := ReadOn(start, ep, id, List(newest));
    ep := ReadOn(start, ep, id, Members);
    assert ReaderOk(ep, ep.readers[id]);
    ep := ReadOn(start, ep, id, Finish);
  }

  lemma ReadOn(start: Epoch, from: Epoch, id: nat, ev: ReadEvent) returns (ep: Epoch)
    requires Reachable(start, from) && Inv(from) && CanRead(from, id, ev)
    ensures Reachable(start, ep) && Inv(ep) && ep == from.(readers := from.readers[id := Read(from, id, ev)])
    ensures ep.readers[id].phase != Failed
  {
    ep := Go(start, from, Reading(id, ev));
    assert ReaderOk(ep, ep.readers[id]);
  }

  /**
   Once authority is over, one initialized replica of the recorded set is enough for a takeover to
   finish, from every reachable state, and it returns at least what was acknowledged.
   */
  lemma TakeoverCanFinish(start: Epoch, r: Id, id: nat) returns (ep: Epoch)
    requires Inv(start) && !start.writer.authority && id !in start.readers
    requires start.session.members == {} || (r in start.session.members && start.Rep(r).memory.initialized)
    ensures Reachable(start, ep) && id in ep.readers && ep.readers[id].takeover && ep.readers[id].phase == Done
    ensures start.writer.committed <= ResultVersion(ep.readers[id].candidate)
  {
    ep := CanSeal(start, r);
    ep := SealedCanBeRead(start, ep, id);
    var events :| CanRun(start, events) && Run(start, events) == ep;
    assert ReaderOk(ep, ep.readers[id]);
    LaterRecoveryReachesAcknowledged(start, events, id);
  }
}
