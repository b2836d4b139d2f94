/** What the invariant means for every run of one activation. */
module ActivationSafety {
  import opened Names
  import opened Snapshots
  import opened Witnesses
  import opened ReplicaViews
  import opened Activation
  import opened ActivationInvariant

  predicate CanRun(ep: Epoch, events: seq<Event>)
    decreases |events|
  {
    events == [] || (Enabled(ep, events[0]) && CanRun(Apply(ep, events[0]), events[1..]))
  }

  function Run(ep: Epoch, events: seq<Event>): Epoch
    requires CanRun(ep, events)
    decreases |events|
  {
    if events == [] then ep else Run(Apply(ep, events[0]), events[1..])
  }

  lemma {:induction false} RunMore(ep: Epoch, events: seq<Event>, ev: Event)
    requires CanRun(ep, events) && Enabled(Run(ep, events), ev)
    ensures CanRun(ep, events + [ev]) && Run(ep, events + [ev]) == Apply(Run(ep, events), ev)
    decreases |events|
  {
    if events != [] {
      assert (events + [ev])[1..] == events[1..] + [ev];
      RunMore(Apply(ep, events[0]), events[1..], ev);
    }
  }

  ghost predicate Reachable(start: Epoch, ep: Epoch) {
    exists events :: CanRun(start, events) && Run(start, events) == ep
  }

  lemma Next(start: Epoch, ep: Epoch, ev: Event) returns (next: Epoch)
    requires Reachable(start, ep) && Enabled(ep, ev)
    ensures next == Apply(ep, ev) && Reachable(start, next)
  {
    var events :| CanRun(start, events) && Run(start, events) == ep;
    RunMore(start, events, ev);
    next := Apply(ep, ev);
  }

  /** An activation that has just been claimed. */
  function Claimed(stream: Stream, base: Option<SnapshotRef>): Epoch {
    var v := stream.baseVersion;
    Epoch(stream, base, map[], Session({}, Absent, 0), map[], Writer(map[], v, v, v, true, Initial), {}, map[])
  }

  lemma ClaimedIsSafe(stream: Stream, base: Option<SnapshotRef>)
    requires StreamOk(stream) && BaseOk(stream, base) && stream.baseVersion < U64_LIMIT
    ensures Inv(Claimed(stream, base))
  {
  }

  lemma {:induction false} RunKeepsInv(ep: Epoch, events: seq<Event>)
    requires Inv(ep) && CanRun(ep, events)
    ensures Inv(Run(ep, events))
    decreases |events|
  {
    if events != [] {
      EventKeepsInv(ep, events[0]);
      RunKeepsInv(Apply(ep, events[0]), events[1..]);
    }
  }

  // ---- What a finished recovery returns ----

  /** The version a recovery returns; 0 stands for an actor without state. */
  function ResultVersion(candidate: Option<SnapshotRef>): nat {
    if candidate.Some? then candidate.value.version else 0
  }

  /**
   A finished recovery returns at least what was acknowledged when it began, unless the session
   was sealed between its bucket listing and its look at the replica set.
   */
  lemma RecoveryReachesAcknowledged(ep: Epoch, id: nat)
    requires Inv(ep) && id in ep.readers && ep.readers[id].phase == Done
    requires ep.readers[id].sealedAtMembers ==> ep.readers[id].sealedAtList
    ensures ep.readers[id].floor <= ResultVersion(ep.readers[id].candidate)
  {
    assert ReaderOk(ep, ep.readers[id]);
  }

  /** `version` is acknowledged, and the recovery was begun after that or is yet to begin. */
  predicate Owes(ep: Epoch, id: nat, version: nat) {
    version <= ep.writer.committed && (id in ep.readers ==> version <= ep.readers[id].floor)
  }

  lemma EventKeepsOwed(ep: Epoch, ev: Event, id: nat, version: nat)
    requires WriterOk(ep) && Enabled(ep, ev) && Owes(ep, id, version)
    ensures Owes(Apply(ep, ev), id, version)
  {
    match ev
    case Writing(_) =>
    case Upload(_) =>
    case OnReplica(_, _) =>
    case OnSession(_) =>
    case Reading(_, _) =>
  }

  lemma {:induction false} RunKeepsOwed(ep: Epoch, events: seq<Event>, id: nat, version: nat)
    requires Inv(ep) && CanRun(ep, events) && Owes(ep, id, version)
    ensures Owes(Run(ep, events), id, version)
    decreases |events|
  {
    if events != [] {
      EventKeepsInv(ep, events[0]);
      EventKeepsOwed(ep, events[0], id, version);
      RunKeepsOwed(Apply(ep, events[0]), events[1..], id, version);
    }
  }

  /** Over any run: a recovery that begins later returns at least what was acknowledged before. */
  lemma LaterRecoveryReachesAcknowledged(ep: Epoch, events: seq<Event>, id: nat)
    requires Inv(ep) && CanRun(ep, events) && id !in ep.readers
    requires id in Run(ep, events).readers && Run(ep, events).readers[id].phase == Done
    requires Run(ep, events).readers[id].sealedAtMembers ==> Run(ep, events).readers[id].sealedAtList
    ensures ep.writer.committed <= ResultVersion(Run(ep, events).readers[id].candidate)
  {
    RunKeepsInv(ep, events);
    RunKeepsOwed(ep, events, id, ep.writer.committed);
    RecoveryReachesAcknowledged(Run(ep, events), id);
  }

  /**
   A takeover recovers after sealing, so it always meets that condition. By then authority is over,
   so whatever was or will be answered is among what it reaches.
   */
  lemma TakeoverReachesAcknowledged(ep: Epoch, id: nat)
    requires Inv(ep) && id in ep.readers && ep.readers[id].phase == Done && ep.readers[id].takeover
    ensures !ep.writer.authority
    ensures ep.writer.answered <= ep.readers[id].floor <= ResultVersion(ep.readers[id].candidate)
  {
  }

  /** So does a host that still holds its lease when the recovery returns. */
  lemma AuthorizedReadReachesAcknowledged(ep: Epoch, id: nat)
    requires Inv(ep) && id in ep.readers && ep.readers[id].phase == Done && ep.writer.authority
    ensures ep.readers[id].floor <= ResultVersion(ep.readers[id].candidate)
  {
  }

  /** A reader that listed `listed` and has asked nobody because it saw the session sealed. */
  predicate OnlyListed(reader: Reader, listed: Option<SnapshotRef>) {
    || (reader.phase == Listed && reader.candidate == listed)
    || (reader.phase in {Asking, Done} &&
        (reader.sealedAtMembers ==> reader.members == {} && reader.candidate == listed))
  }

  lemma EventKeepsListed(ep: Epoch, ev: Event, id: nat, listed: Option<SnapshotRef>)
    requires Inv(ep) && Enabled(ep, ev) && id in ep.readers && OnlyListed(ep.readers[id], listed)
    ensures id in Apply(ep, ev).readers && OnlyListed(Apply(ep, ev).readers[id], listed)
    ensures Apply(ep, ev).readers[id].floor == ep.readers[id].floor
  {
    if ev.Reading? && ev.id == id {
      ReadDoesNotFail(ep, id, ev.read);
      ReadKeepsListed(ep, id, ev.read, listed);
    } else {
      OthersKeepReader(ep, ev, id);
    }
  }

  lemma ReadDoesNotFail(ep: Epoch, id: nat, ev: ReadEvent)
    requires Inv(ep) && CanRead(ep, id, ev)
    ensures Read(ep, id, ev).phase != Failed
  {
    ReadKeepsReader(ep, id, ev);
  }

  lemma ReadKeepsListed(ep: Epoch, id: nat, ev: ReadEvent, listed: Option<SnapshotRef>)
    requires id in ep.readers && CanRead(ep, id, ev) && OnlyListed(ep.readers[id], listed)
    requires Read(ep, id, ev).phase != Failed
    ensures OnlyListed(Read(ep, id, ev), listed) && Read(ep, id, ev).floor == ep.readers[id].floor
  {
  }

  lemma OthersKeepReader(ep: Epoch, ev: Event, id: nat)
    requires Enabled(ep, ev) && id in ep.readers && !(ev.Reading? && ev.id == id)
    ensures id in Apply(ep, ev).readers && Apply(ep, ev).readers[id] == ep.readers[id]
  {
  }

  lemma {:induction false} RunKeepsListed(ep: Epoch, events: seq<Event>, id: nat, listed: Option<SnapshotRef>)
    requires Inv(ep) && CanRun(ep, events) && id in ep.readers && OnlyListed(ep.readers[id], listed)
    ensures id in Run(ep, events).readers && OnlyListed(Run(ep, events).readers[id], listed)
    ensures Run(ep, events).readers[id].floor == ep.readers[id].floor
    decreases |events|
  {
    if events != [] {
      EventKeepsInv(ep, events[0]);
      EventKeepsListed(ep, events[0], id, listed);
      RunKeepsListed(Apply(ep, events[0]), events[1..], id, listed);
    }
  }

  /**
   Exactly when a recovery falls short: its listing did not reach what was acknowledged when it
   began, and it then found the session sealed and so asked no replica.
   */
  lemma FallsShortExactlyWhenSealedAfterListing(ep: Epoch, events: seq<Event>, id: nat)
    requires Inv(ep) && CanRun(ep, events)
    requires id in ep.readers && ep.readers[id].phase == Listed
    requires id in Run(ep, events).readers && Run(ep, events).readers[id].phase == Done
    ensures var (listed, done) := (ep.readers[id], Run(ep, events).readers[id]);
            ResultVersion(done.candidate) < listed.floor <==>
            ResultVersion(listed.candidate) < listed.floor && done.sealedAtMembers
  {
    RunKeepsListed(ep, events, id, ep.readers[id].candidate);
    RunKeepsInv(ep, events);
    assert ReaderOk(Run(ep, events), Run(ep, events).readers[id]);
    if !Run(ep, events).readers[id].sealedAtMembers {
      RecoveryReachesAcknowledged(Run(ep, events), id);
    }
  }

  /**
   A finished recovery returns the snapshot the activation began with, or one the writer issued,
   with the issued content in the bucket under its name. Nothing beyond the one write that may
   still be pending can be returned.
   */
  lemma RecoveryReturnsIssued(ep: Epoch, id: nat)
    requires Inv(ep) && id in ep.readers && ep.readers[id].phase == Done
    ensures var candidate := ep.readers[id].candidate;
            || candidate == ep.base
            || (&& candidate.Some?
                && candidate.value.version in ep.bucket
                && ep.bucket[candidate.value.version] == ep.writer.issued[candidate.value.version]
                && candidate == Some(ep.RefTo(ep.bucket[candidate.value.version]))
                && candidate.value.version <= ep.writer.last <= ep.writer.committed + 1)
  {
    assert ReaderOk(ep, ep.readers[id]);
  }

  lemma RecoveryReachesBase(ep: Epoch, id: nat)
    requires Inv(ep) && id in ep.readers && ep.readers[id].phase == Done
    ensures ep.stream.baseVersion <= ResultVersion(ep.readers[id].candidate)
  {
    RecoveryReturnsIssued(ep, id);
  }

  /**
   A finished recovery, takeover or not, returns a state between the one acknowledged last when it
   began and the one issued last. If nothing was acknowledged meanwhile, that is the last
   acknowledged state or the single pending one.
   */
  lemma RecoveryReturnsLastOrPending(ep: Epoch, id: nat)
    requires Inv(ep) && id in ep.readers && ep.readers[id].phase == Done
    requires ep.readers[id].sealedAtMembers ==> ep.readers[id].sealedAtList
    ensures ep.readers[id].floor <= ResultVersion(ep.readers[id].candidate) <= ep.writer.last
    ensures ep.readers[id].floor == ep.writer.committed ==>
              ResultVersion(ep.readers[id].candidate) in {ep.writer.committed, ep.writer.committed + 1}
  {
    RecoveryReachesAcknowledged(ep, id);
    RecoveryReturnsIssued(ep, id);
  }

  /** Over any run: with nothing acknowledged since, a recovery returns that state or the pending one. */
  lemma LaterRecoveryReturnsLastOrPending(ep: Epoch, events: seq<Event>, id: nat)
    requires Inv(ep) && CanRun(ep, events) && id !in ep.readers
    requires id in Run(ep, events).readers && Run(ep, events).readers[id].phase == Done
    requires Run(ep, events).readers[id].sealedAtMembers ==> Run(ep, events).readers[id].sealedAtList
    ensures ep.writer.committed <= ResultVersion(Run(ep, events).readers[id].candidate) <= Run(ep, events).writer.last
    ensures Run(ep, events).writer.committed == ep.writer.committed ==>
              ResultVersion(Run(ep, events).readers[id].candidate) in {ep.writer.committed, ep.writer.committed + 1}
  {
    LaterRecoveryReachesAcknowledged(ep, events, id);
    RunKeepsInv(ep, events);
    RecoveryReturnsLastOrPending(Run(ep, events), id);
  }

  /** Witnesses never conflict: no recovery ends with "conflicting snapshot witnesses". */
  lemma WitnessesNeverConflict(ep: Epoch, id: nat)
    requires Inv(ep) && id in ep.readers
    ensures ep.readers[id].phase != Failed
  {
    assert ReaderOk(ep, ep.readers[id]);
  }

  // ---- Later recoveries ----

  /** A stored version stays stored, and a recovery that has yet to begin will list it. */
  predicate WillSee(ep: Epoch, version: nat, id: nat) {
    version in ep.bucket && (id in ep.readers ==> version in ep.readers[id].stored)
  }

  lemma EventKeepsSight(ep: Epoch, ev: Event, version: nat, id: nat)
    requires Enabled(ep, ev) && WillSee(ep, version, id)
    ensures WillSee(Apply(ep, ev), version, id)
    ensures Apply(ep, ev).stream == ep.stream && Apply(ep, ev).base == ep.base
  {
  }

  lemma {:induction false} RunKeepsSight(ep: Epoch, events: seq<Event>, version: nat, id: nat)
    requires CanRun(ep, events) && WillSee(ep, version, id)
    ensures WillSee(Run(ep, events), version, id)
    decreases |events|
  {
    if events != [] {
      EventKeepsSight(ep, events[0], version, id);
      RunKeepsSight(Apply(ep, events[0]), events[1..], version, id);
    }
  }

  lemma {:induction false} RunKeepsStream(ep: Epoch, events: seq<Event>)
    requires CanRun(ep, events)
    ensures Run(ep, events).stream == ep.stream && Run(ep, events).base == ep.base
    decreases |events|
  {
    if events != [] {
      RunKeepsStream(Apply(ep, events[0]), events[1..]);
    }
  }

  /** A recovery that begins after another has finished never returns an older version. */
  lemma LaterRecoveryIsNotOlder(ep: Epoch, first: nat, events: seq<Event>, second: nat)
    requires Inv(ep) && first in ep.readers && ep.readers[first].phase == Done
    requires second !in ep.readers && CanRun(ep, events)
    requires second in Run(ep, events).readers && Run(ep, events).readers[second].phase == Done
    ensures ResultVersion(ep.readers[first].candidate) <=
            ResultVersion(Run(ep, events).readers[second].candidate)
  {
    var end := Run(ep, events);
    RunKeepsInv(ep, events);
    RunKeepsStream(ep, events);
    RecoveryReturnsIssued(ep, first);
    RecoveryReturnsIssued(end, second);
    assert ReaderOk(end, end.readers[second]);
    if ep.readers[first].candidate != ep.base {
      RunKeepsSight(ep, events, ep.readers[first].candidate.value.version, second);
    }
  }

  // ---- Sealing ----

  /** Once a seal is on disk, no event changes that replica again. */
  lemma {:induction false} SealFreezes(ep: Epoch, events: seq<Event>, r: Id)
    requires Inv(ep) && CanRun(ep, events) && ep.Rep(r).disk.sealed
    ensures Run(ep, events).Rep(r) == ep.Rep(r)
    decreases |events|
  {
    if events != [] {
      EventKeepsInv(ep, events[0]);
      EventKeepsSealed(ep, events[0], r);
      SealFreezes(Apply(ep, events[0]), events[1..], r);
    }
  }

  lemma EventKeepsSealed(ep: Epoch, ev: Event, r: Id)
    requires ReplicasOk(ep) && Enabled(ep, ev) && ep.Rep(r).disk.sealed
    ensures Apply(ep, ev).Rep(r) == ep.Rep(r)
  {
    assert ReplicaOk(ep, ep.Rep(r));
  }

  /**
   Whatever happens before or after, no version that the writer commits on a replica set with a
   sealed member is above the head that member had when it was sealed.
   */
  lemma SealCapsReplicaCommits(ep: Epoch, events: seq<Event>, r: Id)
    requires Inv(ep) && CanRun(ep, events) && ep.Rep(r).disk.sealed
    requires CanWrite(Run(ep, events), CommitReplicas) && r in Run(ep, events).writer.mode.members
    ensures HeadAtLeast(ep.Rep(r).disk, Run(ep, events).writer.last)
    ensures forall v :: v in ep.Rep(r).confirmed ==> HeadAtLeast(ep.Rep(r).disk, v)
  {
    SealFreezes(ep, events, r);
    RunKeepsInv(ep, events);
    assert ReplicaOk(ep, ep.Rep(r));
  }
}
