/** What every event of an activation keeps. */
module ActivationInvariant {
  import opened Names
  import opened Snapshots
  import opened Witnesses
  import opened ReplicaViews
  import opened Activation

  /** The names of this stream encode its epoch and the version. */
  ghost predicate StreamOk(stream: Stream) {
    forall v: nat :: v < U64_LIMIT ==> SnapshotPosition(ObjectName(stream, v)) == Some(Position(stream.epoch, v))
  }

  /** The snapshot the activation started from belongs to an earlier epoch. */
  ghost predicate BaseOk(stream: Stream, base: Option<SnapshotRef>) {
    match base
    case None => stream.baseVersion == 0
    case Some(ref) =>
      && ref.version == stream.baseVersion
      && PositionOf(ref).Some?
      && PositionOf(ref).value.epoch < stream.epoch
  }

  ghost predicate WriterOk(ep: Epoch) {
    var w := ep.writer;
    && ep.stream.baseVersion <= w.answered <= w.committed <= w.last <= w.committed + 1
    && w.last < U64_LIMIT
    && (forall v :: v in w.issued <==> ep.stream.baseVersion < v <= w.last)
    && (forall v :: v in w.issued ==> w.issued[v].version == v && w.issued[v].epoch == ep.stream.epoch)
  }

  /** A snapshot with exactly the content the writer issued for its version. */
  ghost predicate Genuine(ep: Epoch, s: Snapshot) {
    s.version in ep.writer.issued && ep.writer.issued[s.version] == s
  }

  ghost predicate BucketOk(ep: Epoch) {
    forall v :: v in ep.bucket ==> v in ep.writer.issued && ep.bucket[v] == ep.writer.issued[v]
  }

  ghost predicate ReplicaOk(ep: Epoch, replica: Replica) {
    && Extends(replica.disk, replica.memory)
    && (replica.memory.head.Some? ==> Genuine(ep, replica.memory.head.value))
    && (replica.disk.head.Some? ==> Genuine(ep, replica.disk.head.value))
    && (forall v :: v in replica.confirmed ==> HeadAtLeast(replica.disk, v))
    && (replica.disk.sealed ==> replica.memory == replica.disk)
  }

  ghost predicate ReplicasOk(ep: Epoch) {
    forall r :: r in ep.replicas ==> ReplicaOk(ep, ep.replicas[r])
  }

  ghost predicate SessionOk(ep: Epoch) {
    && (ep.session.state == Absent <==> ep.session.generation == 0)
    && (ep.session.state == Absent ==> ep.session.members == {})
    && (ep.session.state in {Recovering, Sealed} ==> !ep.writer.authority)
  }

  ghost predicate InBucketFrom(ep: Epoch, version: nat) {
    exists v :: v in ep.bucket && version <= v
  }

  /** Every one of `targets` would bring `version` back after any crash. */
  ghost predicate HeldBy(ep: Epoch, targets: set<Id>, version: nat) {
    forall r :: r in targets ==> HeadAtLeast(ep.Rep(r).disk, version)
  }

  /** A swap that can still land loses nothing when it does. */
  ghost predicate SwapOk(ep: Epoch, swap: Swap) {
    && ep.stream.baseVersion <= swap.seeded
    && swap.targets != {}
    && swap.generation <= ep.session.generation
    && (swap.seeded == ep.stream.baseVersion || HeldBy(ep, swap.targets, swap.seeded))
    && (swap.generation == ep.session.generation ==>
          && ep.session.state in {Absent, Open}
          && (|| swap.targets == ep.session.members
              || ep.writer.committed <= swap.seeded
              || InBucketFrom(ep, ep.writer.committed)))
  }

  ghost predicate SwapsOk(ep: Epoch) {
    forall swap :: swap in ep.swaps ==> SwapOk(ep, swap)
  }

  /** The set is the recorded one, and nothing in flight can change that. */
  ghost predicate InUse(ep: Epoch, members: set<Id>) {
    members != {} && ep.session.members == members && NoRivalSwap(ep, members)
  }

  ghost predicate ModeOk(ep: Epoch) {
    match ep.writer.mode
    case Initial => ep.swaps == {}
    case Active(members) => InUse(ep, members)
    case Recorded(targets) => InUse(ep, targets)
    case Repairing(targets, seeded) =>
      && targets != {}
      && ep.stream.baseVersion <= seeded <= ep.writer.committed
      && (seeded < ep.writer.committed ==> InBucketFrom(ep, ep.writer.committed))
    case Suspended => true
  }

  /** The committed state is in the bucket or on every durable member. */
  ghost predicate Durable(ep: Epoch) {
    || ep.writer.committed == ep.stream.baseVersion
    || InBucketFrom(ep, ep.writer.committed)
    || (&& ep.session.state in {Open, Recovering}
        && ep.session.members != {}
        && HeldBy(ep, ep.session.members, ep.writer.committed))
  }

  /** Sealing kept at least one frozen member whose head is in the bucket. */
  ghost predicate SealOk(ep: Epoch) {
    ep.session.state == Sealed && ep.session.members != {} ==>
      exists r :: && r in ep.session.members
                  && ep.Rep(r).disk.sealed
                  && (ep.Rep(r).disk.head.Some? ==> InBucketFrom(ep, ep.Rep(r).disk.head.value.version))
  }

  ghost predicate FromEpoch(ep: Epoch, candidate: Option<SnapshotRef>) {
    && candidate.Some?
    && candidate.value.version in ep.writer.issued
    && candidate.value == ep.RefTo(ep.writer.issued[candidate.value.version])
  }

  /** The candidate is at `version` of this activation or beyond. */
  ghost predicate Reached(ep: Epoch, candidate: Option<SnapshotRef>, version: nat) {
    || version <= ep.stream.baseVersion
    || (FromEpoch(ep, candidate) && version <= candidate.value.version)
  }

  /** Any replica set a reader could still be told to ask holds `version`. */
  ghost predicate AskableSetsHold(ep: Epoch, version: nat) {
    && (ep.session.state != Sealed ==>
          && ep.session.members != {}
          && HeldBy(ep, ep.session.members, version))
    && (forall swap :: swap in ep.swaps && swap.generation == ep.session.generation ==>
          swap.targets == ep.session.members || version <= swap.seeded)
    && (ep.writer.mode.Repairing? ==> version <= ep.writer.mode.seeded)
  }

  ghost predicate ReaderOk(ep: Epoch, reader: Reader) {
    && ep.stream.baseVersion <= reader.floor <= ep.writer.committed
    && reader.stored <= ep.bucket.Keys
    && (reader.takeover ==> ep.session.state == Sealed && ep.writer.answered <= reader.floor && reader.members == {})
    && (reader.sealedAtMembers ==> ep.session.state == Sealed)
    && reader.phase != Failed
    && (reader.phase == Begun ==> reader.candidate == ep.base)
    && (reader.phase in {Begun, Listed} ==> reader.members == reader.witnesses == {})
    && (reader.phase != Begun ==>
          && (reader.candidate == ep.base || FromEpoch(ep, reader.candidate))
          && (forall v :: v in reader.stored ==> Reached(ep, reader.candidate, v))
          && (reader.takeover ==> reader.sealedAtList)
          && (reader.sealedAtList ==> Reached(ep, reader.candidate, reader.floor))
          && (reader.members == {} && reader.candidate != ep.base ==> reader.candidate.value.version in ep.bucket))
    && (reader.phase == Listed && !Reached(ep, reader.candidate, reader.floor) ==>
          ep.session.state != Absent && AskableSetsHold(ep, reader.floor))
    && (reader.phase in {Asking, Done} && !Reached(ep, reader.candidate, reader.floor) ==>
          if reader.members == {} then reader.sealedAtMembers
          else reader.witnesses == {} && HeldBy(ep, reader.members, reader.floor))
    && (reader.phase == Done ==>
          && (reader.candidate != ep.base ==> reader.candidate.value.version in ep.bucket)
          && (reader.members != {} ==> reader.witnesses != {}))
  }

  ghost predicate ReadersOk(ep: Epoch) {
    forall id :: id in ep.readers ==> ReaderOk(ep, ep.readers[id])
  }

  /** Contents and bounds. */
  ghost predicate Basics(ep: Epoch) {
    WriterOk(ep) && BucketOk(ep) && ReplicasOk(ep) && SessionOk(ep)
  }

  /** Nothing committed can be lost. */
  ghost predicate Safety(ep: Epoch) {
    SwapsOk(ep) && ModeOk(ep) && Durable(ep) && SealOk(ep)
  }

  ghost predicate Inv(ep: Epoch) {
    && StreamOk(ep.stream)
    && BaseOk(ep.stream, ep.base)
    && Basics(ep)
    && Safety(ep)
    && ReadersOk(ep)
  }

  // ---- Readers only depend on things that grow ----

  ghost predicate Grows(ep: Epoch, next: Epoch) {
    && next.stream == ep.stream
    && next.base == ep.base
    && next.readers == ep.readers
    && (forall v :: v in ep.writer.issued ==> v in next.writer.issued && next.writer.issued[v] == ep.writer.issued[v])
    && ep.writer.committed <= next.writer.committed
    && ep.bucket.Keys <= next.bucket.Keys
    && (forall r, v: nat :: HeadAtLeast(ep.Rep(r).disk, v) ==> HeadAtLeast(next.Rep(r).disk, v))
    && (ep.session.state == Sealed ==> next.session.state == Sealed && next.writer.answered == ep.writer.answered)
    && (forall v: nat ::
          ep.stream.baseVersion < v <= ep.writer.committed && ep.session.state != Absent && AskableSetsHold(ep, v) ==>
            next.session.state != Absent && AskableSetsHold(next, v))
  }

  lemma ReadersGrow(ep: Epoch, next: Epoch)
    requires Grows(ep, next) && ReadersOk(ep)
    ensures ReadersOk(next)
  {
  }

  // ---- A change to one replica ----

  /** A replica change that keeps confirmed state and frozen replicas. */
  ghost predicate ReplicaStep(ep: Epoch, r: Id, changed: Replica) {
    && ReplicaOk(ep, changed)
    && Extends(ep.Rep(r).disk, changed.disk)
    && (ep.Rep(r).disk.sealed ==> changed.disk == ep.Rep(r).disk)
  }

  lemma ChangeIsReplicaStep(ep: Epoch, r: Id, change: ReplicaEvent)
    requires Basics(ep) && CanChange(ep, ep.Rep(r), change)
    ensures ReplicaStep(ep, r, Changed(ep, ep.Rep(r), change))
  {
    assert ReplicaOk(ep, ep.Rep(r));
  }

  lemma ReplicaStepHolds(ep: Epoch, r: Id, changed: Replica)
    requires ReplicaStep(ep, r, changed)
    ensures var next := SetReplica(ep, r, changed);
            && (forall v: nat :: InBucketFrom(ep, v) ==> InBucketFrom(next, v))
            && (forall targets, v: nat :: HeldBy(ep, targets, v) ==> HeldBy(next, targets, v))
  {
  }

  lemma ReplicaStepKeepsSafety(ep: Epoch, r: Id, changed: Replica)
    requires Safety(ep) && ReplicaStep(ep, r, changed)
    ensures Safety(SetReplica(ep, r, changed))
  {
    ReplicaStepHolds(ep, r, changed);
  }

  lemma ReplicaStepGrows(ep: Epoch, r: Id, changed: Replica)
    requires ReplicaStep(ep, r, changed)
    ensures Grows(ep, SetReplica(ep, r, changed))
  {
    ReplicaStepHolds(ep, r, changed);
  }

  lemma ReplicaEventKeepsInv(ep: Epoch, r: Id, change: ReplicaEvent)
    requires Inv(ep) && CanChange(ep, ep.Rep(r), change)
    ensures Inv(SetReplica(ep, r, Changed(ep, ep.Rep(r), change)))
  {
    var changed := Changed(ep, ep.Rep(r), change);
    ChangeIsReplicaStep(ep, r, change);
    ReplicaStepKeepsSafety(ep, r, changed);
    ReplicaStepGrows(ep, r, changed);
    ReadersGrow(ep, SetReplica(ep, r, changed));
  }

  // ---- The writer and the bucket ----

  /** With the same bucket and replicas, what is held stays held. */
  lemma SameStores(ep: Epoch, next: Epoch)
    requires next.bucket == ep.bucket && next.replicas == ep.replicas
    ensures forall v: nat :: InBucketFrom(next, v) <==> InBucketFrom(ep, v)
    ensures forall targets, v: nat :: HeldBy(next, targets, v) <==> HeldBy(ep, targets, v)
  {
  }

  /** A committed version is in the bucket, or on all of the members in use. */
  lemma CommitIsDurable(ep: Epoch, ev: WriterEvent)
    requires Basics(ep) && Safety(ep) && CanWrite(ep, ev) && (ev.CommitUpload? || ev.CommitReplicas?)
    ensures InBucketFrom(ep, ep.writer.last) ||
            (&& ep.writer.mode.Active?
             && ep.session.state in {Open, Recovering}
             && ep.session.members != {}
             && HeldBy(ep, ep.session.members, ep.writer.last))
  {
  }

  lemma WriteKeepsBasics(ep: Epoch, ev: WriterEvent)
    requires Basics(ep) && CanWrite(ep, ev)
    ensures Basics(ep.(writer := Wrote(ep.writer, ev)))
  {
    var next := ep.(writer := Wrote(ep.writer, ev));
    assert forall s :: Genuine(ep, s) ==> Genuine(next, s);
  }

  lemma WriteKeepsSafety(ep: Epoch, ev: WriterEvent)
    requires Basics(ep) && Safety(ep) && CanWrite(ep, ev)
    ensures Safety(ep.(writer := Wrote(ep.writer, ev)))
  {
    var next := ep.(writer := Wrote(ep.writer, ev));
    SameStores(ep, next);
    if ev.CommitUpload? || ev.CommitReplicas? {
      CommitIsDurable(ep, ev);
    }
    forall swap | swap in next.swaps ensures SwapOk(next, swap) {
      assert SwapOk(ep, swap);
    }
  }

  lemma WriteGrows(ep: Epoch, ev: WriterEvent)
    requires Basics(ep) && CanWrite(ep, ev)
    ensures Grows(ep, ep.(writer := Wrote(ep.writer, ev)))
  {
    SameStores(ep, ep.(writer := Wrote(ep.writer, ev)));
  }

  lemma UploadHolds(ep: Epoch, version: nat)
    requires version in ep.writer.issued
    ensures var next := Uploaded(ep, version);
            && (forall v: nat :: InBucketFrom(ep, v) ==> InBucketFrom(next, v))
            && (forall targets, v: nat :: HeldBy(ep, targets, v) ==> HeldBy(next, targets, v))
  {
    var next := Uploaded(ep, version);
    assert forall v :: v in ep.bucket ==> v in next.bucket;
  }

  lemma UploadKeepsSafety(ep: Epoch, version: nat)
    requires Safety(ep) && version in ep.writer.issued
    ensures Safety(Uploaded(ep, version))
  {
    UploadHolds(ep, version);
  }

  lemma UploadGrows(ep: Epoch, version: nat)
    requires version in ep.writer.issued
    ensures Grows(ep, Uploaded(ep, version))
  {
    UploadHolds(ep, version);
  }

  // ---- The session record and the writer's replica set ----

  /** Contents and bounds do not mention the replica set in use. */
  lemma SameContents(ep: Epoch, next: Epoch)
    requires WriterOk(ep) && BucketOk(ep) && ReplicasOk(ep)
    requires next.stream == ep.stream && next.bucket == ep.bucket && next.replicas == ep.replicas
    requires next.writer == ep.writer.(mode := next.writer.mode)
    ensures WriterOk(next) && BucketOk(next) && ReplicasOk(next)
  {
    assert forall s :: Genuine(ep, s) ==> Genuine(next, s);
  }

  lemma StepKeepsBasics(ep: Epoch, ev: SessionEvent)
    requires Basics(ep) && SwapsOk(ep) && CanStep(ep, ev) && Unrivalled(ep, ev)
    ensures Basics(Stepped(ep, ev))
  {
    SameContents(ep, Stepped(ep, ev));
    if ev.Deliver? {
      assert SwapOk(ep, ev.swap);
    }
  }

  lemma ProposeKeepsSwaps(ep: Epoch, generation: nat)
    requires Basics(ep) && Safety(ep) && CanStep(ep, Propose(generation))
    ensures SwapsOk(Stepped(ep, Propose(generation)))
  {
  }

  lemma DeliverKeepsSafety(ep: Epoch, swap: Swap)
    requires Basics(ep) && Safety(ep) && CanStep(ep, Deliver(swap))
    ensures Safety(Stepped(ep, Deliver(swap)))
  {
    var next := Stepped(ep, Deliver(swap));
    SameStores(ep, next);
    assert SwapOk(ep, swap);
    forall other | other in next.swaps ensures SwapOk(next, other) {
      assert SwapOk(ep, other);
    }
    if HeldBy(ep, swap.targets, swap.seeded) && ep.writer.committed <= swap.seeded {
      assert HeldBy(ep, swap.targets, ep.writer.committed);
    }
  }

  lemma FinishRecoveryKeepsSafety(ep: Epoch, witnesses: set<Id>, top: Option<nat>)
    requires Basics(ep) && Safety(ep) && CanStep(ep, FinishRecovery(witnesses, top))
    ensures Safety(Stepped(ep, FinishRecovery(witnesses, top)))
  {
  }

  /** A session record that is not touched, or moves on, spoils no swap. */
  lemma SameSwaps(ep: Epoch, next: Epoch)
    requires SwapsOk(ep) && next.swaps == ep.swaps && next.stream == ep.stream
    requires next.bucket == ep.bucket && next.replicas == ep.replicas
    requires next.writer.committed == ep.writer.committed
    requires next.session == ep.session || ep.session.generation < next.session.generation
    ensures SwapsOk(next)
  {
  }

  lemma StepKeepsSafety(ep: Epoch, ev: SessionEvent)
    requires Basics(ep) && Safety(ep) && CanStep(ep, ev) && Unrivalled(ep, ev)
    ensures Safety(Stepped(ep, ev))
  {
    match ev
    case Propose(generation) =>
      SameStores(ep, Stepped(ep, ev));
      ProposeKeepsSwaps(ep, generation);
    case Deliver(swap) => DeliverKeepsSafety(ep, swap);
    case FinishRecovery(witnesses, top) => FinishRecoveryKeepsSafety(ep, witnesses, top);
    case _ =>
      SameStores(ep, Stepped(ep, ev));
      SameSwaps(ep, Stepped(ep, ev));
  }

  lemma DeliverGrows(ep: Epoch, swap: Swap)
    requires SwapsOk(ep) && CanStep(ep, Deliver(swap))
    ensures Grows(ep, Stepped(ep, Deliver(swap)))
  {
  }

  lemma ModeChangeGrows(ep: Epoch, mode: Mode)
    requires WriterOk(ep)
    requires mode.Repairing? ==> mode.seeded == ep.writer.committed
    ensures Grows(ep, ep.(writer := ep.writer.(mode := mode)))
  {
    SameStores(ep, ep.(writer := ep.writer.(mode := mode)));
  }

  lemma ProposeGrows(ep: Epoch, generation: nat)
    requires Basics(ep) && CanStep(ep, Propose(generation))
    ensures Grows(ep, Stepped(ep, Propose(generation)))
  {
    SameStores(ep, Stepped(ep, Propose(generation)));
  }

  lemma RecordGrows(ep: Epoch, ev: SessionEvent)
    requires Basics(ep) && SwapsOk(ep) && CanStep(ep, ev)
    requires ev.Register? || ev.StartRecovery? || ev.FinishRecovery?
    ensures Grows(ep, Stepped(ep, ev))
  {
    SameStores(ep, Stepped(ep, ev));
  }

  lemma StepGrows(ep: Epoch, ev: SessionEvent)
    requires Basics(ep) && Safety(ep) && CanStep(ep, ev)
    ensures Grows(ep, Stepped(ep, ev))
  {
    if ev.Deliver? {
      DeliverGrows(ep, ev.swap);
    } else if ev.EnableInitial? || ev.Suspend? || ev.GiveUp? || ev.ConfirmReplaced? || ev.EnableReplaced? {
      ModeChangeGrows(ep, Stepped(ep, ev).writer.mode);
    } else if ev.Propose? {
      ProposeGrows(ep, ev.generation);
    } else {
      RecordGrows(ep, ev);
    }
  }

  // ---- Readers ----

  /** The later of a candidate and a snapshot of this activation. */
  ghost function Later(ep: Epoch, candidate: Option<SnapshotRef>, s: Snapshot): Option<SnapshotRef> {
    if FromEpoch(ep, candidate) && s.version <= candidate.value.version then candidate else Some(ep.RefTo(s))
  }

  /** A genuine witness never conflicts, and the later of the two versions wins. */
  lemma GenuineWitness(ep: Epoch, candidate: Option<SnapshotRef>, s: Snapshot)
    requires StreamOk(ep.stream) && BaseOk(ep.stream, ep.base) && WriterOk(ep)
    requires candidate == ep.base || FromEpoch(ep, candidate)
    requires Genuine(ep, s)
    ensures Advance(PositionOf, candidate, Some(ep.RefTo(s))) == Newest(Later(ep, candidate, s))
  {
  }

  lemma LaterReaches(ep: Epoch, candidate: Option<SnapshotRef>, s: Snapshot)
    requires WriterOk(ep) && Genuine(ep, s)
    requires candidate == ep.base || FromEpoch(ep, candidate)
    ensures FromEpoch(ep, Later(ep, candidate, s))
    ensures forall v: nat :: Reached(ep, Later(ep, candidate, s), v) <==> Reached(ep, candidate, v) || v <= s.version
  {
  }

  ghost predicate Readable(ep: Epoch) {
    StreamOk(ep.stream) && BaseOk(ep.stream, ep.base) && Basics(ep) && Safety(ep)
  }

  /** What a reader learns from the bucket listing alone. */
  lemma UnlistedFloor(ep: Epoch, floor: nat)
    requires Basics(ep) && Safety(ep)
    requires ep.stream.baseVersion < floor <= ep.writer.committed && !InBucketFrom(ep, floor)
    ensures ep.session.state in {Open, Recovering} && AskableSetsHold(ep, floor)
  {
  }

  lemma ListKeepsReader(ep: Epoch, id: nat, newest: Option<nat>)
    requires Readable(ep) && CanRead(ep, id, List(newest)) && ReaderOk(ep, ep.readers[id])
    ensures ReaderOk(ep, Read(ep, id, List(newest)))
  {
    var before := ep.readers[id];
    var listed := before.(phase := Listed, sealedAtList := ep.session.state == Sealed);
    if newest.Some? {
      var s := ep.bucket[newest.value];
      GenuineWitness(ep, ep.base, s);
      LaterReaches(ep, ep.base, s);
      ListedReader(ep, before, listed.(candidate := Later(ep, ep.base, s)));
    } else {
      ListedReader(ep, before, listed);
    }
  }

  lemma ListedReader(ep: Epoch, before: Reader, after: Reader)
    requires Basics(ep) && Safety(ep) && ReaderOk(ep, before) && before.phase == Begun
    requires after == before.(phase := Listed, sealedAtList := ep.session.state == Sealed, candidate := after.candidate)
    requires after.candidate == ep.base || FromEpoch(ep, after.candidate)
    requires after.candidate != ep.base ==> after.candidate.value.version in ep.bucket
    requires forall v :: v in ep.bucket ==> Reached(ep, after.candidate, v)
    ensures ReaderOk(ep, after)
  {
    if !Reached(ep, after.candidate, after.floor) {
      assert !InBucketFrom(ep, after.floor);
      UnlistedFloor(ep, after.floor);
    }
  }

  lemma HeadKeepsReader(ep: Epoch, id: nat, r: Id)
    requires Readable(ep) && CanRead(ep, id, Head(r)) && ReaderOk(ep, ep.readers[id])
    ensures ReaderOk(ep, Read(ep, id, Head(r)))
  {
    var before := ep.readers[id];
    var asked := before.(witnesses := before.witnesses + {r});
    assert ReplicaOk(ep, ep.Rep(r));
    if ep.Rep(r).memory.head.Some? {
      var head := ep.Rep(r).memory.head.value;
      GenuineWitness(ep, before.candidate, head);
      LaterReaches(ep, before.candidate, head);
      AskedReader(ep, r, before, asked.(candidate := Later(ep, before.candidate, head)));
    } else {
      AskedReader(ep, r, before, asked);
    }
  }

  lemma AskedReader(ep: Epoch, r: Id, before: Reader, after: Reader)
    requires ReaderOk(ep, before) && before.phase == Asking && r in before.members
    requires ReplicaOk(ep, ep.Rep(r))
    requires after == before.(witnesses := before.witnesses + {r}, candidate := after.candidate)
    requires after.candidate == ep.base || FromEpoch(ep, after.candidate)
    requires forall v: nat :: Reached(ep, before.candidate, v) ==> Reached(ep, after.candidate, v)
    requires forall v: nat :: HeadAtLeast(ep.Rep(r).memory, v) ==> Reached(ep, after.candidate, v)
    ensures ReaderOk(ep, after)
  {
  }

  lemma ReadKeepsReader(ep: Epoch, id: nat, ev: ReadEvent)
    requires Inv(ep) && CanRead(ep, id, ev)
    ensures ReaderOk(ep, Read(ep, id, ev))
  {
    assert id in ep.readers ==> ReaderOk(ep, ep.readers[id]);
    match ev
    case Begin(_) =>
    case List(newest) => ListKeepsReader(ep, id, newest);
    case Members =>
    case Head(r) => HeadKeepsReader(ep, id, r);
    case Finish =>
  }

  /** Nothing but the readers mentions the readers. */
  lemma ReaderChangeKeepsInv(ep: Epoch, id: nat, reader: Reader)
    requires Inv(ep) && ReaderOk(ep, reader)
    ensures Inv(ep.(readers := ep.readers[id := reader]))
  {
    var next := ep.(readers := ep.readers[id := reader]);
    SameStores(ep, next);
    SameContents(ep, next);
    forall swap | swap in next.swaps ensures SwapOk(next, swap) {
      assert SwapOk(ep, swap);
    }
    forall x | x in next.readers ensures ReaderOk(next, next.readers[x]) {
      var kept := if x == id then reader else ep.readers[x];
      assert ReaderOk(ep, kept);
      ReaderIgnoresReaders(ep, next, kept);
    }
  }

  lemma ReaderIgnoresReaders(ep: Epoch, next: Epoch, reader: Reader)
    requires next == ep.(readers := next.readers) && ReaderOk(ep, reader)
    ensures ReaderOk(next, reader)
  {
  }

  // ---- Every event ----

  lemma WritingKeepsInv(ep: Epoch, ev: WriterEvent)
    requires Inv(ep) && CanWrite(ep, ev)
    ensures Inv(Apply(ep, Writing(ev)))
  {
    WriteKeepsBasics(ep, ev);
    WriteKeepsSafety(ep, ev);
    WriteGrows(ep, ev);
    ReadersGrow(ep, Apply(ep, Writing(ev)));
  }

  lemma UploadKeepsInv(ep: Epoch, version: nat)
    requires Inv(ep) && version in ep.writer.issued
    ensures Inv(Uploaded(ep, version))
  {
    UploadKeepsSafety(ep, version);
    UploadGrows(ep, version);
    ReadersGrow(ep, Uploaded(ep, version));
  }

  lemma StepKeepsInv(ep: Epoch, ev: SessionEvent)
    requires Inv(ep) && CanStep(ep, ev) && Unrivalled(ep, ev)
    ensures Inv(Stepped(ep, ev))
  {
    StepKeepsBasics(ep, ev);
    StepKeepsSafety(ep, ev);
    StepGrows(ep, ev);
    ReadersGrow(ep, Stepped(ep, ev));
  }

  lemma ReadKeepsInv(ep: Epoch, id: nat, ev: ReadEvent)
    requires Inv(ep) && CanRead(ep, id, ev)
    ensures Inv(Apply(ep, Reading(id, ev)))
  {
    ReadKeepsReader(ep, id, ev);
    ReaderChangeKeepsInv(ep, id, Read(ep, id, ev));
  }

  lemma EventKeepsInv(ep: Epoch, ev: Event)
    requires Inv(ep) && Enabled(ep, ev)
    ensures Inv(Apply(ep, ev))
  {
    match ev
    case Writing(write) => WritingKeepsInv(ep, write);
    case Upload(version) => UploadKeepsInv(ep, version);
    case OnReplica(r, change) => ReplicaEventKeepsInv(ep, r, change);
    case OnSession(step) => StepKeepsInv(ep, step);
    case Reading(id, read) => ReadKeepsInv(ep, id, read);
  }
}
