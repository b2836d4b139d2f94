/** The chain of activations of one actor: each owner starts from what its takeover recovered. */
module Takeover {
  import opened Names
  import opened Snapshots
  import opened ActorNames
  import opened Activation
  import opened ActivationInvariant
  import opened ActivationSafety

  /** `epochs[i]` is the activation with owner epoch i + 1; the last one is the current owner. */
  datatype Chain = Chain(hash: string -> Byte, actor: ActorKey, epochs: seq<Epoch>)
  {
    predicate Wellformed() {
      0 < |epochs| < U64_LIMIT
    }
  }

  /** Old activations may still act; only the current one can be taken over. */
  datatype ChainEvent = In(index: nat, event: Event) | Claim(id: nat, session: string)

  function Start(hash: string -> Byte, actor: ActorKey, session: string): Chain
    requires ValidActor(actor)
  {
    Chain(hash, actor, [Claimed(ActivationStream(hash, actor, session, 1, 0), None)])
  }

  predicate Allowed(c: Chain, ev: ChainEvent) {
    && c.Wellformed()
    && match ev
       case In(index, event) => index < |c.epochs| && Enabled(c.epochs[index], event)
       case Claim(id, _) =>
         var last := c.epochs[|c.epochs| - 1];
         && ValidActor(c.actor)
         && |c.epochs| + 1 < U64_LIMIT
         && id in last.readers
         && last.readers[id].takeover
         && last.readers[id].phase == Done
  }

  function NextEpoch(c: Chain, recovered: Option<SnapshotRef>, session: string): Epoch
    requires ValidActor(c.actor)
  {
    Claimed(ActivationStream(c.hash, c.actor, session, |c.epochs| + 1, ResultVersion(recovered)), recovered)
  }

  function After(c: Chain, ev: ChainEvent): Chain
    requires Allowed(c, ev)
  {
    match ev
    case In(index, event) => c.(epochs := c.epochs[index := Apply(c.epochs[index], event)])
    case Claim(id, session) =>
      var last := c.epochs[|c.epochs| - 1];
      c.(epochs := c.epochs + [NextEpoch(c, last.readers[id].candidate, session)])
  }

  predicate CanFollow(c: Chain, events: seq<ChainEvent>)
    decreases |events|
  {
    events == [] || (Allowed(c, events[0]) && CanFollow(After(c, events[0]), events[1..]))
  }

  function Follow(c: Chain, events: seq<ChainEvent>): Chain
    requires CanFollow(c, events)
    decreases |events|
  {
    if events == [] then c else Follow(After(c, events[0]), events[1..])
  }

  // ---- What every event keeps ----

  /** A reference to a snapshot that one of the first `count` activations left in the bucket. */
  ghost predicate Stored(epochs: seq<Epoch>, count: nat, ref: SnapshotRef)
    requires count <= |epochs|
  {
    exists i, v :: 0 <= i < count && v in epochs[i].bucket && ref == epochs[i].RefTo(epochs[i].bucket[v])
  }

  /** Every activation began with a snapshot that an earlier one stored. */
  ghost predicate BasesOk(epochs: seq<Epoch>) {
    forall i :: 0 <= i < |epochs| && epochs[i].base.Some? ==> Stored(epochs, i, epochs[i].base.value)
  }

  /** The next owner starts at or above everything this one answered, or ever will. */
  predicate LinkOk(ep: Epoch, next: Epoch) {
    !ep.writer.authority && ep.stream.baseVersion <= ep.writer.answered <= next.stream.baseVersion
  }

  predicate LinksOk(epochs: seq<Epoch>) {
    forall i :: 0 <= i < |epochs| - 1 ==> LinkOk(epochs[i], epochs[i + 1])
  }

  ghost predicate EpochsOk(epochs: seq<Epoch>) {
    epochs != [] ==>
      var n := |epochs| - 1;
      EpochsOk(epochs[..n]) && Inv(epochs[n]) && epochs[n].stream.epoch == n + 1
  }

  lemma {:induction false} EpochOkAt(epochs: seq<Epoch>, index: nat)
    requires EpochsOk(epochs) && index < |epochs|
    ensures Inv(epochs[index]) && epochs[index].stream.epoch == index + 1
    decreases |epochs|
  {
    var n := |epochs| - 1;
    if index < n {
      EpochOkAt(epochs[..n], index);
      assert epochs[..n][index] == epochs[index];
    }
  }

  ghost predicate ChainOk(c: Chain) {
    c.Wellformed() && EpochsOk(c.epochs) && LinksOk(c.epochs) && BasesOk(c.epochs)
  }

  lemma StreamNamesAreOk(hash: string -> Byte, actor: ActorKey, session: string, epoch: nat, baseVersion: nat)
    requires ValidActor(actor) && epoch < U64_LIMIT
    ensures StreamOk(ActivationStream(hash, actor, session, epoch, baseVersion))
  {
    var stream := ActivationStream(hash, actor, session, epoch, baseVersion);
    forall v: nat | v < U64_LIMIT
      ensures SnapshotPosition(ObjectName(stream, v)) == Some(Position(epoch, v))
    {
      ObjectPosition(hash, actor, session, epoch, baseVersion, v);
    }
  }

  lemma StartIsOk(hash: string -> Byte, actor: ActorKey, session: string)
    requires ValidActor(actor)
    ensures ChainOk(Start(hash, actor, session))
  {
    StreamNamesAreOk(hash, actor, session, 1, 0);
    ClaimedIsSafe(ActivationStream(hash, actor, session, 1, 0), None);
  }

  /** Nothing an activation does removes what it stored or takes back what it answered. */
  predicate Keeps(ep: Epoch, next: Epoch) {
    && next.stream == ep.stream
    && next.base == ep.base
    && ep.writer.answered <= next.writer.answered
    && (!ep.writer.authority ==> !next.writer.authority && next.writer.answered == ep.writer.answered)
    && forall v :: v in ep.bucket ==> v in next.bucket && next.bucket[v] == ep.bucket[v]
  }

  lemma EventKeeps(ep: Epoch, ev: Event)
    requires WriterOk(ep) && Enabled(ep, ev)
    ensures Keeps(ep, Apply(ep, ev))
  {
    match ev
    case Writing(_) =>
    case Upload(_) =>
    case OnReplica(_, _) =>
    case OnSession(_) =>
    case Reading(_, _) =>
  }

  lemma InKeepsBases(epochs: seq<Epoch>, index: nat, next: Epoch)
    requires BasesOk(epochs) && index < |epochs| && Keeps(epochs[index], next)
    ensures BasesOk(epochs[index := next])
  {
    var after := epochs[index := next];
    forall i | 0 <= i < |after| && after[i].base.Some? ensures Stored(after, i, after[i].base.value) {
      var j, v :| 0 <= j < i && v in epochs[j].bucket && epochs[i].base.value == epochs[j].RefTo(epochs[j].bucket[v]);
      assert v in after[j].bucket && after[i].base.value == after[j].RefTo(after[j].bucket[v]);
    }
  }

  lemma InKeepsLinks(epochs: seq<Epoch>, index: nat, next: Epoch)
    requires LinksOk(epochs) && index < |epochs| && Keeps(epochs[index], next)
    ensures LinksOk(epochs[index := next])
  {
  }

  lemma InKeepsChain(c: Chain, index: nat, ev: Event)
    requires ChainOk(c) && Allowed(c, In(index, ev))
    ensures ChainOk(After(c, In(index, ev)))
    ensures Keeps(c.epochs[index], After(c, In(index, ev)).epochs[index])
  {
    var next := Apply(c.epochs[index], ev);
    EpochOkAt(c.epochs, index);
    EventKeepsInv(c.epochs[index], ev);
    EventKeeps(c.epochs[index], ev);
    InKeepsBases(c.epochs, index, next);
    InKeepsLinks(c.epochs, index, next);
    SetKeepsEpochs(c.epochs, index, next);
  }

  lemma {:induction false} SetKeepsEpochs(epochs: seq<Epoch>, index: nat, next: Epoch)
    requires EpochsOk(epochs) && index < |epochs| && Inv(next) && next.stream.epoch == index + 1
    ensures EpochsOk(epochs[index := next])
    decreases |epochs|
  {
    var n := |epochs| - 1;
    if index < n {
      SetKeepsEpochs(epochs[..n], index, next);
      assert epochs[index := next][..n] == epochs[..n][index := next];
    } else {
      assert epochs[index := next][..n] == epochs[..n];
    }
  }

  lemma RecoveredBaseIsOk(last: Epoch, id: nat, next: Stream)
    requires Inv(last) && id in last.readers && last.readers[id].phase == Done
    requires next.epoch == last.stream.epoch + 1
    requires next.baseVersion == ResultVersion(last.readers[id].candidate)
    ensures BaseOk(next, last.readers[id].candidate) && next.baseVersion < U64_LIMIT
  {
  }

  lemma StoredStays(epochs: seq<Epoch>, next: Epoch, count: nat, more: nat, ref: SnapshotRef)
    requires count <= more <= |epochs| && Stored(epochs, count, ref)
    ensures Stored(epochs + [next], more, ref)
  {
    var i, v :| 0 <= i < count && v in epochs[i].bucket && ref == epochs[i].RefTo(epochs[i].bucket[v]);
    assert (epochs + [next])[i] == epochs[i];
  }

  lemma CandidateIsStored(last: Epoch, id: nat)
    requires Inv(last) && id in last.readers && last.readers[id].phase == Done
    ensures var candidate := last.readers[id].candidate;
            candidate.Some? && candidate != last.base ==>
              exists v :: v in last.bucket && candidate.value == last.RefTo(last.bucket[v])
  {
    RecoveryReturnsIssued(last, id);
  }

  lemma ClaimKeepsBases(epochs: seq<Epoch>, id: nat, next: Epoch)
    requires |epochs| > 0 && BasesOk(epochs)
    requires var last := epochs[|epochs| - 1];
             Inv(last) && id in last.readers && last.readers[id].phase == Done && next.base == last.readers[id].candidate
    ensures BasesOk(epochs + [next])
  {
    var (n, last, after) := (|epochs|, epochs[|epochs| - 1], epochs + [next]);
    CandidateIsStored(last, id);
    forall i | 0 <= i <= n && after[i].base.Some? ensures Stored(after, i, after[i].base.value) {
      if i < n {
        StoredStays(epochs, next, i, i, epochs[i].base.value);
      } else if next.base == last.base {
        StoredStays(epochs, next, n - 1, n, last.base.value);
      } else {
        assert after[n - 1] == last;
      }
    }
  }

  lemma AppendKeepsEpochs(epochs: seq<Epoch>, next: Epoch)
    requires EpochsOk(epochs) && Inv(next) && next.stream.epoch == |epochs| + 1
    ensures EpochsOk(epochs + [next])
  {
    assert (epochs + [next])[..|epochs|] == epochs;
  }

  /** A claimed activation is safe if its base is one of an earlier epoch. */
  lemma NextEpochIsSafe(c: Chain, recovered: Option<SnapshotRef>, session: string, stream: Stream)
    requires ValidActor(c.actor) && |c.epochs| + 1 < U64_LIMIT
    requires stream == NextEpoch(c, recovered, session).stream
    requires BaseOk(stream, recovered) && stream.baseVersion < U64_LIMIT
    ensures Inv(NextEpoch(c, recovered, session))
  {
    StreamNamesAreOk(c.hash, c.actor, session, |c.epochs| + 1, ResultVersion(recovered));
    ClaimedIsSafe(stream, recovered);
  }

  /** The new owner's activation is safe and starts above everything answered before it. */
  lemma ClaimIsSafe(c: Chain, id: nat, session: string)
    requires Allowed(c, Claim(id, session))
    requires var last := c.epochs[|c.epochs| - 1]; Inv(last) && last.stream.epoch == |c.epochs|
    ensures var last := c.epochs[|c.epochs| - 1];
            var next := NextEpoch(c, last.readers[id].candidate, session);
            Inv(next) && LinkOk(last, next)
  {
    var last := c.epochs[|c.epochs| - 1];
    var stream := NextEpoch(c, last.readers[id].candidate, session).stream;
    RecoveredBaseIsOk(last, id, stream);
    NextEpochIsSafe(c, last.readers[id].candidate, session, stream);
    TakeoverLinks(last, id, stream);
  }

  lemma TakeoverLinks(last: Epoch, id: nat, next: Stream)
    requires Inv(last) && id in last.readers && last.readers[id].takeover && last.readers[id].phase == Done
    requires next.baseVersion == ResultVersion(last.readers[id].candidate)
    ensures !last.writer.authority && last.stream.baseVersion <= last.writer.answered <= next.baseVersion
  {
    TakeoverReachesAcknowledged(last, id);
  }

  lemma AppendKeepsChain(c: Chain, id: nat, next: Epoch)
    requires ChainOk(c) && |c.epochs| + 1 < U64_LIMIT
    requires var last := c.epochs[|c.epochs| - 1];
             && id in last.readers
             && last.readers[id].phase == Done
             && next.base == last.readers[id].candidate
             && LinkOk(last, next)
    requires Inv(next) && next.stream.epoch == |c.epochs| + 1
    ensures ChainOk(c.(epochs := c.epochs + [next]))
  {
    AppendKeepsEpochs(c.epochs, next);
    ClaimKeepsBases(c.epochs, id, next);
  }

  lemma ClaimKeepsChain(c: Chain, id: nat, session: string)
    requires ChainOk(c) && Allowed(c, Claim(id, session))
    ensures ChainOk(After(c, Claim(id, session)))
  {
    ClaimIsSafe(c, id, session);
    AppendKeepsChain(c, id, NextEpoch(c, c.epochs[|c.epochs| - 1].readers[id].candidate, session));
  }

  predicate AnsweredGrows(before: seq<Epoch>, after: seq<Epoch>) {
    |before| <= |after| && forall i :: 0 <= i < |before| ==> before[i].writer.answered <= after[i].writer.answered
  }

  lemma EventKeepsChain(c: Chain, ev: ChainEvent)
    requires ChainOk(c) && Allowed(c, ev)
    ensures ChainOk(After(c, ev)) && AnsweredGrows(c.epochs, After(c, ev).epochs)
  {
    match ev
    case In(index, event) => InKeepsChain(c, index, event);
    case Claim(id, session) => ClaimKeepsChain(c, id, session);
  }

  lemma {:induction false} FollowKeepsChain(c: Chain, events: seq<ChainEvent>)
    requires ChainOk(c) && CanFollow(c, events)
    ensures ChainOk(Follow(c, events)) && AnsweredGrows(c.epochs, Follow(c, events).epochs)
    decreases |events|
  {
    if events != [] {
      EventKeepsChain(c, events[0]);
      FollowKeepsChain(After(c, events[0]), events[1..]);
    }
  }

  // ---- What later owners start with ----

  /** Every later owner starts at or above everything earlier owners answered. */
  lemma {:induction false} LaterOwnersStartHigher(epochs: seq<Epoch>, earlier: nat, later: nat)
    requires LinksOk(epochs) && earlier < later < |epochs|
    ensures epochs[earlier].writer.answered <= epochs[later].stream.baseVersion
    decreases later
  {
    assert LinkOk(epochs[later - 1], epochs[later]);
    if earlier < later - 1 {
      LaterOwnersStartHigher(epochs, earlier, later - 1);
    }
  }

  /** Whatever follows, no owner ever starts below what an earlier owner had answered. */
  lemma AnsweredStateSurvives(c: Chain, events: seq<ChainEvent>, owner: nat, later: nat)
    requires ChainOk(c) && CanFollow(c, events)
    requires owner < |c.epochs| && owner < later < |Follow(c, events).epochs|
    ensures c.epochs[owner].writer.answered <= Follow(c, events).epochs[later].stream.baseVersion
  {
    FollowKeepsChain(c, events);
    LaterOwnersStartHigher(Follow(c, events).epochs, owner, later);
  }

  /** A later owner issues only versions above everything an earlier owner answered. */
  lemma VersionsAreNotReused(c: Chain, earlier: nat, later: nat, version: nat)
    requires ChainOk(c) && earlier < later < |c.epochs|
    requires version in c.epochs[later].writer.issued
    ensures c.epochs[earlier].writer.answered < version
  {
    LaterOwnersStartHigher(c.epochs, earlier, later);
    EpochOkAt(c.epochs, later);
  }

  // ---- Acknowledged versions ----

  /** A takeover that has listed the bucket reached the version. */
  predicate CarriedBy(reader: Reader, version: nat) {
    reader.takeover && reader.phase != Begun ==> version <= ResultVersion(reader.candidate)
  }

  predicate AllCarry(ep: Epoch, version: nat) {
    forall id :: id in ep.readers ==> CarriedBy(ep.readers[id], version)
  }

  /** The next owner starts at the version; if there is none yet, all takeovers that have listed reached it. */
  predicate Carried(epochs: seq<Epoch>, owner: nat, version: nat) {
    && owner < |epochs|
    && if owner + 1 < |epochs| then version <= epochs[owner + 1].stream.baseVersion else AllCarry(epochs[owner], version)
  }

  /** A takeover lists after sealing, when whatever is acknowledged is in the bucket. */
  lemma ListCarries(ep: Epoch, id: nat, newest: Option<nat>, version: nat)
    requires Inv(ep) && CanRead(ep, id, List(newest)) && ep.readers[id].takeover && version <= ep.writer.committed
    ensures version <= ResultVersion(Read(ep, id, List(newest)).candidate)
  {
    assert ReaderOk(ep, ep.readers[id]);
    assert ep.writer.committed == ep.stream.baseVersion || InBucketFrom(ep, ep.writer.committed);
    if newest.Some? {
      GenuineWitness(ep, ep.base, ep.bucket[newest.value]);
    }
  }

  lemma ReadCarries(ep: Epoch, id: nat, ev: ReadEvent, version: nat)
    requires Inv(ep) && CanRead(ep, id, ev) && version <= ep.writer.committed
    requires id in ep.readers ==> CarriedBy(ep.readers[id], version)
    ensures CarriedBy(Read(ep, id, ev), version)
  {
    assert id in ep.readers ==> ReaderOk(ep, ep.readers[id]);
    if ev.List? && ep.readers[id].takeover {
      ListCarries(ep, id, ev.newest, version);
    }
  }

  lemma EventCarries(ep: Epoch, ev: Event, version: nat)
    requires Inv(ep) && Enabled(ep, ev) && version <= ep.writer.committed && AllCarry(ep, version)
    ensures AllCarry(Apply(ep, ev), version)
  {
    if ev.Reading? {
      ReadCarries(ep, ev.id, ev.read, version);
    } else {
      OthersKeepReaders(ep, ev);
    }
  }

  lemma OthersKeepReaders(ep: Epoch, ev: Event)
    requires Enabled(ep, ev) && !ev.Reading?
    ensures Apply(ep, ev).readers == ep.readers
  {
  }

  lemma EventKeepsCarried(c: Chain, ev: ChainEvent, owner: nat, version: nat)
    requires ChainOk(c) && Allowed(c, ev) && Carried(c.epochs, owner, version)
    requires version <= c.epochs[owner].writer.committed
    ensures Carried(After(c, ev).epochs, owner, version)
    ensures version <= After(c, ev).epochs[owner].writer.committed
  {
    if ev.In? && ev.index == owner {
      EpochOkAt(c.epochs, owner);
      CommittedGrows(c.epochs[owner], ev.event);
      if owner + 1 == |c.epochs| {
        EventCarries(c.epochs[owner], ev.event, version);
      }
    } else if ev.In? {
      assert Apply(c.epochs[ev.index], ev.event).stream == c.epochs[ev.index].stream;
    }
  }

  lemma CommittedGrows(ep: Epoch, ev: Event)
    requires WriterOk(ep) && Enabled(ep, ev)
    ensures ep.writer.committed <= Apply(ep, ev).writer.committed
  {
  }

  lemma {:induction false} FollowKeepsCarried(c: Chain, events: seq<ChainEvent>, owner: nat, version: nat)
    requires ChainOk(c) && CanFollow(c, events) && Carried(c.epochs, owner, version)
    requires version <= c.epochs[owner].writer.committed
    ensures Carried(Follow(c, events).epochs, owner, version)
    decreases |events|
  {
    if events != [] {
      EventKeepsChain(c, events[0]);
      EventKeepsCarried(c, events[0], owner, version);
      FollowKeepsCarried(After(c, events[0]), events[1..], owner, version);
    }
  }

  /** Every later owner, whatever follows, starts at the version or above. */
  ghost predicate Survives(c: Chain, owner: nat, version: nat) {
    forall events, later :: CanFollow(c, events) && owner < later < |Follow(c, events).epochs| ==>
      version <= Follow(c, events).epochs[later].stream.baseVersion
  }

  lemma CarriedReaches(c: Chain, events: seq<ChainEvent>, owner: nat, later: nat, version: nat)
    requires ChainOk(c) && CanFollow(c, events) && Carried(c.epochs, owner, version)
    requires version <= c.epochs[owner].writer.committed && owner < later < |Follow(c, events).epochs|
    ensures version <= Follow(c, events).epochs[later].stream.baseVersion
  {
    var end := Follow(c, events).epochs;
    FollowKeepsChain(c, events);
    FollowKeepsCarried(c, events, owner, version);
    EpochOkAt(end, owner + 1);
    if owner + 1 < later {
      LaterOwnersStartHigher(end, owner + 1, later);
    }
  }

  /** A takeover that listed can always go on to the next owner, with what it has. */
  lemma ListedTakeoverClaims(c: Chain, id: nat) returns (events: seq<ChainEvent>)
    requires ChainOk(c) && ValidActor(c.actor) && |c.epochs| + 1 < U64_LIMIT
    requires var last := c.epochs[|c.epochs| - 1];
             id in last.readers && last.readers[id].takeover && last.readers[id].phase != Begun
    ensures CanFollow(c, events) && |Follow(c, events).epochs| == |c.epochs| + 1
    ensures Follow(c, events).epochs[|c.epochs|].stream.baseVersion ==
            ResultVersion(c.epochs[|c.epochs| - 1].readers[id].candidate)
    decreases match c.epochs[|c.epochs| - 1].readers[id].phase case Listed => 2 case Asking => 1 case _ => 0
  {
    var n := |c.epochs| - 1;
    var reader := c.epochs[n].readers[id];
    EpochOkAt(c.epochs, n);
    assert ReaderOk(c.epochs[n], reader);
    if reader.phase == Done {
      events := [Claim(id, "")];
      assert CanFollow(After(c, events[0]), events[1..]);
    } else {
      var ev := In(n, Reading(id, if reader.phase == Listed then Members else Finish));
      EventKeepsChain(c, ev);
      var rest := ListedTakeoverClaims(After(c, ev), id);
      events := [ev] + rest;
      assert events[1..] == rest;
    }
  }

  /**
   An acknowledged version survives all that can follow, exactly if the next owner started with it
   or, while there is none, no takeover listed the bucket without reaching it. This can fail only
   for what is acknowledged after a takeover has listed.
   */
  lemma AcknowledgedSurvivesExactly(c: Chain, owner: nat)
    requires ChainOk(c) && ValidActor(c.actor) && |c.epochs| + 1 < U64_LIMIT && owner < |c.epochs|
    ensures Survives(c, owner, c.epochs[owner].writer.committed) <==> Carried(c.epochs, owner, c.epochs[owner].writer.committed)
  {
    var version := c.epochs[owner].writer.committed;
    if Carried(c.epochs, owner, version) {
      forall events, later | CanFollow(c, events) && owner < later < |Follow(c, events).epochs|
        ensures version <= Follow(c, events).epochs[later].stream.baseVersion
      {
        CarriedReaches(c, events, owner, later, version);
      }
    } else if owner + 1 < |c.epochs| {
      assert CanFollow(c, []) && Follow(c, []) == c;
      assert !(version <= Follow(c, []).epochs[owner + 1].stream.baseVersion);
    } else {
      var id :| id in c.epochs[owner].readers && !CarriedBy(c.epochs[owner].readers[id], version);
      var events := ListedTakeoverClaims(c, id);
      assert !(version <= Follow(c, events).epochs[owner + 1].stream.baseVersion);
    }
  }

  /** While an owner has authority nobody has taken over, so what it has acknowledged will survive. */
  lemma AuthorityCarries(c: Chain, owner: nat, version: nat)
    requires ChainOk(c) && owner < |c.epochs| && c.epochs[owner].writer.authority
    ensures Carried(c.epochs, owner, version)
  {
    EpochOkAt(c.epochs, owner);
    assert owner + 1 < |c.epochs| ==> LinkOk(c.epochs[owner], c.epochs[owner + 1]);
    forall id | id in c.epochs[owner].readers ensures CarriedBy(c.epochs[owner].readers[id], version) {
      assert ReaderOk(c.epochs[owner], c.epochs[owner].readers[id]);
    }
  }

  // ---- The promise as a whole ----

  /** The owner's acknowledged version, and a recovery of its activation that is yet to begin. */
  predicate ChainOwes(epochs: seq<Epoch>, owner: nat, id: nat, version: nat) {
    owner < |epochs| && Owes(epochs[owner], id, version)
  }

  lemma EventKeepsChainOwed(c: Chain, ev: ChainEvent, owner: nat, id: nat, version: nat)
    requires ChainOk(c) && Allowed(c, ev) && ChainOwes(c.epochs, owner, id, version)
    ensures ChainOwes(After(c, ev).epochs, owner, id, version)
  {
    if ev.In? && ev.index == owner {
      EpochOkAt(c.epochs, owner);
      EventKeepsOwed(c.epochs[owner], ev.event, id, version);
    }
  }

  lemma {:induction false} FollowKeepsOwed(c: Chain, events: seq<ChainEvent>, owner: nat, id: nat, version: nat)
    requires ChainOk(c) && CanFollow(c, events) && ChainOwes(c.epochs, owner, id, version)
    ensures ChainOwes(Follow(c, events).epochs, owner, id, version)
    decreases |events|
  {
    if events != [] {
      EventKeepsChain(c, events[0]);
      EventKeepsChainOwed(c, events[0], owner, id, version);
      FollowKeepsOwed(After(c, events[0]), events[1..], owner, id, version);
    }
  }

  /** A finished recovery of any activation, at or after the one that acknowledged. */
  predicate Finished(epochs: seq<Epoch>, at: nat, id: nat) {
    && at < |epochs|
    && id in epochs[at].readers
    && epochs[at].readers[id].phase == Done
    && (epochs[at].readers[id].sealedAtMembers ==> epochs[at].readers[id].sealedAtList)
  }

  /** What the recovery returns was stored, with these bytes, by some activation of the actor. */
  lemma RecoveredIsStored(epochs: seq<Epoch>, at: nat, id: nat)
    requires EpochsOk(epochs) && BasesOk(epochs) && Finished(epochs, at, id)
    ensures epochs[at].readers[id].candidate.Some? ==> Stored(epochs, at + 1, epochs[at].readers[id].candidate.value)
  {
    EpochOkAt(epochs, at);
    CandidateIsStored(epochs[at], id);
    var candidate := epochs[at].readers[id].candidate;
    if candidate.Some? && candidate == epochs[at].base {
      var i, v :| 0 <= i < at && v in epochs[i].bucket && candidate.value == epochs[i].RefTo(epochs[i].bucket[v]);
      assert i < at + 1;
    }
  }

  /**
   From the actor's first activation on, over every run with any number of owners: what an owner
   has acknowledged at some point is reached by every recovery of its activation that begins later.
   So is it by every recovery of every later activation, if the owner had authority then or, more
   generally, no takeover had listed without it. What the owner has answered is reached by all of
   them in any case. What is returned is a snapshot that some activation stored.
   */
  lemma NothingAcknowledgedIsLost(
      hash: string -> Byte, actor: ActorKey, session: string, before: seq<ChainEvent>, after: seq<ChainEvent>,
      owner: nat, at: nat, id: nat)
    requires ValidActor(actor) && CanFollow(Start(hash, actor, session), before)
    requires CanFollow(Follow(Start(hash, actor, session), before), after)
    requires var epochs := Follow(Start(hash, actor, session), before).epochs;
             owner < |epochs| && owner <= at && (at < |epochs| ==> id !in epochs[at].readers)
    requires Finished(Follow(Follow(Start(hash, actor, session), before), after).epochs, at, id)
    ensures var (known, now) := (Follow(Start(hash, actor, session), before).epochs,
                                 Follow(Follow(Start(hash, actor, session), before), after).epochs);
            var (owed, candidate) := (known[owner].writer, now[at].readers[id].candidate);
            && (at == owner || owed.authority || Carried(known, owner, owed.committed) ==>
                  owed.committed <= ResultVersion(candidate))
            && owed.answered <= ResultVersion(candidate)
            && (candidate.Some? ==> Stored(now, at + 1, candidate.value))
  {
    var start := Start(hash, actor, session);
    StartIsOk(hash, actor, session);
    FollowKeepsChain(start, before);
    var known := Follow(start, before);
    if known.epochs[owner].writer.authority {
      AuthorityCarries(known, owner, known.epochs[owner].writer.committed);
    }
    RecoveryReachesOwner(known, after, owner, at, id);
  }

  lemma RecoveryReachesOwner(c: Chain, events: seq<ChainEvent>, owner: nat, at: nat, id: nat)
    requires ChainOk(c) && CanFollow(c, events) && owner < |c.epochs| && owner <= at
    requires at < |c.epochs| ==> id !in c.epochs[at].readers
    requires Finished(Follow(c, events).epochs, at, id)
    ensures var (owed, candidate) := (c.epochs[owner].writer, Follow(c, events).epochs[at].readers[id].candidate);
            && (at == owner || Carried(c.epochs, owner, owed.committed) ==> owed.committed <= ResultVersion(candidate))
            && owed.answered <= ResultVersion(candidate)
            && (candidate.Some? ==> Stored(Follow(c, events).epochs, at + 1, candidate.value))
  {
    var end := Follow(c, events);
    FollowKeepsChain(c, events);
    RecoveredIsStored(end.epochs, at, id);
    EpochOkAt(end.epochs, at);
    if at == owner {
      EpochOkAt(c.epochs, owner);
      FollowKeepsOwed(c, events, owner, id, c.epochs[owner].writer.committed);
      RecoveryReachesAcknowledged(end.epochs[at], id);
    } else {
      if Carried(c.epochs, owner, c.epochs[owner].writer.committed) {
        CarriedReaches(c, events, owner, at, c.epochs[owner].writer.committed);
      }
      LaterOwnersStartHigher(end.epochs, owner, at);
      RecoveryReachesBase(end.epochs[at], id);
    }
  }
}
