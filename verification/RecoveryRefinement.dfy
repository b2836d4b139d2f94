/** The recovery code folds what the protocol's readers and its sealing step see. */
module RecoveryRefinement {
  import opened Names
  import opened Snapshots
  import opened Witnesses
  import opened ReplicaDisk
  import opened Recovery
  import opened ReplicaViews
  import opened Activation
  import opened ActivationInvariant
  import opened ActivationSafety

  /** A reader after taking several witnesses, one by one. */
  function TakeAll(reader: Reader, offered: seq<Option<SnapshotRef>>): Reader
    decreases |offered|
  {
    if offered == [] || reader.phase == Failed then reader else TakeAll(Take(reader, offered[0]), offered[1..])
  }

  /** Taking witnesses one at a time ends where the fold does. */
  lemma {:induction false} ReaderFolds(reader: Reader, offered: seq<Option<SnapshotRef>>)
    requires reader.phase != Failed
    ensures match FoldAll(PositionOf, reader.candidate, offered)
            case Newest(ref) => TakeAll(reader, offered) == reader.(candidate := ref)
            case Conflict => TakeAll(reader, offered).phase == Failed
    decreases |offered|
  {
    if offered != [] {
      var next := Take(reader, offered[0]);
      if next.phase != Failed {
        ReaderFolds(next, offered[1..]);
      }
    }
  }

  // ---- Heads heard ----

  /** Replica `rs[i]` answers for the stream of this activation with the head it holds, or not at all. */
  ghost predicate Answers(ep: Epoch, members: set<Id>, rs: seq<Id>, replies: seq<Reply<StreamHead>>) {
    && |rs| == |replies|
    && forall i :: 0 <= i < |replies| && replies[i].Some? ==>
         && rs[i] in members && ep.Rep(rs[i]).memory.initialized
         && replies[i].value == StreamHead(ep.stream, RefIfAny(ep, ep.Rep(rs[i]).memory.head))
  }

  /** The events of a reader that hears these replies. */
  function Hears(id: nat, rs: seq<Id>, replies: seq<Reply<StreamHead>>): seq<Event>
    requires |rs| == |replies|
  {
    if replies == [] then []
    else (if replies[0].Some? then [Reading(id, Head(rs[0]))] else []) + Hears(id, rs[1..], replies[1..])
  }

  lemma HeadsInTurn(replies: seq<Reply<StreamHead>>)
    requires replies != []
    ensures Heads(replies)[1..] == Heads(replies[1..])
    ensures Answered(replies) <==> replies[0].Some? || Answered(replies[1..])
  {
    assert forall i :: 0 < i < |replies| ==> replies[i] == replies[1..][i - 1];
  }

  lemma AnswersOn(ep: Epoch, next: Epoch, members: set<Id>, rs: seq<Id>, replies: seq<Reply<StreamHead>>)
    requires Answers(ep, members, rs, replies) && replies != []
    requires next.stream == ep.stream && next.replicas == ep.replicas
    ensures Answers(next, members, rs[1..], replies[1..])
  {
    assert forall r :: next.Rep(r) == ep.Rep(r);
  }

  /**
   Folding what the replicas answer is a run of the protocol's reader that asks them one by one: it
   never conflicts, and it ends with the same candidate and the same witnesses.
   */
  lemma {:induction false} RepliesAreRead(ep: Epoch, id: nat, rs: seq<Id>, replies: seq<Reply<StreamHead>>)
    requires Inv(ep) && id in ep.readers && ep.readers[id].phase == Asking
    requires Answers(ep, ep.readers[id].members, rs, replies)
    ensures CanRun(ep, Hears(id, rs, replies))
    ensures var end := Run(ep, Hears(id, rs, replies));
            && Inv(end) && id in end.readers && end.readers[id].phase == Asking
            && FoldAll(PositionOf, ep.readers[id].candidate, Heads(replies)) == Newest(end.readers[id].candidate)
            && (end.readers[id].witnesses == {} <==> ep.readers[id].witnesses == {} && !Answered(replies))
    decreases |replies|
  {
    if replies != [] {
      HeadsInTurn(replies);
      if replies[0].Some? {
        HeardOne(ep, id, rs[0]);
        var next := Apply(ep, Reading(id, Head(rs[0])));
        AnswersOn(ep, next, ep.readers[id].members, rs, replies);
        RepliesAreRead(next, id, rs[1..], replies[1..]);
        assert Hears(id, rs, replies)[1..] == Hears(id, rs[1..], replies[1..]);
      } else {
        AnswersOn(ep, ep, ep.readers[id].members, rs, replies);
        RepliesAreRead(ep, id, rs[1..], replies[1..]);
        assert Hears(id, rs, replies) == Hears(id, rs[1..], replies[1..]);
      }
    }
  }

  lemma HeardOne(ep: Epoch, id: nat, r: Id)
    requires Inv(ep) && CanRead(ep, id, Head(r))
    ensures var next := Apply(ep, Reading(id, Head(r)));
            && Inv(next) && id in next.readers
            && Advance(PositionOf, ep.readers[id].candidate, RefIfAny(ep, ep.Rep(r).memory.head)) ==
               Newest(next.readers[id].candidate)
            && next.readers[id] == ep.readers[id].(witnesses := ep.readers[id].witnesses + {r},
                                                   candidate := next.readers[id].candidate)
  {
    EventKeepsInv(ep, Reading(id, Head(r)));
    ReadDoesNotFail(ep, id, Head(r));
  }

  // ---- Sealed witnesses ----

  /** Replica `rs[i]` of the recorded set answers with the marks and heads on its disk, or not at all. */
  ghost predicate SealedBy(ep: Epoch, rs: seq<Id>, replies: seq<Reply<SealReply>>) {
    && |rs| == |replies|
    && (replies == [] <==> ep.session.members == {})
    && forall i :: 0 <= i < |replies| && replies[i].Some? ==>
         rs[i] in ep.session.members && SealReplyOf(ep, ep.Rep(rs[i]).disk, replies[i].value)
  }

  ghost predicate SealReplyOf(ep: Epoch, disk: View, reply: SealReply) {
    && reply.initialized == disk.initialized && reply.sealed == disk.sealed
    && (disk.head.Some? ==> StreamHead(ep.stream, RefIfAny(ep, disk.head)) in reply.streams)
    && (forall head :: head in reply.streams && head.stream.prefix == ep.stream.prefix ==>
          head.latest == RefIfAny(ep, disk.head))
  }

  /** The replicas that answered and are initialized and sealed. */
  function WitnessesIn(ep: Epoch, rs: seq<Id>, replies: seq<Reply<SealReply>>): set<Id>
    requires |rs| == |replies|
  {
    set i | 0 <= i < |rs| && replies[i].Some? && ep.Rep(rs[i]).disk.initialized && ep.Rep(rs[i]).disk.sealed :: rs[i]
  }

  /** The head a witness holds, by version. */
  ghost predicate Positioned(ep: Epoch) {
    forall r :: ep.Rep(r).disk.head.Some? ==>
      PositionOf(ep.RefTo(ep.Rep(r).disk.head.value)) ==
      Some(Position(ep.stream.epoch, ep.Rep(r).disk.head.value.version))
  }

  lemma HeadsArePositioned(ep: Epoch)
    requires Inv(ep)
    ensures Positioned(ep)
  {
  }

  /** What sealing collects for this activation is the newest head among its witnesses. */
  lemma SealedTop(ep: Epoch, rs: seq<Id>, replies: seq<Reply<SealReply>>, tops: map<string, SnapshotRef>)
    requires Positioned(ep) && SealedBy(ep, rs, replies) && Sealing(replies, tops)
    ensures IsTop(ep, WitnessesIn(ep, rs, replies),
                  if ep.stream.prefix in tops then Some(tops[ep.stream.prefix].version) else None)
  {
    var witnesses := WitnessesIn(ep, rs, replies);
    forall r | r in witnesses && ep.Rep(r).disk.head.Some?
      ensures ep.stream.prefix in tops && ep.Rep(r).disk.head.value.version <= tops[ep.stream.prefix].version
    {
      WitnessIsCovered(ep, rs, replies, tops, r);
    }
    if ep.stream.prefix in tops {
      TopIsWitnessed(ep, rs, replies, tops);
    }
  }

  /**
   A successful collection of sealed replicas is what the protocol's end of a recovery asks for: once
   the newest head is in the bucket, it can finish with these witnesses.
   */
  lemma SealingFinishesRecovery(ep: Epoch, rs: seq<Id>, replies: seq<Reply<SealReply>>, tops: map<string, SnapshotRef>)
    requires Inv(ep) && ep.session.state == Recovering && SealedBy(ep, rs, replies) && Sealing(replies, tops)
    requires ep.stream.prefix in tops ==> tops[ep.stream.prefix].version in ep.bucket
    ensures CanStep(ep, FinishRecovery(WitnessesIn(ep, rs, replies),
                                       if ep.stream.prefix in tops then Some(tops[ep.stream.prefix].version) else None))
  {
    HeadsArePositioned(ep);
    SealedTop(ep, rs, replies, tops);
    if replies != [] {
      var i :| 0 <= i < |replies| && replies[i].Some? && replies[i].value.initialized && replies[i].value.sealed;
      assert rs[i] in WitnessesIn(ep, rs, replies);
    }
  }

  lemma WitnessIsCovered(
      ep: Epoch, rs: seq<Id>, replies: seq<Reply<SealReply>>, tops: map<string, SnapshotRef>, r: Id)
    requires Positioned(ep) && SealedBy(ep, rs, replies) && Sealing(replies, tops)
    requires r in WitnessesIn(ep, rs, replies) && ep.Rep(r).disk.head.Some?
    ensures ep.stream.prefix in tops && ep.Rep(r).disk.head.value.version <= tops[ep.stream.prefix].version
  {
    var i :| 0 <= i < |rs| && replies[i].Some? && ep.Rep(rs[i]).disk.initialized && ep.Rep(rs[i]).disk.sealed && rs[i] == r;
    var head := StreamHead(ep.stream, RefIfAny(ep, ep.Rep(r).disk.head));
    assert head in replies[i].value.streams;
    assert IsReported(replies, head);
    TopIsWitnessed(ep, rs, replies, tops);
  }

  /** The entry of this activation is the head of one of its witnesses. */
  lemma TopIsWitnessed(ep: Epoch, rs: seq<Id>, replies: seq<Reply<SealReply>>, tops: map<string, SnapshotRef>)
    requires Positioned(ep) && SealedBy(ep, rs, replies) && Sealing(replies, tops) && ep.stream.prefix in tops
    ensures exists r :: && r in WitnessesIn(ep, rs, replies) && ep.Rep(r).disk.head.Some?
                        && tops[ep.stream.prefix] == ep.RefTo(ep.Rep(r).disk.head.value)
  {
    var head :| IsReported(replies, head) && head.stream.prefix == ep.stream.prefix
                && head.latest == Some(tops[ep.stream.prefix]);
    var i :| 0 <= i < |replies| && replies[i].Some? && replies[i].value.initialized && replies[i].value.sealed
             && head in replies[i].value.streams;
    assert rs[i] in WitnessesIn(ep, rs, replies);
  }
}
