/**
 Reading an actor's newest state back: the newest listed object, the heads its replicas report in
 any order, and the bytes of the winner from the bucket or a replica.
 */
module Recovery {
  import opened Names
  import opened Snapshots
  import opened Witnesses
  import opened ReplicaDisk

  datatype Loaded = Loaded(ref: SnapshotRef, bytes: Bytes)

  type Bucket = map<string, Bytes>

  /** A replica's answer; `None` stands for any failure to answer. */
  type Reply<T> = Option<T>

  // ---- The newest listed object ----

  predicate OfEpoch(key: string, epoch: nat) {
    SnapshotPosition(key).Some? && SnapshotPosition(key).value.epoch == epoch
  }

  method NewestKey(keys: seq<string>, epoch: nat) returns (newest: Option<string>)
    ensures newest.None? <==> forall i :: 0 <= i < |keys| ==> !OfEpoch(keys[i], epoch)
    ensures newest.Some? ==> newest.value in keys && OfEpoch(newest.value, epoch)
    ensures newest.Some? ==> forall i :: 0 <= i < |keys| && OfEpoch(keys[i], epoch) ==>
              !Before(SnapshotPosition(newest.value), SnapshotPosition(keys[i]))
  {
    newest := None;
    for n := 0 to |keys|
      invariant newest.None? <==> forall i :: 0 <= i < n ==> !OfEpoch(keys[i], epoch)
      invariant newest.Some? ==> newest.value in keys && OfEpoch(newest.value, epoch)
      invariant newest.Some? ==> forall i :: 0 <= i < n && OfEpoch(keys[i], epoch) ==>
                  !Before(SnapshotPosition(newest.value), SnapshotPosition(keys[i]))
    {
      if OfEpoch(keys[n], epoch)
        && (newest.None? || !Before(SnapshotPosition(keys[n]), SnapshotPosition(newest.value)))
      {
        newest := Some(keys[n]);
      }
    }
  }

  /** A stored object is read as the snapshot its name says, or not at all. */
  function DecodeObject(name: string, bytes: Bytes): (loaded: Option<Loaded>)
    ensures loaded.Some? ==> Sound(loaded.value) && loaded.value.ref.name == name
  {
    match Decode(bytes)
    case None => None
    case Some(s) =>
      if SnapshotPosition(name) == Some(Position(s.epoch, s.version))
      then Some(Loaded(NewRef(name, s), bytes))
      else None
  }

  /** The bytes are those the reference was made from. */
  predicate Sound(loaded: Loaded) {
    Sha256(loaded.bytes) == loaded.ref.digest
  }

  // ---- Bytes of a known reference ----

  /** The first replica that answers decides; one that answers with other bytes is an error. */
  predicate FirstAnswers(peers: seq<Reply<Bytes>>, n: nat, digest: Digest) {
    && n < |peers| && (forall i :: 0 <= i < n ==> peers[i].None?)
    && peers[n].Some? && Sha256(peers[n].value) == digest
  }

  /** The bucket has the object, with the right bytes, or else the first replica that answers has. */
  ghost predicate Recoverable(bucket: Bucket, peers: seq<Reply<Bytes>>, ref: SnapshotRef) {
    if ref.name in bucket then Sha256(bucket[ref.name]) == ref.digest
    else exists n: nat :: FirstAnswers(peers, n, ref.digest)
  }

  /** Afterwards the bucket holds the verified bytes, and nothing stored before has changed. */
  method RecoverSnapshot(bucket: Bucket, peers: seq<Reply<Bytes>>, ref: SnapshotRef)
      returns (bytes: Option<Bytes>, after: Bucket)
    ensures bytes.Some? <==> Recoverable(bucket, peers, ref)
    ensures bytes.Some? ==> Sha256(bytes.value) == ref.digest && after == bucket[ref.name := bytes.value]
    ensures bytes.None? ==> after == bucket
    ensures forall name :: name in bucket ==> name in after && after[name] == bucket[name]
  {
    if ref.name in bucket {
      if !Verifies(ref, bucket[ref.name]) {
        return None, bucket;
      }
      assert bucket == bucket[ref.name := bucket[ref.name]];
      return Some(bucket[ref.name]), bucket;
    }
    for n := 0 to |peers|
      invariant forall i :: 0 <= i < n ==> peers[i].None?
    {
      if peers[n].Some? {
        if !Verifies(ref, peers[n].value) {
          return None, bucket;
        }
        assert FirstAnswers(peers, n, ref.digest);
        return peers[n], bucket[ref.name := peers[n].value];
      }
    }
    return None, bucket;
  }

  // ---- The newest state ----

  function Heads(replies: seq<Reply<StreamHead>>): seq<Option<SnapshotRef>> {
    seq(|replies|, i requires 0 <= i < |replies| => if replies[i].Some? then replies[i].value.latest else None)
  }

  predicate Answered<T>(replies: seq<Reply<T>>) {
    exists i :: 0 <= i < |replies| && replies[i].Some?
  }

  predicate SameStream(replies: seq<Reply<StreamHead>>, stream: Stream) {
    forall i :: 0 <= i < |replies| && replies[i].Some? ==> replies[i].value.stream == stream
  }

  function RefIn(loaded: Option<Loaded>): Option<SnapshotRef> {
    if loaded.Some? then Some(loaded.value.ref) else None
  }

  /** At least as new as every head that a replica answered with. */
  ghost predicate Outdoes(ref: Option<SnapshotRef>, replies: seq<Reply<StreamHead>>) {
    forall i :: 0 <= i < |replies| && replies[i].Some? ==> Dominates(PositionOf, ref, replies[i].value.latest)
  }

  /** Some replica answered with this head. */
  predicate Reports(replies: seq<Reply<StreamHead>>, ref: Option<SnapshotRef>) {
    exists i :: 0 <= i < |replies| && replies[i].Some? && replies[i].value.latest == ref
  }

  /** The fold is the newest of what it started from and what replicas answered with. */
  lemma FoldIsNewest(current: Option<SnapshotRef>, replies: seq<Reply<StreamHead>>, ref: Option<SnapshotRef>)
    requires FoldAll(PositionOf, current, Heads(replies)) == Newest(ref)
    ensures Outdoes(ref, replies) && Dominates(PositionOf, ref, current)
    ensures ref == current || Reports(replies, ref)
  {
    FoldDominates(PositionOf, current, Heads(replies));
    forall i | 0 <= i < |replies| && replies[i].Some? ensures Dominates(PositionOf, ref, replies[i].value.latest) {
      assert Heads(replies)[i] == replies[i].value.latest;
    }
    if ref != current {
      var i :| 0 <= i < |replies| && Heads(replies)[i] == ref;
      assert replies[i].Some? ==> replies[i].value.latest == ref;
    }
  }

  /** Folds the replies; fails on another stream's head, on a conflict and without any witness. */
  method FoldHeads(stream: Stream, current: Option<SnapshotRef>, replies: seq<Reply<StreamHead>>)
      returns (ok: bool, candidate: Option<SnapshotRef>)
    ensures ok <==>
            && SameStream(replies, stream)
            && FoldAll(PositionOf, current, Heads(replies)).Newest?
            && (replies == [] || Answered(replies))
    ensures ok ==> FoldAll(PositionOf, current, Heads(replies)) == Newest(candidate)
    ensures ok ==> Outdoes(candidate, replies) && Dominates(PositionOf, candidate, current)
    ensures ok ==> candidate == current || Reports(replies, candidate)
  {
    candidate := current;
    var witnesses := 0;
    for n := 0 to |replies|
      invariant SameStream(replies[..n], stream)
      invariant FoldAll(PositionOf, current, Heads(replies)) ==
                FoldAll(PositionOf, candidate, Heads(replies)[n..])
      invariant witnesses > 0 <==> Answered(replies[..n])
    {
      assert Heads(replies)[n..][1..] == Heads(replies)[n + 1..];
      assert replies[..n + 1] == replies[..n] + [replies[n]];
      assert forall i :: 0 <= i < n ==> replies[..n + 1][i] == replies[..n][i];
      if replies[n].Some? {
        if replies[n].value.stream != stream {
          return false, candidate;
        }
        assert replies[..n + 1][n].Some?;
        witnesses := witnesses + 1;
        var next := Advance(PositionOf, candidate, replies[n].value.latest);
        if next.Conflict? {
          return false, candidate;
        }
        candidate := next.ref;
      }
    }
    assert replies[..|replies|] == replies && Heads(replies)[|replies|..] == [];
    FoldIsNewest(current, replies, candidate);
    ok := replies == [] || witnesses > 0;
  }

  /** No listed object of this epoch is newer than `key`. */
  predicate IsNewestKey(keys: seq<string>, epoch: nat, key: string) {
    && key in keys
    && OfEpoch(key, epoch)
    && forall i :: 0 <= i < |keys| && OfEpoch(keys[i], epoch) ==>
         !Before(SnapshotPosition(key), SnapshotPosition(keys[i]))
  }

  predicate Unreadable(bucket: Bucket, key: string) {
    key in bucket && Decode(bucket[key]).Some? ==>
      SnapshotPosition(key) != Some(Position(Decode(bucket[key]).value.epoch, Decode(bucket[key]).value.version))
  }

  /** What the listing contributes: the newest listed snapshot, or what is known if it is that or none is listed. */
  ghost predicate ListedIs(bucket: Bucket, keys: seq<string>, epoch: nat, known: Option<Loaded>, listed: Option<Loaded>) {
    || (listed == known && forall i :: 0 <= i < |keys| ==> !OfEpoch(keys[i], epoch))
    || (exists key :: IsNewestKey(keys, epoch, key) && FromKey(bucket, key, known, listed))
  }

  predicate FromKey(bucket: Bucket, key: string, known: Option<Loaded>, listed: Option<Loaded>) {
    if known.Some? && known.value.ref.name == key then listed == known
    else key in bucket && listed.Some? && listed == DecodeObject(key, bucket[key])
  }

  /** The bytes are those of a snapshot with the epoch and version that the name says, and the reference is its own. */
  predicate AsNamed(loaded: Loaded) {
    Decode(loaded.bytes).Some? &&
    var s := Decode(loaded.bytes).value;
    && SnapshotPosition(loaded.ref.name) == Some(Position(s.epoch, s.version))
    && loaded.ref == SnapshotRef(loaded.ref.name, s.version, s.requestId, Sha256(loaded.bytes))
  }

  /** The newest listed snapshot, without reading again what is already known. */
  method LoadListed(bucket: Bucket, keys: seq<string>, epoch: nat, known: Option<Loaded>)
      returns (ok: bool, listed: Option<Loaded>)
    requires known.Some? ==> Sound(known.value)
    ensures ok ==> ListedIs(bucket, keys, epoch, known, listed)
    ensures ok && listed.Some? ==> Sound(listed.value)
    ensures ok && listed != known ==>
              && listed.Some?
              && listed.value.ref.name in bucket && bucket[listed.value.ref.name] == listed.value.bytes
              && AsNamed(listed.value)
    ensures ok ==> forall i :: 0 <= i < |keys| && OfEpoch(keys[i], epoch) ==>
              listed.Some? && IsNewestKey(keys, epoch, listed.value.ref.name)
    ensures !ok ==> exists key :: IsNewestKey(keys, epoch, key) && Unreadable(bucket, key)
  {
    var newest := NewestKey(keys, epoch);
    if newest.None? {
      return true, known;
    }
    assert IsNewestKey(keys, epoch, newest.value);
    if known.Some? && known.value.ref.name == newest.value {
      assert FromKey(bucket, newest.value, known, known);
      return true, known;
    }
    if newest.value !in bucket {
      return false, None;
    }
    listed := DecodeObject(newest.value, bucket[newest.value]);
    ok := listed.Some?;
    assert ok ==> FromKey(bucket, newest.value, known, listed);
  }

  /** The fold of everything a recovery hears of: its base, the listing and the heads in arrival order. */
  function Heard(base: Option<SnapshotRef>, listed: Option<Loaded>, replies: seq<Reply<StreamHead>>): Fold<SnapshotRef> {
    FoldAll(PositionOf, base, [RefIn(listed)] + Heads(replies))
  }

  /** The listing comes first, then the heads in order of arrival. */
  lemma HeardInSteps(base: Option<SnapshotRef>, listed: Option<Loaded>, replies: seq<Reply<StreamHead>>)
    ensures Heard(base, listed, replies) ==
            match Advance(PositionOf, base, RefIn(listed))
            case Newest(ref) => FoldAll(PositionOf, ref, Heads(replies))
            case Conflict => Conflict
  {
    assert ([RefIn(listed)] + Heads(replies))[1..] == Heads(replies);
  }

  /** The base, the listed reference, or a head that a replica answered with. */
  predicate IsHeard(base: Option<SnapshotRef>, listed: Option<Loaded>, replies: seq<Reply<StreamHead>>, ref: SnapshotRef) {
    Some(ref) == base || Some(ref) == RefIn(listed) || Reports(replies, Some(ref))
  }

  /** Two different references at one position were heard of. */
  ghost predicate Conflicting(base: Option<SnapshotRef>, listed: Option<Loaded>, replies: seq<Reply<StreamHead>>) {
    exists a, b :: && IsHeard(base, listed, replies, a) && IsHeard(base, listed, replies, b)
                   && a != b && PositionOf(a) == PositionOf(b)
  }

  lemma ConflictIsHeard(base: Option<SnapshotRef>, listed: Option<Loaded>, replies: seq<Reply<StreamHead>>)
    ensures Heard(base, listed, replies) == Conflict ==> Conflicting(base, listed, replies)
  {
    if Heard(base, listed, replies) == Conflict {
      var all := [RefIn(listed)] + Heads(replies);
      var a, b := ConflictHasWitnesses(PositionOf, base, all);
      forall ref | Some(ref) == base || Some(ref) in all ensures IsHeard(base, listed, replies, ref) {
        if Some(ref) in Heads(replies) {
          var i :| 0 <= i < |replies| && Heads(replies)[i] == Some(ref);
          assert replies[i].Some? && replies[i].value.latest == Some(ref);
        }
      }
      assert IsHeard(base, listed, replies, a) && IsHeard(base, listed, replies, b);
    }
  }

  /** What is heard last is at least as new as the base and the listing. */
  lemma HeardDominates(
      base: Option<SnapshotRef>, listed: Option<Loaded>, replies: seq<Reply<StreamHead>>, winner: Option<SnapshotRef>)
    requires Heard(base, listed, replies) == Newest(winner)
    ensures Dominates(PositionOf, winner, base) && Dominates(PositionOf, winner, RefIn(listed))
  {
    var all := [RefIn(listed)] + Heads(replies);
    FoldDominates(PositionOf, base, all);
    assert all[0] == RefIn(listed);
  }

  /**
   The newest state of an activation: the fold of its base, the newest listed object and the
   reported heads. It is at least as new as all of them, it is one of them, and its bytes are those
   its reference was made from. It fails only for one of five causes.
   */
  method Latest(
      bucket: Bucket, keys: seq<string>, stream: Stream, base: Option<SnapshotRef>, known: Option<Loaded>,
      replies: seq<Reply<StreamHead>>, stored: string -> seq<Reply<Bytes>>)
      returns (ok: bool, loaded: Option<Loaded>, after: Bucket, ghost listed: Option<Loaded>)
    requires known.Some? ==> Sound(known.value)
    ensures ok ==> ListedIs(bucket, keys, stream.epoch, known, listed) && Heard(base, listed, replies) == Newest(RefIn(loaded))
    ensures ok && listed != known ==> listed.Some? && AsNamed(listed.value)
    ensures ok ==> RefIn(loaded) == base || RefIn(loaded) == RefIn(listed) || Reports(replies, RefIn(loaded))
    ensures ok ==> (replies == [] || Answered(replies)) && SameStream(replies, stream)
    ensures ok ==> Dominates(PositionOf, RefIn(loaded), base) && Outdoes(RefIn(loaded), replies)
    ensures ok ==> forall i :: 0 <= i < |keys| && OfEpoch(keys[i], stream.epoch) ==>
              loaded.Some? && !Before(PositionOf(loaded.value.ref), SnapshotPosition(keys[i]))
    ensures ok && loaded.Some? ==> Sound(loaded.value)
    ensures ok && loaded.Some? && loaded != known ==>
              loaded.value.ref.name in after && after[loaded.value.ref.name] == loaded.value.bytes
    ensures forall name :: name in bucket ==> name in after && after[name] == bucket[name]
    ensures !ok ==>
              || (exists key :: IsNewestKey(keys, stream.epoch, key) && Unreadable(bucket, key))
              || !SameStream(replies, stream)
              || (replies != [] && !Answered(replies))
              || (ListedIs(bucket, keys, stream.epoch, known, listed) && Conflicting(base, listed, replies))
              || (&& ListedIs(bucket, keys, stream.epoch, known, listed)
                  && Heard(base, listed, replies).Newest? && Heard(base, listed, replies).ref.Some?
                  && Heard(base, listed, replies).ref != RefIn(listed)
                  && var ref := Heard(base, listed, replies).ref.value;
                     !Recoverable(bucket, stored(ref.name), ref))
  {
    after := bucket;
    ok, loaded := LoadListed(bucket, keys, stream.epoch, known);
    listed := loaded;
    if !ok {
      return;
    }
    HeardInSteps(base, listed, replies);
    ConflictIsHeard(base, listed, replies);
    var candidate := Advance(PositionOf, base, RefIn(loaded));
    if candidate.Conflict? {
      return false, None, after, listed;
    }
    var winner;
    ok, winner := FoldHeads(stream, candidate.ref, replies);
    if !ok {
      return;
    }
    HeardDominates(base, listed, replies, winner);
    if winner.Some? && winner != RefIn(loaded) {
      var bytes;
      bytes, after := RecoverSnapshot(bucket, stored(winner.value.name), winner.value);
      if bytes.None? {
        return false, None, after, listed;
      }
      loaded := Some(Loaded(winner.value, bytes.value));
    }
  }

  // ---- Sealing a session ----

  datatype SealReply = SealReply(session: string, initialized: bool, sealed: bool, streams: seq<StreamHead>)

  predicate Complete(reply: Reply<SealReply>) {
    reply.Some? && reply.value.initialized && reply.value.sealed
  }

  /** The heads all complete witnesses reported, in arrival order. */
  function Reported(replies: seq<Reply<SealReply>>): seq<StreamHead> {
    if replies == [] then []
    else
      var last := replies[|replies| - 1];
      Reported(replies[..|replies| - 1]) + (if Complete(last) then last.value.streams else [])
  }

  /** Each stream's entry dominates every head reported for it. */
  ghost predicate Covers(tops: map<string, SnapshotRef>, heads: seq<StreamHead>) {
    forall j :: 0 <= j < |heads| && heads[j].latest.Some? ==>
      && heads[j].stream.prefix in tops
      && Dominates(PositionOf, Some(tops[heads[j].stream.prefix]), heads[j].latest)
  }

  /** Each entry was reported for its stream. */
  ghost predicate Occurs(tops: map<string, SnapshotRef>, heads: seq<StreamHead>) {
    forall prefix :: prefix in tops ==>
      exists j :: 0 <= j < |heads| && heads[j].stream.prefix == prefix && heads[j].latest == Some(tops[prefix])
  }

  predicate WellNamed(session: string, head: StreamHead) {
    && head.stream.session == session
    && (head.latest.Some? ==> head.latest.value.name == ObjectName(head.stream, head.latest.value.version))
  }

  ghost predicate Disagree(a: StreamHead, b: StreamHead) {
    && a.stream.prefix == b.stream.prefix
    && a.latest.Some? && b.latest.Some? && a.latest != b.latest
    && PositionOf(a.latest.value) == PositionOf(b.latest.value)
  }

  /** Two heads of one stream at the same position differ. */
  ghost predicate Contradiction(heads: seq<StreamHead>) {
    exists i, j :: 0 <= i < |heads| && 0 <= j < |heads| && Disagree(heads[i], heads[j])
  }

  /** The entry of a stream after one more of its heads. */
  lemma TopMoves(tops: map<string, SnapshotRef>, seen: seq<StreamHead>, head: StreamHead, top: SnapshotRef)
    requires Covers(tops, seen) && Occurs(tops, seen) && head.latest.Some?
    requires Dominates(PositionOf, Some(top), head.latest)
    requires if head.stream.prefix in tops
             then Dominates(PositionOf, Some(top), Some(tops[head.stream.prefix]))
                  && (top == tops[head.stream.prefix] || Some(top) == head.latest)
             else Some(top) == head.latest
    ensures Covers(tops[head.stream.prefix := top], seen + [head])
    ensures Occurs(tops[head.stream.prefix := top], seen + [head])
  {
    var (prefix, after, all) := (head.stream.prefix, tops[head.stream.prefix := top], seen + [head]);
    assert all[|seen|] == head;
    forall j | 0 <= j < |all| && all[j].latest.Some?
      ensures all[j].stream.prefix in after
      ensures Dominates(PositionOf, Some(after[all[j].stream.prefix]), all[j].latest)
    {
      if j < |seen| && all[j].stream.prefix == prefix {
        assert Dominates(PositionOf, Some(tops[prefix]), seen[j].latest);
        DominatesIsTransitive(PositionOf, Some(top), Some(tops[prefix]), seen[j].latest);
      }
    }
    forall p | p in after
      ensures exists j :: 0 <= j < |all| && all[j].stream.prefix == p && all[j].latest == Some(after[p])
    {
      if p != prefix || Some(top) != head.latest {
        var j :| 0 <= j < |seen| && seen[j].stream.prefix == p && seen[j].latest == Some(tops[p]);
        assert all[j] == seen[j];
      }
    }
  }

  method FoldStream(session: string, tops: map<string, SnapshotRef>, head: StreamHead, ghost seen: seq<StreamHead>)
      returns (ok: bool, after: map<string, SnapshotRef>)
    requires Covers(tops, seen) && Occurs(tops, seen)
    ensures ok ==> WellNamed(session, head) && Covers(after, seen + [head]) && Occurs(after, seen + [head])
    ensures !ok ==> !WellNamed(session, head) || Contradiction(seen + [head])
  {
    after := tops;
    if !WellNamed(session, head) {
      return false, after;
    }
    ghost var all := seen + [head];
    assert all[|seen|] == head && forall j :: 0 <= j < |seen| ==> all[j] == seen[j];
    if head.latest.Some? {
      var prefix := head.stream.prefix;
      var held := if prefix in tops then Some(tops[prefix]) else None;
      var next := Advance(PositionOf, held, head.latest);
      if next.Conflict? {
        ghost var j :| 0 <= j < |seen| && seen[j].stream.prefix == prefix && seen[j].latest == held;
        assert Disagree(all[j], all[|seen|]);
        return false, after;
      }
      after := tops[prefix := next.ref.value];
      TopMoves(tops, seen, head, next.ref.value);
    } else {
      assert Covers(tops, all) && Occurs(tops, all);
    }
    ok := true;
  }

  method FoldStreams(
      session: string, tops: map<string, SnapshotRef>, heads: seq<StreamHead>, ghost seen: seq<StreamHead>)
      returns (ok: bool, after: map<string, SnapshotRef>)
    requires Covers(tops, seen) && Occurs(tops, seen)
    ensures ok ==> Covers(after, seen + heads) && Occurs(after, seen + heads)
    ensures ok ==> forall j :: 0 <= j < |heads| ==> WellNamed(session, heads[j])
    ensures !ok ==> (exists j :: 0 <= j < |heads| && !WellNamed(session, heads[j])) || Contradiction(seen + heads)
  {
    after := tops;
    assert seen + heads[..0] == seen;
    for n := 0 to |heads|
      invariant Covers(after, seen + heads[..n]) && Occurs(after, seen + heads[..n])
      invariant forall j :: 0 <= j < n ==> WellNamed(session, heads[j])
    {
      ok, after := FoldStream(session, after, heads[n], seen + heads[..n]);
      assert seen + heads[..n] + [heads[n]] == seen + heads[..n + 1];
      if !ok {
        LongerContradiction(seen + heads[..n + 1], heads[n + 1..]);
        assert seen + heads[..n + 1] + heads[n + 1..] == seen + heads;
        return;
      }
    }
    assert heads[..|heads|] == heads;
    ok := true;
  }

  lemma LongerContradiction(heads: seq<StreamHead>, more: seq<StreamHead>)
    ensures Contradiction(heads) ==> Contradiction(heads + more)
  {
    if Contradiction(heads) {
      var i, j :| 0 <= i < |heads| && 0 <= j < |heads| && Disagree(heads[i], heads[j]);
      assert (heads + more)[i] == heads[i] && (heads + more)[j] == heads[j];
    }
  }

  method FoldReply(
      session: string, tops: map<string, SnapshotRef>, reply: Reply<SealReply>, ghost seen: seq<StreamHead>)
      returns (ok: bool, after: map<string, SnapshotRef>)
    requires Covers(tops, seen) && Occurs(tops, seen)
    ensures var now := seen + (if Complete(reply) then reply.value.streams else []);
            && (ok ==> Covers(after, now) && Occurs(after, now))
            && (ok && Complete(reply) ==>
                  forall j :: 0 <= j < |reply.value.streams| ==> WellNamed(session, reply.value.streams[j]))
            && (!ok ==> Complete(reply) &&
                        ((exists j :: 0 <= j < |reply.value.streams| && !WellNamed(session, reply.value.streams[j]))
                         || Contradiction(now)))
  {
    if !Complete(reply) {
      assert seen + [] == seen;
      return true, tops;
    }
    ok, after := FoldStreams(session, tops, reply.value.streams, seen);
  }

  /** One of the first `n` replies came from a complete witness. */
  predicate AnyComplete(replies: seq<Reply<SealReply>>, n: nat)
    requires n <= |replies|
  {
    exists i :: 0 <= i < n && Complete(replies[i])
  }

  predicate SameSession(session: string, replies: seq<Reply<SealReply>>, n: nat)
    requires n <= |replies|
  {
    forall i :: 0 <= i < n && replies[i].Some? ==> replies[i].value.session == session
  }

  /** A complete witness reported a stream that is misnamed or of another session. */
  ghost predicate Misnamed(session: string, replies: seq<Reply<SealReply>>) {
    exists head :: IsReported(replies, head) && !Named(session, head)
  }

  /** The head is of a stream of this session, and its object has the name the stream gives its version. */
  predicate Named(session: string, head: StreamHead) {
    && head.stream.session == session
    && (head.latest.Some? ==>
          head.latest.value.name == head.stream.prefix + Decimal(head.latest.value.version) + ".json")
  }

  /** Some replica that is initialized and sealed reported this head. */
  predicate IsReported(replies: seq<Reply<SealReply>>, head: StreamHead) {
    exists i :: 0 <= i < |replies| && replies[i].Some? && replies[i].value.initialized && replies[i].value.sealed
                && head in replies[i].value.streams
  }

  predicate AnySealed(replies: seq<Reply<SealReply>>) {
    exists i :: 0 <= i < |replies| && replies[i].Some? && replies[i].value.initialized && replies[i].value.sealed
  }

  /** Each entry was reported for its stream by a replica that is initialized and sealed. */
  ghost predicate TopsReported(replies: seq<Reply<SealReply>>, tops: map<string, SnapshotRef>) {
    forall prefix :: prefix in tops ==>
      exists head :: IsReported(replies, head) && head.stream.prefix == prefix && head.latest == Some(tops[prefix])
  }

  /** Each stream's entry is at least as new as every head such a replica reported for it. */
  ghost predicate TopsOutdo(replies: seq<Reply<SealReply>>, tops: map<string, SnapshotRef>) {
    forall head :: IsReported(replies, head) && head.latest.Some? ==>
      head.stream.prefix in tops && Dominates(PositionOf, Some(tops[head.stream.prefix]), head.latest)
  }

  /** Two heads of one stream at one position, both reported, differ. */
  ghost predicate ReportsDisagree(replies: seq<Reply<SealReply>>) {
    exists a, b :: IsReported(replies, a) && IsReported(replies, b) && Disagree(a, b)
  }

  /** What sealing returns; unless nobody was asked, some replica is initialized and sealed. */
  ghost predicate Sealing(replies: seq<Reply<SealReply>>, tops: map<string, SnapshotRef>) {
    (replies != [] ==> AnySealed(replies)) && TopsReported(replies, tops) && TopsOutdo(replies, tops)
  }

  /** The folded heads are those of the initialized and sealed replicas. */
  lemma {:induction false} ReportedIsReported(replies: seq<Reply<SealReply>>, head: StreamHead)
    ensures head in Reported(replies) <==> IsReported(replies, head)
  {
    if replies != [] {
      var n := |replies| - 1;
      ReportedIsReported(replies[..n], head);
      assert forall i :: 0 <= i < n ==> replies[..n][i] == replies[i];
      assert IsReported(replies, head) <==>
             IsReported(replies[..n], head) || (Complete(replies[n]) && head in replies[n].value.streams);
    }
  }

  ghost predicate AllNamed(session: string, replies: seq<Reply<SealReply>>) {
    forall head :: IsReported(replies, head) ==> Named(session, head)
  }

  lemma NamedOneMore(session: string, replies: seq<Reply<SealReply>>, n: nat)
    requires n < |replies| && AllNamed(session, replies[..n])
    requires Complete(replies[n]) ==>
               forall j :: 0 <= j < |replies[n].value.streams| ==> WellNamed(session, replies[n].value.streams[j])
    ensures AllNamed(session, replies[..n + 1])
  {
    var more := replies[..n + 1];
    forall head | IsReported(more, head) ensures Named(session, head) {
      var i :| 0 <= i < |more| && more[i].Some? && more[i].value.initialized && more[i].value.sealed
               && head in more[i].value.streams;
      if i < n {
        assert replies[..n][i] == more[i];
        assert IsReported(replies[..n], head);
      }
    }
  }

  /** Why folding one more reply fails, in terms of what was reported. */
  lemma FailureIsReported(session: string, replies: seq<Reply<SealReply>>, n: nat)
    requires n < |replies| && Complete(replies[n])
    requires || (exists j :: 0 <= j < |replies[n].value.streams| && !WellNamed(session, replies[n].value.streams[j]))
             || Contradiction(Reported(replies[..n]) + replies[n].value.streams)
    ensures Misnamed(session, replies) || ReportsDisagree(replies)
  {
    if j :| 0 <= j < |replies[n].value.streams| && !WellNamed(session, replies[n].value.streams[j]) {
      assert IsReported(replies, replies[n].value.streams[j]);
    } else {
      var all := Reported(replies[..n]) + replies[n].value.streams;
      var i, j :| 0 <= i < |all| && 0 <= j < |all| && Disagree(all[i], all[j]);
      ReportedEarlier(replies, n, all[i]);
      ReportedEarlier(replies, n, all[j]);
    }
  }

  lemma ReportedEarlier(replies: seq<Reply<SealReply>>, n: nat, head: StreamHead)
    requires n < |replies| && Complete(replies[n])
    requires head in Reported(replies[..n]) || head in replies[n].value.streams
    ensures IsReported(replies, head)
  {
    if head in Reported(replies[..n]) {
      ReportedIsReported(replies[..n], head);
      var i :| 0 <= i < n && replies[..n][i].Some? && replies[..n][i].value.initialized && replies[..n][i].value.sealed
               && head in replies[..n][i].value.streams;
      assert replies[i] == replies[..n][i];
    }
  }

  lemma FoldedIsReported(replies: seq<Reply<SealReply>>, tops: map<string, SnapshotRef>)
    requires Occurs(tops, Reported(replies))
    ensures TopsReported(replies, tops)
  {
    var all := Reported(replies);
    forall prefix | prefix in tops
      ensures exists head :: IsReported(replies, head) && head.stream.prefix == prefix && head.latest == Some(tops[prefix])
    {
      var j :| 0 <= j < |all| && all[j].stream.prefix == prefix && all[j].latest == Some(tops[prefix]);
      ReportedIsReported(replies, all[j]);
    }
  }

  lemma FoldedOutdoes(replies: seq<Reply<SealReply>>, tops: map<string, SnapshotRef>)
    requires Covers(tops, Reported(replies))
    ensures TopsOutdo(replies, tops)
  {
    var all := Reported(replies);
    forall head | IsReported(replies, head) && head.latest.Some?
      ensures head.stream.prefix in tops && Dominates(PositionOf, Some(tops[head.stream.prefix]), head.latest)
    {
      ReportedIsReported(replies, head);
      var j :| 0 <= j < |all| && all[j] == head;
    }
  }

  /**
   Folds the sealed witnesses stream by stream. With at least one complete witness the result is
   each stream's newest reported head, whatever the order of arrival.
   */
  method SealReplicas(session: string, replies: seq<Reply<SealReply>>)
      returns (ok: bool, tops: map<string, SnapshotRef>)
    ensures ok ==> SameSession(session, replies, |replies|) && !Misnamed(session, replies) && Sealing(replies, tops)
    ensures !ok ==>
              || !SameSession(session, replies, |replies|)
              || Misnamed(session, replies)
              || ReportsDisagree(replies)
              || (replies != [] && !AnySealed(replies))
  {
    tops := map[];
    var witnesses := 0;
    for n := 0 to |replies|
      invariant Covers(tops, Reported(replies[..n])) && Occurs(tops, Reported(replies[..n]))
      invariant SameSession(session, replies, n)
      invariant witnesses > 0 <==> AnyComplete(replies, n)
      invariant AllNamed(session, replies[..n])
    {
      assert replies[..n + 1][..n] == replies[..n];
      if replies[n].Some? && replies[n].value.session != session {
        return false, tops;
      }
      ok, tops := FoldReply(session, tops, replies[n], Reported(replies[..n]));
      if !ok {
        FailureIsReported(session, replies, n);
        return;
      }
      NamedOneMore(session, replies, n);
      if Complete(replies[n]) {
        witnesses := witnesses + 1;
      }
    }
    assert replies[..|replies|] == replies;
    ok := replies == [] || witnesses > 0;
    if ok {
      FoldedIsReported(replies, tops);
      FoldedOutdoes(replies, tops);
    }
  }
}
