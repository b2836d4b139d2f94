/** The replica store does what the protocol's replica steps allow, and nothing else. */
module StoreRefinement {
  import opened Names
  import opened Snapshots
  import opened ReplicaViews
  import opened ReplicaDisk
  import opened ReplicaStore
  import opened Activation
  import opened ActivationInvariant
  import opened ActivationSafety
  import Recovery
  import Runtime = ActorRuntime

  /** A store as the protocol sees it: the directory as it is, and the part of it that is durable. */
  ghost function Seen(m: Moment, stream: Stream, confirmed: set<nat>): Replica {
    Replica(ViewOf(m.Now(), stream), ViewOf(m.base, stream), confirmed)
  }

  predicate HeadIssued(ep: Epoch, v: View) {
    v.head.Some? ==> v.head.value.version in ep.writer.issued && v.head.value == ep.writer.issued[v.head.value.version]
  }

  /**
   A power failure that keeps any of the pending operations, and the store opened on what is left,
   are a crash and a sync that the protocol survives.
   */
  lemma CrashRefines(ep: Epoch, m: Moment, kept: set<nat>, confirmed: set<nat>)
    requires Sturdy(m) && HeadIssued(ep, ViewOf(Left(m, kept), ep.stream))
    ensures var (replica, left) := (Seen(m, ep.stream, confirmed), Left(m, kept));
            && CanChange(ep, replica, Crash(ViewOf(left, ep.stream)))
            && var crashed := Changed(ep, replica, Crash(ViewOf(left, ep.stream)));
               && CanChange(ep, crashed, Sync)
               && Changed(ep, crashed, Sync) == Seen(Moment(left, []), ep.stream, confirmed)
  {
    CrashLeavesBetween(m, kept, ep.stream);
  }

  /** An append that moved the head, durable or not yet, is the protocol's append. */
  lemma MovingRefines(ep: Epoch, m: Moment, next: Moment, version: nat, confirmed: set<nat>)
    requires Sturdy(m) && Sturdy(next) && version in ep.writer.issued
    requires Accepts(m.Now(), ep.stream, Encoded(ep.writer.issued[version]))
    requires Moved(m.Now(), next.Now(), ep.stream, Encoded(ep.writer.issued[version]))
    ensures var replica := Seen(m, ep.stream, confirmed);
            && CanChange(ep, replica, Append(version))
            && Changed(ep, replica, Append(version)).memory == ViewOf(next.Now(), ep.stream)
            && Extends(ViewOf(m.Now(), ep.stream), ViewOf(next.Now(), ep.stream))
  {
    NowIsOk(m);
    NowIsOk(next);
    MovedView(m.Now(), next.Now(), ep.stream, Encoded(ep.writer.issued[version]), ep.stream);
  }

  /** A successful append is the protocol's append followed by its confirmation. */
  lemma AppendRefines(ep: Epoch, m: Moment, after: Disk, version: nat, confirmed: set<nat>)
    requires Sturdy(m) && DiskOk(after) && version in ep.writer.issued
    requires Accepts(m.Now(), ep.stream, Encoded(ep.writer.issued[version]))
    requires Moved(m.Now(), after, ep.stream, Encoded(ep.writer.issued[version]))
    ensures var replica := Seen(m, ep.stream, confirmed);
            && CanChange(ep, replica, Append(version))
            && var appended := Changed(ep, replica, Append(version));
               && CanChange(ep, appended, Confirm(version))
               && Changed(ep, appended, Confirm(version)) == Seen(Moment(after, []), ep.stream, confirmed + {version})
  {
    SyncedIsSturdy(after);
    assert Moment(after, []).Now() == after;
    MovingRefines(ep, m, Moment(after, []), version, confirmed);
  }

  /** A store that shows a view takes every issued version that the protocol's append allows there. */
  lemma IssuedIsAccepted(ep: Epoch, d: Disk, version: nat)
    requires Inv(ep) && Owns(d, ep.stream) && version in ep.writer.issued
    ensures var s := ep.writer.issued[version];
            Accepts(d, ep.stream, Encoded(s)) <==> ValidSnapshot(s) && CanAppend(ViewOf(d, ep.stream), s)
    ensures var s := ep.writer.issued[version];
            StreamSnapshot(ep.stream, Encoded(s)) == if ValidSnapshot(s) then Some(ep.RefTo(s)) else None
  {
  }

  /** What the runtime issues is always valid, so only the view decides. */
  lemma RuntimeVersionIsAccepted(l: Runtime.Ledger, stream: Stream, d: Disk, version: nat)
    requires Runtime.LedgerOk(l, stream.baseVersion, stream) && Owns(d, stream) && version in l.issued
    ensures Accepts(d, stream, Encoded(l.issued[version])) <==> CanAppend(ViewOf(d, stream), l.issued[version])
  {
  }

  /** An empty directory is a fresh replica, and each mark shows in the sessions it is for, and there alone. */
  lemma EmptyIsFresh(stream: Stream, head: SessionHead)
    ensures Seen(Moment(Disk(map[], map[], map[]), []), stream, {}) == Fresh
    ensures ViewOf(Do(Disk(map[], map[], map[]), SetSession(head)), stream) ==
            if stream.session == head.session then View(head.initialized, head.sealed, None) else Blank
  {
  }

  // ---- The head of a sealed replica ----

  /** The stream is stored under its prefix, if anything is. */
  predicate Owns(d: Disk, stream: Stream) {
    stream.prefix in d.streams ==> d.streams[stream.prefix].stream == stream
  }

  /** The bytes of the head that the protocol sees are stored under its name. */
  lemma HeadIsStored(d: Disk, stream: Stream, s: Snapshot)
    requires DiskOk(d) && Owns(d, stream) && ViewOf(d, stream).head == Some(s)
    ensures var name := ObjectName(stream, s.version);
            && name in d.blobs && d.blobs[name] == Encoded(s)
            && d.streams[stream.prefix].latest == Some(NewRef(name, s))
  {
    assert HeadOk(d, stream.prefix, d.streams[stream.prefix]);
    HeadIsView(d, stream);
  }

  /** With the same head durable and in use, every survivor of a power failure has it. */
  lemma SteadyHeadSurvives(m: Moment, kept: set<nat>, stream: Stream, s: Snapshot)
    requires Sturdy(m) && Owns(m.base, stream) && Owns(m.Now(), stream)
    requires ViewOf(m.base, stream).head == Some(s) == ViewOf(m.Now(), stream).head
    ensures ViewOf(Left(m, kept), stream).head == Some(s) && Owns(Left(m, kept), stream)
  {
    var (left, all) := (Left(m, kept), Everything(|m.ops|));
    NowIsOk(m);
    SurvivorsAreOk(m, kept);
    HeadIsStored(m.base, stream, s);
    HeadIsStored(m.Now(), stream, s);
    AllSurvive(m.base, m.ops, all);
    SurvivorStreams(m.base, m.ops, kept);
    SurvivorStreams(m.base, m.ops, all);
    assert HeadOk(left, stream.prefix, left.streams[stream.prefix]);
  }

  /**
   Once a replica of an activation is durably sealed, then after any further run, and after any
   power failure, the store still has the bytes of the head it was sealed with. A recovery that
   hears from it first restores them, which is what the end of a session's recovery waits for.
   */
  lemma SealedHeadIsRecoverable(
      ep: Epoch, events: seq<Event>, r: Id, m: Moment, kept: set<nat>, bucket: Recovery.Bucket,
      rest: seq<Recovery.Reply<Bytes>>)
    requires Inv(ep) && CanRun(ep, events) && ep.Rep(r).disk.sealed && ep.Rep(r).disk.head.Some?
    requires Run(ep, events).Rep(r) == Seen(m, ep.stream, Run(ep, events).Rep(r).confirmed)
    requires Sturdy(m) && Owns(m.base, ep.stream) && Owns(m.Now(), ep.stream)
    ensures var (s, left) := (ep.Rep(r).disk.head.value, Left(m, kept));
            var ref := ep.RefTo(s);
            && s.version in ep.writer.issued && s == ep.writer.issued[s.version]
            && ref.name in left.blobs && left.blobs[ref.name] == Encoded(s)
            && (ref.name !in bucket ==> Recovery.Recoverable(bucket, [Some(left.blobs[ref.name])] + rest, ref))
  {
    var (s, left) := (ep.Rep(r).disk.head.value, Left(m, kept));
    SealFreezes(ep, events, r);
    assert ReplicaOk(ep, ep.Rep(r));
    SteadyHeadSurvives(m, kept, ep.stream, s);
    SurvivorsAreOk(m, kept);
    HeadIsStored(left, ep.stream, s);
    assert Recovery.FirstAnswers([Some(left.blobs[ep.RefTo(s).name])] + rest, 0, ep.RefTo(s).digest);
  }
}
