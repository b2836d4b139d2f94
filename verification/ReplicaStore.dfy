/** The replica store: byte accounting, immutable blobs, stream heads, sealing and restart. */
module ReplicaStore {
  import opened Names
  import opened Snapshots
  import opened ReplicaViews
  import opened ReplicaDisk
  import opened StreamOrder

  // ---- Byte accounting ----

  ghost function Total(sizes: map<string, nat>): nat
    decreases |sizes|
  {
    if sizes == map[] then 0
    else
      var name :| name in sizes;
      sizes[name] + Total(sizes - {name})
  }

  lemma {:induction false} TotalWithout(sizes: map<string, nat>, name: string)
    requires name in sizes
    ensures Total(sizes) == sizes[name] + Total(sizes - {name})
    decreases |sizes|
  {
    var first :| first in sizes && Total(sizes) == sizes[first] + Total(sizes - {first});
    if first != name {
      var both := sizes - {first} - {name};
      assert both == sizes - {name} - {first};
      TotalWithout(sizes - {first}, name);
      TotalWithout(sizes - {name}, first);
    }
  }

  lemma TotalWith(sizes: map<string, nat>, name: string, size: nat)
    requires name !in sizes
    ensures Total(sizes[name := size]) == Total(sizes) + size
  {
    TotalWithout(sizes[name := size], name);
    assert sizes[name := size] - {name} == sizes;
  }

  function Sizes(blobs: map<string, Bytes>, size: Bytes -> nat): map<string, nat> {
    map name | name in blobs :: size(blobs[name])
  }

  /** Adds the sizes up one by one, stopping when 64 bits no longer hold the sum. */
  method Count(all: map<string, nat>) returns (ok: bool, used: nat, counted: map<string, nat>)
    ensures ok <==> Total(all) < U64_LIMIT
    ensures ok ==> used == Total(all) && counted == all
  {
    used, counted := 0, map[];
    var rest := all;
    while rest != map[]
      invariant forall name :: name in rest ==> name in all && rest[name] == all[name]
      invariant forall name :: name in counted ==> name in all && counted[name] == all[name]
      invariant forall name :: name in all ==> name in rest || name in counted
      invariant used + Total(rest) == Total(all) && used < U64_LIMIT
      decreases |rest|
    {
      var name :| name in rest;
      TotalWithout(rest, name);
      if used + rest[name] >= U64_LIMIT {
        return false, used, counted;
      }
      used := used + rest[name];
      counted := counted[name := rest[name]];
      rest := rest - {name};
    }
    ok := true;
  }

  // ---- What an append decides ----

  /** The bytes belong to the stream, the session is open and the head may move to them. */
  predicate Accepts(d: Disk, stream: Stream, bytes: Bytes) {
    && (stream.prefix in d.streams ==> d.streams[stream.prefix].stream == stream)
    && Decode(bytes).Some?
    && Decode(bytes).value.epoch == stream.epoch && Decode(bytes).value.version > stream.baseVersion
    && CanAppend(ViewOf(d, stream), Decode(bytes).value)
  }

  /** The bytes are stored already, or there is room for them. */
  predicate Fits(d: Disk, used: nat, capacity: nat, size: Bytes -> nat, stream: Stream, bytes: Bytes)
    requires StreamSnapshot(stream, bytes).Some?
  {
    var ref := StreamSnapshot(stream, bytes).value;
    || (stream.prefix in d.streams && d.streams[stream.prefix].latest == Some(ref))
    || (if ref.name in d.blobs then d.blobs[ref.name] == bytes
        else used + size(bytes) < U64_LIMIT && used + size(bytes) <= capacity)
  }

  /** No other stored stream shares a prefix with this one, and this prefix keeps its stream. */
  predicate Distinct(d: Disk, stream: Stream) {
    && (forall p :: p in d.streams && p != stream.prefix ==> Separate(p, stream.prefix))
    && (stream.prefix in d.streams ==> d.streams[stream.prefix].stream == stream)
  }

  predicate HeadBelow(d: Disk, stream: Stream, version: nat) {
    stream.prefix in d.streams && d.streams[stream.prefix].latest.Some? ==>
      d.streams[stream.prefix].latest.value.version < version
  }

  function HeadSet(d: Disk, stream: Stream, bytes: Bytes): map<string, StreamHead> {
    d.streams[stream.prefix := StreamHead(stream, StreamSnapshot(stream, bytes))]
  }

  function RefOf(stream: Stream, head: Option<Snapshot>): Option<SnapshotRef> {
    if head.Some? then Some(NewRef(ObjectName(stream, head.value.version), head.value)) else None
  }

  /** The stream's blobs other than its head. */
  function Obsolete(d: Disk, prefix: string): set<string> {
    set name | name in d.blobs && prefix <= name && prefix in d.streams
               && d.streams[prefix].latest.Some? && name != d.streams[prefix].latest.value.name
  }

  /** Blobs of the stream other than its head may be gone; nothing else differs. */
  ghost predicate Trimmed(d: Disk, next: Disk, prefix: string) {
    && SameHeads(next, d)
    && (forall name :: name in next.blobs ==> name in d.blobs && next.blobs[name] == d.blobs[name])
    && (forall name :: name in d.blobs && name !in next.blobs ==>
          && prefix <= name && prefix in d.streams
          && d.streams[prefix].latest.Some? && name != d.streams[prefix].latest.value.name)
  }

  /** A stream that has a head has no other blob. */
  ghost predicate OnlyHead(d: Disk, prefix: string) {
    prefix in d.streams && d.streams[prefix].latest.Some? ==>
      forall name :: name in d.blobs && prefix <= name ==> name == d.streams[prefix].latest.value.name
  }

  lemma NothingObsolete(d: Disk, prefix: string)
    ensures OnlyHead(d, prefix) <==> Obsolete(d, prefix) == {}
  {
    if Obsolete(d, prefix) != {} {
      var name :| name in Obsolete(d, prefix);
    } else if prefix in d.streams && d.streams[prefix].latest.Some? {
      forall name | name in d.blobs && prefix <= name ensures name == d.streams[prefix].latest.value.name {
        assert name !in Obsolete(d, prefix);
      }
    }
  }

  /** Every stream but these has only the blob its head names. */
  ghost predicate CleanBut(d: Disk, prefixes: set<string>) {
    forall p :: p in d.streams && p !in prefixes ==> OnlyHead(d, p)
  }

  lemma TrimmingKeepsClean(d: Disk, next: Disk, prefix: string, prefixes: set<string>)
    requires Trimmed(d, next, prefix) && CleanBut(d, prefixes) && OnlyHead(next, prefix)
    ensures CleanBut(next, prefixes - {prefix})
  {
    forall p | p in next.streams && p !in prefixes - {prefix} ensures OnlyHead(next, p) {
      assert p != prefix ==> OnlyHead(d, p);
    }
  }

  lemma TrimsFurther(d: Disk, mid: Disk, prefix: string, name: string)
    requires Trimmed(d, mid, prefix) && name in Obsolete(mid, prefix)
    ensures Trimmed(d, Do(mid, DropBlob(name)), prefix)
    ensures Obsolete(Do(mid, DropBlob(name)), prefix) == Obsolete(mid, prefix) - {name}
  {
  }

  lemma ObsoleteRemovalKeepsDisk(d: Disk, prefix: string, name: string)
    requires DiskOk(d) && name in Obsolete(d, prefix)
    ensures DiskOk(Do(d, DropBlob(name)))
  {
    var next := Do(d, DropBlob(name));
    forall p | p in next.streams ensures HeadOk(next, p, next.streams[p]) {
      assert HeadOk(d, p, d.streams[p]);
      if p != prefix && d.streams[p].latest.Some? {
        SeparateNames(p, d.streams[p].latest.value.name, prefix, name);
      }
    }
  }

  /** Names under separate prefixes differ. */
  lemma SeparateNames(p: string, left: string, q: string, right: string)
    requires Separate(p, q) && p <= left && q <= right
    ensures left != right
  {
  }

  // ---- Pruning and heads that are not synced ----

  /** The stream's head was replaced since the last sync, and the durable head names another blob. */
  predicate HeadReplaced(m: Moment, prefix: string) {
    && PendingHead(m.ops).Some? && PendingHead(m.ops).value.stream.prefix == prefix
    && prefix in m.base.streams && m.base.streams[prefix].latest.Some?
    && m.base.streams[prefix].latest != PendingHead(m.ops).value.latest
  }

  lemma HeadNames(d: Disk, p: string)
    requires DiskOk(d) && p in d.streams && d.streams[p].latest.Some?
    ensures p <= d.streams[p].latest.value.name
  {
    assert HeadOk(d, p, d.streams[p]);
  }

  /** Different heads of one stream name different blobs. */
  lemma NamesDiffer(d: Disk, head: StreamHead, name: string)
    requires DiskOk(d) && HeadOk(d, head.stream.prefix, head) && head.latest.Some?
    requires head.stream.prefix in d.streams && d.streams[head.stream.prefix].stream == head.stream
    requires d.streams[head.stream.prefix].latest.Some? && d.streams[head.stream.prefix].latest != head.latest
    ensures d.streams[head.stream.prefix].latest.value.name != head.latest.value.name
  {
    assert HeadOk(d, head.stream.prefix, d.streams[head.stream.prefix]);
  }

  lemma NamedUnderPrefix(m: Moment, prefix: string, name: string)
    requires Sturdy(m) && name in Named(m) && prefix <= name && prefix in m.Now().streams
    ensures || (prefix in m.base.streams && m.base.streams[prefix].latest.Some?
                && m.base.streams[prefix].latest.value.name == name)
            || (PendingHead(m.ops).Some? && PendingHead(m.ops).value.stream.prefix == prefix
                && PendingHead(m.ops).value.latest.value.name == name)
  {
    AllSurvive(m.base, m.ops, Everything(|m.ops|));
    SurvivorStreams(m.base, m.ops, Everything(|m.ops|));
    if p :| p in m.base.streams && m.base.streams[p].latest.Some? && m.base.streams[p].latest.value.name == name {
      HeadNames(m.base, p);
      OnePrefix(p, prefix, name);
    } else {
      OnePrefix(PendingHead(m.ops).value.stream.prefix, prefix, name);
    }
  }

  lemma OnePrefix(p: string, q: string, name: string)
    requires p <= name && q <= name
    ensures !Separate(p, q)
  {
  }

  /**
   Pruning a stream touches no blob that a durable or pending head names, exactly unless its head was
   replaced since the last sync. Appending syncs before it prunes; a restart does not.
   */
  lemma PruningIsSafeIff(m: Moment, prefix: string)
    requires Sturdy(m) && prefix in m.Now().streams
    ensures Obsolete(m.Now(), prefix) !! Named(m) <==> !HeadReplaced(m, prefix)
  {
    var all := Everything(|m.ops|);
    AllSurvive(m.base, m.ops, all);
    SurvivorStreams(m.base, m.ops, all);
    NamedAreStored(m);
    if HeadReplaced(m, prefix) {
      var (held, head) := (m.base.streams[prefix], PendingHead(m.ops).value);
      NamesDiffer(m.base, head, held.latest.value.name);
      HeadNames(m.base, prefix);
      assert held.latest.value.name in Obsolete(m.Now(), prefix) && held.latest.value.name in Named(m);
    } else {
      forall name | name in Obsolete(m.Now(), prefix) ensures name !in Named(m) {
        if name in Named(m) {
          NamedUnderPrefix(m, prefix, name);
        }
      }
    }
  }

  /**
   A store stopped between renaming a head and syncing the directory prunes the old blob when it
   restarts. After a power failure that keeps the removal but not the rename the stream reports its
   old head, and the blob this names is gone.
   */
  lemma RestartPruningCanLoseHead(d: Disk, head: StreamHead)
    requires DiskOk(d) && HeadReady(d, head) && head.latest.Some? && head.stream.prefix in d.streams
    requires d.streams[head.stream.prefix].latest.Some? && d.streams[head.stream.prefix].latest != head.latest
    ensures var m := Moment(d, [SetHead(head)]);
            var name := d.streams[head.stream.prefix].latest.value.name;
            && Sturdy(m) && HeadReplaced(m, head.stream.prefix) && name in Obsolete(m.Now(), head.stream.prefix)
            && var left := Left(m.Then(DropBlob(name)), {1});
               && left.streams == d.streams && name in d.blobs && name !in left.blobs
               && !HeadOk(left, head.stream.prefix, left.streams[head.stream.prefix])
  {
    SyncedIsSturdy(d);
    var (m, p) := (Moment(d, [SetHead(head)]), head.stream.prefix);
    var name := d.streams[p].latest.value.name;
    assert HeadOk(d, p, d.streams[p]);
    NamesDiffer(d, head, name);
    HeadNames(d, p);
    assert Moment(d, []).Then(SetHead(head)) == m;
    HeadKeepsSturdy(Moment(d, []), head);
    assert m.Now() == Do(d, SetHead(head)) by {
      DoOneMore(d, [], SetHead(head));
    }
    var ops := [SetHead(head), DropBlob(name)];
    assert m.Then(DropBlob(name)).ops == ops && ops[..1] == m.ops && m.ops[..0] == [];
    assert Survivors(d, [], {1}) == d;
    assert Survivors(d, m.ops, {1}) == d;
    assert Survivors(d, ops, {1}) == Do(d, DropBlob(name));
  }

  // ---- Appending and crashes ----

  /** The head reference is the view's head, named by the stream. */
  lemma HeadIsView(d: Disk, stream: Stream)
    requires DiskOk(d) && (stream.prefix in d.streams ==> d.streams[stream.prefix].stream == stream)
    ensures stream.prefix in d.streams ==>
              d.streams[stream.prefix].latest == RefOf(stream, ViewOf(d, stream).head)
    ensures stream.prefix !in d.streams ==> ViewOf(d, stream).head.None?
  {
  }

  /** The directory with the new head in it. */
  predicate Moved(d: Disk, next: Disk, stream: Stream, bytes: Bytes) {
    next.streams == HeadSet(d, stream, bytes) && next.sessions == d.sessions
  }

  /**
   The stages of an append: only blobs are touched; then, with the old heads durable, the new head
   is pending; then it is durable and again only blobs are touched.
   */
  predicate Stage(entry: Moment, m: Moment, stream: Stream, bytes: Bytes) {
    || Quiet(entry, m)
    || (&& StreamSnapshot(stream, bytes).Some? && SameHeads(m.base, entry.Now()) && m.ops != []
        && m.ops[0] == SetHead(StreamHead(stream, StreamSnapshot(stream, bytes))) && BlobOnly(m.ops[1..]))
    || (StreamSnapshot(stream, bytes).Some? && Moved(entry.Now(), m.base, stream, bytes) && BlobOnly(m.ops))
  }

  /**
   A power failure at any stage leaves the heads it could have left before the append, or those in
   use when it began, or these with the new head.
   */
  lemma StageCrash(entry: Moment, m: Moment, stream: Stream, bytes: Bytes, kept: set<nat>)
    requires Stage(entry, m, stream, bytes)
    ensures || SameHeads(Left(m, kept), Left(entry, kept))
            || SameHeads(Left(m, kept), entry.Now())
            || (StreamSnapshot(stream, bytes).Some? && Moved(entry.Now(), Left(m, kept), stream, bytes))
  {
    if Quiet(entry, m) {
      QuietKeepsHeads(entry, m, kept);
    } else if Moved(entry.Now(), m.base, stream, bytes) && BlobOnly(m.ops) {
      assert m.ops[0..] == m.ops && m.ops[..0] == [];
      BlobsKeepHeads(m.base, m.ops, 0, kept);
    } else {
      BlobsKeepHeads(m.base, m.ops, 1, kept);
      var one := m.ops[..1];
      assert one[..0] == [] && Survivors(m.base, one[..0], kept) == m.base;
      assert Survivors(m.base, one, kept) == if 0 in kept then Do(m.base, m.ops[0]) else m.base;
    }
  }

  /** What the protocol sees once the new head is there: the stream appended to, all others as before. */
  lemma MovedView(d: Disk, next: Disk, stream: Stream, bytes: Bytes, other: Stream)
    requires DiskOk(d) && DiskOk(next) && Moved(d, next, stream, bytes) && StreamSnapshot(stream, bytes).Some?
    ensures ViewOf(next, stream) == Appended(ViewOf(d, stream), Decode(bytes).value)
    ensures other.prefix != stream.prefix ==> ViewOf(next, other) == ViewOf(d, other)
  {
    assert HeadOk(next, stream.prefix, next.streams[stream.prefix]);
    if other.prefix in d.streams && other.prefix != stream.prefix {
      assert HeadOk(d, other.prefix, d.streams[other.prefix]);
      assert HeadOk(next, other.prefix, next.streams[other.prefix]);
    }
  }

  lemma SealReports(d: Disk, session: string, heads: set<StreamHead>)
    requires DiskOk(d)
    requires heads == set prefix | prefix in d.streams && d.streams[prefix].stream.session == session :: d.streams[prefix]
    ensures forall head :: head in heads <==>
              head.stream.prefix in d.streams && head == d.streams[head.stream.prefix]
              && head.stream.session == session
  {
  }

  /** No sync and no head since. */
  predicate SamePending(entry: Moment, m: Moment) {
    m.base == entry.base && PendingHead(m.ops) == PendingHead(entry.ops)
  }

  ghost predicate QuietFrom(log: seq<Moment>, n: nat, entry: Moment) {
    n <= |log| && forall k :: n <= k < |log| ==> Quiet(entry, log[k])
  }

  ghost predicate SturdyFrom(log: seq<Moment>, n: nat) {
    n <= |log| && forall k :: n <= k < |log| ==> Sturdy(log[k])
  }

  ghost predicate StagesFrom(log: seq<Moment>, n: nat, entry: Moment, stream: Stream, bytes: Bytes) {
    n <= |log| && forall k :: n <= k < |log| ==> Stage(entry, log[k], stream, bytes)
  }

  lemma QuietIsStage(log: seq<Moment>, n: nat, entry: Moment, stream: Stream, bytes: Bytes)
    requires QuietFrom(log, n, entry)
    ensures StagesFrom(log, n, entry, stream, bytes)
  {
  }

  /** Quiet moments after a sync that kept the heads are quiet from the start. */
  lemma QuietAfterSyncOne(entry: Moment, synced: Moment, m: Moment)
    requires synced.ops == [] && SameHeads(synced.base, entry.Now()) && Quiet(synced, m)
    ensures Quiet(entry, m)
  {
    assert synced.Now() == synced.base;
    assert m.ops[0..] == m.ops;
  }

  lemma QuietAfterSync(log: seq<Moment>, start: nat, n: nat, entry: Moment, synced: Moment)
    requires start <= n <= |log| && (forall k :: start <= k < n ==> Quiet(entry, log[k]))
    requires synced.ops == [] && SameHeads(synced.base, entry.Now()) && QuietFrom(log, n, synced)
    ensures QuietFrom(log, start, entry)
  {
    forall k | n <= k < |log| ensures Quiet(entry, log[k]) {
      QuietAfterSyncOne(entry, synced, log[k]);
    }
  }

  lemma SavingIsStage(
      log: seq<Moment>, start: nat, n: nat, entry: Moment, stored: Disk, stream: Stream, bytes: Bytes)
    requires start <= n <= |log| && (forall k :: start <= k < n ==> Stage(entry, log[k], stream, bytes))
    requires StreamSnapshot(stream, bytes).Some? && SameHeads(stored, entry.Now())
    requires var head := SetHead(StreamHead(stream, StreamSnapshot(stream, bytes)));
             forall k :: n <= k < |log| ==> log[k] == Moment(stored, [head]) || log[k] == Moment(Do(stored, head), [])
    ensures StagesFrom(log, start, entry, stream, bytes)
  {
  }

  lemma PruningIsStage(
      log: seq<Moment>, start: nat, n: nat, entry: Moment, saved: Moment, stream: Stream, bytes: Bytes)
    requires start <= n <= |log| && (forall k :: start <= k < n ==> Stage(entry, log[k], stream, bytes))
    requires StreamSnapshot(stream, bytes).Some?
    requires saved.ops == [] && Moved(entry.Now(), saved.base, stream, bytes) && QuietFrom(log, n, saved)
    ensures StagesFrom(log, start, entry, stream, bytes)
  {
    assert saved.Now() == saved.base;
    forall k | n <= k < |log| ensures Stage(entry, log[k], stream, bytes) {
      assert Quiet(saved, log[k]);
      assert log[k].ops[0..] == log[k].ops;
    }
  }

  lemma DropStaysQuiet(log: seq<Moment>, start: nat, entry: Moment, m: Moment, prefix: string, name: string)
    requires Quiet(entry, m) && SamePending(entry, m) && QuietFrom(log, start, entry)
    requires name in Obsolete(m.Now(), prefix)
    requires !HeadReplaced(entry, prefix) ==> Sturdy(m) && SturdyFrom(log, start)
    ensures var next := m.Then(DropBlob(name));
            && Quiet(entry, next) && SamePending(entry, next) && QuietFrom(log + [next], start, entry)
            && (!HeadReplaced(entry, prefix) ==> Sturdy(next) && SturdyFrom(log + [next], start))
  {
    QuietThen(entry, m, DropBlob(name));
    if !HeadReplaced(entry, prefix) {
      PruningIsSafeIff(m, prefix);
      BlobKeepsSturdy(m, DropBlob(name));
    }
  }

  /** Without separate prefixes pruning one stream would remove the blob another one's head names. */
  lemma OverlappingPrefixLosesHead(d: Disk, p: string, q: string)
    requires p in d.streams && q in d.streams && p != q && p <= q
    requires HeadOk(d, p, d.streams[p]) && HeadOk(d, q, d.streams[q])
    requires d.streams[p].latest.Some? && d.streams[q].latest.Some?
    requires d.streams[p].latest.value.name != d.streams[q].latest.value.name
    ensures var name := d.streams[q].latest.value.name;
            && name in Obsolete(d, p)
            && Do(d, DropBlob(name)).streams == d.streams
            && !HeadOk(Do(d, DropBlob(name)), q, d.streams[q])
  {
  }

  /** Since then the session file was replaced, and that may have been synced. */
  predicate MarkedFrom(log: seq<Moment>, n: nat, m: Moment, d: Disk, head: SessionHead) {
    n <= |log| && forall k :: n <= k < |log| ==>
      log[k] == m.Then(SetSession(head)) || log[k] == Moment(Do(d, SetSession(head)), [])
  }

  lemma MarkedOn(log: seq<Moment>, more: seq<Moment>, n: nat, m: Moment, d: Disk, head: SessionHead)
    requires MarkedFrom(log, n, m, d, head) && (more == log || more == log + [Moment(Do(d, SetSession(head)), [])])
    ensures MarkedFrom(more, n, m, d, head)
  {
  }

  /** The session's streams are sealed, and accept nothing; all others are as before. */
  ghost predicate Seals(d: Disk, next: Disk, session: string) {
    && (forall stream: Stream ::
          ViewOf(next, stream) == if stream.session == session then ViewOf(d, stream).(sealed := true)
                                  else ViewOf(d, stream))
    && (forall stream: Stream, bytes: Bytes :: stream.session == session ==> !Accepts(next, stream, bytes))
  }

  lemma SavingSeals(d: Disk, session: string)
    requires DiskOk(d)
    ensures Seals(d, Do(d, SetSession(SessionOf(d.sessions, session).(sealed := true))), session)
  {
  }

  /** No head was replaced since the last sync. */
  ghost predicate Unreplaced(m: Moment) {
    forall p :: !HeadReplaced(m, p)
  }

  lemma QuietIsTransitive(a: Moment, b: Moment, c: Moment)
    requires Quiet(a, b) && Quiet(b, c)
    ensures Quiet(a, c)
  {
    QuietKeepsHeads(a, b, {});
    if b.ops <= c.ops {
      assert c.ops == b.ops + c.ops[|b.ops|..];
    }
    if a.ops <= b.ops <= c.ops {
      assert c.ops[|a.ops|..] == b.ops[|a.ops|..] + c.ops[|b.ops|..];
    }
  }

  lemma QuietLogOn(log: seq<Moment>, start: nat, n: nat, entry: Moment, mid: Moment)
    requires start <= n <= |log| && (forall k :: start <= k < n ==> Quiet(entry, log[k]))
    requires Quiet(entry, mid) && QuietFrom(log, n, mid)
    ensures QuietFrom(log, start, entry)
  {
    forall k | n <= k < |log| ensures Quiet(entry, log[k]) {
      QuietIsTransitive(entry, mid, log[k]);
    }
  }

  /** What the protocol sees after a power failure at one stage of an append. */
  lemma CrashedViews(entry: Moment, m: Moment, stream: Stream, bytes: Bytes, other: Stream, kept: set<nat>)
    requires Sturdy(entry) && Sturdy(m) && Stage(entry, m, stream, bytes) && other.prefix != stream.prefix
    ensures DiskOk(Left(m, kept))
    ensures Crashed(Left(entry, kept), entry.Now(), Left(m, kept), stream, bytes, other)
  {
    SurvivorsAreOk(m, kept);
    SurvivorsAreOk(entry, kept);
    NowIsOk(entry);
    StageCrash(entry, m, stream, bytes, kept);
    HeadsDecide(Left(entry, kept), entry.Now(), Left(m, kept), stream, bytes, other);
  }

  lemma HeadsDecide(failed: Disk, before: Disk, left: Disk, stream: Stream, bytes: Bytes, other: Stream)
    requires DiskOk(failed) && DiskOk(before) && DiskOk(left) && other.prefix != stream.prefix
    requires || SameHeads(left, failed)
             || SameHeads(left, before)
             || (StreamSnapshot(stream, bytes).Some? && Moved(before, left, stream, bytes))
    ensures Crashed(failed, before, left, stream, bytes, other)
  {
    if SameHeads(left, failed) {
      HeadsDecideViews(left, failed, stream);
      HeadsDecideViews(left, failed, other);
    } else if SameHeads(left, before) {
      HeadsDecideViews(left, before, stream);
      HeadsDecideViews(left, before, other);
    } else {
      MovedView(before, left, stream, bytes, other);
    }
  }

  /**
   The stream shows what a failure before the append could have left, or what it showed when the
   append began, or the new head; every other stream shows one of the first two.
   */
  ghost predicate Crashed(failed: Disk, before: Disk, left: Disk, stream: Stream, bytes: Bytes, other: Stream) {
    && (|| ViewOf(left, stream) == ViewOf(failed, stream)
        || ViewOf(left, stream) == ViewOf(before, stream)
        || (&& StreamSnapshot(stream, bytes).Some?
            && ViewOf(left, stream) == Appended(ViewOf(before, stream), Decode(bytes).value)))
    && (ViewOf(left, other) == ViewOf(failed, other) || ViewOf(left, other) == ViewOf(before, other))
  }

  class Store {
    const capacity: nat
    const size: Bytes -> nat
    var used: nat
    var snapshots: map<string, nat>
    var streams: map<string, StreamHead>
    var sessions: map<string, SessionHead>
    // The directory as it is, which part of it is durable, and every state since it was opened.
    var disk: Disk
    var moment: Moment
    var log: seq<Moment>

    ghost predicate Accounted()
      reads this
    {
      && snapshots.Keys == disk.blobs.Keys
      && (forall name :: name in snapshots ==> snapshots[name] == size(disk.blobs[name]))
      && used == Total(snapshots)
    }

    /** Memory mirrors the directory. */
    ghost predicate Mirrors()
      reads this
    {
      streams == disk.streams && sessions == disk.sessions && Accounted() && DiskOk(disk) && disk == moment.Now()
      && log != [] && log[|log| - 1] == moment
    }

    ghost predicate Valid()
      reads this
    {
      Mirrors() && Sturdy(moment)
    }

    /** Since then only blobs were touched, in every state the directory went through. */
    twostate predicate StaysQuiet()
      reads this
    {
      old(log) <= log && QuietFrom(log, |old(log)|, old(moment)) && Quiet(old(moment), moment)
    }

    /** Every state the directory went through since then was sturdy. */
    twostate predicate StaysSturdy()
      reads this
    {
      old(log) <= log && SturdyFrom(log, |old(log)|)
    }

    /** Since then the directory only went through the stages of this append. */
    twostate predicate Appends(stream: Stream, bytes: Bytes)
      reads this
    {
      old(log) <= log && StagesFrom(log, |old(log)|, old(moment), stream, bytes)
    }

    // ---- Directory operations; unless `reliable`, any of them may fail without effect ----

    method Perform(op: DiskOp, reliable: bool) returns (ok: bool)
      requires disk == moment.Now()
      modifies this`disk, this`moment, this`log
      ensures moment == if ok then old(moment).Then(op) else old(moment)
      ensures log == if ok then old(log) + [moment] else old(log)
      ensures disk == moment.Now() == if ok then Do(old(disk), op) else old(disk)
      ensures reliable ==> ok
    {
      ok := *;
      ok := ok || reliable;
      if ok {
        DoOneMore(moment.base, moment.ops, op);
        disk := Do(disk, op);
        moment := moment.Then(op);
        log := log + [moment];
      }
    }

    method SyncDirectory(reliable: bool) returns (ok: bool)
      requires disk == moment.Now()
      modifies this`moment, this`log
      ensures moment == if ok then Moment(disk, []) else old(moment)
      ensures log == if ok then old(log) + [moment] else old(log)
      ensures disk == moment.Now()
      ensures reliable ==> ok
    {
      ok := *;
      ok := ok || reliable;
      if ok {
        moment := Moment(disk, []);
        log := log + [moment];
      }
    }

    /** A sync keeps everything the store promises. */
    method Flush(reliable: bool) returns (ok: bool)
      requires Valid()
      modifies this`moment, this`log
      ensures Valid() && StaysQuiet() && StaysSturdy()
      ensures moment == if ok then Moment(disk, []) else old(moment)
      ensures log == if ok then old(log) + [moment] else old(log)
      ensures reliable ==> ok
    {
      SyncedIsSturdy(disk);
      QuietSync(moment, moment);
      ok := SyncDirectory(reliable);
    }

    // ---- Immutable blobs ----

    method PersistBlob(name: string, bytes: Bytes, reliable: bool) returns (ok: bool)
      requires Valid() && name !in snapshots && used + size(bytes) < U64_LIMIT && used + size(bytes) <= capacity
      modifies this`used, this`snapshots, this`disk, this`moment, this`log
      ensures Valid() && StaysQuiet() && StaysSturdy()
      ensures disk == if ok then Do(old(disk), PutBlob(name, bytes)) else old(disk)
      ensures used == if ok then old(used) + size(bytes) else old(used)
      ensures reliable ==> ok
    {
      ghost var before := moment;
      NamedAreStored(moment);
      BlobKeepsSturdy(moment, PutBlob(name, bytes));
      QuietThen(moment, moment, PutBlob(name, bytes));
      ok := Perform(PutBlob(name, bytes), reliable);
      if ok {
        NowIsOk(moment);
        TotalWith(snapshots, name, size(bytes));
        used := used + size(bytes);
        snapshots := snapshots[name := size(bytes)];
      }
    }

    method Put(name: string, bytes: Bytes, reliable: bool) returns (ok: bool)
      requires Valid()
      modifies this`used, this`snapshots, this`disk, this`moment, this`log
      ensures Valid() && StaysQuiet() && StaysSturdy()
      ensures disk == old(disk) || (name !in old(disk).blobs && disk == Do(old(disk), PutBlob(name, bytes)))
      ensures ok ==> name in disk.blobs && disk.blobs[name] == bytes && moment == Moment(disk, [])
      ensures old(used) <= capacity ==> used <= capacity
      ensures reliable ==>
                (ok <==> if name in old(disk).blobs then old(disk).blobs[name] == bytes
                         else old(used) + size(bytes) < U64_LIMIT && old(used) + size(bytes) <= capacity)
    {
      if name in snapshots {
        if disk.blobs[name] != bytes {
          return false;
        }
        ok := Flush(reliable);
        return;
      }
      if used + size(bytes) >= U64_LIMIT || used + size(bytes) > capacity {
        return false;
      }
      ghost var entry := moment;
      ok := PersistBlob(name, bytes, reliable);
      if ok {
        ghost var stored := moment;
        ok := Flush(reliable);
        QuietSync(entry, stored);
      }
    }

    // ---- Heads ----

    /** Writes a head whose blob is durable, then syncs it. */
    method SaveHead(head: StreamHead, reliable: bool) returns (ok: bool)
      requires Valid() && moment.ops == [] && HeadReady(disk, head)
      modifies this`streams, this`disk, this`moment, this`log
      ensures Valid() && StaysSturdy()
      ensures disk == old(disk) || disk == Do(old(disk), SetHead(head))
      ensures ok ==> disk == Do(old(disk), SetHead(head)) && moment == Moment(disk, [])
      ensures forall k :: |old(log)| <= k < |log| ==>
                log[k] == Moment(old(disk), [SetHead(head)]) || log[k] == Moment(Do(old(disk), SetHead(head)), [])
      ensures reliable ==> ok
    {
      ok := PersistHead(head, reliable);
      if ok {
        ok := Flush(reliable);
      }
    }

    method PersistHead(head: StreamHead, reliable: bool) returns (ok: bool)
      requires Valid() && moment.ops == [] && HeadReady(disk, head)
      modifies this`streams, this`disk, this`moment, this`log
      ensures Valid()
      ensures disk == if ok then Do(old(disk), SetHead(head)) else old(disk)
      ensures moment == if ok then Moment(old(disk), [SetHead(head)]) else old(moment)
      ensures log == if ok then old(log) + [moment] else old(log)
      ensures reliable ==> ok
    {
      HeadKeepsSturdy(moment, head);
      assert [] + [SetHead(head)] == [SetHead(head)];
      ok := Perform(SetHead(head), reliable);
      if ok {
        NowIsOk(moment);
        streams := streams[head.stream.prefix := head];
      }
    }

    /** Removes one obsolete blob and its share of `used`. */
    method Drop(prefix: string, name: string, reliable: bool) returns (ok: bool)
      requires Mirrors() && name in Obsolete(disk, prefix)
      modifies this`used, this`snapshots, this`disk, this`moment, this`log
      ensures Mirrors() && used <= old(used)
      ensures disk == if ok then Do(old(disk), DropBlob(name)) else old(disk)
      ensures moment == if ok then old(moment).Then(DropBlob(name)) else old(moment)
      ensures log == if ok then old(log) + [moment] else old(log)
      ensures reliable ==> ok
    {
      ObsoleteRemovalKeepsDisk(disk, prefix, name);
      ok := Perform(DropBlob(name), reliable);
      if ok {
        TotalWithout(snapshots, name);
        used := used - snapshots[name];
        snapshots := snapshots - {name};
      }
    }

    /**
     Removes every blob of the stream but the one its head names. Unless the head was replaced since
     the last sync, the directory stays sturdy throughout.
     */
    method PruneStream(prefix: string, reliable: bool) returns (ok: bool)
      requires Valid() && prefix in streams
      modifies this`used, this`snapshots, this`disk, this`moment, this`log
      ensures Mirrors() && Trimmed(old(disk), disk, prefix) && StaysQuiet() && used <= old(used)
      ensures ok || !HeadReplaced(old(moment), prefix) ==> Valid()
      ensures !HeadReplaced(old(moment), prefix) ==> StaysSturdy()
      ensures ok ==> OnlyHead(disk, prefix)
      ensures ok ==> (moment == old(moment) && disk == old(disk)) || moment == Moment(disk, [])
      ensures reliable ==> ok
    {
      var obsolete := Obsolete(disk, prefix);
      NothingObsolete(disk, prefix);
      if obsolete == {} {
        return true;
      }
      ok := DropAll(prefix, obsolete, reliable);
      if ok {
        ok := SyncQuietly(old(moment), |old(log)|, reliable);
      }
    }

    /** A sync after quiet operations; whatever was pending, the directory is sturdy then. */
    method SyncQuietly(ghost entry: Moment, ghost start: nat, reliable: bool) returns (ok: bool)
      requires Mirrors() && Quiet(entry, moment) && QuietFrom(log, start, entry)
      modifies this`moment, this`log
      ensures Mirrors() && old(log) <= log && Quiet(entry, moment) && QuietFrom(log, start, entry)
      ensures moment == if ok then Moment(disk, []) else old(moment)
      ensures ok ==> Sturdy(moment)
      ensures old(SturdyFrom(log, start)) ==> SturdyFrom(log, start)
      ensures reliable ==> ok
    {
      SyncedIsSturdy(disk);
      QuietSync(entry, moment);
      ok := SyncDirectory(reliable);
    }

    /** Since the entry only blobs were touched; unless the head was replaced, no state was at risk. */
    ghost predicate Pruning(prefix: string, entry: Moment, start: nat)
      reads this
    {
      && Quiet(entry, moment) && SamePending(entry, moment) && QuietFrom(log, start, entry)
      && (!HeadReplaced(entry, prefix) ==> Sturdy(moment) && SturdyFrom(log, start))
    }

    method DropNext(
        prefix: string, name: string, ghost first: Disk, ghost entry: Moment, ghost start: nat, reliable: bool)
        returns (ok: bool)
      requires Mirrors() && name in Obsolete(disk, prefix) && prefix in disk.streams && Trimmed(first, disk, prefix)
      requires Pruning(prefix, entry, start)
      modifies this`used, this`snapshots, this`disk, this`moment, this`log
      ensures Mirrors() && used <= old(used) && old(log) <= log && Pruning(prefix, entry, start)
      ensures Trimmed(first, disk, prefix)
      ensures Obsolete(disk, prefix) == if ok then Obsolete(old(disk), prefix) - {name} else Obsolete(old(disk), prefix)
      ensures reliable ==> ok
    {
      TrimsFurther(first, disk, prefix, name);
      DropStaysQuiet(log, start, entry, moment, prefix, name);
      ok := Drop(prefix, name, reliable);
    }

    method DropAll(prefix: string, names: set<string>, reliable: bool) returns (ok: bool)
      requires Valid() && prefix in streams && names == Obsolete(disk, prefix)
      modifies this`used, this`snapshots, this`disk, this`moment, this`log
      ensures Mirrors() && Trimmed(old(disk), disk, prefix) && StaysQuiet() && used <= old(used)
      ensures !HeadReplaced(old(moment), prefix) ==> Sturdy(moment) && StaysSturdy()
      ensures ok ==> OnlyHead(disk, prefix)
      ensures reliable ==> ok
    {
      var obsolete := names;
      while obsolete != {}
        invariant Mirrors() && Trimmed(old(disk), disk, prefix) && used <= old(used) && old(log) <= log
        invariant Pruning(prefix, old(moment), |old(log)|)
        invariant obsolete == Obsolete(disk, prefix)
        decreases |obsolete|
      {
        var name :| name in obsolete;
        ok := DropNext(prefix, name, old(disk), old(moment), |old(log)|, reliable);
        if !ok {
          return;
        }
        obsolete := obsolete - {name};
      }
      NothingObsolete(disk, prefix);
      ok := true;
    }

    // ---- Appending ----

    /** A higher version: the blob is durable before the head names it, older blobs go last. */
    method Advance(stream: Stream, bytes: Bytes, reliable: bool) returns (ok: bool)
      requires Valid() && Distinct(disk, stream)
      requires StreamSnapshot(stream, bytes).Some? && HeadBelow(disk, stream, Decode(bytes).value.version)
      modifies this`used, this`snapshots, this`streams, this`disk, this`moment, this`log
      ensures Valid() && StaysSturdy() && Appends(stream, bytes)
      ensures SameHeads(disk, old(disk)) || Moved(old(disk), disk, stream, bytes)
      ensures ok ==> Moved(old(disk), disk, stream, bytes) && moment == Moment(disk, [])
      ensures ok ==> OnlyHead(disk, stream.prefix)
      ensures old(used) <= capacity ==> used <= capacity
      ensures reliable ==> (ok <==> Fits(old(disk), old(used), capacity, size, stream, bytes))
    {
      var ref := StreamSnapshot(stream, bytes).value;
      ok := Put(ref.name, bytes, reliable);
      QuietIsStage(log, |old(log)|, old(moment), stream, bytes);
      if ok {
        ok := MoveHead(stream, bytes, old(moment), |old(log)|, reliable);
      }
    }

    /** The second half of an append, once the blob is durable. */
    method MoveHead(stream: Stream, bytes: Bytes, ghost entry: Moment, ghost start: nat, reliable: bool)
        returns (ok: bool)
      requires Valid() && moment.ops == [] && StreamSnapshot(stream, bytes).Some?
      requires HeadReady(disk, StreamHead(stream, StreamSnapshot(stream, bytes))) && SameHeads(disk, entry.Now())
      requires StagesFrom(log, start, entry, stream, bytes) && SturdyFrom(log, start)
      modifies this`used, this`snapshots, this`streams, this`disk, this`moment, this`log
      ensures Valid() && old(log) <= log && used <= old(used)
      ensures StagesFrom(log, start, entry, stream, bytes) && SturdyFrom(log, start)
      ensures SameHeads(disk, old(disk)) || Moved(old(disk), disk, stream, bytes)
      ensures ok ==> Moved(old(disk), disk, stream, bytes) && moment == Moment(disk, [])
      ensures ok ==> OnlyHead(disk, stream.prefix)
      ensures reliable ==> ok
    {
      ghost var (stored, n) := (disk, |log|);
      ok := SaveHead(StreamHead(stream, StreamSnapshot(stream, bytes)), reliable);
      SavingIsStage(log, start, n, entry, stored, stream, bytes);
      if ok {
        ghost var (saved, after) := (moment, |log|);
        ok := PruneStream(stream.prefix, reliable);
        PruningIsStage(log, start, after, entry, saved, stream, bytes);
      }
    }

    /**
     Takes one snapshot into its stream. Accepted exactly when the protocol's view allows it and
     there is room; on success the new head is durable and the only blob of its stream. Whatever
     happens, the directory only goes through the stages of this append, and stays sturdy.
     */
    method Append(stream: Stream, bytes: Bytes, reliable: bool) returns (ok: bool)
      requires Valid() && (forall p :: p in disk.streams && p != stream.prefix ==> Separate(p, stream.prefix))
      modifies this`used, this`snapshots, this`streams, this`disk, this`moment, this`log
      ensures Valid() && StaysSturdy() && Appends(stream, bytes)
      ensures SameHeads(disk, old(disk)) ||
              (Accepts(old(disk), stream, bytes) && Moved(old(disk), disk, stream, bytes))
      ensures ok ==> Accepts(old(disk), stream, bytes) && Moved(old(disk), disk, stream, bytes)
      ensures ok ==>
                && var s := Decode(bytes).value;
                && stream.prefix in disk.streams
                && disk.streams[stream.prefix] ==
                   StreamHead(stream, Some(SnapshotRef(ObjectName(stream, s.version), s.version, s.requestId, Sha256(bytes))))
      ensures ok ==> moment == Moment(disk, []) && OnlyHead(disk, stream.prefix)
      ensures old(used) <= capacity ==> used <= capacity
      ensures reliable ==>
                (ok <==> Accepts(old(disk), stream, bytes) &&
                         Fits(old(disk), old(used), capacity, size, stream, bytes))
    {
      if stream.prefix in streams && streams[stream.prefix].stream != stream {
        return false;
      }
      var session := SessionOf(sessions, stream.session);
      if !session.initialized || session.sealed {
        return false;
      }
      var snapshot := StreamSnapshot(stream, bytes);
      if snapshot.None? {
        return false;
      }
      HeadIsView(disk, stream);
      var latest := if stream.prefix in streams then streams[stream.prefix].latest else None;
      if latest.Some? && snapshot.value.version <= latest.value.version {
        if snapshot != latest {
          return false;
        }
        ok := Repeat(stream.prefix, reliable);
        QuietIsStage(log, |old(log)|, old(moment), stream, bytes);
        assert old(disk).streams == HeadSet(old(disk), stream, bytes);
        return;
      }
      ok := Advance(stream, bytes, reliable);
    }

    /** The head again: what is stored is synced first, then older blobs go. */
    method Repeat(prefix: string, reliable: bool) returns (ok: bool)
      requires Valid() && prefix in streams
      modifies this`used, this`snapshots, this`disk, this`moment, this`log
      ensures Valid() && StaysSturdy() && StaysQuiet() && SameHeads(disk, old(disk)) && used <= old(used)
      ensures ok ==> moment == Moment(disk, []) && OnlyHead(disk, prefix)
      ensures reliable ==> ok
    {
      ok := Flush(reliable);
      if ok {
        ghost var (flushed, n) := (moment, |log|);
        ok := PruneStream(prefix, reliable);
        QuietAfterSync(log, |old(log)|, n, old(moment), flushed);
        QuietAfterSyncOne(old(moment), flushed, moment);
      }
    }

    // ---- Sessions ----

    method SaveSession(head: SessionHead, reliable: bool) returns (ok: bool)
      requires Valid() && Marks(SessionOf(disk.sessions, head.session), head)
      modifies this`sessions, this`disk, this`moment, this`log
      ensures Valid() && StaysSturdy()
      ensures disk == old(disk) || disk == Do(old(disk), SetSession(head))
      ensures ok ==> disk == Do(old(disk), SetSession(head)) && moment == Moment(disk, [])
      ensures old(log) <= log && MarkedFrom(log, |old(log)|, old(moment), old(disk), head)
      ensures reliable ==> ok
    {
      ok := RenameSession(head, reliable);
      if ok {
        ok := SyncMark(head, old(moment), old(disk), |old(log)|, reliable);
      }
    }

    method SyncMark(head: SessionHead, ghost entry: Moment, ghost before: Disk, ghost start: nat, reliable: bool)
        returns (ok: bool)
      requires Valid() && disk == Do(before, SetSession(head))
      requires MarkedFrom(log, start, entry, before, head) && SturdyFrom(log, start)
      modifies this`moment, this`log
      ensures Valid() && old(log) <= log && (ok ==> moment == Moment(disk, []))
      ensures MarkedFrom(log, start, entry, before, head) && SturdyFrom(log, start)
      ensures reliable ==> ok
    {
      ghost var renamed := log;
      ok := Flush(reliable);
      MarkedOn(renamed, log, start, entry, before, head);
    }

    method RenameSession(head: SessionHead, reliable: bool) returns (ok: bool)
      requires Valid() && Marks(SessionOf(disk.sessions, head.session), head)
      modifies this`sessions, this`disk, this`moment, this`log
      ensures Valid()
      ensures disk == if ok then Do(old(disk), SetSession(head)) else old(disk)
      ensures old(log) <= log && (!ok ==> moment == old(moment))
      ensures MarkedFrom(log, |old(log)|, old(moment), old(disk), head) && StaysSturdy()
      ensures reliable ==> ok
    {
      SessionKeepsSturdy(moment, head);
      ok := Perform(SetSession(head), reliable);
      if ok {
        NowIsOk(moment);
        sessions := sessions[head.session := head];
      }
    }

    method InitializeSession(session: string, reliable: bool) returns (ok: bool)
      requires Valid()
      modifies this`sessions, this`disk, this`moment, this`log
      ensures Valid() && StaysSturdy() && disk.streams == old(disk).streams && disk.blobs == old(disk).blobs
      ensures ok ==> moment == Moment(disk, [])
      ensures ok ==> !SessionOf(old(disk).sessions, session).sealed
      ensures ok ==> forall stream: Stream ::
                  ViewOf(disk, stream) == if stream.session == session
                                          then ViewOf(old(disk), stream).(initialized := true)
                                          else ViewOf(old(disk), stream)
      ensures reliable ==> (ok <==> !SessionOf(old(disk).sessions, session).sealed)
    {
      var head := SessionOf(sessions, session);
      if head.sealed {
        return false;
      }
      ok := SaveSession(head.(initialized := true), reliable);
    }

    /** Marks the session and reports the heads of its streams by prefix; no append is accepted afterwards. */
    method SealSession(session: string, reliable: bool) returns (ok: bool, heads: seq<StreamHead>)
      requires Valid()
      modifies this`sessions, this`disk, this`moment, this`log
      ensures Valid() && StaysSturdy() && disk.streams == old(disk).streams && disk.blobs == old(disk).blobs
      ensures ok ==> moment == Moment(disk, [])
      ensures ok ==> Seals(old(disk), disk, session)
      ensures ok ==> forall head :: head in heads <==>
                head.stream.prefix in disk.streams && head == disk.streams[head.stream.prefix]
                && head.stream.session == session
      ensures InOrder(heads)
      ensures reliable ==> ok
    {
      heads := [];
      SavingSeals(disk, session);
      var head := SessionOf(sessions, session).(sealed := true);
      ok := SaveSession(head, reliable);
      if ok {
        var owned := set prefix | prefix in streams && streams[prefix].stream.session == session :: streams[prefix];
        SealReports(disk, session, owned);
        heads := SortByPrefix(owned);
      }
    }

    // ---- Queries ----

    /** The stream's head as the protocol sees it, or an error for an unknown session or another stream. */
    method HeadOf(stream: Stream) returns (r: Option<StreamHead>)
      requires Valid()
      ensures r.Some? <==>
              && ViewOf(disk, stream).initialized
              && (stream.prefix in disk.streams ==> disk.streams[stream.prefix].stream == stream)
      ensures r.Some? ==> r.value == StreamHead(stream, RefOf(stream, ViewOf(disk, stream).head))
    {
      if !SessionOf(sessions, stream.session).initialized {
        return None;
      }
      if stream.prefix in streams {
        if streams[stream.prefix].stream != stream {
          return None;
        }
        HeadIsView(disk, stream);
        return Some(streams[stream.prefix]);
      }
      return Some(StreamHead(stream, None));
    }

    /** The stored bytes of an object; those of a head always verify against it. */
    method Read(name: string) returns (r: Option<Bytes>)
      requires Valid()
      ensures r.Some? <==> name in disk.blobs
      ensures r.Some? ==> r.value == disk.blobs[name]
      ensures forall p :: p in disk.streams && disk.streams[p].latest.Some? && disk.streams[p].latest.value.name == name ==>
                r.Some? && Verifies(disk.streams[p].latest.value, r.value)
    {
      forall p | p in disk.streams && disk.streams[p].latest.Some? && disk.streams[p].latest.value.name == name
        ensures name in disk.blobs && Verifies(disk.streams[p].latest.value, disk.blobs[name])
      {
        assert HeadOk(disk, p, disk.streams[p]);
      }
      if name in snapshots {
        return Some(disk.blobs[name]);
      }
      return None;
    }

    // ---- Restart ----

    /** Opens a directory; after a power failure all that is left is durable. */
    constructor (capacity: nat, size: Bytes -> nat, m: Moment)
      ensures this.capacity == capacity && this.size == size
      ensures disk == m.Now() && moment == m && log == [m]
      ensures used == 0 && snapshots == map[]
    {
      this.capacity, this.size := capacity, size;
      used, snapshots, streams, sessions := 0, map[], map[], map[];
      disk, moment, log := m.Now(), m, [m];
    }

    /** Rebuilds memory from the directory, counting every blob; a bad file or a total past 64 bits fails. */
    method Scan(legible: bool) returns (ok: bool)
      requires disk == moment.Now() && DiskOk(disk) && log != [] && log[|log| - 1] == moment
      modifies this`used, this`snapshots, this`streams, this`sessions
      ensures ok ==> Mirrors()
      ensures ok <==> legible && Total(Sizes(disk.blobs, size)) < U64_LIMIT
    {
      if !legible {
        return false;
      }
      ok, used, snapshots := Count(Sizes(disk.blobs, size));
      streams, sessions := disk.streams, disk.sessions;
    }

    /**
     A restart: memory is rebuilt and every stream is pruned to its head. Even where it stops
     part-way no head changes, and unless a head was replaced since the last sync the directory is
     sturdy throughout.
     */
    method Restore(legible: bool, reliable: bool) returns (ok: bool)
      requires Sturdy(moment) && disk == moment.Now() && log != [] && log[|log| - 1] == moment
      modifies this`used, this`snapshots, this`streams, this`sessions, this`disk, this`moment, this`log
      ensures StaysQuiet() && disk == moment.Now() && DiskOk(disk) && SameHeads(disk, old(disk))
      ensures ok ==> Valid() && CleanBut(disk, {})
      ensures Unreplaced(old(moment)) ==> Sturdy(moment) && StaysSturdy()
      ensures reliable ==> (ok <==> legible && Total(Sizes(old(disk).blobs, size)) < U64_LIMIT)
    {
      NowIsOk(moment);
      ok := Scan(legible);
      if ok {
        ok := PruneAll(reliable);
      }
    }

    method PruneNext(
        prefix: string, ghost prefixes: set<string>, ghost entry: Moment, ghost start: nat, reliable: bool)
        returns (ok: bool)
      requires Valid() && prefix in streams && start <= |log| && CleanBut(disk, prefixes)
      requires Quiet(entry, moment) && QuietFrom(log, start, entry)
      requires Unreplaced(entry) ==> Unreplaced(moment) && SturdyFrom(log, start)
      modifies this`used, this`snapshots, this`disk, this`moment, this`log
      ensures Mirrors() && SameHeads(disk, old(disk)) && old(log) <= log
      ensures Quiet(entry, moment) && QuietFrom(log, start, entry)
      ensures ok ==> Valid() && CleanBut(disk, prefixes - {prefix})
      ensures Unreplaced(entry) ==> Sturdy(moment) && SturdyFrom(log, start) && (ok ==> Unreplaced(moment))
      ensures reliable ==> ok
    {
      ok := PruneStream(prefix, reliable);
      QuietLogOn(log, start, |old(log)|, entry, old(moment));
      QuietIsTransitive(entry, old(moment), moment);
      if ok {
        TrimmingKeepsClean(old(disk), disk, prefix, prefixes);
      }
    }

    method PruneAll(reliable: bool) returns (ok: bool)
      requires Valid()
      modifies this`used, this`snapshots, this`disk, this`moment, this`log
      ensures Mirrors() && StaysQuiet() && SameHeads(disk, old(disk))
      ensures ok ==> Valid() && CleanBut(disk, {})
      ensures Unreplaced(old(moment)) ==> Sturdy(moment) && StaysSturdy()
      ensures reliable ==> ok
    {
      var prefixes := streams.Keys;
      while prefixes != {}
        invariant Valid() && StaysQuiet() && SameHeads(disk, old(disk)) && prefixes <= streams.Keys
        invariant Unreplaced(old(moment)) ==> Unreplaced(moment) && StaysSturdy()
        invariant CleanBut(disk, prefixes)
        decreases |prefixes|
      {
        var prefix :| prefix in prefixes;
        ok := PruneNext(prefix, prefixes, old(moment), |old(log)|, reliable);
        if !ok {
          return;
        }
        prefixes := prefixes - {prefix};
      }
      ok := true;
    }
  }

  /**
   An append, a power failure at any moment of it that keeps any of the operations not yet synced,
   and a restart, which may itself stop part-way.
   */
  method AppendCrashReopen(
      store: Store, stream: Stream, bytes: Bytes, other: Stream, legible: bool, reliable: bool, pick: nat,
      kept: set<nat>)
      returns (reopened: Store, ok: bool)
    requires store.Valid() && other.prefix != stream.prefix
    requires forall p :: p in store.disk.streams && p != stream.prefix ==> Separate(p, stream.prefix)
    modifies store
    ensures fresh(reopened) && Sturdy(reopened.moment) && (ok ==> reopened.Valid())
    ensures DiskOk(Left(old(store.moment), kept)) && DiskOk(old(store.disk)) && DiskOk(reopened.disk)
    ensures Crashed(Left(old(store.moment), kept), old(store.disk), reopened.disk, stream, bytes, other)
  {
    var left := AppendThenFail(store, stream, bytes, other, reliable, pick, kept);
    reopened, ok := Reopen(store.capacity, store.size, left, legible, reliable);
    HeadsDecideViews(left, reopened.disk, stream);
    HeadsDecideViews(left, reopened.disk, other);
  }

  method AppendThenFail(
      store: Store, stream: Stream, bytes: Bytes, other: Stream, reliable: bool, pick: nat, kept: set<nat>)
      returns (left: Disk)
    requires store.Valid() && other.prefix != stream.prefix
    requires forall p :: p in store.disk.streams && p != stream.prefix ==> Separate(p, stream.prefix)
    modifies store
    ensures DiskOk(Left(old(store.moment), kept)) && DiskOk(old(store.disk)) && DiskOk(left)
    ensures Crashed(Left(old(store.moment), kept), old(store.disk), left, stream, bytes, other)
  {
    var n := |store.log| - 1;
    SurvivorsAreOk(store.moment, kept);
    var _ := store.Append(stream, bytes, reliable);
    var k := n + pick % (|store.log| - n);
    PickedStage(store.log, n, k, old(store.moment), stream, bytes);
    left := Left(store.log[k], kept);
    CrashedViews(old(store.moment), store.log[k], stream, bytes, other, kept);
  }

  /** Every state from the entry on is a sturdy stage of the append. */
  lemma PickedStage(log: seq<Moment>, n: nat, k: nat, entry: Moment, stream: Stream, bytes: Bytes)
    requires n <= k < |log| && log[n] == entry && Sturdy(entry)
    requires StagesFrom(log, n + 1, entry, stream, bytes) && SturdyFrom(log, n + 1)
    ensures Stage(entry, log[k], stream, bytes) && Sturdy(log[k])
  {
    assert Quiet(entry, entry);
  }

  method Reopen(capacity: nat, size: Bytes -> nat, left: Disk, legible: bool, reliable: bool)
      returns (store: Store, ok: bool)
    requires DiskOk(left)
    ensures fresh(store) && Sturdy(store.moment) && (ok ==> store.Valid())
    ensures DiskOk(store.disk) && SameHeads(store.disk, left)
  {
    store := new Store(capacity, size, Moment(left, []));
    SyncedIsSturdy(left);
    ok := store.Restore(legible, reliable);
  }
}
