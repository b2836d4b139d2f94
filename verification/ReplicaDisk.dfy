/** The directory of one replica store: what its files mean and what may change in it. */
module ReplicaDisk {
  import opened Names
  import opened Snapshots
  import opened ReplicaViews

  datatype StreamHead = StreamHead(stream: Stream, latest: Option<SnapshotRef>)

  datatype SessionHead = SessionHead(session: string, initialized: bool, sealed: bool)

  /**
   Blobs by object name, stream heads by prefix, session heads by name. File names are digests
   of these keys, and a file appears under its final name only complete and synced.
   */
  datatype Disk = Disk(
    blobs: map<string, Bytes>, streams: map<string, StreamHead>, sessions: map<string, SessionHead>)

  /** Neither name is a prefix of the other. */
  predicate Separate(p: string, q: string) {
    !(p <= q) && !(q <= p)
  }

  /** The blob a head names is there, with the content the head describes. */
  predicate HeadOk(d: Disk, prefix: string, head: StreamHead) {
    && head.stream.prefix == prefix
    && (head.latest.Some? ==>
          && head.latest.value.name in d.blobs
          && StreamSnapshot(head.stream, d.blobs[head.latest.value.name]) == head.latest)
  }

  ghost predicate DiskOk(d: Disk) {
    && (forall p :: p in d.streams ==> HeadOk(d, p, d.streams[p]))
    && (forall p, q :: p in d.streams && q in d.streams && p != q ==> Separate(p, q))
    && (forall s :: s in d.sessions ==> d.sessions[s].session == s)
  }

  function SessionOf(sessions: map<string, SessionHead>, session: string): SessionHead {
    if session in sessions then sessions[session] else SessionHead(session, false, false)
  }

  /** The replica view of one stream, as the protocol sees it. */
  function ViewOf(d: Disk, stream: Stream): View {
    var session := SessionOf(d.sessions, stream.session);
    View(session.initialized, session.sealed,
         if stream.prefix in d.streams && d.streams[stream.prefix].latest.Some?
            && d.streams[stream.prefix].latest.value.name in d.blobs
         then Decode(d.blobs[d.streams[stream.prefix].latest.value.name])
         else None)
  }

  // ---- One directory operation ----

  /** Files appear and vanish whole: a blob is created or removed, a head or session file is replaced. */
  datatype DiskOp =
    | PutBlob(name: string, bytes: Bytes) | DropBlob(name: string) | SetHead(head: StreamHead) | SetSession(session: SessionHead)

  function Do(d: Disk, op: DiskOp): Disk {
    match op
    case PutBlob(name, bytes) => d.(blobs := d.blobs[name := bytes])
    case DropBlob(name) => d.(blobs := d.blobs - {name})
    case SetHead(head) => d.(streams := d.streams[head.stream.prefix := head])
    case SetSession(session) => d.(sessions := d.sessions[session.session := session])
  }

  function DoAll(d: Disk, ops: seq<DiskOp>): Disk {
    if ops == [] then d else Do(DoAll(d, ops[..|ops| - 1]), ops[|ops| - 1])
  }

  lemma DoOneMore(d: Disk, ops: seq<DiskOp>, op: DiskOp)
    ensures DoAll(d, ops + [op]) == Do(DoAll(d, ops), op)
  {
    assert (ops + [op])[..|ops|] == ops;
  }

  /** A head may be written once its blob is there, for a prefix apart from all others. */
  predicate HeadReady(d: Disk, head: StreamHead) {
    && HeadOk(d, head.stream.prefix, head)
    && head.latest.Some?
    && (forall p :: p in d.streams && p != head.stream.prefix ==> Separate(p, head.stream.prefix))
    && (head.stream.prefix in d.streams ==>
          var held := d.streams[head.stream.prefix];
          && held.stream == head.stream
          && (held.latest.Some? ==> held.latest.value.version <= head.latest.value.version))
  }

  /** A session head only gains marks. */
  predicate Marks(held: SessionHead, head: SessionHead) {
    (held.initialized ==> head.initialized) && (held.sealed ==> head.sealed)
  }

  // ---- Operations that are not synced yet ----

  /**
   A directory between two syncs: what is durable, and what was done since. A power failure keeps
   any of these operations and loses the others.
   */
  datatype Moment = Moment(base: Disk, ops: seq<DiskOp>)
  {
    function Now(): Disk {
      DoAll(base, ops)
    }

    function Then(op: DiskOp): Moment {
      Moment(base, ops + [op])
    }
  }

  function Survivors(base: Disk, ops: seq<DiskOp>, kept: set<nat>): Disk {
    if ops == [] then base
    else
      var n := |ops| - 1;
      var d := Survivors(base, ops[..n], kept);
      if n in kept then Do(d, ops[n]) else d
  }

  function Left(m: Moment, kept: set<nat>): Disk {
    Survivors(m.base, m.ops, kept)
  }

  predicate OnBlob(op: DiskOp) {
    op.PutBlob? || op.DropBlob?
  }

  /** The head that was written since the last sync. */
  function PendingHead(ops: seq<DiskOp>): Option<StreamHead> {
    if ops != [] && ops[0].SetHead? then Some(ops[0].head) else None
  }

  /** The blobs that a durable or a pending head names. */
  function Named(m: Moment): set<string> {
    (set p | p in m.base.streams && m.base.streams[p].latest.Some? :: m.base.streams[p].latest.value.name)
    + (if PendingHead(m.ops).Some? && PendingHead(m.ops).value.latest.Some?
       then {PendingHead(m.ops).value.latest.value.name} else {})
  }

  predicate Spares(ops: seq<DiskOp>, names: set<string>) {
    forall i :: 0 <= i < |ops| && OnBlob(ops[i]) ==> ops[i].name !in names
  }

  predicate HeadFirst(ops: seq<DiskOp>) {
    forall i :: 0 <= i < |ops| && ops[i].SetHead? ==> i == 0
  }

  predicate SessionsRise(sessions: map<string, SessionHead>, ops: seq<DiskOp>) {
    ops == [] ||
    var n := |ops| - 1;
    && SessionsRise(sessions, ops[..n])
    && (ops[n].SetSession? ==>
          Marks(SessionOf(SessionsAfter(sessions, ops[..n]), ops[n].session.session), ops[n].session))
  }

  function SessionsAfter(sessions: map<string, SessionHead>, ops: seq<DiskOp>): map<string, SessionHead> {
    if ops == [] then sessions
    else
      var (n, before) := (|ops| - 1, SessionsAfter(sessions, ops[..|ops| - 1]));
      if ops[n].SetSession? then before[ops[n].session.session := ops[n].session] else before
  }

  /**
   Whatever survives a power failure now is a good directory: a head is pending only if its blob is
   durable, and no pending operation touches a blob that a durable or pending head names.
   */
  ghost predicate Sturdy(m: Moment) {
    && DiskOk(m.base)
    && HeadFirst(m.ops)
    && (PendingHead(m.ops).Some? ==> HeadReady(m.base, PendingHead(m.ops).value))
    && Spares(m.ops, Named(m))
    && SessionsRise(m.base.sessions, m.ops)
  }

  lemma {:induction false} SurvivorStreams(base: Disk, ops: seq<DiskOp>, kept: set<nat>)
    requires HeadFirst(ops)
    ensures Survivors(base, ops, kept).streams ==
            if PendingHead(ops).Some? && 0 in kept
            then base.streams[PendingHead(ops).value.stream.prefix := PendingHead(ops).value]
            else base.streams
  {
    if ops != [] {
      SurvivorStreams(base, ops[..|ops| - 1], kept);
    }
  }

  lemma {:induction false} SurvivorBlobs(base: Disk, ops: seq<DiskOp>, kept: set<nat>, names: set<string>)
    requires Spares(ops, names)
    ensures forall name :: name in names && name in base.blobs ==>
              name in Survivors(base, ops, kept).blobs && Survivors(base, ops, kept).blobs[name] == base.blobs[name]
  {
    if ops != [] {
      SurvivorBlobs(base, ops[..|ops| - 1], kept, names);
    }
  }

  lemma {:induction false} SurvivorSessions(base: Disk, ops: seq<DiskOp>, kept: set<nat>, s: string)
    requires SessionsRise(base.sessions, ops)
    ensures var held := SessionOf(Survivors(base, ops, kept).sessions, s);
            && Marks(SessionOf(base.sessions, s), held)
            && Marks(held, SessionOf(SessionsAfter(base.sessions, ops), s))
    ensures (forall key :: key in base.sessions ==> base.sessions[key].session == key) ==>
              forall key :: key in Survivors(base, ops, kept).sessions ==>
                Survivors(base, ops, kept).sessions[key].session == key
  {
    if ops != [] {
      SurvivorSessions(base, ops[..|ops| - 1], kept, s);
    }
  }

  lemma {:induction false} AllSurvive(base: Disk, ops: seq<DiskOp>, kept: set<nat>)
    requires forall i :: 0 <= i < |ops| ==> i in kept
    ensures Survivors(base, ops, kept) == DoAll(base, ops)
    ensures DoAll(base, ops).sessions == SessionsAfter(base.sessions, ops)
  {
    if ops != [] {
      AllSurvive(base, ops[..|ops| - 1], kept);
    }
  }

  /** Any part of a sturdy directory that survives is good. */
  lemma SurvivorsAreOk(m: Moment, kept: set<nat>)
    requires Sturdy(m)
    ensures DiskOk(Left(m, kept))
  {
    var d := Left(m, kept);
    SurvivorStreams(m.base, m.ops, kept);
    SurvivorBlobs(m.base, m.ops, kept, Named(m));
    SurvivorSessions(m.base, m.ops, kept, "");
    forall p | p in d.streams ensures HeadOk(d, p, d.streams[p]) {
      if p in m.base.streams {
        assert HeadOk(m.base, p, m.base.streams[p]);
        if m.base.streams[p].latest.Some? {
          assert m.base.streams[p].latest.value.name in Named(m);
        }
      }
    }
  }

  function Everything(n: nat): (all: set<nat>)
    ensures forall i :: 0 <= i < n ==> i in all
  {
    if n == 0 then {} else Everything(n - 1) + {n - 1}
  }

  lemma NowIsOk(m: Moment)
    requires Sturdy(m)
    ensures DiskOk(m.Now())
  {
    AllSurvive(m.base, m.ops, Everything(|m.ops|));
    SurvivorsAreOk(m, Everything(|m.ops|));
  }

  // ---- What each operation keeps ----

  lemma NamedAreStored(m: Moment)
    requires Sturdy(m)
    ensures forall name :: name in Named(m) ==> name in m.base.blobs && name in m.Now().blobs
  {
    AllSurvive(m.base, m.ops, Everything(|m.ops|));
    SurvivorBlobs(m.base, m.ops, Everything(|m.ops|), Named(m));
    forall p | p in m.base.streams ensures HeadOk(m.base, p, m.base.streams[p]) {
    }
  }

  /** Blob operations are harmless exactly on blobs that no durable or pending head names. */
  lemma BlobKeepsSturdy(m: Moment, op: DiskOp)
    requires Sturdy(m) && OnBlob(op)
    ensures Sturdy(m.Then(op)) <==> op.name !in Named(m)
  {
    var next := m.Then(op);
    assert next.ops[..|m.ops|] == m.ops && next.ops[|m.ops|] == op;
    assert PendingHead(next.ops) == PendingHead(m.ops);
    assert Named(next) == Named(m);
    assert forall i :: 0 <= i < |m.ops| ==> next.ops[i] == m.ops[i];
  }

  lemma HeadKeepsSturdy(m: Moment, head: StreamHead)
    requires Sturdy(m) && m.ops == [] && HeadReady(m.base, head)
    ensures Sturdy(m.Then(SetHead(head)))
  {
    assert m.Then(SetHead(head)).ops[..0] == [];
  }

  lemma SessionKeepsSturdy(m: Moment, session: SessionHead)
    requires Sturdy(m) && Marks(SessionOf(m.Now().sessions, session.session), session)
    ensures Sturdy(m.Then(SetSession(session)))
  {
    var next := m.Then(SetSession(session));
    AllSurvive(m.base, m.ops, Everything(|m.ops|));
    assert next.ops[..|m.ops|] == m.ops && next.ops[|m.ops|] == SetSession(session);
    assert PendingHead(next.ops) == PendingHead(m.ops);
    assert Named(next) == Named(m);
    assert forall i :: 0 <= i < |m.ops| ==> next.ops[i] == m.ops[i];
  }

  lemma SyncedIsSturdy(d: Disk)
    requires DiskOk(d)
    ensures Sturdy(Moment(d, []))
  {
  }

  /** And they are harmless only there: removing a named blob can leave a head without its blob. */
  lemma DroppingNamedBreaks(m: Moment, name: string) returns (kept: set<nat>)
    requires Sturdy(m) && name in Named(m)
    ensures !DiskOk(Left(m.Then(DropBlob(name)), kept))
  {
    var (next, n) := (m.Then(DropBlob(name)), |m.ops|);
    assert next.ops[..n] == m.ops && next.ops[n] == DropBlob(name);
    if p :| p in m.base.streams && m.base.streams[p].latest.Some? && m.base.streams[p].latest.value.name == name {
      kept := {n};
      SurvivorStreams(m.base, m.ops, kept);
      var left := Do(Survivors(m.base, m.ops, kept), DropBlob(name));
      assert Left(next, kept) == left && p in left.streams && !HeadOk(left, p, left.streams[p]);
    } else {
      kept := {0, n};
      SurvivorStreams(m.base, m.ops, kept);
      var left := Do(Survivors(m.base, m.ops, kept), DropBlob(name));
      var p := PendingHead(m.ops).value.stream.prefix;
      assert Left(next, kept) == left && p in left.streams && !HeadOk(left, p, left.streams[p]);
    }
  }

  /** What the protocol sees follows from the heads and sessions alone. */
  lemma HeadsDecideViews(d: Disk, e: Disk, stream: Stream)
    requires DiskOk(d) && DiskOk(e) && d.streams == e.streams && d.sessions == e.sessions
    ensures ViewOf(d, stream) == ViewOf(e, stream)
  {
  }

  /** No head moves down. */
  ghost predicate Rises(d: Disk, e: Disk) {
    forall p :: p in d.streams && d.streams[p].latest.Some? ==>
      && p in e.streams && e.streams[p].latest.Some?
      && d.streams[p].latest.value.version <= e.streams[p].latest.value.version
  }

  lemma HeadsRise(d: Disk, e: Disk, stream: Stream)
    requires DiskOk(d) && DiskOk(e) && Rises(d, e)
    ensures ViewOf(d, stream).head.Some? ==> HeadAtLeast(ViewOf(e, stream), ViewOf(d, stream).head.value.version)
  {
    var p := stream.prefix;
    if p in d.streams && d.streams[p].latest.Some? {
      assert HeadOk(d, p, d.streams[p]) && HeadOk(e, p, e.streams[p]);
    }
  }

  lemma HeadsBetween(m: Moment, kept: set<nat>)
    requires Sturdy(m)
    ensures Rises(m.base, Left(m, kept)) && Rises(Left(m, kept), m.Now())
  {
    var all := Everything(|m.ops|);
    AllSurvive(m.base, m.ops, all);
    SurvivorStreams(m.base, m.ops, kept);
    SurvivorStreams(m.base, m.ops, all);
  }

  /** Whatever a power failure leaves lies between what was durable and what was last seen. */
  lemma CrashLeavesBetween(m: Moment, kept: set<nat>, stream: Stream)
    requires Sturdy(m)
    ensures Extends(ViewOf(m.base, stream), ViewOf(Left(m, kept), stream))
    ensures Extends(ViewOf(Left(m, kept), stream), ViewOf(m.Now(), stream))
  {
    var (d, now, all) := (Left(m, kept), m.Now(), Everything(|m.ops|));
    AllSurvive(m.base, m.ops, all);
    SurvivorsAreOk(m, kept);
    SurvivorsAreOk(m, all);
    HeadsBetween(m, kept);
    SurvivorSessions(m.base, m.ops, kept, stream.session);
    HeadsRise(m.base, d, stream);
    HeadsRise(d, now, stream);
  }

  // ---- Heads while blobs come and go ----

  predicate SameHeads(d: Disk, e: Disk) {
    d.streams == e.streams && d.sessions == e.sessions
  }

  predicate BlobOnly(ops: seq<DiskOp>) {
    forall i :: 0 <= i < |ops| ==> OnBlob(ops[i])
  }

  /**
   Since `entry` only blobs were touched: nothing was synced and only blob operations were added, or
   the heads of then are durable and only blob operations are pending.
   */
  predicate Quiet(entry: Moment, m: Moment) {
    || (m.base == entry.base && entry.ops <= m.ops && BlobOnly(m.ops[|entry.ops|..]))
    || (SameHeads(m.base, entry.Now()) && BlobOnly(m.ops))
  }

  lemma {:induction false} BlobsKeepHeads(base: Disk, ops: seq<DiskOp>, n: nat, kept: set<nat>)
    requires n <= |ops| && BlobOnly(ops[n..])
    ensures SameHeads(Survivors(base, ops, kept), Survivors(base, ops[..n], kept))
    ensures SameHeads(DoAll(base, ops), DoAll(base, ops[..n]))
    decreases |ops|
  {
    if n < |ops| {
      var m := |ops| - 1;
      assert ops[n..][m - n] == ops[m];
      assert ops[..m][n..] == ops[n..][..m - n];
      assert ops[..m][..n] == ops[..n];
      BlobsKeepHeads(base, ops[..m], n, kept);
    } else {
      assert ops[..n] == ops;
    }
  }

  /** Through quiet moments the heads in use stay, and a power failure leaves no others than before. */
  lemma QuietKeepsHeads(entry: Moment, m: Moment, kept: set<nat>)
    requires Quiet(entry, m)
    ensures SameHeads(m.Now(), entry.Now())
    ensures SameHeads(Left(m, kept), Left(entry, kept)) || SameHeads(Left(m, kept), entry.Now())
  {
    if m.base == entry.base && entry.ops <= m.ops && BlobOnly(m.ops[|entry.ops|..]) {
      BlobsKeepHeads(m.base, m.ops, |entry.ops|, kept);
      assert m.ops[..|entry.ops|] == entry.ops;
    } else {
      assert m.ops[0..] == m.ops && m.ops[..0] == [];
      BlobsKeepHeads(m.base, m.ops, 0, kept);
    }
  }

  lemma QuietThen(entry: Moment, m: Moment, op: DiskOp)
    requires Quiet(entry, m) && OnBlob(op)
    ensures Quiet(entry, m.Then(op))
  {
    var next := m.Then(op);
    if m.base == entry.base && entry.ops <= m.ops && BlobOnly(m.ops[|entry.ops|..]) {
      assert next.ops[|entry.ops|..] == m.ops[|entry.ops|..] + [op];
    }
  }

  lemma QuietSync(entry: Moment, m: Moment)
    requires Quiet(entry, m)
    ensures Quiet(entry, Moment(m.Now(), []))
  {
    QuietKeepsHeads(entry, m, {});
  }
}
