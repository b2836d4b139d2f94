/**
 The durable state protocol of one activation (one owner epoch): a serial writer, a write-once
 bucket, replicas with volatile and synced state, the session record that names the durable
 replica set, replacement of that set, sealing, and any number of concurrent recoveries.

 Every event is atomic. Uploads and appends of anything ever issued may land at any later time
 and any number of times, so lost replies, ambiguous errors and late detached writes need no
 events of their own.
 */
module Activation {
  import opened Names
  import opened Snapshots
  import opened Witnesses
  import opened ReplicaViews

  type Id = nat

  datatype RecoveryState = Absent | Open | Recovering | Sealed

  /** The session record in the bucket; `generation` is 0 exactly while it is absent. */
  datatype Session = Session(members: set<Id>, state: RecoveryState, generation: nat)

  /** One replica: what its process holds, what survives a crash, and which appends it confirmed. */
  datatype Replica = Replica(memory: View, disk: View, confirmed: set<nat>)

  const Fresh := Replica(Blank, Blank, {})

  /** Where the writer sends replica writes. Only `Active` uses replicas; the rest is bucket only. */
  datatype Mode =
    | Initial
    | Active(members: set<Id>)
    | Repairing(targets: set<Id>, seeded: nat)
    | Recorded(targets: set<Id>)
    | Suspended

  /** `last` is issued, `committed` is acknowledged by the bucket or all replicas in use, `answered` to a client. */
  datatype Writer = Writer(
    issued: map<nat, Snapshot>, last: nat, committed: nat, answered: nat, authority: bool, mode: Mode)

  /** A compare-and-swap of the session record that was sent, and may land late or never. */
  datatype Swap = Swap(targets: set<Id>, seeded: nat, generation: nat)

  datatype Phase = Begun | Listed | Asking | Done | Failed

  /**
   One run of `latest`. `floor` and `stored` are what was acknowledged and what was in the
   bucket when it began; the last two fields note when the session record was seen sealed.
   */
  datatype Reader = Reader(
    takeover: bool, floor: nat, stored: set<nat>, phase: Phase, candidate: Option<SnapshotRef>,
    members: set<Id>, witnesses: set<Id>, sealedAtList: bool, sealedAtMembers: bool)

  datatype Epoch = Epoch(
    stream: Stream, base: Option<SnapshotRef>, bucket: map<nat, Snapshot>, session: Session,
    replicas: map<Id, Replica>, writer: Writer, swaps: set<Swap>, readers: map<nat, Reader>)
  {
    function Rep(r: Id): Replica {
      if r in replicas then replicas[r] else Fresh
    }

    function RefTo(s: Snapshot): SnapshotRef {
      NewRef(ObjectName(stream, s.version), s)
    }
  }

  datatype WriterEvent = Issue(s: Snapshot) | CommitUpload | CommitReplicas | Answer | Lapse

  datatype ReplicaEvent =
    | Append(version: nat) | Confirm(version: nat) | Initialize | Seal | Sync | Crash(view: View)

  datatype SessionEvent =
    | Register(members: set<Id>)
    | EnableInitial
    | Suspend(targets: set<Id>)
    | Propose(generation: nat)
    | Deliver(swap: Swap)
    | GiveUp
    | ConfirmReplaced
    | EnableReplaced
    | StartRecovery
    | FinishRecovery(witnesses: set<Id>, top: Option<nat>)

  datatype ReadEvent =
    | Begin(takeover: bool) | List(newest: Option<nat>) | Members | Head(r: Id) | Finish

  datatype Event =
    | Writing(write: WriterEvent)
    | Upload(version: nat)
    | OnReplica(r: Id, change: ReplicaEvent)
    | OnSession(step: SessionEvent)
    | Reading(id: nat, read: ReadEvent)

  predicate IsNewest(keys: set<nat>, newest: Option<nat>) {
    match newest
    case None => keys == {}
    case Some(v) => v in keys && forall w :: w in keys ==> w <= v
  }

  /** The newest head among `witnesses`. */
  predicate IsTop(ep: Epoch, witnesses: set<Id>, top: Option<nat>) {
    match top
    case None => forall r :: r in witnesses ==> ep.Rep(r).disk.head.None?
    case Some(v) =>
      && (exists r :: r in witnesses && ep.Rep(r).disk.head.Some? && ep.Rep(r).disk.head.value.version == v)
      && (forall r :: r in witnesses && ep.Rep(r).disk.head.Some? ==> ep.Rep(r).disk.head.value.version <= v)
  }

  /** Every target confirmed `version`, or there is nothing of this activation to hold yet. */
  predicate Seeded(ep: Epoch, targets: set<Id>, version: nat) {
    version == ep.stream.baseVersion || forall r :: r in targets ==> version in ep.Rep(r).confirmed
  }

  /** No other replacement is still in flight against the current session record. */
  predicate NoRivalSwap(ep: Epoch, targets: set<Id>) {
    forall sw :: sw in ep.swaps && sw.generation == ep.session.generation ==> sw.targets == targets
  }

  // ---- The writer ----

  predicate CanWrite(ep: Epoch, ev: WriterEvent) {
    var w := ep.writer;
    match ev
    case Issue(s) =>
      && w.committed == w.last
      && w.last + 1 < U64_LIMIT
      && s.epoch == ep.stream.epoch
      && s.version == w.last + 1
    case CommitUpload => w.committed < w.last && w.last in ep.bucket
    case CommitReplicas =>
      && w.committed < w.last
      && w.mode.Active?
      && forall r :: r in w.mode.members ==> w.last in ep.Rep(r).confirmed
    case Answer => w.authority
    case Lapse => true
  }

  function Wrote(w: Writer, ev: WriterEvent): Writer {
    match ev
    case Issue(s) => w.(issued := w.issued[s.version := s], last := s.version)
    case CommitUpload => w.(committed := w.last)
    case CommitReplicas => w.(committed := w.last)
    case Answer => w.(answered := w.committed)
    case Lapse => w.(authority := false)
  }

  // ---- Replicas ----

  predicate CanChange(ep: Epoch, replica: Replica, ev: ReplicaEvent) {
    var issued := ep.writer.issued;
    match ev
    case Append(version) => version in issued && CanAppend(replica.memory, issued[version])
    case Confirm(version) =>
      && version in issued
      && CanAppend(replica.memory, issued[version])
      && replica.memory.head == Some(issued[version])
    case Initialize => !replica.memory.sealed
    case Seal => ep.session.state in {Recovering, Sealed}
    case Sync => true
    case Crash(view) =>
      && Extends(replica.disk, view)
      && Extends(view, replica.memory)
      && (view.head.Some? ==>
            view.head.value.version in issued && view.head.value == issued[view.head.value.version])
  }

  function Changed(ep: Epoch, replica: Replica, ev: ReplicaEvent): Replica
    requires CanChange(ep, replica, ev)
  {
    match ev
    case Append(version) => replica.(memory := Appended(replica.memory, ep.writer.issued[version]))
    case Confirm(version) => Replica(replica.memory, replica.memory, replica.confirmed + {version})
    case Initialize => replica.(memory := replica.memory.(initialized := true))
    case Seal => replica.(memory := replica.memory.(sealed := true))
    case Sync => replica.(disk := replica.memory)
    case Crash(view) => replica.(memory := view)
  }

  function SetReplica(ep: Epoch, r: Id, replica: Replica): Epoch {
    ep.(replicas := ep.replicas[r := replica])
  }

  // ---- The session record and the writer's replica set ----

  predicate CanStep(ep: Epoch, ev: SessionEvent) {
    var w := ep.writer;
    match ev
    case Register(members) => ep.session.state == Absent && members != {}
    case EnableInitial => w.mode == Initial && ep.session.members != {}
    case Suspend(targets) => w.mode != Initial && targets != {}
    case Propose(generation) =>
      && w.mode.Repairing?
      && generation <= ep.session.generation
      && (generation == ep.session.generation ==> ep.session.state in {Absent, Open})
      && Seeded(ep, w.mode.targets, w.mode.seeded)
    case Deliver(swap) => swap in ep.swaps
    case GiveUp => w.mode.Repairing? || w.mode.Recorded?
    case ConfirmReplaced =>
      // `replace` returned: the record was seen to name the seeded targets.
      && w.mode.Repairing?
      && ep.session.state != Absent
      && ep.session.members == w.mode.targets
      && Seeded(ep, w.mode.targets, w.mode.seeded)
    case EnableReplaced => w.mode.Recorded? && Seeded(ep, w.mode.targets, w.committed)
    case StartRecovery => !w.authority && ep.session.state in {Absent, Open}
    case FinishRecovery(witnesses, top) =>
      && ep.session.state == Recovering
      && witnesses <= ep.session.members
      && (ep.session.members == {} || witnesses != {})
      && (forall r :: r in witnesses ==> ep.Rep(r).disk.initialized && ep.Rep(r).disk.sealed)
      && IsTop(ep, witnesses, top)
      && (top.Some? ==> top.value in ep.bucket)
  }

  function Stepped(ep: Epoch, ev: SessionEvent): Epoch
    requires CanStep(ep, ev)
  {
    var (w, session) := (ep.writer, ep.session);
    match ev
    case Register(members) => ep.(session := Session(members, Open, 1))
    case EnableInitial => ep.(writer := w.(mode := Active(session.members)))
    case Suspend(targets) => ep.(writer := w.(mode := Repairing(targets, w.committed)))
    case Propose(generation) =>
      ep.(swaps := ep.swaps + {Swap(w.mode.targets, w.mode.seeded, generation)})
    case Deliver(swap) =>
      if swap.generation == session.generation
      then ep.(session := Session(swap.targets, Open, session.generation + 1))
      else ep
    case GiveUp => ep.(writer := w.(mode := Suspended))
    case ConfirmReplaced => ep.(writer := w.(mode := Recorded(w.mode.targets)))
    case EnableReplaced => ep.(writer := w.(mode := Active(w.mode.targets)))
    case StartRecovery =>
      if session.state == Absent then ep.(session := Session({}, Sealed, 1))
      else ep.(session := Session(session.members, Recovering, session.generation + 1))
    case FinishRecovery(_, _) =>
      ep.(session := Session(session.members, Sealed, session.generation + 1))
  }

  // ---- Readers ----

  predicate CanRead(ep: Epoch, id: nat, ev: ReadEvent) {
    if ev.Begin? then id !in ep.readers && (ev.takeover ==> ep.session.state == Sealed)
    else
      && id in ep.readers
      && var reader := ep.readers[id];
      match ev
      case List(newest) => reader.phase == Begun && IsNewest(ep.bucket.Keys, newest)
      case Members => reader.phase == Listed
      case Head(r) => reader.phase == Asking && r in reader.members && ep.Rep(r).memory.initialized
      case Finish =>
        && reader.phase == Asking
        && (reader.members == {} || reader.witnesses != {})
        && (reader.candidate.Some? && reader.candidate != ep.base ==>
              reader.candidate.value.version in ep.bucket)
  }

  /** A reader takes one more witness; a conflict ends it. */
  function Take(reader: Reader, offered: Option<SnapshotRef>): Reader {
    match Advance(PositionOf, reader.candidate, offered)
    case Newest(ref) => reader.(candidate := ref)
    case Conflict => reader.(phase := Failed)
  }

  function RefIfAny(ep: Epoch, s: Option<Snapshot>): Option<SnapshotRef> {
    if s.Some? then Some(ep.RefTo(s.value)) else None
  }

  function Read(ep: Epoch, id: nat, ev: ReadEvent): Reader
    requires CanRead(ep, id, ev)
  {
    var sealed := ep.session.state == Sealed;
    match ev
    case Begin(takeover) =>
      Reader(takeover, ep.writer.committed, ep.bucket.Keys, Begun, ep.base, {}, {}, false, false)
    case List(newest) =>
      var loaded := if newest.Some? then Some(ep.bucket[newest.value]) else None;
      Take(ep.readers[id].(phase := Listed, sealedAtList := sealed), RefIfAny(ep, loaded))
    case Members =>
      ep.readers[id].(phase := Asking, sealedAtMembers := sealed,
                      members := if sealed then {} else ep.session.members)
    case Head(r) =>
      Take(ep.readers[id].(witnesses := ep.readers[id].witnesses + {r}),
           RefIfAny(ep, ep.Rep(r).memory.head))
    case Finish => ep.readers[id].(phase := Done)
  }

  // ---- All of it ----

  /** What the code may do next. */
  predicate Possible(ep: Epoch, ev: Event) {
    match ev
    case Writing(write) => CanWrite(ep, write)
    case Upload(version) => version in ep.writer.issued
    case OnReplica(r, change) => CanChange(ep, ep.Rep(r), change)
    case OnSession(step) => CanStep(ep, step)
    case Reading(id, read) => CanRead(ep, id, read)
  }

  /**
   A replacement is taken as confirmed only while no rival replacement is in flight. The code
   does not check this; without it state can be lost.
   */
  predicate Unrivalled(ep: Epoch, ev: SessionEvent) {
    ev.ConfirmReplaced? && ep.writer.mode.Repairing? ==> NoRivalSwap(ep, ep.writer.mode.targets)
  }

  predicate Enabled(ep: Epoch, ev: Event) {
    Possible(ep, ev) && (ev.OnSession? ==> Unrivalled(ep, ev.step))
  }

  /** The bucket never replaces a snapshot: the first content stored under a version stays. */
  function Uploaded(ep: Epoch, version: nat): Epoch
    requires version in ep.writer.issued
  {
    if version in ep.bucket then ep
    else ep.(bucket := ep.bucket[version := ep.writer.issued[version]])
  }

  function Apply(ep: Epoch, ev: Event): Epoch
    requires Possible(ep, ev)
  {
    match ev
    case Writing(write) => ep.(writer := Wrote(ep.writer, write))
    case Upload(version) => Uploaded(ep, version)
    case OnReplica(r, change) => SetReplica(ep, r, Changed(ep, ep.Rep(r), change))
    case OnSession(step) => Stepped(ep, step)
    case Reading(id, read) => ep.(readers := ep.readers[id := Read(ep, id, read)])
  }
}
