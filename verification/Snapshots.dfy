/** Snapshots, the references that name them, and the order of their positions. */
module Snapshots {
  import opened Names

  /** A JSON value, by its text. */
  type Json = string

  /**
   One full actor state. The encoding is a deterministic injective pair, so a snapshot
   also stands for the bytes `encode` produces from it.
   */
  datatype Snapshot = Snapshot(
    epoch: nat, version: nat, requestId: string, state: Json, result: Json, attribution: Json)

  /** Stored bytes: the encoding of a snapshot, or anything else. */
  datatype Bytes = Encoded(snapshot: Snapshot) | Opaque(text: string)

  /** SHA-256, taken to be injective. */
  datatype Digest = Sha256(of: Bytes)

  const MAX_ACTOR_STATE_BYTES: nat := 16 * 1024 * 1024

  predicate ValidSnapshot(s: Snapshot) {
    && s.version > 0
    && s.epoch > 0
    && 0 < |s.requestId| <= 255
    && "{" <= s.state
    && |s.state| <= MAX_ACTOR_STATE_BYTES
  }

  function Decode(bytes: Bytes): Option<Snapshot> {
    if bytes.Encoded? && ValidSnapshot(bytes.snapshot) then Some(bytes.snapshot) else None
  }

  datatype SnapshotRef = SnapshotRef(name: string, version: nat, requestId: string, digest: Digest)

  predicate Verifies(ref: SnapshotRef, bytes: Bytes) {
    Sha256(bytes) == ref.digest
  }

  /** The object stream one activation writes. */
  datatype Stream = Stream(session: string, prefix: string, epoch: nat, baseVersion: nat)

  function ObjectName(stream: Stream, version: nat): string {
    stream.prefix + Decimal(version) + ".json"
  }

  function NewRef(name: string, s: Snapshot): SnapshotRef {
    SnapshotRef(name, s.version, s.requestId, Sha256(Encoded(s)))
  }

  /** The reference a stream gives to bytes, if they belong to it. */
  function StreamSnapshot(stream: Stream, bytes: Bytes): Option<SnapshotRef> {
    match Decode(bytes)
    case None => None
    case Some(s) =>
      if s.epoch == stream.epoch && s.version > stream.baseVersion
      then Some(NewRef(ObjectName(stream, s.version), s))
      else None
  }

  function PositionOf(ref: SnapshotRef): Option<Position> {
    SnapshotPosition(ref.name)
  }
}
