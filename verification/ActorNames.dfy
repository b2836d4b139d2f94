/** Storage names of actors: base64url components, snapshot prefixes and streams. */
module ActorNames {
  import opened Names
  import opened Snapshots

  // ---- base64url without padding (section 5 of RFC 4648) ----

  type Byte = n: nat | n < 256

  function Sextet(c: char): Option<nat> {
    if 'A' <= c <= 'Z' then Some(c as int - 'A' as int)
    else if 'a' <= c <= 'z' then Some(26 + (c as int - 'a' as int))
    else if '0' <= c <= '9' then Some(52 + (c as int - '0' as int))
    else if c == '-' then Some(62)
    else if c == '_' then Some(63)
    else None
  }

  function Letter(n: nat): char
    requires n < 64
  {
    if n < 26 then 'A' + n as char
    else if n < 52 then 'a' + (n - 26) as char
    else if n < 62 then '0' + (n - 52) as char
    else if n == 62 then '-'
    else '_'
  }

  function Quad(a: Byte, b: Byte, c: Byte): string {
    [Letter(a / 4), Letter(a % 4 * 16 + b / 16), Letter(b % 16 * 4 + c / 64), Letter(c % 64)]
  }

  function EncodeBytes(b: seq<Byte>): string {
    if |b| == 0 then ""
    else if |b| == 1 then Quad(b[0], 0, 0)[..2]
    else if |b| == 2 then Quad(b[0], b[1], 0)[..3]
    else Quad(b[0], b[1], b[2]) + EncodeBytes(b[3..])
  }

  /** Strict decoding: foreign characters, a lone trailing character and stray low bits are errors. */
  function DecodeBytes(s: string): Option<seq<Byte>> {
    if |s| == 0 then Some([])
    else if |s| == 1 then None
    else
      match (Sextet(s[0]), Sextet(s[1]))
      case (Some(x), Some(y)) =>
        assert x < 64 && y < 64;
        var first: Byte := x * 4 + y / 16;
        if |s| == 2 then (if y % 16 == 0 then Some([first]) else None)
        else
          (match Sextet(s[2])
           case None => None
           case Some(z) =>
             assert z < 64;
             var second: Byte := y % 16 * 16 + z / 4;
             if |s| == 3 then (if z % 4 == 0 then Some([first, second]) else None)
             else
               match (Sextet(s[3]), DecodeBytes(s[4..]))
               case (Some(w), Some(rest)) =>
                 assert w < 64;
                 var third: Byte := z % 4 * 64 + w;
                 Some([first, second, third] + rest)
               case _ => None)
      case _ => None
  }

  lemma LetterReadsBack(n: nat)
    requires n < 64
    ensures Sextet(Letter(n)) == Some(n)
    ensures Letter(n) != '/'
  {
  }

  /** Three bytes are four sextets, and back. */
  lemma QuadReadsBack(a: Byte, b: Byte, c: Byte)
    ensures var (x, y, z, w) := (a / 4, a % 4 * 16 + b / 16, b % 16 * 4 + c / 64, c % 64);
            && x * 4 + y / 16 == a && y % 16 * 16 + z / 4 == b && z % 4 * 64 + w == c
            && Sextet(Quad(a, b, c)[0]) == Some(x)
            && Sextet(Quad(a, b, c)[1]) == Some(y)
            && Sextet(Quad(a, b, c)[2]) == Some(z)
            && Sextet(Quad(a, b, c)[3]) == Some(w)
    ensures Free(Quad(a, b, c), '/')
  {
    LetterReadsBack(a / 4);
    LetterReadsBack(a % 4 * 16 + b / 16);
    LetterReadsBack(b % 16 * 4 + c / 64);
    LetterReadsBack(c % 64);
  }

  lemma DecodeFour(s: string, x: nat, y: nat, z: nat, w: nat)
    requires |s| >= 4 && DecodeBytes(s[4..]).Some?
    requires Sextet(s[0]) == Some(x) && Sextet(s[1]) == Some(y)
    requires Sextet(s[2]) == Some(z) && Sextet(s[3]) == Some(w)
    ensures DecodeBytes(s) ==
            Some([x * 4 + y / 16, y % 16 * 16 + z / 4, z % 4 * 64 + w] + DecodeBytes(s[4..]).value)
  {
  }

  lemma QuadThenRest(a: Byte, b: Byte, c: Byte, rest: string)
    requires DecodeBytes(rest).Some?
    ensures DecodeBytes(Quad(a, b, c) + rest) == Some([a, b, c] + DecodeBytes(rest).value)
  {
    var code := Quad(a, b, c) + rest;
    QuadReadsBack(a, b, c);
    assert code[4..] == rest;
    DecodeFour(code, a / 4, a % 4 * 16 + b / 16, b % 16 * 4 + c / 64, c % 64);
  }

  lemma OneReadsBack(a: Byte)
    ensures DecodeBytes(Quad(a, 0, 0)[..2]) == Some([a])
  {
  }

  lemma TwoReadBack(a: Byte, b: Byte)
    ensures DecodeBytes(Quad(a, b, 0)[..3]) == Some([a, b])
  {
    QuadReadsBack(a, b, 0);
    assert b % 16 * 4 % 4 == 0;
  }

  lemma ShortReadsBack(b: seq<Byte>)
    requires |b| < 3
    ensures DecodeBytes(EncodeBytes(b)) == Some(b)
  {
    if |b| == 1 {
      OneReadsBack(b[0]);
      assert b == [b[0]];
    } else if |b| == 2 {
      TwoReadBack(b[0], b[1]);
      assert b == [b[0], b[1]];
    }
  }

  lemma LongReadsBack(b: seq<Byte>, code: string)
    requires |b| >= 3 && DecodeBytes(code) == Some(b[3..])
    ensures DecodeBytes(Quad(b[0], b[1], b[2]) + code) == Some(b)
  {
    QuadThenRest(b[0], b[1], b[2], code);
    assert b == [b[0], b[1], b[2]] + b[3..];
  }

  lemma {:induction false} Base64ReadsBack(b: seq<Byte>)
    ensures DecodeBytes(EncodeBytes(b)) == Some(b)
  {
    if |b| < 3 {
      ShortReadsBack(b);
    } else {
      Base64ReadsBack(b[3..]);
      LongReadsBack(b, EncodeBytes(b[3..]));
    }
  }

  lemma {:induction false} Base64IsFree(b: seq<Byte>)
    ensures Free(EncodeBytes(b), '/')
  {
    if |b| > 0 {
      QuadReadsBack(b[0], if |b| > 1 then b[1] else 0, if |b| > 2 then b[2] else 0);
      if |b| >= 3 {
        Base64IsFree(b[3..]);
      }
    }
  }

  // ---- Actors ----

  datatype ActorKey = ActorKey(project: string, name: string, id: string)

  const ROOT := "durable-actors/v3/"

  predicate ComponentChar(c: char) {
    || 'a' <= c <= 'z' || 'A' <= c <= 'Z' || '0' <= c <= '9'
    || c == '-' || c == '_' || c == '.'
  }

  predicate ValidComponent(value: string, limit: nat) {
    && 0 < |value| <= limit
    && forall i :: 0 <= i < |value| ==> ComponentChar(value[i])
  }

  function StorageKey(actor: ActorKey): string {
    "object.v4." + actor.project + ":" + actor.name + ":" + actor.id
  }

  predicate ValidActor(actor: ActorKey) {
    && ValidComponent(actor.project, 64)
    && ValidComponent(actor.name, 48)
    && ValidComponent(actor.id, 128)
    && |StorageKey(actor)| <= 255
  }

  predicate Ascii(s: string) {
    forall i :: 0 <= i < |s| ==> s[i] as int < 128
  }

  /** The bytes of an ASCII string, and the string of ASCII bytes. */
  function AsciiBytes(s: string): seq<Byte>
    requires Ascii(s)
  {
    if s == "" then [] else [s[0] as int] + AsciiBytes(s[1..])
  }

  function AsciiText(b: seq<Byte>): Option<string> {
    if b == [] then Some("")
    else
      match AsciiText(b[1..])
      case Some(rest) => if b[0] < 128 then Some([b[0] as char] + rest) else None
      case None => None
  }

  lemma {:induction false} AsciiReadsBack(s: string)
    requires Ascii(s)
    ensures AsciiText(AsciiBytes(s)) == Some(s)
  {
    if s != "" {
      AsciiReadsBack(s[1..]);
      assert AsciiBytes(s)[1..] == AsciiBytes(s[1..]);
      assert s == [s[0]] + s[1..];
    }
  }

  function Component(value: string): string
    requires Ascii(value)
  {
    EncodeBytes(AsciiBytes(value))
  }

  /** Strict decoding, as ASCII text: other bytes are never those of an actor component. */
  function DecodeComponent(value: string): Option<string> {
    match DecodeBytes(value)
    case Some(b) => AsciiText(b)
    case None => None
  }

  /** The components of an actor's snapshot directory below the root; `hash` is the first byte of SHA-256. */
  function SnapshotComponents(hash: string -> Byte, actor: ActorKey): seq<string>
    requires ValidActor(actor)
  {
    ["snapshots", Hex(hash(StorageKey(actor)), 2),
     Component(actor.project), Component(actor.name), Component(actor.id)]
  }

  function StreamComponents(hash: string -> Byte, actor: ActorKey, epoch: nat): seq<string>
    requires ValidActor(actor)
  {
    SnapshotComponents(hash, actor) + [Hex(epoch, 32)]
  }

  function SnapshotPrefix(hash: string -> Byte, actor: ActorKey): string
    requires ValidActor(actor)
  {
    ROOT + Path(SnapshotComponents(hash, actor))
  }

  function StreamPrefix(hash: string -> Byte, actor: ActorKey, epoch: nat): string
    requires ValidActor(actor)
  {
    ROOT + Path(StreamComponents(hash, actor, epoch))
  }

  /** The stream an ownership record writes. */
  function ActivationStream(
      hash: string -> Byte, actor: ActorKey, session: string, epoch: nat, baseVersion: nat): Stream
    requires ValidActor(actor)
  {
    Stream(session, StreamPrefix(hash, actor, epoch), epoch, baseVersion)
  }

  function ActorFromSnapshot(hash: string -> Byte, name: string): Option<ActorKey> {
    if !(ROOT <= name) then None
    else
      var parts := Split(name[|ROOT|..], '/');
      if |parts| != 7 || parts[0] != "snapshots" then None
      else
        match (DecodeComponent(parts[2]), DecodeComponent(parts[3]), DecodeComponent(parts[4]))
        case (Some(project), Some(actorName), Some(id)) =>
          var actor := ActorKey(project, actorName, id);
          if ValidActor(actor) && SnapshotPrefix(hash, actor) <= name then Some(actor) else None
        case _ => None
  }

  function ActorFromKey(key: string): Option<ActorKey> {
    if !("object.v4." <= key) then None
    else
      var parts := Split(key[|"object.v4."|..], ':');
      if |parts| != 3 then None
      else
        var actor := ActorKey(parts[0], parts[1], parts[2]);
        if ValidActor(actor) then Some(actor) else None
  }

  // ---- Reading names back ----

  lemma ComponentReadsBack(value: string)
    requires Ascii(value)
    ensures DecodeComponent(Component(value)) == Some(value)
    ensures Free(Component(value), '/')
  {
    var b := AsciiBytes(value);
    Base64ReadsBack(b);
    Base64IsFree(b);
    AsciiReadsBack(value);
  }

  lemma SnapshotComponentsAreFree(hash: string -> Byte, actor: ActorKey)
    requires ValidActor(actor)
    ensures forall c :: c in SnapshotComponents(hash, actor) ==> Free(c, '/')
  {
    ActorComponentsAreFree(actor);
    ShardIsFree(hash, actor);
  }

  lemma ActorComponentsAreFree(actor: ActorKey)
    requires ValidActor(actor)
    ensures forall c :: c in [Component(actor.project), Component(actor.name), Component(actor.id)] ==> Free(c, '/')
  {
    ComponentReadsBack(actor.project);
    ComponentReadsBack(actor.name);
    ComponentReadsBack(actor.id);
  }

  lemma ShardIsFree(hash: string -> Byte, actor: ActorKey)
    requires ValidActor(actor)
    ensures Free("snapshots", '/') && Free(Hex(hash(StorageKey(actor)), 2), '/')
  {
    HexReadsBack(hash(StorageKey(actor)), 2);
  }

  lemma StreamComponentsAreFree(hash: string -> Byte, actor: ActorKey, epoch: nat)
    requires ValidActor(actor) && epoch < U64_LIMIT
    ensures forall c :: c in StreamComponents(hash, actor, epoch) ==> Free(c, '/')
  {
    SnapshotComponentsAreFree(hash, actor);
    EpochFits(epoch);
    HexReadsBack(epoch, 32);
  }

  lemma {:induction false} PathAppend(left: seq<string>, right: seq<string>)
    ensures Path(left + right) == Path(left) + Path(right)
  {
    if left == [] {
      assert left + right == right;
    } else {
      assert (left + right)[1..] == left[1..] + right;
      PathAppend(left[1..], right);
    }
  }

  lemma PositionReadsBack(parent: string, nonce: string, epoch: nat, version: nat)
    requires version < U64_LIMIT
    requires Free(nonce, '/') && ParseU64(nonce, 16) == Some(epoch)
    ensures SnapshotPosition(parent + "/" + nonce + "/" + (Decimal(version) + ".json")) ==
            Some(Position(epoch, version))
  {
    var directory := parent + "/" + nonce;
    var file := Decimal(version) + ".json";
    DecimalReadsBack(version);
    LastComponent(directory, file);
    LastComponent(parent, nonce);
    assert file[..|file| - 5] == Decimal(version);
    assert file[|file| - 5..] == ".json";
  }

  lemma EpochReadsBack(epoch: nat)
    requires epoch < U64_LIMIT
    ensures Free(Hex(epoch, 32), '/') && ParseU64(Hex(epoch, 32), 16) == Some(epoch)
  {
    EpochFits(epoch);
    HexReadsBack(epoch, 32);
    assert Hex(epoch, 32)[0] in Hex(epoch, 32);
  }

  lemma {:induction false} PathEndsWithSlash(components: seq<string>)
    requires components != []
    ensures Path(components) != "" && Path(components)[|Path(components)| - 1] == '/'
  {
    if |components| > 1 {
      PathEndsWithSlash(components[1..]);
    }
  }

  /** An object name gives back the epoch and version it was built from. */
  lemma ObjectPosition(hash: string -> Byte, actor: ActorKey, session: string, epoch: nat, baseVersion: nat, version: nat)
    requires ValidActor(actor) && epoch < U64_LIMIT && version < U64_LIMIT
    ensures SnapshotPosition(ObjectName(ActivationStream(hash, actor, session, epoch, baseVersion), version)) ==
            Some(Position(epoch, version))
  {
    var components := SnapshotComponents(hash, actor);
    var directory := ROOT + Path(components);
    var name := ObjectName(ActivationStream(hash, actor, session, epoch, baseVersion), version);
    PathEndsWithSlash(components);
    PathAppend(components, [Hex(epoch, 32)]);
    var parent := directory[..|directory| - 1];
    assert Path([Hex(epoch, 32)]) == Hex(epoch, 32) + "/";
    assert name == parent + "/" + Hex(epoch, 32) + "/" + (Decimal(version) + ".json") by {
      assert directory == parent + "/";
      Regroup(ROOT, Path(components), Hex(epoch, 32) + "/");
      Regroup(directory, Hex(epoch, 32), "/");
      Regroup(directory + Hex(epoch, 32) + "/", Decimal(version), ".json");
    }
    EpochReadsBack(epoch);
    PositionReadsBack(parent, Hex(epoch, 32), epoch, version);
  }

  lemma NameParts(hash: string -> Byte, actor: ActorKey, epoch: nat, version: nat)
    requires ValidActor(actor) && epoch < U64_LIMIT && version < U64_LIMIT
    ensures var parts := StreamComponents(hash, actor, epoch);
            Split(Path(parts) + (Decimal(version) + ".json"), '/') == parts + [Decimal(version) + ".json"]
  {
    StreamComponentsAreFree(hash, actor, epoch);
    DecimalReadsBack(version);
    SplitPath(StreamComponents(hash, actor, epoch), Decimal(version) + ".json");
  }

  /** Seven such parts after the root are read as their actor. */
  lemma PartsActor(hash: string -> Byte, actor: ActorKey, name: string, nonce: string, file: string)
    requires ValidActor(actor) && SnapshotPrefix(hash, actor) <= name && ROOT <= name
    requires Split(name[|ROOT|..], '/') == SnapshotComponents(hash, actor) + [nonce, file]
    ensures ActorFromSnapshot(hash, name) == Some(actor)
  {
    ComponentReadsBack(actor.project);
    ComponentReadsBack(actor.name);
    ComponentReadsBack(actor.id);
  }

  lemma NameShape(root: string, directory: string, nonce: string, version: string, suffix: string)
    ensures var name := root + (directory + nonce) + version + suffix;
            && name == root + ((directory + nonce) + (version + suffix))
            && root + directory <= name
            && root <= name
            && name[|root|..] == (directory + nonce) + (version + suffix)
  {
  }

  /** An object name gives back its actor. */
  lemma ObjectActor(hash: string -> Byte, actor: ActorKey, session: string, epoch: nat, baseVersion: nat, version: nat)
    requires ValidActor(actor) && epoch < U64_LIMIT && version < U64_LIMIT
    ensures ActorFromSnapshot(hash, ObjectName(ActivationStream(hash, actor, session, epoch, baseVersion), version)) ==
            Some(actor)
  {
    var directory := SnapshotComponents(hash, actor);
    var nonce := Hex(epoch, 32);
    var name := ObjectName(ActivationStream(hash, actor, session, epoch, baseVersion), version);
    PathAppend(directory, [nonce]);
    NameShape(ROOT, Path(directory), Path([nonce]), Decimal(version), ".json");
    NameParts(hash, actor, epoch, version);
    assert directory + [nonce] + [Decimal(version) + ".json"] == directory + [nonce, Decimal(version) + ".json"];
    PartsActor(hash, actor, name, nonce, Decimal(version) + ".json");
  }

  /** A storage key gives back its actor. */
  lemma KeyActor(actor: ActorKey)
    requires ValidActor(actor)
    ensures ActorFromKey(StorageKey(actor)) == Some(actor)
  {
    var rest := actor.name + ":" + actor.id;
    assert StorageKey(actor)[|"object.v4."|..] == actor.project + ":" + rest;
    SplitFirst(actor.project, rest, ':');
    SplitFirst(actor.name, actor.id, ':');
    SplitWhole(actor.id, ':');
  }

  /** No object of a stream is under the prefix of any other stream. */
  lemma StreamsAreSeparate(
      hash: string -> Byte, a: ActorKey, aEpoch: nat, b: ActorKey, bEpoch: nat, file: string)
    requires ValidActor(a) && ValidActor(b) && aEpoch < U64_LIMIT && bEpoch < U64_LIMIT
    requires StreamPrefix(hash, a, aEpoch) <= StreamPrefix(hash, b, bEpoch) + file
    ensures a == b && aEpoch == bEpoch
  {
    var (left, right) := (StreamComponents(hash, a, aEpoch), StreamComponents(hash, b, bEpoch));
    StreamComponentsAreFree(hash, a, aEpoch);
    StreamComponentsAreFree(hash, b, bEpoch);
    Regroup(ROOT, Path(right), file);
    SameRoot(ROOT, Path(left), Path(right) + file);
    PathsAreIncomparable(left, right, file);
    SameComponents(hash, a, aEpoch, b, bEpoch);
  }

  lemma SameComponents(hash: string -> Byte, a: ActorKey, aEpoch: nat, b: ActorKey, bEpoch: nat)
    requires ValidActor(a) && ValidActor(b) && aEpoch < U64_LIMIT && bEpoch < U64_LIMIT
    requires StreamComponents(hash, a, aEpoch) == StreamComponents(hash, b, bEpoch)
    ensures a == b && aEpoch == bEpoch
  {
    var (left, right) := (StreamComponents(hash, a, aEpoch), StreamComponents(hash, b, bEpoch));
    assert left[2] == right[2] && left[3] == right[3] && left[4] == right[4] && left[5] == right[5];
    ComponentReadsBack(a.project);
    ComponentReadsBack(b.project);
    ComponentReadsBack(a.name);
    ComponentReadsBack(b.name);
    ComponentReadsBack(a.id);
    ComponentReadsBack(b.id);
    EpochReadsBack(aEpoch);
    EpochReadsBack(bEpoch);
  }
}
