/** The file bucket: conditional replacement by generation, and the read-back that settles its outcome. */
module FileBucket {
  import opened Names

  type Content = string

  const I64_LIMIT: nat := 0x8000_0000_0000_0000

  datatype BucketObject = BucketObject(generation: nat, bytes: Content)

  /** `Swapped` is a definite answer; an error leaves the outcome open. */
  datatype Reply = Swapped(done: bool) | Error

  /** A request works, fails without effect, or takes effect although its caller sees an error. */
  datatype Fate = Works | Fails | ReplyLost

  /** Non-empty path components without a leading dot or a backslash. */
  predicate ValidKey(key: string) {
    key != "" && forall part :: part in Split(key, '/') ==> part != "" && part[0] != '.' && '\\' !in part
  }

  predicate GoodPart(part: string) {
    part != "" && part[0] != '.' && '\\' !in part
  }

  /** All parts are good; without `start` the first one continues a part that has begun. */
  predicate GoodParts(parts: seq<string>, start: bool) {
    && parts != [] && '\\' !in parts[0] && (start ==> GoodPart(parts[0]))
    && forall k :: 1 <= k < |parts| ==> GoodPart(parts[k])
  }

  /** A part begins at `i`. */
  predicate BeginsAt(s: string, i: nat, start: bool)
    requires i < |s|
  {
    if i == 0 then start else s[i - 1] == '/'
  }

  /** By characters: no backslash, nothing ends with a slash, and no part begins with a slash or a dot. */
  predicate StaysInside(s: string, start: bool) {
    && (start ==> s != "") && (s != "" ==> s[|s| - 1] != '/')
    && (forall i :: 0 <= i < |s| ==> s[i] != '\\')
    && (forall i :: 0 <= i < |s| && BeginsAt(s, i, start) ==> s[i] != '/' && s[i] != '.')
  }

  lemma InsideAfter(s: string, start: bool)
    requires s != ""
    ensures StaysInside(s, start) <==>
            && s[0] != '\\' && (start ==> s[0] != '/' && s[0] != '.')
            && StaysInside(s[1..], s[0] == '/')
  {
    var t := s[1..];
    forall i | 0 <= i < |t| ensures t[i] == s[i + 1] && BeginsAt(t, i, s[0] == '/') == BeginsAt(s, i + 1, start) {
      assert i > 0 ==> t[i - 1] == s[i];
    }
    forall i | 1 <= i < |s| ensures s[i] == t[i - 1] && BeginsAt(s, i, start) == BeginsAt(t, i - 1, s[0] == '/') {
      assert i > 1 ==> s[i - 1] == t[i - 2];
    }
    assert BeginsAt(s, 0, start) == start;
    assert t != "" ==> t[|t| - 1] == s[|s| - 1];
  }

  lemma {:induction false} PartsByCharacters(s: string, start: bool)
    ensures GoodParts(Split(s, '/'), start) <==> StaysInside(s, start)
    decreases |s|
  {
    if s != "" {
      var (parts, tail) := (Split(s, '/'), Split(s[1..], '/'));
      InsideAfter(s, start);
      PartsByCharacters(s[1..], s[0] == '/');
      if s[0] == '/' {
        assert forall k :: 1 <= k < |parts| ==> parts[k] == tail[k - 1];
        assert forall k :: 0 <= k < |tail| ==> tail[k] == parts[k + 1];
      } else {
        assert forall k :: 1 <= k < |parts| ==> parts[k] == tail[k];
      }
    }
  }

  /** A key is valid exactly if no part of it is empty, begins with a dot or has a backslash: it stays inside the bucket. */
  lemma ValidKeyStaysInside(key: string)
    ensures ValidKey(key) <==> StaysInside(key, true)
  {
    var parts := Split(key, '/');
    PartsByCharacters(key, true);
    if GoodParts(parts, true) {
      forall part | part in parts ensures GoodPart(part) {
        var k :| 0 <= k < |parts| && parts[k] == part;
      }
    }
  }

  class Bucket {
    var objects: map<string, BucketObject>
    // Every content ever stored under a key, oldest first.
    ghost var history: map<string, seq<Content>>

    ghost function History(key: string): seq<Content>
      reads this
    {
      if key in history then history[key] else []
    }

    /** An object's generation counts its contents, and it holds the last one. */
    ghost predicate Valid()
      reads this
    {
      forall key ::
        if key in objects then
          && ValidKey(key)
          && History(key) != []
          && objects[key] == BucketObject(|History(key)|, History(key)[|History(key)| - 1])
        else History(key) == []
    }

    constructor ()
      ensures Valid() && objects == map[]
    {
      objects, history := map[], map[];
    }

    function Generation(key: string): Option<nat>
      reads this
    {
      if key in objects then Some(objects[key].generation) else None
    }

    /** The object has the expected generation, and there is one after it. */
    predicate Matches(key: string, expected: Option<nat>)
      reads this
    {
      ValidKey(key) && Generation(key) == expected && (expected.Some? ==> expected.value + 1 < I64_LIMIT)
    }

    /** Stores the bytes exactly if the object still has the expected generation and the request works. */
    method CompareAndSwap(key: string, expected: Option<nat>, bytes: Content, fate: Fate) returns (r: Reply)
      requires Valid()
      modifies this
      ensures Valid()
      ensures r == Swapped(true) <==> fate.Works? && old(Matches(key, expected))
      ensures r == Swapped(false) <==> fate.Works? && ValidKey(key) && old(Generation(key)) != expected
      ensures if !fate.Fails? && old(Matches(key, expected))
              then History(key) == old(History(key)) + [bytes] && Generation(key).Some? && objects[key].bytes == bytes
              else objects == old(objects) && history == old(history)
      ensures forall other :: other != key ==> History(other) == old(History(other))
    {
      if !ValidKey(key) || fate.Fails? {
        return Error;
      }
      if Generation(key) != expected {
        return if fate.Works? then Swapped(false) else Error;
      }
      var next := (if expected.Some? then expected.value else 0) + 1;
      if next >= I64_LIMIT {
        return Error;
      }
      Store(key, next, bytes);
      r := if fate.Works? then Swapped(true) else Error;
    }

    method Store(key: string, generation: nat, bytes: Content)
      requires Valid() && ValidKey(key) && generation == |History(key)| + 1
      modifies this
      ensures Valid() && History(key) == old(History(key)) + [bytes] && key in objects && objects[key].bytes == bytes
      ensures forall other :: other != key ==> History(other) == old(History(other))
    {
      history := history[key := History(key) + [bytes]];
      objects := objects[key := BucketObject(generation, bytes)];
      assert History(key)[|History(key)| - 1] == bytes;
      forall other | other != key ensures History(other) == old(History(other)) {
      }
    }

    /** Every write is conditional on the object being absent. */
    static predicate OnlyCreate(writes: seq<(Option<nat>, Content)>) {
      forall i :: 0 <= i < |writes| ==> writes[i].0.None?
    }

    /** Other writers of the same object, any number of times. */
    method Others(key: string, writes: seq<(Option<nat>, Content)>)
      requires Valid()
      modifies this
      ensures Valid() && old(History(key)) <= History(key)
      ensures writes == [] || (key in old(objects) && OnlyCreate(writes)) ==>
                objects == old(objects) && history == old(history)
    {
      for n := 0 to |writes|
        invariant Valid() && old(History(key)) <= History(key)
        invariant n == 0 || (key in old(objects) && OnlyCreate(writes)) ==>
                    objects == old(objects) && history == old(history)
      {
        var fate: Fate := *;
        var r := CompareAndSwap(key, writes[n].0, writes[n].1, fate);
      }
    }

    /**
     `replace`: when the reply is lost or negative, the object is read back. True means that the
     bytes were stored, by this call or by another that wrote the same; nothing stored is undone.
     If others only create, it is true whenever the write took effect and the reply arrived or the
     object can be read back. A retry of the bytes an object holds is true if that can be read back,
     whatever becomes of the write.
     */
    method Replace(
        key: string, expected: Option<nat>, bytes: Content, fate: Fate, readable: bool,
        writes: seq<(Option<nat>, Content)>)
        returns (r: Reply)
      requires Valid()
      modifies this
      ensures Valid() && old(History(key)) <= History(key)
      ensures r == Swapped(true) ==>
                exists k :: |old(History(key))| - 1 <= k < |History(key)| && 0 <= k && History(key)[k] == bytes
      ensures old(Matches(key, expected)) && (fate.Works? || (fate.ReplyLost? && readable && OnlyCreate(writes))) ==>
                r == Swapped(true)
      ensures old(key in objects && objects[key].bytes == bytes) && expected.None? && OnlyCreate(writes) && readable ==>
                r == Swapped(true) && History(key) == old(History(key))
      ensures fate.Fails? && writes == [] ==> objects == old(objects) && history == old(history)
    {
      ghost var before := History(key);
      r := CompareAndSwap(key, expected, bytes, fate);
      if r == Swapped(true) {
        assert History(key)[|before|] == bytes;
        return;
      }
      var retriedTo: bool := *;
      if fate.ReplyLost? && retriedTo {
        // A request sent twice can report the generation of the first one.
        r := Swapped(false);
      }
      Others(key, writes);
      if !readable {
        return Error;
      }
      if key in objects && objects[key].bytes == bytes {
        assert History(key)[|History(key)| - 1] == bytes;
        return Swapped(true);
      }
    }
  }
}
