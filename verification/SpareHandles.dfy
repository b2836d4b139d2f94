/** The provider's cache of retained sandbox handles: least recently kept goes first. */
module SpareHandles {
  import opened Names

  type Handle = nat

  /** Every call of `keep` is a grant of its own, numbered in order. */
  datatype Entry = Entry(handle: Handle, grant: nat, expires: int)

  /** Where a granted handle is now. */
  datatype Place = Held | HandedOut | Detached

  datatype Grant = Grant(handle: Handle, place: Place)

  function Without(entries: seq<Entry>, i: nat): seq<Entry>
    requires i < |entries|
  {
    entries[..i] + entries[i + 1..]
  }

  /** One entry per sandbox and per grant, in order of expiry, none expiring after `horizon`. */
  ghost predicate Tidy(entries: seq<Entry>, horizon: int, idOf: Handle -> string) {
    && (forall i, j :: 0 <= i < j < |entries| ==>
          && entries[i].expires <= entries[j].expires
          && idOf(entries[i].handle) != idOf(entries[j].handle)
          && entries[i].grant != entries[j].grant)
    && (forall i :: 0 <= i < |entries| ==> entries[i].expires <= horizon)
  }

  /** The grants marked held are those of the entries. */
  ghost predicate Matches(entries: seq<Entry>, grants: seq<Grant>) {
    && (forall i :: 0 <= i < |entries| ==>
          entries[i].grant < |grants| && grants[entries[i].grant] == Grant(entries[i].handle, Held))
    && (forall g :: 0 <= g < |grants| && grants[g].place == Held ==> HasGrant(entries, g))
  }

  predicate HasGrant(entries: seq<Entry>, g: nat) {
    exists i :: 0 <= i < |entries| && entries[i].grant == g
  }

  lemma TidyWithout(entries: seq<Entry>, i: nat, horizon: int, idOf: Handle -> string)
    requires Tidy(entries, horizon, idOf) && i < |entries|
    ensures Tidy(Without(entries, i), horizon, idOf)
  {
  }

  lemma MatchesWithout(entries: seq<Entry>, grants: seq<Grant>, i: nat, place: Place, horizon: int, idOf: Handle -> string)
    requires Tidy(entries, horizon, idOf) && Matches(entries, grants) && i < |entries| && place != Held
    ensures Matches(Without(entries, i), grants[entries[i].grant := Grant(entries[i].handle, place)])
  {
    var rest := Without(entries, i);
    var next := grants[entries[i].grant := Grant(entries[i].handle, place)];
    forall j | 0 <= j < |rest|
      ensures rest[j].grant < |next| && next[rest[j].grant] == Grant(rest[j].handle, Held)
    {
      assert rest[j] == entries[if j < i then j else j + 1];
    }
    forall g | 0 <= g < |next| && next[g].place == Held ensures HasGrant(rest, g) {
      var j :| 0 <= j < |entries| && entries[j].grant == g;
      assert rest[if j < i then j else j - 1] == entries[j];
    }
  }

  /** Held handles may have been detached since; nothing else happened to earlier grants. */
  ghost predicate OnlyDetached(before: seq<Grant>, after: seq<Grant>) {
    && |before| <= |after|
    && forall g :: 0 <= g < |before| ==>
         after[g] == before[g] || (before[g].place == Held && after[g] == Grant(before[g].handle, Detached))
  }

  lemma OnlyDetachedOn(a: seq<Grant>, b: seq<Grant>, c: seq<Grant>)
    requires OnlyDetached(a, b) && OnlyDetached(b, c)
    ensures OnlyDetached(a, c)
  {
  }

  /** What is left when expired entries are taken from the front until a live one shows. */
  function FromFirstLive(entries: seq<Entry>, now: int): seq<Entry> {
    if entries != [] && entries[0].expires <= now then FromFirstLive(entries[1..], now) else entries
  }

  /** Because entries are in order of expiry, these are exactly the live ones. */
  lemma {:induction false} FirstLiveFilters(entries: seq<Entry>, now: int, horizon: int, idOf: Handle -> string)
    requires Tidy(entries, horizon, idOf)
    ensures forall e :: e in FromFirstLive(entries, now) <==> e in entries && now < e.expires
  {
    if entries != [] && entries[0].expires <= now {
      FirstLiveFilters(entries[1..], now, horizon, idOf);
      assert entries == [entries[0]] + entries[1..];
    }
  }

  lemma MatchesAppend(entries: seq<Entry>, grants: seq<Grant>, entry: Entry)
    requires Matches(entries, grants) && entry.grant == |grants|
    ensures Matches(entries + [entry], grants + [Grant(entry.handle, Held)])
  {
    var (more, next) := (entries + [entry], grants + [Grant(entry.handle, Held)]);
    assert more[|entries|] == entry;
    forall g | 0 <= g < |next| && next[g].place == Held ensures HasGrant(more, g) {
      if g < |grants| {
        var i :| 0 <= i < |entries| && entries[i].grant == g;
        assert more[i].grant == g;
      }
    }
  }

  lemma OthersKeepTheirId(entries: seq<Entry>, i: nat, horizon: int, idOf: Handle -> string)
    requires Tidy(entries, horizon, idOf) && i < |entries|
    ensures forall j :: 0 <= j < |Without(entries, i)| ==> idOf(Without(entries, i)[j].handle) != idOf(entries[i].handle)
  {
  }

  lemma NotHeld(entries: seq<Entry>, grants: seq<Grant>, handle: Handle, idOf: Handle -> string)
    requires Matches(entries, grants)
    requires forall i :: 0 <= i < |entries| ==> idOf(entries[i].handle) != idOf(handle)
    ensures forall g :: 0 <= g < |grants| ==> grants[g] != Grant(handle, Held)
  {
  }

  /** The handle was given up under one grant while it is held under another. */
  ghost predicate DetachedAndHeld(grants: seq<Grant>, handle: Handle) {
    && (exists g :: 0 <= g < |grants| && grants[g] == Grant(handle, Detached))
    && (exists g :: 0 <= g < |grants| && grants[g] == Grant(handle, Held))
  }

  /** The handle was kept before and not handed out since. */
  ghost predicate KeptBefore(grants: seq<Grant>, handle: Handle) {
    exists g :: 0 <= g < |grants| && grants[g].handle == handle && grants[g].place != HandedOut
  }

  lemma KeptAgain(before: seq<Grant>, after: seq<Grant>, handle: Handle, place: Place)
    requires |after| == |before| + 1 && OnlyDetached(before, after) && after[|before|] == Grant(handle, place)
    requires place != HandedOut
    requires forall g :: 0 <= g < |before| && before[g] == Grant(handle, Held) ==> after[g] == Grant(handle, Detached)
    ensures DetachedAndHeld(after, handle) <==> place == Held && KeptBefore(before, handle)
  {
    if place == Held && KeptBefore(before, handle) {
      var g :| 0 <= g < |before| && before[g].handle == handle && before[g].place != HandedOut;
      assert after[g] == Grant(handle, Detached);
    }
  }

  /** A live entry of another sandbox. */
  predicate Stays(e: Entry, now: int, id: string, idOf: Handle -> string) {
    now < e.expires && idOf(e.handle) != id
  }

  /**
   What making room leaves: live entries of other sandboxes, in their order, all of them unless the
   cache was full, and then all but the one that expires first.
   */
  ghost predicate Room(before: seq<Entry>, after: seq<Entry>, now: int, id: string, idOf: Handle -> string, capacity: nat) {
    && (forall e :: e in after ==> e in before && Stays(e, now, id, idOf))
    && (forall e :: e in before && Stays(e, now, id, idOf) && e !in after ==>
          |after| == capacity - 1 && forall f :: f in after ==> e.expires <= f.expires)
    && (forall e, f :: e in before && f in before && Dropped(e, after, now, id, idOf) && Dropped(f, after, now, id, idOf) ==> e == f)
  }

  predicate Dropped(e: Entry, after: seq<Entry>, now: int, id: string, idOf: Handle -> string) {
    Stays(e, now, id, idOf) && e !in after
  }

  lemma RoomIsMade(
      before: seq<Entry>, left: seq<Entry>, after: seq<Entry>, now: int, id: string, idOf: Handle -> string, capacity: nat,
      horizon: int)
    requires Tidy(left, horizon, idOf) && forall e :: e in left <==> e in before && Stays(e, now, id, idOf)
    requires after == left || (left != [] && |left| == capacity && after == left[1..])
    ensures Room(before, after, now, id, idOf, capacity)
  {
    if after != left {
      assert left == [left[0]] + after;
      forall f | f in after ensures left[0].expires <= f.expires {
        var j :| 0 <= j < |after| && after[j] == f;
        assert left[j + 1] == f;
      }
    }
  }

  lemma WithoutHas(entries: seq<Entry>, i: nat)
    requires i < |entries|
    ensures forall e :: e in entries <==> e in Without(entries, i) || e == entries[i]
  {
    forall e | e in entries && e != entries[i] ensures e in Without(entries, i) {
      var j :| 0 <= j < |entries| && entries[j] == e;
      assert Without(entries, i)[if j < i then j else j - 1] == e;
    }
  }

  class Cache {
    const capacity: nat
    const ttl: nat
    const idOf: Handle -> string
    var entries: seq<Entry>
    var closed: bool
    // The clock of the last call, and what became of every handle ever kept.
    ghost var clock: int
    var grants: seq<Grant>

    ghost predicate Valid()
      reads this
    {
      && capacity > 0
      && |entries| <= capacity
      && Tidy(entries, clock + ttl, idOf)
      && Matches(entries, grants)
      && (closed ==> entries == [])
    }

    constructor (capacity: nat, ttl: nat, idOf: Handle -> string)
      requires capacity > 0
      ensures Valid() && this.capacity == capacity && this.ttl == ttl && this.idOf == idOf
      ensures entries == [] && grants == [] && !closed && clock == 0
    {
      this.capacity, this.ttl, this.idOf := capacity, ttl, idOf;
      entries, closed, clock, grants := [], false, 0, [];
    }

    /** Takes one entry out; its handle is handed out or detached. */
    method Remove(i: nat, place: Place)
      requires Valid() && i < |entries| && place != Held
      modifies this`entries, this`grants
      ensures Valid() && entries == Without(old(entries), i)
      ensures grants == old(grants)[old(entries)[i].grant := Grant(old(entries)[i].handle, place)]
      ensures old(entries)[i].grant < |old(grants)| && old(grants)[old(entries)[i].grant] == Grant(old(entries)[i].handle, Held)
    {
      TidyWithout(entries, i, clock + ttl, idOf);
      MatchesWithout(entries, grants, i, place, clock + ttl, idOf);
      grants := grants[entries[i].grant := Grant(entries[i].handle, place)];
      entries := Without(entries, i);
    }

    method DropOldest()
      requires Valid() && entries != []
      modifies this`entries, this`grants
      ensures Valid() && entries == old(entries)[1..] && |grants| == |old(grants)|
      ensures OnlyDetached(old(grants), grants)
    {
      ghost var before := entries;
      Remove(0, Detached);
      assert entries == before[1..];
    }

    /** Stops at the first live entry, and yet leaves no expired one. */
    method Expire(now: int)
      requires Valid() && clock <= now
      modifies this`entries, this`grants, this`clock
      ensures Valid() && clock == now && OnlyDetached(old(grants), grants) && |grants| == |old(grants)|
      ensures entries == FromFirstLive(old(entries), now)
      ensures forall e :: e in entries <==> e in old(entries) && now < e.expires
    {
      FirstLiveFilters(entries, now, clock + ttl, idOf);
      clock := now;
      while entries != [] && entries[0].expires <= now
        invariant Valid() && clock == now && OnlyDetached(old(grants), grants) && |grants| == |old(grants)|
        invariant FromFirstLive(entries, now) == FromFirstLive(old(entries), now)
        decreases |entries|
      {
        ghost var before := grants;
        DropOldest();
        OnlyDetachedOn(old(grants), before, grants);
      }
    }

    /** The index of the sandbox's entry. */
    function Find(id: string): (i: Option<nat>)
      reads this
      ensures i.Some? ==> i.value < |entries| && idOf(entries[i.value].handle) == id
      ensures i.None? ==> forall j :: 0 <= j < |entries| ==> idOf(entries[j].handle) != id
    {
      FindFrom(entries, idOf, id, 0)
    }

    /** Gives up the sandbox's own entry, if there is one. */
    method Release(id: string)
      requires Valid()
      modifies this`entries, this`grants
      ensures Valid() && OnlyDetached(old(grants), grants) && |grants| == |old(grants)|
      ensures forall i :: 0 <= i < |entries| ==> idOf(entries[i].handle) != id
      ensures forall e :: e in entries <==> e in old(entries) && idOf(e.handle) != id
    {
      var i := Find(id);
      if i.Some? {
        WithoutHas(entries, i.value);
        OthersKeepTheirId(entries, i.value, clock + ttl, idOf);
        Remove(i.value, Detached);
      }
    }

    /** Expired entries go, then the sandbox's own, then the oldest if there is still no room. */
    method MakeRoom(handle: Handle, now: int)
      requires Valid() && clock <= now
      modifies this`entries, this`grants, this`clock
      ensures Valid() && clock == now && |entries| < capacity
      ensures OnlyDetached(old(grants), grants) && |grants| == |old(grants)|
      ensures forall i :: 0 <= i < |entries| ==> idOf(entries[i].handle) != idOf(handle)
      ensures Room(old(entries), entries, now, idOf(handle), idOf, capacity)
    {
      Expire(now);
      ghost var expired := grants;
      Release(idOf(handle));
      OnlyDetachedOn(old(grants), expired, grants);
      ghost var left := entries;
      if |entries| == capacity {
        ghost var released := grants;
        DropOldest();
        OnlyDetachedOn(old(grants), released, grants);
      }
      RoomIsMade(old(entries), left, entries, now, idOf(handle), idOf, capacity, clock + ttl);
    }

    method Append(handle: Handle, now: int)
      requires Valid() && !closed && clock <= now && |entries| < capacity
      requires forall i :: 0 <= i < |entries| ==> idOf(entries[i].handle) != idOf(handle)
      modifies this`entries, this`grants, this`clock
      ensures Valid() && entries == old(entries) + [Entry(handle, |old(grants)|, now + ttl)]
      ensures clock == now && grants == old(grants) + [Grant(handle, Held)] && OnlyDetached(old(grants), grants)
    {
      MatchesAppend(entries, grants, Entry(handle, |grants|, now + ttl));
      entries, grants, clock := entries + [Entry(handle, |grants|, now + ttl)], grants + [Grant(handle, Held)], now;
    }

    /**
     Retains a handle: an entry of the same sandbox is given up, a full cache gives up its oldest
     entry, a closed cache detaches at once. The handle ends up detached and held at once exactly if
     it was kept before, was not handed out since, and the cache is open.
     */
    method Keep(handle: Handle, now: int, later: int)
      requires Valid() && clock <= now <= later
      modifies this
      ensures Valid() && closed == old(closed) && |grants| == |old(grants)| + 1 && clock <= later
      ensures OnlyDetached(old(grants), grants)
      ensures grants[|old(grants)|] == Grant(handle, if closed then Detached else Held)
      ensures forall g :: 0 <= g < |old(grants)| && old(grants)[g] == Grant(handle, Held) ==>
                grants[g] == Grant(handle, Detached)
      ensures DetachedAndHeld(grants, handle) <==> !old(closed) && KeptBefore(old(grants), handle)
      ensures if closed then entries == []
              else && entries != [] && entries[|entries| - 1] == Entry(handle, |old(grants)|, later + ttl)
                   && Room(old(entries), entries[..|entries| - 1], now, idOf(handle), idOf, capacity)
    {
      if closed {
        grants := grants + [Grant(handle, Detached)];
        assert forall g :: 0 <= g < |grants| ==> !HasGrant(entries, g);
        KeptAgain(old(grants), grants, handle, Detached);
        return;
      }
      MakeRoom(handle, now);
      assert forall g :: 0 <= g < |grants| ==> grants[g] != Grant(handle, Held) by {
        NotHeld(entries, grants, handle, idOf);
      }
      ghost var (before, room) := (grants, entries);
      Append(handle, later);
      assert entries[..|entries| - 1] == room;
      OnlyDetachedOn(old(grants), before, grants);
      KeptAgain(old(grants), grants, handle, Held);
    }

    /** Hands a live handle out, at most once; an expired one is detached instead. */
    method Take(id: string, now: int) returns (handle: Option<Handle>)
      requires Valid() && clock <= now
      modifies this`entries, this`grants, this`clock
      ensures Valid()
      ensures old(Find(id)).None? ==> handle.None? && entries == old(entries) && grants == old(grants)
      ensures old(Find(id)).Some? ==>
                var e := old(entries)[old(Find(id)).value];
                && entries == Without(old(entries), old(Find(id)).value)
                && handle == (if now < e.expires then Some(e.handle) else None)
                && e.grant < |old(grants)| && old(grants)[e.grant] == Grant(e.handle, Held)
                && grants == old(grants)[e.grant := Grant(e.handle, if now < e.expires then HandedOut else Detached)]
    {
      clock := now;
      var i := Find(id);
      if i.None? {
        return None;
      }
      var entry := entries[i.value];
      Remove(i.value, if now < entry.expires then HandedOut else Detached);
      handle := if now < entry.expires then Some(entry.handle) else None;
    }

    method Close()
      requires Valid()
      modifies this`entries, this`grants, this`closed
      ensures Valid() && closed && entries == [] && OnlyDetached(old(grants), grants)
      ensures forall g :: 0 <= g < |grants| ==> grants[g].place != Held
    {
      while entries != []
        invariant Valid() && OnlyDetached(old(grants), grants) && |grants| == |old(grants)|
        decreases |entries|
      {
        ghost var before := grants;
        DropOldest();
        OnlyDetachedOn(old(grants), before, grants);
      }
      closed := true;
      assert forall g :: 0 <= g < |grants| ==> !HasGrant(entries, g);
    }
  }

  /** Keeping one handle twice: it is held, and it was detached. */
  method KeepTwice(capacity: nat, ttl: nat, idOf: Handle -> string, handle: Handle, now: nat) returns (cache: Cache)
    requires capacity > 0
    ensures cache.Valid() && DetachedAndHeld(cache.grants, handle)
  {
    cache := new Cache(capacity, ttl, idOf);
    cache.Keep(handle, now, now);
    assert cache.grants[0] == Grant(handle, Held);
    cache.Keep(handle, now, now);
  }

  function FindFrom(entries: seq<Entry>, idOf: Handle -> string, id: string, n: nat): (i: Option<nat>)
    requires n <= |entries|
    ensures i.Some? ==> i.value < |entries| && idOf(entries[i.value].handle) == id
    ensures i.None? ==> forall j :: n <= j < |entries| ==> idOf(entries[j].handle) != id
    decreases |entries| - n
  {
    if n == |entries| then None
    else if idOf(entries[n].handle) == id then Some(n)
    else FindFrom(entries, idOf, id, n + 1)
  }
}
