/**
 Writing one snapshot to the bucket and all replicas at once, and replacing the replica set of a
 running activation. Versions stand for the snapshots the activation's stream gives them.
 */
module Replication {
  import opened Names

  type Id = nat

  /** Every replica must confirm; a failure is kept until all have answered. */
  method Replicate(confirmed: seq<bool>) returns (ok: bool)
    ensures ok <==> forall i :: 0 <= i < |confirmed| ==> confirmed[i]
  {
    var failure := false;
    for n := 0 to |confirmed|
      invariant failure <==> exists i :: 0 <= i < n && !confirmed[i]
    {
      if !confirmed[n] {
        failure := true;
      }
    }
    ok := !failure;
  }

  datatype Proof = Uploaded | Replicated

  /** The first success wins; only when both fail does the write fail. */
  function Race(bucket: bool, replicas: bool, bucketFirst: bool): (proof: Option<Proof>)
    ensures proof.Some? <==> bucket || replicas
    ensures proof == Some(Uploaded) ==> bucket
    ensures proof == Some(Replicated) ==> replicas
  {
    if bucketFirst then (if bucket then Some(Uploaded) else if replicas then Some(Replicated) else None)
    else (if replicas then Some(Replicated) else if bucket then Some(Uploaded) else None)
  }

  predicate AllAnswer(members: set<Id>, answers: Id -> bool) {
    forall r :: r in members ==> answers(r)
  }

  predicate AllRounds(members: set<Id>, rounds: nat -> Id -> bool, n: nat) {
    forall k: nat :: k < n ==> AllAnswer(members, rounds(k))
  }

  lemma OneMoreRound(members: set<Id>, rounds: nat -> Id -> bool, n: nat)
    ensures AllRounds(members, rounds, n + 1) <==> AllRounds(members, rounds, n) && AllAnswer(members, rounds(n))
  {
  }

  /** What happens to one write: who answers, whether the upload is reported or lands unreported, and what is first. */
  datatype Attempt = Attempt(answers: Id -> bool, uploaded: bool, landed: bool, bucketFirst: bool)

  /** What happens to the replacement of the session record. */
  datatype Swap = Swap(landed: bool, confirmed: bool)

  class ActorReplication {
    // The last acknowledged version, and the set replica writes go to; `None` while suspended.
    var latest: nat
    var enabled: Option<set<Id>>
    // The session record's replica set, each replica's synced head, and the bucket.
    var recorded: set<Id>
    var heads: map<Id, nat>
    var bucket: set<nat>
    // Versions the runtime will still write, in order; it retries one that failed before the next.
    var incoming: seq<nat>
    ghost var acknowledged: set<nat>

    function Head(r: Id): nat
      reads this`heads
    {
      if r in heads then heads[r] else 0
    }

    predicate Holds(members: set<Id>, version: nat)
      reads this`heads
    {
      forall r :: r in members ==> version <= Head(r)
    }

    /** Every acknowledged version is in the bucket, or every recorded replica holds it or a later one. */
    ghost predicate Safe()
      reads this
    {
      forall v :: v in acknowledged ==> v in bucket || (recorded != {} && Holds(recorded, v))
    }

    ghost predicate Valid()
      reads this
    {
      && Safe()
      && (enabled.Some? ==> enabled.value == recorded && recorded != {})
      && (forall v :: v in acknowledged ==> v <= latest)
      && (forall i :: 0 <= i < |incoming| ==> latest < incoming[i])
      && (forall i, j :: 0 <= i < j < |incoming| ==> incoming[i] < incoming[j])
    }

    // ---- Replicas ----

    /** Sends one version to every member; exactly those that answer hold it, or already held a later one. */
    method Send(members: set<Id>, version: nat, answers: Id -> bool) returns (ok: bool)
      modifies this`heads
      ensures ok <==> AllAnswer(members, answers)
      ensures forall r :: Head(r) == if r in members && answers(r) && old(Head(r)) < version then version else old(Head(r))
      ensures ok ==> Holds(members, version)
    {
      ok := true;
      var rest := members;
      while rest != {}
        invariant rest <= members
        invariant forall r :: Head(r) == if r in members - rest && answers(r) && old(Head(r)) < version then version
                                         else old(Head(r))
        invariant ok <==> AllAnswer(members - rest, answers)
        decreases |rest|
      {
        var r :| r in rest;
        rest := rest - {r};
        if answers(r) {
          if Head(r) < version {
            heads := heads[r := version];
          }
        } else {
          ok := false;
          assert r in members - rest;
        }
      }
      assert members - rest == members;
    }

    /** Heads that only rise keep every acknowledged version. */
    twostate lemma RisingHeadsKeep()
      requires old(Valid())
      requires forall r :: old(Head(r)) <= Head(r)
      requires unchanged(`latest, `enabled, `recorded, `bucket, `incoming, `acknowledged)
      ensures Valid()
    {
      forall v | v in acknowledged ensures v in bucket || (recorded != {} && Holds(recorded, v)) {
        assert old(v in bucket || (recorded != {} && Holds(recorded, v)));
        assert forall r :: r in recorded && v <= old(Head(r)) ==> v <= Head(r);
      }
    }

    /**
     One attempt at the next write. Once acknowledged it is in the bucket or on every enabled replica;
     a failed one, which may have reached some of them, stays first in line. It succeeds exactly if
     the upload did or replication is enabled and all its replicas answered.
     */
    method WriteNext(a: Attempt) returns (ok: bool)
      requires Valid() && incoming != []
      modifies this`latest, this`heads, this`bucket, this`incoming, this`acknowledged
      ensures Valid()
      ensures ok <==> a.uploaded || (enabled.Some? && AllAnswer(enabled.value, a.answers))
      ensures incoming == if ok then old(incoming)[1..] else old(incoming)
      ensures ok ==> latest == old(incoming)[0] && acknowledged == old(acknowledged) + {latest}
      ensures !ok ==> latest == old(latest) && acknowledged == old(acknowledged)
      ensures ok && enabled.None? ==> latest in bucket
      ensures bucket == old(bucket) + (if a.uploaded || a.landed then {old(incoming)[0]} else {})
      ensures forall r :: old(Head(r)) <= Head(r)
    {
      var version := incoming[0];
      var replicated := false;
      if enabled.Some? {
        replicated := Send(enabled.value, version, a.answers);
        RisingHeadsKeep();
      }
      if a.uploaded || a.landed {
        bucket := bucket + {version};
      }
      var proof := Race(a.uploaded, replicated, a.bucketFirst);
      ok := proof.Some?;
      if ok {
        incoming := incoming[1..];
        latest := version;
        acknowledged := acknowledged + {version};
      }
    }

    /** Other work of the activation while a repair waits: attempts to write. */
    method Meanwhile(attempts: seq<Attempt>)
      requires Valid()
      modifies this`latest, this`heads, this`bucket, this`incoming, this`acknowledged
      ensures Valid()
      ensures |incoming| <= |old(incoming)| && (|incoming| == |old(incoming)| ==> latest == old(latest))
      ensures forall r :: old(Head(r)) <= Head(r)
      ensures old(bucket) <= bucket && old(acknowledged) <= acknowledged
      ensures old(enabled).None? ==> acknowledged - old(acknowledged) <= bucket
    {
      var n := 0;
      while n < |attempts| && incoming != []
        invariant Valid()
        invariant |incoming| <= |old(incoming)| && (|incoming| == |old(incoming)| ==> latest == old(latest))
        invariant forall r :: old(Head(r)) <= Head(r)
        invariant old(bucket) <= bucket && old(acknowledged) <= acknowledged
        invariant old(enabled).None? ==> acknowledged - old(acknowledged) <= bucket
      {
        var ok := WriteNext(attempts[n]);
        n := n + 1;
      }
    }

    /**
     Replaces the replica set: suspend, seed the targets, record them, and seed again until no
     write slipped in between. Every extra round is paid for by a write acknowledged meanwhile.
     Whether it succeeds or not, no acknowledged version is lost at any point. It succeeds exactly
     if the targets answer every round, the record then names them, and the caller learns of it.
     */
    method Repair(targets: set<Id>, rounds: nat -> Id -> bool, swap: Swap, between: nat -> seq<Attempt>)
        returns (ok: bool, n: nat)
      requires Valid() && targets != {}
      modifies this
      ensures Valid() && old(acknowledged) <= acknowledged && n > 0
      ensures ok <==> AllRounds(targets, rounds, n) && (swap.landed || old(recorded) == targets) && swap.confirmed
      ensures ok ==> enabled == Some(targets) && recorded == targets && Holds(targets, latest)
      ensures !ok ==> enabled.None? && (recorded == targets || recorded == old(recorded))
    {
      enabled, n := None, 1;
      var seeded;
      ok, seeded := Seed(targets, rounds(0));
      ghost var before := acknowledged;
      Meanwhile(between(0));
      if !ok {
        assert !AllAnswer(targets, rounds(0));
        return;
      }
      ok := Record(targets, swap, seeded, before);
      if !ok {
        return;
      }
      Meanwhile(between(1));
      ok, n := CatchUp(targets, seeded, rounds, between);
      if ok {
        enabled := Some(targets);
      }
    }

    /** Sends the last acknowledged version to the targets. */
    method Seed(targets: set<Id>, answers: Id -> bool) returns (ok: bool, seeded: nat)
      requires Valid() && enabled.None?
      modifies this`heads
      ensures Valid() && seeded == latest
      ensures ok <==> AllAnswer(targets, answers)
      ensures ok ==> Holds(targets, seeded)
      ensures forall r :: old(Head(r)) <= Head(r)
    {
      seeded := latest;
      ok := Send(targets, seeded, answers);
      RisingHeadsKeep();
    }

    /**
     Replaces the session record. The swap may land although its reply is lost, and it counts as done
     if the record read back names the targets, whoever recorded them.
     */
    method Record(targets: set<Id>, swap: Swap, seeded: nat, ghost before: set<nat>) returns (ok: bool)
      requires Valid() && enabled.None? && targets != {} && Holds(targets, seeded)
      requires (forall v :: v in before ==> v <= seeded) && acknowledged - before <= bucket
      modifies this`recorded
      ensures Valid() && recorded == (if swap.landed then targets else old(recorded))
      ensures ok <==> recorded == targets && swap.confirmed
    {
      if swap.landed {
        recorded := targets;
        SeededSetIsSafe(before, seeded);
      }
      ok := recorded == targets && swap.confirmed;
    }

    /** Seeds again until the last acknowledged version is the seeded one. */
    method CatchUp(targets: set<Id>, first: nat, rounds: nat -> Id -> bool, between: nat -> seq<Attempt>)
        returns (ok: bool, n: nat)
      requires Valid() && enabled.None? && recorded == targets && Holds(targets, first) && AllAnswer(targets, rounds(0))
      modifies this`latest, this`heads, this`bucket, this`incoming, this`acknowledged
      ensures Valid() && old(acknowledged) <= acknowledged && n > 0
      ensures ok <==> AllRounds(targets, rounds, n)
      ensures ok ==> Holds(targets, latest)
    {
      var seeded: nat := first;
      n := 1;
      while latest != seeded
        invariant Valid() && enabled.None? && recorded == targets && Holds(targets, seeded)
        invariant old(acknowledged) <= acknowledged && n > 0 && AllRounds(targets, rounds, n)
        decreases |incoming|, latest != seeded
      {
        ok, seeded := SeedAgain(targets, rounds(n), between(n + 1));
        OneMoreRound(targets, rounds, n);
        n := n + 1;
        if !ok {
          return;
        }
      }
      ok := true;
    }

    /** One more round, and the writes that happen during it. */
    method SeedAgain(targets: set<Id>, answers: Id -> bool, attempts: seq<Attempt>) returns (ok: bool, seeded: nat)
      requires Valid() && enabled.None?
      modifies this`latest, this`heads, this`bucket, this`incoming, this`acknowledged
      ensures Valid() && seeded == old(latest) && old(acknowledged) <= acknowledged
      ensures ok <==> AllAnswer(targets, answers)
      ensures ok ==> Holds(targets, seeded)
      ensures |incoming| <= |old(incoming)| && (|incoming| == |old(incoming)| ==> latest == old(latest))
    {
      ok, seeded := Seed(targets, answers);
      label Seeded:
      Meanwhile(attempts);
      assert forall r :: r in targets && seeded <= old@Seeded(Head(r)) ==> seeded <= Head(r);
    }

    /** Recording a set that holds `seeded` is safe if everything acknowledged later is in the bucket. */
    lemma SeededSetIsSafe(before: set<nat>, seeded: nat)
      requires recorded != {} && Holds(recorded, seeded)
      requires forall v :: v in before ==> v <= seeded
      requires forall v :: v in acknowledged ==> v in before || v in bucket
      ensures Safe()
    {
    }
  }
}
