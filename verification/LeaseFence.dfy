/**
 The fence that ends a host's authority before its lease does. Times are milliseconds of the
 host's monotonic clock.
 */
module LeaseFence {
  import opened Names

  const SAFETY_MS: nat := 5000

  datatype State = State(deadline: Option<int>, fenced: bool)

  datatype Call =
    | Begin(now: int)
    | Confirm(now: int, started: int, duration: nat)
    | Check(now: int)
    | Unregister(now: int)

  function Window(duration: nat): nat {
    if duration < SAFETY_MS then 0 else duration - SAFETY_MS
  }

  /** The deadline has not passed, and no earlier lapse was seen. */
  predicate Alive(s: State, now: int) {
    !s.fenced && (s.deadline.Some? ==> now < s.deadline.value)
  }

  /** What a call does to the fence, and whether it succeeds. */
  function Step(s: State, call: Call): (State, bool) {
    var lapsed := s.(fenced := s.fenced || (s.deadline.Some? && s.deadline.value <= call.now));
    match call
    case Begin(now) => (lapsed, Alive(s, now))
    case Check(now) => if s.deadline.None? then (s, false) else (lapsed, Alive(s, now))
    case Confirm(now, started, duration) =>
      if !Alive(s, now) then (lapsed, false)
      else if started + Window(duration) <= now then (s.(fenced := true), false)
      else (s.(deadline := Some(started + Window(duration))), true)
    case Unregister(_) => (s.(fenced := true), true)
  }

  class Fence {
    var deadline: Option<int>
    var fenced: bool

    function Now(): State
      reads this
    {
      State(deadline, fenced)
    }

    constructor ()
      ensures Now() == State(None, false)
    {
      deadline, fenced := None, false;
    }

    method CheckAt(now: int) returns (ok: bool)
      modifies this
      ensures (Now(), ok) == Step(old(Now()), Check(now))
      ensures ok <==> old(deadline).Some? && now < old(deadline).value && !old(fenced)
    {
      if deadline.None? {
        return false;
      }
      if deadline.value <= now {
        fenced := true;
      }
      ok := !fenced;
    }

    method BeginAt(now: int) returns (ok: bool)
      modifies this
      ensures (Now(), ok) == Step(old(Now()), Begin(now))
      ensures ok <==> !old(fenced) && (old(deadline).Some? ==> now < old(deadline).value)
    {
      if deadline.Some? {
        var live := CheckAt(now);
        if !live {
          return false;
        }
      }
      ok := !fenced;
    }

    method ConfirmAt(started: int, duration: nat, now: int) returns (ok: bool)
      modifies this
      ensures (Now(), ok) == Step(old(Now()), Confirm(now, started, duration))
      ensures ok <==>
              && !old(fenced) && (old(deadline).Some? ==> now < old(deadline).value)
              && (now < started || now + 5000 < started + duration)
      ensures ok ==> deadline == Some(if duration < 5000 then started else started + duration - 5000)
      ensures !ok ==> deadline == old(deadline) && fenced
    {
      ok := BeginAt(now);
      if !ok {
        return;
      }
      var next := started + Window(duration);
      if next <= now {
        fenced := true;
        return false;
      }
      deadline := Some(next);
    }

    method UnregisterAt(now: int)
      modifies this
      ensures Now() == Step(old(Now()), Unregister(now)).0 && fenced && deadline == old(deadline)
    {
      fenced := true;
    }
  }

  // ---- Whole sequences of calls ----

  function After(s: State, calls: seq<Call>): State
    decreases |calls|
  {
    if calls == [] then s else After(Step(s, calls[0]).0, calls[1..])
  }

  function Fresh(): State {
    State(None, false)
  }

  /** Whether the i-th call succeeds. */
  predicate Succeeds(calls: seq<Call>, i: nat)
    requires i < |calls|
  {
    Step(After(Fresh(), calls[..i]), calls[i]).1
  }

  /** A successful call that shows authority: a check, or a confirmed registration. */
  predicate Authorized(calls: seq<Call>, i: nat)
    requires i < |calls|
  {
    Succeeds(calls, i) && (calls[i].Check? || calls[i].Confirm?)
  }

  lemma {:induction false} AfterSplit(s: State, calls: seq<Call>, more: seq<Call>)
    ensures After(s, calls + more) == After(After(s, calls), more)
    decreases |calls|
  {
    if calls == [] {
      assert calls + more == more;
    } else {
      assert (calls + more)[1..] == calls[1..] + more;
      AfterSplit(Step(s, calls[0]).0, calls[1..], more);
    }
  }

  lemma AfterNext(calls: seq<Call>, i: nat)
    requires i < |calls|
    ensures After(Fresh(), calls[..i + 1]) == Step(After(Fresh(), calls[..i]), calls[i]).0
  {
    assert calls[..i + 1] == calls[..i] + [calls[i]];
    AfterSplit(Fresh(), calls[..i], [calls[i]]);
    assert [calls[i]][1..] == [];
  }

  /** Once fenced, no begin, check or confirmation ever succeeds again. */
  lemma {:induction false} FencedForGood(calls: seq<Call>, i: nat, j: nat)
    requires i <= j < |calls| && After(Fresh(), calls[..i]).fenced
    ensures After(Fresh(), calls[..j]).fenced
    ensures !calls[j].Unregister? ==> !Succeeds(calls, j)
    decreases j
  {
    if i < j {
      FencedForGood(calls, i, j - 1);
      AfterNext(calls, j - 1);
    }
  }

  /** The deadline in force comes from the latest confirmation that succeeded. */
  lemma {:induction false} DeadlineSource(calls: seq<Call>, i: nat) returns (c: nat)
    requires i <= |calls| && After(Fresh(), calls[..i]).deadline.Some?
    ensures c < i && calls[c].Confirm? && Succeeds(calls, c)
    ensures After(Fresh(), calls[..i]).deadline == Some(calls[c].started + Window(calls[c].duration))
    ensures forall k :: c < k < i && calls[k].Confirm? ==> !Succeeds(calls, k)
  {
    if i == 0 {
      assert false;
    } else {
      AfterNext(calls, i - 1);
      if calls[i - 1].Confirm? && Succeeds(calls, i - 1) {
        c := i - 1;
      } else {
        c := DeadlineSource(calls, i - 1);
      }
    }
  }

  /** Authority is always backed: it lies before the safe end of the latest confirmed registration. */
  lemma AuthorityIsBacked(calls: seq<Call>, i: nat) returns (c: nat)
    requires i < |calls| && calls[i].Check? && Succeeds(calls, i)
    ensures c < i && calls[c].Confirm? && Succeeds(calls, c)
    ensures calls[i].now < calls[c].started || calls[i].now + 5000 < calls[c].started + calls[c].duration
    ensures forall k :: c < k < i && calls[k].Confirm? ==> !Succeeds(calls, k)
  {
    c := DeadlineSource(calls, i);
  }

  /** The end of the safe window of a confirmed registration. */
  function SafeEnd(call: Call): int
    requires call.Confirm?
  {
    if call.duration < 5000 then call.started else call.started + call.duration - 5000
  }

  /** A call that ends the authority with this deadline: unregistering, coming too late, or a response that does. */
  predicate Ends(call: Call, deadline: int) {
    || call.Unregister?
    || deadline <= call.now
    || (call.Confirm? && SafeEnd(call) <= call.now)
  }

  lemma {:induction false} FencedExactly(calls: seq<Call>, c: nat, i: nat)
    requires c < i <= |calls| && calls[c].Confirm? && Succeeds(calls, c)
    requires forall k :: c < k < i && calls[k].Confirm? ==> !Succeeds(calls, k)
    ensures After(Fresh(), calls[..i]).deadline == Some(SafeEnd(calls[c]))
    ensures After(Fresh(), calls[..i]).fenced <==> exists k :: c < k < i && Ends(calls[k], SafeEnd(calls[c]))
    decreases i
  {
    AfterNext(calls, i - 1);
    if c < i - 1 {
      FencedExactly(calls, c, i - 1);
    }
  }

  /**
   Over any sequence of calls: a check after a confirmed registration, the latest one, succeeds if
   and only if it comes before the safe end of the registration and nothing in between ended it.
   */
  lemma CheckSucceedsExactly(calls: seq<Call>, c: nat, i: nat)
    requires c < i < |calls| && calls[c].Confirm? && Succeeds(calls, c) && calls[i].Check?
    requires forall k :: c < k < i && calls[k].Confirm? ==> !Succeeds(calls, k)
    ensures Succeeds(calls, i) <==>
            calls[i].now < SafeEnd(calls[c]) && !(exists k :: c < k < i && Ends(calls[k], SafeEnd(calls[c])))
  {
    FencedExactly(calls, c, i);
  }

  /** A begin, check or confirmation that fails after authority was held fails for good. */
  lemma FailureIsFinal(calls: seq<Call>, i: nat, j: nat, k: nat)
    requires i < j < k < |calls| && Authorized(calls, i)
    requires !calls[j].Unregister? && !Succeeds(calls, j) && !calls[k].Unregister?
    ensures !Succeeds(calls, k)
  {
    DeadlineStays(calls, i, j);
    AfterNext(calls, j);
    FencedForGood(calls, j + 1, k);
  }

  lemma {:induction false} DeadlineStays(calls: seq<Call>, i: nat, j: nat)
    requires i < j <= |calls| && Authorized(calls, i)
    ensures After(Fresh(), calls[..j]).deadline.Some?
    decreases j
  {
    AfterNext(calls, j - 1);
    if i < j - 1 {
      DeadlineStays(calls, i, j - 1);
    }
  }

  /** Authority is one contiguous interval: between two authorized calls every check succeeds. */
  lemma AuthorityIsContiguous(calls: seq<Call>, i: nat, j: nat, k: nat)
    requires i < j < k < |calls| && Authorized(calls, i) && Authorized(calls, k)
    ensures calls[j].Check? || calls[j].Begin? || calls[j].Confirm? ==> Succeeds(calls, j)
    ensures !calls[j].Unregister?
  {
    if calls[j].Unregister? {
      AfterNext(calls, j);
      FencedForGood(calls, j + 1, k);
    } else if !Succeeds(calls, j) {
      FailureIsFinal(calls, i, j, k);
    }
  }

  /**
   While a check succeeds the stored lease has not expired, as long as the storage clock and the
   host clock drift apart by at most the safety margin between registration and check.
   */
  lemma AuthorityEndsBeforeLease(calls: seq<Call>, i: nat, storage: int -> int, issuedAt: int, c: nat)
    requires i < |calls| && calls[i].Check? && Succeeds(calls, i)
    requires c < i && calls[c].Confirm? && Succeeds(calls, c)
    requires forall k :: c < k < i && calls[k].Confirm? ==> !Succeeds(calls, k)
    requires calls[c].started <= issuedAt <= calls[i].now
    requires storage(calls[i].now) - storage(issuedAt) <= calls[i].now - issuedAt + SAFETY_MS
    ensures storage(calls[i].now) < storage(issuedAt) + calls[c].duration
  {
    var source := AuthorityIsBacked(calls, i);
    assert source == c;
  }
}
