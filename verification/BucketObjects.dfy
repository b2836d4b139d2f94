/**
 One bucket object under concurrent compare-and-swap. A request may be delivered late, more than
 once or never, and its reply may be lost; `replace` then settles the outcome by reading back.
 */
module BucketObjects {
  import opened Names

  type Content = string

  /** One conditional write: it applies only at the generation it expects, 0 for an absent object. */
  datatype Put = Put(caller: nat, expected: nat, content: Content)

  /** The writes applied so far are the object's generations; `confirmed` calls returned true. */
  datatype Object = Object(applied: seq<Put>, requests: map<nat, Put>, confirmed: set<nat>)

  const Empty := Object([], map[], {})

  datatype Event = Request(put: Put) | Deliver(caller: nat) | Confirm(caller: nat)

  predicate Current(o: Object, content: Content) {
    o.applied != [] && o.applied[|o.applied| - 1].content == content
  }

  predicate Enabled(o: Object, ev: Event) {
    match ev
    case Request(put) => put.caller !in o.requests
    case Deliver(caller) => caller in o.requests
    case Confirm(caller) =>
      // The reply said so, or the object read back holds the same bytes.
      caller in o.requests && (o.requests[caller] in o.applied || Current(o, o.requests[caller].content))
  }

  function Apply(o: Object, ev: Event): Object
    requires Enabled(o, ev)
  {
    match ev
    case Request(put) => o.(requests := o.requests[put.caller := put])
    case Deliver(caller) =>
      if o.requests[caller].expected == |o.applied| then o.(applied := o.applied + [o.requests[caller]]) else o
    case Confirm(caller) => o.(confirmed := o.confirmed + {caller})
  }

  predicate CanRun(o: Object, events: seq<Event>)
    decreases |events|
  {
    events == [] || (Enabled(o, events[0]) && CanRun(Apply(o, events[0]), events[1..]))
  }

  function Run(o: Object, events: seq<Event>): Object
    requires CanRun(o, events)
    decreases |events|
  {
    if events == [] then o else Run(Apply(o, events[0]), events[1..])
  }

  predicate Stored(o: Object, content: Content) {
    exists k :: 0 <= k < |o.applied| && o.applied[k].content == content
  }

  ghost predicate Inv(o: Object) {
    && (forall k :: 0 <= k < |o.applied| ==>
          && o.applied[k].expected == k
          && o.applied[k].caller in o.requests && o.requests[o.applied[k].caller] == o.applied[k])
    && (forall c :: c in o.requests ==> o.requests[c].caller == c)
    && (forall c :: c in o.confirmed ==> c in o.requests && Stored(o, o.requests[c].content))
  }

  lemma EventKeepsInv(o: Object, ev: Event)
    requires Inv(o) && Enabled(o, ev)
    ensures Inv(Apply(o, ev)) && o.applied <= Apply(o, ev).applied
    ensures forall c :: c in o.requests ==> c in Apply(o, ev).requests && Apply(o, ev).requests[c] == o.requests[c]
  {
  }

  /** Over any run: generations are only added, and calls that returned true stored their bytes. */
  lemma {:induction false} RunKeepsInv(o: Object, events: seq<Event>)
    requires Inv(o) && CanRun(o, events)
    ensures Inv(Run(o, events)) && o.applied <= Run(o, events).applied
    ensures forall c :: c in o.requests ==> c in Run(o, events).requests && Run(o, events).requests[c] == o.requests[c]
    decreases |events|
  {
    if events != [] {
      EventKeepsInv(o, events[0]);
      RunKeepsInv(Apply(o, events[0]), events[1..]);
    }
  }

  /** No two calls write the same bytes. */
  ghost predicate DistinctContents(o: Object) {
    forall c, d :: c in o.requests && d in o.requests && o.requests[c].content == o.requests[d].content ==> c == d
  }

  /**
   Bytes that no other call writes make `replace` exact: a call that returned true applied its
   own write at the generation it expected, so no other call won that generation.
   */
  lemma DistinctContentsExclude(o: Object, c: nat, d: nat)
    requires Inv(o) && DistinctContents(o) && c in o.confirmed
    ensures o.requests[c].expected < |o.applied| && o.applied[o.requests[c].expected] == o.requests[c]
    ensures d in o.confirmed && o.requests[d].expected == o.requests[c].expected ==> d == c
  {
  }

  lemma AppliedOnce(o: Object)
    requires Inv(o) && forall c :: c in o.requests ==> o.requests[c].expected == 0
    ensures |o.applied| <= 1
  {
    if o.applied != [] {
      var last := o.applied[|o.applied| - 1];
      assert o.requests[last.caller] == last;
    }
  }

  /**
   An object that is only ever created, never replaced, is written once: all calls that returned
   true wrote the same bytes, and those are what it holds from then on.
   */
  lemma WriteOnce(events: seq<Event>, more: seq<Event>, c: nat)
    requires CanRun(Empty, events) && CanRun(Run(Empty, events), more)
    requires forall d :: d in Run(Run(Empty, events), more).requests ==>
               Run(Run(Empty, events), more).requests[d].expected == 0
    requires c in Run(Empty, events).confirmed
    ensures var (done, later) := (Run(Empty, events), Run(Run(Empty, events), more));
            && c in done.requests
            && |later.applied| == 1 && later.applied[0].content == done.requests[c].content
            && Current(later, done.requests[c].content)
  {
    RunKeepsInv(Empty, events);
    RunKeepsInv(Run(Empty, events), more);
    var later := Run(Run(Empty, events), more);
    AppliedOnce(later);
  }

  /**
   For such an object an identical retry is never blocked: once the bytes are stored, by whomever,
   every call that writes the same bytes can be confirmed at any later time.
   */
  lemma IdenticalRetryConfirms(o: Object, events: seq<Event>, c: nat)
    requires Inv(o) && CanRun(o, events) && o.applied != []
    requires forall d :: d in Run(o, events).requests ==> Run(o, events).requests[d].expected == 0
    requires c in Run(o, events).requests && Run(o, events).requests[c].content == o.applied[0].content
    ensures Enabled(Run(o, events), Confirm(c))
    ensures c in Apply(Run(o, events), Confirm(c)).confirmed && Current(Run(o, events), o.applied[0].content)
  {
    RunKeepsInv(o, events);
    AppliedOnce(Run(o, events));
  }

  /** With equal bytes two calls can both return true for the one generation they expected. */
  lemma EqualBytesConfirmTwice() returns (events: seq<Event>)
    ensures CanRun(Empty, events)
    ensures var same := Put(1, 0, "same");
            Run(Empty, events) == Object([same], map[1 := same, 2 := same.(caller := 2)], {1, 2})
  {
    var same := Put(1, 0, "same");
    var asked := map[1 := same, 2 := same.(caller := 2)];
    var o := Object([same], asked, {1, 2});
    assert Apply(Object([same], asked, {1}), Confirm(2)) == o;
    events := Prepend(Object([same], asked, {1}), Confirm(2), []);
    assert Apply(Object([same], asked, {}), Confirm(1)) == Object([same], asked, {1});
    events := Prepend(Object([same], asked, {}), Confirm(1), events);
    assert Apply(Object([], asked, {}), Deliver(1)) == Object([same], asked, {});
    events := Prepend(Object([], asked, {}), Deliver(1), events);
    assert Apply(Object([], map[1 := same], {}), Request(same.(caller := 2))) == Object([], asked, {});
    events := Prepend(Object([], map[1 := same], {}), Request(same.(caller := 2)), events);
    events := Prepend(Empty, Request(same), events);
  }

  lemma Prepend(o: Object, ev: Event, rest: seq<Event>) returns (events: seq<Event>)
    requires Enabled(o, ev) && CanRun(Apply(o, ev), rest)
    ensures CanRun(o, events) && Run(o, events) == Run(Apply(o, ev), rest)
  {
    events := [ev] + rest;
    assert events[1..] == rest;
  }
}
