/** The host's dispatcher for its one actor: admission, completion, task failure and draining. */
module HostDispatcher {
  import opened Names

  const MAX_ADMITTED: nat := 33

  type Actor = string
  type Request = nat

  datatype Mailbox = Mailbox(admitted: nat, resident: bool)

  /** What a request is answered with when it is not admitted. */
  datatype Refusal = HostUnavailable | Invalid | Reroute

  /** The waiters whose caller is still there, in order. */
  function Open(waiters: seq<nat>, closed: set<nat>): (open: seq<nat>)
    ensures forall w :: w in open <==> w in waiters && w !in closed
  {
    if waiters == [] then []
    else (if waiters[0] in closed then [] else [waiters[0]]) + Open(waiters[1..], closed)
  }

  class Dispatcher {
    var identity: Option<Actor>
    var mailbox: Option<Mailbox>
    var active: nat
    var accepting: bool
    var stopped: bool
    var waiters: seq<nat>
    // Whether the actor task still takes requests, which ends before its end is noticed.
    var taskAlive: bool
    // Admitted requests that count as active, those whose task ended first, and released drains.
    ghost var inFlight: set<Request>
    ghost var orphaned: set<Request>
    ghost var released: seq<nat>

    ghost predicate Valid()
      reads this
    {
      && active == |inFlight| <= MAX_ADMITTED
      && active == (if mailbox.Some? then mailbox.value.admitted else 0)
      && (mailbox.Some? ==> identity.Some?)
      && (stopped ==> inFlight == {} && !taskAlive)
      && (orphaned != {} ==> stopped)
      && inFlight !! orphaned
      && (waiters != [] ==> active > 0)
    }

    /** Everything admitted is still owed an answer; waiters are released only when nothing is active. */
    twostate predicate Waits()
      reads this
    {
      && old(released) <= released
      && (released != old(released) ==> active == 0 && inFlight == {})
      && (old(identity).Some? ==> identity == old(identity))
    }

    constructor ()
      ensures Valid() && active == 0 && accepting && inFlight == {} && identity.None?
    {
      identity, mailbox, active, accepting, stopped := None, None, 0, true, false;
      waiters, taskAlive, inFlight, orphaned, released := [], true, {}, {}, [];
    }

    /** With nothing active every drain waiter is released. */
    method PublishActivity()
      requires active == |inFlight|
      modifies this`waiters, this`released
      ensures if active == 0 then waiters == [] && released == old(released) + old(waiters)
              else waiters == old(waiters) && released == old(released)
    {
      if active == 0 {
        released := released + waiters;
        waiters := [];
      }
    }

    /** A request is either admitted, and then active, or answered at once. */
    method Admit(request: Request, actor: Actor, disconnect: bool, wellFormed: bool, delivered: bool)
        returns (refusal: Option<Refusal>)
      requires Valid() && request !in inFlight + orphaned
      modifies this`identity, this`mailbox, this`active, this`waiters, this`inFlight, this`released
      ensures Valid() && Waits() && orphaned == old(orphaned)
      ensures inFlight == if refusal.None? then old(inFlight) + {request} else old(inFlight)
      ensures refusal.None? <==>
              && (accepting || disconnect) && wellFormed
              && (old(identity).None? || old(identity) == Some(actor))
              && |old(inFlight)| < 33 && delivered && taskAlive
    {
      if !accepting && !disconnect {
        return Some(HostUnavailable);
      }
      if !wellFormed {
        return Some(Invalid);
      }
      if identity.Some? && identity.value != actor {
        return Some(Reroute);
      }
      identity := Some(actor);
      if mailbox.None? {
        mailbox := Some(Mailbox(0, false));
      }
      if mailbox.value.admitted >= MAX_ADMITTED || !delivered || !taskAlive {
        return Some(HostUnavailable);
      }
      Count(request);
      refusal := None;
    }

    method Count(request: Request)
      requires Valid() && mailbox.Some? && active < MAX_ADMITTED && taskAlive && request !in inFlight + orphaned
      modifies this`mailbox, this`active, this`waiters, this`inFlight, this`released
      ensures Valid() && mailbox.Some? && inFlight == old(inFlight) + {request} && released == old(released)
    {
      mailbox := Some(Mailbox(mailbox.value.admitted + 1, true));
      active := active + 1;
      inFlight := inFlight + {request};
      PublishActivity();
    }

    /**
     The actor task finished a request. Only the count says whether it is still active: a request
     whose task has ended was released before, and then nothing else can be active.
     */
    method Complete(request: Request)
      requires Valid() && mailbox.Some? && request in inFlight + orphaned
      modifies this`mailbox, this`active, this`waiters, this`inFlight, this`orphaned, this`released
      ensures Valid() && Waits()
      ensures inFlight == old(inFlight) - {request} && orphaned == old(orphaned) - {request}
    {
      if mailbox.value.admitted > 0 {
        mailbox := Some(mailbox.value.(admitted := mailbox.value.admitted - 1));
        active := active - 1;
      }
      inFlight, orphaned := inFlight - {request}, orphaned - {request};
      PublishActivity();
    }

    /** The actor task stops taking requests; its end is noticed later. */
    method TaskEnds()
      requires Valid()
      modifies this`taskAlive
      ensures Valid() && !taskAlive
    {
      taskAlive := false;
    }

    /** The end of the actor task releases what it had admitted, and with it every drain. */
    method TaskStopped()
      requires Valid() && mailbox.Some? && !taskAlive
      modifies this`mailbox, this`active, this`waiters, this`inFlight, this`orphaned, this`released, this`stopped
      ensures Valid() && Waits() && stopped && waiters == []
      ensures inFlight == {} && orphaned == old(orphaned + inFlight)
    {
      active := active - mailbox.value.admitted;
      mailbox := Some(mailbox.value.(admitted := 0));
      inFlight, orphaned := {}, orphaned + inFlight;
      stopped := true;
      PublishActivity();
    }

    /** Waiters whose caller went away are forgotten; every other one waits on or is released now. */
    method Drain(waiter: nat, closed: set<nat>)
      requires Valid()
      modifies this`accepting, this`waiters, this`released
      ensures Valid() && Waits() && !accepting
      ensures active > 0 ==> waiters == Open(old(waiters), closed) + [waiter] && released == old(released)
      ensures active == 0 ==> waiters == [] && released == old(released) + [waiter]
    {
      accepting := false;
      waiters := Open(waiters, closed) + [waiter];
      PublishActivity();
    }

    /** An idle actor leaves the executor; a busy one stays. */
    method EvictIdle(idle: bool, evicted: bool) returns (ok: bool)
      requires Valid()
      modifies this`mailbox, this`waiters, this`released
      ensures Valid() && Waits() && inFlight == old(inFlight)
      ensures mailbox != old(mailbox) ==> inFlight == {} && old(mailbox).Some? && mailbox == Some(old(mailbox).value.(resident := false))
    {
      if active != 0 || !idle || mailbox.None? || !mailbox.value.resident {
        return true;
      }
      if !evicted {
        return false;
      }
      mailbox := Some(mailbox.value.(resident := false));
      PublishActivity();
      ok := true;
    }
  }
}
