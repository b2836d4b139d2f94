/** The driver between the host and the JavaScript executor: message IDs, replies and resident state. */
module ExecutorDriver {
  import opened Names

  type Actor = string

  const MAX_PENDING: nat := 64
  const MAX_RESIDENTS: nat := 4096

  datatype Kind = Hydrate | Invoke | SocketEvent(connecting: bool) | Evict

  /** One exchange with the executor. `residentOnly` asks it to use the state it already has. */
  datatype Command = Command(exchange: nat, actor: Actor, kind: Kind, residentOnly: bool, granted: bool)

  /** `Success` stands for hydrated, invoked and socket-handled replies, `Other` for the rest. */
  datatype Answer = StateRequired | Success | Other

  // ---- What happened, in order ----

  datatype Entry =
    | Handed(exchange: nat, actor: Actor)
    | Succeeded(actor: Actor)
    | Sent(messageId: nat, exchange: nat, actor: Actor, evicts: bool, stateOmitted: bool)
    | Replied(exchange: nat)

  /** An eviction never carries the state, anything else unless only the resident one is asked for. */
  function Message(id: nat, command: Command): Entry {
    Sent(id, command.exchange, command.actor, command.kind.Evict?, command.residentOnly || command.kind.Evict?)
  }

  function Sends(log: seq<Entry>, exchange: nat): nat {
    if log == [] then 0
    else
      var last := log[|log| - 1];
      Sends(log[..|log| - 1], exchange) + (if last.Sent? && last.exchange == exchange then 1 else 0)
  }

  function Replies(log: seq<Entry>, exchange: nat): nat {
    if log == [] then 0
    else
      var last := log[|log| - 1];
      Replies(log[..|log| - 1], exchange) + (if last == Replied(exchange) then 1 else 0)
  }

  /** The actor had a success reply after its last command was handed over. */
  predicate Confirmed(log: seq<Entry>, actor: Actor) {
    log != [] &&
    var last := log[|log| - 1];
    if last == Succeeded(actor) then true
    else if last.Handed? && last.actor == actor then false
    else Confirmed(log[..|log| - 1], actor)
  }

  lemma Push(log: seq<Entry>, entry: Entry)
    ensures forall e :: Sends(log + [entry], e) ==
                        Sends(log, e) + (if entry.Sent? && entry.exchange == e then 1 else 0)
    ensures forall e :: Replies(log + [entry], e) == Replies(log, e) + (if entry == Replied(e) then 1 else 0)
    ensures forall a :: Confirmed(log + [entry], a) ==
                        (entry == Succeeded(a) || (!(entry.Handed? && entry.actor == a) && Confirmed(log, a)))
  {
    assert (log + [entry])[..|log|] == log;
  }

  /** A send that leaves the state out, other than an eviction, follows the hand-over of a command for a confirmed actor. */
  predicate Justified(log: seq<Entry>, i: nat)
    requires i < |log|
  {
    log[i].Sent? && log[i].stateOmitted && !log[i].evicts ==>
      i > 0 && log[i - 1] == Handed(log[i].exchange, log[i].actor) && Confirmed(log[..i - 1], log[i].actor)
  }

  ghost predicate LogOk(log: seq<Entry>, nextMessageId: nat, exchanges: nat) {
    && (forall e :: Replies(log, e) <= 1 && Sends(log, e) <= 2)
    && (forall e :: e >= exchanges ==> Replies(log, e) == 0 && Sends(log, e) == 0)
    && (forall i :: 0 <= i < |log| && log[i].Sent? ==> log[i].messageId < nextMessageId)
    && (forall i, j :: 0 <= i < j < |log| && log[i].Sent? && log[j].Sent? ==> log[i].messageId < log[j].messageId)
    && (forall i :: 0 <= i < |log| ==> Justified(log, i))
  }

  /** Every pending exchange is unanswered and may still be sent at most twice in all. */
  ghost predicate PendingOk(pending: map<nat, Command>, log: seq<Entry>, nextMessageId: nat, exchanges: nat) {
    && (forall id :: id in pending ==>
          && id < nextMessageId
          && pending[id].exchange < exchanges
          && Replies(log, pending[id].exchange) == 0
          && Sends(log, pending[id].exchange) + (if pending[id].residentOnly then 1 else 0) <= 2)
    && (forall id, other :: id in pending && other in pending && id != other ==>
          pending[id].exchange != pending[other].exchange)
  }

  lemma {:induction false} KeepsJustified(log: seq<Entry>, entry: Entry, i: nat)
    requires i < |log| && Justified(log, i)
    ensures Justified(log + [entry], i)
  {
    assert (log + [entry])[i] == log[i];
    if i > 0 {
      assert (log + [entry])[i - 1] == log[i - 1];
      assert (log + [entry])[..i - 1] == log[..i - 1];
    }
  }

  lemma KeepsLog(log: seq<Entry>, nextMessageId: nat, exchanges: nat, entry: Entry, more: nat)
    requires LogOk(log, nextMessageId, exchanges) && !entry.Sent? && exchanges <= more
    requires entry.Replied? ==> entry.exchange < exchanges && Replies(log, entry.exchange) == 0
    ensures LogOk(log + [entry], nextMessageId, more)
  {
    Push(log, entry);
    var next := log + [entry];
    forall i | 0 <= i < |next| ensures Justified(next, i) {
      if i < |log| {
        KeepsJustified(log, entry, i);
      }
    }
  }

  /** The next send may follow: it is the exchange's first or second, and justified if it omits the state. */
  ghost predicate MaySend(log: seq<Entry>, command: Command, exchanges: nat) {
    && command.exchange < exchanges
    && Replies(log, command.exchange) == 0
    && Sends(log, command.exchange) + (if command.residentOnly then 1 else 0) <= 1
    && (command.residentOnly ==>
          && log != [] && log[|log| - 1] == Handed(command.exchange, command.actor)
          && Confirmed(log[..|log| - 1], command.actor))
  }

  lemma SendKeepsLog(log: seq<Entry>, nextMessageId: nat, exchanges: nat, command: Command)
    requires LogOk(log, nextMessageId, exchanges) && MaySend(log, command, exchanges)
    ensures LogOk(log + [Message(nextMessageId, command)], nextMessageId + 1, exchanges)
  {
    var entry := Message(nextMessageId, command);
    Push(log, entry);
    var next := log + [entry];
    forall i | 0 <= i < |next| ensures Justified(next, i) {
      if i < |log| {
        KeepsJustified(log, entry, i);
      } else if |log| > 0 {
        assert next[..i - 1] == log[..|log| - 1];
      }
    }
  }

  ghost predicate NotPending(pending: map<nat, Command>, exchange: nat) {
    forall id :: id in pending ==> pending[id].exchange != exchange
  }

  ghost predicate ResidentsOk(residents: set<Actor>, log: seq<Entry>) {
    forall a :: a in residents ==> Confirmed(log, a)
  }

  /** Logging anything but a send leaves the pending commands alone. */
  lemma KeepsPending(
      pending: map<nat, Command>, residents: set<Actor>, log: seq<Entry>, nextMessageId: nat, exchanges: nat, entry: Entry)
    requires PendingOk(pending, log, nextMessageId, exchanges) && ResidentsOk(residents, log) && !entry.Sent?
    requires entry.Replied? ==> NotPending(pending, entry.exchange)
    requires entry.Handed? ==> entry.actor !in residents
    ensures PendingOk(pending, log + [entry], nextMessageId, exchanges)
    ensures ResidentsOk(residents, log + [entry])
    ensures entry.Succeeded? ==> ResidentsOk({entry.actor}, log + [entry])
    ensures entry.Replied? ==> Replies(log + [entry], entry.exchange) == Replies(log, entry.exchange) + 1
    ensures entry.Handed? ==>
              && Replies(log + [entry], entry.exchange) == Replies(log, entry.exchange)
              && Sends(log + [entry], entry.exchange) == Sends(log, entry.exchange)
  {
    Push(log, entry);
  }

  lemma SendKeepsPending(
      pending: map<nat, Command>, residents: set<Actor>, log: seq<Entry>, id: nat, exchanges: nat, command: Command)
    requires PendingOk(pending, log, id, exchanges) && ResidentsOk(residents, log)
    requires MaySend(log, command, exchanges) && NotPending(pending, command.exchange)
    ensures var entry := Message(id, command);
            PendingOk(pending[id := command], log + [entry], id + 1, exchanges) && ResidentsOk(residents, log + [entry])
  {
    Push(log, Message(id, command));
  }

  class Driver {
    var pending: map<nat, Command>
    var residents: set<Actor>
    var nextMessageId: nat
    var publishing: set<nat>
    var lookups: set<nat>
    // The number of exchanges handed over so far.
    var exchanges: nat
    ghost var log: seq<Entry>

    ghost predicate Valid()
      reads this
    {
      && publishing <= pending.Keys
      && lookups <= pending.Keys
      && LogOk(log, nextMessageId, exchanges)
      && PendingOk(pending, log, nextMessageId, exchanges)
      && ResidentsOk(residents, log)
    }

    constructor ()
      ensures Valid() && log == [] && pending == map[]
    {
      pending, residents, nextMessageId := map[], {}, 1;
      publishing, lookups, exchanges, log := {}, {}, 0, [];
    }

    /** The one reply of an exchange. */
    ghost method Respond(exchange: nat)
      requires Valid() && exchange < exchanges && Replies(log, exchange) == 0 && NotPending(pending, exchange)
      modifies this`log
      ensures Valid() && log == old(log) + [Replied(exchange)] && Replies(log, exchange) == 1
    {
      KeepsPending(pending, residents, log, nextMessageId, exchanges, Replied(exchange));
      KeepsLog(log, nextMessageId, exchanges, Replied(exchange), exchanges);
      log := log + [Replied(exchange)];
    }

    method Transmit(command: Command)
      requires Valid() && MaySend(log, command, exchanges) && NotPending(pending, command.exchange)
      modifies this`pending, this`nextMessageId, this`log
      ensures Valid() && nextMessageId == old(nextMessageId) + 1
      ensures pending == old(pending)[old(nextMessageId) := command]
      ensures log == old(log) + [Message(old(nextMessageId), command)]
    {
      SendKeepsPending(pending, residents, log, nextMessageId, exchanges, command);
      SendKeepsLog(log, nextMessageId, exchanges, command);
      log := log + [Message(nextMessageId, command)];
      pending := pending[nextMessageId := command];
      nextMessageId := nextMessageId + 1;
    }

    method Refuse(command: Command)
      requires Valid() && MaySend(log, command, exchanges) && NotPending(pending, command.exchange)
      modifies this`nextMessageId, this`log
      ensures Valid() && nextMessageId == old(nextMessageId) + 1
      ensures log == old(log) + [Replied(command.exchange)] && Replies(log, command.exchange) == 1
    {
      nextMessageId := nextMessageId + 1;
      Respond(command.exchange);
    }

    /**
     Sends a command under a fresh message ID; one that cannot be encoded is answered instead. It
     fails only if the IDs run out or the writer does not accept the message.
     */
    method Enqueue(command: Command, encodes: bool, accepted: bool) returns (ok: bool)
      requires Valid() && MaySend(log, command, exchanges) && NotPending(pending, command.exchange)
      modifies this`pending, this`nextMessageId, this`log
      ensures Valid() && old(nextMessageId) <= nextMessageId
      ensures ok <==> old(nextMessageId) + 1 < U64_LIMIT && (encodes ==> accepted)
      ensures ok && encodes ==>
                && pending == old(pending)[old(nextMessageId) := command]
                && log == old(log) + [Message(old(nextMessageId), command)]
      ensures ok && !encodes ==>
                && pending == old(pending)
                && log == old(log) + [Replied(command.exchange)] && Replies(log, command.exchange) == 1
      ensures !ok ==> pending == old(pending) && log == old(log)
    {
      if nextMessageId + 1 >= U64_LIMIT {
        return false;
      }
      if !encodes {
        Refuse(command);
        return true;
      }
      if !accepted {
        return false;
      }
      Transmit(command);
      ok := true;
    }

    /** A new exchange; the actor counts as resident no longer until it succeeds again. */
    method HandOver(actor: Actor) returns (resident: bool)
      requires Valid()
      modifies this`residents, this`exchanges, this`log
      ensures Valid() && exchanges == old(exchanges) + 1 && residents == old(residents) - {actor}
      ensures log == old(log) + [Handed(old(exchanges), actor)]
      ensures Sends(log, old(exchanges)) == 0 == Replies(log, old(exchanges))
      ensures NotPending(pending, old(exchanges))
      ensures resident == (actor in old(residents)) && (resident ==> Confirmed(old(log), actor))
    {
      resident := actor in residents;
      residents := residents - {actor};
      KeepsPending(pending, residents, log, nextMessageId, exchanges, Handed(exchanges, actor));
      KeepsLog(log, nextMessageId, exchanges, Handed(exchanges, actor), exchanges + 1);
      log := log + [Handed(exchanges, actor)];
      exchanges := exchanges + 1;
    }

    /**
     Hands a command over. An invocation or socket event of a resident actor leaves the state out,
     which the executor has confirmed since; anything else carries it.
     */
    method HandleCommand(actor: Actor, kind: Kind, encodes: bool, accepted: bool) returns (ok: bool)
      requires Valid() && |pending| < MAX_PENDING
      modifies this
      ensures Valid() && exchanges == old(exchanges) + 1
      ensures |pending| <= MAX_PENDING && residents == old(residents) - {actor}
      ensures ok <==> old(nextMessageId) + 1 < U64_LIMIT && (encodes ==> accepted)
      ensures ok && encodes ==>
                && var omitted := (kind.Invoke? || kind.SocketEvent?) && actor in old(residents);
                && pending == old(pending)[old(nextMessageId) := Command(old(exchanges), actor, kind, omitted, false)]
                && log == old(log) + [Handed(old(exchanges), actor)] +
                          [Sent(old(nextMessageId), old(exchanges), actor, kind.Evict?, omitted || kind.Evict?)]
                && (omitted ==> Confirmed(old(log), actor))
      ensures ok && !encodes ==>
                && pending == old(pending) && log == old(log) + [Handed(old(exchanges), actor)] + [Replied(old(exchanges))]
      ensures !ok ==> pending == old(pending) && log == old(log) + [Handed(old(exchanges), actor)]
    {
      var exchange := exchanges;
      var resident := HandOver(actor);
      assert log[..|log| - 1] == old(log);
      var command := Command(exchange, actor, kind, resident && !kind.Evict? && !kind.Hydrate?, false);
      ok := Enqueue(command, encodes, accepted);
    }

    /** The actor lets the next invocation in, once per invocation. */
    method AllowNextInvocation(id: nat) returns (ok: bool)
      requires Valid()
      modifies this`pending
      ensures Valid()
      ensures ok <==>
              && id in old(pending) && !old(pending)[id].granted
              && (old(pending)[id].kind.Invoke? || old(pending)[id].kind.SocketEvent?)
      ensures pending == if ok then old(pending)[id := old(pending)[id].(granted := true)] else old(pending)
    {
      if id !in pending || pending[id].granted || !(pending[id].kind.Invoke? || pending[id].kind.SocketEvent?) {
        return false;
      }
      pending := pending[id := pending[id].(granted := true)];
      ok := true;
    }

    method StartPublication(id: nat) returns (ok: bool)
      requires Valid()
      modifies this`publishing
      ensures Valid()
      ensures ok <==> id in pending && id !in old(publishing)
      ensures publishing == if ok then old(publishing) + {id} else old(publishing)
    {
      ok := id in pending && id !in publishing;
      if ok {
        publishing := publishing + {id};
      }
    }

    method StartLookup(id: nat) returns (ok: bool)
      requires Valid()
      modifies this`lookups
      ensures Valid()
      ensures ok <==> id in pending && !pending[id].kind.Evict? && id !in old(lookups)
      ensures lookups == if ok then old(lookups) + {id} else old(lookups)
    {
      ok := id in pending && !pending[id].kind.Evict? && id !in lookups;
      if ok {
        lookups := lookups + {id};
      }
    }

    /** The acknowledgement of a publication goes to an invocation that is still pending. */
    method FinishPublication(id: nat)
      requires Valid() && id in publishing
      modifies this`publishing
      ensures Valid() && id in pending && publishing == old(publishing) - {id}
    {
      publishing := publishing - {id};
    }

    method FinishLookup(id: nat)
      requires Valid() && id in lookups
      modifies this`lookups
      ensures Valid() && id in pending && lookups == old(lookups) - {id}
    {
      lookups := lookups - {id};
    }

    /** The actor's state is resident once more; a full set starts afresh. */
    static function Joined(residents: set<Actor>, actor: Actor): set<Actor> {
      (if |residents| >= MAX_RESIDENTS then {} else residents) + {actor}
    }

    /**
     Takes a reply. Work still in flight for the message, or a message that is not pending, ends
     the connection. A resident-only command that lacks its state is sent once more, with it. Only a
     success makes the actor resident.
     */
    method Deliver(id: nat, answer: Answer, encodes: bool, accepted: bool) returns (ok: bool)
      requires Valid()
      modifies this
      ensures Valid() && publishing == old(publishing) && lookups == old(lookups)
      ensures ok <==>
              && id in old(pending) && id !in old(publishing) && id !in old(lookups)
              && (answer.StateRequired? && old(pending)[id].residentOnly ==>
                    old(nextMessageId) + 1 < U64_LIMIT && (encodes ==> accepted))
      ensures !(id in old(pending) && id !in old(publishing) && id !in old(lookups)) ==>
                pending == old(pending) && residents == old(residents) && log == old(log)
      ensures ok && answer.Success? ==>
                && var done := old(pending)[id];
                && pending == old(pending) - {id} && residents == Joined(old(residents), done.actor)
                && log == old(log) + [Succeeded(done.actor)] + [Replied(done.exchange)] && Replies(log, done.exchange) == 1
      ensures !answer.Success? ==> residents == old(residents)
      ensures ok && !answer.Success? && !(answer.StateRequired? && old(pending)[id].residentOnly) ==>
                && var done := old(pending)[id];
                && pending == old(pending) - {id}
                && log == old(log) + [Replied(done.exchange)] && Replies(log, done.exchange) == 1
      ensures ok && answer.StateRequired? && old(pending)[id].residentOnly ==>
                && var again := old(pending)[id].(residentOnly := false);
                if encodes
                then && pending == (old(pending) - {id})[old(nextMessageId) := again]
                     && log == old(log) + [Sent(old(nextMessageId), again.exchange, again.actor, again.kind.Evict?, again.kind.Evict?)]
                else pending == old(pending) - {id} && log == old(log) + [Replied(again.exchange)]
    {
      if id in lookups || id in publishing || id !in pending {
        return false;
      }
      var command := pending[id];
      pending := pending - {id};
      if answer.StateRequired? && command.residentOnly {
        ok := Enqueue(command.(residentOnly := false), encodes, accepted);
        return;
      }
      if answer.Success? {
        Confirm(command.actor);
      }
      Respond(command.exchange);
      ok := true;
    }

    method Confirm(actor: Actor)
      requires Valid()
      modifies this`residents, this`log
      ensures Valid() && residents == Joined(old(residents), actor) && log == old(log) + [Succeeded(actor)]
      ensures forall e :: Replies(log, e) == Replies(old(log), e)
    {
      Push(log, Succeeded(actor));
      KeepsPending(pending, residents, log, nextMessageId, exchanges, Succeeded(actor));
      KeepsLog(log, nextMessageId, exchanges, Succeeded(actor), exchanges);
      if |residents| >= MAX_RESIDENTS {
        residents := {};
      }
      residents := residents + {actor};
      log := log + [Succeeded(actor)];
    }
  }
}
