/** The sockets of one actor: bounded output channels and committed-state messages. */
module Sockets {
  import opened Names

  const CHANNEL_CAPACITY: nat := 32
  const MAX_CONNECTIONS: nat := 128

  /** `Snapshot` and `Update` carry the committed version; `Overflow` is the close with code 1013. */
  datatype Out = Message(text: string) | Snapshot(version: nat) | Update(version: nat) | Close(code: nat) | Overflow

  // ---- One channel ----

  /** `sent` is everything ever offered to the channel, `received` everything `recv` returned. */
  datatype Channel = Channel(queue: seq<Out>, overflow: bool, sent: seq<Out>, received: seq<Out>)

  const NewChannel := Channel([], false, [], [])

  /** A full queue drops the message and marks the channel. */
  function Send(c: Channel, m: Out): Channel {
    if |c.queue| < CHANNEL_CAPACITY then c.(queue := c.queue + [m], sent := c.sent + [m])
    else c.(overflow := true, sent := c.sent + [m])
  }

  /** The mark wins over whatever is queued; an empty queue has nothing to give. */
  function Receive(c: Channel): Channel {
    if c.overflow then c.(received := c.received + [Overflow])
    else if c.queue == [] then c
    else c.(queue := c.queue[1..], received := c.received + [c.queue[0]])
  }

  function Repeat(m: Out, n: nat): seq<Out> {
    seq(n, _ => m)
  }

  /** `k` messages were passed on in order; what follows is only the overflow close. */
  ghost predicate Passed(c: Channel, k: nat) {
    && k <= |c.sent| && k <= |c.received|
    && c.received == c.sent[..k] + Repeat(Overflow, |c.received| - k)
    && c.queue <= c.sent[k..]
    && (if c.overflow then |c.queue| == CHANNEL_CAPACITY else k == |c.received| && c.queue == c.sent[k..])
  }

  ghost predicate ChannelOk(c: Channel) {
    && |c.queue| <= CHANNEL_CAPACITY
    && exists k: nat :: Passed(c, k)
  }

  lemma SendKeepsChannel(c: Channel, m: Out)
    requires ChannelOk(c)
    ensures ChannelOk(Send(c, m))
  {
    var k: nat :| Passed(c, k);
    var next := Send(c, m);
    assert next.sent[..k] == c.sent[..k];
    assert next.sent[k..] == c.sent[k..] + [m];
    assert Passed(next, k);
  }

  lemma ReceiveKeepsChannel(c: Channel)
    requires ChannelOk(c)
    ensures ChannelOk(Receive(c))
  {
    var k: nat :| Passed(c, k);
    var next := Receive(c);
    if c.overflow {
      assert Repeat(Overflow, |c.received| - k) + [Overflow] == Repeat(Overflow, |next.received| - k);
      assert Passed(next, k);
    } else if c.queue == [] {
      assert Passed(next, k);
    } else {
      assert c.sent[k] == c.queue[0];
      assert c.sent[..k + 1] == c.sent[..k] + [c.queue[0]];
      assert c.sent[k + 1..] == c.queue[1..];
      assert Passed(next, k + 1);
    }
  }

  datatype Op = Offer(m: Out) | Take

  function Run(c: Channel, ops: seq<Op>): Channel
    decreases |ops|
  {
    if ops == [] then c
    else Run(if ops[0].Offer? then Send(c, ops[0].m) else Receive(c), ops[1..])
  }

  lemma {:induction false} RunKeepsChannel(c: Channel, ops: seq<Op>)
    requires ChannelOk(c)
    ensures ChannelOk(Run(c, ops))
    decreases |ops|
  {
    if ops != [] {
      if ops[0].Offer? {
        SendKeepsChannel(c, ops[0].m);
      } else {
        ReceiveKeepsChannel(c);
      }
      RunKeepsChannel(if ops[0].Offer? then Send(c, ops[0].m) else Receive(c), ops[1..]);
    }
  }

  /**
   Whatever is sent and received in whatever order, a socket receives a gap-free prefix of what
   was sent to it, and after that nothing but the overflow close.
   */
  lemma ReceivedIsPrefix(ops: seq<Op>) returns (k: nat)
    ensures var c := Run(NewChannel, ops);
            k <= |c.sent| && k <= |c.received| && c.received == c.sent[..k] + Repeat(Overflow, |c.received| - k)
  {
    assert Passed(NewChannel, 0);
    RunKeepsChannel(NewChannel, ops);
    k :| Passed(Run(NewChannel, ops), k);
  }

  /** Without an overflow nothing sent is lost: it was received or is queued, in order. */
  ghost predicate Lossless(c: Channel) {
    !c.overflow ==> c.received + c.queue == c.sent
  }

  function Drained(c: Channel, n: nat): Channel
    decreases n
  {
    if n == 0 then c else Drained(Receive(c), n - 1)
  }

  /** Receiving as often as there are messages queued receives all that was sent. */
  lemma {:induction false} DrainingReceivesAll(c: Channel)
    requires Lossless(c) && !c.overflow
    ensures Drained(c, |c.queue|).received == c.sent
    decreases |c.queue|
  {
    if c.queue != [] {
      var next := Receive(c);
      assert next.received + next.queue == c.sent;
      DrainingReceivesAll(next);
    }
  }

  lemma {:induction false} RunIsLossless(c: Channel, ops: seq<Op>)
    requires Lossless(c)
    ensures Lossless(Run(c, ops))
    decreases |ops|
  {
    if ops != [] {
      var next := if ops[0].Offer? then Send(c, ops[0].m) else Receive(c);
      if !next.overflow {
        assert next.received + next.queue == next.sent;
      }
      RunIsLossless(next, ops[1..]);
    }
  }

  /**
   Over any run: a socket that never fell 32 messages behind receives, once it catches up, exactly
   what was sent; one that did is told to close at its next receive.
   */
  lemma EverythingArrivesOrCloses(ops: seq<Op>)
    ensures var c := Run(NewChannel, ops);
            && (!c.overflow ==> Drained(c, |c.queue|).received == c.sent)
            && (c.overflow ==> Receive(c).received == c.received + [Overflow] && |c.queue| == 32)
  {
    RunIsLossless(NewChannel, ops);
    assert Passed(NewChannel, 0);
    RunKeepsChannel(NewChannel, ops);
    var c := Run(NewChannel, ops);
    var k: nat :| Passed(c, k);
    if !c.overflow {
      DrainingReceivesAll(c);
    }
  }

  // ---- Committed-state messages ----

  predicate IsState(m: Out) {
    m.Snapshot? || m.Update?
  }

  /** Updates come only after a snapshot. */
  predicate SnapshotFirst(sent: seq<Out>) {
    forall i :: 0 <= i < |sent| && sent[i].Update? ==> exists j :: 0 <= j < i && sent[j].Snapshot?
  }

  predicate Ascending(sent: seq<Out>) {
    forall i, j :: 0 <= i < j < |sent| && IsState(sent[i]) && IsState(sent[j]) ==> sent[i].version <= sent[j].version
  }

  /** No state message in `sent` has a later version. */
  predicate NotAbove(sent: seq<Out>, version: nat) {
    forall i :: 0 <= i < |sent| && IsState(sent[i]) ==> sent[i].version <= version
  }

  datatype Socket = Socket(open: bool, stateReady: bool, tags: set<string>, channel: Channel)

  ghost predicate SocketOk(s: Socket) {
    && ChannelOk(s.channel)
    && SnapshotFirst(s.channel.sent)
    && (s.stateReady <==> HasSnapshot(s.channel.sent))
  }

  function SendTo(s: Socket, m: Out): Socket {
    s.(channel := Send(s.channel, m), stateReady := s.stateReady || m.Snapshot?)
  }

  lemma AscendingPush(sent: seq<Out>, m: Out)
    ensures Ascending(sent + [m]) <==> Ascending(sent) && (IsState(m) ==> NotAbove(sent, m.version))
  {
    var after := sent + [m];
    assert after[|sent|] == m;
    if Ascending(after) {
      forall i, j | 0 <= i < j < |sent| && IsState(sent[i]) && IsState(sent[j])
        ensures sent[i].version <= sent[j].version
      {
        assert after[i] == sent[i] && after[j] == sent[j];
      }
      if IsState(m) {
        forall i | 0 <= i < |sent| && IsState(sent[i]) ensures sent[i].version <= m.version {
          assert after[i] == sent[i];
        }
      }
    }
  }

  lemma NotAbovePush(sent: seq<Out>, m: Out, version: nat)
    requires NotAbove(sent, version) && (IsState(m) ==> m.version <= version)
    ensures NotAbove(sent + [m], version)
  {
  }

  predicate HasSnapshot(sent: seq<Out>) {
    exists i :: 0 <= i < |sent| && sent[i].Snapshot?
  }

  lemma SnapshotPush(sent: seq<Out>, m: Out)
    requires SnapshotFirst(sent) && (m.Update? ==> HasSnapshot(sent))
    ensures SnapshotFirst(sent + [m]) && (HasSnapshot(sent + [m]) <==> HasSnapshot(sent) || m.Snapshot?)
  {
    var after := sent + [m];
    assert after[|sent|] == m;
    if i :| 0 <= i < |sent| && sent[i].Snapshot? {
      assert after[i].Snapshot?;
    }
    forall i | 0 <= i < |after| && after[i].Update? ensures exists j :: 0 <= j < i && after[j].Snapshot? {
      if i < |sent| {
        assert sent[i].Update?;
        var j :| 0 <= j < i && sent[j].Snapshot?;
        assert after[j].Snapshot?;
      }
    }
  }

  lemma SendKeepsSocket(s: Socket, m: Out)
    requires SocketOk(s) && (m.Update? ==> s.stateReady)
    ensures SocketOk(SendTo(s, m))
    ensures Ascending(SendTo(s, m).channel.sent) <==>
            Ascending(s.channel.sent) && (IsState(m) ==> NotAbove(s.channel.sent, m.version))
  {
    SendKeepsChannel(s.channel, m);
    SnapshotPush(s.channel.sent, m);
    AscendingPush(s.channel.sent, m);
  }

  /** What a socket received of the committed state starts with a snapshot and never goes back. */
  lemma ReceivedStateIsOrdered(s: Socket)
    requires SocketOk(s) && Ascending(s.channel.sent)
    ensures SnapshotFirst(s.channel.received) && Ascending(s.channel.received)
  {
    var (sent, received) := (s.channel.sent, s.channel.received);
    var k: nat :| Passed(s.channel, k);
    assert forall i :: 0 <= i < |received| ==> received[i] == if i < k then sent[i] else Overflow;
    forall i | 0 <= i < |received| && received[i].Update? ensures exists j :: 0 <= j < i && received[j].Snapshot? {
      assert sent[i].Update?;
      var j :| 0 <= j < i && sent[j].Snapshot?;
      assert received[j].Snapshot?;
    }
  }

  // ---- The connections of one actor ----

  type Connections = map<string, Socket>

  datatype Effect =
    | StateSnapshot(id: string, version: Option<nat>)
    | StateUpdate(except: set<string>, version: Option<nat>)
    | Broadcast(text: string, except: set<string>, tags: set<string>, matchAll: bool)
    | SendOne(id: string, text: string)
    | CloseOne(id: string, code: nat)
  {
    predicate CarriesState() {
      StateSnapshot? || StateUpdate?
    }
  }

  function MessageOf(effect: Effect): Out
    requires effect.CarriesState() ==> effect.version.Some?
  {
    match effect
    case StateSnapshot(_, version) => Snapshot(version.value)
    case StateUpdate(_, version) => Update(version.value)
    case Broadcast(text, _, _, _) => Message(text)
    case SendOne(_, text) => Message(text)
    case CloseOne(_, code) => Close(code)
  }

  /** The sockets an effect goes to; a state effect without a version goes nowhere. */
  function Recipients(sockets: Connections, effect: Effect): (ids: set<string>)
    ensures ids <= sockets.Keys
    ensures ids != {} && effect.CarriesState() ==> effect.version.Some?
    ensures effect.StateUpdate? ==> forall id :: id in ids ==> sockets[id].stateReady
  {
    match effect
    case StateSnapshot(id, version) => if version.Some? && id in sockets then {id} else {}
    case StateUpdate(except, version) =>
      set id | id in sockets && version.Some? && sockets[id].stateReady && id !in except
    case Broadcast(_, except, tags, matchAll) =>
      set id | id in sockets && sockets[id].open && id !in except &&
               (tags == {} || (if matchAll then tags <= sockets[id].tags else tags * sockets[id].tags != {}))
    case SendOne(id, _) => if id in sockets then {id} else {}
    case CloseOne(id, _) => if id in sockets then {id} else {}
  }

  /** Whether the socket with this ID is a recipient. */
  predicate Gets(s: Socket, id: string, effect: Effect) {
    match effect
    case StateSnapshot(to, version) => id == to && version != None
    case StateUpdate(except, version) => version != None && s.stateReady && !(id in except)
    case Broadcast(_, except, tags, matchAll) =>
      && s.open && !(id in except)
      && (|| tags == {}
          || (matchAll && forall tag :: tag in tags ==> tag in s.tags)
          || (!matchAll && exists tag :: tag in tags && tag in s.tags))
    case SendOne(to, _) => id == to
    case CloseOne(to, _) => id == to
  }

  /** What a recipient is sent. */
  function Carried(effect: Effect): Out {
    match effect
    case StateSnapshot(_, version) => Snapshot(if version.Some? then version.value else 0)
    case StateUpdate(_, version) => Update(if version.Some? then version.value else 0)
    case Broadcast(text, _, _, _) => Message(text)
    case SendOne(_, text) => Message(text)
    case CloseOne(_, code) => Close(code)
  }

  /** The messages were offered to the channel, a snapshot makes the state ready, and nothing else changed. */
  predicate Offered(before: Socket, after: Socket, messages: seq<Out>) {
    && after.channel.sent == before.channel.sent + messages
    && after.channel.received == before.channel.received
    && after.open == before.open && after.tags == before.tags
    && (after.stateReady <==> before.stateReady || exists m :: m in messages && m.Snapshot?)
  }

  lemma GetsIsRecipient(sockets: Connections, effect: Effect, id: string)
    requires id in sockets
    ensures id in Recipients(sockets, effect) <==> Gets(sockets[id], id, effect)
    ensures id in Recipients(sockets, effect) ==> MessageOf(effect) == Carried(effect)
  {
    if effect.Broadcast? {
      var common := effect.tags * sockets[id].tags;
      if tag :| tag in effect.tags && tag in sockets[id].tags {
        assert tag in common;
      } else {
        assert common == {};
      }
    }
  }

  /** Every socket is offered what the effect has for it, and nothing else happens. */
  ghost predicate AllOffered(before: Connections, after: Connections, effect: Effect) {
    && after.Keys == before.Keys
    && forall id :: id in before ==>
         Offered(before[id], after[id], if Gets(before[id], id, effect) then [Carried(effect)] else [])
  }

  lemma ActOffers(sockets: Connections, effect: Effect)
    ensures AllOffered(sockets, Act(sockets, Apply(effect)), effect)
  {
    var after := Act(sockets, Apply(effect));
    forall id | id in sockets
      ensures Offered(sockets[id], after[id], if Gets(sockets[id], id, effect) then [Carried(effect)] else [])
    {
      GetsIsRecipient(sockets, effect, id);
      assert sockets[id].channel.sent + [] == sockets[id].channel.sent;
      assert Carried(effect) in [Carried(effect)];
    }
  }

  datatype Action = Insert(id: string, tags: set<string>) | Remove(id: string) | Activate(id: string)
                  | Apply(effect: Effect) | Recv(id: string)

  function Act(sockets: Connections, action: Action): Connections {
    match action
    case Insert(id, tags) =>
      if |sockets| < MAX_CONNECTIONS then sockets[id := Socket(false, false, tags, NewChannel)] else sockets
    case Remove(id) => sockets - {id}
    case Activate(id) => if id in sockets then sockets[id := sockets[id].(open := true)] else sockets
    case Apply(effect) =>
      map id | id in sockets ::
        if id in Recipients(sockets, effect) then SendTo(sockets[id], MessageOf(effect)) else sockets[id]
    case Recv(id) =>
      if id in sockets then sockets[id := sockets[id].(channel := Receive(sockets[id].channel))] else sockets
  }

  function ActAll(sockets: Connections, actions: seq<Action>): Connections
    decreases |actions|
  {
    if actions == [] then sockets else ActAll(Act(sockets, actions[0]), actions[1..])
  }

  ghost predicate AllOk(sockets: Connections) {
    |sockets| <= MAX_CONNECTIONS && forall id :: id in sockets ==> SocketOk(sockets[id])
  }

  /** No socket was ever sent an older committed state after a newer one. */
  ghost predicate Ordered(sockets: Connections) {
    forall id :: id in sockets ==> Ascending(sockets[id].channel.sent)
  }

  /** No socket was sent a version later than this one. */
  ghost predicate Bounded(sockets: Connections, version: nat) {
    forall id :: id in sockets ==> NotAbove(sockets[id].channel.sent, version)
  }

  lemma ApplyKeepsOk(sockets: Connections, effect: Effect)
    requires AllOk(sockets)
    ensures AllOk(Act(sockets, Apply(effect)))
  {
    var next := Act(sockets, Apply(effect));
    assert next.Keys == sockets.Keys;
    assert |next| == |next.Keys| && |sockets| == |sockets.Keys|;
    forall id | id in next ensures SocketOk(next[id]) {
      if id in Recipients(sockets, effect) {
        SendKeepsSocket(sockets[id], MessageOf(effect));
      }
    }
  }

  lemma InsertKeepsOk(sockets: Connections, id: string, tags: set<string>)
    requires AllOk(sockets)
    ensures AllOk(Act(sockets, Insert(id, tags)))
  {
    assert Passed(NewChannel, 0);
  }

  /** Whatever is done, channels stay gap-free and updates come only after a snapshot. */
  lemma ActKeepsOk(sockets: Connections, action: Action)
    requires AllOk(sockets)
    ensures AllOk(Act(sockets, action))
  {
    match action
    case Insert(id, tags) => InsertKeepsOk(sockets, id, tags);
    case Remove(id) => Smaller((sockets - {id}).Keys, sockets.Keys);
    case Activate(_) =>
    case Apply(effect) => ApplyKeepsOk(sockets, effect);
    case Recv(id) =>
      if id in sockets {
        ReceiveKeepsChannel(sockets[id].channel);
      }
  }

  lemma {:induction false} Smaller(a: set<string>, b: set<string>)
    requires a <= b
    ensures |a| <= |b|
  {
    if a != {} {
      var x :| x in a;
      Smaller(a - {x}, b - {x});
    }
  }

  /** The order of versions is kept exactly if no recipient was sent a later one. */
  lemma ApplyKeepsOrder(sockets: Connections, effect: Effect)
    requires AllOk(sockets) && Ordered(sockets)
    ensures Ordered(Act(sockets, Apply(effect))) <==>
            (effect.CarriesState() ==>
               forall id :: id in Recipients(sockets, effect) ==> NotAbove(sockets[id].channel.sent, effect.version.value))
  {
    var (next, ids) := (Act(sockets, Apply(effect)), Recipients(sockets, effect));
    forall id | id in ids
      ensures Ascending(next[id].channel.sent) <==>
              (effect.CarriesState() ==> NotAbove(sockets[id].channel.sent, effect.version.value))
    {
      SendKeepsSocket(sockets[id], MessageOf(effect));
    }
  }

  // ---- Versions the host stamps ----

  /** The versions that state effects carry, in order. */
  function VersionsOf(actions: seq<Action>): seq<nat> {
    if actions == [] then []
    else (if Stamps(actions[0]) then [actions[0].effect.version.value] else []) + VersionsOf(actions[1..])
  }

  predicate Stamps(action: Action) {
    action.Apply? && action.effect.CarriesState() && action.effect.version.Some?
  }

  predicate Sorted(versions: seq<nat>) {
    forall i, j :: 0 <= i < j < |versions| ==> versions[i] <= versions[j]
  }

  lemma StampKeepsOrder(sockets: Connections, action: Action, bound: nat, next: nat)
    requires AllOk(sockets) && Ordered(sockets) && Bounded(sockets, bound) && bound <= next
    requires Stamps(action) ==> action.effect.version.value == next
    ensures Ordered(Act(sockets, action)) && Bounded(Act(sockets, action), next)
  {
    if action.Apply? {
      ApplyKeepsOrder(sockets, action.effect);
      forall id | id in Recipients(sockets, action.effect)
        ensures NotAbove(Act(sockets, action)[id].channel.sent, next)
      {
        NotAbovePush(sockets[id].channel.sent, MessageOf(action.effect), next);
      }
    }
  }

  lemma {:induction false} SortedStampsKeepOrder(sockets: Connections, actions: seq<Action>, bound: nat)
    requires AllOk(sockets) && Ordered(sockets) && Bounded(sockets, bound)
    requires Sorted([bound] + VersionsOf(actions))
    ensures AllOk(ActAll(sockets, actions)) && Ordered(ActAll(sockets, actions))
    decreases |actions|
  {
    if actions != [] {
      var (versions, rest) := ([bound] + VersionsOf(actions), VersionsOf(actions[1..]));
      var next := if Stamps(actions[0]) then actions[0].effect.version.value else bound;
      var skip := if Stamps(actions[0]) then 1 else 0;
      assert versions[skip] == next && versions[skip..] == [next] + rest;
      forall i, j | 0 <= i < j < |[next] + rest| ensures ([next] + rest)[i] <= ([next] + rest)[j] {
        assert ([next] + rest)[i] == versions[i + skip] && ([next] + rest)[j] == versions[j + skip];
      }
      assert versions[0] == bound && bound <= versions[skip];
      ActKeepsOk(sockets, actions[0]);
      StampKeepsOrder(sockets, actions[0], bound, next);
      SortedStampsKeepOrder(Act(sockets, actions[0]), actions[1..], next);
    }
  }

  /**
   Over any run of connections, effects and receives in which state effects carry versions that
   never go back, as those the host stamps do, every socket receives a snapshot first and then
   versions that never go back.
   */
  lemma StampedStateArrivesInOrder(actions: seq<Action>, id: string)
    requires Sorted(VersionsOf(actions)) && id in ActAll(map[], actions)
    ensures var received := ActAll(map[], actions)[id].channel.received;
            SnapshotFirst(received) && Ascending(received)
  {
    var versions := VersionsOf(actions);
    forall i, j | 0 <= i < j < |[0] + versions| ensures ([0] + versions)[i] <= ([0] + versions)[j] {
      assert i > 0 ==> ([0] + versions)[i] == versions[i - 1];
      assert ([0] + versions)[j] == versions[j - 1];
    }
    SortedStampsKeepOrder(map[], actions, 0);
    ReceivedStateIsOrdered(ActAll(map[], actions)[id]);
  }

  class Registry {
    var sockets: Connections

    ghost predicate Valid()
      reads this
    {
      AllOk(sockets)
    }

    constructor ()
      ensures Valid() && sockets == map[]
    {
      sockets := map[];
    }

    method InsertSocket(id: string, tags: set<string>) returns (ok: bool)
      requires Valid()
      modifies this
      ensures Valid() && sockets == Act(old(sockets), Insert(id, tags))
      ensures ok <==> |old(sockets)| < 128
      ensures if !ok then sockets == old(sockets)
              else && sockets.Keys == old(sockets).Keys + {id}
                   && sockets[id] == Socket(false, false, tags, Channel([], false, [], []))
                   && forall other :: other in sockets && other != id ==> sockets[other] == old(sockets)[other]
    {
      ActKeepsOk(sockets, Insert(id, tags));
      ok := |sockets| < MAX_CONNECTIONS;
      if ok {
        sockets := sockets[id := Socket(false, false, tags, NewChannel)];
      }
    }

    method RemoveSocket(id: string)
      requires Valid()
      modifies this
      ensures Valid() && sockets == Act(old(sockets), Remove(id))
      ensures sockets.Keys == old(sockets).Keys - {id} && forall other :: other in sockets ==> sockets[other] == old(sockets)[other]
    {
      ActKeepsOk(sockets, Remove(id));
      sockets := sockets - {id};
    }

    method ActivateSocket(id: string)
      requires Valid()
      modifies this
      ensures Valid() && sockets == Act(old(sockets), Activate(id)) && sockets.Keys == old(sockets).Keys
      ensures forall other :: other in sockets ==>
                  sockets[other] == if other == id then old(sockets)[other].(open := true) else old(sockets)[other]
    {
      ActKeepsOk(sockets, Activate(id));
      if id in sockets {
        sockets := sockets[id := sockets[id].(open := true)];
      }
    }

    /** One receive on a socket. */
    method ReceiveOn(id: string)
      requires Valid() && id in sockets
      modifies this
      ensures Valid() && sockets == Act(old(sockets), Recv(id)) && sockets.Keys == old(sockets).Keys
      ensures forall other :: other in sockets && other != id ==> sockets[other] == old(sockets)[other]
      ensures sockets[id].channel.sent == old(sockets)[id].channel.sent
    {
      ActKeepsOk(sockets, Recv(id));
      sockets := sockets[id := sockets[id].(channel := Receive(sockets[id].channel))];
    }

    /** Who is sent what, by the fields of the sockets; nobody else is sent anything. */
    method ApplyEffect(effect: Effect)
      requires Valid()
      modifies this
      ensures Valid() && sockets == Act(old(sockets), Apply(effect)) && AllOffered(old(sockets), sockets, effect)
    {
      ActKeepsOk(sockets, Apply(effect));
      ActOffers(sockets, effect);
      var ids := Recipients(sockets, effect);
      if ids == {} {
        assert sockets == Act(sockets, Apply(effect));
        return;
      }
      sockets := SendAll(sockets, ids, MessageOf(effect));
      assert sockets == Act(old(sockets), Apply(effect));
    }

    /** Offers one message to each of some sockets. */
    static method SendAll(before: Connections, ids: set<string>, m: Out) returns (sockets: Connections)
      requires ids <= before.Keys
      ensures sockets.Keys == before.Keys
      ensures forall id :: id in before ==> sockets[id] == if id in ids then SendTo(before[id], m) else before[id]
    {
      sockets := before;
      var rest := ids;
      while rest != {}
        invariant rest <= ids && sockets.Keys == before.Keys
        invariant forall id :: id in before ==>
                    sockets[id] == if id in ids && id !in rest then SendTo(before[id], m) else before[id]
        decreases |rest|
      {
        var id :| id in rest;
        sockets := sockets[id := SendTo(sockets[id], m)];
        rest := rest - {id};
      }
    }
  }

  /**
   The executor may publish state effects while it runs, with any version in them: nothing
   checks it, and a socket is then sent an older version after a newer one.
   */
  lemma UncheckedVersionCanGoBack()
    ensures var actions := [Insert("a", {}), Apply(StateSnapshot("a", Some(2))), Apply(StateUpdate({}, Some(1)))];
            var end := ActAll(map[], actions);
            "a" in end && !Ascending(end["a"].channel.sent)
  {
    var actions := [Insert("a", {}), Apply(StateSnapshot("a", Some(2))), Apply(StateUpdate({}, Some(1)))];
    assert actions[1..] == [actions[1], actions[2]] && actions[1..][1..] == [actions[2]] && [actions[2]][1..] == [];
    var one := Act(map[], actions[0]);
    var two := Act(one, actions[1]);
    var end := Act(two, actions[2]);
    assert ActAll(two, [actions[2]]) == end;
    assert ActAll(one, actions[1..]) == end;
    assert end["a"].channel.sent == [Snapshot(2), Update(1)];
    assert IsState(end["a"].channel.sent[0]) && IsState(end["a"].channel.sent[1]);
  }
}
