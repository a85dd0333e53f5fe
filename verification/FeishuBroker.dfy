/** The event broker of src/servers/feishu.ts.  The code between two awaits runs alone, so each such
    stretch is one method; any interleaving of them is a run of the server. */
module FeishuBroker {
  import opened Common
  import opened FeishuChats
  import opened FeishuFragments

  type Socket = nat

  datatype Delivery = Delivery(eventId: Id, messageId: Id, frames: seq<Frame>)

  /** A reservation; `timer`: the acknowledgement timer runs. */
  datatype Ack = Ack(delivery: Delivery, timer: bool)

  datatype Outcome = Acknowledged(code: int) | Undelivered | Expired | Disconnected | Dropped

  /** Where `flush` is suspended: nowhere, sending a delivery, or recording it. */
  datatype Flight = Idle | Sending(socket: Socket, delivery: Delivery) | Recording

  datatype Config = Config(messages: nat, stateBytes: nat, pending: nat, eventBytes: nat,
                           fragments: nat, sockets: nat, acks: nat, bot: Id)

  /** An admin request.  `event` is the serialized event; the other sizes are those of the JSON texts
      of the message, of the chat association and of the event id. */
  datatype Inbound = Inbound(valid: bool, messageId: Id, eventId: Id, chat: Id, sender: Id, group: bool,
                             fragments: int, order: Option<seq<int>>, event: seq<Byte>,
                             messageBytes: nat, pairBytes: nat, idBytes: nat)

  datatype Response = Done | Refused(status: nat)

  /** The fields of an acknowledgement frame that are compared, and its payload's code if it is valid. */
  datatype AckFrame = AckFrame(seqId: nat, logId: nat, event: Option<Id>, headers: bool, code: Option<int>)

  function Order(i: Inbound): seq<int> {
    match i.order
    case Some(order) => order
    case None => seq(if i.fragments >= 0 then i.fragments else 0, k => k)
  }

  function ClaimOf(i: Inbound, bot: Id): Claim {
    if i.group then Group else if i.sender == bot then Unknown else Person(i.sender)
  }

  function PendingIds(pending: seq<Delivery>): set<Id> {
    set d | d in pending :: d.eventId
  }

  function Reserved(sockets: map<Socket, map<Id, Ack>>): set<(Socket, Id)> {
    set s, e | s in sockets && e in sockets[s] :: (s, e)
  }

  /** What the server knows of events: those admitted, those pending, the reservations of each
      socket, and of whom has taken which event and how it ended. */
  datatype Books = Books(eventIds: set<Id>, pending: seq<Delivery>, sockets: map<Socket, map<Id, Ack>>,
                         taker: map<Id, Socket>, resolved: map<Id, Outcome>, flight: Flight,
                         numbers: map<Id, Numbers>)

  /** The sequence number that an event was admitted with, and the number of its fragments. */
  datatype Numbers = Numbers(first: nat, count: nat)

  /** The frames have the numbers that follow from these, two for each. */
  predicate Numbered(numbers: map<Id, Numbers>, d: Delivery) {
    && d.eventId in numbers && 0 < numbers[d.eventId].count == |d.frames|
    && forall i | 0 <= i < |d.frames| ::
         d.frames[i].seqId == numbers[d.eventId].first + 2 * i && d.frames[i].logId == d.frames[i].seqId + 1
  }

  predicate IsHeld(sockets: map<Socket, map<Id, Ack>>, s: Socket, e: Id) {
    s in sockets && e in sockets[s]
  }

  predicate IsReserved(b: Books, e: Id) {
    e in b.taker && IsHeld(b.sockets, b.taker[e], e)
  }

  predicate Once(pending: seq<Delivery>, e: Id) {
    forall i, j | 0 <= i < j < |pending| :: !(pending[i].eventId == e == pending[j].eventId)
  }

  /** An admitted event is pending, reserved on the socket that took it, or resolved; and a
      reservation has its timer running or is being sent. */
  ghost predicate InPlace(b: Books, e: Id) {
    && (e in b.eventIds <==> e in PendingIds(b.pending) || IsReserved(b, e) || e in b.resolved)
    && (e in PendingIds(b.pending) ==> e !in b.taker && e !in b.resolved && Once(b.pending, e))
    && (e in b.taker ==> e in b.eventIds)
    && (forall s | IsHeld(b.sockets, s, e) ::
          && e in b.taker && b.taker[e] == s && e !in b.resolved && b.sockets[s][e].delivery.eventId == e
          && TimerRuns(b.flight, s, b.sockets[s][e]))
    && (b.flight.Sending? && b.flight.delivery.eventId == e ==> e in b.taker && b.taker[e] == b.flight.socket)
    && AllNumbered(b, e)
  }

  predicate AllNumbered(b: Books, e: Id) {
    && (e in b.numbers <==> e in b.eventIds)
    && (forall d <- b.pending | d.eventId == e :: Numbered(b.numbers, d))
    && (forall s <- b.sockets | e in b.sockets[s] :: Numbered(b.numbers, b.sockets[s][e].delivery))
    && (b.flight.Sending? && b.flight.delivery.eventId == e ==> Numbered(b.numbers, b.flight.delivery))
  }

  /** A reservation has its timer running if and only if it is not the one being sent. */
  predicate TimerRuns(flight: Flight, s: Socket, ack: Ack) {
    if flight.Sending? && flight.delivery.eventId == ack.delivery.eventId then
      flight == Sending(s, ack.delivery) && !ack.timer
    else ack.timer
  }

  ghost predicate Balanced(b: Books) {
    forall e: Id :: InPlace(b, e)
  }

  /** Exactly one of the three places, once, and never two sockets. */
  lemma InOnePlace(b: Books, e: Id)
    requires Balanced(b)
    ensures e in b.eventIds <==>
      e in PendingIds(b.pending) || (exists s :: IsHeld(b.sockets, s, e)) || e in b.resolved
    ensures !(e in PendingIds(b.pending) && e in b.resolved)
    ensures forall s | IsHeld(b.sockets, s, e) :: e !in PendingIds(b.pending) && e !in b.resolved
    ensures forall s, t | IsHeld(b.sockets, s, e) && IsHeld(b.sockets, t, e) :: s == t
    ensures forall i, j | 0 <= i < j < |b.pending| :: !(b.pending[i].eventId == e == b.pending[j].eventId)
  {
    assert InPlace(b, e);
    forall i | 0 <= i < |b.pending| && b.pending[i].eventId == e ensures e in PendingIds(b.pending) {
      assert b.pending[i] in b.pending;
    }
  }

  function Without(sockets: map<Socket, map<Id, Ack>>, s: Socket, e: Id): (r: map<Socket, map<Id, Ack>>)
    requires s in sockets
    ensures r.Keys == sockets.Keys && |r| == |sockets|
  {
    sockets[s := sockets[s] - {e}]
  }

  function With(sockets: map<Socket, map<Id, Ack>>, s: Socket, ack: Ack): (r: map<Socket, map<Id, Ack>>)
    requires s in sockets
    ensures r.Keys == sockets.Keys && |r| == |sockets|
  {
    sockets[s := sockets[s][ack.delivery.eventId := ack]]
  }

  lemma ReleaseKeepsBalance(b: Books, s: Socket, e: Id, outcome: Outcome)
    requires Balanced(b) && IsHeld(b.sockets, s, e)
    ensures Balanced(b.(sockets := Without(b.sockets, s, e), resolved := b.resolved[e := outcome])) && e !in b.resolved
  {
    assert InPlace(b, e);
    var after := b.(sockets := Without(b.sockets, s, e), resolved := b.resolved[e := outcome]);
    forall i ensures InPlace(after, i) {
      assert InPlace(b, i);
    }
  }

  lemma ReleaseIsOne(sockets: map<Socket, map<Id, Ack>>, s: Socket, e: Id)
    requires IsHeld(sockets, s, e)
    ensures |Reserved(Without(sockets, s, e))| == |Reserved(sockets)| - 1
  {
    assert Reserved(Without(sockets, s, e)) == Reserved(sockets) - {(s, e)};
  }

  lemma AdmitKeepsBalance(b: Books, d: Delivery, n: Numbers)
    requires Balanced(b) && d.eventId !in b.eventIds && Numbered(map[d.eventId := n], d)
    ensures Balanced(b.(
      eventIds := b.eventIds + {d.eventId}, pending := b.pending + [d], numbers := b.numbers[d.eventId := n]))
    ensures d.eventId !in b.numbers
  {
    PendingSnoc(b.pending, d);
    assert InPlace(b, d.eventId);
    var after := b.(
      eventIds := b.eventIds + {d.eventId}, pending := b.pending + [d], numbers := b.numbers[d.eventId := n]);
    forall i ensures InPlace(after, i) {
      assert InPlace(b, i);
    }
  }

  lemma PendingSnoc(pending: seq<Delivery>, d: Delivery)
    ensures PendingIds(pending + [d]) == PendingIds(pending) + {d.eventId}
    ensures d.eventId !in PendingIds(pending) ==> Once(pending + [d], d.eventId)
  {
    assert d in pending + [d];
    forall p | p in pending ensures p in pending + [d] {}
  }

  lemma PendingCons(pending: seq<Delivery>)
    requires pending != []
    ensures PendingIds(pending) == {pending[0].eventId} + PendingIds(pending[1..])
    ensures Once(pending, pending[0].eventId) ==> pending[0].eventId !in PendingIds(pending[1..])
  {
    assert pending == [pending[0]] + pending[1..];
  }

  lemma TakeKeepsBalance(b: Books, s: Socket)
    requires Balanced(b) && !b.flight.Sending? && b.pending != [] && s in b.sockets
    ensures var d := b.pending[0];
      && Balanced(Books(b.eventIds, b.pending[1..], With(b.sockets, s, Ack(d, false)), b.taker[d.eventId := s],
        b.resolved, Sending(s, d), b.numbers))
      && d.eventId !in b.taker && d.eventId !in b.sockets[s]
  {
    var d := b.pending[0];
    PendingCons(b.pending);
    assert InPlace(b, d.eventId);
    assert !IsHeld(b.sockets, s, d.eventId);
    var after := Books(b.eventIds, b.pending[1..], With(b.sockets, s, Ack(d, false)), b.taker[d.eventId := s],
      b.resolved, Sending(s, d), b.numbers);
    forall i ensures InPlace(after, i) {
      assert InPlace(b, i);
    }
  }

  lemma TakeIsOne(sockets: map<Socket, map<Id, Ack>>, s: Socket, ack: Ack)
    requires s in sockets && ack.delivery.eventId !in sockets[s]
    ensures |Reserved(With(sockets, s, ack))| == |Reserved(sockets)| + 1
  {
    assert Reserved(With(sockets, s, ack)) == Reserved(sockets) + {(s, ack.delivery.eventId)};
  }

  /** A socket without reservations may come or go. */
  lemma SocketsKeepBalance(b: Books, after: map<Socket, map<Id, Ack>>)
    requires Balanced(b)
    requires forall s <- b.sockets :: if s in after then after[s] == b.sockets[s] else b.sockets[s] == map[]
    requires forall s <- after :: s in b.sockets || after[s] == map[]
    ensures Balanced(b.(sockets := after)) && Reserved(after) == Reserved(b.sockets)
  {
    forall s, e ensures IsHeld(after, s, e) <==> IsHeld(b.sockets, s, e) {}
    forall i ensures InPlace(b.(sockets := after), i) {
      assert InPlace(b, i);
    }
  }

  function DroppedIn(resolved: map<Id, Outcome>, pending: seq<Delivery>): map<Id, Outcome> {
    resolved + map e | e in PendingIds(pending) :: Dropped
  }

  lemma DropKeepsBalance(b: Books)
    requires Balanced(b)
    ensures Balanced(b.(pending := [], resolved := DroppedIn(b.resolved, b.pending)))
    ensures Grows(b.resolved, DroppedIn(b.resolved, b.pending))
  {
    forall i ensures InPlace(b.(pending := [], resolved := DroppedIn(b.resolved, b.pending)), i) {
      assert InPlace(b, i);
    }
    forall i | i in b.resolved ensures i !in PendingIds(b.pending) {
      assert InPlace(b, i);
    }
  }

  predicate Grows<K(!new), V(==)>(before: map<K, V>, after: map<K, V>) {
    forall k <- before :: k in after && after[k] == before[k]
  }

  lemma ReservationKeeps(b: Books, s: Socket)
    requires Balanced(b) && !b.flight.Sending? && b.pending != [] && s in b.sockets
    ensures var d := b.pending[0]; var after := With(b.sockets, s, Ack(d, false));
      && Balanced(Books(b.eventIds, b.pending[1..], after, b.taker[d.eventId := s], b.resolved, Sending(s, d),
        b.numbers))
      && |Reserved(after)| == |Reserved(b.sockets)| + 1 && d.eventId !in b.taker
  {
    TakeKeepsBalance(b, s);
    TakeIsOne(b.sockets, s, Ack(b.pending[0], false));
  }

  /** Once it is written, the delivery in flight has its timer started, or is released, or was released before. */
  lemma SentKeepsBalance(b: Books)
    requires Balanced(b) && b.flight.Sending?
    ensures var s, d := b.flight.socket, b.flight.delivery;
      if IsHeld(b.sockets, s, d.eventId) then
        && Balanced(b.(sockets := With(b.sockets, s, Ack(d, true)), flight := Recording))
        && Reserved(With(b.sockets, s, Ack(d, true))) == Reserved(b.sockets)
      else Balanced(b.(flight := Recording))
  {
    var s, d := b.flight.socket, b.flight.delivery;
    assert InPlace(b, d.eventId);
    if IsHeld(b.sockets, s, d.eventId) {
      var after := b.(sockets := With(b.sockets, s, Ack(d, true)), flight := Recording);
      forall i ensures InPlace(after, i) {
        assert InPlace(b, i);
      }
    } else {
      var after := b.(flight := Recording);
      forall i ensures InPlace(after, i) {
        assert InPlace(b, i);
      }
    }
  }

  /** When nothing is in flight, `flush` may be suspended or not. */
  lemma FlightKeepsBalance(b: Books, flight: Flight)
    requires Balanced(b) && !b.flight.Sending? && !flight.Sending?
    ensures Balanced(b.(flight := flight))
  {
    forall i ensures InPlace(b.(flight := flight), i) {
      assert InPlace(b, i);
    }
  }

  /** For admission, in the fields of the request: the table says the same of the chat or nothing of it,
      and a person has no other chat. */
  predicate Fitting(i: Inbound, bot: Id, peers: Peers) {
    if i.group then i.chat in peers ==> peers[i.chat] == None
    else if i.sender == bot then i.chat in peers ==> peers[i.chat] != None
    else !TellsApart(peers, i.chat, i.sender)
  }

  /** The table has another peer for the chat, or another chat for the peer. */
  predicate TellsApart(peers: Peers, chat: Id, peer: Id) {
    (chat in peers && peers[chat] != Some(peer)) || exists c <- peers :: peers[c] == Some(peer) && c != chat
  }

  lemma ClaimFits(i: Inbound, bot: Id, peers: Peers)
    requires Injective(peers)
    ensures Agrees(peers, i.chat, ClaimOf(i, bot)) <==> Fitting(i, bot, peers)
  {
    if !i.group && i.sender != bot {
      PersonAgrees(peers, i.chat, i.sender);
    }
  }

  lemma ClaimTeaches(i: Inbound, bot: Id, peers: Peers)
    ensures Extended(peers, i.chat, ClaimOf(i, bot)) == Taught(i, bot, peers)
  {
  }

  /** The table after admission. */
  function Taught(i: Inbound, bot: Id, peers: Peers): Peers {
    if i.chat in peers || (!i.group && i.sender == bot) then peers
    else peers[i.chat := if i.group then None else Some(i.sender)]
  }

  /** The bytes of the message, of its event and of the event's id, and of what is new about the chat. */
  function StateBytes(i: Inbound, bot: Id, peers: Peers): nat {
    i.messageBytes + |i.event| + i.idBytes + if i.chat in peers || (!i.group && i.sender == bot) then 0 else i.pairBytes
  }

  /** The delivery of the event: one frame for each fragment, in the order asked for, each with the next
      two numbers and with the bytes that its index cuts out. */
  predicate Carries(d: Delivery, i: Inbound, first: nat)
    requires i.fragments > 0 && (i.order.Some? ==> |i.order.value| == i.fragments)
  {
    && d.eventId == i.eventId && d.messageId == i.messageId && |d.frames| == i.fragments
    && forall j | 0 <= j < |d.frames| ::
         var index := if i.order.Some? then i.order.value[j] else j;
         IsFragment(d.frames[j], i, index, first + 2 * j)
  }

  predicate IsFragment(f: Frame, i: Inbound, index: int, number: nat)
    requires i.fragments > 0
  {
    var from, to := (index * |i.event|) / i.fragments, ((index + 1) * |i.event|) / i.fragments;
    && f.seqId == number && f.logId == number + 1 && f.event == i.eventId && f.sum == i.fragments && f.index == index
    && 0 <= from <= to <= |i.event| && f.payload == i.event[from..to]
  }

  lemma FramesCarry(i: Inbound, first: nat)
    requires i.fragments > 0 && IsPermutation(Order(i), i.fragments)
    ensures Carries(Delivery(i.eventId, i.messageId, Frames(i.event, i.eventId, Order(i), first)), i, first)
  {
    var order, k := Order(i), i.fragments;
    forall j | 0 <= j < k ensures IsFragment(Frames(i.event, i.eventId, order, first)[j], i, order[j], first + 2 * j) {
      CutsAscend(|i.event|, k, order[j]);
    }
  }

  class Broker {
    const config: Config
    var messages: map<Id, Message>
    var chatPeers: Peers
    var eventIds: set<Id>
    var pending: seq<Delivery>
    var sockets: map<Socket, map<Id, Ack>>
    var stateBytes: nat
    var outstanding: int
    var closed: bool
    var sequence: nat
    var flight: Flight
    ghost var ages: map<Id, nat>
    ghost var taker: map<Id, Socket>
    ghost var resolved: map<Id, Outcome>
    ghost var numbers: map<Id, Numbers>

    ghost function Now(): Books
      reads `eventIds, `pending, `sockets, `taker, `resolved, `flight, `numbers
    {
      Books(eventIds, pending, sockets, taker, resolved, flight, numbers)
    }

    ghost predicate Accounts()
      reads `eventIds, `pending, `sockets, `taker, `resolved, `outstanding, `flight, `numbers
    {
      && Balanced(Now())
      && outstanding == |Reserved(sockets)|
    }

    ghost predicate Bounded()
      reads `pending, `sockets, `outstanding, `closed
    {
      && |pending| <= config.pending && outstanding <= config.acks && |sockets| <= config.sockets
      && (closed ==> pending == [] && outstanding == 0)
    }

    /** Peers of retained chats, one chat each, never the bot; replies in threads; both bounds. */
    ghost predicate Known()
      reads `messages, `chatPeers, `ages, `stateBytes
    {
      && Consistent(config.bot, Chats(messages, chatPeers, ages))
      && |messages| <= config.messages && stateBytes <= config.stateBytes
    }

    ghost predicate Valid()
      reads this
    {
      Accounts() && Bounded() && Known()
    }

    constructor (config: Config)
      ensures Valid() && this.config == config && eventIds == {} && !closed
    {
      this.config := config;
      messages, chatPeers, eventIds, pending, sockets := map[], map[], {}, [], map[];
      stateBytes, outstanding, closed, sequence, flight := 0, 0, false, 1, Idle;
      ages, taker, resolved, numbers := map[], map[], map[], map[];
    }

    method ClearAck(s: Socket, e: Id, ghost outcome: Outcome)
      requires Accounts()
      modifies `sockets, `outstanding, `resolved
      ensures Accounts() && Grows(old(resolved), resolved)
      ensures if IsHeld(old(sockets), s, e)
        then sockets == Without(old(sockets), s, e) && outstanding == old(outstanding) - 1 &&
          resolved == old(resolved)[e := outcome]
        else sockets == old(sockets) && outstanding == old(outstanding) && resolved == old(resolved)
    {
      if s in sockets && e in sockets[s] {
        ReleaseKeepsBalance(Now(), s, e, outcome);
        ReleaseIsOne(sockets, s, e);
        sockets := Without(sockets, s, e);
        outstanding := outstanding - 1;
        resolved := resolved[e := outcome];
      }
    }

    method Keep(m: Message, claim: Claim)
      requires Known() && |messages| < config.messages && m.id !in messages && RepliesTo(messages, m)
      requires Injective(Extended(chatPeers, m.chat, claim)) && claim != Person(config.bot)
      modifies `messages, `chatPeers, `ages
      ensures Known()
      ensures messages == old(messages)[m.id := m] && chatPeers == Extended(old(chatPeers), m.chat, claim)
    {
      AddKeepsConsistent(config.bot, Chats(messages, chatPeers, ages), m, claim);
      messages, ages := messages[m.id := m], ages[m.id := |messages|];
      if !claim.Unknown? && m.chat !in chatPeers {
        chatPeers := chatPeers[m.chat := if claim.Group? then None else Some(claim.peer)];
      }
    }

    /** `retain`: a message within both bounds is kept, and with it what it says of its chat. */
    method Retain(m: Message, bytes: nat, pairBytes: nat, claim: Claim) returns (ok: bool)
      requires Known() && m.id !in messages
      requires Injective(Extended(chatPeers, m.chat, claim)) && claim != Person(config.bot)
      requires RepliesTo(messages, m)
      modifies `messages, `chatPeers, `stateBytes, `ages
      ensures Known()
      ensures var cost := bytes + if !claim.Unknown? && m.chat !in old(chatPeers) then pairBytes else 0;
        if ok then
          && messages == old(messages)[m.id := m] && chatPeers == Extended(old(chatPeers), m.chat, claim)
          && stateBytes == old(stateBytes) + cost
        else
          && messages == old(messages) && chatPeers == old(chatPeers) && stateBytes == old(stateBytes)
          && (|messages| >= config.messages || stateBytes + cost > config.stateBytes)
    {
      var newChat := !claim.Unknown? && m.chat !in chatPeers;
      var cost := bytes + if newChat then pairBytes else 0;
      if |messages| >= config.messages || stateBytes + cost > config.stateBytes {
        return false;
      }
      Keep(m, claim);
      stateBytes := stateBytes + cost;
      ok := true;
    }

    /** `chatForPeer`: the first chat that is known for the peer. */
    method ChatForPeer(peer: Id) returns (r: Option<Id>)
      ensures match r
        case Some(c) => c in chatPeers && chatPeers[c] == Some(peer)
        case None => forall c <- chatPeers :: chatPeers[c] != Some(peer)
    {
      var rest := chatPeers.Keys;
      while rest != {}
        invariant rest <= chatPeers.Keys
        invariant forall c <- chatPeers.Keys - rest :: chatPeers[c] != Some(peer)
      {
        var c :| c in rest;
        if chatPeers[c] == Some(peer) {
          return Some(c);
        }
        rest := rest - {c};
      }
      r := None;
    }

    /** `chatConflict`: exactly when the claim cannot be taken into the table. */
    method ChatConflict(chat: Id, claim: Claim) returns (conflict: bool)
      requires Injective(chatPeers)
      ensures conflict <==> !Agrees(chatPeers, chat, claim)
      ensures conflict <==>
        match claim
        case Unknown => chat in chatPeers && chatPeers[chat] == None
        case Group => chat in chatPeers && chatPeers[chat] != None
        case Person(peer) => TellsApart(chatPeers, chat, peer)
    {
      var knownChat := None;
      if claim.Person? {
        knownChat := ChatForPeer(claim.peer);
        PersonAgrees(chatPeers, chat, claim.peer);
      }
      conflict :=
        || (chat in chatPeers &&
            (match claim
             case Group => chatPeers[chat] != None
             case Unknown => chatPeers[chat] == None
             case Person(peer) => chatPeers[chat] != Some(peer)))
        || (knownChat.Some? && knownChat.value != chat);
    }

    /** The request may be admitted if its message can be retained. */
    predicate Screened(i: Inbound)
      reads `closed, `messages, `eventIds, `pending, `outstanding, `chatPeers
    {
      && !closed && i.valid && i.messageId !in messages && i.eventId !in eventIds
      && 1 <= i.fragments <= config.fragments && IsPermutation(Order(i), i.fragments)
      && i.fragments <= |i.event| <= config.eventBytes
      && |pending| < config.pending && outstanding < config.acks
      && Agrees(chatPeers, i.chat, ClaimOf(i, config.bot))
    }

    predicate CanKeep(i: Inbound)
      reads `messages, `chatPeers
    {
      i.messageId !in messages && Injective(Extended(chatPeers, i.chat, ClaimOf(i, config.bot)))
    }

    /** The message of the request is within both bounds. */
    predicate Fits(i: Inbound)
      reads `messages, `stateBytes, `chatPeers
    {
      |messages| < config.messages && stateBytes + StateBytes(i, config.bot, chatPeers) <= config.stateBytes
    }

    /** The refusals of `admit` up to the retention of the message. */
    method Screen(i: Inbound) returns (refusal: Option<nat>)
      requires Injective(chatPeers)
      ensures refusal == None <==> Screened(i)
      ensures refusal == Some(503) ==> closed || |pending| >= config.pending || outstanding >= config.acks
      ensures refusal == Some(400) ==> !closed && (i.valid ==> i.messageId !in messages && i.eventId !in eventIds)
      ensures refusal == Some(409) ==> !closed && i.valid
      ensures refusal == Some(413) ==>
        && !closed && i.valid && i.messageId !in messages && i.eventId !in eventIds
        && (|i.event| > config.eventBytes || i.fragments > |i.event|)
      ensures refusal.Some? ==> refusal.value in {503, 400, 409, 413}
    {
      if closed {
        return Some(503);
      }
      if !i.valid {
        return Some(400);
      }
      if i.messageId in messages || i.eventId in eventIds {
        return Some(409);
      }
      if i.fragments < 1 || i.fragments > config.fragments {
        return Some(400);
      }
      var permutes := IsOrder(Order(i), i.fragments);
      if !permutes {
        return Some(400);
      }
      if |i.event| > config.eventBytes || i.fragments > |i.event| {
        return Some(413);
      }
      if |pending| >= config.pending || outstanding >= config.acks {
        return Some(503);
      }
      var conflict := ChatConflict(i.chat, ClaimOf(i, config.bot));
      refusal := if conflict then Some(409) else None;
    }

    /** What the message takes with it: the bytes of its event and of the event's id. */
    method RetainInbound(i: Inbound) returns (ok: bool)
      requires Known() && CanKeep(i)
      modifies `messages, `chatPeers, `stateBytes, `ages
      ensures Known()
      ensures ok == old(Fits(i))
      ensures if ok then
          && messages == old(messages)[i.messageId := Message(i.messageId, i.chat, None, None)]
          && chatPeers == Taught(i, config.bot, old(chatPeers))
          && stateBytes == old(stateBytes) + StateBytes(i, config.bot, old(chatPeers))
        else messages == old(messages) && chatPeers == old(chatPeers) && stateBytes == old(stateBytes)
    {
      ClaimTeaches(i, config.bot, chatPeers);
      ok := Retain(Message(i.messageId, i.chat, None, None), i.messageBytes + |i.event| + i.idBytes,
                   i.pairBytes, ClaimOf(i, config.bot));
    }

    /** The frames of the event, which take the next sequence numbers. */
    method Compose(i: Inbound) returns (d: Delivery)
      requires i.fragments > 0 && IsPermutation(Order(i), i.fragments)
      modifies `sequence
      ensures sequence == old(sequence) + 2 * i.fragments && d.eventId == i.eventId
      ensures Carries(d, i, old(sequence))
      ensures Numbered(map[d.eventId := Numbers(old(sequence), i.fragments)], d)
    {
      FramesCarry(i, sequence);
      hide Carries;
      d := Delivery(i.eventId, i.messageId, Frames(i.event, i.eventId, Order(i), sequence));
      sequence := sequence + 2 * |Order(i)|;
    }

    /** The commit part of `admit`. */
    method Admit(i: Inbound) returns (r: Response)
      requires Accounts() && Known() && Bounded()
      modifies `messages, `chatPeers, `stateBytes, `ages, `eventIds, `pending, `sequence, `numbers
      ensures Accounts() && Known() && Bounded()
      ensures r == Done <==>
        && !closed && i.valid && i.messageId !in old(messages) && i.eventId !in old(eventIds)
        && 1 <= i.fragments <= config.fragments && i.fragments <= |i.event| <= config.eventBytes
        && IsPermutation(Order(i), i.fragments)
        && |old(pending)| < config.pending && outstanding < config.acks
        && Fitting(i, config.bot, old(chatPeers))
        && old(Fits(i))
      ensures r == Done ==>
        && i.eventId !in old(numbers) && numbers == old(numbers)[i.eventId := Numbers(old(sequence), i.fragments)]
        && sequence == old(sequence) + 2 * i.fragments
      ensures r != Done ==> numbers == old(numbers)
      ensures r != Done ==>
        && messages == old(messages) && chatPeers == old(chatPeers) && eventIds == old(eventIds)
        && pending == old(pending) && stateBytes == old(stateBytes)
      ensures r == Done ==>
        && messages == old(messages)[i.messageId := Message(i.messageId, i.chat, None, None)]
        && eventIds == old(eventIds) + {i.eventId}
        && stateBytes == old(stateBytes) + i.messageBytes + |i.event| + i.idBytes +
             (if chatPeers == old(chatPeers) then 0 else i.pairBytes)
        && stateBytes <= config.stateBytes
        && chatPeers ==
             if i.chat in old(chatPeers) || (!i.group && i.sender == config.bot) then old(chatPeers)
             else old(chatPeers)[i.chat := if i.group then None else Some(i.sender)]
      ensures r == Done ==>
        && |pending| == |old(pending)| + 1 && pending[..|old(pending)|] == old(pending)
        && Carries(pending[|old(pending)|], i, old(sequence))
      ensures old(sequence) <= sequence && Grows(old(chatPeers), chatPeers) && Grows(old(messages), messages)
    {
      hide TellsApart,PendingIds,Once,InPlace,AllNumbered;
      TableIsInjective(config.bot, Chats(messages, chatPeers, ages));
      ClaimFits(i, config.bot, chatPeers);
      hide Accounts, Fitting, Agrees, Extended, Consistent, Balanced, Reserved, Injective, Carries, Numbered;
      var refusal := Screen(i);
      if refusal.Some? {
        return Refused(refusal.value);
      }
      ghost var first := sequence;
      var delivery := Compose(i);
      r := Enroll(i, delivery, Numbers(first, i.fragments));
    }

    method Enroll(i: Inbound, d: Delivery, ghost n: Numbers) returns (r: Response)
      requires Accounts() && Known() && Bounded() && CanKeep(i) && Numbered(map[d.eventId := n], d)
      requires !closed && |pending| < config.pending && d.eventId == i.eventId && i.eventId !in eventIds
      modifies `messages, `chatPeers, `stateBytes, `ages, `eventIds, `pending, `numbers
      ensures Accounts() && Known() && Bounded()
      ensures r == Done <==> old(Fits(i))
      ensures r == Done ==> d.eventId !in old(numbers) && numbers == old(numbers)[d.eventId := n]
      ensures r != Done ==> numbers == old(numbers)
      ensures if r == Done then
          && messages == old(messages)[i.messageId := Message(i.messageId, i.chat, None, None)]
          && chatPeers == Taught(i, config.bot, old(chatPeers)) && eventIds == old(eventIds) + {i.eventId}
          && stateBytes == old(stateBytes) + StateBytes(i, config.bot, old(chatPeers))
          && pending == old(pending) + [d]
        else
          && messages == old(messages) && chatPeers == old(chatPeers) && eventIds == old(eventIds)
          && pending == old(pending) && stateBytes == old(stateBytes)
    {
      hide *;
      var ok := RetainInbound(i);
      Queue(ok, d, n);
      r := if ok then Done else Refused(503);
    }

    method Queue(retained: bool, d: Delivery, ghost n: Numbers)
      requires Accounts() && Bounded() && !closed && |pending| < config.pending && d.eventId !in eventIds
      requires Numbered(map[d.eventId := n], d)
      modifies `eventIds, `pending, `numbers
      ensures Accounts() && Bounded()
      ensures d.eventId !in old(numbers) || !retained
      ensures numbers == if retained then old(numbers)[d.eventId := n] else old(numbers)
      ensures eventIds == old(eventIds) + if retained then {d.eventId} else {}
      ensures pending == old(pending) + if retained then [d] else []
    {
      if retained {
        AdmitKeepsBalance(Now(), d, n);
        eventIds := eventIds + {d.eventId};
        pending := pending + [d];
        numbers := numbers[d.eventId := n];
      }
    }

    /** The test of `fragmentOrder`. */
    static method IsOrder(order: seq<int>, fragments: nat) returns (ok: bool)
      ensures ok <==> IsPermutation(order, fragments)
    {
      if |order| != fragments || |set x | x in order| != fragments {
        if |order| == fragments && IsPermutation(order, fragments) {
          SizeOfDistinct(order);
        }
        return false;
      }
      DistinctBySize(order);
      ok := forall x <- order :: 0 <= x < fragments;
      assert ok ==> forall j | 0 <= j < |order| :: order[j] in order;
    }

    /** A message of the bot: a reply to `prior`, or to a chat, or to a person.  Its id is new. */
    method Reply(id: Id, prior: Id, bytes: nat) returns (r: Response)
      requires Known() && id !in messages
      modifies `messages, `chatPeers, `stateBytes, `ages
      ensures Known()
      ensures r == Done <==>
        !old(closed) && prior in old(messages) && |old(messages)| < config.messages &&
          old(stateBytes) + bytes <= config.stateBytes
      ensures r != Done ==> messages == old(messages) && stateBytes == old(stateBytes)
      ensures r == Done ==>
        id in messages && messages == old(messages)[id := messages[id]] && stateBytes == old(stateBytes) + bytes
      ensures r == Done ==> messages[id].parent == Some(prior) && messages[id].chat == messages[prior].chat
      ensures r == Done ==> messages[id].root == Some(End(config.bot, Chats(messages, chatPeers, ages), id))
      ensures chatPeers == old(chatPeers) && Grows(old(messages), messages)
    {
      if closed {
        return Refused(503);
      }
      if prior !in messages {
        return Refused(404);
      }
      TableIsInjective(config.bot, Chats(messages, chatPeers, ages));
      assert InThread(Chats(messages, chatPeers, ages), prior);
      var m := Message(id, messages[prior].chat, Some(prior), Some(RootFor(messages[prior])));
      var ok := Retain(m, bytes, 0, Unknown);
      r := if ok then Done else Refused(503);
      if ok {
        RootIsEnd(config.bot, Chats(messages, chatPeers, ages), id);
      }
    }

    function ClaimTo(receiver: Id, byPerson: bool): Claim {
      if byPerson && receiver != config.bot then Person(receiver) else Unknown
    }

    /** `hashed` is the chat id that the digest of the receiver gives. */
    method Create(id: Id, receiver: Id, byPerson: bool, hashed: Id, bytes: nat, pairBytes: nat)
      returns (r: Response, chat: Id)
      requires Known() && id !in messages
      modifies `messages, `chatPeers, `stateBytes, `ages
      ensures Known()
      ensures r != Done ==> messages == old(messages) && chatPeers == old(chatPeers) && stateBytes == old(stateBytes)
      ensures r == Done ==>
        && messages == old(messages)[id := Message(id, chat, None, None)]
        && chatPeers == Extended(old(chatPeers), chat, ClaimTo(receiver, byPerson))
        && stateBytes == old(stateBytes) + bytes + if chatPeers != old(chatPeers) then pairBytes else 0
      ensures r == Done && !byPerson ==> chat == receiver && chatPeers == old(chatPeers)
      ensures r == Done && byPerson && receiver != config.bot ==> chat in chatPeers && chatPeers[chat] == Some(receiver)
      ensures r == Done ==> !closed && (byPerson ==> Agrees(old(chatPeers), chat, ClaimTo(receiver, byPerson)))
      ensures r == Refused(503) ==>
        closed || |messages| >= config.messages || stateBytes + bytes + pairBytes > config.stateBytes
      ensures r == Refused(409) ==> byPerson && !Agrees(chatPeers, chat, ClaimTo(receiver, byPerson))
      ensures r in {Done, Refused(503), Refused(409)}
      ensures r == Done && byPerson ==>
        chat in old(chatPeers) || (chat == hashed && forall c <- old(chatPeers) :: old(chatPeers)[c] != Some(receiver))
      ensures Grows(old(chatPeers), chatPeers) && Grows(old(messages), messages)
    {
      TableIsInjective(config.bot, Chats(messages, chatPeers, ages));
      chat := receiver;
      if closed {
        return Refused(503), chat;
      }
      var claim := ClaimTo(receiver, byPerson);
      if byPerson {
        var known := ChatForPeer(receiver);
        chat := if known.Some? then known.value else hashed;
        var conflict := ChatConflict(chat, claim);
        if conflict {
          return Refused(409), chat;
        }
      }
      var ok := Retain(Message(id, chat, None, None), bytes, pairBytes, claim);
      r := if ok then Done else Refused(503);
    }

    /** The head of the loop of `flush`: the oldest pending event goes to one of the open sockets. */
    method Take(open: set<Socket>)
      requires Accounts() && Bounded() && !flight.Sending?
      modifies `pending, `sockets, `outstanding, `taker, `flight
      ensures Accounts() && Bounded() && Grows(old(taker), taker) && sockets.Keys == old(sockets).Keys
      ensures if old(pending) != [] && !closed && open * old(sockets).Keys != {} && old(outstanding) < config.acks then
          && flight.Sending? && flight.socket in open * old(sockets).Keys && flight.delivery == old(pending)[0]
          && pending == old(pending)[1..] && outstanding == old(outstanding) + 1
          && sockets == With(old(sockets), flight.socket, Ack(flight.delivery, false))
          && taker == old(taker)[flight.delivery.eventId := flight.socket] && flight.delivery.eventId !in old(taker)
        else
          && flight == Idle && pending == old(pending) && sockets == old(sockets)
          && outstanding == old(outstanding) && taker == old(taker)
    {
      FlightKeepsBalance(Now(), Idle);
      flight := Idle;
      if pending == [] || closed {
        return;
      }
      var targets := open * sockets.Keys;
      if targets == {} || outstanding >= config.acks {
        return;
      }
      var s :| s in targets;
      Reserve(s);
    }

    method Reserve(s: Socket)
      requires Accounts() && Bounded() && flight == Idle
      requires pending != [] && !closed && s in sockets && outstanding < config.acks
      modifies `pending, `sockets, `outstanding, `taker, `flight
      ensures Accounts() && Bounded() && Grows(old(taker), taker) && sockets.Keys == old(sockets).Keys
      ensures flight == Sending(s, old(pending)[0])
      ensures pending == old(pending)[1..] && outstanding == old(outstanding) + 1
      ensures sockets == With(old(sockets), s, Ack(flight.delivery, false))
      ensures taker == old(taker)[flight.delivery.eventId := s] && flight.delivery.eventId !in old(taker)
    {
      var d := pending[0];
      ReservationKeeps(Now(), s);
      pending, sockets := pending[1..], With(sockets, s, Ack(d, false));
      taker := taker[d.eventId := s];
      outstanding, flight := outstanding + 1, Sending(s, d);
    }

    /** The event that `flush` was sending has been written to its socket, or could not be. */
    method Sent(delivered: bool)
      requires Accounts() && Bounded()
      modifies `sockets, `outstanding, `resolved, `flight
      ensures Accounts() && Bounded() && Grows(old(resolved), resolved)
      ensures if old(flight.Sending?) && IsHeld(old(sockets), old(flight.socket), old(flight.delivery.eventId)) then
          var s, d := old(flight.socket), old(flight.delivery);
          && flight == Recording
          && sockets == (if delivered then With(old(sockets), s, Ack(d, true)) else Without(old(sockets), s, d.eventId))
          && outstanding == old(outstanding) - (if delivered then 0 else 1)
          && resolved == (if delivered then old(resolved) else old(resolved)[d.eventId := Undelivered])
        else
          && flight == (if old(flight.Sending?) then Recording else old(flight))
          && sockets == old(sockets) && outstanding == old(outstanding) && resolved == old(resolved)
    {
      if !flight.Sending? {
        return;
      }
      var s, d := flight.socket, flight.delivery;
      if !delivered {
        ClearAck(s, d.eventId, Undelivered);
      }
      SentKeepsBalance(Now());
      if delivered && IsHeld(sockets, s, d.eventId) {
        sockets := With(sockets, s, Ack(d, true));
      }
      flight := Recording;
    }

    /** `flush` again after a telemetry record; an exception ends it. */
    method Recorded(ok: bool, open: set<Socket>)
      requires Accounts() && Bounded()
      modifies `pending, `sockets, `outstanding, `taker, `flight
      ensures Accounts() && Bounded() && Grows(old(taker), taker) && sockets.Keys == old(sockets).Keys
      ensures old(flight).Recording? && !ok ==> flight == Idle && sockets == old(sockets) && pending == old(pending)
      ensures old(flight).Recording? && ok ==> Flushed(open) && !flight.Recording?
      ensures OnlyTook(old(pending), pending, flight)
    {
      if flight.Recording? {
        if ok {
          Take(open);
        } else {
          FlightKeepsBalance(Now(), Idle);
          flight := Idle;
        }
      }
    }

    method Flush(open: set<Socket>)
      requires Accounts() && Bounded()
      modifies `pending, `sockets, `outstanding, `taker, `flight
      ensures Accounts() && Bounded() && Grows(old(taker), taker) && sockets.Keys == old(sockets).Keys
      ensures Flushed(open) && OnlyTook(old(pending), pending, flight)
    {
      if flight.Idle? {
        Take(open);
      }
    }

    /** First come, first sent. */
    static predicate OnlyTook(before: seq<Delivery>, after: seq<Delivery>, flight: Flight) {
      after == before || (before != [] && after == before[1..] && flight.Sending? && flight.delivery == before[0])
    }

    /** Nothing that could be sent is left waiting by a `flush` that has ended. */
    predicate Flushed(open: set<Socket>)
      reads `flight, `pending, `closed, `sockets, `outstanding
    {
      flight.Idle? ==> pending == [] || closed || open * sockets.Keys == {} || outstanding >= config.acks
    }

    /** The acknowledgement timer of a reservation fires. */
    method Expire(s: Socket, e: Id, open: set<Socket>)
      requires Accounts() && Bounded()
      modifies `pending, `sockets, `outstanding, `taker, `flight, `resolved
      ensures Accounts() && Bounded() && Grows(old(taker), taker) && Grows(old(resolved), resolved)
      ensures resolved == if IsHeld(old(sockets), s, e) && old(sockets)[s][e].timer then old(resolved)[e := Expired]
        else old(resolved)
      ensures IsHeld(old(sockets), s, e) && old(sockets)[s][e].timer ==> Flushed(open)
    {
      if IsHeld(sockets, s, e) && sockets[s][e].timer {
        Release(s, e, Expired);
        Flush(open);
      }
    }

    /** `clearAck` of a reservation. */
    method Release(s: Socket, e: Id, ghost outcome: Outcome)
      requires Accounts() && IsHeld(sockets, s, e)
      modifies `sockets, `outstanding, `resolved
      ensures Accounts() && Grows(old(resolved), resolved)
      ensures sockets == Without(old(sockets), s, e) && outstanding == old(outstanding) - 1 && outstanding >= 0
      ensures resolved == old(resolved)[e := outcome]
    {
      ClearAck(s, e, outcome);
    }

    /** An acknowledgement frame: it must match the completing frame of a reservation of its own socket. */
    method Receive(s: Socket, f: AckFrame) returns (accepted: bool)
      requires Accounts() && Bounded()
      modifies `sockets, `outstanding, `resolved
      ensures Accounts() && Bounded() && Grows(old(resolved), resolved)
      ensures accepted <==>
        && f.event.Some? && IsHeld(old(sockets), s, f.event.value) && f.headers && f.code in {Some(200), Some(500)}
        && f.event.value in numbers && 0 < numbers[f.event.value].count
        && f.seqId == numbers[f.event.value].first + 2 * (numbers[f.event.value].count - 1)
        && f.logId == f.seqId + 1
      ensures if accepted then
          sockets == Without(old(sockets), s, f.event.value) &&
            resolved == old(resolved)[f.event.value := Acknowledged(f.code.value)]
        else sockets == old(sockets) && resolved == old(resolved) && outstanding == old(outstanding)
    {
      accepted := false;
      if f.event.None? || !IsHeld(sockets, s, f.event.value) {
        return;
      }
      LastNumbers(Now(), s, f);
      if !Completes(f, sockets[s][f.event.value].delivery) || !f.headers {
        return;
      }
      if f.code != Some(200) && f.code != Some(500) {
        return;
      }
      Release(s, f.event.value, Acknowledged(f.code.value));
      accepted := true;
    }

    /** A new socket is connected. */
    method Connect(s: Socket) returns (accepted: bool)
      requires Accounts() && Bounded() && s !in sockets
      modifies `sockets
      ensures Accounts() && Bounded()
      ensures accepted <==> !closed && |old(sockets)| < config.sockets
      ensures sockets == if accepted then old(sockets)[s := map[]] else old(sockets)
    {
      accepted := !closed && |sockets| < config.sockets;
      if accepted {
        SocketsKeepBalance(Now(), sockets[s := map[]]);
        sockets := sockets[s := map[]];
      }
    }

    /** `clearAck` of every reservation of a socket. */
    method ClearSocket(s: Socket, ghost outcome: Outcome)
      requires Accounts() && s in sockets
      modifies `sockets, `outstanding, `resolved
      ensures Accounts() && 0 <= outstanding <= old(outstanding)
      ensures sockets == old(sockets)[s := map[]]
      ensures Grows(old(resolved), resolved) && resolved.Keys == old(resolved).Keys + old(sockets)[s].Keys
      ensures forall e <- old(sockets)[s] :: resolved[e] == outcome
    {
      hide Balanced, Reserved, Consistent;
      while sockets[s] != map[]
        invariant Accounts() && outstanding <= old(outstanding)
        invariant s in sockets && sockets == old(sockets)[s := sockets[s]]
        invariant Grows(old(resolved), resolved)
        invariant sockets[s].Keys <= old(sockets)[s].Keys
        invariant resolved.Keys == old(resolved).Keys + (old(sockets)[s].Keys - sockets[s].Keys)
        invariant forall e <- old(sockets)[s] :: e in sockets[s] || resolved[e] == outcome
        decreases sockets[s].Keys
      {
        var e :| e in sockets[s];
        Release(s, e, outcome);
      }
    }

    /** A socket closes: its reservations are released, and the other events may go on. */
    method Disconnect(s: Socket, open: set<Socket>)
      requires Accounts() && Bounded()
      modifies `pending, `sockets, `outstanding, `taker, `flight, `resolved
      ensures Accounts() && Bounded() && Grows(old(taker), taker) && Grows(old(resolved), resolved)
      ensures s !in sockets && sockets.Keys == old(sockets).Keys - {s}
      ensures resolved.Keys == old(resolved).Keys + if s in old(sockets) then old(sockets)[s].Keys else {}
      ensures s in old(sockets) ==> Flushed(open) && forall e <- old(sockets)[s] ::
        e in resolved && resolved[e] == Disconnected
    {
      hide Reserved;
      if s in sockets {
        ClearSocket(s, Disconnected);
        Remove(s);
        Flush(open);
      }
    }

    method Remove(s: Socket)
      requires Accounts() && Bounded() && s in sockets && sockets[s] == map[]
      modifies `sockets
      ensures Accounts() && Bounded() && sockets == old(sockets) - {s}
    {
      SocketsKeepBalance(Now(), sockets - {s});
      assert (sockets - {s}).Keys == sockets.Keys - {s};
      sockets := sockets - {s};
    }

    method DropPending()
      requires Accounts()
      modifies `pending, `resolved
      ensures Accounts() && pending == [] && resolved == DroppedIn(old(resolved), old(pending)) &&
        Grows(old(resolved), resolved)
    {
      DropKeepsBalance(Now());
      pending, resolved := [], DroppedIn(resolved, pending);
    }

    method ClearSockets()
      requires Accounts()
      modifies `sockets, `outstanding, `resolved
      ensures Accounts() && Grows(old(resolved), resolved)
      ensures sockets.Keys == old(sockets).Keys && forall t <- sockets :: sockets[t] == map[]
    {
      var rest := sockets.Keys;
      while rest != {}
        invariant Accounts() && Grows(old(resolved), resolved)
        invariant rest <= sockets.Keys == old(sockets).Keys && forall t <- sockets.Keys - rest :: sockets[t] == map[]
        decreases rest
      {
        var s :| s in rest;
        ClearSocket(s, Disconnected);
        rest := rest - {s};
      }
    }

    /** The server closes: nothing is pending or reserved any more. */
    method Close()
      requires Accounts() && Bounded()
      modifies `closed, `pending, `sockets, `outstanding, `resolved
      ensures Accounts() && Bounded() && Grows(old(resolved), resolved)
      ensures closed && pending == [] && outstanding == 0 && sockets.Keys == old(sockets).Keys
      ensures resolved.Keys == eventIds
    {
      closed := true;
      DropPending();
      ClearSockets();
      AllResolved(Now());
    }

    /** Requests. */
    method DoMessage(step: Step)
      requires Accounts() && Bounded() && Known() && (step.Admission? || step.Answer? || step.Outbound?)
      modifies `messages, `chatPeers, `stateBytes, `ages, `eventIds, `pending, `sequence, `numbers
      ensures Accounts() && Bounded() && Known() && old(eventIds) <= eventIds
      ensures Grows(old(messages), messages) && Grows(old(chatPeers), chatPeers) && Grows(old(numbers), numbers)
    {
      hide Accounts, Bounded, Known;
      match step
      case Admission(i) =>
        var _ := Admit(i);
      case Answer(id, prior, bytes) =>
        if id !in messages {
          var _ := Reply(id, prior, bytes);
        }
      case Outbound(id, receiver, byPerson, hashed, bytes, pairBytes) =>
        if id !in messages {
          var _, _ := Create(id, receiver, byPerson, hashed, bytes, pairBytes);
        }
    }

    /** What sockets, timers and the telemetry do. */
    method DoEvent(step: Step)
      requires Accounts() && Bounded() && !(step.Admission? || step.Answer? || step.Outbound?)
      modifies `closed, `pending, `sockets, `outstanding, `taker, `flight, `resolved
      ensures Accounts() && Bounded() && Grows(old(taker), taker) && Grows(old(resolved), resolved)
    {
      match step
      case Flushing(open) => Flush(open);
      case Writing(delivered) => Sent(delivered);
      case Telemetry(ok, open) => Recorded(ok, open);
      case Timeout(s, e, open) => Expire(s, e, open);
      case Acknowledgement(s, f) =>
        var _ := Receive(s, f);
      case Connection(s) =>
        if s !in sockets {
          var _ := Connect(s);
        }
      case Disconnection(s, open) => Disconnect(s, open);
      case Shutdown => Close();
    }

    /** Any run, from any reachable state: the invariants hold, what was known stays, and no event is
        given a second socket or a second outcome. */
    method Run(steps: seq<Step>)
      requires Valid()
      modifies this
      ensures Valid()
      ensures Grows(old(taker), taker) && Grows(old(resolved), resolved) && old(eventIds) <= eventIds
      ensures Grows(old(messages), messages) && Grows(old(chatPeers), chatPeers) && Grows(old(numbers), numbers)
    {
      hide Reserved;
      for k := 0 to |steps|
        invariant Valid()
        invariant Grows(old(taker), taker) && Grows(old(resolved), resolved) && old(eventIds) <= eventIds
        invariant Grows(old(messages), messages) && Grows(old(chatPeers), chatPeers) && Grows(old(numbers), numbers)
      {
        var step := steps[k];
        if step.Admission? || step.Answer? || step.Outbound? {
          DoMessage(step);
        } else {
          DoEvent(step);
        }
      }
    }
  }

  /** The stretches of code that may come next. */
  datatype Step =
    | Admission(i: Inbound)
    | Answer(id: Id, prior: Id, bytes: nat)
    | Outbound(id: Id, receiver: Id, byPerson: bool, hashed: Id, bytes: nat, pairBytes: nat)
    | Flushing(open: set<Socket>)
    | Writing(delivered: bool)
    | Telemetry(ok: bool, open: set<Socket>)
    | Timeout(s: Socket, e: Id, open: set<Socket>)
    | Acknowledgement(s: Socket, f: AckFrame)
    | Connection(s: Socket)
    | Disconnection(s: Socket, open: set<Socket>)
    | Shutdown

  lemma AllResolved(b: Books)
    requires Balanced(b) && b.pending == [] && forall t <- b.sockets :: b.sockets[t] == map[]
    ensures b.resolved.Keys == b.eventIds && Reserved(b.sockets) == {}
  {
    forall e ensures e in b.eventIds <==> e in b.resolved {
      assert InPlace(b, e);
    }
  }

  /** In numbers: the last of `count` fragments has the last of their pairs of numbers. */
  lemma LastNumbers(b: Books, s: Socket, f: AckFrame)
    requires Balanced(b) && f.event.Some? && IsHeld(b.sockets, s, f.event.value)
    ensures var e := f.event.value;
      && e in b.numbers && 0 < b.numbers[e].count
      && (Completes(f, b.sockets[s][e].delivery) <==>
            f.seqId == b.numbers[e].first + 2 * (b.numbers[e].count - 1) && f.logId == f.seqId + 1)
  {
    assert InPlace(b, f.event.value);
  }

  /** The frame has the ids of the last fragment. */
  predicate Completes(f: AckFrame, d: Delivery) {
    && d.frames != []
    && f.seqId == d.frames[|d.frames| - 1].seqId && f.logId == d.frames[|d.frames| - 1].logId
  }
}
