/** What the Feishu server (src/servers/feishu.ts) knows of chats and of replies. */
module FeishuChats {
  import opened Common

  type Id = string

  datatype Message = Message(id: Id, chat: Id, parent: Option<Id>, root: Option<Id>)

  /** What a message says of its chat: nothing, that it is a group, or who the peer is
      (`undefined`, `null` and a string in the source). */
  datatype Claim = Unknown | Group | Person(peer: Id)

  /** The chat table: `None` marks a group. */
  type Peers = map<Id, Option<Id>>

  predicate Injective(peers: Peers) {
    forall c <- peers, d <- peers :: peers[c].Some? && peers[c] == peers[d] ==> c == d
  }

  function Extended(peers: Peers, chat: Id, claim: Claim): Peers {
    if claim.Unknown? || chat in peers then peers
    else peers[chat := if claim.Group? then None else Some(claim.peer)]
  }

  predicate Says(peers: Peers, chat: Id, claim: Claim) {
    match claim
    case Unknown => !(chat in peers && peers[chat] == None)
    case Group => chat in peers && peers[chat] == None
    case Person(peer) => chat in peers && peers[chat] == Some(peer)
  }

  /** The claim can be taken into the table: it then says so, and still gives each peer one chat. */
  predicate Agrees(peers: Peers, chat: Id, claim: Claim) {
    Says(Extended(peers, chat, claim), chat, claim) && Injective(Extended(peers, chat, claim))
  }

  /** No chat but this one may be known for the peer. */
  lemma PersonAgrees(peers: Peers, chat: Id, peer: Id)
    requires Injective(peers)
    ensures Agrees(peers, chat, Person(peer)) <==>
      && (chat in peers ==> peers[chat] == Some(peer))
      && (forall c <- peers :: peers[c] == Some(peer) ==> c == chat)
  {
    var extended := Extended(peers, chat, Person(peer));
    if Agrees(peers, chat, Person(peer)) {
      forall c | c in peers && peers[c] == Some(peer) ensures c == chat {
        assert c in extended && chat in extended;
      }
    }
  }

  /** A new message is a reply to a message that is there, in its chat, with its root. */
  predicate RepliesTo(messages: map<Id, Message>, m: Message) {
    match m.parent
    case None => m.root == None
    case Some(p) => p in messages && messages[p].chat == m.chat && m.root == Some(RootFor(messages[p]))
  }

  function RootFor(prior: Message): Id {
    if prior.root.Some? then prior.root.value else prior.id
  }

  /** What is known: the messages with the order in which they came, and the chats. */
  datatype Chats = Chats(messages: map<Id, Message>, peers: Peers, ages: map<Id, nat>)

  predicate HasMessage(messages: map<Id, Message>, chat: Id) {
    exists m <- messages :: messages[m].chat == chat
  }

  /** A message is a reply to an older one, or to none. */
  predicate InThread(c: Chats, i: Id) {
    i in c.messages ==>
      && c.messages[i].id == i && i in c.ages && c.ages[i] < |c.messages| && RepliesTo(c.messages, c.messages[i])
      && (c.messages[i].parent.Some? ==>
        c.messages[i].parent.value in c.ages && c.ages[c.messages[i].parent.value] < c.ages[i])
  }

  /** A chat of the table has a message; its peer has no other chat and is not the bot. */
  predicate InTable(bot: Id, c: Chats, i: Id) {
    i in c.peers ==>
      && c.peers[i] != Some(bot) && HasMessage(c.messages, i)
      && forall d <- c.peers :: c.peers[d].Some? && c.peers[d] == c.peers[i] ==> d == i
  }

  ghost predicate Consistent(bot: Id, c: Chats) {
    forall i: Id :: InThread(c, i) && InTable(bot, c, i)
  }

  lemma TableIsInjective(bot: Id, c: Chats)
    requires Consistent(bot, c)
    ensures Injective(c.peers)
  {
    forall i | i in c.peers ensures InTable(bot, c, i) {}
  }

  /** The end of the parent chain. */
  ghost function End(bot: Id, c: Chats, m: Id): Id
    requires Consistent(bot, c) && m in c.messages
    decreases if m in c.ages then c.ages[m] else 0
  {
    assert InThread(c, m);
    match c.messages[m].parent
    case None => m
    case Some(p) => assert InThread(c, p); End(bot, c, p)
  }

  /** The root of a reply is the end of its parent chain, in its chat. */
  lemma {:induction false} RootIsEnd(bot: Id, c: Chats, m: Id)
    requires Consistent(bot, c) && m in c.messages
    ensures var e := End(bot, c, m);
      && e in c.messages && c.messages[e].parent == None && c.messages[e].chat == c.messages[m].chat
      && c.messages[m].root == if c.messages[m].parent == None then None else Some(e)
    decreases if m in c.ages then c.ages[m] else 0
  {
    assert InThread(c, m);
    if c.messages[m].parent.Some? {
      assert InThread(c, c.messages[m].parent.value);
      RootIsEnd(bot, c, c.messages[m].parent.value);
    }
  }

  lemma AddKeepsConsistent(bot: Id, c: Chats, m: Message, claim: Claim)
    requires Consistent(bot, c) && m.id !in c.messages
    requires RepliesTo(c.messages, m) && Injective(Extended(c.peers, m.chat, claim)) && claim != Person(bot)
    ensures Consistent(bot,
      Chats(c.messages[m.id := m], Extended(c.peers, m.chat, claim), c.ages[m.id := |c.messages|]))
  {
    var after := Chats(c.messages[m.id := m], Extended(c.peers, m.chat, claim), c.ages[m.id := |c.messages|]);
    forall i ensures InThread(after, i) && InTable(bot, after, i) {
      assert InThread(c, i) && InTable(bot, c, i);
      if m.parent.Some? {
        assert InThread(c, m.parent.value);
      }
      AddKeepsMessage(c.messages, m, i);
    }
  }

  lemma AddKeepsMessage(messages: map<Id, Message>, m: Message, chat: Id)
    requires m.id !in messages
    ensures HasMessage(messages, chat) || m.chat == chat ==> HasMessage(messages[m.id := m], chat)
  {
    var after := messages[m.id := m];
    if m.chat == chat {
      assert after[m.id].chat == chat;
    } else if HasMessage(messages, chat) {
      var i :| i in messages && messages[i].chat == chat;
      assert i in after && after[i].chat == chat;
    }
  }
}
