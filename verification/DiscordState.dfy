/** Two paired indexes of the Discord server (src/servers/discord.ts): the actors of a reaction and the
    reactions that a message lists, and the voice states of members and the voice sessions. */
module DiscordState {
  import opened Common

  // ---------------------------------------------------------------------------------------------
  // Emojis

  datatype Emoji = Emoji(id: Option<string>, name: string)

  function LastColon(s: string): (r: Option<nat>)
    ensures r.Some? ==> r.value < |s| && s[r.value] == ':' && forall i | r.value < i < |s| :: s[i] != ':'
    ensures r.None? ==> ':' !in s
  {
    if s == "" then None
    else if s[|s| - 1] == ':' then Some(|s| - 1)
    else LastColon(s[..|s| - 1])
  }

  predicate IsCustomId(s: string) {
    17 <= |s| <= 20 && forall c <- s :: '0' <= c <= '9'
  }

  predicate OneLine(s: string) {
    forall c <- s :: c !in {'\n', '\r', '\U{2028}', '\U{2029}'}
  }

  /** `parseReactionEmoji`: a name and, after the last colon, 17 to 20 digits. */
  function ParseEmoji(value: string): Emoji {
    match LastColon(value)
    case None => Emoji(None, value)
    case Some(i) =>
      if IsCustomId(value[i + 1..]) && OneLine(value[..i]) then Emoji(Some(value[i + 1..]), value[..i])
      else Emoji(None, value)
  }

  function EmojiKey(e: Emoji): string {
    if e.id.Some? && e.id.value != "" then e.name + ":" + e.id.value else e.name
  }

  /** `reactionKey`. */
  function Key(message: string, e: Emoji): string {
    message + ":" + EmojiKey(e)
  }

  /** The key is the text that was parsed, so different emojis have different keys. */
  lemma KeyIsText(value: string)
    ensures EmojiKey(ParseEmoji(value)) == value
  {
    match LastColon(value)
    case None =>
    case Some(i) => assert value == value[..i] + ":" + value[i + 1..];
  }

  /** Custom is exactly a text that has a colon with 17 to 20 digits after it, and one line before it; both parts
      are kept. */
  lemma CustomIff(value: string)
    ensures var e := ParseEmoji(value);
      && (e.id.Some? <==> exists i | 0 <= i < |value| :: IsCustomAt(value, i))
      && (if e.id.Some? then value == e.name + ":" + e.id.value && ':' !in e.id.value else e.name == value)
  {
    var e := ParseEmoji(value);
    if e.id.Some? {
      var i := LastColon(value).value;
      assert value == e.name + ":" + e.id.value;
      assert value[i + 1..] == e.id.value;
      assert IsCustomAt(value, i);
    }
    if i :| 0 <= i < |value| && IsCustomAt(value, i) {
      var id := value[i + 1..];
      forall j | i < j < |value| ensures value[j] != ':' {
        assert value[j] == id[j - i - 1] && id[j - i - 1] in id;
      }
      assert LastColon(value) == Some(i);
      assert OneLine(value[..i]) && IsCustomId(id);
    }
  }

  /** The custom form, spelled out. */
  predicate IsCustomAt(value: string, i: int)
    requires 0 <= i < |value|
  {
    var name, id := value[..i], value[i + 1..];
    && value[i] == ':' && 17 <= |id| <= 20 && (forall c <- id :: '0' <= c <= '9')
    && forall c <- name :: c != '\n' && c != '\r' && c != '\U{2028}' && c != '\U{2029}'
  }

  /** Message ids have no colon. */
  lemma KeysDiffer(m1: string, e1: Emoji, m2: string, e2: Emoji)
    requires ':' !in m1 && ':' !in m2 && Key(m1, e1) == Key(m2, e2)
    ensures m1 == m2 && EmojiKey(e1) == EmojiKey(e2)
  {
    var k := Key(m1, e1);
    forall i | 0 <= i < |m1| ensures k[i] != ':' {
      assert k[i] == m1[i] && m1[i] in m1;
    }
    forall i | 0 <= i < |m2| ensures k[i] != ':' {
      assert k[i] == m2[i] && m2[i] in m2;
    }
    assert k[|m1|] == ':' && k[|m2|] == ':';
    assert m1 == k[..|m1|] && m2 == k[..|m2|];
    assert EmojiKey(e1) == k[|m1| + 1..] == EmojiKey(e2);
  }

  lemma SameKey(m1: string, v1: string, m2: string, v2: string)
    requires ':' !in m1 && ':' !in m2
    requires Key(m1, ParseEmoji(v1)) == Key(m2, ParseEmoji(v2))
    ensures m1 == m2 && v1 == v2
  {
    KeysDiffer(m1, ParseEmoji(v1), m2, ParseEmoji(v2));
    KeyIsText(v1);
    KeyIsText(v2);
  }

  // ---------------------------------------------------------------------------------------------
  // Reactions

  datatype Reaction = Reaction(emoji: Emoji, count: nat)

  function ActorsOf(actors: map<string, set<string>>, key: string): set<string> {
    if key in actors then actors[key] else {}
  }

  /** The list has an emoji exactly when it has actors, once, and counts them. */
  ghost predicate Lists(reactions: seq<Reaction>, e: Emoji, actors: set<string>) {
    && (forall i | 0 <= i < |reactions| && reactions[i].emoji == e :: actors != {} && reactions[i].count == |actors|)
    && (actors != {} ==> exists i | 0 <= i < |reactions| :: reactions[i].emoji == e)
    && (forall i, j | 0 <= i < j < |reactions| :: !(reactions[i].emoji == e == reactions[j].emoji))
  }

  method FindReaction(reactions: seq<Reaction>, e: Emoji) returns (k: Option<nat>)
    ensures match k
      case Some(i) => i < |reactions| && reactions[i].emoji == e && forall j | 0 <= j < i :: reactions[j].emoji != e
      case None => forall j | 0 <= j < |reactions| :: reactions[j].emoji != e
  {
    for i := 0 to |reactions|
      invariant forall j | 0 <= j < i :: reactions[j].emoji != e
    {
      if reactions[i].emoji == e {
        return Some(i);
      }
    }
    k := None;
  }

  /** The other emojis of a list are as they were. */
  ghost predicate SameOthers(before: seq<Reaction>, after: seq<Reaction>, e: Emoji) {
    && (forall o: Emoji, actors: set<string> :: o != e && Lists(before, o, actors) ==> Lists(after, o, actors))
    && (forall r <- after :: r.emoji == e || r in before)
  }

  lemma SetCount(reactions: seq<Reaction>, k: nat, count: nat)
    requires k < |reactions|
    ensures SameOthers(reactions, reactions[k := reactions[k].(count := count)], reactions[k].emoji)
  {
    var e := reactions[k].emoji;
    var after := reactions[k := reactions[k].(count := count)];
    forall o: Emoji, actors: set<string> | o != e && Lists(reactions, o, actors) ensures Lists(after, o, actors) {
      if actors != {} {
        var i :| 0 <= i < |reactions| && reactions[i].emoji == o;
        assert after[i].emoji == o;
      }
    }
  }

  lemma Add(reactions: seq<Reaction>, e: Emoji)
    ensures SameOthers(reactions, reactions + [Reaction(e, 1)], e)
  {
    var after := reactions + [Reaction(e, 1)];
    forall o: Emoji, actors: set<string> | o != e && Lists(reactions, o, actors) ensures Lists(after, o, actors) {
      if actors != {} {
        var i :| 0 <= i < |reactions| && reactions[i].emoji == o;
        assert after[i].emoji == o;
      }
    }
  }

  lemma Drop(reactions: seq<Reaction>, k: nat)
    requires k < |reactions|
    ensures SameOthers(reactions, reactions[..k] + reactions[k + 1..], reactions[k].emoji)
  {
    var after := reactions[..k] + reactions[k + 1..];
    forall o: Emoji, actors: set<string> | o != reactions[k].emoji && Lists(reactions, o, actors)
      ensures Lists(after, o, actors) {
      if actors != {} {
        var i :| 0 <= i < |reactions| && reactions[i].emoji == o;
        assert after[if i < k then i else i - 1].emoji == o;
      }
    }
  }

  /** The list after one actor has come or gone. */
  method UpdateList(reactions: seq<Reaction>, e: Emoji, ghost before: set<string>, actors: set<string>)
    returns (after: seq<Reaction>)
    requires Lists(reactions, e, before) && (before == {} ==> |actors| <= 1)
    ensures Lists(after, e, actors) && SameOthers(reactions, after, e)
  {
    after := reactions;
    var current := FindReaction(reactions, e);
    if |actors| > 0 {
      if current.Some? {
        after := reactions[current.value := reactions[current.value].(count := |actors|)];
        SetCount(reactions, current.value, |actors|);
        assert after[current.value].emoji == e;
      } else {
        after := reactions + [Reaction(e, 1)];
        Add(reactions, e);
        assert after[|reactions|].emoji == e;
      }
    } else if current.Some? {
      after := reactions[..current.value] + reactions[current.value + 1..];
      Drop(reactions, current.value);
    }
  }

  /** Message ids are new; `Delete` and `React` name any message. */
  datatype ReactionEvent =
    | Post(id: string)
    | Delete(id: string)
    | React(id: string, value: string, user: string, present: bool)

  /** The ids are new, and have no colon. */
  predicate NewIds(events: seq<ReactionEvent>) {
    forall i | 0 <= i < |events| && events[i].Post? ::
      ':' !in events[i].id && forall j | 0 <= j < i && events[j].Post? :: events[j].id != events[i].id
  }

  /** The messages that have been posted and not deleted since. */
  function Present(events: seq<ReactionEvent>): set<string> {
    if events == [] then {}
    else
      var before, last := Present(events[..|events| - 1]), events[|events| - 1];
      match last
      case Post(id) => before + {id}
      case Delete(id) => before - {id}
      case React(_, _, _, _) => before
  }

  /** The users whose last reaction of this kind to the message, since it was posted, was added. */
  function Reacted(events: seq<ReactionEvent>, id: string, value: string): set<string> {
    if events == [] then {}
    else
      var before, last := Reacted(events[..|events| - 1], id, value), events[|events| - 1];
      match last
      case Post(posted) => if posted == id then {} else before
      case Delete(_) => before
      case React(m, v, user, present) =>
        if m != id || v != value then before else if present then before + {user} else before - {user}
  }

  ghost predicate AllParsed(reactions: seq<Reaction>) {
    forall r <- reactions :: exists value :: r.emoji == ParseEmoji(value)
  }

  class Reactions {
    var messages: map<string, seq<Reaction>>
    var reactionActors: map<string, set<string>>
    // the ids that have been given to messages
    ghost var issued: set<string>

    ghost predicate Paired(m: string, value: string)
      reads this
    {
      m in messages ==> Lists(messages[m], ParseEmoji(value), Actors(m, value))
    }

    /** A message that does not exist yet has no actors. */
    ghost predicate Unused(m: string, value: string)
      reads this
    {
      m !in issued && ':' !in m ==> Key(m, ParseEmoji(value)) !in reactionActors
    }

    ghost function Actors(m: string, value: string): set<string>
      reads this
    {
      ActorsOf(reactionActors, Key(m, ParseEmoji(value)))
    }

    ghost predicate Valid()
      reads this
    {
      && (forall m <- messages :: m in issued)
      && (forall m <- issued :: ':' !in m)
      && (forall m: string, value: string :: Paired(m, value))
      && (forall m: string, value: string :: Unused(m, value))
      && (forall m <- messages :: AllParsed(messages[m]))
    }

    constructor ()
      ensures Valid() && messages == map[] && reactionActors == map[] && issued == {}
    {
      messages, reactionActors, issued := map[], map[], {};
    }

    /** A new message; its id, of the clock and a counter, is new. */
    method Post(m: string)
      requires Valid() && m !in issued && ':' !in m
      modifies this
      ensures Valid() && messages == old(messages)[m := []] && reactionActors == old(reactionActors)
      ensures issued == old(issued) + {m}
      ensures forall value: string :: Actors(m, value) == {}
    {
      forall value: string ensures Key(m, ParseEmoji(value)) !in reactionActors {
        assert Unused(m, value);
      }
      messages := messages[m := []];
      issued := issued + {m};
      assert forall value: string :: Actors(m, value) == {};
      forall n: string, value: string ensures Paired(n, value) && Unused(n, value) {
        assert old(Paired(n, value) && Unused(n, value));
      }
    }

    /** `removeMessage`; the actors of the message stay behind. */
    method Delete(m: string)
      requires Valid()
      modifies this
      ensures Valid() && messages == old(messages) - {m} && reactionActors == old(reactionActors) &&
        issued == old(issued)
    {
      messages := messages - {m};
      forall n: string, value: string ensures Paired(n, value) && Unused(n, value) {
        assert old(Paired(n, value) && Unused(n, value));
      }
    }

    /** `updateReaction`, for an emoji as it is read from the request. */
    method Update(m: string, value: string, user: string, present: bool)
      requires Valid() && m in messages
      modifies this
      ensures Valid() && messages.Keys == old(messages).Keys && issued == old(issued)
      ensures Actors(m, value) == if present then old(Actors(m, value)) + {user} else old(Actors(m, value)) - {user}
      ensures forall k :: k != Key(m, ParseEmoji(value)) ==>
        ActorsOf(reactionActors, k) == ActorsOf(old(reactionActors), k)
      ensures forall n <- messages :: n != m ==> messages[n] == old(messages)[n]
    {
      var emoji := ParseEmoji(value);
      var key := Key(m, emoji);
      ghost var before := ActorsOf(reactionActors, key);
      var actors := if key in reactionActors then reactionActors[key] else {};
      actors := if present then actors + {user} else actors - {user};
      assert Paired(m, value);
      var reactions := UpdateList(messages[m], emoji, before, actors);
      Commit(m, value, actors, reactions);
    }

    method Commit(m: string, value: string, actors: set<string>, reactions: seq<Reaction>)
      requires Valid() && m in messages
      requires Lists(reactions, ParseEmoji(value), actors) && SameOthers(messages[m], reactions, ParseEmoji(value))
      modifies this
      ensures Valid() && messages == old(messages)[m := reactions] && issued == old(issued)
      ensures Actors(m, value) == actors
      ensures forall k :: k != Key(m, ParseEmoji(value)) ==>
        ActorsOf(reactionActors, k) == ActorsOf(old(reactionActors), k)
    {
      var key := Key(m, ParseEmoji(value));
      if |actors| > 0 {
        reactionActors := reactionActors[key := actors];
      } else {
        reactionActors := reactionActors - {key};
      }
      messages := messages[m := reactions];
      assert m in issued;
      forall n: string, v: string ensures Paired(n, v) && Unused(n, v) {
        assert old(Paired(n, v) && Unused(n, v));
        if ':' !in n && Key(n, ParseEmoji(v)) == key {
          SameKey(n, v, m, value);
        }
      }
    }

    /** One event at the interface; a reaction to a message that does not exist is answered with 404. */
    method Handle(event: ReactionEvent)
      requires Valid() && (event.Post? ==> event.id !in issued && ':' !in event.id)
      modifies this
      ensures Valid() && issued == if event.Post? then old(issued) + {event.id} else old(issued)
      ensures messages.Keys == match event
        case Post(id) => old(messages).Keys + {id}
        case Delete(id) => old(messages).Keys - {id}
        case React(_, _, _, _) => old(messages).Keys
      ensures forall m <- messages, value: string :: Actors(m, value) == match event
        case Post(id) => if id == m then {} else old(Actors(m, value))
        case Delete(_) => old(Actors(m, value))
        case React(id, v, user, present) =>
          if id != m || v != value then old(Actors(m, value))
          else if present then old(Actors(m, value)) + {user} else old(Actors(m, value)) - {user}
    {
      match event
      case Post(id) => Post(id);
      case Delete(id) => Delete(id);
      case React(id, v, user, present) =>
        if id in messages {
          assert ':' !in id;
          Update(id, v, user, present);
          forall m <- messages, value: string | id != m || v != value
            ensures Actors(m, value) == old(Actors(m, value)) {
            if Key(m, ParseEmoji(value)) == Key(id, ParseEmoji(v)) {
              SameKey(m, value, id, v);
            }
          }
        }
    }

    /** After any sequence of events the messages that are present list exactly the emojis with which
        somebody reacts, once each, and count them. */
    static method Replay(events: seq<ReactionEvent>) returns (s: Reactions)
      requires NewIds(events)
      ensures fresh(s) && s.Valid() && s.messages.Keys == Present(events)
      ensures forall m <- s.messages, value: string ::
        Lists(s.messages[m], ParseEmoji(value), Reacted(events, m, value))
    {
      s := new Reactions();
      for i := 0 to |events|
        invariant fresh(s) && s.Valid() && s.messages.Keys == Present(events[..i])
        invariant s.issued == set j | 0 <= j < i && events[j].Post? :: events[j].id
        invariant forall m <- s.messages, value: string :: s.Actors(m, value) == Reacted(events[..i], m, value)
      {
        assert events[..i + 1][..i] == events[..i];
        s.Handle(events[i]);
      }
      assert events[..|events|] == events;
      forall m <- s.messages, value: string
        ensures Lists(s.messages[m], ParseEmoji(value), Reacted(events, m, value))
      {
        assert s.Paired(m, value);
      }
    }
  }

  // ---------------------------------------------------------------------------------------------
  // Voice

  type Snowflake = nat
  type SessionId = nat

  /** A channel has a guild unless it is direct. */
  datatype Channel = Channel(guild: Option<Snowflake>, voice: bool)

  /** A guild and a user; the key of the source is their ids with a colon between. */
  datatype Member = Member(guild: Snowflake, user: Snowflake)

  datatype VoiceState = VoiceState(member: Member, channel: Snowflake, session: SessionId)

  datatype VoiceSession = VoiceSession(member: Member, token: nat)

  datatype Change = Refused | Left | Kept | Joined

  /** Live sessions and voice states are in bijection, with the same guild and user. */
  predicate Bijective(states: map<Member, VoiceState>, sessions: map<SessionId, VoiceSession>) {
    && (forall m <- states ::
      states[m].member == m && states[m].session in sessions && sessions[states[m].session].member == m)
    && (forall s <- sessions :: sessions[s].member in states && states[sessions[s].member].session == s)
  }

  /** The states of all other members, with their sessions, are as they were. */
  ghost predicate OthersStay(
    m: Member,
    states: map<Member, VoiceState>,
    sessions: map<SessionId, VoiceSession>,
    states': map<Member, VoiceState>,
    sessions': map<SessionId, VoiceSession>)
  {
    && (forall n | n != m :: n in states <==> n in states')
    && (forall n <- states | n != m :: n in states' && states'[n] == states[n])
    && (forall s <- sessions | sessions[s].member != m :: s in sessions' && sessions'[s] == sessions[s])
  }

  /** The channel in which a member is. */
  function InChannel(states: map<Member, VoiceState>, m: Member): Option<Snowflake> {
    if m in states then Some(states[m].channel) else None
  }

  function StatesOf(states: map<Member, VoiceState>, guild: Snowflake): set<VoiceState> {
    set m | m in states && m.guild == guild :: states[m]
  }

  lemma LeaveKeeps(m: Member, states: map<Member, VoiceState>, sessions: map<SessionId, VoiceSession>)
    requires Bijective(states, sessions) && m in states
    ensures Bijective(states - {m}, sessions - {states[m].session})
    ensures OthersStay(m, states, sessions, states - {m}, sessions - {states[m].session})
  {
  }

  lemma EnterKeeps(
    m: Member,
    state: VoiceState,
    session: VoiceSession,
    states: map<Member, VoiceState>,
    sessions: map<SessionId, VoiceSession>)
    requires Bijective(states, sessions) && m !in states && state.session !in sessions
    requires state.member == m == session.member
    ensures Bijective(states[m := state], sessions[state.session := session])
    ensures OthersStay(m, states, sessions, states[m := state], sessions[state.session := session])
  {
  }

  lemma StateHasSession(m: Member, states: map<Member, VoiceState>, sessions: map<SessionId, VoiceSession>)
    requires Bijective(states, sessions) && m in states
    ensures states[m].member == m && states[m].session in sessions && sessions[states[m].session].member == m
  {
  }

  lemma NobodyMoves(m: Member, states: map<Member, VoiceState>, sessions: map<SessionId, VoiceSession>)
    ensures OthersStay(m, states, sessions, states, sessions)
  {
  }

  /** Leaving, and then entering again elsewhere. */
  lemma MoveKeeps(
    m: Member,
    state: VoiceState,
    session: VoiceSession,
    states: map<Member, VoiceState>,
    sessions: map<SessionId, VoiceSession>)
    requires Bijective(states, sessions) && m in states && state.session !in sessions
    requires state.member == m == session.member
    ensures Bijective(states[m := state], (sessions - {states[m].session})[state.session := session])
    ensures OthersStay(m, states, sessions, states[m := state],
      (sessions - {states[m].session})[state.session := session])
  {
    LeaveKeeps(m, states, sessions);
    EnterKeeps(m, state, session, states - {m}, sessions - {states[m].session});
    assert states[m := state] == (states - {m})[m := state];
  }

  lemma OtherGuildsStay(
    m: Member, guild: Snowflake, states: map<Member, VoiceState>, states': map<Member, VoiceState>)
    requires forall n | n != m :: n in states <==> n in states'
    requires forall n <- states | n != m :: states'[n] == states[n]
    requires guild != m.guild
    ensures StatesOf(states, guild) == StatesOf(states', guild)
  {
  }

  datatype VoiceEvent =
    | Guild(id: Snowflake)
    | Open(id: Snowflake, channel: Channel)
    | Speak(member: Member, target: Option<Snowflake>, unused: SessionId, token: nat)

  predicate NewSessions(events: seq<VoiceEvent>) {
    forall i, j | 0 <= i < j < |events| && events[i].Speak? && events[j].Speak? :: events[i].unused != events[j].unused
  }

  function Sessions(events: seq<VoiceEvent>): set<SessionId> {
    set i | 0 <= i < |events| && events[i].Speak? :: events[i].unused
  }

  function Opened(channels: map<Snowflake, Channel>, id: Snowflake, channel: Channel): map<Snowflake, Channel> {
    if id !in channels then channels[id := channel]
    else if channel.voice then channels[id := channels[id].(voice := true)]
    else channels
  }

  /** The guild is known, and the channel, if there is one, is a voice channel of the guild. */
  predicate Admits(guilds: set<Snowflake>, channels: map<Snowflake, Channel>, m: Member, channel: Option<Snowflake>) {
    && m.guild in guilds
    && (channel.Some? ==> channel.value in channels && channels[channel.value] == Channel(Some(m.guild), true))
  }

  function Channels(events: seq<VoiceEvent>): map<Snowflake, Channel> {
    if events == [] then map[]
    else
      var before, last := Channels(events[..|events| - 1]), events[|events| - 1];
      if last.Open? then Opened(before, last.id, last.channel) else before
  }

  function Guilds(events: seq<VoiceEvent>): set<Snowflake> {
    if events == [] then {}
    else
      var before, last := events[..|events| - 1], events[|events| - 1];
      match last
      case Guild(id) => Guilds(before) + {id}
      case Open(id, channel) =>
        Guilds(before) + if id !in Channels(before) && channel.guild.Some? then {channel.guild.value} else {}
      case Speak(_, _, _, _) => Guilds(before)
  }

  /** The voice channel in which the last admitted update of the member has put it. */
  function Where(events: seq<VoiceEvent>, m: Member): Option<Snowflake> {
    if events == [] then None
    else
      var before, last := events[..|events| - 1], events[|events| - 1];
      if last.Speak? && last.member == m && Admits(Guilds(before), Channels(before), m, last.target) then last.target
      else Where(before, m)
  }

  class Voice {
    var guilds: set<Snowflake>
    var channels: map<Snowflake, Channel>
    var voiceStates: map<Member, VoiceState>
    var voiceSessions: map<SessionId, VoiceSession>
    var invalidated: set<SessionId>
    // the `voice_states` of each guild
    var listed: map<Snowflake, set<VoiceState>>

    /** The bijection, and each guild lists the states of its members. */
    ghost predicate Valid()
      reads this
    {
      && Bijective(voiceStates, voiceSessions)
      && voiceSessions.Keys !! invalidated
      && guilds == listed.Keys
      && (forall m <- voiceStates :: m.guild in guilds)
      && (forall g <- guilds :: listed[g] == StatesOf(voiceStates, g))
    }

    constructor ()
      ensures Valid() && guilds == {} && channels == map[] && voiceStates == map[] && voiceSessions == map[]
      ensures invalidated == {}
    {
      guilds, channels, listed := {}, map[], map[];
      voiceStates, voiceSessions, invalidated := map[], map[], {};
    }

    /** `ensureGuild` */
    method EnsureGuild(guild: Snowflake)
      requires Valid()
      modifies `guilds, `listed
      ensures Valid() && guilds == old(guilds) + {guild}
    {
      if guild !in guilds {
        guilds := guilds + {guild};
        listed := listed[guild := {}];
        assert StatesOf(voiceStates, guild) == {};
      }
    }

    /** `ensureChannel`; a channel that is there already only becomes a voice channel if it is asked to be one. */
    method EnsureChannel(id: Snowflake, channel: Channel)
      requires Valid()
      modifies `guilds, `channels, `listed
      ensures Valid() && channels == Opened(old(channels), id, channel)
      ensures id in channels && channels == old(channels)[id := channels[id]]
      ensures channels[id].voice <==> channel.voice || (id in old(channels) && old(channels)[id].voice)
      ensures channels[id].guild == if id in old(channels) then old(channels)[id].guild else channel.guild
      ensures guilds == old(guilds) + if id !in old(channels) && channel.guild.Some? then {channel.guild.value} else {}
    {
      if id !in channels {
        channels := channels[id := channel];
        if channel.guild.Some? {
          EnsureGuild(channel.guild.value);
        }
      } else if channel.voice {
        channels := channels[id := channels[id].(voice := true)];
      }
    }

    /** Opcode 4 of the gateway: join, move, stay or leave.  `unused` and `token` are random, and new. */
    method UpdateVoiceState(m: Member, channel: Option<Snowflake>, unused: SessionId, token: nat)
      returns (change: Change)
      requires Valid() && unused !in voiceSessions && unused !in invalidated
      modifies `voiceStates, `voiceSessions, `invalidated, `listed
      ensures Valid()
      ensures change == Refused <==>
        || m.guild !in guilds
        || (channel.Some? &&
            (channel.value !in channels || channels[channel.value].guild != Some(m.guild) ||
             !channels[channel.value].voice))
      ensures change == Refused <==> !Admits(guilds, channels, m, channel)
      ensures change == Refused || change == Kept ==>
        voiceStates == old(voiceStates) && voiceSessions == old(voiceSessions) && invalidated == old(invalidated)
      ensures change == Kept <==>
        && Admits(guilds, channels, m, channel) && channel.Some?
        && m in old(voiceStates) && old(voiceStates)[m].channel == channel.value
      ensures change == Left ==> m !in voiceStates
      ensures change == Left <==> Admits(guilds, channels, m, channel) && channel.None?
      ensures change == Joined ==>
        && m in voiceStates && voiceStates[m] == VoiceState(m, channel.value, unused)
        && unused in voiceSessions && voiceSessions[unused] == VoiceSession(m, token)
      ensures change == Left || change == Joined ==>
        invalidated == old(invalidated) + if m in old(voiceStates) then {old(voiceStates)[m].session} else {}
      ensures OthersStay(m, old(voiceStates), old(voiceSessions), voiceStates, voiceSessions)
      ensures forall n ::
        InChannel(voiceStates, n) == if n == m && change != Refused then channel else InChannel(old(voiceStates), n)
      ensures voiceSessions.Keys + invalidated <= old(voiceSessions.Keys + invalidated) + {unused}
    {
      if m.guild !in guilds {
        return Refused;
      }
      if channel.Some? {
        if channel.value !in channels || channels[channel.value] != Channel(Some(m.guild), true) {
          return Refused;
        }
      }
      change := Change(m, channel, unused, token);
      listed := listed[m.guild := StatesOf(voiceStates, m.guild)];
      forall g <- guilds ensures listed[g] == StatesOf(voiceStates, g) {
        if g != m.guild {
          OtherGuildsStay(m, g, old(voiceStates), voiceStates);
        }
      }
    }

    method Change(m: Member, channel: Option<Snowflake>, unused: SessionId, token: nat) returns (change: Change)
      requires Bijective(voiceStates, voiceSessions) && voiceSessions.Keys !! invalidated
      requires unused !in voiceSessions && unused !in invalidated
      modifies `voiceStates, `voiceSessions, `invalidated
      ensures Bijective(voiceStates, voiceSessions) && voiceSessions.Keys !! invalidated
      ensures change == Kept ==>
        voiceStates == old(voiceStates) && voiceSessions == old(voiceSessions) && invalidated == old(invalidated)
      ensures change == Kept <==>
        channel.Some? && m in old(voiceStates) && old(voiceStates)[m].channel == channel.value
      ensures change == Left <==> channel.None?
      ensures change == Left ==> m !in voiceStates
      ensures change != Refused
      ensures change == Joined ==>
        && m in voiceStates && voiceStates[m] == VoiceState(m, channel.value, unused)
        && unused in voiceSessions && voiceSessions[unused] == VoiceSession(m, token)
      ensures change == Left || change == Joined ==>
        invalidated == old(invalidated) + if m in old(voiceStates) then {old(voiceStates)[m].session} else {}
      ensures OthersStay(m, old(voiceStates), old(voiceSessions), voiceStates, voiceSessions)
      ensures forall n :: InChannel(voiceStates, n) == if n == m then channel else InChannel(old(voiceStates), n)
      ensures voiceSessions.Keys + invalidated <= old(voiceSessions.Keys + invalidated) + {unused}
    {
      ghost var states, sessions := voiceStates, voiceSessions;
      if m in states {
        StateHasSession(m, states, sessions);
      } else {
        assert states - {m} == states;
      }
      NobodyMoves(m, states, sessions);
      hide Bijective, OthersStay;
      var previous := if m in voiceStates then Some(voiceStates[m]) else None;
      var retains := channel.Some? && previous.Some? && previous.value.channel == channel.value
        && previous.value.session in voiceSessions;
      if previous.Some? && !retains {
        LeaveKeeps(m, states, sessions);
        voiceSessions := voiceSessions - {previous.value.session};
        invalidated := invalidated + {previous.value.session};
      }
      var session := if retains then previous.value.session else unused;
      var voiceToken := if retains then voiceSessions[previous.value.session].token else token;
      if channel.Some? {
        var state, voiceSession := VoiceState(m, channel.value, session), VoiceSession(m, voiceToken);
        if previous.None? {
          EnterKeeps(m, state, voiceSession, states, sessions);
        } else if !retains {
          MoveKeeps(m, state, voiceSession, states, sessions);
        }
        voiceStates := voiceStates[m := state];
        voiceSessions := voiceSessions[session := voiceSession];
        assert retains ==> voiceStates == states && voiceSessions == sessions;
      } else {
        voiceStates := voiceStates - {m};
      }
      change := if channel.None? then Left else if retains then Kept else Joined;
    }

    /** One event; the sessions that were ever live stay among `issued`. */
    method Handle(event: VoiceEvent, ghost before: seq<VoiceEvent>, ghost issued: set<SessionId>)
      requires Valid() && Follows(before) && voiceSessions.Keys + invalidated <= issued
      requires event.Speak? ==> event.unused !in issued
      modifies this
      ensures Valid() && Follows(before + [event])
      ensures voiceSessions.Keys + invalidated <= issued + if event.Speak? then {event.unused} else {}
    {
      assert (before + [event])[..|before|] == before;
      hide OthersStay, Bijective, StatesOf, Admits;
      match event
      case Guild(id) => EnsureGuild(id);
      case Open(id, channel) => EnsureChannel(id, channel);
      case Speak(m, channel, unused, token) =>
        var _ := UpdateVoiceState(m, channel, unused, token);
    }

    /** The state is that of the last admitted update of each member. */
    ghost predicate Follows(events: seq<VoiceEvent>)
      reads this
    {
      && guilds == Guilds(events) && channels == Channels(events)
      && (forall m :: InChannel(voiceStates, m) == Where(events, m))
    }

    /** After any sequence of events the state is that of the last admitted update of each member, and
        live sessions and voice states are in bijection. */
    static method Replay(events: seq<VoiceEvent>) returns (s: Voice)
      requires NewSessions(events)
      ensures fresh(s) && s.Valid() && s.Follows(events)
    {
      s := new Voice();
      for i := 0 to |events|
        invariant fresh(s) && s.Valid() && s.Follows(events[..i])
        invariant s.voiceSessions.Keys + s.invalidated <= Sessions(events[..i])
      {
        assert events[..i + 1] == events[..i] + [events[i]];
        s.Handle(events[i], events[..i], Sessions(events[..i]));
      }
      assert events[..|events|] == events;
    }
  }
}
