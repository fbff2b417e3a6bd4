/** The `useChat` hook of hooks/use-chat.ts as transitions on its state.
    Each handler receives the outcome of the service call it makes (the call
    itself is modelled in `ChatService`) and reports the calls it made. */
module UseChat {
  import opened Outcomes
  import opened Text
  import opened Appwrite
  import opened Records
  import opened ChatService
  import opened LocalLists

  datatype HookState = HookState(
    users: seq<User>,
    chats: seq<Chat>,
    messages: seq<Message>,
    loading: bool,
    error: Option<string>,
    currentChat: Option<Chat>)

  /** A state change together with the service calls made on the way. */
  datatype Step<+S> = Step(state: S, requests: seq<Request>)

  /** A truthy `currentUserId`. */
  predicate Present(id: Option<string>) {
    id.Some? && id.value != ""
  }

  /** `loadUsers`. */
  function LoadUsers(s: HookState, currentUserId: Option<string>, reply: Result<seq<User>>): (r: Step<HookState>)
    ensures !Present(currentUserId) ==> r == Step(s, [])
    ensures Present(currentUserId) ==> r.requests == [FetchUsers(currentUserId.value)]
    ensures Present(currentUserId) && reply.Ok? ==> r.state == s.(users := reply.value, error := None)
    ensures Present(currentUserId) && reply.Err? ==>
      r.state == s.(users := [], error := Some("Failed to load users: " + reply.msg))
  {
    if !Present(currentUserId) then Step(s, [])
    else
      var req := [FetchUsers(currentUserId.value)];
      match reply
      case Ok(us) => Step(s.(users := us, error := None), req)
      case Err(m) => Step(s.(users := [], error := Some("Failed to load users: " + m)), req)
  }

  /** `loadChats`. */
  function LoadChats(s: HookState, currentUserId: Option<string>, reply: Result<seq<Chat>>): (r: Step<HookState>)
    ensures !Present(currentUserId) ==> r == Step(s, [])
    ensures Present(currentUserId) ==> r.requests == [FetchChats(currentUserId.value)]
    ensures Present(currentUserId) && reply.Ok? ==> r.state == s.(chats := reply.value, error := None)
    ensures Present(currentUserId) && reply.Err? ==>
      r.state == s.(chats := [], error := Some("Failed to load chats: " + reply.msg))
  {
    if !Present(currentUserId) then Step(s, [])
    else
      var req := [FetchChats(currentUserId.value)];
      match reply
      case Ok(cs) => Step(s.(chats := cs, error := None), req)
      case Err(m) => Step(s.(chats := [], error := Some("Failed to load chats: " + m)), req)
  }

  const MissingIds: string := "User IDs are required to start a chat"

  /** `startChat(otherUserId)`: resolve the chat, then load its messages. */
  function StartChat(s: HookState, currentUserId: Option<string>, otherUserId: string,
                     chatReply: Result<Chat>, messagesReply: Result<seq<Message>>): (r: Step<HookState>)
    ensures !Present(currentUserId) || otherUserId == "" ==> r == Step(s.(error := Some(MissingIds)), [])
    ensures Present(currentUserId) && otherUserId != "" ==>
      && !r.state.loading
      && r.state.users == s.users && r.state.chats == s.chats
      && |r.requests| >= 1 && r.requests[0] == ResolveChat(currentUserId.value, otherUserId)
      && (chatReply.Err? ==> r.requests == [ResolveChat(currentUserId.value, otherUserId)])
      && (chatReply.Ok? ==> r.requests == [ResolveChat(currentUserId.value, otherUserId), FetchMessages(chatReply.value.id)])
      && (chatReply.Ok? && messagesReply.Ok? ==>
            r.state.currentChat == Some(chatReply.value) && r.state.messages == messagesReply.value && r.state.error == None)
      && (chatReply.Err? || messagesReply.Err? ==> r.state.currentChat == None && r.state.messages == [])
      && (chatReply.Err? ==> r.state.error == Some(chatReply.msg))
      && (chatReply.Ok? && messagesReply.Err? ==> r.state.error == Some(messagesReply.msg))
  {
    if !Present(currentUserId) || otherUserId == "" then Step(s.(error := Some(MissingIds)), [])
    else
      var resolve := ResolveChat(currentUserId.value, otherUserId);
      var started := s.(loading := true, error := None);
      match chatReply
      case Err(m) => Step(started.(error := Some(m), currentChat := None, messages := [], loading := false), [resolve])
      case Ok(chat) =>
        var withChat := started.(currentChat := Some(chat));
        var reqs := [resolve, FetchMessages(chat.id)];
        match messagesReply
        case Ok(ms) => Step(withChat.(messages := ms, loading := false), reqs)
        case Err(m) => Step(withChat.(error := Some(m), currentChat := None, messages := [], loading := false), reqs)
  }

  const MissingSendData: string := "Missing required data to send message"

  datatype SendStep = SendStep(state: HookState, requests: seq<Request>, outcome: Result<Message>)

  /** `sendMessage(messageText)`: sends the trimmed text and appends the reply unchecked. */
  function SendMessage(s: HookState, currentUserId: Option<string>, text: string, reply: Result<Message>): (r: SendStep)
    ensures !Present(currentUserId) || s.currentChat.None? || Trim(text) == "" ==>
      r == SendStep(s, [], Err(MissingSendData))
    ensures Present(currentUserId) && s.currentChat.Some? && Trim(text) != "" ==>
      && r.requests == [Send(s.currentChat.value.id, currentUserId.value, Trim(text))]
      && r.outcome == reply
      && (reply.Ok? ==> r.state == s.(messages := AppendSent(s.messages, reply.value)))
      && (reply.Err? ==> r.state == s)
  {
    if !Present(currentUserId) || s.currentChat.None? || Trim(text) == "" then SendStep(s, [], Err(MissingSendData))
    else
      var req := [Send(s.currentChat.value.id, currentUserId.value, Trim(text))];
      match reply
      case Ok(m) => SendStep(s.(messages := AppendSent(s.messages, m)), req, Ok(m))
      case Err(e) => SendStep(s, req, Err(e))
  }

  /** The two subscriptions the hook holds: live only with a user and a current chat. */
  datatype Subscriptions = Subscriptions(messages: Handle, chats: Handle)

  function Subscribe(s: HookState, currentUserId: Option<string>): (r: Subscriptions)
    ensures !Present(currentUserId) || s.currentChat.None? ==> r == Subscriptions(Noop, Noop)
    ensures Present(currentUserId) && s.currentChat.Some? ==>
      r.messages == SubscribeToMessages(s.currentChat.value.id) && r.chats == SubscribeToChatUpdates(currentUserId.value)
  {
    if !Present(currentUserId) || s.currentChat.None? then Subscriptions(Noop, Noop)
    else Subscriptions(SubscribeToMessages(s.currentChat.value.id), SubscribeToChatUpdates(currentUserId.value))
  }

  /** A real-time message delivery: forwarded by the subscription, then merged without duplicates. */
  function OnMessagePush(s: HookState, subs: Subscriptions, d: Delivery<Message>): (r: HookState)
    ensures r == s.(messages := r.messages)
    ensures UniqueIds(s.messages) ==> UniqueIds(r.messages)
    ensures subs.messages.Live? ==> forall m :: m in r.messages && m !in s.messages ==> m.chatId == subs.messages.key
    ensures OnMessageDelivery(subs.messages, d).None? ==> r == s
    ensures OnMessageDelivery(subs.messages, d).Some? ==> var m := d.payload.value;
      && HasId(r.messages, m.id)
      && (HasId(s.messages, m.id) ==> r == s)
      && (!HasId(s.messages, m.id) ==> r.messages == s.messages + [m])
  {
    match OnMessageDelivery(subs.messages, d)
    case Some(m) => s.(messages := MergeIncoming(s.messages, m))
    case None => s
  }

  /** A real-time chat delivery: replaces the listed chat with the same id, never inserts. */
  function OnChatPush(s: HookState, subs: Subscriptions, d: Delivery<Chat>): (r: HookState)
    ensures r == s.(chats := r.chats)
    ensures |r.chats| == |s.chats|
    ensures forall i :: 0 <= i < |s.chats| ==> r.chats[i].id == s.chats[i].id
    ensures OnChatDelivery(subs.chats, d).None? ==> r == s
    ensures OnChatDelivery(subs.chats, d).Some? ==> var c := d.payload.value;
      forall i :: 0 <= i < |s.chats| ==> r.chats[i] == (if s.chats[i].id == c.id then c else s.chats[i])
  {
    match OnChatDelivery(subs.chats, d)
    case Some(c) => s.(chats := ReplaceChat(s.chats, c))
    case None => s
  }

  /** The effect on `currentUserId`: without a user, the chat view is cleared. */
  function OnUserChanged(s: HookState, currentUserId: Option<string>): (r: HookState)
    ensures !Present(currentUserId) ==> r == s.(currentChat := None, messages := [], error := None)
    ensures Present(currentUserId) ==> r == s
  {
    if !Present(currentUserId) then s.(currentChat := None, messages := [], error := None) else s
  }

  /** Once the user is gone the hook holds no live subscription, so no real-time
      delivery of a message or a chat changes the cleared state. */
  lemma NoUserNoPushes(s: HookState, currentUserId: Option<string>, d: Delivery<Message>, e: Delivery<Chat>)
    requires !Present(currentUserId)
    ensures var r := OnUserChanged(s, currentUserId);
      var subs := Subscribe(r, currentUserId);
      && subs == Subscriptions(Noop, Noop)
      && OnMessagePush(r, subs, d) == r && OnChatPush(r, subs, e) == r
      && r.messages == [] && r.currentChat.None?
  {
  }

  /** A message sent and then echoed by the subscription ends up listed once. */
  lemma SendThenEchoListedOnce(s: HookState, currentUserId: Option<string>, text: string, m: Message, events: seq<string>)
    requires Present(currentUserId) && s.currentChat.Some? && Trim(text) != ""
    requires UniqueIds(s.messages) && !HasId(s.messages, m.id)
    ensures var sent := SendMessage(s, currentUserId, text, Ok(m)).state;
      var echoed := OnMessagePush(sent, Subscribe(sent, currentUserId), Delivery(events, Some(m)));
      CountId(echoed.messages, m.id) == 1 && UniqueIds(echoed.messages)
  {
    var sent := SendMessage(s, currentUserId, text, Ok(m)).state;
    LocalLists.SendThenEchoListedOnce(s.messages, m);
    AppendSentUniqueIff(s.messages, m);
    assert HasId(sent.messages, m.id);
  }

  /** Fed by `getAllUsers`, the user list never shows the current user or a user
      without a name. */
  lemma LoadedUsersExcludeSelf(s: HookState, currentUserId: string, c: Cache, p: Probes,
                               reply: nat -> Reply<seq<Option<RawUser>>>, now: string)
    requires currentUserId != ""
    ensures var r := LoadUsers(s, Some(currentUserId), GetAllUsers(c, p, currentUserId, reply, now).result);
      forall u :: u in r.state.users ==> u.id != currentUserId && u.username != UnknownUser
  {
    var served := GetAllUsers(c, p, currentUserId, reply, now);
    if served.result.Ok? {
      var k :| 1 <= k <= served.attempts && reply(k).Listed?
               && served.result.value == FilterUsers(reply(k).docs, currentUserId, now);
    }
  }

  /** Fed by `getOrCreateChat`, a started chat is always between the two users. */
  lemma StartedChatPairs(s: HookState, currentUserId: string, otherUserId: string, c: Cache, p: Probes,
                         findReply: nat -> Reply<seq<Chat>>, createAck: nat -> Ack, newId: string, now: string,
                         messagesReply: Result<seq<Message>>)
    requires currentUserId != "" && otherUserId != ""
    ensures var chat := GetOrCreateChat(c, p, currentUserId, otherUserId, findReply, createAck, newId, now).result;
      var r := StartChat(s, Some(currentUserId), otherUserId, chat, messagesReply);
      r.state.currentChat.Some? ==> Pairs(r.state.currentChat.value, currentUserId, otherUserId)
  {
  }
}
