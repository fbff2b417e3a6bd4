/** The handlers of the `ChatRoom` component (chat-room.tsx) as transitions on
    its state. Rendering, scrolling and toasts are not part of the state. */
module ChatRoom {
  import opened Outcomes
  import opened Text
  import opened Appwrite
  import opened Records
  import opened ChatService
  import opened LocalLists
  import UseChat

  datatype RoomState = RoomState(
    messages: seq<Message>,
    input: string,
    currentChat: Option<Chat>,
    loading: bool,
    sending: bool,
    error: Option<string>,
    permissionError: Option<string>)

  /** Messages the room shows in its permission banner rather than as a plain error. */
  predicate IsPermissionMessage(msg: string) {
    Contains(msg, "not authorized") || Contains(msg, "Permission denied")
  }

  /** The `catch` of `initializeChat`: the message goes to exactly one of the two slots. */
  function Classify(s: RoomState, msg: string): (r: RoomState)
    ensures IsPermissionMessage(msg) ==> r == s.(permissionError := Some(msg))
    ensures !IsPermissionMessage(msg) ==> r == s.(error := Some(msg))
  {
    if IsPermissionMessage(msg) then s.(permissionError := Some(msg)) else s.(error := Some(msg))
  }

  datatype Checked = Checked(state: RoomState, ok: bool)

  /** `checkPermissions`: passes iff the status was read and lists no errors. */
  function CheckPermissions(s: RoomState, status: Result<PermissionStatus>): (r: Checked)
    ensures r.ok <==> status.Ok? && status.value.errors == []
    ensures r.state == s.(permissionError := r.state.permissionError)
    ensures r.ok ==> r.state.permissionError == None
    ensures status.Ok? && status.value.errors != [] ==>
      r.state.permissionError == Some("Permission issues detected: " + Join(status.value.errors, ", "))
    ensures status.Err? ==> r.state.permissionError == Some(status.msg)
  {
    match status
    case Err(m) => Checked(s.(permissionError := Some(m)), false)
    case Ok(st) =>
      if |st.errors| > 0 then
        Checked(s.(permissionError := Some("Permission issues detected: " + Join(st.errors, ", "))), false)
      else Checked(s.(permissionError := None), true)
  }

  /** Against the service's own status record, the check passes iff all three collections
      were reachable. */
  lemma CheckPassesIffAllReachable(s: RoomState, p: Probes)
    ensures CheckPermissions(s, Ok(CheckCollectionPermissions(p))).ok
        <==> p.users.Acked? && p.chats.Acked? && p.messages.Acked?
  {
  }

  /** `initializeChat`: check permissions, resolve the chat, load its messages. */
  function InitializeChat(s: RoomState, currentUserId: Option<string>, selected: Option<User>,
                          status: Result<PermissionStatus>, chatReply: Result<Chat>,
                          messagesReply: Result<seq<Message>>): (r: UseChat.Step<RoomState>)
    ensures !UseChat.Present(currentUserId) || selected.None? ==> r == UseChat.Step(s, [])
    ensures UseChat.Present(currentUserId) && selected.Some? ==>
      && !r.state.loading
      && r.state.input == s.input && r.state.sending == s.sending
      && |r.requests| >= 1 && r.requests[0] == ReadPermissions
      && (!CheckPermissions(s, status).ok ==>
            r.requests == [ReadPermissions] && r.state.currentChat == s.currentChat
            && r.state.messages == s.messages && r.state.error == None
            && r.state.permissionError == CheckPermissions(s, status).state.permissionError
            && r.state.permissionError.Some?)
      && (CheckPermissions(s, status).ok ==>
            |r.requests| >= 2 && r.requests[1] == ResolveChat(currentUserId.value, selected.value.id))
      && (CheckPermissions(s, status).ok && chatReply.Err? ==>
            r.requests == [ReadPermissions, ResolveChat(currentUserId.value, selected.value.id)])
      && (CheckPermissions(s, status).ok && chatReply.Ok? ==>
            r.requests == [ReadPermissions, ResolveChat(currentUserId.value, selected.value.id),
                           FetchMessages(chatReply.value.id)])
      && (CheckPermissions(s, status).ok && chatReply.Ok? ==> r.state.currentChat == Some(chatReply.value))
      && (CheckPermissions(s, status).ok && chatReply.Ok? && messagesReply.Err? ==>
            r.state.messages == s.messages
            && (IsPermissionMessage(messagesReply.msg) <==> r.state.permissionError == Some(messagesReply.msg))
            && (!IsPermissionMessage(messagesReply.msg) <==> r.state.error == Some(messagesReply.msg))
            && (IsPermissionMessage(messagesReply.msg) ==> r.state.error == None)
            && (!IsPermissionMessage(messagesReply.msg) ==> r.state.permissionError == None))
      && (CheckPermissions(s, status).ok && chatReply.Ok? && messagesReply.Ok? ==>
            r.state.messages == messagesReply.value && r.state.error == None && r.state.permissionError == None)
      && (CheckPermissions(s, status).ok && chatReply.Err? ==>
            r.state.currentChat == s.currentChat && r.state.messages == s.messages
            && (IsPermissionMessage(chatReply.msg) <==> r.state.permissionError == Some(chatReply.msg))
            && (!IsPermissionMessage(chatReply.msg) <==> r.state.error == Some(chatReply.msg))
            && (IsPermissionMessage(chatReply.msg) ==> r.state.error == None)
            && (!IsPermissionMessage(chatReply.msg) ==> r.state.permissionError == None))
  {
    if !UseChat.Present(currentUserId) || selected.None? then UseChat.Step(s, [])
    else
      var started := s.(loading := true, error := None, permissionError := None);
      var check := CheckPermissions(started, status);
      if !check.ok then UseChat.Step(check.state.(loading := false), [ReadPermissions])
      else
        var resolve := ResolveChat(currentUserId.value, selected.value.id);
        match chatReply
        case Err(m) => UseChat.Step(Classify(check.state, m).(loading := false), [ReadPermissions, resolve])
        case Ok(chat) =>
          var withChat := check.state.(currentChat := Some(chat));
          var reqs := [ReadPermissions, resolve, FetchMessages(chat.id)];
          match messagesReply
          case Ok(ms) => UseChat.Step(withChat.(messages := ms, loading := false), reqs)
          case Err(m) => UseChat.Step(Classify(withChat, m).(loading := false), reqs)
  }

  /** A permission message stays one under any prefix. */
  lemma PrefixKeepsPermissionMessage(prefix: string, msg: string)
    requires IsPermissionMessage(msg)
    ensures IsPermissionMessage(prefix + msg)
  {
    assert prefix + msg + "" == prefix + msg;
    if Contains(msg, "not authorized") {
      ContainsInContext(prefix, msg, "", "not authorized");
    } else {
      ContainsInContext(prefix, msg, "", "Permission denied");
    }
  }

  /** A permission failure met by `withRetry` keeps its marker through every
      "Failed to ...: " prefix the service adds, so the room files it as a permission error. */
  lemma RetryPermissionErrorIsClassified(prefix: string, msg: string)
    ensures IsPermissionMessage(prefix + PermissionDenied(msg))
  {
    PermissionDeniedKeepsMarkers(msg);
    PrefixKeepsPermissionMessage(prefix, PermissionDenied(msg));
  }

  /** A lookup refused with "not authorized" or "missing scope" is tried once and
      reported as a permission denial. */
  lemma FindRefusalStopsAtOnce(c: Cache, p: Probes, a: string, b: string, findReply: nat -> Reply<seq<Chat>>)
    requires a != "" && b != ""
    requires EnsurePermissions(c, p).status.chatsAccessible
    requires findReply(1).Threw? && IsPermissionFailure(findReply(1).msg)
    ensures var f := FindExistingChat(c, p, a, b, findReply);
      f.attempts == 1 && f.result == Err("Failed to find chat: " + PermissionDenied(findReply(1).msg))
  {
    var op := FindAttempts(findReply, a, b);
    assert op(1) == Err(findReply(1).msg);
    PermissionFailureStopsRetries(op, DefaultRetries, DefaultDelay, 1);
  }

  /** ... and `getOrCreateChat` then writes nothing and fails with an error the room
      files as a permission error. */
  lemma ResolveRefusalIsPermissionError(c: Cache, p: Probes, a: string, b: string,
                                        findReply: nat -> Reply<seq<Chat>>, createAck: nat -> Ack,
                                        newId: string, now: string)
    requires a != "" && b != ""
    requires EnsurePermissions(c, p).status.chatsAccessible
    requires findReply(1).Threw? && IsPermissionFailure(findReply(1).msg)
    ensures var resolved := GetOrCreateChat(c, p, a, b, findReply, createAck, newId, now);
      && resolved.attempts == 1 && resolved.writes == []
      && resolved.result.Err? && IsPermissionMessage(resolved.result.msg)
  {
    FindRefusalStopsAtOnce(c, p, a, b, findReply);
    var f := FindExistingChat(c, p, a, b, findReply);
    RetryPermissionErrorIsClassified("Failed to find chat: ", findReply(1).msg);
    PrefixKeepsPermissionMessage("Failed to get or create chat: ", f.result.msg);
  }

  /** A chat lookup failure that is a permission error ends in the room's permission
      banner, not in its plain error slot. */
  lemma ResolveRefusalReachesBanner(s: RoomState, currentUserId: string, selected: User,
                                    msg: string, messagesReply: Result<seq<Message>>)
    requires currentUserId != "" && IsPermissionMessage(msg)
    ensures var r := InitializeChat(s, Some(currentUserId), Some(selected),
                                    Ok(PermissionStatus(true, true, true, [])), Err(msg), messagesReply);
      r.state.permissionError == Some(msg) && r.state.error == None && !r.state.loading
  {
  }

  // ---------------------------------------------------------------------------
  // Sending
  // ---------------------------------------------------------------------------

  datatype SendStart = Skipped | Started(state: RoomState, text: string, request: Request)

  /** The synchronous part of `handleSendMessage`: the guard, then clearing the input
      and raising `sending` before the call. */
  function BeginSend(s: RoomState, currentUserId: Option<string>): (r: SendStart)
    ensures r.Skipped? <==> !UseChat.Present(currentUserId) || s.currentChat.None? || Trim(s.input) == "" || s.sending
    ensures r.Started? ==>
      && r.text == Trim(s.input)
      && r.state == s.(input := "", sending := true)
      && r.request == Send(s.currentChat.value.id, currentUserId.value, Trim(s.input))
  {
    if !UseChat.Present(currentUserId) || s.currentChat.None? || Trim(s.input) == "" || s.sending then Skipped
    else Started(s.(input := "", sending := true), Trim(s.input), Send(s.currentChat.value.id, currentUserId.value, Trim(s.input)))
  }

  /** The part of `handleSendMessage` after the call returns: the reply is appended
      without an id check; a failure restores the text. */
  function FinishSend(s: RoomState, text: string, reply: Result<Message>): (r: RoomState)
    ensures !r.sending
    ensures reply.Ok? ==> r == s.(messages := AppendSent(s.messages, reply.value), sending := false)
    ensures reply.Err? ==> r.messages == s.messages && r.input == text && r.error == s.error
    ensures reply.Err? ==> r.permissionError == (if IsPermissionMessage(reply.msg) then Some(reply.msg) else s.permissionError)
    ensures reply.Err? ==> r == s.(input := text, sending := false, permissionError := r.permissionError)
  {
    match reply
    case Ok(m) => s.(messages := AppendSent(s.messages, m), sending := false)
    case Err(e) =>
      var restored := s.(input := text);
      (if IsPermissionMessage(e) then restored.(permissionError := Some(e)) else restored).(sending := false)
  }

  /** `handleSendMessage` when nothing happens while the call is in flight. */
  function HandleSendMessage(s: RoomState, currentUserId: Option<string>, reply: Result<Message>): (r: UseChat.Step<RoomState>)
    ensures BeginSend(s, currentUserId).Skipped? ==> r == UseChat.Step(s, [])
    ensures BeginSend(s, currentUserId).Started? ==>
      && r.requests == [Send(s.currentChat.value.id, currentUserId.value, Trim(s.input))]
      && !r.state.sending
      && (reply.Ok? ==> r.state.input == "" && r.state.messages == s.messages + [reply.value])
      && (reply.Err? ==> r.state.input == Trim(s.input) && r.state.messages == s.messages)
      && (reply.Ok? ==> r.state == s.(input := "", messages := s.messages + [reply.value]))
      && (reply.Err? ==> r.state == s.(input := Trim(s.input),
                                       permissionError := if IsPermissionMessage(reply.msg) then Some(reply.msg)
                                                          else s.permissionError))
  {
    match BeginSend(s, currentUserId)
    case Skipped => UseChat.Step(s, [])
    case Started(inFlight, text, req) => UseChat.Step(FinishSend(inFlight, text, reply), [req])
  }

  /** While a send is in flight, a second press does nothing. */
  lemma NoSecondSendInFlight(s: RoomState, currentUserId: Option<string>)
    requires BeginSend(s, currentUserId).Started?
    ensures BeginSend(BeginSend(s, currentUserId).state, currentUserId).Skipped?
  {
  }

  /** The subscription the room holds: live only while a chat is open. */
  function RoomSubscription(s: RoomState): (h: Handle)
    ensures s.currentChat.None? ==> h == Noop
    ensures s.currentChat.Some? ==> h == SubscribeToMessages(s.currentChat.value.id)
  {
    if s.currentChat.None? then Noop else SubscribeToMessages(s.currentChat.value.id)
  }

  /** A real-time delivery: forwarded by the subscription, then merged without duplicates. */
  function OnMessagePush(s: RoomState, d: Delivery<Message>): (r: RoomState)
    ensures r == s.(messages := r.messages)
    ensures UniqueIds(s.messages) ==> UniqueIds(r.messages)
    ensures forall m :: m in r.messages && m !in s.messages ==>
      s.currentChat.Some? && m.chatId == s.currentChat.value.id
    ensures OnMessageDelivery(RoomSubscription(s), d).None? ==> r == s
    ensures OnMessageDelivery(RoomSubscription(s), d).Some? ==> var m := d.payload.value;
      && HasId(r.messages, m.id)
      && (HasId(s.messages, m.id) ==> r == s)
      && (!HasId(s.messages, m.id) ==> r.messages == s.messages + [m])
  {
    match OnMessageDelivery(RoomSubscription(s), d)
    case Some(m) => s.(messages := MergeIncoming(s.messages, m))
    case None => s
  }

  /** As written: the echo of a message delivered while its send is in flight is merged,
      and the reply is then appended again, listing the message twice. */
  lemma EchoDuringSendDuplicates(s: RoomState, currentUserId: Option<string>, m: Message, events: seq<string>)
    requires BeginSend(s, currentUserId).Started?
    requires UniqueIds(s.messages) && !HasId(s.messages, m.id)
    requires s.currentChat.value.id != "" && m.chatId == s.currentChat.value.id
    requires SomeContains(events, ".create")
    ensures var start := BeginSend(s, currentUserId);
      var echoed := OnMessagePush(start.state, Delivery(events, Some(m)));
      var done := FinishSend(echoed, start.text, Ok(m));
      CountId(done.messages, m.id) == 2 && !UniqueIds(done.messages)
  {
    var start := BeginSend(s, currentUserId);
    assert start.state.messages == s.messages && start.state.currentChat == s.currentChat;
    assert RoomSubscription(start.state) == Live(m.chatId);
    assert OnMessageDelivery(Live(m.chatId), Delivery(events, Some(m))) == Some(m);
    var echoed := OnMessagePush(start.state, Delivery(events, Some(m)));
    assert echoed.messages == MergeIncoming(s.messages, m);
    EchoThenSendListedTwice(s.messages, m);
  }

  /** The completion of a send with the same id check as the real-time path. */
  function FinishSendOnce(s: RoomState, text: string, reply: Result<Message>): (r: RoomState)
    ensures !r.sending
    ensures reply.Ok? ==> r == s.(messages := AppendSentOnce(s.messages, reply.value), sending := false)
    ensures reply.Ok? && UniqueIds(s.messages) ==> UniqueIds(r.messages) && CountId(r.messages, reply.value.id) == 1
    ensures reply.Err? ==> r == FinishSend(s, text, reply)
  {
    match reply
    case Ok(m) => s.(messages := AppendSentOnce(s.messages, m), sending := false)
    case Err(_) => FinishSend(s, text, reply)
  }

  /** With the corrected completion, the echo race leaves the message listed once. */
  lemma EchoDuringSendOnce(s: RoomState, currentUserId: Option<string>, m: Message, events: seq<string>)
    requires BeginSend(s, currentUserId).Started?
    requires UniqueIds(s.messages)
    ensures var start := BeginSend(s, currentUserId);
      var echoed := OnMessagePush(start.state, Delivery(events, Some(m)));
      var done := FinishSendOnce(echoed, start.text, Ok(m));
      CountId(done.messages, m.id) == 1 && UniqueIds(done.messages)
  {
  }

  /** The effect on the selection: open the chat, or clear everything when the
      selection or the user is missing. */
  function OnSelectionChanged(s: RoomState, currentUserId: Option<string>, selected: Option<User>,
                              status: Result<PermissionStatus>, chatReply: Result<Chat>,
                              messagesReply: Result<seq<Message>>): (r: UseChat.Step<RoomState>)
    ensures !UseChat.Present(currentUserId) || selected.None? ==>
      r == UseChat.Step(s.(currentChat := None, messages := [], error := None, permissionError := None), [])
    ensures UseChat.Present(currentUserId) && selected.Some? ==>
      r == InitializeChat(s, currentUserId, selected, status, chatReply, messagesReply)
  {
    if UseChat.Present(currentUserId) && selected.Some? then
      InitializeChat(s, currentUserId, selected, status, chatReply, messagesReply)
    else UseChat.Step(s.(currentChat := None, messages := [], error := None, permissionError := None), [])
  }

  /** Once the selection or the user is gone the room holds no live subscription,
      so no real-time delivery changes the cleared state. */
  lemma DeselectedRoomIgnoresPushes(s: RoomState, currentUserId: Option<string>, selected: Option<User>,
                                    status: Result<PermissionStatus>, chatReply: Result<Chat>,
                                    messagesReply: Result<seq<Message>>, d: Delivery<Message>)
    requires !UseChat.Present(currentUserId) || selected.None?
    ensures var r := OnSelectionChanged(s, currentUserId, selected, status, chatReply, messagesReply).state;
      && RoomSubscription(r) == Noop
      && OnMessagePush(r, d) == r
      && r.messages == [] && r.currentChat.None? && r.permissionError.None?
  {
  }
}
