/** The static class `ChatService` of lib/chat-service.ts.
    The class-level permission cache is an explicit `Cache` value threaded
    through every operation. A backend call is an oracle indexed by attempt
    number and is always made through `withRetry` with its defaults; the
    outcome of an operation reports the new cache, the result, how many
    backend attempts it made and the writes that reached the backend. */
module ChatService {
  import opened Outcomes
  import opened Text
  import opened Appwrite
  import opened Records

  /** What one attempt of a `listDocuments` call yields: an error, a response
      without a `documents` field, or the documents. */
  datatype Reply<+T> = Threw(msg: string) | NoDocuments | Listed(docs: T)

  /** `permissionsChecked` and `permissionStatus`. */
  datatype Cache = Cache(checked: bool, status: PermissionStatus)

  /** The cache as the class starts out. */
  const Fresh: Cache := Cache(false, PermissionStatus(false, false, false, []))

  /** A write that reached the backend. */
  datatype Write =
    | CreatedChat(chat: Chat)
    | CreatedMessage(message: Message)
    | TouchedChat(chatId: string, lastMessage: string, lastUpdated: string)

  datatype Served<+T> = Served(cache: Cache, result: Result<T>, attempts: nat, writes: seq<Write>)

  /** The operation neither probed permissions nor called the backend. */
  predicate Untouched<T>(c: Cache, r: Served<T>) {
    r.cache == c && r.attempts == 0 && r.writes == []
  }

  const UnknownUser: string := "Unknown User"
  const NoEmail: string := "No Email"
  const NoNumber: string := "No Number"

  const UsersInaccessible: string :=
    "Users collection is not accessible. Please check collection permissions in Appwrite console."
  const ChatsInaccessible: string :=
    "Chats collection is not accessible. Please check collection permissions in Appwrite console."
  const MessagesInaccessible: string :=
    "Messages collection is not accessible. Please check collection permissions in Appwrite console."

  /** A call a UI component makes on the service, with its arguments. */
  datatype Request =
    | FetchUsers(userId: string)
    | FetchChats(userId: string)
    | ResolveChat(userA: string, userB: string)
    | FetchMessages(chatId: string)
    | Send(chatId: string, senderId: string, text: string)
    | ReadPermissions

  // ---------------------------------------------------------------------------
  // Permission cache
  // ---------------------------------------------------------------------------

  /** `ensurePermissions`: probes only while the cache is unchecked. */
  function EnsurePermissions(c: Cache, p: Probes): (r: Cache)
    ensures r.checked
    ensures c.checked ==> r == c
    ensures !c.checked ==> r.status == CheckCollectionPermissions(p)
  {
    if c.checked then c else Cache(true, CheckCollectionPermissions(p))
  }

  /** The probe runs at most once: whatever later probes would report,
      a checked cache is never recomputed. */
  lemma ProbeRunsOnce(c: Cache, first: Probes, later: Probes)
    ensures EnsurePermissions(EnsurePermissions(c, first), later) == EnsurePermissions(c, first)
  {
  }

  datatype StatusRead = StatusRead(cache: Cache, status: PermissionStatus)

  /** `getPermissionStatus`: the cached record, computed first if absent. */
  function GetPermissionStatus(c: Cache, p: Probes): (r: StatusRead)
    ensures r.cache.checked && r.status == r.cache.status
    ensures c.checked ==> r == StatusRead(c, c.status)
    ensures !c.checked ==> r.status == CheckCollectionPermissions(p)
  {
    var c' := EnsurePermissions(c, p);
    StatusRead(c', c'.status)
  }

  // ---------------------------------------------------------------------------
  // Backend calls through `withRetry`
  // ---------------------------------------------------------------------------

  /** What a service method reports after running its closure `op` through `withRetry`
      with the default budget and prefixing any error in its `catch`: it succeeds exactly
      when some attempt succeeds before a permission failure, and then with that
      attempt's value after that many attempts; otherwise it fails with the prefixed
      error of the last attempt it made. Every attempt before the last failed without a
      permission failure, and a failed run stops early only at a permission failure. */
  ghost predicate RetriedAs<T>(result: Result<T>, attempts: nat, op: nat -> Result<T>, prefix: string) {
    && 1 <= attempts <= DefaultRetries
    && (forall j :: 1 <= j < attempts ==> op(j).Err? && !IsPermissionFailure(op(j).msg))
    && (result.Err? && op(attempts).Err? && !IsPermissionFailure(op(attempts).msg) ==> attempts == DefaultRetries)
    && (result.Ok? <==> exists k :: SucceedsAt(op, DefaultRetries, k))
    && (forall k :: SucceedsAt(op, DefaultRetries, k) ==> attempts == k && result == op(k))
    && (result.Err? ==> op(attempts).Err? && result.msg == prefix + RetryFailure(op(attempts).msg))
  }

  /** `withRetry` with its defaults, its error prefixed by the caller, is described by `RetriedAs`. */
  lemma RetriedWithDefaults<T>(op: nat -> Result<T>, prefix: string)
    ensures var run := WithRetry(op, DefaultRetries, DefaultDelay);
      RetriedAs(run.result.Rewrap(prefix), run.attempts, op, prefix)
  {
    WithRetrySucceedsIff(op, DefaultRetries, DefaultDelay);
  }

  /** `RetriedAs` leaves no freedom: for a given closure and prefix, the outcome and the
      number of attempts are determined, on failure as on success. */
  lemma RetriedAsUnique<T>(r1: Result<T>, n1: nat, r2: Result<T>, n2: nat, op: nat -> Result<T>, prefix: string)
    requires RetriedAs(r1, n1, op, prefix) && RetriedAs(r2, n2, op, prefix)
    ensures n1 == n2 && r1 == r2
  {
    if exists k :: SucceedsAt(op, DefaultRetries, k) {
      var k :| SucceedsAt(op, DefaultRetries, k);
    }
  }

  /** A network failure followed by a permission failure: the run stops at the second
      attempt and reports the permission denial, not the earlier network error. */
  lemma RetriedStopsAtDenial<T>(result: Result<T>, attempts: nat, op: nat -> Result<T>, prefix: string)
    requires op(1).Err? && !IsPermissionFailure(op(1).msg)
    requires op(2).Err? && IsPermissionFailure(op(2).msg)
    requires RetriedAs(result, attempts, op, prefix)
    ensures attempts == 2 && result == Err(prefix + PermissionDenied(op(2).msg))
  {
    assert !SucceedsAt(op, DefaultRetries, 3);
  }

  /** One attempt of a create or update call: its value once acknowledged, else the refusal. */
  function AckAttempt<T>(ack: Ack, value: T): (r: Result<T>)
    ensures r.Ok? <==> ack.Acked?
    ensures r.Ok? ==> r.value == value
    ensures r.Err? ==> r.msg == ack.msg
  {
    match ack
    case Acked => Ok(value)
    case Refused(m) => Err(m)
  }

  /** The closure of a create or update call, attempt by attempt. */
  function AckAttempts<T>(ack: nat -> Ack, value: T): nat -> Result<T> {
    (k: nat) => AckAttempt(ack(k), value)
  }

  /** Attempt k of a create or update call is acknowledged within the default budget,
      after k - 1 refusals none of which was a permission failure. */
  ghost predicate AckedAt(ack: nat -> Ack, k: nat) {
    && 1 <= k <= DefaultRetries
    && ack(k).Acked?
    && forall j :: 1 <= j < k ==> ack(j).Refused? && !IsPermissionFailure(ack(j).msg)
  }

  /** For a create or update call, an attempt succeeds in `withRetry`'s sense exactly
      when the backend acknowledged it in the sense of `AckedAt`. */
  lemma AckedAtIff<T>(ack: nat -> Ack, value: T)
    ensures forall k :: SucceedsAt(AckAttempts(ack, value), DefaultRetries, k) <==> AckedAt(ack, k)
  {
    forall k ensures SucceedsAt(AckAttempts(ack, value), DefaultRetries, k) <==> AckedAt(ack, k) {
      forall j | 1 <= j ensures AckAttempts(ack, value)(j) == AckAttempt(ack(j), value) {
      }
    }
  }

  /** At most one attempt is the acknowledged one: every attempt before it was refused. */
  lemma AckedAtUnique(ack: nat -> Ack, k: nat)
    requires AckedAt(ack, k)
    ensures forall j: nat :: AckedAt(ack, j) ==> j == k
  {
  }

  // ---------------------------------------------------------------------------
  // Users
  // ---------------------------------------------------------------------------

  /** `normalizeUser`: nothing for a missing record or one without `$id`;
      otherwise the record with falsy display fields replaced by sentinels. */
  function NormalizeUser(doc: Option<RawUser>, now: string): (r: Option<User>)
    ensures r.None? <==> doc.None? || doc.value.id == ""
    ensures r.Some? ==> r.value.id == doc.value.id
    ensures r.Some? ==> r.value.username == (if doc.value.username == "" then UnknownUser else doc.value.username)
    ensures r.Some? ==> r.value.email == (if doc.value.email == "" then NoEmail else doc.value.email)
    ensures r.Some? ==> r.value.number == (if doc.value.number == "" then NoNumber else doc.value.number)
    ensures r.Some? ==> r.value.password == doc.value.password
    ensures r.Some? ==> r.value.createdAt == (if doc.value.createdAt == "" then now else doc.value.createdAt)
  {
    match doc
    case None => None
    case Some(u) =>
      if u.id == "" then None
      else Some(User(
        u.id,
        if u.username != "" then u.username else UnknownUser,
        if u.email != "" then u.email else NoEmail,
        if u.number != "" then u.number else NoNumber,
        u.password,
        if u.createdAt != "" then u.createdAt else now))
  }

  /** A user seen again as a raw document. */
  function AsRaw(u: User): RawUser {
    RawUser(u.id, u.username, u.email, u.number, u.password, u.createdAt)
  }

  /** A normalised user has no empty display field, and normalising it again changes nothing. */
  lemma NormalizeUserSettles(doc: Option<RawUser>, now: string, later: string)
    requires NormalizeUser(doc, now).Some? && now != ""
    ensures var u := NormalizeUser(doc, now).value;
      u.username != "" && u.email != "" && u.number != ""
      && NormalizeUser(Some(AsRaw(u)), later) == Some(u)
  {
  }

  /** One document through the three stages of `getAllUsers`: present with an id
      other than the caller's, normalised, and not named "Unknown User". */
  function Admit(doc: Option<RawUser>, currentUserId: string, now: string): (r: Option<User>)
    ensures r.Some? <==>
      doc.Some? && doc.value.id != "" && doc.value.id != currentUserId
      && NormalizeUser(doc, now).value.username != UnknownUser
    ensures r.Some? ==> r == NormalizeUser(doc, now)
  {
    if doc.Some? && doc.value.id != "" && doc.value.id != currentUserId then
      var u := NormalizeUser(doc, now);
      if u.Some? && u.value.username != UnknownUser then u else None
    else None
  }

  /** The filter-map-filter pipeline applied to the documents of one response. */
  function FilterUsers(docs: seq<Option<RawUser>>, currentUserId: string, now: string): (r: seq<User>)
    ensures |r| <= |docs|
    ensures forall u :: u in r ==> u.id != "" && u.id != currentUserId && u.username != UnknownUser
  {
    if docs == [] then []
    else
      var rest := FilterUsers(docs[1..], currentUserId, now);
      match Admit(docs[0], currentUserId, now)
      case Some(u) => [u] + rest
      case None => rest
  }

  /** `users` is obtained from `docs` by normalising some of them, in order. */
  ghost predicate NormalizesSubsequence(users: seq<User>, docs: seq<Option<RawUser>>, now: string)
    decreases |docs|
  {
    if users == [] then true
    else if docs == [] then false
    else
      || (NormalizeUser(docs[0], now) == Some(users[0]) && NormalizesSubsequence(users[1..], docs[1..], now))
      || NormalizesSubsequence(users, docs[1..], now)
  }

  /** The users returned are an order-preserving selection of the normalised documents,
      and every document the pipeline admits is among them. */
  lemma {:induction false} FilterUsersIsSelection(docs: seq<Option<RawUser>>, currentUserId: string, now: string)
    ensures NormalizesSubsequence(FilterUsers(docs, currentUserId, now), docs, now)
    ensures forall i :: 0 <= i < |docs| && Admit(docs[i], currentUserId, now).Some? ==>
      Admit(docs[i], currentUserId, now).value in FilterUsers(docs, currentUserId, now)
  {
    if docs != [] {
      FilterUsersIsSelection(docs[1..], currentUserId, now);
      var r := FilterUsers(docs, currentUserId, now);
      var rest := FilterUsers(docs[1..], currentUserId, now);
      forall i | 0 <= i < |docs| && Admit(docs[i], currentUserId, now).Some?
        ensures Admit(docs[i], currentUserId, now).value in r
      {
        if i > 0 {
          assert docs[i] == docs[1..][i - 1];
        }
      }
      match Admit(docs[0], currentUserId, now)
      case Some(u) =>
        assert r[1..] == rest;
      case None =>
        assert r == rest;
        SelectionSkips(r, docs, now);
    }
  }

  /** Skipping a leading document keeps a selection a selection. */
  lemma {:induction false} SelectionSkips(users: seq<User>, docs: seq<Option<RawUser>>, now: string)
    requires docs != [] && NormalizesSubsequence(users, docs[1..], now)
    ensures NormalizesSubsequence(users, docs, now)
  {
  }

  /** One attempt of the retried closure in `getAllUsers`: a response without documents
      is an error, and the documents go through the pipeline. */
  function ListUsersAttempt(reply: Reply<seq<Option<RawUser>>>, currentUserId: string, now: string): (r: Result<seq<User>>)
    ensures r.Ok? <==> reply.Listed?
    ensures r.Ok? ==> r.value == FilterUsers(reply.docs, currentUserId, now)
    ensures reply.Threw? ==> r == Err(reply.msg)
    ensures reply.NoDocuments? ==> r == Err("No documents in response")
  {
    match reply
    case Threw(m) => Err(m)
    case NoDocuments => Err("No documents in response")
    case Listed(docs) => Ok(FilterUsers(docs, currentUserId, now))
  }

  function UsersAttempts(reply: nat -> Reply<seq<Option<RawUser>>>, currentUserId: string, now: string)
    : nat -> Result<seq<User>>
  {
    (k: nat) => ListUsersAttempt(reply(k), currentUserId, now)
  }

  /** `getAllUsers(currentUserId)`. */
  function GetAllUsers(c: Cache, p: Probes, currentUserId: string,
                       reply: nat -> Reply<seq<Option<RawUser>>>, now: string): (r: Served<seq<User>>)
    ensures currentUserId == "" ==> Untouched(c, r) && r.result == Err("Current user ID is required")
    ensures currentUserId != "" ==> r.cache == EnsurePermissions(c, p) && r.writes == []
    ensures currentUserId != "" && !r.cache.status.usersAccessible ==>
      r.attempts == 0 && r.result == Err(UsersInaccessible)
    ensures r.attempts <= DefaultRetries
    ensures r.result.Ok? ==>
      exists k :: 1 <= k <= r.attempts && reply(k).Listed? && r.result.value == FilterUsers(reply(k).docs, currentUserId, now)
    ensures r.result.Err? && r.attempts > 0 ==> HasPrefix(r.result.msg, "Failed to fetch users: ")
    ensures currentUserId != "" && r.cache.status.usersAccessible ==>
      RetriedAs(r.result, r.attempts, UsersAttempts(reply, currentUserId, now), "Failed to fetch users: ")
  {
    if currentUserId == "" then Served(c, Err("Current user ID is required"), 0, [])
    else
      var c' := EnsurePermissions(c, p);
      if !c'.status.usersAccessible then Served(c', Err(UsersInaccessible), 0, [])
      else
        var op := UsersAttempts(reply, currentUserId, now);
        var run := WithRetry(op, DefaultRetries, DefaultDelay);
        RetriedWithDefaults(op, "Failed to fetch users: ");
        assert run.result.Ok? ==> run.result == op(run.attempts);
        Served(c', run.result.Rewrap("Failed to fetch users: "), run.attempts, [])
  }

  // ---------------------------------------------------------------------------
  // Chats
  // ---------------------------------------------------------------------------

  /** The filter of `findExistingChat`: participants (a, b) in either order. */
  predicate Pairs(ch: Chat, a: string, b: string) {
    (ch.user1 == a && ch.user2 == b) || (ch.user1 == b && ch.user2 == a)
  }

  /** The filter matches exactly the chats whose participants are a and b, counted
      with multiplicity. */
  lemma PairsIffSameParticipants(ch: Chat, a: string, b: string)
    ensures Pairs(ch, a, b) <==> multiset{ch.user1, ch.user2} == multiset{a, b}
  {
    if multiset{ch.user1, ch.user2} == multiset{a, b} {
      assert ch.user1 in multiset{a, b} && a in multiset{ch.user1, ch.user2};
      if ch.user1 == a {
        assert multiset{ch.user1, ch.user2} - multiset{a} == multiset{a, b} - multiset{a};
      } else {
        assert multiset{ch.user1, ch.user2} - multiset{ch.user1} == multiset{a, b} - multiset{b};
      }
    }
  }

  /** The lookup does not depend on the order of the two participants. */
  lemma PairsSymmetric(ch: Chat, a: string, b: string)
    ensures Pairs(ch, a, b) <==> Pairs(ch, b, a)
  {
  }

  /** The answer to the filter with `limit(1)`: the first matching document. */
  function FirstMatch(docs: seq<Chat>, a: string, b: string): (r: Option<Chat>)
    ensures r.None? <==> forall i :: 0 <= i < |docs| ==> !Pairs(docs[i], a, b)
    ensures r.Some? ==> r.value in docs && Pairs(r.value, a, b)
    ensures r.Some? ==> exists i :: 0 <= i < |docs| && docs[i] == r.value
                                   && forall j :: 0 <= j < i ==> !Pairs(docs[j], a, b)
  {
    if docs == [] then None
    else if Pairs(docs[0], a, b) then Some(docs[0])
    else FirstMatch(docs[1..], a, b)
  }

  /** Both orders of the participants pick the same chat from the same collection. */
  lemma {:induction false} FirstMatchSymmetric(docs: seq<Chat>, a: string, b: string)
    ensures FirstMatch(docs, a, b) == FirstMatch(docs, b, a)
  {
    if docs != [] {
      FirstMatchSymmetric(docs[1..], a, b);
    }
  }

  /** One attempt of the retried closure in `findExistingChat`. The oracle lists the
      chats collection in the backend's order; the filter and `limit(1)` select from it. */
  function FindAttempt(reply: Reply<seq<Chat>>, a: string, b: string): (r: Result<Option<Chat>>)
    ensures r.Err? <==> reply.Threw?
    ensures r.Err? ==> r.msg == reply.msg
    ensures reply.NoDocuments? ==> r == Ok(None)
    ensures reply.Listed? ==> r == Ok(FirstMatch(reply.docs, a, b))
  {
    match reply
    case Threw(m) => Err(m)
    case NoDocuments => Ok(None)
    case Listed(docs) => Ok(FirstMatch(docs, a, b))
  }

  function FindAttempts(reply: nat -> Reply<seq<Chat>>, a: string, b: string): nat -> Result<Option<Chat>> {
    (k: nat) => FindAttempt(reply(k), a, b)
  }

  /** `findExistingChat(user1Id, user2Id)`. */
  function FindExistingChat(c: Cache, p: Probes, a: string, b: string,
                            reply: nat -> Reply<seq<Chat>>): (r: Served<Option<Chat>>)
    ensures a == "" || b == "" ==> Untouched(c, r) && r.result == Err("Both user IDs are required")
    ensures a != "" && b != "" ==> r.cache == EnsurePermissions(c, p)
    ensures a != "" && b != "" && !r.cache.status.chatsAccessible ==>
      r.attempts == 0 && r.result == Err(ChatsInaccessible)
    ensures r.writes == [] && r.attempts <= DefaultRetries
    ensures r.result.Ok? && r.result.value.Some? ==> Pairs(r.result.value.value, a, b)
    ensures r.result.Ok? ==> exists k :: 1 <= k <= r.attempts && r.result == FindAttempt(reply(k), a, b)
    ensures r.result.Err? && r.attempts > 0 ==> HasPrefix(r.result.msg, "Failed to find chat: ")
    ensures a != "" && b != "" && r.cache.status.chatsAccessible ==>
      RetriedAs(r.result, r.attempts, FindAttempts(reply, a, b), "Failed to find chat: ")
  {
    if a == "" || b == "" then Served(c, Err("Both user IDs are required"), 0, [])
    else
      var c' := EnsurePermissions(c, p);
      if !c'.status.chatsAccessible then Served(c', Err(ChatsInaccessible), 0, [])
      else
        var op := FindAttempts(reply, a, b);
        var run := WithRetry(op, DefaultRetries, DefaultDelay);
        RetriedWithDefaults(op, "Failed to find chat: ");
        assert run.result.Ok? ==> run.result == FindAttempt(reply(run.attempts), a, b);
        Served(c', run.result.Rewrap("Failed to find chat: "), run.attempts, [])
  }

  /** Each attempt of the lookup answers the same for both orders of the participants. */
  lemma FindAttemptSymmetric(reply: Reply<seq<Chat>>, a: string, b: string)
    ensures FindAttempt(reply, a, b) == FindAttempt(reply, b, a)
  {
    if reply.Listed? {
      FirstMatchSymmetric(reply.docs, a, b);
    }
  }

  /** The document `createNewChat` writes, with the id the backend assigned. */
  function NewChat(id: string, a: string, b: string, now: string): (ch: Chat)
    ensures ch.id == id && ch.user1 == a && ch.user2 == b && Pairs(ch, a, b)
    ensures ch.createdAt == now && ch.lastUpdated == now
    ensures ch.isGroup == Some(false) && ch.lastMessage == None
  {
    Chat(id, a, b, now, Some(false), None, now)
  }

  /** `createNewChat(user1Id, user2Id)`; `newId` stands for `ID.unique()`. */
  function CreateNewChat(c: Cache, p: Probes, a: string, b: string,
                         ack: nat -> Ack, newId: string, now: string): (r: Served<Chat>)
    ensures a == "" || b == "" ==> Untouched(c, r) && r.result == Err("Both user IDs are required")
    ensures a != "" && b != "" ==> r.cache == EnsurePermissions(c, p)
    ensures a != "" && b != "" && !r.cache.status.chatsAccessible ==>
      r.attempts == 0 && r.writes == [] && r.result == Err(ChatsInaccessible)
    ensures r.attempts <= DefaultRetries
    ensures r.result.Ok? <==> r.writes == [CreatedChat(NewChat(newId, a, b, now))]
    ensures r.result.Ok? ==> r.result.value == NewChat(newId, a, b, now)
    ensures r.result.Err? ==> r.writes == []
    ensures r.result.Err? && r.attempts > 0 ==> HasPrefix(r.result.msg, "Failed to create chat: ")
    ensures a != "" && b != "" && r.cache.status.chatsAccessible ==>
      && (r.result.Ok? <==> exists k :: AckedAt(ack, k))
      && RetriedAs(r.result, r.attempts, AckAttempts(ack, NewChat(newId, a, b, now)), "Failed to create chat: ")
  {
    if a == "" || b == "" then Served(c, Err("Both user IDs are required"), 0, [])
    else
      var c' := EnsurePermissions(c, p);
      if !c'.status.chatsAccessible then Served(c', Err(ChatsInaccessible), 0, [])
      else
        var chat := NewChat(newId, a, b, now);
        var op := AckAttempts(ack, chat);
        var run := WithRetry(op, DefaultRetries, DefaultDelay);
        RetriedWithDefaults(op, "Failed to create chat: ");
        AckedAtIff(ack, chat);
        match run.result
        case Ok(v) =>
          assert run.result == op(run.attempts);
          Served(c', Ok(v), run.attempts, [CreatedChat(v)])
        case Err(m) => Served(c', Err("Failed to create chat: " + m), run.attempts, [])
  }

  /** `getOrCreateChat(user1Id, user2Id)`: a found chat is returned unchanged, and a chat
      is created, with the caller's order of participants, only when none was found. */
  function GetOrCreateChat(c: Cache, p: Probes, a: string, b: string,
                           findReply: nat -> Reply<seq<Chat>>, createAck: nat -> Ack,
                           newId: string, now: string): (r: Served<Chat>)
    ensures a == "" || b == "" ==> Untouched(c, r) && r.result == Err("Both user IDs are required")
    ensures a != "" && b != "" ==> r.cache == EnsurePermissions(c, p)
    ensures var f := FindExistingChat(c, p, a, b, findReply);
      && (f.result.Ok? && f.result.value.Some? ==> r == Served(f.cache, Ok(f.result.value.value), f.attempts, []))
      && (r.writes != [] ==> f.result == Ok(None) && r.writes == [CreatedChat(NewChat(newId, a, b, now))]
                             && r.result == Ok(NewChat(newId, a, b, now)))
      && (a != "" && b != "" && f.result == Ok(None) && r.result.Ok? ==> r.writes != [])
    ensures r.result.Ok? ==> Pairs(r.result.value, a, b)
    ensures r.result.Err? && r.result.msg != "Both user IDs are required" ==>
      HasPrefix(r.result.msg, "Failed to get or create chat: ")
    ensures a != "" && b != "" ==> var f := FindExistingChat(c, p, a, b, findReply);
      f.result.Err? ==> r == Served(f.cache, Err("Failed to get or create chat: " + f.result.msg), f.attempts, [])
    ensures a != "" && b != "" ==> var f := FindExistingChat(c, p, a, b, findReply);
      f.result == Ok(None) ==>
        var n := CreateNewChat(f.cache, p, a, b, createAck, newId, now);
        && r.cache == n.cache && r.attempts == f.attempts + n.attempts && r.writes == n.writes
        && (r.result.Ok? <==> exists k :: AckedAt(createAck, k))
        && (r.result.Ok? ==> r.result == n.result)
        && (r.result.Err? ==> r.result.msg == "Failed to get or create chat: " + n.result.msg)
  {
    if a == "" || b == "" then Served(c, Err("Both user IDs are required"), 0, [])
    else
      var f := FindExistingChat(c, p, a, b, findReply);
      match f.result
      case Err(m) => Served(f.cache, Err("Failed to get or create chat: " + m), f.attempts, [])
      case Ok(Some(chat)) => Served(f.cache, Ok(chat), f.attempts, [])
      case Ok(None) =>
        var n := CreateNewChat(f.cache, p, a, b, createAck, newId, now);
        Served(n.cache, n.result.Rewrap("Failed to get or create chat: "), f.attempts + n.attempts, n.writes)
  }

  /** The chats a list of writes adds to the chats collection. */
  function CreatedChats(writes: seq<Write>): seq<Chat> {
    if writes == [] then []
    else (if writes[0].CreatedChat? then [writes[0].chat] else []) + CreatedChats(writes[1..])
  }

  /** Sequential resolution is stable: once `getOrCreateChat(a, b)` has returned a chat
      against a healthy backend, `getOrCreateChat(b, a)` returns that same chat and
      creates nothing, even with a fresh id at hand. */
  lemma ResolveTwiceSameChat(c: Cache, p: Probes, a: string, b: string, docs: seq<Chat>,
                             id1: string, id2: string, t1: string, t2: string)
    requires GetOrCreateChat(c, p, a, b, (k: nat) => Listed(docs), (k: nat) => Acked, id1, t1).result.Ok?
    ensures var first := GetOrCreateChat(c, p, a, b, (k: nat) => Listed(docs), (k: nat) => Acked, id1, t1);
      var docs' := docs + CreatedChats(first.writes);
      var second := GetOrCreateChat(first.cache, p, b, a, (k: nat) => Listed(docs'), (k: nat) => Acked, id2, t2);
      second.result == first.result && second.writes == []
  {
    var reply1 := (k: nat) => Listed(docs);
    var first := GetOrCreateChat(c, p, a, b, reply1, (k: nat) => Acked, id1, t1);
    var f := FindExistingChat(c, p, a, b, reply1);
    FirstAttemptSucceeds(FindAttempts(reply1, a, b), DefaultRetries, DefaultDelay);
    var docs' := docs + CreatedChats(first.writes);
    assert f.result.Ok? && f.result == Ok(FirstMatch(docs, a, b));
    if f.result.value.Some? {
      assert docs' == docs;
      FirstMatchSymmetric(docs, a, b);
    } else {
      var ch := NewChat(id1, a, b, t1);
      assert first.writes == [CreatedChat(ch)];
      assert CreatedChats(first.writes) == [ch];
      FirstMatchAppended(docs, ch, b, a);
    }
    assert first.cache == f.cache && f.cache.status.chatsAccessible;
    var reply2 := (k: nat) => Listed(docs');
    assert reply2(1) == Listed(docs');
    assert FindAttempt(reply2(1), b, a).Ok?;
    FirstAttemptSucceeds(FindAttempts(reply2, b, a), DefaultRetries, DefaultDelay);
  }

  /** Appending a matching chat to a collection without a match makes it the answer. */
  lemma FirstMatchAppended(docs: seq<Chat>, ch: Chat, a: string, b: string)
    requires FirstMatch(docs, a, b).None? && Pairs(ch, a, b)
    ensures FirstMatch(docs + [ch], a, b) == Some(ch)
  {
    var r := FirstMatch(docs + [ch], a, b);
    assert (docs + [ch])[|docs|] == ch;
  }

  /** One attempt of the retried closure in `getUserChats` or `getChatMessages`:
      the backend's answer, already filtered, ordered and limited by the backend. */
  function ListAttempt<T>(reply: Reply<seq<T>>): (r: Result<seq<T>>)
    ensures r.Err? <==> reply.Threw?
    ensures r.Err? ==> r.msg == reply.msg
    ensures reply.NoDocuments? ==> r == Ok([])
    ensures reply.Listed? ==> r == Ok(reply.docs)
  {
    match reply
    case Threw(m) => Err(m)
    case NoDocuments => Ok([])
    case Listed(docs) => Ok(docs)
  }

  function ListAttempts<T>(reply: nat -> Reply<seq<T>>): nat -> Result<seq<T>> {
    (k: nat) => ListAttempt(reply(k))
  }

  /** `getUserChats(userId)`. */
  function GetUserChats(c: Cache, p: Probes, userId: string, reply: nat -> Reply<seq<Chat>>): (r: Served<seq<Chat>>)
    ensures userId == "" ==> Untouched(c, r) && r.result == Err("User ID is required")
    ensures userId != "" ==> r.cache == EnsurePermissions(c, p)
    ensures userId != "" && !r.cache.status.chatsAccessible ==>
      r.attempts == 0 && r.result == Err(ChatsInaccessible)
    ensures r.writes == [] && r.attempts <= DefaultRetries
    ensures r.result.Ok? ==> exists k :: 1 <= k <= r.attempts && r.result == ListAttempt(reply(k))
    ensures r.result.Err? && r.attempts > 0 ==> HasPrefix(r.result.msg, "Failed to get chats: ")
    ensures userId != "" && r.cache.status.chatsAccessible ==>
      RetriedAs(r.result, r.attempts, ListAttempts(reply), "Failed to get chats: ")
  {
    if userId == "" then Served(c, Err("User ID is required"), 0, [])
    else
      var c' := EnsurePermissions(c, p);
      if !c'.status.chatsAccessible then Served(c', Err(ChatsInaccessible), 0, [])
      else
        var op := ListAttempts(reply);
        var run := WithRetry(op, DefaultRetries, DefaultDelay);
        RetriedWithDefaults(op, "Failed to get chats: ");
        assert run.result.Ok? ==> run.result == op(run.attempts);
        Served(c', run.result.Rewrap("Failed to get chats: "), run.attempts, [])
  }

  // ---------------------------------------------------------------------------
  // Messages
  // ---------------------------------------------------------------------------

  /** `getChatMessages(chatId, limit)`; the limit is part of the backend query. */
  function GetChatMessages(c: Cache, p: Probes, chatId: string, reply: nat -> Reply<seq<Message>>): (r: Served<seq<Message>>)
    ensures chatId == "" ==> Untouched(c, r) && r.result == Err("Chat ID is required")
    ensures chatId != "" ==> r.cache == EnsurePermissions(c, p)
    ensures chatId != "" && !r.cache.status.messagesAccessible ==>
      r.attempts == 0 && r.result == Err(MessagesInaccessible)
    ensures r.writes == [] && r.attempts <= DefaultRetries
    ensures r.result.Ok? ==> exists k :: 1 <= k <= r.attempts && r.result == ListAttempt(reply(k))
    ensures r.result.Err? && r.attempts > 0 ==> HasPrefix(r.result.msg, "Failed to get messages: ")
    ensures chatId != "" && r.cache.status.messagesAccessible ==>
      RetriedAs(r.result, r.attempts, ListAttempts(reply), "Failed to get messages: ")
  {
    if chatId == "" then Served(c, Err("Chat ID is required"), 0, [])
    else
      var c' := EnsurePermissions(c, p);
      if !c'.status.messagesAccessible then Served(c', Err(MessagesInaccessible), 0, [])
      else
        var op := ListAttempts(reply);
        var run := WithRetry(op, DefaultRetries, DefaultDelay);
        RetriedWithDefaults(op, "Failed to get messages: ");
        assert run.result.Ok? ==> run.result == op(run.attempts);
        Served(c', run.result.Rewrap("Failed to get messages: "), run.attempts, [])
  }

  /** The document `sendMessage` writes; the `attachments` key is present only
      for a truthy attachment, and the type defaults to "text". */
  function MessageDocument(id: string, chatId: string, senderId: string, text: string,
                           kind: Option<string>, attachments: Option<string>, now: string): (m: Message)
    ensures m.id == id && m.timestamp == now
    ensures m.status == "sent" && m.chatId == chatId && m.senderId == senderId && m.text == text
    ensures kind.Some? ==> m.kind == kind.value
    ensures kind.None? ==> m.kind == "text"
    ensures m.attachments.Some? <==> attachments.Some? && attachments.value != ""
    ensures m.attachments.Some? ==> m.attachments == attachments
  {
    Message(id, chatId, senderId, text, now, "sent", kind.GetOr("text"),
            if attachments.Some? && attachments.value != "" then attachments else None)
  }

  /** `updateChatLastMessage(chatId, lastMessage)`: best effort, never fails. */
  function UpdateChatLastMessage(c: Cache, chatId: string, lastMessage: string,
                                 ack: nat -> Ack, now: string): (r: Served<()>)
    ensures r.result == Ok(()) && r.cache == c
    ensures chatId == "" || lastMessage == "" ==> Untouched(c, r)
    ensures r.attempts <= DefaultRetries
    ensures r.writes == [] || r.writes == [TouchedChat(chatId, lastMessage, now)]
    ensures chatId != "" && lastMessage != "" ==>
      && 1 <= r.attempts
      && (r.writes == [TouchedChat(chatId, lastMessage, now)] <==> exists k :: AckedAt(ack, k))
  {
    if chatId == "" || lastMessage == "" then Served(c, Ok(()), 0, [])
    else
      var op := AckAttempts(ack, ());
      var run := WithRetry(op, DefaultRetries, DefaultDelay);
      WithRetrySucceedsIff(op, DefaultRetries, DefaultDelay);
      AckedAtIff(ack, ());
      Served(c, Ok(()), run.attempts, if run.result.Ok? then [TouchedChat(chatId, lastMessage, now)] else [])
  }

  /** The part of `sendMessage` past its checks: create the document through `withRetry`,
      then, only once it is created, make the best-effort last-message update. */
  function CreateThenTouch(c: Cache, chatId: string, text: string, doc: Message,
                           createAck: nat -> Ack, updateAck: nat -> Ack, now: string): (r: Served<Message>)
    requires chatId != "" && text != ""
    ensures r.cache == c
    ensures r.result.Ok? <==> exists k :: AckedAt(createAck, k)
    ensures forall k: nat :: AckedAt(createAck, k) ==>
      && r.result == Ok(doc)
      && k < r.attempts <= k + DefaultRetries
      && r.writes == [CreatedMessage(doc)]
                     + (if exists j :: AckedAt(updateAck, j) then [TouchedChat(chatId, text, now)] else [])
    ensures r.result.Err? ==>
      r.writes == [] && RetriedAs(r.result, r.attempts, AckAttempts(createAck, doc), "Failed to send message: ")
  {
    var op := AckAttempts(createAck, doc);
    var run := WithRetry(op, DefaultRetries, DefaultDelay);
    RetriedWithDefaults(op, "Failed to send message: ");
    AckedAtIff(createAck, doc);
    match run.result
    case Err(m) => Served(c, Err("Failed to send message: " + m), run.attempts, [])
    case Ok(v) =>
      assert run.result == op(run.attempts) && v == doc;
      assert AckedAt(createAck, run.attempts);
      AckedAtUnique(createAck, run.attempts);
      var u := UpdateChatLastMessage(c, chatId, text, updateAck, now);
      Served(c, Ok(v), run.attempts + u.attempts, [CreatedMessage(v)] + u.writes)
  }

  /** `sendMessage(chatId, senderId, message, type, attachments)`; `newId` stands for
      `ID.unique()` and `now` for the clock. */
  function SendMessage(c: Cache, p: Probes, chatId: string, senderId: string, text: string,
                       kind: Option<string>, attachments: Option<string>,
                       createAck: nat -> Ack, updateAck: nat -> Ack,
                       newId: string, now: string): (r: Served<Message>)
    ensures chatId == "" || senderId == "" || text == "" ==>
      Untouched(c, r) && r.result == Err("Chat ID, sender ID, and message are required")
    ensures chatId != "" && senderId != "" && text != "" ==> r.cache == EnsurePermissions(c, p)
    ensures chatId != "" && senderId != "" && text != "" && !r.cache.status.messagesAccessible ==>
      r.attempts == 0 && r.writes == [] && r.result == Err(MessagesInaccessible)
    ensures r.attempts <= 2 * DefaultRetries
    ensures r.result.Ok? ==>
      && r.result.value == MessageDocument(newId, chatId, senderId, text, kind, attachments, now)
      && (r.writes == [CreatedMessage(r.result.value)]
          || r.writes == [CreatedMessage(r.result.value), TouchedChat(chatId, text, now)])
    ensures r.result.Err? ==> r.writes == []
    ensures r.result.Err? && r.attempts > 0 ==> HasPrefix(r.result.msg, "Failed to send message: ")
    ensures chatId != "" && senderId != "" && text != "" && r.cache.status.messagesAccessible ==>
      var doc := MessageDocument(newId, chatId, senderId, text, kind, attachments, now);
      && (r.result.Ok? <==> exists k :: AckedAt(createAck, k))
      && (forall k: nat :: AckedAt(createAck, k) ==>
            && r.result == Ok(doc)
            && k < r.attempts <= k + DefaultRetries
            && r.writes == [CreatedMessage(doc)]
                           + (if exists j :: AckedAt(updateAck, j) then [TouchedChat(chatId, text, now)] else []))
      && (r.result.Err? ==> RetriedAs(r.result, r.attempts, AckAttempts(createAck, doc), "Failed to send message: "))
  {
    if chatId == "" || senderId == "" || text == "" then
      Served(c, Err("Chat ID, sender ID, and message are required"), 0, [])
    else
      var c' := EnsurePermissions(c, p);
      if !c'.status.messagesAccessible then Served(c', Err(MessagesInaccessible), 0, [])
      else
        var doc := MessageDocument(newId, chatId, senderId, text, kind, attachments, now);
        var r := CreateThenTouch(c', chatId, text, doc, createAck, updateAck, now);
        assert r.result.Err? ==> r.attempts <= DefaultRetries && HasPrefix(r.result.msg, "Failed to send message: ");
        r
  }

  /** A failing last-message update never makes the send fail: the outcome of the
      send does not depend on the update at all. */
  lemma SendIgnoresUpdateFailure(c: Cache, p: Probes, chatId: string, senderId: string, text: string,
                                 kind: Option<string>, attachments: Option<string>,
                                 createAck: nat -> Ack, update1: nat -> Ack, update2: nat -> Ack,
                                 newId: string, now: string)
    ensures SendMessage(c, p, chatId, senderId, text, kind, attachments, createAck, update1, newId, now).result
         == SendMessage(c, p, chatId, senderId, text, kind, attachments, createAck, update2, newId, now).result
  {
  }

  // ---------------------------------------------------------------------------
  // Real-time subscriptions
  // ---------------------------------------------------------------------------

  /** What a subscribe call returns: a no-op handle, or a live subscription
      filtering on one key (a chat id or a user id). */
  datatype Handle = Noop | Live(key: string)

  /** One real-time delivery: the event names and the document payload, if any. */
  datatype Delivery<+P> = Delivery(events: seq<string>, payload: Option<P>)

  /** Whether some event name contains the marker. */
  function SomeContains(events: seq<string>, marker: string): (b: bool)
    ensures b <==> exists i :: 0 <= i < |events| && Contains(events[i], marker)
  {
    if events == [] then false
    else Contains(events[0], marker) || SomeContains(events[1..], marker)
  }

  /** `subscribeToMessages(chatId, callback)`: an empty id subscribes to nothing. */
  function SubscribeToMessages(chatId: string): (h: Handle)
    ensures h.Noop? <==> chatId == ""
    ensures h.Live? ==> h.key == chatId
  {
    if chatId == "" then Noop else Live(chatId)
  }

  /** `subscribeToChatUpdates(userId, callback)`: an empty id subscribes to nothing. */
  function SubscribeToChatUpdates(userId: string): (h: Handle)
    ensures h.Noop? <==> userId == ""
    ensures h.Live? ==> h.key == userId
  {
    if userId == "" then Noop else Live(userId)
  }

  /** The message callback of `subscribeToMessages` is invoked with the payload iff it belongs
      to the subscribed chat and some event name mentions ".create". */
  function OnMessageDelivery(h: Handle, d: Delivery<Message>): (r: Option<Message>)
    ensures r.Some? <==> h.Live? && d.payload.Some? && d.payload.value.chatId == h.key
                         && exists i :: 0 <= i < |d.events| && Contains(d.events[i], ".create")
    ensures r.Some? ==> r == d.payload
  {
    if h.Live? && d.payload.Some? && d.payload.value.chatId == h.key && SomeContains(d.events, ".create")
    then d.payload else None
  }

  /** The chat callback of `subscribeToChatUpdates` is invoked with the payload iff the
      subscribed user is a participant and some event mentions ".update" or ".create". */
  function OnChatDelivery(h: Handle, d: Delivery<Chat>): (r: Option<Chat>)
    ensures r.Some? <==> h.Live? && d.payload.Some? && (d.payload.value.user1 == h.key || d.payload.value.user2 == h.key)
                         && exists i :: 0 <= i < |d.events|
                              && (Contains(d.events[i], ".update") || Contains(d.events[i], ".create"))
    ensures r.Some? ==> r == d.payload
  {
    if h.Live? && d.payload.Some? && (d.payload.value.user1 == h.key || d.payload.value.user2 == h.key)
       && (SomeContains(d.events, ".update") || SomeContains(d.events, ".create"))
    then d.payload else None
  }

  /** The messages a subscription hands to its callback over a stream of deliveries. */
  function ForwardedMessages(h: Handle, ds: seq<Delivery<Message>>): (r: seq<Message>)
    ensures |r| <= |ds|
    ensures h.Live? ==> forall m :: m in r ==> m.chatId == h.key
    ensures h.Noop? ==> r == []
    ensures forall i :: 0 <= i < |ds| && OnMessageDelivery(h, ds[i]).Some? ==> OnMessageDelivery(h, ds[i]).value in r
    ensures forall m :: m in r ==> exists i :: 0 <= i < |ds| && OnMessageDelivery(h, ds[i]) == Some(m)
  {
    if ds == [] then []
    else
      var rest := ForwardedMessages(h, ds[1..]);
      match OnMessageDelivery(h, ds[0])
      case Some(m) => [m] + rest
      case None => rest
  }

  /** The callback runs once per forwarded delivery, in delivery order: one more
      delivery adds its payload at the end, or nothing. */
  lemma {:induction false} ForwardedAppend(h: Handle, ds: seq<Delivery<Message>>, d: Delivery<Message>)
    ensures ForwardedMessages(h, ds + [d])
         == ForwardedMessages(h, ds) + (if OnMessageDelivery(h, d).Some? then [OnMessageDelivery(h, d).value] else [])
  {
    if ds == [] {
      assert ds + [d] == [d];
    } else {
      assert (ds + [d])[0] == ds[0] && (ds + [d])[1..] == ds[1..] + [d];
      ForwardedAppend(h, ds[1..], d);
    }
  }
}
