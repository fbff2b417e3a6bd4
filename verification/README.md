# Appwrite chat client — a Dafny model

This project models the logic at the heart of a small chat application. The application is
built on Appwrite, a backend-as-a-service. Four parts are modelled:

- **The retry executor and the permission probes** (`lib/appwrite.ts`).
  - `withRetry` makes at most `retries` attempts.
  - It stops at once on a permission failure.
  - It waits `delay * attempt` between attempts.
  - `checkAppwriteConnection` and `checkCollectionPermissions` turn probe outcomes into status records.
- **The chat service** (`lib/chat-service.ts`).
  - A permission cache that probes once per session.
  - Fail-fast argument and accessibility checks.
  - User normalisation and the `getAllUsers` filter pipeline.
  - The symmetric chat lookup, and find-then-create resolution.
  - The shape of a sent message document, and the best-effort last-message update.
  - The two real-time event filters.
- **Client state transitions.** These are the `useChat` hook (`hooks/use-chat.ts`) and the
  `ChatRoom` component's handlers (`chat-room.tsx`).
  - Loading lists.
  - Starting or initialising a chat.
  - The send path.
  - The de-duplicating real-time merge.
  - Replacing a chat by id.
  - The reset effects.
  - Classifying error messages into the permission banner or the plain error.
- **The two forms** (`user-data-form.tsx`, `name-input-form.tsx`). Each trims its input, validates
  it in a fixed order, makes an abstract save call, and clears its fields on success.

How the model handles what it cannot see:

- Every backend call is an oracle, indexed by attempt number.
  - `nat -> Reply<T>` stands for list and get calls: a thrown message, a response without
    documents, or the documents listed.
  - `nat -> Ack` stands for create and update calls.
- `WithRetry` is a pure function. It returns the result, the number of attempts made, and the
  waits it would sleep.
- The service's static permission cache is an explicit `Cache` value. Each operation takes one
  and returns one, along with the number of backend attempts and the writes it made.
- UI handlers return their new state and the service requests they issued. The outcome of each
  request is a parameter.

JavaScript semantics are written out:

- `trim` and `\s` use the ECMAScript white-space and line-terminator set (`Text.IsSpace`).
- `.length` counts UTF-16 code units (`Text.Utf16Length`).
- `includes` is substring search (`Text.Contains`).
- A falsy string field is the empty string.

Modules:

| file | module | contents |
|---|---|---|
| outcomes.dfy | Outcomes | `Option`, and `Result` with `Rewrap` for the "Failed to ...: " prefixes |
| text.dfy | Text | trim, white space, substring search, UTF-16 length, join |
| appwrite.dfy | Appwrite | `withRetry`, the connection check, the collection permission check |
| records.dfy | Records | raw and normalised users, chats, messages |
| chat_service.dfy | ChatService | the `ChatService` class |
| local_lists.dfy | LocalLists | the client-side message and chat list updates |
| use_chat.dfy | UseChat | the `useChat` hook |
| chat_room.dfy | ChatRoom | the `ChatRoom` handlers |
| forms.dfy | Forms | `UserDataForm` and `NameInputForm` |

## Model

| member | source | states |
|---|---|---|
| Text.Trim | user-data-form.tsx:26-29 | the trimmed string is the input with only white space removed at each end, and a non-empty result starts and ends with a non-space character |
| Text.TrimEmptyIffAllSpace | name-input-form.tsx:23-25 | a string trims to the empty string exactly when it consists of white space only |
| Text.TrimIdempotent | user-data-form.tsx:26-29 | trimming a trimmed string changes nothing |
| Text.Utf16Length | user-data-form.tsx:50 | `.length` lies between the number of code points and twice that, and is zero only for the empty string; it equals the number of code points exactly when no character lies above U+FFFF, and twice that exactly when every character does |
| Text.Utf16LengthAppend | user-data-form.tsx:50 | the length of a concatenation is the sum of the lengths; with the one-character case this fixes the count for every string |
| Text.ContainsInContext | chat-room.tsx:87 | a substring stays a substring of any text built around it |
| Text.Join | chat-room.tsx:44 | joining no parts gives the empty string, and joining one part gives that part |
| Text.JoinAppend | chat-room.tsx:44 | joining one more part adds the separator and then that part at the end |
| Appwrite.RetryFrom | lib/appwrite.ts:88-108 | from a given attempt on, the run stops at the first success, at the first permission failure, or after attempt `retries`, and the wait before attempt k+1 is `delay*k` |
| Appwrite.WithRetry | lib/appwrite.ts:87-109 | with no attempt allowed, "Max retries exceeded"; otherwise 1..retries attempts, every earlier attempt a non-permission failure, and the result is the last attempt's value, its wrapped permission denial, or its original error when it was attempt `retries` |
| Appwrite.IsPermissionFailure | lib/appwrite.ts:95 | a failure is not retried iff its message contains "not authorized" or "missing scope" |
| Appwrite.RetryFailure | lib/appwrite.ts:95-100 | the error thrown after a failed last attempt: "Permission denied: ..." for a permission failure, the attempt's own error otherwise |
| Appwrite.PermissionDenied | lib/appwrite.ts:96 | the thrown message starts with "Permission denied: " and carries the original message right after it |
| Appwrite.FirstAttemptSucceeds | lib/appwrite.ts:88-90 | a first attempt that succeeds is the only one, and nothing is waited |
| Appwrite.WithRetrySucceedsIff | lib/appwrite.ts:87-101 | the run succeeds exactly when some attempt within the bound succeeds, with only non-permission failures before it |
| Appwrite.PermissionFailureStopsRetries | lib/appwrite.ts:94-97 | a failure mentioning "not authorized" or "missing scope" ends the run at that attempt with "Permission denied: ..." and no further wait |
| Appwrite.PermissionDeniedKeepsMarkers | lib/appwrite.ts:96 | the wrapped permission message contains both "Permission denied" and the original message, so classification by substring still sees them |
| Appwrite.TwoFailuresThenSuccess | lib/appwrite.ts:103-104 | fail, fail, succeed with three retries makes three attempts and waits exactly `delay` then `2*delay` (linear, not exponential) |
| Appwrite.CheckAppwriteConnection | lib/appwrite.ts:16-34 | connected iff the probe succeeded or failed with "missing scope" or "unauthorized"; otherwise disconnected, carrying the message |
| Appwrite.ProbeErrors | lib/appwrite.ts:51-58 | a probe adds no error entry iff it succeeded; a failed probe adds one entry, the collection label, ": ", and the failure message |
| Appwrite.IsNoSessionFailure | lib/appwrite.ts:27 | a refusal counts as "no session" exactly when it mentions "missing scope" or "unauthorized" |
| Appwrite.MissingScopeStillConnected | lib/appwrite.ts:25-29 | a "missing scope" refusal counts as connected with no error, although the retry executor treats the same message as a permission failure |
| Appwrite.NetworkFailureDisconnects | lib/appwrite.ts:32-33 | any other refusal, here "Failed to fetch", is reported as not connected with that message |
| Appwrite.CheckCollectionPermissions | lib/appwrite.ts:38-83 | each flag is true iff its probe succeeded; errors hold one labelled entry per failed probe, in users, chats, messages order; errors are empty iff all three flags hold |
| ChatService.EnsurePermissions | lib/chat-service.ts:54-63 | an unchecked cache is filled from the probes; a checked one is returned as is |
| ChatService.ProbeRunsOnce | lib/chat-service.ts:45-63 | after the first call the cached status is never recomputed, whatever later probes would say |
| ChatService.RetriedWithDefaults | lib/appwrite.ts:87-109 | a service method that runs its closure through `withRetry` with the defaults and prefixes the error succeeds exactly when some attempt within three succeeds before a permission failure, with that attempt's value after that many attempts; otherwise every attempt before the last failed without a permission failure, the run stopped early only at a permission failure, and it fails with the prefix and that last attempt's error, wrapped for a permission failure |
| ChatService.RetriedAsUnique | lib/appwrite.ts:87-109 | the summary above fixes a service call's outcome and attempt count completely, on failure as on success |
| ChatService.RetriedStopsAtDenial | lib/appwrite.ts:95-97 | a network failure followed by a permission failure ends the run at the second attempt with the prefixed permission denial, not the earlier network error |
| ChatService.AckAttempt | lib/chat-service.ts:169-177 | one create or update attempt succeeds iff the backend acknowledged it, with the written value; a refusal is that attempt's error |
| ChatService.AckedAtIff | lib/chat-service.ts:169-177 | a create or update attempt succeeds in the retry executor's sense exactly when it is acknowledged after refusals that were not permission failures |
| ChatService.AckedAtUnique | lib/appwrite.ts:88-90 | only one attempt of a call can be the acknowledged one |
| ChatService.GetPermissionStatus | lib/chat-service.ts:425-433 | returns the cached status, probing first only when nothing is cached |
| ChatService.NormalizeUser | lib/chat-service.ts:66-77 | none iff the record is missing or has no id; otherwise the id and password are kept and an empty username, email, number or creation time becomes "Unknown User", "No Email", "No Number" or the clock reading |
| ChatService.NormalizeUserSettles | lib/chat-service.ts:66-77 | a normalised user has no empty display field, and normalising it again gives the same user |
| ChatService.Admit | lib/chat-service.ts:107-110 | a document passes the pipeline iff it is present, has an id other than the caller's, and its normalised username is not "Unknown User" |
| ChatService.FilterUsers | lib/chat-service.ts:107-110 | no more users than documents, none with an empty id, the caller's id, or the name "Unknown User" |
| ChatService.FilterUsersIsSelection | lib/chat-service.ts:107-110 | the result is a subsequence of the normalised documents, taken in order with each document used at most once, and every admitted document appears in it |
| ChatService.ListUsersAttempt | lib/chat-service.ts:97-111 | an attempt succeeds iff the response has documents, with their filtered users; a response without documents fails with "No documents in response" |
| ChatService.GetAllUsers | lib/chat-service.ts:85-119 | "Current user ID is required" before any probe; "not accessible" with no backend call; once the checks pass, succeeds exactly when some attempt within three returns documents before a permission failure, with that response's filtered users; otherwise "Failed to fetch users: " and the error of the attempt where retrying stopped, that is the first permission failure (wrapped as a denial) or else the third failure, every earlier attempt having failed without a permission failure |
| ChatService.PairsSymmetric | lib/chat-service.ts:136-139 | the lookup filter matches (a, b) exactly when it matches (b, a) |
| ChatService.Pairs | lib/chat-service.ts:136-139 | a chat matches when its participants are (a, b) in either order |
| ChatService.PairsIffSameParticipants | lib/chat-service.ts:136-139 | the filter matches exactly when the chat's two participants, counted with multiplicity, are a and b |
| ChatService.FirstMatch | lib/chat-service.ts:134-143 | none iff no document matches; otherwise the first matching document in the listed order |
| ChatService.FindAttempt | lib/chat-service.ts:134-144 | an attempt fails iff the call threw, with its message; a response without documents is "no chat"; otherwise the first match |
| ChatService.FirstMatchSymmetric | lib/chat-service.ts:136-143 | the first match for (a, b) is the first match for (b, a) |
| ChatService.FirstMatchAppended | lib/chat-service.ts:140-143 | a matching chat added to a collection without a match becomes the answer |
| ChatService.ListAttempt | lib/chat-service.ts:312-320 | an attempt fails iff the call threw, with its message; a response without documents is the empty list; otherwise the listed documents |
| ChatService.FindExistingChat | lib/chat-service.ts:122-154 | "Both user IDs are required" before any probe; "not accessible" with no backend call; once the checks pass, succeeds exactly when some attempt within three answers before a permission failure, with that answer, which pairs the two users; otherwise "Failed to find chat: " and the error of the attempt where retrying stopped, that is the first permission failure (wrapped as a denial) or else the third failure, every earlier attempt having failed without a permission failure |
| ChatService.FindAttemptSymmetric | lib/chat-service.ts:134-143 | each lookup attempt answers the same for both orders of the participants |
| ChatService.CreateNewChat | lib/chat-service.ts:157-185 | the argument and accessibility checks come first; once they pass, succeeds exactly when some attempt within three is acknowledged after refusals that were not permission failures, writing exactly the new one-to-one chat; otherwise writes nothing and fails with "Failed to create chat: " and the refusal of the attempt where retrying stopped, that is the first permission refusal (wrapped as a denial) or else the third refusal |
| ChatService.NewChat | lib/chat-service.ts:170-176 | the created document has the assigned id, the caller's order of participants (so it pairs them), both timestamps equal to the time of creation, is not a group and has no last message |
| ChatService.GetOrCreateChat | lib/chat-service.ts:188-203 | a found chat is returned unchanged with no write; a lookup error is rethrown with "Failed to get or create chat: " and writes nothing; when nothing is found the outcome is that of creating the chat: success iff some create attempt is acknowledged, with its writes and the attempts of both steps, a failure rewrapped with the same prefix; the result always pairs the two users |
| ChatService.ResolveTwiceSameChat | lib/chat-service.ts:188-203 | after one successful resolution, resolving again in the other order returns the same chat and creates nothing |
| ChatService.GetUserChats | lib/chat-service.ts:300-328 | "User ID is required" before any probe; "not accessible" with no backend call; once the checks pass, succeeds exactly when some attempt within three answers before a permission failure, with that response's chats; otherwise "Failed to get chats: " and the error of the attempt where retrying stopped, that is the first permission failure (wrapped as a denial) or else the third failure, every earlier attempt having failed without a permission failure |
| ChatService.GetChatMessages | lib/chat-service.ts:206-234 | "Chat ID is required" before any probe; "not accessible" with no backend call; once the checks pass, succeeds exactly when some attempt within three answers before a permission failure, with that response's messages; otherwise "Failed to get messages: " and the error of the attempt where retrying stopped, that is the first permission failure (wrapped as a denial) or else the third failure, every earlier attempt having failed without a permission failure |
| ChatService.MessageDocument | lib/chat-service.ts:256-264 | the given id, chat, sender, text and timestamp; status "sent"; the given type, or "text" when none is given; an attachments field present only for a non-empty attachment |
| ChatService.UpdateChatLastMessage | lib/chat-service.ts:279-297 | never fails and leaves the cache alone; does nothing for an empty chat id or message; otherwise writes the last message exactly when some attempt within three is acknowledged after non-permission refusals |
| ChatService.CreateThenTouch | lib/chat-service.ts:254-276 | the create succeeds exactly when some attempt is acknowledged, and then the document is written, the last-message update follows, and its write is present exactly when the update was acknowledged; a failed create writes nothing and carries "Failed to send message: " and the refusal of the attempt where retrying stopped, that is the first permission refusal (wrapped as a denial) or else the third refusal, after that many attempts |
| ChatService.SendMessage | lib/chat-service.ts:237-276 | the argument and accessibility checks come first; once they pass, succeeds exactly when the create is acknowledged within three attempts, returning and writing the document, followed by the last-message touch exactly when that update is acknowledged; a failed create writes nothing and carries "Failed to send message: " and the refusal of the attempt where retrying stopped, that is the first permission refusal (wrapped as a denial) or else the third refusal, after that many attempts |
| ChatService.SendIgnoresUpdateFailure | lib/chat-service.ts:267-268 | the outcome of a send does not depend on the last-message update |
| ChatService.SomeContains | lib/chat-service.ts:344 | true iff some event name contains the marker |
| ChatService.SubscribeToMessages | lib/chat-service.ts:331-335 | an empty chat id gives a no-op subscription; otherwise it listens for that chat |
| ChatService.SubscribeToChatUpdates | lib/chat-service.ts:364-368 | an empty user id gives a no-op subscription; otherwise it listens for that user |
| ChatService.OnMessageDelivery | lib/chat-service.ts:338-348 | the payload is passed on iff it belongs to the subscribed chat and some event mentions ".create" |
| ChatService.OnChatDelivery | lib/chat-service.ts:371-381 | the payload is passed on iff the subscribed user is a participant and some event mentions ".update" or ".create" |
| ChatService.ForwardedMessages | lib/chat-service.ts:340-348 | over a stream of deliveries, every payload the filter forwards is passed on and nothing else, so only messages of the subscribed chat, and none by a no-op subscription |
| ChatService.ForwardedAppend | lib/chat-service.ts:340-348 | the callback runs once per forwarded delivery in delivery order: one more delivery appends its payload at the end, or nothing |
| LocalLists.MergeIncoming | hooks/use-chat.ts:119-125 | the merged list holds the message's id; a known id leaves the list unchanged, an unknown one is appended; unique ids stay unique |
| LocalLists.MergeIdempotent | hooks/use-chat.ts:119-125 | merging the same message twice is merging it once |
| LocalLists.MergeAll | chat-room.tsx:163-169 | the list after merging a stream of real-time messages one at a time (its properties are stated by the next lemma) |
| LocalLists.AppendSent | hooks/use-chat.ts:98 | the send path appends the returned message at the end with no id check, so its id is counted once more |
| LocalLists.MergeAllKeepsUnique | chat-room.tsx:163-169 | any stream of real-time merges keeps ids unique, keeps the earlier list as a prefix, and lists each incoming id exactly once |
| LocalLists.AppendSentUniqueIff | hooks/use-chat.ts:98 | the unchecked append keeps ids unique iff the sent message's id was not listed yet |
| LocalLists.SendThenEchoListedOnce | hooks/use-chat.ts:98-125 | a send that resolves before its real-time echo leaves the message listed once |
| LocalLists.EchoThenSendListedTwice | chat-room.tsx:114-117 | an echo merged before the send resolves leaves the message listed twice |
| LocalLists.EchoOvertakesSend | hooks/use-chat.ts:98 | with the send path as written, an echo that overtakes the send breaks id uniqueness |
| LocalLists.AppendSentOnce | hooks/use-chat.ts:119-125 | the send path with the real-time id check lists the sent message exactly once |
| LocalLists.ArrivalsOnceKeepUnique | hooks/use-chat.ts:119-125 | with the id check on both paths, ids stay unique in every order of echoes and send results, and every arrival is listed |
| LocalLists.ReplaceChat | hooks/use-chat.ts:131 | same length; each position holds the update when its id matches, else the old chat |
| LocalLists.ReplaceUnknownChat | hooks/use-chat.ts:131 | an update for an unlisted chat leaves the list unchanged |
| LocalLists.ReplaceChatStable | hooks/use-chat.ts:131 | replacement keeps every position's id, and applying it twice is applying it once |
| UseChat.LoadUsers | hooks/use-chat.ts:19-32 | nothing without a user; otherwise the fetched users, or an empty list and "Failed to load users: ..." |
| UseChat.LoadChats | hooks/use-chat.ts:35-48 | nothing without a user; otherwise the fetched chats, or an empty list and "Failed to load chats: ..." |
| UseChat.LoadedUsersExcludeSelf | hooks/use-chat.ts:24-25 | loaded through `getAllUsers`, the list never shows the current user or an unnamed user |
| UseChat.StartChat | hooks/use-chat.ts:51-83 | "User IDs are required to start a chat" without both ids; otherwise resolve then load messages; any failure clears the chat and messages and shows that failure's message; loading ends false |
| UseChat.StartedChatPairs | hooks/use-chat.ts:65-66 | a chat started through `getOrCreateChat` is always between the two users |
| UseChat.SendMessage | hooks/use-chat.ts:86-108 | "Missing required data to send message" without a user, a chat or non-blank text; otherwise sends the trimmed text and appends the result unchecked |
| UseChat.Subscribe | hooks/use-chat.ts:111-129 | subscriptions are live only with a user and a current chat |
| UseChat.OnMessagePush | hooks/use-chat.ts:117-126 | an unforwarded delivery changes nothing; a forwarded message is then listed, leaving the state unchanged if its id was already listed and appended at the end otherwise; only the message list changes, and unique ids stay unique |
| UseChat.OnChatPush | hooks/use-chat.ts:129-132 | an unforwarded delivery changes nothing; a forwarded chat replaces every listed chat with its id and nothing else; only the chat list changes and its length is kept |
| UseChat.OnUserChanged | hooks/use-chat.ts:146-152 | without a user the current chat, messages and error are cleared; otherwise nothing changes |
| UseChat.NoUserNoPushes | hooks/use-chat.ts:111-152 | once the user is gone the cleared hook holds no live subscription, so no message or chat delivery changes it |
| UseChat.SendThenEchoListedOnce | hooks/use-chat.ts:95-125 | a send followed by its echo lists the message once |
| ChatRoom.IsPermissionMessage | chat-room.tsx:87 | a message goes to the banner exactly when it mentions "not authorized" or "Permission denied" |
| ChatRoom.Classify | chat-room.tsx:87-91 | a message with "not authorized" or "Permission denied" goes to the permission banner, any other to the plain error |
| ChatRoom.CheckPermissions | chat-room.tsx:40-53 | passes iff the status was read and lists no errors; a failure sets "Permission issues detected: " with the errors joined by ", ", or the thrown message |
| ChatRoom.CheckPassesIffAllReachable | chat-room.tsx:42-48 | against the service's status record, the check passes iff all three collections were reachable |
| ChatRoom.InitializeChat | chat-room.tsx:56-101 | nothing without a user and a selection; a failed permission check stops before resolving the chat; a failed resolve leaves the current chat as it was, and a failed message load keeps the resolved chat; in both cases the message goes to exactly one of the permission banner and the plain error slot, and the other slot is cleared; the requests made match the steps reached; loading ends false |
| ChatRoom.PrefixKeepsPermissionMessage | chat-room.tsx:87 | a permission message stays one under any prefix |
| ChatRoom.RetryPermissionErrorIsClassified | chat-room.tsx:87-88 | a permission denial from the retry executor is classified as a permission error under any service prefix |
| ChatRoom.FindRefusalStopsAtOnce | lib/chat-service.ts:134-152 | a lookup refused with a permission failure is tried once and reported as "Failed to find chat: Permission denied: ..." |
| ChatRoom.ResolveRefusalIsPermissionError | lib/chat-service.ts:188-203 | such a refusal makes `getOrCreateChat` fail after one attempt, write nothing, and return a permission message |
| ChatRoom.ResolveRefusalReachesBanner | chat-room.tsx:84-91 | a permission failure while resolving the chat is shown in the permission banner and not as a plain error |
| ChatRoom.BeginSend | chat-room.tsx:104-109 | skips without a user, a chat or non-blank input, or while a send is in flight; otherwise clears the input, marks sending, and sends the trimmed text |
| ChatRoom.FinishSend | chat-room.tsx:111-143 | sending ends; a success appends the reply unchecked; a failure restores the text, raises the permission banner for a permission message, and changes nothing else |
| ChatRoom.HandleSendMessage | chat-room.tsx:104-144 | one send request when the guard passes; on success only the input (emptied) and the messages (reply appended) change; on failure the trimmed text is back in the input, the banner shows a permission message, and nothing else changes |
| ChatRoom.NoSecondSendInFlight | chat-room.tsx:105 | a second press while a send is in flight does nothing |
| ChatRoom.RoomSubscription | chat-room.tsx:155-160 | the room listens only while a chat is open, and to that chat |
| ChatRoom.OnMessagePush | chat-room.tsx:160-169 | an unforwarded delivery changes nothing; a forwarded message is then listed, leaving the state unchanged if its id was already listed and appended at the end otherwise; only the messages change |
| ChatRoom.EchoDuringSendDuplicates | chat-room.tsx:114-117 | with the room as written, an echo merged while its send is in flight leaves the message listed twice |
| ChatRoom.FinishSendOnce | chat-room.tsx:163-169 | completing a send with the real-time id check lists the reply exactly once |
| ChatRoom.EchoDuringSendOnce | chat-room.tsx:163-169 | with the checked completion, the echo race leaves the message listed once and ids unique |
| ChatRoom.OnSelectionChanged | chat-room.tsx:184-193 | with a user and a selection the chat is initialised; otherwise the chat, messages and both errors are cleared |
| ChatRoom.DeselectedRoomIgnoresPushes | chat-room.tsx:155-193 | once the selection or the user is gone the cleared room holds no live subscription, so no delivery changes it |
| Forms.DotFromIff | user-data-form.tsx:41 | scanning right from an `@` finds a closing `.` exactly when some later `.` has only non-spaces (at least one) before it back to the `@` and a non-space after it |
| Forms.AtFromIff | user-data-form.tsx:41 | scanning right from position i succeeds exactly when some `@` at or after i, with a non-space before it, has such a closing `.` |
| Forms.LooksLikeEmail | user-data-form.tsx:41 | the email test: some `@` with a non-space before it opens a run of non-spaces up to a `.` that has a non-space after it |
| Forms.LooksLikeEmailIffAnchors | user-data-form.tsx:41 | the email check holds exactly when the string has an `@`/`.` anchor pair of that shape |
| Forms.LooksLikeEmailIffPattern | user-data-form.tsx:41 | the executable email check agrees with an unanchored match of `\S+@\S+\.\S+` on every string |
| Forms.EmailInContext | user-data-form.tsx:41 | text around an address never makes the unanchored check fail |
| Forms.AddressAccepted | user-data-form.tsx:41 | "a@b.c" passes the email check |
| Forms.EmptyDomainRejected | user-data-form.tsx:41 | "a@.c" fails the email check, because at least one character must sit between "@" and "." |
| Forms.ValidateUserData | user-data-form.tsx:23-67 | accepted iff all four trimmed fields are non-empty, the email matches, the password has at least 6 and the number at most 10 UTF-16 units; rejections report the first failing check, in that order |
| Forms.ValidatedFieldsAreStable | user-data-form.tsx:71-76 | the trimmed values passed to save pass validation again unchanged |
| Forms.SubmitUserData | user-data-form.tsx:23-104 | save is called iff validation passes, with the trimmed values; fields are cleared only on success; loading ends false |
| Forms.NoDoubleSave | user-data-form.tsx:78-82 | after a successful save, an immediate second submit is rejected as incomplete and saves nothing |
| Forms.ValidateName | name-input-form.tsx:20-41 | accepted iff the trimmed name has 1 to 20 UTF-16 units; emptiness is reported before length |
| Forms.NameEmptyIffBlank | name-input-form.tsx:23-32 | a name is refused as empty exactly when it is white space only |
| Forms.SubmitName | name-input-form.tsx:20-69 | save is called iff validation passes, with the trimmed name; the input is cleared only on success; loading ends false |
| Forms.SavedNameIsStable | name-input-form.tsx:45 | the saved name passes validation again unchanged |

## Left out

- Logging, toasts (except the form notices), scrolling and all rendering are left out: they do not affect the modelled state.
- Concurrency is left out beyond the one interleaving under "Findings": the hook's `Promise.all` initial load, races between two `getOrCreateChat` calls, React state batching and stale handler closures.
- The hook's initial-load effect (hooks/use-chat.ts:155-175) is left out. Its "Failed to initialize chat" branch is unreachable because `loadUsers` and `loadChats` catch their own errors.
- Server-side query semantics are left out: ordering (`orderDesc`, `orderAsc`) and limits (100 users, 50 chats, the message `limit` parameter). The oracle's reply stands for the server's answer. The exception is the lookup filter of `findExistingChat`, which the model applies itself.
- ChatService.GetUserChats: does not state that chats are ordered by `last_updated` or limited to 50, because both are decided by the server.
- ChatService.GetChatMessages: does not model the `limit` parameter or the timestamp order, because both are decided by the server.
- `getUserById` (lib/chat-service.ts:397-422) is not part of this model: none of the modelled handlers calls it.
- The "General error" catch of `checkCollectionPermissions` (lib/appwrite.ts:79-81) is left out: each probe's own catch handles every failure the model represents.
- Strings are sequences of Unicode scalar values, so a lone UTF-16 surrogate, which a JavaScript string may hold, cannot be represented; `Text.Utf16Length` counts a character above U+FFFF as two code units.
- Throws of values without a `message` are left out. Every failure in the model carries a message string.
- The `try`/`catch` blocks of `normalizeUser` and of the subscription callbacks are left out: they only guard against malformed objects, which the typed records exclude.
- `ID.unique()` and the clock become the parameters `newId` and `now`. There is one clock reading per operation, so `created_at` and `last_updated` of a new chat are equal.
- The create and update calls return the written document itself. Server-added fields are not modelled.
- Waits are recorded in `RetryRun.waits` but not slept.
- Unsubscribe functions and the real-time transport are left out. A subscription is a `Handle`, and deliveries are inputs.
- Configuration is left out: the endpoint, the project id, and the database and collection ids.
- `app/actions.ts`, `auth-form.tsx`, `user-list-sidebar.tsx` and `app/page.tsx` are left out: they are account I/O and rendering. The sidebar's error classification repeats the room's.
- The save actions of the forms are abstract: their reply is an input.

## Findings

| source | as written | input that shows it | evidently intended | confidence | as-written member | corrected member |
|---|---|---|---|---|---|---|
| chat-room.tsx:117 | the send path appends the returned message with `[...prev, sentMessage]` and no id check | a send is in flight; the real-time `.create` echo of the new message arrives first and is merged; the send then resolves and appends the same message again | each message listed once, as the real-time path's duplicate check (chat-room.tsx:163-169) shows | medium, not executed | ChatRoom.EchoDuringSendDuplicates | ChatRoom.EchoDuringSendOnce |
| hooks/use-chat.ts:98 | the hook's `sendMessage` appends the returned message without an id check | arrivals `[echo(m), send resolved(m)]` on an empty list give `[m, m]` | ids stay unique in every order of arrivals, as the merge at hooks/use-chat.ts:119-125 intends | medium, not executed | LocalLists.EchoOvertakesSend | LocalLists.ArrivalsOnceKeepUnique |

The handler models `UseChat.SendMessage` and `ChatRoom.FinishSend` keep the append as written.
The corrected completion is `ChatRoom.FinishSendOnce`, built on `LocalLists.AppendSentOnce`.
