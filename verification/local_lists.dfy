/** The client-side lists of hooks/use-chat.ts and chat-room.tsx: merging a
    real-time message into the message list, appending a sent message, and
    replacing an updated chat in the chat list. */
module LocalLists {
  import opened Records

  /** Some listed message carries the id. */
  predicate HasId(ms: seq<Message>, id: string) {
    exists i | 0 <= i < |ms| :: ms[i].id == id
  }

  ghost predicate UniqueIds(ms: seq<Message>) {
    forall i, j :: 0 <= i < j < |ms| ==> ms[i].id != ms[j].id
  }

  /** How many entries carry the id. */
  function CountId(ms: seq<Message>, id: string): (n: nat)
    ensures n <= |ms|
    ensures n == 0 <==> !HasId(ms, id)
  {
    if ms == [] then 0
    else (if ms[0].id == id then 1 else 0) + CountId(ms[1..], id)
  }

  lemma {:induction false} CountIdAppend(ms: seq<Message>, m: Message, id: string)
    ensures CountId(ms + [m], id) == CountId(ms, id) + (if m.id == id then 1 else 0)
  {
    if ms == [] {
      assert [m][1..] == [];
    } else {
      assert (ms + [m])[1..] == ms[1..] + [m];
      CountIdAppend(ms[1..], m, id);
    }
  }

  /** With unique ids, every present id occurs exactly once. */
  lemma {:induction false} UniqueCountsOne(ms: seq<Message>, id: string)
    requires UniqueIds(ms) && HasId(ms, id)
    ensures CountId(ms, id) == 1
  {
    if ms[0].id == id {
      assert !HasId(ms[1..], id) by {
        forall i | 0 <= i < |ms[1..]| ensures ms[1..][i].id != id {
          assert ms[1..][i] == ms[i + 1];
        }
      }
    } else {
      var k :| 0 <= k < |ms| && ms[k].id == id;
      assert ms[1..][k - 1] == ms[k];
      UniqueCountsOne(ms[1..], id);
    }
  }

  /** The real-time merge: a message whose id is already listed changes nothing;
      any other is appended at the end. */
  function MergeIncoming(ms: seq<Message>, m: Message): (r: seq<Message>)
    ensures HasId(r, m.id)
    ensures HasId(ms, m.id) ==> r == ms
    ensures !HasId(ms, m.id) ==> |r| == |ms| + 1 && r[..|ms|] == ms && r[|ms|] == m
    ensures UniqueIds(ms) ==> UniqueIds(r)
  {
    if HasId(ms, m.id) then ms
    else
      var r := ms + [m];
      assert r[|ms|].id == m.id;
      r
  }

  /** Merging the same message twice is merging it once. */
  lemma MergeIdempotent(ms: seq<Message>, m: Message)
    ensures MergeIncoming(MergeIncoming(ms, m), m) == MergeIncoming(ms, m)
  {
  }

  /** The list after a stream of real-time messages, merged one by one. */
  function MergeAll(ms: seq<Message>, incoming: seq<Message>): seq<Message>
    decreases |incoming|
  {
    if incoming == [] then ms else MergeAll(MergeIncoming(ms, incoming[0]), incoming[1..])
  }

  /** Any stream of real-time messages, duplicates and redeliveries included, keeps the
      ids unique, keeps what was there in place, and leaves every delivered id listed once. */
  lemma {:induction false} MergeAllKeepsUnique(ms: seq<Message>, incoming: seq<Message>)
    requires UniqueIds(ms)
    ensures var r := MergeAll(ms, incoming);
      UniqueIds(r) && |ms| <= |r| && r[..|ms|] == ms
      && forall m :: m in incoming ==> CountId(r, m.id) == 1
    decreases |incoming|
  {
    if incoming != [] {
      var first := MergeIncoming(ms, incoming[0]);
      MergeAllKeepsUnique(first, incoming[1..]);
      var r := MergeAll(ms, incoming);
      assert r == MergeAll(first, incoming[1..]);
      assert r[..|ms|] == first[..|first|][..|ms|];
      forall m | m in incoming ensures CountId(r, m.id) == 1 {
        if m !in incoming[1..] {
          assert m == incoming[0];
          assert HasId(first, m.id);
          var k :| 0 <= k < |first| && first[k].id == m.id;
          assert r[k] == first[k];
          UniqueCountsOne(r, m.id);
        }
      }
    }
  }

  /** The send path: the returned message is appended at the end, with no id check. */
  function AppendSent(ms: seq<Message>, m: Message): (r: seq<Message>)
    ensures |r| == |ms| + 1 && r[..|ms|] == ms && r[|ms|] == m
    ensures CountId(r, m.id) == CountId(ms, m.id) + 1
  {
    CountIdAppend(ms, m, m.id);
    ms + [m]
  }

  /** The append keeps ids unique exactly when the sent id was not listed yet. */
  lemma AppendSentUniqueIff(ms: seq<Message>, m: Message)
    ensures UniqueIds(AppendSent(ms, m)) <==> UniqueIds(ms) && !HasId(ms, m.id)
  {
    var r := AppendSent(ms, m);
    if UniqueIds(r) {
      assert UniqueIds(ms) by {
        forall i, j | 0 <= i < j < |ms| ensures ms[i].id != ms[j].id {
          assert r[i] == ms[i] && r[j] == ms[j];
        }
      }
      forall k | 0 <= k < |ms| ensures ms[k].id != m.id {
        assert r[k] == ms[k] && r[|ms|] == m;
      }
    }
  }

  /** Send first, echo later: the echo is absorbed and the message is listed once. */
  lemma SendThenEchoListedOnce(ms: seq<Message>, m: Message)
    requires UniqueIds(ms) && !HasId(ms, m.id)
    ensures MergeIncoming(AppendSent(ms, m), m) == AppendSent(ms, m)
    ensures CountId(AppendSent(ms, m), m.id) == 1
  {
    assert AppendSent(ms, m)[|ms|] == m;
  }

  /** Echo first, send resolved later: the message is listed twice. */
  lemma EchoThenSendListedTwice(ms: seq<Message>, m: Message)
    requires UniqueIds(ms) && !HasId(ms, m.id)
    ensures CountId(AppendSent(MergeIncoming(ms, m), m), m.id) == 2
    ensures !UniqueIds(AppendSent(MergeIncoming(ms, m), m))
  {
    CountIdAppend(ms, m, m.id);
    AppendSentUniqueIff(MergeIncoming(ms, m), m);
  }

  /** The send path with the same id check as the real-time path. */
  function AppendSentOnce(ms: seq<Message>, m: Message): (r: seq<Message>)
    ensures HasId(r, m.id)
    ensures UniqueIds(ms) ==> UniqueIds(r) && CountId(r, m.id) == 1
  {
    var r := MergeIncoming(ms, m);
    assert UniqueIds(ms) ==> CountId(r, m.id) == 1 by {
      if UniqueIds(ms) { UniqueCountsOne(r, m.id); }
    }
    r
  }

  /** A message reaching the client, in either of the two ways it can. */
  datatype Arrival = Echo(message: Message) | SendResolved(message: Message)

  /** One arrival, handled as the code does. */
  function Arrive(ms: seq<Message>, a: Arrival): seq<Message> {
    match a
    case Echo(m) => MergeIncoming(ms, m)
    case SendResolved(m) => AppendSent(ms, m)
  }

  /** One arrival when the send path also checks the id. */
  function ArriveOnce(ms: seq<Message>, a: Arrival): seq<Message> {
    match a
    case Echo(m) => MergeIncoming(ms, m)
    case SendResolved(m) => AppendSentOnce(ms, m)
  }

  /** The list after a sequence of arrivals, handled as the code does. */
  function ApplyArrivals(ms: seq<Message>, arrivals: seq<Arrival>): seq<Message>
    decreases |arrivals|
  {
    if arrivals == [] then ms else ApplyArrivals(Arrive(ms, arrivals[0]), arrivals[1..])
  }

  /** The list after a sequence of arrivals when the send path also checks the id. */
  function ApplyArrivalsOnce(ms: seq<Message>, arrivals: seq<Arrival>): seq<Message>
    decreases |arrivals|
  {
    if arrivals == [] then ms else ApplyArrivalsOnce(ArriveOnce(ms, arrivals[0]), arrivals[1..])
  }

  /** As written: an echo that overtakes the send's own reply duplicates the message. */
  lemma EchoOvertakesSend(m: Message)
    ensures !UniqueIds(ApplyArrivals([], [Echo(m), SendResolved(m)]))
  {
    var arrivals := [Echo(m), SendResolved(m)];
    assert Arrive([], arrivals[0]) == [m];
    assert arrivals[1..] == [SendResolved(m)];
    assert Arrive([m], SendResolved(m)) == [m, m];
    assert ApplyArrivals([m], [SendResolved(m)]) == ApplyArrivals([m, m], [SendResolved(m)][1..]);
    assert ApplyArrivals([], arrivals) == [m, m];
  }

  /** With the id check on both paths, ids stay unique in every order of arrivals. */
  lemma {:induction false} ArrivalsOnceKeepUnique(ms: seq<Message>, arrivals: seq<Arrival>)
    requires UniqueIds(ms)
    ensures UniqueIds(ApplyArrivalsOnce(ms, arrivals))
    ensures forall a :: a in arrivals ==> HasId(ApplyArrivalsOnce(ms, arrivals), a.message.id)
    decreases |arrivals|
  {
    if arrivals != [] {
      var next := ArriveOnce(ms, arrivals[0]);
      ArrivalsOnceKeepUnique(next, arrivals[1..]);
      PrefixKept(next, arrivals[1..]);
      forall a | a in arrivals ensures HasId(ApplyArrivalsOnce(ms, arrivals), a.message.id) {
        if a !in arrivals[1..] {
          assert a == arrivals[0];
          var k :| 0 <= k < |next| && next[k].id == a.message.id;
          assert ApplyArrivalsOnce(next, arrivals[1..])[k] == next[k];
        }
      }
    }
  }

  /** Arrivals only ever add at the end. */
  lemma {:induction false} PrefixKept(ms: seq<Message>, arrivals: seq<Arrival>)
    ensures |ms| <= |ApplyArrivalsOnce(ms, arrivals)| && ApplyArrivalsOnce(ms, arrivals)[..|ms|] == ms
    decreases |arrivals|
  {
    if arrivals != [] {
      var next := ArriveOnce(ms, arrivals[0]);
      PrefixKept(next, arrivals[1..]);
      var r := ApplyArrivalsOnce(next, arrivals[1..]);
      assert r[..|ms|] == r[..|next|][..|ms|];
    }
  }

  // ---------------------------------------------------------------------------
  // Chats
  // ---------------------------------------------------------------------------

  /** The chat-update path: every listed chat with the updated chat's id is swapped for it,
      everything else stays in place. */
  function ReplaceChat(chats: seq<Chat>, updated: Chat): (r: seq<Chat>)
    ensures |r| == |chats|
    ensures forall i :: 0 <= i < |r| ==> r[i] == (if chats[i].id == updated.id then updated else chats[i])
  {
    if chats == [] then []
    else [if chats[0].id == updated.id then updated else chats[0]] + ReplaceChat(chats[1..], updated)
  }

  /** An update for a chat that is not listed is never inserted: the list is unchanged. */
  lemma ReplaceUnknownChat(chats: seq<Chat>, updated: Chat)
    requires forall i :: 0 <= i < |chats| ==> chats[i].id != updated.id
    ensures ReplaceChat(chats, updated) == chats
  {
  }

  /** The replacement keeps every position's id, and applying it twice is applying it once. */
  lemma ReplaceChatStable(chats: seq<Chat>, updated: Chat)
    ensures forall i :: 0 <= i < |chats| ==> ReplaceChat(chats, updated)[i].id == chats[i].id
    ensures ReplaceChat(ReplaceChat(chats, updated), updated) == ReplaceChat(chats, updated)
  {
  }
}
