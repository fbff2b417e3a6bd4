/** The helpers of lib/appwrite.ts: the connectivity probe, the three collection
    probes, and the retry executor that every backend call goes through.
    A backend operation is an oracle `op` giving the outcome of attempt number k
    (counting from 1); waiting is recorded, not performed. */
module Appwrite {
  import opened Outcomes
  import opened Text

  /** Outcome of a backend call that returns nothing of interest:
      it either went through or threw an error with a message. */
  datatype Ack = Acked | Refused(msg: string)

  // ---------------------------------------------------------------------------
  // Retry executor
  // ---------------------------------------------------------------------------

  /** The defaults of `withRetry(operation, retries = 3, delay = 1000)`. */
  const DefaultRetries: int := 3
  const DefaultDelay: int := 1000

  const MaxRetriesExceeded: string := "Max retries exceeded"

  /** The failures `withRetry` refuses to retry. */
  predicate IsPermissionFailure(msg: string) {
    Contains(msg, "not authorized") || Contains(msg, "missing scope")
  }

  /** The error thrown in place of a permission failure. */
  function PermissionDenied(msg: string): (r: string)
    ensures HasPrefix(r, "Permission denied: ")
    ensures |r| > 19 + |msg| && r[19..19 + |msg|] == msg
  {
    "Permission denied: " + msg + ". Please check your Appwrite collection permissions."
  }

  /** The error `withRetry` throws when its last attempt failed with `msg`. */
  function RetryFailure(msg: string): string {
    if IsPermissionFailure(msg) then PermissionDenied(msg) else msg
  }

  /** What one `withRetry` call did: its outcome, how many times it invoked the
      operation, and the pauses it took between attempts, in order. */
  datatype RetryRun<+T> = RetryRun(result: Result<T>, attempts: nat, waits: seq<int>)

  /** The loop of `withRetry` from attempt number `attempt` on. */
  function RetryFrom<T>(op: nat -> Result<T>, retries: int, delay: int, attempt: nat): (r: RetryRun<T>)
    requires attempt >= 1
    ensures attempt > retries ==> r == RetryRun(Err(MaxRetriesExceeded), 0, [])
    ensures attempt <= retries ==> 1 <= r.attempts <= retries - attempt + 1
    ensures forall k :: attempt <= k < attempt + r.attempts - 1 ==> op(k).Err? && !IsPermissionFailure(op(k).msg)
    ensures |r.waits| == if r.attempts == 0 then 0 else r.attempts - 1
    ensures forall i :: 0 <= i < |r.waits| ==> r.waits[i] == delay * (attempt + i)
    ensures r.attempts >= 1 ==> var last := op(attempt + r.attempts - 1);
      && (last.Ok? ==> r.result == last)
      && (last.Err? && IsPermissionFailure(last.msg) ==> r.result == Err(PermissionDenied(last.msg)))
      && (last.Err? && !IsPermissionFailure(last.msg) ==> attempt + r.attempts - 1 == retries && r.result == last)
    decreases retries - attempt + 1
  {
    if attempt > retries then RetryRun(Err(MaxRetriesExceeded), 0, [])
    else
      match op(attempt)
      case Ok(v) => RetryRun(Ok(v), 1, [])
      case Err(m) =>
        if IsPermissionFailure(m) then RetryRun(Err(PermissionDenied(m)), 1, [])
        else if attempt == retries then RetryRun(Err(m), 1, [])
        else
          var rest := RetryFrom(op, retries, delay, attempt + 1);
          RetryRun(rest.result, rest.attempts + 1, [delay * attempt] + rest.waits)
  }

  /** `withRetry(operation, retries, delay)`: at most `retries` attempts; every attempt
      before the last one failed with a retryable error; the pause before attempt k+1
      is `delay * k`; the last attempt decides the outcome: its value, the permission
      error, or (only when the attempts are used up) its own error unchanged. */
  function WithRetry<T>(op: nat -> Result<T>, retries: int, delay: int): (r: RetryRun<T>)
    ensures retries < 1 ==> r == RetryRun(Err(MaxRetriesExceeded), 0, [])
    ensures retries >= 1 ==> 1 <= r.attempts <= retries
    ensures forall k :: 1 <= k < r.attempts ==> op(k).Err? && !IsPermissionFailure(op(k).msg)
    ensures |r.waits| == if r.attempts == 0 then 0 else r.attempts - 1
    ensures forall i :: 0 <= i < |r.waits| ==> r.waits[i] == delay * (i + 1)
    ensures r.attempts >= 1 && op(r.attempts).Ok? ==> r.result == op(r.attempts)
    ensures r.attempts >= 1 && op(r.attempts).Err? && IsPermissionFailure(op(r.attempts).msg) ==>
      r.result == Err(PermissionDenied(op(r.attempts).msg))
    ensures r.attempts >= 1 && op(r.attempts).Err? && !IsPermissionFailure(op(r.attempts).msg) ==>
      r.attempts == retries && r.result == op(r.attempts)
  {
    RetryFrom(op, retries, delay, 1)
  }

  /** When the first attempt succeeds, that is the whole story: one attempt, no pause. */
  lemma FirstAttemptSucceeds<T>(op: nat -> Result<T>, retries: int, delay: int)
    requires retries >= 1 && op(1).Ok?
    ensures WithRetry(op, retries, delay) == RetryRun(op(1), 1, [])
  {
  }

  /** A successful attempt `k` reached before any permission failure. */
  ghost predicate SucceedsAt<T>(op: nat -> Result<T>, retries: int, k: nat) {
    && 1 <= k <= retries
    && op(k).Ok?
    && forall j :: 1 <= j < k ==> op(j).Err? && !IsPermissionFailure(op(j).msg)
  }

  /** `withRetry` succeeds exactly when some attempt within the budget succeeds before
      any permission failure, and then it returns that attempt's value. */
  lemma WithRetrySucceedsIff<T>(op: nat -> Result<T>, retries: int, delay: int)
    ensures WithRetry(op, retries, delay).result.Ok? <==> exists k :: SucceedsAt(op, retries, k)
    ensures forall k :: SucceedsAt(op, retries, k) ==>
      WithRetry(op, retries, delay).attempts == k && WithRetry(op, retries, delay).result == op(k)
  {
    var r := WithRetry(op, retries, delay);
    if r.result.Ok? {
      assert SucceedsAt(op, retries, r.attempts);
    }
  }

  /** A permission failure stops the loop at once, whatever later attempts would do. */
  lemma PermissionFailureStopsRetries<T>(op: nat -> Result<T>, retries: int, delay: int, k: nat)
    requires 1 <= k <= retries
    requires forall j :: 1 <= j < k ==> op(j).Err? && !IsPermissionFailure(op(j).msg)
    requires op(k).Err? && IsPermissionFailure(op(k).msg)
    ensures WithRetry(op, retries, delay).attempts == k
    ensures WithRetry(op, retries, delay).result == Err(PermissionDenied(op(k).msg))
    ensures |WithRetry(op, retries, delay).waits| == k - 1
  {
  }

  /** The permission error keeps both the marker "Permission denied" and the
      original message, so later classification by substring still sees them. */
  lemma PermissionDeniedKeepsMarkers(msg: string)
    ensures Contains(PermissionDenied(msg), "Permission denied")
    ensures Contains(PermissionDenied(msg), msg)
  {
    var suffix := ". Please check your Appwrite collection permissions.";
    assert PermissionDenied(msg)[0..17] == "Permission denied";
    assert OccursAt(PermissionDenied(msg), "Permission denied", 0);
    assert PermissionDenied(msg)[19..19 + |msg|] == msg;
    assert OccursAt(PermissionDenied(msg), msg, 19);
  }

  /** A string cannot contain a text whose first character it lacks. */
  lemma FirstCharAbsent(s: string, t: string)
    requires t != []
    requires forall i :: 0 <= i < |s| ==> s[i] != t[0]
    ensures !Contains(s, t)
  {
    forall i | 0 <= i <= |s| - |t|
      ensures !OccursAt(s, t, i)
    {
      assert s[i..i + |t|][0] == s[i];
    }
  }

  /** Fail, fail, succeed with three retries: the value of the third attempt,
      after exactly two pauses of `delay` and `2 * delay`. */
  lemma TwoFailuresThenSuccess(delay: int)
    ensures var op := (k: nat) => if k < 3 then Err("Server error 503") else Ok(42);
      WithRetry(op, 3, delay) == RetryRun(Ok(42), 3, [delay, 2 * delay])
  {
    var op := (k: nat) => if k < 3 then Err("Server error 503") else Ok(42);
    FirstCharAbsent("Server error 503", "not authorized");
    FirstCharAbsent("Server error 503", "missing scope");
  }

  // ---------------------------------------------------------------------------
  // Probes
  // ---------------------------------------------------------------------------

  /** The result of `checkAppwriteConnection`. */
  datatype ConnectionStatus = ConnectionStatus(connected: bool, error: Option<string>)

  /** A refusal that only means "no session": the backend is still reachable. */
  predicate IsNoSessionFailure(msg: string) {
    Contains(msg, "missing scope") || Contains(msg, "unauthorized")
  }

  /** `checkAppwriteConnection` given the outcome of the account lookup. */
  function CheckAppwriteConnection(probe: Ack): (r: ConnectionStatus)
    ensures r.connected <==> probe.Acked? || IsNoSessionFailure(probe.msg)
    ensures r.connected ==> r.error == None
    ensures !r.connected ==> r.error == Some(probe.msg)
  {
    match probe
    case Acked => ConnectionStatus(true, None)
    case Refused(m) =>
      if IsNoSessionFailure(m) then ConnectionStatus(true, None) else ConnectionStatus(false, Some(m))
  }

  /** A refusal for a missing scope means the backend answered: the probe reports a
      connection, although `withRetry` treats the same message as a permission failure. */
  lemma MissingScopeStillConnected(msg: string)
    requires Contains(msg, "missing scope")
    ensures CheckAppwriteConnection(Refused(msg)) == ConnectionStatus(true, None)
    ensures IsPermissionFailure(msg)
  {
  }

  /** Any other refusal, such as a network failure, is reported as no connection
      with the refusal's own message. */
  lemma NetworkFailureDisconnects()
    ensures CheckAppwriteConnection(Refused("Failed to fetch"))
         == ConnectionStatus(false, Some("Failed to fetch"))
  {
    FirstCharAbsent("Failed to fetch", "missing scope");
    FirstCharAbsent("Failed to fetch", "unauthorized");
  }

  /** Outcomes of the three `listDocuments(..., [Query.limit(1)])` probes. */
  datatype Probes = Probes(users: Ack, chats: Ack, messages: Ack)

  /** The record `checkCollectionPermissions` returns and the service caches. */
  datatype PermissionStatus = PermissionStatus(
    usersAccessible: bool,
    chatsAccessible: bool,
    messagesAccessible: bool,
    errors: seq<string>)

  /** The error entries a failed probe contributes: none, or one labelled line. */
  function ProbeErrors(name: string, probe: Ack): (r: seq<string>)
    ensures r == [] <==> probe.Acked?
    ensures probe.Refused? ==> |r| == 1 && HasPrefix(r[0], name + ": ") && r[0][|name| + 2..] == probe.msg
  {
    match probe
    case Acked => []
    case Refused(m) => [name + ": " + m]
  }

  predicate AllAccessible(s: PermissionStatus) {
    s.usersAccessible && s.chatsAccessible && s.messagesAccessible
  }

  /** `checkCollectionPermissions`: each flag is true iff its probe succeeded, and the
      errors are the labelled failures in users, chats, messages order. */
  function CheckCollectionPermissions(p: Probes): (r: PermissionStatus)
    ensures r.usersAccessible <==> p.users.Acked?
    ensures r.chatsAccessible <==> p.chats.Acked?
    ensures r.messagesAccessible <==> p.messages.Acked?
    ensures r.errors == ProbeErrors("Users collection", p.users)
                      + ProbeErrors("Chats collection", p.chats)
                      + ProbeErrors("Messages collection", p.messages)
    ensures r.errors == [] <==> AllAccessible(r)
    ensures |r.errors| == 3 - ((if r.usersAccessible then 1 else 0) + (if r.chatsAccessible then 1 else 0)
                               + (if r.messagesAccessible then 1 else 0))
  {
    PermissionStatus(
      p.users.Acked?,
      p.chats.Acked?,
      p.messages.Acked?,
      ProbeErrors("Users collection", p.users)
        + ProbeErrors("Chats collection", p.chats)
        + ProbeErrors("Messages collection", p.messages))
  }
}
