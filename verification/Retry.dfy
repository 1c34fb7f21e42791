/**
 The bounded retry around a streamed turn: transient errors only, and only while no text came through.
 */
module Retry {
  import opened Common
  import opened Stream

  const MAX_RETRIES: nat := 10

  const RETRY_BASE_MS: nat := 1_000

  const RETRY_CAP_MS: nat := 30_000

  const BAD_STATUS := "chat endpoint returned "

  const NOT_IMPLEMENTED := "501 Not Implemented: "

  const REQUEST_FAILED := "the chat request failed"

  /** What one call meets: no answer at all, an error status with its whole message, or a body. */
  datatype Attempt = RequestFailed | BadStatus(message: string) | Streamed(chunks: seq<Read>)

  predicate StartsAt(s: string, i: nat, part: string) {
    i + |part| <= |s| && forall k :: 0 <= k < |part| ==> s[i + k] == part[k]
  }

  predicate Contains(s: string, part: string) {
    exists i :: 0 <= i <= |s| && StartsAt(s, i, part)
  }

  predicate IsRetriable(message: string) {
    || Contains(message, "429") || Contains(message, "500") || Contains(message, "502")
    || Contains(message, "503") || Contains(message, "504") || Contains(message, "connection")
    || Contains(message, "timed out") || Contains(message, "timeout") || Contains(message, "reset")
    || Contains(message, "broken")
  }

  /** The ten texts that make a message retriable. */
  lemma RetriableInPlainTerms(message: string, before: string, part: string, after: string)
    requires part in {"429", "500", "502", "503", "504", "connection", "timed out", "timeout", "reset", "broken"}
    requires message == before + part + after
    ensures IsRetriable(message)
  {
    assert forall k :: 0 <= k < |part| ==> message[|before| + k] == part[k];
    assert StartsAt(message, |before|, part);
  }

  /** And no other does: a retriable message holds one of them. */
  lemma RetriableHoldsAText(message: string) returns (before: string, part: string, after: string)
    requires IsRetriable(message)
    ensures part in {"429", "500", "502", "503", "504", "connection", "timed out", "timeout", "reset", "broken"}
    ensures message == before + part + after
  {
    part :| part in {"429", "500", "502", "503", "504", "connection", "timed out", "timeout", "reset", "broken"}
      && Contains(message, part);
    before, after := ContainedText(message, part);
  }

  lemma ContainedText(message: string, part: string) returns (before: string, after: string)
    requires Contains(message, part)
    ensures message == before + part + after
  {
    var i :| 0 <= i <= |message| && StartsAt(message, i, part);
    before, after := message[..i], message[i + |part|..];
    assert message[i..i + |part|] == part;
  }

  function Power2(n: nat): nat {
    if n == 0 then 1 else 2 * Power2(n - 1)
  }

  /** The pause before attempt `n`, in milliseconds. */
  function Delay(n: nat): nat {
    Min(RETRY_BASE_MS * Power2(Min(n, 5)), RETRY_CAP_MS)
  }

  /** All the pauses up to and including the one before attempt `n`. */
  function TotalDelay(n: nat): nat {
    if n == 0 then 0 else TotalDelay(n - 1) + Delay(n)
  }

  /** The outcome of one call. */
  function Outcome(a: Attempt, parse: string -> Parsed): Decoded {
    match a
    case RequestFailed => Decoded(Err(REQUEST_FAILED), [])
    case BadStatus(message) => Decoded(Err(BAD_STATUS + message), [])
    case Streamed(chunks) => Batch(START, CompleteLines(BodyText(chunks)), BodyEnding(chunks), parse)
  }

  method CallOnce(a: Attempt, parse: string -> Parsed) returns (d: Decoded)
    ensures d == Outcome(a, parse)
  {
    match a {
      case RequestFailed => d := Decoded(Err(REQUEST_FAILED), []);
      case BadStatus(message) => d := Decoded(Err(BAD_STATUS + message), []);
      case Streamed(chunks) => d := StreamTurn(chunks, parse);
    }
  }

  /** A failure worth another call: transient, and nothing was said yet. */
  predicate WorthRetrying(d: Decoded) {
    d.result.Err? && d.said == [] && IsRetriable(d.result.error)
  }

  /** Each of the first `n` calls failed in a way worth another. */
  predicate AllWorthRetrying(attempts: nat -> Attempt, parse: string -> Parsed, n: nat) {
    forall k: nat :: k < n ==> WorthRetrying(Outcome(attempts(k), parse))
  }

  /** `attempts` is what each call meets; `said` is everything the callback was given over all calls. */
  method StreamTurnWithRetry(attempts: nat -> Attempt, parse: string -> Parsed)
      returns (r: Result<Turn, string>, said: seq<string>, calls: nat, sleptMs: nat)
    ensures 1 <= calls <= 10 && sleptMs == TotalDelay(calls - 1) && sleptMs <= 180_000
    ensures Outcome(attempts(calls - 1), parse) == Decoded(r, said)
    ensures AllWorthRetrying(attempts, parse, calls - 1)
    ensures r.Err? ==> calls == 10 || said != [] || !IsRetriable(r.error)
    ensures r.Ok? ==> Concat(said) == r.value.text
  {
    var attempt: nat := 0;
    said := [];
    sleptMs := 0;
    while true
      invariant attempt < MAX_RETRIES && said == [] && sleptMs == TotalDelay(attempt)
      invariant AllWorthRetrying(attempts, parse, attempt)
      decreases MAX_RETRIES - attempt
    {
      var d := CallOnce(attempts(attempt), parse);
      var gotToken := d.said != [];
      said := said + d.said;
      assert said == d.said;
      if d.result.Ok? {
        OutcomeSaysItsText(attempts(attempt), parse);
        SleepFits(attempt);
        return d.result, said, attempt + 1, sleptMs;
      }
      if gotToken || !IsRetriable(d.result.error) || attempt >= MAX_RETRIES - 1 {
        SleepFits(attempt);
        return d.result, said, attempt + 1, sleptMs;
      }
      OneMoreRetry(attempts, parse, attempt);
      attempt := attempt + 1;
      sleptMs := sleptMs + Delay(attempt);
    }
  }

  lemma OneMoreRetry(attempts: nat -> Attempt, parse: string -> Parsed, n: nat)
    requires AllWorthRetrying(attempts, parse, n) && WorthRetrying(Outcome(attempts(n), parse))
    ensures AllWorthRetrying(attempts, parse, n + 1)
  {}

  lemma OutcomeSaysItsText(a: Attempt, parse: string -> Parsed)
    ensures var d := Outcome(a, parse); d.result.Ok? ==> Concat(d.said) == d.result.value.text && "" !in d.said
  {
    if a.Streamed? {
      SaidIsTheText(START, CompleteLines(BodyText(a.chunks)), BodyEnding(a.chunks), parse);
    }
  }

  lemma SleepFits(n: nat)
    requires n < MAX_RETRIES
    ensures TotalDelay(n) <= 180_000
  {
    SleepIsBounded(n);
  }

  /** Ten calls sleep 180 seconds in all, starting with two, and fewer calls sleep less. */
  lemma SleepIsBounded(n: nat)
    requires n < MAX_RETRIES
    ensures TotalDelay(n) <= 180_000
    ensures n >= 1 ==> TotalDelay(1) == 2_000
    ensures n == 9 ==> TotalDelay(n) == 180_000
    ensures TotalDelay(n + 1) - TotalDelay(n)
         == if n == 0 then 2_000 else if n == 1 then 4_000 else if n == 2 then 8_000 else if n == 3 then 16_000 else 30_000
  {
    assert Power2(1) == 2 && Power2(2) == 4 && Power2(3) == 8 && Power2(4) == 16 && Power2(5) == 32;
    assert TotalDelay(1) == 2_000 && TotalDelay(2) == 6_000 && TotalDelay(3) == 14_000;
    assert TotalDelay(4) == 30_000 && TotalDelay(5) == 60_000 && TotalDelay(6) == 90_000;
    assert forall k :: k >= 5 ==> Delay(k) == 30_000;
    assert TotalDelay(7) == 120_000 && TotalDelay(8) == 150_000 && TotalDelay(9) == 180_000;
  }

  /** A text without one of the characters of a pattern does not contain it. */
  lemma Lacks(s: string, part: string, at: nat)
    requires at < |part| && part[at] !in s
    ensures !Contains(s, part)
  {
    forall i | 0 <= i <= |s| ensures !StartsAt(s, i, part) {
      assert i + at < |s| ==> s[i + at] in s;
    }
  }

  /** Nor does one in which two characters of it never stand as far apart. */
  lemma LacksPair(s: string, part: string, a: nat, b: nat)
    requires a < |part| && b < |part|
    requires forall x, y :: 0 <= x < |s| && 0 <= y < |s| && y == x + b - a && s[x] == part[a] ==> s[y] != part[b]
    ensures !Contains(s, part)
  {
    forall i | 0 <= i <= |s| ensures !StartsAt(s, i, part) {
      assert i + a < |s| && i + b < |s| ==> s[i + a] != part[a] || s[i + b] != part[b];
    }
  }

  lemma NamesNoTransport(s: string)
    requires 'n' !in s && ('i' !in s || 'o' !in s)
    requires forall i: nat :: i + 1 < |s| && s[i] == 's' ==> s[i + 1] != 'e'
    ensures !Contains(s, "connection") && !Contains(s, "broken") && !Contains(s, "timed out") && !Contains(s, "timeout")
    ensures !Contains(s, "reset")
  {
    Lacks(s, "connection", 2);
    Lacks(s, "broken", 5);
    Lacks(s, "timed out", if 'i' !in s then 1 else 6);
    Lacks(s, "timeout", if 'i' !in s then 1 else 4);
    LacksPair(s, "reset", 2, 3);
  }

  lemma NamesNoStatus(s: string)
    requires '0' !in s && '4' !in s
    ensures !Contains(s, "429") && !Contains(s, "500") && !Contains(s, "502") && !Contains(s, "503") && !Contains(s, "504")
  {
    Lacks(s, "429", 0);
    Lacks(s, "500", 1);
    Lacks(s, "502", 1);
    Lacks(s, "503", 1);
    Lacks(s, "504", 1);
  }

  lemma LettersOfRequestFailed(s: string, i: nat)
    requires s == REQUEST_FAILED && i < |s|
    ensures s[i] != '0' && s[i] != '4' && s[i] != 'n' && s[i] != 'o'
    ensures s[i] == 's' ==> i == 14 && s[15] == 't'
  {}

  lemma LettersOfStreamBroke(s: string, i: nat)
    requires s == STREAM_BROKE && i < |s|
    ensures s[i] != '0' && s[i] != '4' && s[i] != 'n' && s[i] != 'i'
    ensures s[i] == 's' ==> i == 9 && s[10] == 't'
  {}

  lemma RequestFailedIsFinal(s: string)
    requires s == REQUEST_FAILED
    ensures !IsRetriable(s)
  {
    forall i | 0 <= i < |s| { LettersOfRequestFailed(s, i); }
    NamesNoTransport(s);
    NamesNoStatus(s);
  }

  lemma StreamBrokeIsFinal(s: string)
    requires s == STREAM_BROKE
    ensures !IsRetriable(s)
  {
    forall i | 0 <= i < |s| { LettersOfStreamBroke(s, i); }
    NamesNoTransport(s);
    NamesNoStatus(s);
  }

  lemma BadStatusText()
    ensures |BAD_STATUS| == 23 && BAD_STATUS[17] == 'u' && BAD_STATUS[22] == ' '
    ensures '0' !in BAD_STATUS && '4' !in BAD_STATUS && 'm' !in BAD_STATUS && 's' !in BAD_STATUS && 'b' !in BAD_STATUS
    ensures forall i: nat :: i + 1 < 23 && BAD_STATUS[i] == 'c' ==> BAD_STATUS[i + 1] == 'h'
  {}

  /** The fixed text names nothing retriable itself. */
  lemma BadStatusIsNotRetriable()
    ensures !IsRetriable(BAD_STATUS)
  {
    var s := BAD_STATUS;
    BadStatusText();
    NamesNoStatus(s);
    LacksPair(s, "connection", 0, 1);
    Lacks(s, "timed out", 2);
    Lacks(s, "timeout", 2);
    Lacks(s, "reset", 2);
    Lacks(s, "broken", 0);
  }

  /** No pattern starts in the fixed text and ends in the message. */
  lemma NothingStraddles(message: string, i: nat, part: string)
    requires i < 23 < i + |part| && (' ' !in part || part == "timed out")
    ensures !StartsAt(BAD_STATUS + message, i, part)
  {
    BadStatusText();
    var all := BAD_STATUS + message;
    assert all[22] == BAD_STATUS[22] && all[17] == BAD_STATUS[17];
    if ' ' !in part {
      assert part[22 - i] in part;
      assert all[i + (22 - i)] != part[22 - i];
    } else if i == 17 {
      assert part[0] == "timed out"[0] == 't';
      assert all[i + 0] != part[0];
    } else {
      TimedOutHasOneSpace(22 - i);
      assert all[i + (22 - i)] != part[22 - i];
    }
  }

  lemma TimedOutHasOneSpace(k: nat)
    requires k < 9 && k != 5
    ensures "timed out"[k] != ' '
  {}

  lemma ContainsBehind(message: string, part: string)
    requires part != "" && (' ' !in part || part == "timed out") && !Contains(BAD_STATUS, part)
    ensures Contains(BAD_STATUS + message, part) <==> Contains(message, part)
  {
    BadStatusText();
    var all := BAD_STATUS + message;
    if Contains(message, part) {
      var i :| 0 <= i <= |message| && StartsAt(message, i, part);
      assert StartsAt(all, 23 + i, part);
    }
    if !Contains(message, part) {
      forall i | 0 <= i <= |all| ensures !StartsAt(all, i, part) {
        StartsWhere(message, part, i);
      }
    }
  }

  lemma StartsWhere(message: string, part: string, i: nat)
    requires part != "" && (' ' !in part || part == "timed out") && !Contains(BAD_STATUS, part)
    ensures StartsAt(BAD_STATUS + message, i, part) <==> i >= 23 && StartsAt(message, i - 23, part)
  {
    BadStatusText();
    if i < 23 < i + |part| {
      NothingStraddles(message, i, part);
    } else if i < 23 {
      assert StartsAt(BAD_STATUS + message, i, part) <==> StartsAt(BAD_STATUS, i, part);
    }
  }

  /** An error status is retried exactly when the status line or the body names a retriable failure. */
  lemma BadStatusRetriedIff(message: string, parse: string -> Parsed)
    ensures WorthRetrying(Outcome(BadStatus(message), parse)) <==> IsRetriable(message)
  {
    BadStatusIsNotRetriable();
    ContainsBehind(message, "429");
    ContainsBehind(message, "500");
    ContainsBehind(message, "502");
    ContainsBehind(message, "503");
    ContainsBehind(message, "504");
    ContainsBehind(message, "connection");
    ContainsBehind(message, "timed out");
    ContainsBehind(message, "timeout");
    ContainsBehind(message, "reset");
    ContainsBehind(message, "broken");
  }

  lemma LettersOfNotImplemented(s: string)
    requires s == NOT_IMPLEMENTED
    ensures |s| == 21 && forall i: nat :: i + 2 < |s| && s[i] == '5' ==> s[i + 2] != '0'
    ensures forall c :: c in s ==> c !in ['4', '2', '3', 'c', 'u', 'r', 'b']
  {
    assert s[2] == '1' && forall i :: 0 < i < |s| ==> s[i] != '5';
  }

  /** A server error that is not: 501 with an empty body ends the turn at once. */
  lemma NotImplementedIsNotRetried(parse: string -> Parsed)
    ensures !WorthRetrying(Outcome(BadStatus(NOT_IMPLEMENTED), parse))
  {
    var s := NOT_IMPLEMENTED;
    BadStatusRetriedIff(s, parse);
    LettersOfNotImplemented(s);
    Lacks(s, "429", 0);
    LacksPair(s, "500", 0, 2);
    Lacks(s, "502", 2);
    Lacks(s, "503", 2);
    Lacks(s, "504", 2);
    Lacks(s, "connection", 0);
    Lacks(s, "timed out", 7);
    Lacks(s, "timeout", 5);
    Lacks(s, "reset", 0);
    Lacks(s, "broken", 0);
  }

  /**
   Only the outermost message of an error is looked at, so a request that got no answer and a stream that
   broke end the turn at once: every call before the last met an answer carrying an error.
   */
  lemma TransportFailuresAreNotRetried(a: Attempt, parse: string -> Parsed)
    ensures a.RequestFailed? ==> !WorthRetrying(Outcome(a, parse))
    ensures Outcome(a, parse).result == Err(STREAM_BROKE) ==> !WorthRetrying(Outcome(a, parse))
  {
    RequestFailedIsFinal(REQUEST_FAILED);
    StreamBrokeIsFinal(STREAM_BROKE);
  }
}
