/** The speech transcriber: `transcribe_audio` calls the speech-to-text
    service at most MaxRetries times, backing off between failed attempts.
    The service is an input: `service(path, j)` is what attempt number `j`
    (counting from 0) for the file at `path` yields. */
module Transcriber {
  import opened Outcomes
  import opened Strings

  const MaxRetries: nat := 3
  const RetryDelay: nat := 2

  /** What one call to the speech-to-text service yields: a response whose
      `text` may be None, the service's rate-limit exception, or any other
      exception (with its `str`). */
  datatype Attempt =
    | Transcribed(text: Option<string>)
    | RateLimited
    | Raised(message: string)

  /** Only a None text is rejected: an empty string is a transcript. */
  predicate Succeeds(a: Attempt) {
    a.Transcribed? && a.text.Some?
  }

  /** The `last_error` a failed attempt records. A None text is raised as a
      TranscriptionError inside the `try` and caught by the generic handler,
      so it records that exception's message. */
  function FailureReason(a: Attempt): (reason: string)
    requires !Succeeds(a)
    ensures a.RateLimited? ==> reason == "Rate limit exceeded"
    ensures a.Raised? ==> reason == a.message
    ensures a.Transcribed? ==> reason == "Transcription returned None text"
  {
    match a
    case RateLimited => "Rate limit exceeded"
    case Raised(message) => message
    case Transcribed(_) => "Transcription returned None text"
  }

  function Pow2(n: nat): (p: nat)
    ensures p >= 1
  {
    if n == 0 then 1 else 2 * Pow2(n - 1)
  }

  /** The sleep after a failed attempt, once `retries` has been incremented
      to `retries`: exponential for a rate limit, fixed otherwise. */
  function BackoffDelay(a: Attempt, retries: nat): (delay: nat)
    ensures delay >= RetryDelay
    ensures !a.RateLimited? ==> delay == RetryDelay
    ensures a.RateLimited? && 1 <= retries <= MaxRetries ==> delay == [4, 8, 16][retries - 1]
  {
    if a.RateLimited? then RetryDelay * Pow2(retries) else RetryDelay
  }

  /** The index of the first successful attempt at or after `from`, among
      the MaxRetries attempts the transcriber may make. */
  function FirstSuccess(path: string, service: (string, nat) -> Attempt, from: nat): (k: Option<nat>)
    decreases MaxRetries - from
    ensures k.Some? ==> from <= k.value < MaxRetries && Succeeds(service(path, k.value))
    ensures k.Some? ==> forall j :: from <= j < k.value ==> !Succeeds(service(path, j))
    ensures k.None? ==> forall j :: from <= j < MaxRetries ==> !Succeeds(service(path, j))
  {
    if from >= MaxRetries then None
    else if Succeeds(service(path, from)) then Some(from)
    else FirstSuccess(path, service, from + 1)
  }

  /** The message of the TranscriptionError raised once every attempt failed. */
  function ExhaustedMessage(lastError: string): string {
    "Failed to transcribe audio after " + NatToString(MaxRetries) + " attempts: " + lastError
  }

  /** What `transcribe_audio(path)` returns or raises. */
  function TranscriptionResult(path: string, service: (string, nat) -> Attempt): (r: Result<string>)
    ensures r.Err? <==> forall j :: 0 <= j < MaxRetries ==> !Succeeds(service(path, j))
    ensures r.Err? ==> r.error.TranscriptionError?
  {
    match FirstSuccess(path, service, 0)
    case Some(k) => Ok(service(path, k).text.value)
    case None => Err(TranscriptionError(ExhaustedMessage(FailureReason(service(path, MaxRetries - 1)))))
  }

  /** How many attempts fail before the transcriber stops. */
  function FailedAttempts(path: string, service: (string, nat) -> Attempt): (n: nat)
    ensures n <= MaxRetries
  {
    match FirstSuccess(path, service, 0)
    case Some(k) => k
    case None => MaxRetries
  }

  /** The sleeps after the first `n` attempts, all of which failed. */
  function Waits(path: string, service: (string, nat) -> Attempt, n: nat): (w: seq<nat>)
    ensures |w| == n
    ensures forall i :: 0 <= i < n ==> w[i] == BackoffDelay(service(path, i), i + 1)
  {
    if n == 0 then [] else Waits(path, service, n - 1) + [BackoffDelay(service(path, n - 1), n)]
  }

  /** `transcribe_audio`: the retry loop. `calls` counts the service calls
      made and `sleeps` records every `time.sleep` in order. */
  method TranscribeAudio(audioPath: string, service: (string, nat) -> Attempt)
    returns (result: Result<string>, calls: nat, sleeps: seq<nat>)
    ensures result == TranscriptionResult(audioPath, service)
    ensures 1 <= calls <= MaxRetries
    ensures calls == FailedAttempts(audioPath, service) + (if result.Ok? then 1 else 0)
    ensures sleeps == Waits(audioPath, service, FailedAttempts(audioPath, service))
  {
    var retries: nat := 0;
    var lastError: Option<string> := None;
    calls, sleeps := 0, [];
    while retries < MaxRetries
      invariant retries <= MaxRetries
      invariant calls == retries
      invariant forall j :: 0 <= j < retries ==> !Succeeds(service(audioPath, j))
      invariant sleeps == Waits(audioPath, service, retries)
      invariant lastError == if retries == 0 then None else Some(FailureReason(service(audioPath, retries - 1)))
    {
      var response := service(audioPath, retries);
      calls := calls + 1;
      match response {
        case Transcribed(Some(text)) =>
          result := Ok(text);
          return;
        case Transcribed(None) =>
          retries := retries + 1;
          sleeps := sleeps + [RetryDelay];
          lastError := Some("Transcription returned None text");
        case RateLimited =>
          retries := retries + 1;
          var waitTime := RetryDelay * Pow2(retries);
          sleeps := sleeps + [waitTime];
          lastError := Some("Rate limit exceeded");
        case Raised(message) =>
          retries := retries + 1;
          sleeps := sleeps + [RetryDelay];
          lastError := Some(message);
      }
    }
    result := Err(TranscriptionError(ExhaustedMessage(lastError.value)));
  }

  /** Transcription succeeds exactly when one of the MaxRetries attempts
      yields a text, and then it returns the first such text. */
  lemma TranscriptionSucceedsIff(path: string, service: (string, nat) -> Attempt)
    ensures TranscriptionResult(path, service).Ok? <==>
            exists k :: 0 <= k < MaxRetries && Succeeds(service(path, k))
    ensures TranscriptionResult(path, service).Ok? ==>
            exists k :: 0 <= k < MaxRetries && Succeeds(service(path, k)) &&
              TranscriptionResult(path, service).value == service(path, k).text.value &&
              forall j :: 0 <= j < k ==> !Succeeds(service(path, j))
  {
    match FirstSuccess(path, service, 0)
    case Some(k) =>
    case None =>
  }

  /** On failure the error names the attempt count and the reason recorded by
      the final attempt only. */
  lemma ExhaustedErrorCarriesLastReason(path: string, service: (string, nat) -> Attempt)
    requires forall j :: 0 <= j < MaxRetries ==> !Succeeds(service(path, j))
    ensures TranscriptionResult(path, service) ==
            Err(TranscriptionError("Failed to transcribe audio after 3 attempts: " + FailureReason(service(path, 2))))
  {
    var reason := FailureReason(service(path, 2));
    assert NatToString(MaxRetries) == "3";
    assert ExhaustedMessage(reason) == "Failed to transcribe audio after 3 attempts: " + reason;
  }

  /** An empty transcript is returned at once: only None is retried. */
  lemma EmptyTextIsSuccess(path: string, service: (string, nat) -> Attempt)
    requires service(path, 0) == Transcribed(Some(""))
    ensures TranscriptionResult(path, service) == Ok("")
    ensures FailedAttempts(path, service) == 0
  {
  }

  /** A service that always rate-limits is tried three times, with sleeps of
      4, 8 and 16 seconds. */
  lemma RateLimitedWaits(path: string, service: (string, nat) -> Attempt)
    requires forall j :: service(path, j) == RateLimited
    ensures FailedAttempts(path, service) == 3
    ensures Waits(path, service, 3) == [4, 8, 16]
  {
    assert service(path, 0) == RateLimited && service(path, 1) == RateLimited && service(path, 2) == RateLimited;
    assert Pow2(1) == 2 && Pow2(2) == 4 && Pow2(3) == 8;
    assert Waits(path, service, 1) == [4];
    assert Waits(path, service, 2) == [4, 8];
  }

  /** A service that always rate-limits: three attempts, sleeps of 4, 8 and
      16 seconds, and the rate-limit message in the error. */
  lemma AlwaysRateLimited(path: string, service: (string, nat) -> Attempt)
    requires forall j :: service(path, j) == RateLimited
    ensures TranscriptionResult(path, service) ==
            Err(TranscriptionError("Failed to transcribe audio after 3 attempts: Rate limit exceeded"))
    ensures Waits(path, service, FailedAttempts(path, service)) == [4, 8, 16]
  {
    RateLimitedWaits(path, service);
    assert forall j :: 0 <= j < MaxRetries ==> !Succeeds(service(path, j)) by {
      forall j | 0 <= j < MaxRetries ensures !Succeeds(service(path, j)) {
        assert service(path, j) == RateLimited;
      }
    }
    ExhaustedErrorCarriesLastReason(path, service);
    assert FailureReason(service(path, 2)) == "Rate limit exceeded";
    JoinRateLimitMessage("Failed to transcribe audio after 3 attempts: ", "Rate limit exceeded",
                         "Failed to transcribe audio after 3 attempts: Rate limit exceeded");
  }

  lemma JoinRateLimitMessage(prefix: string, reason: string, message: string)
    requires prefix == "Failed to transcribe audio after 3 attempts: "
    requires reason == "Rate limit exceeded"
    requires message == "Failed to transcribe audio after 3 attempts: Rate limit exceeded"
    ensures prefix + reason == message
  {
  }

  /** A None text is retried after the fixed delay, like any other error. */
  lemma NoneTextIsRetried(path: string, service: (string, nat) -> Attempt, text: string)
    requires service(path, 0) == Transcribed(None)
    requires service(path, 1) == Transcribed(Some(text))
    ensures TranscriptionResult(path, service) == Ok(text)
    ensures Waits(path, service, FailedAttempts(path, service)) == [RetryDelay]
  {
  }

  function Sum(s: seq<nat>): nat {
    if s == [] then 0 else Sum(s[..|s| - 1]) + s[|s| - 1]
  }

  /** Each sleep is one of 2, 4, 8, 16 seconds, and the sleeps before the
      `n`-th attempt add up to at most 2^(n+2) - 4 seconds. */
  lemma {:induction false} WaitsBounded(path: string, service: (string, nat) -> Attempt, n: nat)
    requires n <= MaxRetries
    ensures forall d :: d in Waits(path, service, n) ==> d in {2, 4, 8, 16}
    ensures Sum(Waits(path, service, n)) + 4 <= Pow2(n + 2)
  {
    if n > 0 {
      WaitsBounded(path, service, n - 1);
      var w := Waits(path, service, n);
      assert w == Waits(path, service, n - 1) + [w[n - 1]];
      assert w[n - 1] <= [4, 8, 16][n - 1] && w[n - 1] in {2, 4, 8, 16};
      assert Pow2(n + 2) == 2 * Pow2(n + 1) by {
        assert Pow2(1) == 2 && Pow2(2) == 4 && Pow2(3) == 8 && Pow2(4) == 16;
      }
    }
  }

  /** The transcriber never sleeps more than 28 seconds in total. */
  lemma TotalSleepAtMost28(path: string, service: (string, nat) -> Attempt)
    ensures Sum(Waits(path, service, FailedAttempts(path, service))) <= 28
  {
    var n := FailedAttempts(path, service);
    WaitsBounded(path, service, n);
    assert Pow2(5) == 32 by {
      assert Pow2(1) == 2 && Pow2(2) == 4 && Pow2(3) == 8 && Pow2(4) == 16;
    }
    if n < 3 {
      assert Pow2(n + 2) <= 16 by {
        assert Pow2(2) == 4 && Pow2(3) == 8 && Pow2(4) == 16;
      }
    }
  }
}
