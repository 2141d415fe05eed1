/** Which upload failures are retried, and when (pos-electron/src/sync-policy.ts). */
module SyncPolicy {
  import opened Decimals
  import opened Outcome

  /** The errors an upload can end with. */
  datatype SyncError =
    | Compatibility(code: string)
    | Integrity
    | NotApiError
    | ApiError(code: string, status: Option<nat>, retryAfterMs: Option<int>)

  datatype FailureClass = Network | RateLimit | Server | Authentication | TerminalFailure | CompatibilityFailure | Validation | IntegrityFailure | Unknown

  const TERMINAL_CODES := {"TERMINAL_REVOKED", "TERMINAL_NOT_ENROLLED", "TERMINAL_CREDENTIAL_INVALID"}
  const AUTH_CODES := {"TOKEN_EXPIRED", "AUTH_EXPIRED", "UNAUTHORIZED"}
  const RETRY_DELAYS_MS: seq<nat> := [15000, 30000, 60000, 120000, 300000, 600000, 900000]
  const MAX_DELAY_MS := 900000

  function Classify(error: SyncError): FailureClass {
    match error
    case Compatibility(_) => CompatibilityFailure
    case Integrity => IntegrityFailure
    case NotApiError => Unknown
    case ApiError(code, status, _) =>
      if code == "NETWORK_ERROR" || status == Some(408) then Network
      else if status == Some(429) then RateLimit
      else if status.Some? && status.value >= 500 then Server
      else if code in TERMINAL_CODES then TerminalFailure
      else if code in AUTH_CODES || status == Some(401) then Authentication
      else if status.Some? && status.value in {403, 409, 422, 426} then Validation
      else Unknown
  }

  predicate Retryable(error: SyncError) {
    var class' := Classify(error);
    class' == Network || class' == RateLimit || class' == Server
  }

  function RetryDelayMs(attempt: int, retryAfterMs: Option<int>): nat {
    if retryAfterMs.Some? && retryAfterMs.value > 0
    then if retryAfterMs.value < 1000 then 1000 else if retryAfterMs.value > MAX_DELAY_MS then MAX_DELAY_MS else retryAfterMs.value
    else RETRY_DELAYS_MS[if attempt < 1 then 0 else if attempt > |RETRY_DELAYS_MS| then |RETRY_DELAYS_MS| - 1 else attempt - 1]
  }

  /** One round of FNV-1a: xor in a character code, then multiply by the FNV prime modulo 2^32. */
  function FnvRound(hash: bv32, c: char): bv32 {
    (hash ^ (c as bv32)) * 16777619
  }

  /** The FNV-1a hash of the text, in 32-bit arithmetic. */
  function Fnv(text: string): bv32 {
    if text == "" then 2166136261 else FnvRound(Fnv(text[..|text| - 1]), text[|text| - 1])
  }

  function WindowMs(delayMs: nat): (w: nat)
    ensures w >= 1
  {
    if delayMs / 5 > 1 then delayMs / 5 else 1
  }

  function JitterMs(id: string, attempt: nat, delayMs: nat): nat {
    if id == "" then 0 else (Fnv(id + ":" + Print(attempt)) as int) % WindowMs(delayMs)
  }

  method StableRetryJitterMs(id: string, attempt: nat, delayMs: nat) returns (jitter: nat)
    ensures jitter == JitterMs(id, attempt, delayMs)
  {
    if id == "" {
      return 0;
    }
    var hash: bv32 := 2166136261;
    var value := id + ":" + Print(attempt);
    for index := 0 to |value|
      invariant hash == Fnv(value[..index])
    {
      assert value[..index + 1][..index] == value[..index];
      hash := FnvRound(hash, value[index]);
    }
    assert value[..|value|] == value;
    return (hash as int) % WindowMs(delayMs);
  }

  /** When a row may be tried again; rows never tried, or without a readable time, are due now. */
  function DueAt(id: string, attempts: nat, lastAttemptAt: Option<int>, nowMs: int): int {
    if lastAttemptAt.None? || attempts == 0 then nowMs
    else
      var delay := RetryDelayMs(attempts, None);
      lastAttemptAt.value + delay + JitterMs(id, attempts, delay)
  }

  /** Back-off is bounded: a row is due between 15 seconds and 18 minutes after its last attempt. */
  lemma DueWithinEighteenMinutes(id: string, attempts: nat, lastAttemptAt: int, nowMs: int)
    requires attempts > 0
    ensures lastAttemptAt + 15000 <= DueAt(id, attempts, Some(lastAttemptAt), nowMs) < lastAttemptAt + 18 * 60000
    ensures lastAttemptAt + 18 * 60000 <= nowMs ==> DueAt(id, attempts, Some(lastAttemptAt), nowMs) <= nowMs
  {
    var delay := RetryDelayMs(attempts, None);
    assert 15000 <= delay <= MAX_DELAY_MS;
    assert JitterMs(id, attempts, delay) < WindowMs(delay);
  }

  /** More failures never shorten the wait before jitter. */
  lemma DelayGrowsWithAttempts(few: nat, many: nat)
    requires few <= many
    ensures RetryDelayMs(few, None) <= RetryDelayMs(many, None) <= MAX_DELAY_MS
  {
  }
}
