// Bounded retries of the layout client (src/providers/glm/client.ts).
module GlmClient {
  import opened Collections

  const BACKOFF_BASE_MS := 500
  const BACKOFF_MAX_MS := 8000.0

  // The `Retry-After` header, as `Number` reads it; an empty header is Absent.
  datatype RetryAfter = Absent | NotANumber | Seconds(s: real)

  datatype Fetch =
    | NetworkFailure(message: string, callerAborted: bool)
    | Response(status: int, retryAfter: RetryAfter, jsonOk: bool)

  // What the network, the random source and the caller's signal do at each attempt.
  datatype Surroundings = Surroundings(fetch: nat -> Fetch, random: nat -> real, abortsDelay: nat -> bool)

  datatype Failure =
    | CallerAborted
    | Unreachable(message: string)
    | HttpError(status: int)
    | BadJson
    | NeverTried

  predicate IsOk(f: Fetch) {
    f.Response? && 200 <= f.status <= 299
  }

  // A network failure or a listed status; a caller's abort is terminal.
  predicate IsRetryable(f: Fetch) {
    match f
    case NetworkFailure(_, callerAborted) => !callerAborted
    case Response(status, _, _) => status in {429, 500, 502, 503, 504}
  }

  function Pow2(n: nat): (p: nat)
    ensures p >= 1
  {
    if n == 0 then 1 else 2 * Pow2(n - 1)
  }

  function Least(a: real, b: real): real { if a < b then a else b }

  function Ceiling(attempt: nat): real {
    Least((BACKOFF_BASE_MS * Pow2(attempt)) as real, BACKOFF_MAX_MS)
  }

  function Header(f: Fetch): RetryAfter {
    if f.Response? then f.retryAfter else Absent
  }

  function Jittered(half: real, random: real): real {
    half + random * half
  }

  function BackoffMs(attempt: nat, retryAfter: RetryAfter, random: real): real {
    if retryAfter.Seconds? && retryAfter.s >= 0.0 then Least(retryAfter.s * 1000.0, BACKOFF_MAX_MS)
    else Jittered(Ceiling(attempt) / 2.0, random)
  }

  lemma JitterBounds(half: real, random: real)
    requires 0.0 <= random < 1.0 && half >= 0.0
    ensures half <= Jittered(half, random) <= 2.0 * half
  {
    assert 0.0 <= random * half <= half;
  }

  // Jitter keeps a wait between half and all of its ceiling; a usable header replaces it, capped alike.
  lemma BackoffBounds(attempt: nat, retryAfter: RetryAfter, random: real)
    requires 0.0 <= random < 1.0
    ensures var wait := BackoffMs(attempt, retryAfter, random);
      && 0.0 <= wait <= 8000.0
      && (!(retryAfter.Seconds? && retryAfter.s >= 0.0) ==>
            Ceiling(attempt) / 2.0 <= wait <= Ceiling(attempt) && wait == Ceiling(attempt) * (1.0 + random) / 2.0)
      && (retryAfter.Seconds? && 0.0 <= retryAfter.s <= 8.0 ==> wait == retryAfter.s * 1000.0)
      && (retryAfter.Seconds? && retryAfter.s > 8.0 ==> wait == 8000.0)
  {
    assert 0.0 <= Ceiling(attempt) <= BACKOFF_MAX_MS;
    JitterBounds(Ceiling(attempt) / 2.0, random);
  }

  lemma {:induction false} CeilingDoubles(attempt: nat)
    ensures Ceiling(0) == 500.0
    ensures Ceiling(attempt + 1) == if Ceiling(attempt) <= 4000.0 then 2.0 * Ceiling(attempt) else 8000.0
    ensures attempt >= 4 ==> Ceiling(attempt) == 8000.0
  {
    if attempt > 4 {
      CeilingDoubles(attempt - 1);
    } else if attempt == 4 {
      assert Pow2(4) == 2 * (2 * (2 * (2 * Pow2(0))));
    }
  }

  // Attempt k is the last one: no retry is left, or its outcome allows none.
  predicate Stops(io: Surroundings, maxRetries: int, k: nat) {
    k >= maxRetries || !IsRetryable(io.fetch(k)) || io.abortsDelay(k)
  }

  // The outcome when attempt k is the last.
  function Verdict(io: Surroundings, maxRetries: int, k: nat): Result<nat, Failure> {
    var f := io.fetch(k);
    if IsOk(f) then (if f.jsonOk then Ok(k) else Err(BadJson))
    else if IsRetryable(f) && k < maxRetries then Err(CallerAborted)
    else
      match f
      case NetworkFailure(message, callerAborted) =>
        if callerAborted then Err(CallerAborted) else Err(Unreachable(message))
      case Response(status, _, _) => Err(HttpError(status))
  }

  function Sum(xs: seq<real>): real {
    if xs == [] then 0.0 else Sum(xs[..|xs| - 1]) + xs[|xs| - 1]
  }

  // Worth another attempt: the network failed, or the service is overloaded or faulty for now.
  ghost predicate Transient(f: Fetch) {
    if f.NetworkFailure? then !f.callerAborted
    else f.status == 429 || f.status == 500 || 502 <= f.status <= 504
  }

  // The response names a delay, in seconds, between these two.
  ghost predicate AsksFor(f: Fetch, least: real, most: real) {
    f.Response? && f.retryAfter.Seconds? && least <= f.retryAfter.s <= most
  }

  ghost predicate FirstSuccessAt(io: Surroundings, maxRetries: int, k: nat) {
    && k <= maxRetries
    && io.fetch(k).Response? && 200 <= io.fetch(k).status <= 299 && io.fetch(k).jsonOk
    && forall j: nat :: j < k ==> Transient(io.fetch(j)) && !io.abortsDelay(j)
  }

  // A result is returned exactly when some allowed attempt is ok and every earlier one was a
  // network failure or a listed status the caller did not interrupt.
  lemma SucceedsIff(io: Surroundings, maxRetries: nat, stop: nat)
    requires Stops(io, maxRetries, stop) && stop <= maxRetries
    requires forall j: nat :: j < stop ==> !Stops(io, maxRetries, j)
    ensures Verdict(io, maxRetries, stop).Ok? <==> exists k: nat :: FirstSuccessAt(io, maxRetries, k)
    ensures Verdict(io, maxRetries, stop).Ok? ==> FirstSuccessAt(io, maxRetries, Verdict(io, maxRetries, stop).value)
  {
    if k: nat :| FirstSuccessAt(io, maxRetries, k) {
      assert Stops(io, maxRetries, k);
      assert stop == k;
    }
    if Verdict(io, maxRetries, stop).Ok? {
      forall j: nat | j < stop ensures Transient(io.fetch(j)) && !io.abortsDelay(j) {
        assert !Stops(io, maxRetries, j);
      }
      assert FirstSuccessAt(io, maxRetries, stop);
    }
  }

  lemma {:induction false} TotalWait(io: Surroundings, waits: seq<real>)
    requires forall i :: 0 <= i < |waits| ==> waits[i] == BackoffMs(i, Header(io.fetch(i)), io.random(i))
    requires forall i: nat :: 0.0 <= io.random(i) < 1.0
    ensures 0.0 <= Sum(waits) <= BACKOFF_MAX_MS * |waits| as real
  {
    if waits != [] {
      var n := |waits| - 1;
      TotalWait(io, waits[..n]);
      BackoffBounds(n, Header(io.fetch(n)), io.random(n));
    }
  }

  class GlmClient {
    const maxRetries: int

    constructor (maxRetries: int)
      ensures this.maxRetries == maxRetries
    {
      this.maxRetries := maxRetries;
    }

    // Ok carries the attempt whose response is returned; `waits` are the delays slept through.
    method LayoutParsing(io: Surroundings) returns (result: Result<nat, Failure>, calls: nat, waits: seq<real>)
      ensures maxRetries < 0 ==> calls == 0 && result == Err(NeverTried)
      ensures maxRetries >= 0 ==>
        && 1 <= calls <= maxRetries + 1
        && Stops(io, maxRetries, calls - 1)
        && (forall j: nat :: j < calls - 1 ==> !Stops(io, maxRetries, j))
        && result == Verdict(io, maxRetries, calls - 1)
      ensures result.Ok? <==> exists k: nat :: FirstSuccessAt(io, maxRetries, k)
      ensures result.Ok? ==> FirstSuccessAt(io, maxRetries, result.value)
      ensures |waits| == if calls == 0 then 0 else calls - 1
      ensures forall i :: 0 <= i < |waits| ==> waits[i] == BackoffMs(i, Header(io.fetch(i)), io.random(i))
      ensures forall i :: 0 <= i < |waits| && AsksFor(io.fetch(i), 0.0, 8.0) ==>
        waits[i] == io.fetch(i).retryAfter.s * 1000.0
      ensures maxRetries >= 0 && (forall i: nat :: 0.0 <= io.random(i) < 1.0) ==>
        0.0 <= Sum(waits) <= 8000.0 * maxRetries as real
    {
      calls, waits := 0, [];
      result := Err(NeverTried);
      var attempt := 0;
      while attempt <= maxRetries
        invariant attempt == calls == |waits|
        invariant maxRetries >= 0 ==> attempt <= maxRetries
        invariant attempt > 0 ==> maxRetries >= 0
        invariant attempt == 0 ==> result == Err(NeverTried)
        invariant forall j: nat :: j < attempt ==> !Stops(io, maxRetries, j)
        invariant forall i :: 0 <= i < |waits| ==> waits[i] == BackoffMs(i, Header(io.fetch(i)), io.random(i))
        decreases maxRetries - attempt
      {
        var f := io.fetch(attempt);
        calls := calls + 1;
        var wait := BackoffMs(attempt, Header(f), io.random(attempt));
        match f {
        case NetworkFailure(message, callerAborted) =>
          if callerAborted {
            result := Err(CallerAborted);
            break;
          }
          result := Err(Unreachable(message));
          if attempt >= maxRetries {
            break;
          }
          if io.abortsDelay(attempt) {
            result := Err(CallerAborted);
            break;
          }
          waits := waits + [wait];
        case Response(status, _, jsonOk) =>
          if 200 <= status <= 299 {
            result := if jsonOk then Ok(attempt) else Err(BadJson);
            break;
          }
          if status in {429, 500, 502, 503, 504} && attempt < maxRetries {
            if io.abortsDelay(attempt) {
              result := Err(CallerAborted);
              break;
            }
            waits := waits + [wait];
          } else {
            result := Err(HttpError(status));
            break;
          }
        }
        attempt := attempt + 1;
      }
      if maxRetries >= 0 {
        SucceedsIff(io, maxRetries, calls - 1);
        if forall i: nat :: 0.0 <= io.random(i) < 1.0 {
          TotalWait(io, waits);
        }
      }
    }
  }
}
