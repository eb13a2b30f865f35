// Typed error codes across the job queue (src/jobs/queue.ts, src/http/errors.ts): the worker
// prints `CODE: message` into the one string a failed job keeps; the status lookup parses it.
module JobErrors {
  import opened Collections

  const REQUEST_CODES := {
    "UNAUTHORIZED", "FORBIDDEN", "NOT_FOUND", "UNSUPPORTED_MEDIA_TYPE", "FILE_TOO_LARGE", "PAGE_LIMIT_EXCEEDED",
    "INVALID_ARGS"
  }

  const SERVICE_CODES := {
    "NO_TEXT_DETECTED", "EXTRACTION_FAILED", "PROVIDER_UNAVAILABLE", "INTERPRETATION_FAILED",
    "SCHEMA_VALIDATION_FAILED", "RATE_LIMITED"
  }

  const CODES := REQUEST_CODES + SERVICE_CODES

  const EXTRACTION_FAILED := "EXTRACTION_FAILED"

  datatype JobError = JobError(code: string, message: string)

  function Encode(code: string, message: string): string {
    code + ": " + message
  }

  predicate InClass(c: char) {
    'A' <= c <= 'Z' || c == '_'
  }

  predicate Word(s: string) {
    s != "" && forall i :: 0 <= i < |s| ==> InClass(s[i])
  }

  // Length of the longest prefix of capitals and underscores.
  function Run(s: string): (n: nat)
    ensures n <= |s|
    ensures forall i :: 0 <= i < n ==> InClass(s[i])
    ensures n < |s| ==> !InClass(s[n])
  {
    if s == "" || !InClass(s[0]) then 0
    else
      assert forall i :: 0 <= i < |s| - 1 ==> s[1..][i] == s[i + 1];
      1 + Run(s[1..])
  }

  // /^([A-Z_]+): ([\s\S]*)$/
  function Match(raw: string): Option<(string, string)> {
    var n := Run(raw);
    if n >= 1 && n + 2 <= |raw| && raw[n] == ':' && raw[n + 1] == ' ' then Some((raw[..n], raw[n + 2..])) else None
  }

  function Decode(failedReason: Option<string>): JobError {
    var raw := if failedReason.Some? then failedReason.value else "job failed";
    var match_ := Match(raw);
    if match_.Some? && match_.value.0 in CODES then JobError(match_.value.0, match_.value.1)
    else JobError(EXTRACTION_FAILED, raw)
  }

  // The expression matches exactly the strings of the form `WORD: rest`, with one reading each.
  lemma MatchIff(raw: string, word: string, rest: string)
    ensures Match(raw) == Some((word, rest)) <==> Word(word) && raw == Encode(word, rest)
  {
    var n := Run(raw);
    if Word(word) && raw == Encode(word, rest) {
      assert forall i :: 0 <= i < |word| ==> raw[i] == word[i];
      assert raw[|word|] == ':' && !InClass(':');
      assert n == |word|;
      assert raw[..n] == word && raw[n + 2..] == rest;
    }
    if Match(raw) == Some((word, rest)) {
      assert raw == raw[..n] + [raw[n], raw[n + 1]] + raw[n + 2..];
    }
  }

  lemma RequestCodesAreWords(code: string)
    requires code in REQUEST_CODES
    ensures Word(code)
  {
  }

  lemma ServiceCodesAreWords(code: string)
    requires code in SERVICE_CODES
    ensures Word(code)
  {
  }

  lemma CodesAreWords(code: string)
    requires code in CODES
    ensures Word(code)
  {
    if code in REQUEST_CODES { RequestCodesAreWords(code); } else { ServiceCodesAreWords(code); }
  }

  // The typed code and the message survive the queue, whatever the message holds.
  lemma RoundTrip(code: string, message: string)
    requires code in {
      "UNAUTHORIZED", "FORBIDDEN", "NOT_FOUND", "UNSUPPORTED_MEDIA_TYPE", "FILE_TOO_LARGE", "PAGE_LIMIT_EXCEEDED",
      "INVALID_ARGS", "NO_TEXT_DETECTED", "EXTRACTION_FAILED", "PROVIDER_UNAVAILABLE", "INTERPRETATION_FAILED",
      "SCHEMA_VALIDATION_FAILED", "RATE_LIMITED"
    }
    ensures Decode(Some(Encode(code, message))) == JobError(code, message)
  {
    CodesAreWords(code);
    MatchIff(Encode(code, message), code, message);
  }

  // Any failure reason decodes to a pair that prints back to it, or it is kept whole under
  // EXTRACTION_FAILED and nothing the worker could have printed gives it. A missing reason reads as
  // a failed job.
  lemma DecodeFaithful(failedReason: Option<string>)
    ensures var e, raw := Decode(failedReason), if failedReason.Some? then failedReason.value else "job failed";
      && e.code in CODES
      && (Encode(e.code, e.message) == raw
          || (&& e == JobError("EXTRACTION_FAILED", raw)
              && forall code, message :: code in CODES ==> Encode(code, message) != raw))
    ensures failedReason.None? ==> Decode(failedReason) == JobError("EXTRACTION_FAILED", "job failed")
  {
    var e, raw := Decode(failedReason), if failedReason.Some? then failedReason.value else "job failed";
    if Match(raw).Some? && Match(raw).value.0 in CODES {
      MatchIff(raw, e.code, e.message);
    } else {
      forall code, message | code in CODES ensures Encode(code, message) != raw {
        CodesAreWords(code);
        MatchIff(raw, code, message);
      }
    }
    assert !InClass("job failed"[0]) && Run("job failed") == 0;
  }
}
