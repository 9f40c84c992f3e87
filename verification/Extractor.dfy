/** The retry loop of src/pipeline/extractor.py: one Gemini extraction. */
module Extractor {
  import opened Schemas

  /** What one Gemini call can come back with. */
  datatype Response =
    | Parsed(invoice: InvoiceResult)      // text that the schema accepts
    | Unparsable                          // text that the schema rejects
    | ClientError(statusCode: int)
    | ServerError
    | TimedOut
    | Unexpected                         // any other exception

  datatype Extraction =
    | Extracted(invoice: InvoiceResult)
    | RateLimited                        // RateLimitedLocallyError
    | Rejected(errorCode: string)        // PermanentPipelineError
    | Exhausted(attempts: nat)           // GeminiExhaustedError
    | Escaped                            // an exception no clause handles

  predicate Retryable(r: Response) {
    r.ServerError? || r.TimedOut?
  }

  /** The answer to attempt `k`; a call nobody answers times out. */
  function Reply(replies: seq<Response>, k: nat): Response {
    if k < |replies| then replies[k] else TimedOut
  }

  /** What a response that ends the loop means to the caller. */
  function Verdict(r: Response): Extraction
    requires !Retryable(r)
  {
    match r
    case Parsed(invoice) => Extracted(invoice)
    case Unparsable => Rejected("extractor_invalid_json")
    case ClientError(code) => if code == 429 then RateLimited else Rejected("gemini_client_error")
    case Unexpected => Escaped
  }

  /** The loop from attempt `k` on, with `retries` back-offs in all: its outcome, and how
      many calls it makes. */
  function Retry(replies: seq<Response>, retries: nat, k: nat): (Extraction, nat)
    requires k <= retries
    decreases retries - k
  {
    var r := Reply(replies, k);
    if !Retryable(r) then (Verdict(r), 1)
    else if k < retries then
      var (outcome, calls) := Retry(replies, retries, k + 1);
      (outcome, calls + 1)
    else (Exhausted(k + 1), 1)
  }

  const RETRIES: nat := |GEMINI_BACKOFFS_SECONDS|

  /** Between one and retries + 1 calls; the outcome is that of the first response that is
      not retryable, and exhaustion exactly when there is none among all the attempts. */
  lemma {:induction false} RetryStopsAtFirstDecisiveReply(replies: seq<Response>, retries: nat, k: nat)
    requires k <= retries
    ensures var (outcome, calls) := Retry(replies, retries, k);
      && 1 <= calls <= retries + 1 - k
      && (forall i :: k <= i < k + calls - 1 ==> Retryable(Reply(replies, i)))
      && (if Retryable(Reply(replies, k + calls - 1))
          then k + calls == retries + 1 && outcome == Exhausted(retries + 1)
          else outcome == Verdict(Reply(replies, k + calls - 1)))
    decreases retries - k
  {
    if Retryable(Reply(replies, k)) && k < retries {
      RetryStopsAtFirstDecisiveReply(replies, retries, k + 1);
    }
  }

  /** The loop as written, with the waits it makes. */
  method ExtractInvoice(replies: seq<Response>, backoffs: seq<real>)
    returns (outcome: Extraction, calls: nat, slept: seq<real>)
    ensures (outcome, calls) == Retry(replies, |backoffs|, 0)
    ensures 1 <= calls <= |backoffs| + 1
    ensures slept == backoffs[..calls - 1]
  {
    calls, slept := 0, [];
    RetryStopsAtFirstDecisiveReply(replies, |backoffs|, 0);
    for attempt := 0 to |backoffs| + 1
      invariant calls == attempt
      invariant attempt <= |backoffs|
      invariant slept == backoffs[..attempt]
      invariant var (o, c) := Retry(replies, |backoffs|, attempt); Retry(replies, |backoffs|, 0) == (o, attempt + c)
    {
      var response := Reply(replies, attempt);
      calls := calls + 1;
      match response {
        case Parsed(invoice) => return Extracted(invoice), calls, slept;
        case Unparsable => return Rejected("extractor_invalid_json"), calls, slept;
        case Unexpected => return Escaped, calls, slept;
        case ClientError(statusCode) =>
          if statusCode == 429 {
            return RateLimited, calls, slept;
          }
          return Rejected("gemini_client_error"), calls, slept;
        case ServerError =>
        case TimedOut =>
      }
      if attempt < |backoffs| {
        slept := slept + [backoffs[attempt]];
        continue;
      }
      return Exhausted(attempt + 1), calls, slept;
    }
    // The raise that follows the loop in the source is never reached.
    assert false;
  }
}
