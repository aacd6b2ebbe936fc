/**
 * The fixed-policy handler `HttpCallInterceptorHandler`: it shows the
 * loader for the whole call, and makes up to three attempts, the first
 * with the original request and each later one with a clone of it,
 * retrying only on an `HttpRequestException` or a 500 response.
 */
module Interceptor {
  import opened Base
  import opened Http
  import opened Collections
  import opened Loader

  /** `MaxRetryAttempts`: the number of attempts, the first included. */
  const MaxRetryAttempts: nat := 3

  /** The reason phrase of the final response when no exception was caught. */
  const MaxRetriesReason: string := "Max retry attempts reached"

  /** The request an attempt hands to the inner handler. */
  datatype SentRequest = Original | Clone(copy: Request)

  /** How a call ends: with a response, or with an exception that escapes. */
  datatype SendResult = Returned(response: Response) | Escaped(message: string)

  /** An outcome after which the handler tries again: an `HttpRequestException` or a 500. */
  predicate Retryable(o: Outcome) {
    o.RequestFailed? || (o.Responded? && o.response.status == InternalServerError)
  }

  /** How a call ends on a non-retryable outcome: the response is returned, the exception escapes. */
  function Final(o: Outcome): (r: SendResult)
    requires !Retryable(o)
    ensures o.Responded? ==> r == Returned(o.response) && r.response.status != InternalServerError
    ensures o.Faulted? ==> r == Escaped(o.message)
  {
    match o
    case Responded(response) => Returned(response)
    case Faulted(message) => Escaped(message)
  }

  /**
   * The message of the latest `HttpRequestException` among the first `n`
   * attempts (`lastException?.Message`), or none.
   */
  function LastErrorMessage(transport: nat -> Outcome, n: nat): (r: Option<string>)
    ensures r == None <==> forall i :: 0 <= i < n ==> !transport(i).RequestFailed?
    ensures r.Some? ==> exists i :: 0 <= i < n && transport(i) == RequestFailed(r.value) &&
                                    (forall j :: i < j < n ==> !transport(j).RequestFailed?)
  {
    if n == 0 then None
    else if transport(n - 1).RequestFailed? then Some(transport(n - 1).message)
    else LastErrorMessage(transport, n - 1)
  }

  /** The 500 response made up when every attempt failed; it carries the original request. */
  function GaveUp(request: Request, lastError: Option<string>): (r: Response)
    ensures r.status == InternalServerError && r.requestMessage == Some(request)
    ensures r.reasonPhrase == Some(if lastError.Some? then lastError.value else MaxRetriesReason)
  {
    Response(InternalServerError, Some(lastError.GetOr(MaxRetriesReason)), Some(request))
  }

  /**
   * What a call promises when the inner handler answers attempt `i` with
   * `transport(i)`: `attempts` attempts are made, at most three, every one
   * but the last retryable. A non-retryable last outcome ends the call as it
   * is; three retryable ones end it with the made-up 500 response.
   */
  ghost predicate RetryContract(request: Request, transport: nat -> Outcome, result: SendResult, attempts: nat) {
    && 1 <= attempts <= MaxRetryAttempts
    && (forall i :: 0 <= i < attempts - 1 ==> Retryable(transport(i)))
    && if Retryable(transport(attempts - 1)) then
         attempts == MaxRetryAttempts && result == Returned(GaveUp(request, LastErrorMessage(transport, attempts)))
       else
         result == Final(transport(attempts - 1))
  }

  /** The contract fixes both the result and the number of attempts. */
  lemma RetryContractDeterministic(request: Request, transport: nat -> Outcome,
                                   r1: SendResult, n1: nat, r2: SendResult, n2: nat)
    requires RetryContract(request, transport, r1, n1) && RetryContract(request, transport, r2, n2)
    ensures n1 == n2 && r1 == r2
  {
  }

  /** A first response other than 500 is returned as it is, after one attempt. */
  lemma FirstResponseReturned(request: Request, transport: nat -> Outcome, result: SendResult, attempts: nat)
    requires RetryContract(request, transport, result, attempts)
    requires transport(0).Responded? && transport(0).response.status != InternalServerError
    ensures attempts == 1 && result == Returned(transport(0).response)
  {
  }

  /**
   * An exception message survives later 500 responses: an `HttpRequestException`
   * "boom" followed by two 500s ends with a 500 whose reason is "boom".
   */
  lemma ErrorThenServerErrors(request: Request, result: SendResult, attempts: nat)
    requires RetryContract(request, ErrorThenTwo500s, result, attempts)
    ensures attempts == 3 && result.Returned?
    ensures result.response.status == 500 && result.response.reasonPhrase == Some("boom")
  {
  }

  /** Attempt 0 fails with an `HttpRequestException` "boom", every later attempt answers 500. */
  function ErrorThenTwo500s(i: nat): Outcome {
    if i == 0 then RequestFailed("boom") else Responded(Response(500, None, None))
  }

  /** Three 500 responses in a row end with the fixed reason phrase. */
  lemma ThreeServerErrors(request: Request, transport: nat -> Outcome, result: SendResult, attempts: nat)
    requires RetryContract(request, transport, result, attempts)
    requires forall i :: 0 <= i < 3 ==> transport(i).Responded? && transport(i).response.status == 500
    ensures attempts == 3
    ensures result == Returned(Response(500, Some(MaxRetriesReason), Some(request)))
  {
  }

  /** Entering and leaving the loader leaves the count as it was, with two notifications. */
  lemma BracketRestoresCount(s: LoaderState)
    requires 0 <= s.count < Int32Max
    ensures Step(Step(s, Increment), Decrement).count == s.count
    ensures Step(Step(s, Increment), Decrement).notified == s.notified + [true, s.count > 0]
  {
  }

  class HttpCallInterceptorHandler {
    /** The loader service shown for the duration of every call. */
    const loaderService: LoaderService

    constructor (loaderService: LoaderService)
      ensures this.loaderService == loaderService
    {
      this.loaderService := loaderService;
    }

    /**
     * `SendAsync`: the loader is incremented on entry and decremented on
     * every exit, the retry loop runs in between.
     */
    method SendAsync(request: Request, transport: nat -> Outcome) returns (result: SendResult, sent: seq<SentRequest>)
      modifies loaderService
      ensures RetryContract(request, transport, result, |sent|)
      ensures loaderService.State() == Step(Step(old(loaderService.State()), Increment), Decrement)
    {
      loaderService.Increment();
      result, sent := ExecuteWithRetry(request, transport);
      loaderService.Decrement();
    }

    /**
     * `ExecuteWithRetryAsync`: `transport(i)` is what the inner handler
     * does with attempt `i`; `sent` lists the requests handed to it.
     */
    method ExecuteWithRetry(request: Request, transport: nat -> Outcome) returns (result: SendResult, sent: seq<SentRequest>)
      ensures RetryContract(request, transport, result, |sent|)
      ensures sent[0] == Original
      ensures forall i :: 0 < i < |sent| ==> sent[i] == Clone(request)
    {
      var lastError: Option<string> := None;
      sent := [];
      for attempt := 0 to MaxRetryAttempts
        invariant |sent| == attempt
        invariant attempt > 0 ==> sent[0] == Original
        invariant forall i :: 0 < i < attempt ==> sent[i] == Clone(request)
        invariant forall i :: 0 <= i < attempt ==> Retryable(transport(i))
        invariant lastError == LastErrorMessage(transport, attempt)
      {
        var requestToSend: SentRequest;
        if attempt == 0 {
          requestToSend := Original;
        } else {
          var clone := CloneRequest(request);
          requestToSend := Clone(clone);
        }
        sent := sent + [requestToSend];
        var outcome := transport(attempt);
        match outcome
        case Responded(response) =>
          if response.status != InternalServerError {
            return Returned(response), sent;
          }
        case RequestFailed(message) =>
          lastError := Some(message);
          if attempt == MaxRetryAttempts - 1 {
            break;
          }
        case Faulted(message) =>
          return Escaped(message), sent;
      }
      result := Returned(Response(InternalServerError, Some(lastError.GetOr(MaxRetriesReason)), Some(request)));
    }

    /**
     * `CloneHttpRequestMessageAsync`: a new request with the same method,
     * URI and version, the content's bytes and headers when there is
     * content, and every header and option of the original.
     */
    method CloneRequest(request: Request) returns (clone: Request)
      ensures clone == request
    {
      clone := Request(request.verb, request.uri, request.version, None, map[], map[]);
      if request.content.Some? {
        var contentBytes := request.content.value.body;
        var contentHeaders := CopyHeaders(request.content.value.headers, map[]);
        MergeIntoEmpty(contentHeaders, request.content.value.headers);
        clone := clone.(content := Some(Content(contentBytes, contentHeaders)));
      }
      var headers := CopyHeaders(request.headers, clone.headers);
      MergeIntoEmpty(headers, request.headers);
      var options := CopyOptions(request.options, clone.options);
      TryAddAllIntoEmpty(options, request.options);
      clone := clone.(headers := headers, options := options);
    }
  }
}
