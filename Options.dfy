/**
 * `HttpInterceptorOptions`: the configuration record of the interceptor,
 * its documented defaults, the meaning of its two optional predicates, and
 * the retry delay its documentation describes for exponential backoff.
 */
module InterceptorOptions {
  import opened Base
  import opened Http
  import Interceptor

  /** `OnRetry(attempt, exception, delay)`: a callback run before a retry. */
  type RetryCallback = (int, Option<string>, int) -> ()

  /**
   * The options. `retryDelay` is a `TimeSpan` in ticks; the predicates and
   * the callback are absent (`null`) or a given function.
   */
  datatype HttpInterceptorOptions = HttpInterceptorOptions(
    maxRetryAttempts: int,
    retryDelay: int,
    useExponentialBackoff: bool,
    retryOnStatusCodes: set<int>,
    retryOnTimeout: bool,
    interceptPredicate: Option<Request -> bool>,
    showLoaderPredicate: Option<Request -> bool>,
    onRetry: Option<RetryCallback>,
    enableDetailedLogging: bool)

  /** The options as the property initialisers leave them. */
  function Default(): HttpInterceptorOptions {
    HttpInterceptorOptions(
      maxRetryAttempts := 3,
      retryDelay := 1 * TicksPerSecond,
      useExponentialBackoff := true,
      retryOnStatusCodes := {500, 502, 503, 504, 408},
      retryOnTimeout := true,
      interceptPredicate := None,
      showLoaderPredicate := None,
      onRetry := None,
      enableDetailedLogging := false)
  }

  /** Whether a request is intercepted: every one when `InterceptPredicate` is absent. */
  function ShouldIntercept(o: HttpInterceptorOptions, request: Request): (b: bool)
    ensures o.interceptPredicate.None? ==> b
    ensures o.interceptPredicate.Some? ==> b == o.interceptPredicate.value(request)
  {
    match o.interceptPredicate
    case None => true
    case Some(p) => p(request)
  }

  /** Whether an intercepted request shows the loader: every one when `ShowLoaderPredicate` is absent. */
  function ShowLoader(o: HttpInterceptorOptions, request: Request): (b: bool)
    ensures o.showLoaderPredicate.None? ==> b
    ensures o.showLoaderPredicate.Some? ==> b == o.showLoaderPredicate.value(request)
  {
    match o.showLoaderPredicate
    case None => true
    case Some(p) => p(request)
  }

  /** Whether a response status triggers a retry. */
  predicate RetriesOnStatus(o: HttpInterceptorOptions, status: int) {
    status in o.retryOnStatusCodes
  }

  /** 2 to the power `k`. */
  function Pow2(k: nat): (r: nat)
    ensures r >= 1
  {
    if k == 0 then 1 else 2 * Pow2(k - 1)
  }

  /**
   * The delay before retry number `k` (counted from 0) as the documentation
   * of `UseExponentialBackoff` describes it: the base delay doubled `k`
   * times with backoff, the base delay every time without.
   */
  function BackoffDelay(o: HttpInterceptorOptions, k: nat): int {
    if o.useExponentialBackoff then o.retryDelay * Pow2(k) else o.retryDelay
  }

  /** The documented default values of every option. */
  lemma DefaultValues()
    ensures Default().maxRetryAttempts == 3
    ensures Default().retryDelay == TicksPerSecond
    ensures Default().useExponentialBackoff && Default().retryOnTimeout && !Default().enableDetailedLogging
    ensures Default().interceptPredicate.None? && Default().showLoaderPredicate.None? && Default().onRetry.None?
  {
  }

  /**
   * By default exactly 408, 500, 502, 503 and 504 trigger a retry: 429 Too
   * Many Requests does not, and 408 is the only client error that does.
   */
  lemma DefaultRetryStatuses(status: int)
    ensures RetriesOnStatus(Default(), status) <==> status == 408 || status in {500, 502, 503, 504}
    ensures !RetriesOnStatus(Default(), 429)
    ensures RetriesOnStatus(Default(), status) && status < 500 ==> status == 408
  {
  }

  /** With the defaults every request is intercepted and shows the loader. */
  lemma DefaultInterceptsAll(request: Request)
    ensures ShouldIntercept(Default(), request) && ShowLoader(Default(), request)
  {
  }

  /**
   * The defaults agree with the fixed-policy handler: the same number of
   * attempts, and every response that handler retries is retried by default.
   */
  lemma DefaultsCoverFixedPolicy(response: Response)
    ensures Default().maxRetryAttempts == Interceptor.MaxRetryAttempts
    ensures Interceptor.Retryable(Responded(response)) ==> RetriesOnStatus(Default(), response.status)
  {
  }

  /** With backoff on, each delay is twice the one before. */
  lemma BackoffDoubles(o: HttpInterceptorOptions, k: nat)
    requires o.useExponentialBackoff
    ensures BackoffDelay(o, k + 1) == 2 * BackoffDelay(o, k)
  {
  }

  /** With backoff off, every delay is the base delay. */
  lemma BackoffConstant(o: HttpInterceptorOptions, j: nat, k: nat)
    requires !o.useExponentialBackoff
    ensures BackoffDelay(o, j) == BackoffDelay(o, k) == o.retryDelay
  {
  }

  /** A non-negative base delay never shrinks from one retry to a later one. */
  lemma {:induction false} BackoffMonotone(o: HttpInterceptorOptions, j: nat, k: nat)
    requires o.retryDelay >= 0 && j <= k
    ensures BackoffDelay(o, j) <= BackoffDelay(o, k)
    decreases k - j
  {
    if j < k && o.useExponentialBackoff {
      BackoffMonotone(o, j, k - 1);
      BackoffDoubles(o, k - 1);
    }
  }

  /** No retry waits less than the base delay, when that is not negative. */
  lemma {:induction false} BackoffAtLeastBase(o: HttpInterceptorOptions, k: nat)
    requires o.retryDelay >= 0
    ensures o.retryDelay <= BackoffDelay(o, k)
  {
  }

  /** The documented sequence for the defaults: 1s, 2s, 4s, 8s. */
  lemma DefaultBackoffSequence()
    ensures BackoffDelay(Default(), 0) == 1 * TicksPerSecond
    ensures BackoffDelay(Default(), 1) == 2 * TicksPerSecond
    ensures BackoffDelay(Default(), 2) == 4 * TicksPerSecond
    ensures BackoffDelay(Default(), 3) == 8 * TicksPerSecond
  {
  }
}
