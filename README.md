# Blazor.FlexLoader core, modelled in Dafny

Blazor.FlexLoader shows a loading indicator while HTTP calls are pending.
It wraps those calls in a handler that retries failures. This project
models four parts of it and proves properties about them:

- **`LoaderMetrics`** (`Metrics.dfy`) aggregates usage metrics:
  - success, failure and retry counters;
  - a histogram of status codes;
  - a first-in first-out window of at most 100 response times, with their average, maximum and minimum;
  - a `Reset` back to the initial state, where the minimum holds the `TimeSpan.MaxValue` sentinel.

  It is a class whose methods update its fields in place. Each method is proved against a transition function on a snapshot value: `Recorded` (built from `Counted` and `Sampled`) and `Retried`. A ghost `history` holds every response time recorded since the last reset. The class invariant `Inv` ties the window to the last 100 entries of that history.
- **`LoaderService`** (`Loader.dfy`) is the busy indicator's reference counter. It has `Increment`, `Decrement`, `Reset`, `Show`, `Close` and `IsLoading`, and raises `OnChange`.
  - Each method is proved against `Step` on a `LoaderState` value. The count is a 32-bit `int` that wraps, as `Interlocked.Increment` does.
  - Every `OnChange` raised is recorded as the `IsLoading` value its subscribers observe.
- **`HttpCallInterceptorHandler`** (`Interceptor.dfy`, `Collections.dfy`, `Http.dfy`) is the fixed-policy handler:
  - `SendAsync` brackets the call with `Increment` and `Decrement`.
  - `ExecuteWithRetryAsync` makes at most three attempts. It retries on an `HttpRequestException` or a 500 Internal Server Error (section 15.6.1 of RFC 9110).
  - `CloneHttpRequestMessageAsync` copies the content, the headers and the options with `foreach` loops.

  The inner handler is a parameter `transport: nat -> Outcome` that gives the outcome of attempt `i`. The retry loop is proved against `RetryContract`. The clone is proved equal to the original.
- **`HttpInterceptorOptions`** (`Options.dfy`) is the configuration record. The model covers its defaults, the meaning of its absent predicates, and the backoff rule its documentation gives.

Three facts about the code that the model states as the code has them:

- `RecordRetry` does not touch `TotalRequests`, so `RetriedRequests` can exceed `TotalRequests`.
  - `Metrics.RetryCountingExample` shows it: `RecordRetry(true)` and then twice `RecordRetry(false)` on fresh metrics give 1 retried request and 0 requests in total.
  - The invariant `Metrics.Inv` therefore only has `retriedRequests <= totalRetryAttempts`.
- `Decrement` raises `OnChange` only when the count was positive; at 0 it is a silent no-op, and so is `Loader.Step`.
- The handler's doc comment says a request is "retried up to 3 times". The loop makes 3 attempts in total, so a request is retried at most twice. `Interceptor.RetryContract` states the loop's behaviour.

## Model

| member | source | states |
|---|---|---|
| Base.WrappingIncrement | Services/LoaderService.cs:97 | `Interlocked.Increment` on an `int`: one more below `int.MaxValue`, `int.MinValue` after it |
| Metrics.Tally | Models/LoaderMetrics.cs:245-248 | `AddOrUpdate(code, 1, count + 1)`: the entry for the code goes up by one, or is inserted as 1; every other entry is unchanged; the key set gains only the code |
| Metrics.SumCountsRemove | Models/LoaderMetrics.cs:13 | the sum of the histogram counts splits at any code, whichever code the sum picked first |
| Metrics.SumCountsTally | Models/LoaderMetrics.cs:245-248 | tallying one status code raises the histogram total by exactly one |
| Metrics.SumCounts | Models/LoaderMetrics.cs:13 | the total of the histogram's counts, which the invariant ties to `TotalRequests` |
| Metrics.Recent | Models/LoaderMetrics.cs:250-258 | the window kept after dequeuing down to 100 samples has length min(n, 100) |
| Metrics.RecentIsSuffix | Models/LoaderMetrics.cs:250-258 | the window is the suffix of the samples of its own length: the latest samples, in order |
| Metrics.RecentAppend | Models/LoaderMetrics.cs:250-258 | trimming and then enqueuing gives the same window as trimming the whole history |
| Metrics.EvictOldest | Models/LoaderMetrics.cs:252-258 | enqueuing onto a full window evicts exactly the oldest sample; onto a shorter one it evicts nothing |
| Metrics.Sum | Models/LoaderMetrics.cs:264 | the sum of the window's samples, from which the average is taken |
| Metrics.Mean | Models/LoaderMetrics.cs:264 | `times.Average(t => t.TotalMilliseconds)`: the exact mean of a non-empty window; `MeanWithinBounds` places it between minimum and maximum |
| Metrics.SeqMax | Models/LoaderMetrics.cs:265 | `times.Max()`; its meaning is proved by `SeqMaxIsMax` |
| Metrics.SeqMin | Models/LoaderMetrics.cs:266 | `times.Min()`; its meaning is proved by `SeqMinIsMin` |
| Metrics.SeqMaxIsMax | Models/LoaderMetrics.cs:265 | `times.Max()` is an element of the window and bounds it from above |
| Metrics.SeqMinIsMin | Models/LoaderMetrics.cs:266 | `times.Min()` is an element of the window and bounds it from below |
| Metrics.MeanWithinBounds | Models/LoaderMetrics.cs:264 | the average of a non-empty window lies between its minimum and its maximum |
| Metrics.StatsOf | Models/LoaderMetrics.cs:261-267 | the statistics of a window: 0, 0 and the `TimeSpan.MaxValue` sentinel while it is empty, otherwise its mean, maximum and minimum |
| Metrics.Percentage | Models/LoaderMetrics.cs:104-126 | a rate is 0 when the total is 0, never negative, and at most 100 when the part does not exceed the total |
| Metrics.PercentagesComplement | Models/LoaderMetrics.cs:104-116 | the percentages of the two parts of a non-zero total add up to 100 |
| Metrics.RetriesPerRetriedRequest | Models/LoaderMetrics.cs:134-136 | 0 with no retried request, at least 1 when attempts are at least the retried requests |
| Metrics.IsInitial | Models/LoaderMetrics.cs:13-96 | the state of a new object and after `Reset`: every counter 0, average and maximum 0, minimum at the sentinel, empty histogram and window, no last request |
| Metrics.Inv | Models/LoaderMetrics.cs:146-197 | the invariant the record and retry methods keep: total = successes + failures, retried requests <= retry attempts, histogram sum = total, window = last 100 samples of the history, statistics of the window, a last request time exactly when a request exists |
| Metrics.Counted | Models/LoaderMetrics.cs:146-154 | the counters, the histogram and the clock reading after one completed request (`RecordedCounters` states the effect) |
| Metrics.Sampled | Models/LoaderMetrics.cs:250-267 | the window and its statistics after one more response time (`RecordedSample` states the effect) |
| Metrics.Recorded | Models/LoaderMetrics.cs:146-178 | the transition of `RecordSuccess` and `RecordFailure`: `Counted` followed by `Sampled` |
| Metrics.RecordedCounters | Models/LoaderMetrics.cs:146-178 | a recorded request adds exactly 1 to the total and to the successes (or the failures), leaves the other counter and both retry counters unchanged, tallies its status code and stamps the clock reading |
| Metrics.RecordedSample | Models/LoaderMetrics.cs:250-267 | the recorded response time is in the window, the window holds at most 100 samples, and the new minimum and maximum bracket the sample |
| Metrics.Retried | Models/LoaderMetrics.cs:187-197 | a retry adds 1 to the attempts and 1 to the retried requests exactly when it is the first retry; nothing else changes |
| Metrics.InitialInv | Models/LoaderMetrics.cs:13-96 | the initial state (all zero, min at the sentinel, empty histogram and window, no last request) satisfies the invariant |
| Metrics.RecordedInv | Models/LoaderMetrics.cs:146-178 | recording a request keeps the invariant: total = successes + failures, histogram sum = total, window = last 100 of the history, statistics of the window, last request time set exactly when a request exists |
| Metrics.RetriedInv | Models/LoaderMetrics.cs:187-197 | a retry keeps the invariant, including retried requests <= retry attempts |
| Metrics.StatsOrdered | Models/LoaderMetrics.cs:261-267 | once a request is recorded, min <= average <= max |
| Metrics.WindowIsLatest | Models/LoaderMetrics.cs:250-258 | under the invariant, the window holds min(n, 100) samples, and they are the last ones of the history, in order |
| Metrics.LoaderMetrics.constructor | Models/LoaderMetrics.cs:13-96 | a new object is in the initial state and satisfies the invariant |
| Metrics.LoaderMetrics.SuccessRate | Models/LoaderMetrics.cs:104-106 | 0 with no request, otherwise within 0..100 |
| Metrics.LoaderMetrics.FailureRate | Models/LoaderMetrics.cs:114-116 | 0 with no request, otherwise within 0..100 |
| Metrics.LoaderMetrics.RetryRate | Models/LoaderMetrics.cs:124-126 | 0 with no request, never negative (it is not bounded by 100) |
| Metrics.LoaderMetrics.AverageRetriesPerFailedRequest | Models/LoaderMetrics.cs:134-136 | 0 with no retried request, otherwise at least 1 |
| Metrics.LoaderMetrics.SummaryMinResponseTime | Models/LoaderMetrics.cs:240 | the summary's minimum is 0 while no sample exists (the sentinel never shows), never exceeds a sample, and is the window's minimum whenever that minimum is not the sentinel value |
| Metrics.LoaderMetrics.RecordSuccess | Models/LoaderMetrics.cs:146-157 | the new state is `Recorded(old, success)`, the sample joins the history and the invariant holds |
| Metrics.LoaderMetrics.RecordFailure | Models/LoaderMetrics.cs:167-178 | the new state is `Recorded(old, failure)`, the sample joins the history and the invariant holds |
| Metrics.LoaderMetrics.RecordRetry | Models/LoaderMetrics.cs:187-197 | the new state is `Retried(old, isFirstRetry)` and the invariant holds |
| Metrics.LoaderMetrics.Reset | Models/LoaderMetrics.cs:205-222 | from any state, the object is back in the initial state with an empty history, and the invariant holds |
| Metrics.LoaderMetrics.RecordStatusCode | Models/LoaderMetrics.cs:245-248 | the histogram becomes `Tally(old, statusCode)` |
| Metrics.LoaderMetrics.RecordResponseTime | Models/LoaderMetrics.cs:250-268 | the enqueue-then-dequeue loop leaves the window `Recent(old + [t])`, and the statistics are the mean, maximum and minimum of that window |
| Metrics.LoaderMetrics.RecomputeStatistics | Models/LoaderMetrics.cs:261-267 | average, maximum and minimum are those of the current window |
| Metrics.RatesComplement | Models/LoaderMetrics.cs:104-116 | once a request is recorded, the success rate plus the failure rate is 100 |
| Metrics.ResetTwice | Models/LoaderMetrics.cs:205-222 | a second `Reset` leaves exactly the state the first one left, which is the initial state |
| Metrics.RetryCountingExample | Models/LoaderMetrics.cs:187-197 | `RecordRetry(true)`, `RecordRetry(false)`, `RecordRetry(false)` give 1 retried request, 3 attempts and 0 requests |
| Metrics.SuccessThenFailureExample | Models/LoaderMetrics.cs:146-178 | a success with 200 then a failure with 500 give 2 requests, both rates 50, and histogram {200: 1, 500: 1} |
| Loader.Step | Services/LoaderService.cs:95-148 | `Increment` adds one (below `int.MaxValue`); `Decrement` subtracts one when positive and is otherwise a silent no-op; `Reset` sets 0; exactly one notification carrying the new `IsLoading` value for every change, none for the no-op; a count in 0..`int.MaxValue`-1 stays non-negative |
| Loader.Loading | Services/LoaderService.cs:34 | `IsLoading` of a state: the count is positive |
| Loader.Run | Services/LoaderService.cs:95-148 | the state after a sequence of operations: events already raised are kept, and each operation raises at most one more |
| Loader.RunAppend | Services/LoaderService.cs:95-148 | running two batches of operations in turn is running their concatenation |
| Loader.RunBounds | Services/LoaderService.cs:111-118 | the count never goes negative under any sequence of operations, and grows by at most one per operation (while it cannot wrap) |
| Loader.Repeat | Services/LoaderService.cs:95-118 | `k` copies of one operation |
| Loader.ShowMany | Services/LoaderService.cs:95-99 | `k` increments raise the count by exactly `k` |
| Loader.CloseMany | Services/LoaderService.cs:111-118 | `k` decrements lower the count by `k`, floored at 0 |
| Loader.ShowThenClose | Services/LoaderService.cs:58-76 | `k` shows then `j <= k` closes leave `k - j` more pending |
| Loader.NestedShowClose | Services/LoaderService.cs:58-76 | `k` shows then `k` closes restore the count, and the loader stays shown until the last close |
| Loader.IncrementExample | Services/LoaderService.cs:84-89 | the documented sequence: counts 1, 2, 1, then 0 and hidden, with notifications true, true, true, false |
| Loader.ResetThenClose | Services/LoaderService.cs:144-148 | `Reset` hides the loader whatever the count, and a following `Close` changes nothing and raises nothing |
| Loader.IncrementWraps | Services/LoaderService.cs:97 | an increment at `int.MaxValue` wraps the count to `int.MinValue` and hides the loader |
| Loader.LoaderService.constructor | Services/LoaderService.cs:21 | a new service has count 0 and has raised nothing |
| Loader.LoaderService.IsLoading | Services/LoaderService.cs:34 | true exactly when the count is positive |
| Loader.LoaderService.Show | Services/LoaderService.cs:58-61 | the same state change as `Increment` |
| Loader.LoaderService.Close | Services/LoaderService.cs:73-76 | the same state change as `Decrement` |
| Loader.LoaderService.Increment | Services/LoaderService.cs:95-99 | the state becomes `Step(old, Increment)` |
| Loader.LoaderService.Decrement | Services/LoaderService.cs:111-118 | the state becomes `Step(old, Decrement)` |
| Loader.LoaderService.Reset | Services/LoaderService.cs:144-148 | the state becomes `Step(old, Reset)` |
| Collections.AddWithoutValidation | Handlers/HttpCallInterceptorHandler.cs:134 | `TryAddWithoutValidation`: the values are appended to those of the name, and no other header changes |
| Collections.MergeIntoEmpty | Handlers/HttpCallInterceptorHandler.cs:132-135 | adding every header of a collection to an empty one gives that collection back |
| Collections.TryAdd | Handlers/HttpCallInterceptorHandler.cs:140 | `Options.TryAdd`: no change when the key is present, otherwise the entry is added; existing entries are kept |
| Collections.TryAddAllIntoEmpty | Handlers/HttpCallInterceptorHandler.cs:138-141 | adding every option to an empty bag gives the bag back |
| Collections.CopyHeaders | Handlers/HttpCallInterceptorHandler.cs:132-135 | the `foreach` loop merges every header of the source into the destination |
| Collections.CopyOptions | Handlers/HttpCallInterceptorHandler.cs:138-141 | the `foreach` loop tries every option of the source on the destination; destination entries win |
| Collections.CopyHeaderStep | Handlers/HttpCallInterceptorHandler.cs:132-135 | adding one more pending header keeps the copy loop's invariant |
| Collections.CopyOptionStep | Handlers/HttpCallInterceptorHandler.cs:138-141 | trying one more pending option keeps the copy loop's invariant |
| Interceptor.Final | Handlers/HttpCallInterceptorHandler.cs:68-88 | a non-500 response is returned as it is; an exception other than `HttpRequestException` escapes |
| Interceptor.Retryable | Handlers/HttpCallInterceptorHandler.cs:68-88 | the handler tries again exactly after an `HttpRequestException` or a 500 response |
| Interceptor.LastErrorMessage | Handlers/HttpCallInterceptorHandler.cs:79-81 | `lastException`: none exactly when no attempt threw `HttpRequestException`, otherwise the message of the latest one, which later 500 responses do not clear |
| Interceptor.GaveUp | Handlers/HttpCallInterceptorHandler.cs:91-96 | the synthesized response is a 500 carrying the original request, with the last exception's message or "Max retry attempts reached" as reason |
| Interceptor.RetryContract | Handlers/HttpCallInterceptorHandler.cs:56-97 | what one call of the retry loop promises: 1 to 3 attempts, every one but the last retryable; a non-retryable last outcome is returned or escapes as it is; three retryable ones end with the made-up 500 carrying the last exception's message |
| Interceptor.RetryContractDeterministic | Handlers/HttpCallInterceptorHandler.cs:56-97 | the retry contract fixes both the number of attempts and the result |
| Interceptor.FirstResponseReturned | Handlers/HttpCallInterceptorHandler.cs:68-74 | a first response other than 500 is returned unchanged after exactly one attempt |
| Interceptor.ErrorThenServerErrors | Handlers/HttpCallInterceptorHandler.cs:79-96 | an exception "boom" followed by two 500 responses ends with a 500 whose reason is "boom" after 3 attempts |
| Interceptor.ThreeServerErrors | Handlers/HttpCallInterceptorHandler.cs:91-96 | three 500 responses end with the synthesized 500, reason "Max retry attempts reached" |
| Interceptor.BracketRestoresCount | Handlers/HttpCallInterceptorHandler.cs:30-41 | for a count in 0..`int.MaxValue`-1, increment then decrement restores the loader count and raises exactly two notifications, the first `true`; at `int.MaxValue` the increment wraps (`Loader.IncrementWraps`) and the count is not restored |
| Interceptor.HttpCallInterceptorHandler.constructor | Handlers/HttpCallInterceptorHandler.cs:13 | the handler keeps the loader service it is given |
| Interceptor.HttpCallInterceptorHandler.SendAsync | Handlers/HttpCallInterceptorHandler.cs:30-41 | the result follows the retry contract; the loader count is incremented on entry and decremented on every exit, an escaping exception included |
| Interceptor.HttpCallInterceptorHandler.ExecuteWithRetry | Handlers/HttpCallInterceptorHandler.cs:56-97 | at most 3 attempts, all but the last retryable; attempt 0 sends the original and every later one a clone equal to it; the result is the retry contract's |
| Interceptor.HttpCallInterceptorHandler.CloneRequest | Handlers/HttpCallInterceptorHandler.cs:111-144 | the clone has the original's method, URI, version, body bytes, content headers, headers and options, and no content when the original has none |
| InterceptorOptions.ShouldIntercept | Options/HttpInterceptorOptions.cs:77-90 | every request is intercepted when `InterceptPredicate` is absent, otherwise the predicate decides |
| InterceptorOptions.ShowLoader | Options/HttpInterceptorOptions.cs:92-106 | the loader is shown for every intercepted request when `ShowLoaderPredicate` is absent, otherwise the predicate decides |
| InterceptorOptions.Default | Options/HttpInterceptorOptions.cs:21-134 | the options as the property initialisers leave them; `DefaultValues` and `DefaultRetryStatuses` state them |
| InterceptorOptions.RetriesOnStatus | Options/HttpInterceptorOptions.cs:57-64 | a response status triggers a retry exactly when it is in `RetryOnStatusCodes` |
| InterceptorOptions.Pow2 | Options/HttpInterceptorOptions.cs:36-46 | a power of two is at least 1 |
| InterceptorOptions.BackoffDelay | Options/HttpInterceptorOptions.cs:36-47 | the delay before retry `k` as documented: the base delay doubled `k` times with backoff, the base delay every time without; its properties are `BackoffDoubles`, `BackoffConstant`, `BackoffMonotone` and `BackoffAtLeastBase` |
| InterceptorOptions.DefaultValues | Options/HttpInterceptorOptions.cs:21-134 | defaults: 3 attempts, 1 second delay, backoff on, retry on timeout on, logging off, predicates and callback absent |
| InterceptorOptions.DefaultRetryStatuses | Options/HttpInterceptorOptions.cs:57-64 | by default exactly 408, 500, 502, 503 and 504 trigger a retry; 429 does not; 408 is the only code below 500 |
| InterceptorOptions.DefaultInterceptsAll | Options/HttpInterceptorOptions.cs:77-106 | with the defaults every request is intercepted and shows the loader |
| InterceptorOptions.DefaultsCoverFixedPolicy | Options/HttpInterceptorOptions.cs:21-64 | the default attempt count equals the fixed handler's, and every response that handler retries is retried by default |
| InterceptorOptions.BackoffDoubles | Options/HttpInterceptorOptions.cs:36-47 | with backoff on, each delay is twice the previous one |
| InterceptorOptions.BackoffConstant | Options/HttpInterceptorOptions.cs:36-47 | with backoff off, every delay is the base delay |
| InterceptorOptions.BackoffMonotone | Options/HttpInterceptorOptions.cs:36-47 | with a non-negative base, a later retry never waits less |
| InterceptorOptions.BackoffAtLeastBase | Options/HttpInterceptorOptions.cs:36-47 | no retry waits less than a non-negative base delay |
| InterceptorOptions.DefaultBackoffSequence | Options/HttpInterceptorOptions.cs:36-47 | with the defaults the delays are 1s, 2s, 4s, 8s |

## Left out

- Concurrency is not modelled. Each `lock` and `Interlocked` block is one atomic step, and `ConcurrentDictionary` and `ConcurrentQueue` become a `map` and a `seq`. In particular the race between the check and the decrement in `LoaderService.Decrement` is not modelled.
- Floating point is replaced by exact `real` arithmetic: the `double` rates, the average through `TotalMilliseconds` and `TimeSpan.FromMilliseconds`, and the `:F2` formatting of `GetSummary`. Only the minimum line of `GetSummary` is modelled, as `SummaryMinResponseTime`. Times are whole ticks.
- The clock (`DateTime.UtcNow`) is a parameter `now` of the record methods.
- Response times are non-negative `TimeSpan`s. A negative `TimeSpan` passed to `RecordSuccess` or `RecordFailure` is not modelled.
- The metrics counters are unbounded natural numbers. The 32-bit overflow of `TotalRequests` and the other `int` counters after 2^31 records is not modelled.
- `OnChange` subscribers are not modelled. Each event raised is recorded as the `IsLoading` value it exposes.
- Loader.RunBounds: "never negative" is proved only while the count plus the number of operations stays within `int.MaxValue`. One increment beyond that wraps the count to `int.MinValue` (`Loader.IncrementWraps`), so the unrestricted claim is false.
- Async I/O and the inner handler are not modelled directly:
  - `base.SendAsync` is the `transport` parameter.
  - The cancellation token and any exception other than `HttpRequestException` are `Faulted` outcomes, which escape.
  - `response.Dispose()` is not modelled.
  - `ReadAsByteArrayAsync` is the body's bytes.
- `HttpRequestMessage` is an immutable value. The clone is a new value equal to the original, not a distinct mutable object, so aliasing is not modelled.
  - The content type (`ByteArrayContent` in the clone) is not distinguished.
  - Request properties that the clone does not copy, such as `VersionPolicy`, are not part of the request value.
- Header collections are maps from names to value lists. Header validation, the splitting of header values, and the enumeration order of names are not modelled. `TryAddWithoutValidation` is taken to succeed for every name.
- Collections.AddWithoutValidation, Collections.CopyHeaders: header names are compared exactly, while .NET `HttpHeaders` treats names that differ only in case as one header and appends to it. The clone is unaffected: it copies into an empty collection from a source collection, and the names of one .NET collection never differ only in case, so no two copied names meet.
- The options' predicates and `OnRetry` are modelled as present or absent functions. None of `LoaderMetrics`, `LoaderService`, `HttpCallInterceptorHandler` and `HttpInterceptorOptions` invokes `OnRetry` or computes a backoff delay, and `EnableDetailedLogging` and `RetryOnTimeout` are only defaults there. The backoff delay follows the documentation of `UseExponentialBackoff`.
- The configurable interceptor (predicates, `OnRetry`, metrics recording, global cancellation) is not part of this model. Neither are the UI component, the dependency-injection registration or the example files.
