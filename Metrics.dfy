/**
 * The metrics aggregator `LoaderMetrics`: request counters, a status-code
 * histogram and a bounded FIFO window of response times from which the
 * average, maximum and minimum are recomputed after every sample.
 * Each public method of the source runs under one lock; here it is one step.
 */
module Metrics {
  import opened Base

  /** Capacity of the response-time window (`MaxResponseTimeSamples`). */
  const MaxResponseTimeSamples: nat := 100

  // ----- Status-code histogram -----

  /** Some code of a non-empty histogram (a fixed choice). */
  ghost function PickCode(m: map<int, nat>): (k: int)
    requires m != map[]
    ensures k in m
  {
    assert (forall k :: k !in m) ==> m == map[];
    var k :| k in m; k
  }

  /** The sum of all counts held in a histogram. */
  ghost function SumCounts(m: map<int, nat>): nat
    decreases |m|
  {
    if m == map[] then 0
    else
      var k := PickCode(m);
      assert |m - {k}| < |m| by { assert (m - {k}).Keys == m.Keys - {k}; }
      m[k] + SumCounts(m - {k})
  }

  /** Any code, not only the chosen one, can be split off the sum. */
  lemma {:induction false} SumCountsRemove(m: map<int, nat>, k: int)
    requires k in m
    ensures SumCounts(m) == m[k] + SumCounts(m - {k})
    decreases |m|
  {
    var j := PickCode(m);
    if j != k {
      var mj, mk := m - {j}, m - {k};
      assert mj.Keys == m.Keys - {j};
      assert mk.Keys == m.Keys - {k};
      SumCountsRemove(mj, k);
      SumCountsRemove(mk, j);
      assert mj - {k} == mk - {j};
    }
  }

  /**
   * The histogram after one more occurrence of `code`: the entry for `code`
   * goes up by one (starting from 1 when absent) and no other entry changes.
   */
  function Tally(m: map<int, nat>, code: int): (r: map<int, nat>)
    ensures r.Keys == m.Keys + {code}
    ensures r[code] == (if code in m then m[code] else 0) + 1
    ensures forall c :: c in m && c != code ==> r[c] == m[c]
  {
    if code in m then m[code := m[code] + 1] else m[code := 1]
  }

  /** Tallying one code raises the histogram total by exactly one. */
  lemma SumCountsTally(m: map<int, nat>, code: int)
    ensures SumCounts(Tally(m, code)) == SumCounts(m) + 1
  {
    var r := Tally(m, code);
    SumCountsRemove(r, code);
    if code in m {
      SumCountsRemove(m, code);
      assert r - {code} == m - {code};
    } else {
      assert r - {code} == m;
    }
  }

  // ----- Response-time window and its statistics -----

  /**
   * The window kept of the samples `h`, oldest first: while more than
   * `MaxResponseTimeSamples` remain, the oldest is dequeued.
   */
  function Recent(h: seq<Ticks>): (w: seq<Ticks>)
    ensures |w| == if |h| < MaxResponseTimeSamples then |h| else MaxResponseTimeSamples
    decreases |h|
  {
    if |h| <= MaxResponseTimeSamples then h else Recent(h[1..])
  }

  /** The window is the suffix of the samples of its own length: the latest ones, in order. */
  lemma {:induction false} RecentIsSuffix(h: seq<Ticks>)
    ensures Recent(h) == h[|h| - |Recent(h)|..]
    decreases |h|
  {
    if |h| > MaxResponseTimeSamples {
      RecentIsSuffix(h[1..]);
      assert h[1..][|h| - 1 - MaxResponseTimeSamples..] == h[|h| - MaxResponseTimeSamples..];
    }
  }

  /**
   * Trimming the window before or after appending a sample gives the same
   * window: the window is always the last samples of the whole history.
   */
  lemma {:induction false} RecentAppend(h: seq<Ticks>, t: Ticks)
    ensures Recent(Recent(h) + [t]) == Recent(h + [t])
    decreases |h|
  {
    if |h| > MaxResponseTimeSamples {
      RecentAppend(h[1..], t);
      assert (h + [t])[1..] == h[1..] + [t];
    }
  }

  /** Appending to a full window evicts its oldest sample; otherwise nothing is evicted. */
  lemma EvictOldest(w: seq<Ticks>, t: Ticks)
    requires |w| <= MaxResponseTimeSamples
    ensures |w| == MaxResponseTimeSamples ==> Recent(w + [t]) == w[1..] + [t]
    ensures |w| < MaxResponseTimeSamples ==> Recent(w + [t]) == w + [t]
  {
  }

  function Sum(s: seq<Ticks>): nat
  {
    if s == [] then 0 else s[0] + Sum(s[1..])
  }

  /** The exact arithmetic mean of a non-empty window. */
  function Mean(s: seq<Ticks>): real
    requires s != []
  {
    Sum(s) as real / |s| as real
  }

  /** The largest sample (`times.Max()`). */
  function SeqMax(s: seq<Ticks>): Ticks
    requires s != []
  {
    if |s| == 1 then s[0]
    else
      var rest := SeqMax(s[1..]);
      if s[0] >= rest then s[0] else rest
  }

  /** The smallest sample (`times.Min()`). */
  function SeqMin(s: seq<Ticks>): Ticks
    requires s != []
  {
    if |s| == 1 then s[0]
    else
      var rest := SeqMin(s[1..]);
      if s[0] <= rest then s[0] else rest
  }

  /** `SeqMax` is a sample and no sample exceeds it. */
  lemma {:induction false} SeqMaxIsMax(s: seq<Ticks>)
    requires s != []
    ensures SeqMax(s) in s
    ensures forall x :: x in s ==> x <= SeqMax(s)
  {
    if |s| > 1 {
      SeqMaxIsMax(s[1..]);
      assert s == [s[0]] + s[1..];
    }
  }

  /** `SeqMin` is a sample and no sample is below it. */
  lemma {:induction false} SeqMinIsMin(s: seq<Ticks>)
    requires s != []
    ensures SeqMin(s) in s
    ensures forall x :: x in s ==> SeqMin(s) <= x
  {
    if |s| > 1 {
      SeqMinIsMin(s[1..]);
      assert s == [s[0]] + s[1..];
    }
  }

  lemma {:induction false} SumBounds(s: seq<Ticks>, lo: int, hi: int)
    requires forall x :: x in s ==> lo <= x <= hi
    ensures |s| * lo <= Sum(s) <= |s| * hi
  {
    if s != [] {
      assert s[0] in s;
      assert forall x :: x in s[1..] ==> x in s;
      SumBounds(s[1..], lo, hi);
      AddBounds(s[0], Sum(s[1..]), |s| - 1, lo, hi);
    }
  }

  lemma AddBounds(x: int, rest: int, n: int, lo: int, hi: int)
    requires lo <= x <= hi && n * lo <= rest <= n * hi
    ensures (n + 1) * lo <= x + rest <= (n + 1) * hi
  {
    assert (n + 1) * lo == n * lo + lo;
    assert (n + 1) * hi == n * hi + hi;
  }

  /** The average lies between the minimum and the maximum of the window. */
  lemma MeanWithinBounds(s: seq<Ticks>)
    requires s != []
    ensures SeqMin(s) as real <= Mean(s) <= SeqMax(s) as real
  {
    var lo, hi := SeqMin(s), SeqMax(s);
    SeqMinIsMin(s);
    SeqMaxIsMax(s);
    SumBounds(s, lo, hi);
    QuotientBounds(Sum(s), |s|, lo, hi);
  }

  lemma QuotientBounds(sum: int, n: int, lo: int, hi: int)
    requires n > 0 && n * lo <= sum <= n * hi
    ensures lo as real <= sum as real / n as real <= hi as real
  {
    var q, nr := sum as real / n as real, n as real;
    assert q * nr == sum as real;
    assert (n * lo) as real == nr * lo as real;
    assert (n * hi) as real == nr * hi as real;
    assert (q - lo as real) * nr >= 0.0;
    assert (hi as real - q) * nr >= 0.0;
  }

  /**
   * The average, maximum and minimum agree with the window: 0, 0 and the
   * `TimeSpan.MaxValue` sentinel while it is empty, its mean, largest and
   * smallest sample otherwise.
   */
  ghost predicate StatsOf(w: seq<Ticks>, average: real, max: Ticks, min: Ticks)
  {
    if w == [] then average == 0.0 && max == 0 && min == MaxTicks
    else average == Mean(w) && max == SeqMax(w) && min == SeqMin(w)
  }

  // ----- Derived rates -----

  /** `part / total * 100`, or 0 when `total` is 0. */
  function Percentage(part: nat, total: nat): (r: real)
    ensures total == 0 ==> r == 0.0
    ensures 0.0 <= r
    ensures part <= total ==> r <= 100.0
  {
    if total > 0 then
      assert part as real / total as real <= 1.0 <== part <= total;
      part as real / total as real * 100.0
    else 0.0
  }

  /** Percentages of the two halves of a non-empty total add up to 100. */
  lemma PercentagesComplement(part: nat, rest: nat)
    requires part + rest > 0
    ensures Percentage(part, part + rest) + Percentage(rest, part + rest) == 100.0
  {
  }

  /** `AverageRetriesPerFailedRequest`: retry attempts per retried request, or 0. */
  function RetriesPerRetriedRequest(attempts: nat, retried: nat): (r: real)
    ensures retried == 0 ==> r == 0.0
    ensures 0 < retried <= attempts ==> r >= 1.0
  {
    if retried > 0 then attempts as real / retried as real else 0.0
  }

  /** All observable fields of a `LoaderMetrics` at one moment. */
  datatype MetricsSnapshot = MetricsSnapshot(
    totalRequests: nat,
    successfulRequests: nat,
    failedRequests: nat,
    retriedRequests: nat,
    totalRetryAttempts: nat,
    averageResponseTime: real,
    maxResponseTime: Ticks,
    minResponseTime: Ticks,
    statusCodeDistribution: map<int, nat>,
    responseTimes: seq<Ticks>,
    lastRequestTime: Option<Timestamp>)

  /** The state of a new object, which `Reset` restores. */
  ghost predicate IsInitial(s: MetricsSnapshot) {
    && s.totalRequests == 0 && s.successfulRequests == 0 && s.failedRequests == 0
    && s.retriedRequests == 0 && s.totalRetryAttempts == 0 && s.averageResponseTime == 0.0
    && s.maxResponseTime == 0 && s.minResponseTime == MaxTicks && s.statusCodeDistribution == map[]
    && s.responseTimes == [] && s.lastRequestTime == None
  }

  /**
   * The invariant of the metrics, given `history`, every response time
   * recorded since the last reset: every request is a success or a failure,
   * a request is retried only by a retry attempt, the histogram counts every
   * request once, the window is the last samples of the history and the
   * statistics are those of the window.
   */
  ghost predicate Inv(s: MetricsSnapshot, history: seq<Ticks>)
  {
    && s.totalRequests == s.successfulRequests + s.failedRequests
    && s.retriedRequests <= s.totalRetryAttempts
    && SumCounts(s.statusCodeDistribution) == s.totalRequests
    && |history| == s.totalRequests
    && s.responseTimes == Recent(history)
    && (s.lastRequestTime == None <==> s.totalRequests == 0)
    && StatsOf(s.responseTimes, s.averageResponseTime, s.maxResponseTime, s.minResponseTime)
  }

  /**
   * The state after recording one completed request (`RecordSuccess` when
   * `success`, else `RecordFailure`) with its status code, response time and
   * the clock reading `now`.
   */
  function Recorded(s: MetricsSnapshot, success: bool, statusCode: int, responseTime: Ticks, now: Timestamp)
    : MetricsSnapshot
  {
    Sampled(Counted(s, success, statusCode, now), responseTime)
  }

  /** The counters, the clock reading and the status-code histogram after one completed request. */
  function Counted(s: MetricsSnapshot, success: bool, statusCode: int, now: Timestamp): MetricsSnapshot {
    s.(totalRequests := s.totalRequests + 1,
       successfulRequests := s.successfulRequests + (if success then 1 else 0),
       failedRequests := s.failedRequests + (if success then 0 else 1),
       lastRequestTime := Some(now),
       statusCodeDistribution := Tally(s.statusCodeDistribution, statusCode))
  }

  /** The window and its statistics after one sample (`RecordResponseTime`). */
  function Sampled(s: MetricsSnapshot, responseTime: Ticks): MetricsSnapshot {
    var window := Recent(s.responseTimes + [responseTime]);
    s.(responseTimes := window,
       averageResponseTime := Mean(window),
       maxResponseTime := SeqMax(window),
       minResponseTime := SeqMin(window))
  }

  /**
   * Recording a request counts it once, as a success or as a failure, in the
   * totals and in the histogram, stamps the clock reading, and leaves the
   * retry counters alone.
   */
  lemma RecordedCounters(s: MetricsSnapshot, success: bool, statusCode: int, responseTime: Ticks, now: Timestamp)
    ensures var r := Recorded(s, success, statusCode, responseTime, now);
      && r.totalRequests == s.totalRequests + 1
      && (success ==> r.successfulRequests == s.successfulRequests + 1 && r.failedRequests == s.failedRequests)
      && (!success ==> r.failedRequests == s.failedRequests + 1 && r.successfulRequests == s.successfulRequests)
      && r.retriedRequests == s.retriedRequests && r.totalRetryAttempts == s.totalRetryAttempts
      && r.statusCodeDistribution == Tally(s.statusCodeDistribution, statusCode)
      && r.lastRequestTime == Some(now)
  {
  }

  /**
   * The sample just recorded is in the window, which stays within its
   * bound, and lies between the new minimum and maximum.
   */
  lemma RecordedSample(s: MetricsSnapshot, success: bool, statusCode: int, responseTime: Ticks, now: Timestamp)
    ensures var r := Recorded(s, success, statusCode, responseTime, now);
      responseTime in r.responseTimes && |r.responseTimes| <= MaxResponseTimeSamples &&
      r.minResponseTime <= responseTime <= r.maxResponseTime
  {
    var window := Recent(s.responseTimes + [responseTime]);
    RecentIsSuffix(s.responseTimes + [responseTime]);
    assert window[|window| - 1] == responseTime;
    SeqMaxIsMax(window);
    SeqMinIsMin(window);
  }

  /** The state after one retry attempt (`RecordRetry`). */
  function Retried(s: MetricsSnapshot, isFirstRetry: bool): (r: MetricsSnapshot)
    ensures r.totalRetryAttempts == s.totalRetryAttempts + 1
    ensures r.retriedRequests == s.retriedRequests + (if isFirstRetry then 1 else 0)
    ensures r.(retriedRequests := s.retriedRequests, totalRetryAttempts := s.totalRetryAttempts) == s
  {
    s.(totalRetryAttempts := s.totalRetryAttempts + 1,
       retriedRequests := s.retriedRequests + (if isFirstRetry then 1 else 0))
  }

  /** A new or reset object satisfies the invariant. */
  lemma InitialInv(s: MetricsSnapshot)
    requires IsInitial(s)
    ensures Inv(s, [])
  {
  }

  /** Recording a request keeps the invariant, with its response time appended to the history. */
  lemma RecordedInv(s: MetricsSnapshot, history: seq<Ticks>, success: bool, statusCode: int,
                    responseTime: Ticks, now: Timestamp)
    requires Inv(s, history)
    ensures Inv(Recorded(s, success, statusCode, responseTime, now), history + [responseTime])
  {
    SumCountsTally(s.statusCodeDistribution, statusCode);
    RecentAppend(history, responseTime);
  }

  /** A retry attempt keeps the invariant. */
  lemma RetriedInv(s: MetricsSnapshot, history: seq<Ticks>, isFirstRetry: bool)
    requires Inv(s, history)
    ensures Inv(Retried(s, isFirstRetry), history)
  {
  }

  /** Once a sample exists, the maximum is at least the minimum and the average lies between them. */
  lemma StatsOrdered(s: MetricsSnapshot, history: seq<Ticks>)
    requires Inv(s, history) && s.totalRequests > 0
    ensures s.minResponseTime <= s.maxResponseTime
    ensures s.minResponseTime as real <= s.averageResponseTime <= s.maxResponseTime as real
  {
    MeanWithinBounds(s.responseTimes);
  }

  /** The window holds the last (at most) 100 samples of the history, in order. */
  lemma WindowIsLatest(s: MetricsSnapshot, history: seq<Ticks>)
    requires Inv(s, history)
    ensures |s.responseTimes| <= MaxResponseTimeSamples
    ensures |s.responseTimes| == (if |history| < MaxResponseTimeSamples then |history| else MaxResponseTimeSamples)
    ensures forall i :: 0 <= i < |s.responseTimes| ==>
      s.responseTimes[i] == history[|history| - |s.responseTimes| + i]
  {
    RecentIsSuffix(history);
  }

  class LoaderMetrics {
    var totalRequests: nat
    var successfulRequests: nat
    var failedRequests: nat
    var retriedRequests: nat
    var totalRetryAttempts: nat
    var averageResponseTime: real
    var maxResponseTime: Ticks
    var minResponseTime: Ticks
    var statusCodeDistribution: map<int, nat>
    /** The window of recent response times, oldest first (`_responseTimes`). */
    var responseTimes: seq<Ticks>
    var lastRequestTime: Option<Timestamp>
    /** Every response time recorded since construction or the last reset, oldest first. */
    ghost var history: seq<Ticks>

    ghost predicate Valid()
      reads this
    {
      Inv(Snapshot(), history)
    }

    function Snapshot(): MetricsSnapshot
      reads this
    {
      MetricsSnapshot(totalRequests, successfulRequests, failedRequests, retriedRequests,
        totalRetryAttempts, averageResponseTime, maxResponseTime, minResponseTime,
        statusCodeDistribution, responseTimes, lastRequestTime)
    }

    constructor ()
      ensures Valid() && history == []
      ensures IsInitial(Snapshot())
    {
      assert SumCounts(map[]) == 0;
      totalRequests, successfulRequests, failedRequests := 0, 0, 0;
      retriedRequests, totalRetryAttempts := 0, 0;
      averageResponseTime, maxResponseTime, minResponseTime := 0.0, 0, MaxTicks;
      statusCodeDistribution, responseTimes, lastRequestTime := map[], [], None;
      history := [];
    }

    /** `SuccessRate`: successful requests as a percentage of all requests. */
    function SuccessRate(): (r: real)
      reads this
      requires Valid()
      ensures totalRequests == 0 ==> r == 0.0
      ensures 0.0 <= r <= 100.0
    {
      Percentage(successfulRequests, totalRequests)
    }

    /** `FailureRate`: failed requests as a percentage of all requests. */
    function FailureRate(): (r: real)
      reads this
      requires Valid()
      ensures totalRequests == 0 ==> r == 0.0
      ensures 0.0 <= r <= 100.0
    {
      Percentage(failedRequests, totalRequests)
    }

    /**
     * `RetryRate`: retried requests as a percentage of all requests. Retries
     * are recorded independently of outcomes, so this is not bounded by 100.
     */
    function RetryRate(): (r: real)
      reads this
      ensures totalRequests == 0 ==> r == 0.0
      ensures 0.0 <= r
    {
      Percentage(retriedRequests, totalRequests)
    }

    /** `AverageRetriesPerFailedRequest`: at least 1 once a retried request exists. */
    function AverageRetriesPerFailedRequest(): (r: real)
      reads this
      requires Valid()
      ensures retriedRequests == 0 ==> r == 0.0
      ensures retriedRequests > 0 ==> r >= 1.0
    {
      RetriesPerRetriedRequest(totalRetryAttempts, retriedRequests)
    }

    /**
     * The minimum response time as the summary reports it: 0 while no sample
     * exists (the sentinel never shows), otherwise a lower bound of the window
     * that is its minimum unless that minimum is the sentinel value itself.
     */
    function SummaryMinResponseTime(): (r: Ticks)
      reads this
      requires Valid()
      ensures responseTimes == [] ==> r == 0
      ensures forall x :: x in responseTimes ==> r <= x
      ensures responseTimes != [] && SeqMin(responseTimes) < MaxTicks ==> r == SeqMin(responseTimes)
    {
      assert responseTimes != [] ==> forall x :: x in responseTimes ==> SeqMin(responseTimes) <= x by {
        if responseTimes != [] { SeqMinIsMin(responseTimes); }
      }
      if minResponseTime == MaxTicks then 0 else minResponseTime
    }

    /** Records a successful request (`RecordSuccess`); `now` is the clock reading. */
    method RecordSuccess(statusCode: int, responseTime: Ticks, now: Timestamp)
      requires Valid()
      modifies this
      ensures Valid()
      ensures Snapshot() == Recorded(old(Snapshot()), true, statusCode, responseTime, now)
      ensures history == old(history) + [responseTime]
    {
      ghost var before, recorded := Snapshot(), history;
      totalRequests := totalRequests + 1;
      successfulRequests := successfulRequests + 1;
      lastRequestTime := Some(now);
      RecordStatusCode(statusCode);
      ghost var counted := Snapshot();
      assert counted == Counted(before, true, statusCode, now);
      RecordResponseTime(responseTime);
      assert Snapshot() == Sampled(counted, responseTime);
      history := history + [responseTime];
      RecordedInv(before, recorded, true, statusCode, responseTime, now);
    }

    /** Records a failed request (`RecordFailure`); `now` is the clock reading. */
    method RecordFailure(statusCode: int, responseTime: Ticks, now: Timestamp)
      requires Valid()
      modifies this
      ensures Valid()
      ensures Snapshot() == Recorded(old(Snapshot()), false, statusCode, responseTime, now)
      ensures history == old(history) + [responseTime]
    {
      ghost var before, recorded := Snapshot(), history;
      totalRequests := totalRequests + 1;
      failedRequests := failedRequests + 1;
      lastRequestTime := Some(now);
      RecordStatusCode(statusCode);
      ghost var counted := Snapshot();
      assert counted == Counted(before, false, statusCode, now);
      RecordResponseTime(responseTime);
      assert Snapshot() == Sampled(counted, responseTime);
      history := history + [responseTime];
      RecordedInv(before, recorded, false, statusCode, responseTime, now);
    }

    /**
     * Records one retry attempt (`RecordRetry`): every call counts an attempt,
     * and only the first retry of a request counts a retried request.
     */
    method RecordRetry(isFirstRetry: bool)
      requires Valid()
      modifies this
      ensures Valid()
      ensures Snapshot() == Retried(old(Snapshot()), isFirstRetry)
      ensures history == old(history)
    {
      RetriedInv(Snapshot(), history, isFirstRetry);
      totalRetryAttempts := totalRetryAttempts + 1;
      if isFirstRetry {
        retriedRequests := retriedRequests + 1;
      }
    }

    /** Restores the initial state (`Reset`). */
    method Reset()
      modifies this
      ensures Valid() && history == []
      ensures IsInitial(Snapshot())
    {
      assert SumCounts(map[]) == 0;
      totalRequests := 0;
      successfulRequests := 0;
      failedRequests := 0;
      retriedRequests := 0;
      totalRetryAttempts := 0;
      averageResponseTime := 0.0;
      maxResponseTime := 0;
      minResponseTime := MaxTicks;
      lastRequestTime := None;
      statusCodeDistribution := map[];
      responseTimes := [];
      history := [];
    }

    /** `RecordStatusCode`: one more occurrence of `statusCode` in the histogram. */
    method RecordStatusCode(statusCode: int)
      modifies this`statusCodeDistribution
      ensures statusCodeDistribution == Tally(old(statusCodeDistribution), statusCode)
    {
      if statusCode in statusCodeDistribution {
        statusCodeDistribution := statusCodeDistribution[statusCode := statusCodeDistribution[statusCode] + 1];
      } else {
        statusCodeDistribution := statusCodeDistribution[statusCode := 1];
      }
    }

    /**
     * `RecordResponseTime`: enqueue the sample, dequeue until at most
     * `MaxResponseTimeSamples` remain, then recompute the statistics.
     */
    method RecordResponseTime(responseTime: Ticks)
      modifies this`responseTimes
      modifies this`averageResponseTime, this`maxResponseTime, this`minResponseTime
      ensures responseTimes == Recent(old(responseTimes) + [responseTime])
      ensures averageResponseTime == Mean(responseTimes)
      ensures maxResponseTime == SeqMax(responseTimes) && minResponseTime == SeqMin(responseTimes)
    {
      var queued := responseTimes + [responseTime];
      responseTimes := queued;
      while |responseTimes| > MaxResponseTimeSamples
        invariant Recent(responseTimes) == Recent(queued)
        decreases |responseTimes|
      {
        responseTimes := responseTimes[1..];
      }
      ghost var window := responseTimes;
      assert window != [];
      if responseTimes != [] {
        RecomputeStatistics();
      }
      assert responseTimes == window;
    }

    /** Average, maximum and minimum of the current (non-empty) window. */
    method RecomputeStatistics()
      requires responseTimes != []
      modifies this`averageResponseTime, this`maxResponseTime, this`minResponseTime
      ensures averageResponseTime == Mean(responseTimes)
      ensures maxResponseTime == SeqMax(responseTimes) && minResponseTime == SeqMin(responseTimes)
    {
      averageResponseTime := Mean(responseTimes);
      maxResponseTime := SeqMax(responseTimes);
      minResponseTime := SeqMin(responseTimes);
    }
  }

  /** After at least one record, the success and failure rates add up to 100. */
  lemma RatesComplement(m: LoaderMetrics)
    requires m.Valid() && m.totalRequests > 0
    ensures m.SuccessRate() + m.FailureRate() == 100.0
  {
    PercentagesComplement(m.successfulRequests, m.failedRequests);
  }

  /**
   * Calling `Reset` twice leaves the same state as calling it once: `once`
   * is the state after the first call.
   */
  method ResetTwice(m: LoaderMetrics) returns (once: MetricsSnapshot)
    modifies m
    ensures IsInitial(once)
    ensures m.Valid() && m.Snapshot() == once
  {
    m.Reset();
    once := m.Snapshot();
    m.Reset();
  }

  /** `RecordRetry(true)`, then twice `RecordRetry(false)`, on fresh metrics. */
  method RetryCountingExample() returns (retried: nat, attempts: nat, total: nat)
    ensures retried == 1 && attempts == 3 && total == 0
  {
    var m := new LoaderMetrics();
    m.RecordRetry(true);
    m.RecordRetry(false);
    m.RecordRetry(false);
    retried, attempts, total := m.retriedRequests, m.totalRetryAttempts, m.totalRequests;
  }

  /** One success then one failure: two requests, each rate 50 percent. */
  method SuccessThenFailureExample(t1: Ticks, t2: Ticks, now: Timestamp)
    returns (total: nat, successRate: real, failureRate: real, histogram: map<int, nat>)
    ensures total == 2 && successRate == 50.0 && failureRate == 50.0
    ensures histogram == map[200 := 1, 500 := 1]
  {
    var m := new LoaderMetrics();
    m.RecordSuccess(200, t1, now);
    m.RecordFailure(500, t2, now);
    total, successRate, failureRate := m.totalRequests, m.SuccessRate(), m.FailureRate();
    histogram := m.statusCodeDistribution;
  }
}
