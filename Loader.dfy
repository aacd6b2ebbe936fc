/**
 * The loading-indicator service `LoaderService`: a counter of pending
 * operations, shown while it is positive, and an `OnChange` event raised
 * whenever the counter changes.
 */
module Loader {
  import opened Base

  /** The operations of the service; `Show` is `Increment` and `Close` is `Decrement`. */
  datatype LoaderOp = Increment | Decrement | Reset

  /**
   * The counter `_requestCount`, and for every `OnChange` raised so far the
   * value of `IsLoading` its subscribers observe, oldest first.
   */
  datatype LoaderState = LoaderState(count: Int32, notified: seq<bool>)

  /** A new service: no pending operation, no event raised. */
  const Initial: LoaderState := LoaderState(0, [])

  /** `IsLoading`: at least one operation is pending. */
  predicate Loading(s: LoaderState) {
    s.count > 0
  }

  /**
   * One operation. `Increment` adds one (wrapping like `Interlocked.Increment`
   * on a 32-bit `int`) and notifies; `Decrement` subtracts one and notifies
   * only when the counter is positive, and is otherwise a silent no-op;
   * `Reset` sets the counter to 0 and notifies.
   */
  function Step(s: LoaderState, op: LoaderOp): (r: LoaderState)
    ensures op == Increment && s.count < Int32Max ==> r.count == s.count + 1
    ensures op == Decrement && s.count > 0 ==> r.count == s.count - 1
    ensures op == Decrement && s.count <= 0 ==> r == s
    ensures op == Reset ==> r.count == 0
    ensures r.notified == if op == Decrement && s.count <= 0 then s.notified else s.notified + [Loading(r)]
    ensures 0 <= s.count < Int32Max ==> 0 <= r.count
  {
    match op
    case Increment =>
      var c := WrappingIncrement(s.count);
      LoaderState(c, s.notified + [c > 0])
    case Decrement =>
      if s.count > 0 then LoaderState(s.count - 1, s.notified + [s.count - 1 > 0]) else s
    case Reset =>
      LoaderState(0, s.notified + [false])
  }

  /**
   * The state after the operations `ops`, applied in order from `s`. Events
   * already raised stay as they were, and each operation raises at most one.
   */
  function Run(s: LoaderState, ops: seq<LoaderOp>): (r: LoaderState)
    ensures |s.notified| <= |r.notified| <= |s.notified| + |ops|
    ensures r.notified[..|s.notified|] == s.notified
    decreases |ops|
  {
    if ops == [] then s else Step(Run(s, ops[..|ops| - 1]), ops[|ops| - 1])
  }

  /** Running two batches one after the other is running their concatenation. */
  lemma {:induction false} RunAppend(s: LoaderState, a: seq<LoaderOp>, b: seq<LoaderOp>)
    ensures Run(s, a + b) == Run(Run(s, a), b)
    decreases |b|
  {
    if b == [] {
      assert a + b == a;
    } else {
      assert (a + b)[..|a + b| - 1] == a + b[..|b| - 1];
      assert (a + b)[|a + b| - 1] == b[|b| - 1];
      RunAppend(s, a, b[..|b| - 1]);
    }
  }

  /**
   * The counter never goes below zero and grows by at most one per
   * operation, as long as fewer than `int.MaxValue` operations can be
   * pending (so that `Increment` never wraps).
   */
  lemma {:induction false} RunBounds(s: LoaderState, ops: seq<LoaderOp>)
    requires 0 <= s.count && s.count + |ops| <= Int32Max
    ensures 0 <= Run(s, ops).count <= s.count + |ops|
    decreases |ops|
  {
    if ops != [] {
      RunBounds(s, ops[..|ops| - 1]);
    }
  }

  /** `k` copies of `op`. */
  function Repeat(op: LoaderOp, k: nat): (r: seq<LoaderOp>)
    ensures |r| == k && forall i :: 0 <= i < k ==> r[i] == op
  {
    if k == 0 then [] else Repeat(op, k - 1) + [op]
  }

  /** `k` calls of `Show` raise the counter by exactly `k` when it cannot wrap. */
  lemma {:induction false} ShowMany(s: LoaderState, k: nat)
    requires 0 <= s.count && s.count + k <= Int32Max
    ensures Run(s, Repeat(Increment, k)).count == s.count + k
  {
    if k > 0 {
      assert Repeat(Increment, k)[..k - 1] == Repeat(Increment, k - 1);
      ShowMany(s, k - 1);
    }
  }

  /** `k` calls of `Close` lower the counter by `k`, but never below zero. */
  lemma {:induction false} CloseMany(s: LoaderState, k: nat)
    requires 0 <= s.count
    ensures Run(s, Repeat(Decrement, k)).count == if s.count >= k then s.count - k else 0
  {
    if k > 0 {
      assert Repeat(Decrement, k)[..k - 1] == Repeat(Decrement, k - 1);
      CloseMany(s, k - 1);
    }
  }

  /** `k` calls of `Show` then `j <= k` calls of `Close` leave `k - j` more pending. */
  lemma ShowThenClose(s: LoaderState, k: nat, j: nat)
    requires 0 <= s.count && s.count + k <= Int32Max && j <= k
    ensures Run(s, Repeat(Increment, k) + Repeat(Decrement, j)).count == s.count + k - j
  {
    RunAppend(s, Repeat(Increment, k), Repeat(Decrement, j));
    ShowMany(s, k);
    CloseMany(Run(s, Repeat(Increment, k)), j);
  }

  /**
   * `k` nested `Show`/`Close` pairs leave the counter where it was, and the
   * loader stays shown until the last of them has closed.
   */
  lemma NestedShowClose(s: LoaderState, k: nat)
    requires 0 <= s.count && s.count + k <= Int32Max
    ensures Run(s, Repeat(Increment, k) + Repeat(Decrement, k)).count == s.count
    ensures forall j :: 0 <= j < k ==> Loading(Run(s, Repeat(Increment, k) + Repeat(Decrement, j)))
  {
    ShowThenClose(s, k, k);
    forall j | 0 <= j < k
      ensures Loading(Run(s, Repeat(Increment, k) + Repeat(Decrement, j)))
    {
      ShowThenClose(s, k, j);
    }
  }

  /** The usage example of `Increment`: 1, 2, 1 pending, then 0 and the loader hidden. */
  lemma IncrementExample()
    ensures Run(Initial, [Increment, Increment, Decrement]).count == 1
    ensures Loading(Run(Initial, [Increment, Increment, Decrement]))
    ensures Run(Initial, [Increment, Increment, Decrement, Decrement]).count == 0
    ensures Run(Initial, [Increment, Increment, Decrement, Decrement]).notified == [true, true, true, false]
  {
    assert [Increment, Increment, Decrement, Decrement][..3] == [Increment, Increment, Decrement];
    assert [Increment, Increment, Decrement][..2] == [Increment, Increment];
    assert [Increment, Increment][..1] == [Increment];
  }

  /** `Reset` hides the loader whatever is pending, and a later `Close` changes nothing. */
  lemma ResetThenClose(s: LoaderState)
    ensures Run(s, [Reset]).count == 0 && !Loading(Run(s, [Reset]))
    ensures Run(s, [Reset, Decrement]) == Run(s, [Reset])
  {
  }

  /** `int.MaxValue` pending operations plus one wrap the counter, hiding the loader. */
  lemma IncrementWraps(s: LoaderState)
    requires s.count == Int32Max
    ensures Step(s, Increment).count == Int32Min && !Loading(Step(s, Increment))
  {
  }

  class LoaderService {
    /** `_requestCount`. */
    var requestCount: Int32
    /** The `IsLoading` value observed by each `OnChange` raised so far. */
    ghost var notified: seq<bool>

    ghost function State(): LoaderState
      reads this
    {
      LoaderState(requestCount, notified)
    }

    constructor ()
      ensures State() == Initial
    {
      requestCount := 0;
      notified := [];
    }

    /** `IsLoading`. */
    function IsLoading(): (r: bool)
      reads this
      ensures r == Loading(State())
    {
      requestCount > 0
    }

    /** `Show`: the same as `Increment`. */
    method Show()
      modifies this
      ensures State() == Step(old(State()), LoaderOp.Increment)
    {
      Increment();
    }

    /** `Close`: the same as `Decrement`. */
    method Close()
      modifies this
      ensures State() == Step(old(State()), LoaderOp.Decrement)
    {
      Decrement();
    }

    /** `Increment`: one more pending operation, then `OnChange`. */
    method Increment()
      modifies this
      ensures State() == Step(old(State()), LoaderOp.Increment)
    {
      requestCount := WrappingIncrement(requestCount);
      notified := notified + [IsLoading()];
    }

    /** `Decrement`: one fewer pending operation and `OnChange`, only while some is pending. */
    method Decrement()
      modifies this
      ensures State() == Step(old(State()), LoaderOp.Decrement)
    {
      if requestCount > 0 {
        requestCount := requestCount - 1;
        notified := notified + [IsLoading()];
      }
    }

    /** `Reset`: no pending operation, then `OnChange`. */
    method Reset()
      modifies this
      ensures State() == Step(old(State()), LoaderOp.Reset)
    {
      requestCount := 0;
      notified := notified + [IsLoading()];
    }
  }
}
