/**
 * Whole lifecycles of one bridge: the host framework (and the bridge's own
 * poll timers) drive it through any sequence of calls, and the lemmas here
 * state what holds however that sequence is chosen.
 */
module Lifecycle {

  import Js
  import opened SonosBridge

  /** One thing that can happen to a bridge after it is constructed. */
  datatype Call =
    | ConnectCall
    | TickCall                      // a live poll timer fires
    | DisconnectCall
    | ForgetCall
    | PushCall(pushd: Js.Object)
    | PullCall                      // the framework asks for a pull

  /**
   * The effect of one call. A tick arrives only from a live timer, so with no
   * live timer it is read as nothing happening. Pushes follow the corrected
   * `push` (see `SonosBridge.PushIntended`), the one that can add to the
   * queue; the as-written one has no effect a run could observe (see
   * `PushAsWrittenActsLikePull`).
   */
  function Apply(b: Bridge, c: Call): (r: Step)
    ensures r.bridge.initd == b.initd && r.bridge.hasQueue == b.hasQueue
    ensures r.bridge.native == b.native || (HasHandle(b) && r.bridge.native == Null)
  {
    match c
    case ConnectCall => Connect(b)
    case TickCall => if b.timers == 0 then Step(b, []) else Tick(b)
    case DisconnectCall => Disconnect(b)
    case ForgetCall => Forget(b)
    case PushCall(pushd) => PushIntended(b, pushd)
    case PullCall => Pull(b)
  }

  /**
   * The as-written `push` changes nothing and emits nothing, exactly like a
   * framework `pull`; so every run lemma below also holds when pushes follow
   * the code as written (read each push as a `PullCall`).
   */
  lemma PushAsWrittenActsLikePull(b: Bridge, pushd: Js.Object)
    ensures Push(b, pushd).0 == Apply(b, PullCall)
    ensures Apply(b, PushCall(pushd)).bridge == Push(b, pushd).0.bridge
  {
  }

  /** The calls applied in order; the traces are concatenated. */
  function Run(b: Bridge, calls: seq<Call>): Step
    decreases |calls|
  {
    if |calls| == 0 then Step(b, [])
    else
      var first := Apply(b, calls[0]);
      var rest := Run(first.bridge, calls[1..]);
      Step(rest.bridge, first.trace + rest.trace)
  }

  /**
   * A run never changes the configuration or creates or drops the queue, and
   * never reinstates a handle: the handle is kept or cleared to null, and a
   * bridge without a handle keeps its `native` as it was.
   */
  lemma {:induction false} RunKeepsIdentity(b: Bridge, calls: seq<Call>)
    ensures var r := Run(b, calls).bridge;
      && r.initd == b.initd
      && r.hasQueue == b.hasQueue
      && (r.native == b.native || (HasHandle(b) && r.native == Null))
    decreases |calls|
  {
    if |calls| > 0 {
      RunKeepsIdentity(Apply(b, calls[0]).bridge, calls[1..]);
    }
  }

  /** The bridge has a queue whenever it holds a handle, and the exemplar never has one. */
  ghost predicate QueueMatchesHandle(b: Bridge)
  {
    (b.native.Handle? ==> b.hasQueue) && (b.native.Undefined? ==> !b.hasQueue)
  }

  /** Construction establishes the queue invariant and every run preserves it. */
  lemma QueueInvariant(initd: Js.Object, keystore: map<string, Js.Object>, native: Native, calls: seq<Call>)
    ensures QueueMatchesHandle(New(initd, keystore, native))
    ensures QueueMatchesHandle(Run(New(initd, keystore, native), calls).bridge)
  {
    RunKeepsIdentity(New(initd, keystore, native), calls);
  }

  /**
   * However the calls are chosen, `pulled` is emitted exactly once if the run
   * took the handle away and never otherwise.
   */
  lemma {:induction false} RunEmitsPulledOnce(b: Bridge, calls: seq<Call>)
    ensures var r := Run(b, calls);
      multiset(r.trace)[Pulled] == (if HasHandle(b) && !HasHandle(r.bridge) then 1 else 0)
    decreases |calls|
  {
    if |calls| > 0 {
      var first := Apply(b, calls[0]);
      RunEmitsPulledOnce(first.bridge, calls[1..]);
      RunKeepsIdentity(first.bridge, calls[1..]);
      match calls[0]
      case ConnectCall =>
      case TickCall =>
      case DisconnectCall =>
      case ForgetCall =>
      case PushCall(_) =>
      case PullCall =>
    }
  }

  /**
   * A bridge without a handle can only watch its leftover timers cancel
   * themselves: it never pulls, emits, starts a timer or enqueues, and each
   * event of the run is one timer going away.
   */
  lemma {:induction false} NoHandleOnlyCancels(b: Bridge, calls: seq<Call>)
    requires !HasHandle(b)
    ensures var r := Run(b, calls);
      && r.bridge.(timers := b.timers) == b
      && r.bridge.timers + |r.trace| == b.timers
      && forall i :: 0 <= i < |r.trace| ==> r.trace[i] == IntervalCleared
    decreases |calls|
  {
    if |calls| > 0 {
      NoHandleOnlyCancels(Apply(b, calls[0]).bridge, calls[1..]);
    }
  }

  /**
   * The exemplar is inert under every run (nothing changes, nothing is
   * emitted), yet `reachable` as written reports it reachable.
   */
  lemma ExemplarReachableButInert(initd: Js.Object, keystore: map<string, Js.Object>, calls: seq<Call>)
    ensures var e := New(initd, keystore, Undefined);
      && Reachable(e)
      && !ReachableIntended(e)
      && Run(e, calls) == Step(e, [])
  {
    var e := New(initd, keystore, Undefined);
    NoHandleOnlyCancels(e, calls);
  }

  /**
   * After a disconnect, once every live timer has fired one more time no timer
   * is left; those firings pull nothing and only cancel.
   */
  lemma {:induction false} DisconnectEndsPolling(b: Bridge)
    requires HasHandle(b)
    ensures var d := Disconnect(b).bridge;
      var r := Run(d, seq(b.timers, _ => TickCall));
      && r.bridge.timers == 0
      && r.trace == seq(b.timers, _ => IntervalCleared)
  {
    var d := Disconnect(b).bridge;
    DrainTicks(d, b.timers);
  }

  /** Ticking a handle-less bridge once per live timer cancels them all. */
  lemma {:induction false} DrainTicks(d: Bridge, n: nat)
    requires !HasHandle(d) && d.timers == n
    ensures Run(d, seq(n, _ => TickCall)).bridge.timers == 0
    ensures Run(d, seq(n, _ => TickCall)).trace == seq(n, _ => IntervalCleared)
    decreases n
  {
    if n > 0 {
      var t := Tick(d);
      assert seq(n, _ => TickCall)[1..] == seq(n - 1, _ => TickCall);
      DrainTicks(t.bridge, n - 1);
      assert [IntervalCleared] + seq(n - 1, _ => IntervalCleared) == seq(n, _ => IntervalCleared);
    }
  }

  /**
   * With a handle, every tick pulls: a connected bridge's timers keep calling
   * `pull` and never cancel while the handle is held.
   */
  lemma {:induction false} TicksWithHandlePull(b: Bridge, n: nat)
    requires HasHandle(b) && b.timers > 0
    ensures Run(b, seq(n, _ => TickCall)) == Step(b, seq(n, _ => PullCalled))
    decreases n
  {
    if n > 0 {
      assert seq(n, _ => TickCall)[1..] == seq(n - 1, _ => TickCall);
      TicksWithHandlePull(b, n - 1);
      assert [PullCalled] + seq(n - 1, _ => PullCalled) == seq(n, _ => PullCalled);
    }
  }
}
