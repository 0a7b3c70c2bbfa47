/**
 * The SonosBridge of the homestar-sonos adapter: one bridge record per
 * device, whose state is the native device handle it may hold, together with
 * the pure transitions the host framework drives it through.
 *
 * A bridge is either the EXEMPLAR (constructed without a handle, `native`
 * undefined, used only to start discovery), a discovered INSTANCE (holding a
 * handle) or a FORGOTTEN instance (`native` set to null). Each transition
 * returns the new record together with the trace of what it did: intervals
 * set or cleared, its own calls to `pull`, the injected `pulled` sink being
 * called, queue items added and bridges discovered.
 */
module SonosBridge {

  import opened Wrappers
  import Js

  /** The `native` slot: never passed, cleared to null, or a device handle. */
  datatype Native =
    | Undefined
    | Null
    | Handle(uuid: string, name: Js.JsValue)

  /**
   * A bridge. `hasQueue` records whether the command queue object was created;
   * its contents belong to a library outside this model. `timers` counts the
   * poll intervals that are still live.
   */
  datatype Bridge = Bridge(initd: Js.Object, native: Native, hasQueue: bool, timers: nat)

  datatype Event =
    | IntervalSet(delayMs: Option<int>)  // a repeating poll timer was started
    | IntervalCleared                    // a poll timer cancelled itself
    | PullCalled                         // the bridge called its own `pull`
    | Pulled                             // the `pulled` sink was called with no argument
    | Enqueued(id: Js.JsValue)           // an item was added to the command queue
    | Discovered(bridge: Bridge)         // the `discovered` sink was handed a new bridge

  /** The outcome of a transition: the new bridge and what happened, in order. */
  datatype Step = Step(bridge: Bridge, trace: seq<Event>)

  /** The keystore path whose object supplies stored configuration. */
  const StoredConfigPath: string := "bridges/SonosBridge/initd"

  /** The built-in configuration: device number 0, poll every 30 seconds. */
  const Builtins: Js.Object := map["number" := Js.Num(0), "poll" := Js.Num(30)]

  const Manufacturer: string := "http://www.sonos.com/en-ca?r=1"

  /** The `!self.native` guard, negated: the bridge holds a device handle. */
  predicate HasHandle(b: Bridge)
  {
    b.native.Handle?
  }

  /** Reading the keystore: a missing path reads as an empty object. */
  function StoredConfig(keystore: map<string, Js.Object>): Js.Object
  {
    if StoredConfigPath in keystore then keystore[StoredConfigPath] else map[]
  }

  /* --- construction --- */

  /**
   * The constructor: the caller's `initd` is completed from the stored
   * configuration and then from the built-ins; a queue is created only for a
   * bridge that holds a handle.
   */
  function New(initd: Js.Object, keystore: map<string, Js.Object>, native: Native): (b: Bridge)
    ensures forall key :: Js.Get(b.initd, key)
                          == Js.FirstSupplied([initd, StoredConfig(keystore), Builtins], key)
    ensures b.native == native
    ensures b.hasQueue <==> native.Handle?
    ensures b.timers == 0
  {
    assert [initd] + [StoredConfig(keystore), Builtins] == [initd, StoredConfig(keystore), Builtins];
    Bridge(Js.Defaults(initd, [StoredConfig(keystore), Builtins]), native, native.Handle?, 0)
  }

  /**
   * `number` and `poll` take the caller's value when it gives one, else the
   * stored value, else 0 and 30; either way they are never left undefined.
   */
  lemma ConstructionDefaults(initd: Js.Object, keystore: map<string, Js.Object>, native: Native)
    ensures var b := New(initd, keystore, native);
      && Js.Get(b.initd, "number")
         == (if Js.Supplies(initd, "number") then Js.Get(initd, "number")
             else if Js.Supplies(StoredConfig(keystore), "number") then Js.Get(StoredConfig(keystore), "number")
             else Js.Num(0))
      && Js.Get(b.initd, "poll")
         == (if Js.Supplies(initd, "poll") then Js.Get(initd, "poll")
             else if Js.Supplies(StoredConfig(keystore), "poll") then Js.Get(StoredConfig(keystore), "poll")
             else Js.Num(30))
      && Js.Supplies(b.initd, "number") && Js.Supplies(b.initd, "poll")
  {
    assert Js.FirstSupplied([Builtins], "number") == Js.Num(0);
    assert Js.FirstSupplied([Builtins], "poll") == Js.Num(30);
  }

  /**
   * One result of the discovery search started by `discover`: the new device
   * becomes a bridge built from this bridge's `initd`, and is handed to the
   * `discovered` sink. The searching bridge itself is not changed.
   */
  function OnDeviceFound(b: Bridge, keystore: map<string, Js.Object>, uuid: string, name: Js.JsValue): (r: Step)
    ensures r.bridge == b
    ensures |r.trace| == 1 && r.trace[0].Discovered?
    ensures var d := r.trace[0].bridge;
      HasHandle(d) && d.native.uuid == uuid && d.native.name == name && d.hasQueue && d.timers == 0
    ensures forall key :: Js.Supplies(b.initd, key) ==> Js.Get(r.trace[0].bridge.initd, key) == Js.Get(b.initd, key)
  {
    Step(b, [Discovered(New(b.initd, keystore, Handle(uuid, name)))])
  }

  /**
   * A bridge discovered by an exemplar shares the exemplar's configuration:
   * completing the already completed `initd` against the same keystore again
   * changes no value.
   */
  lemma DiscoveredSharesConfig(initd: Js.Object, keystore: map<string, Js.Object>, uuid: string, name: Js.JsValue)
    ensures var e := New(initd, keystore, Undefined);
      Js.SameView(OnDeviceFound(e, keystore, uuid, name).trace[0].bridge.initd, e.initd)
  {
    Js.DefaultsIdempotent(initd, [StoredConfig(keystore), Builtins]);
  }

  /* --- lifecycle --- */

  /**
   * The delay handed to `setInterval`: `poll * 1000` milliseconds. A string
   * poll value is coerced by JavaScript; that coercion is not modelled and the
   * delay is then unknown (`None`), as it is for `undefined` (NaN).
   */
  function DelayMs(poll: Js.JsValue): (r: Option<int>)
    ensures poll.Num? ==> r == Some(poll.n * 1000)
    ensures poll.Bool? ==> r == Some(if poll.b then 1000 else 0)
  {
    match poll
    case Num(n) => Some(n * 1000)
    case Bool(b) => Some(if b then 1000 else 0)
    case Null => Some(0)
    case Undefined => None
    case Str(_) => None
  }

  /**
   * `_setup_polling`: a falsy `poll` starts nothing; otherwise one more
   * repeating timer is live, firing every `poll` seconds.
   */
  function SetupPolling(b: Bridge): (r: Step)
    ensures r.bridge.initd == b.initd && r.bridge.native == b.native && r.bridge.hasQueue == b.hasQueue
    ensures Js.Truthy(Js.Get(b.initd, "poll")) <==> r.bridge.timers == b.timers + 1
    ensures !Js.Truthy(Js.Get(b.initd, "poll")) <==> r == Step(b, [])
    ensures Js.Truthy(Js.Get(b.initd, "poll")) ==> r.trace == [IntervalSet(DelayMs(Js.Get(b.initd, "poll")))]
  {
    var poll := Js.Get(b.initd, "poll");
    if !Js.Truthy(poll) then Step(b, [])
    else Step(b.(timers := b.timers + 1), [IntervalSet(DelayMs(poll))])
  }

  /** `pull`: with or without a handle it reads nothing and emits nothing. */
  function Pull(b: Bridge): (r: Step)
    ensures r.bridge == b && r.trace == []
  {
    // the guard returns early without a handle; with one the body is empty
    Step(b, [])
  }

  /**
   * `connect`: without a handle nothing happens; with one, polling is set up
   * and then the bridge pulls exactly once, as its last action.
   */
  function Connect(b: Bridge): (r: Step)
    ensures !HasHandle(b) ==> r == Step(b, [])
    ensures HasHandle(b) ==> |r.trace| > 0 && r.trace[|r.trace| - 1] == PullCalled
    ensures multiset(r.trace)[PullCalled] == (if HasHandle(b) then 1 else 0)
    ensures multiset(r.trace)[Pulled] == 0
    ensures r.bridge.timers == b.timers + (if HasHandle(b) && Js.Truthy(Js.Get(b.initd, "poll")) then 1 else 0)
    ensures r.bridge.(timers := b.timers) == b
    ensures HasHandle(b) ==> r.trace == SetupPolling(b).trace + [PullCalled]
  {
    if !HasHandle(b) then Step(b, [])
    else
      var s := SetupPolling(b);
      var p := Pull(s.bridge);
      Step(p.bridge, s.trace + [PullCalled] + p.trace)
  }

  /**
   * One firing of a live poll timer: once the handle is gone the timer cancels
   * itself without pulling; otherwise the bridge pulls.
   */
  function Tick(b: Bridge): (r: Step)
    requires b.timers > 0
    ensures !HasHandle(b) ==> r.bridge.timers == b.timers - 1 && r.trace == [IntervalCleared]
    ensures HasHandle(b) ==> r.bridge == b && r.trace == [PullCalled]
    ensures r.bridge.(timers := b.timers) == b
  {
    if !HasHandle(b) then Step(b.(timers := b.timers - 1), [IntervalCleared])
    else
      var p := Pull(b);
      Step(p.bridge, [PullCalled] + p.trace)
  }

  /**
   * `_forget`: a bridge holding a handle drops it (native becomes null) and
   * calls `pulled` once with no argument; any other bridge is left alone.
   */
  function Forget(b: Bridge): (r: Step)
    ensures HasHandle(b) ==> r.bridge.native == Null && r.trace == [Pulled]
    ensures !HasHandle(b) ==> r == Step(b, [])
    ensures r.bridge.(native := b.native) == b
  {
    if !HasHandle(b) then Step(b, [])
    else Step(b.(native := Null), [Pulled])
  }

  /** `disconnect`: the same guard (written twice in the code), then `_forget`. */
  function Disconnect(b: Bridge): (r: Step)
    ensures r == Forget(b)
    ensures HasHandle(b) ==> r.bridge.native == Null && r.trace == [Pulled]
    ensures !HasHandle(b) ==> r == Step(b, [])
    ensures r.bridge.(native := b.native) == b
  {
    if !HasHandle(b) || !HasHandle(b) then Step(b, [])
    else Forget(b)
  }

  /**
   * Forgetting is idempotent: a second `disconnect` or `_forget` emits nothing,
   * so the pair emits exactly one `pulled`, and only if there was a handle.
   */
  lemma DisconnectIdempotent(b: Bridge)
    ensures var first := Disconnect(b);
      && Disconnect(first.bridge) == Step(first.bridge, [])
      && Forget(first.bridge) == Step(first.bridge, [])
      && multiset(first.trace + Disconnect(first.bridge).trace)[Pulled] == (if HasHandle(b) then 1 else 0)
  {
  }

  /**
   * After a disconnect, the next tick of every live timer cancels that timer
   * and does not pull.
   */
  lemma TickAfterDisconnectCancels(b: Bridge)
    requires HasHandle(b) && b.timers > 0
    ensures var d := Disconnect(b).bridge;
      Tick(d).trace == [IntervalCleared] && Tick(d).bridge.timers == b.timers - 1
  {
  }

  /* --- data --- */

  /** What escaped a call: nothing, or a thrown JavaScript error. */
  datatype Completion = Returned | Threw(error: string)

  const PushError: string := "ReferenceError: putd is not defined"

  /**
   * `push` as written: without a handle it returns at once; with one, building
   * the log record reads the undeclared identifier `putd`, which throws before
   * any queue item is added.
   */
  function Push(b: Bridge, pushd: Js.Object): (r: (Step, Completion))
    ensures r.0 == Step(b, [])
    ensures r.1.Threw? <==> HasHandle(b)
  {
    if !HasHandle(b) then (Step(b, []), Returned)
    else (Step(b, []), Threw(PushError))
  }

  /**
   * Every push to a bridge built with a handle, whatever its configuration
   * and the keystore it was built against, throws and enqueues nothing.
   */
  lemma PushWithHandleThrows(uuid: string, name: Js.JsValue, initd: Js.Object,
                             keystore: map<string, Js.Object>, pushd: Js.Object)
    ensures var b := New(initd, keystore, Handle(uuid, name));
      Push(b, pushd) == (Step(b, []), Threw(PushError))
  {
  }

  /**
   * `push` as evidently intended (logging `pushd`): a bridge holding a handle
   * adds exactly one queue item, whose id is `self.light` (never set, so
   * undefined) and whose work only finishes itself; no bridge state changes
   * and nothing is pulled.
   */
  function PushIntended(b: Bridge, pushd: Js.Object): (r: Step)
    ensures r.bridge == b
    ensures HasHandle(b) ==> r.trace == [Enqueued(Js.Undefined)]
    ensures !HasHandle(b) ==> r.trace == []
  {
    if !HasHandle(b) then Step(b, [])
    else Step(b, [Enqueued(Js.Undefined)])
  }

  /** A handle always has a queue to add to when the bridge came from `New`. */
  lemma PushIntendedHasQueue(initd: Js.Object, keystore: map<string, Js.Object>, native: Native, pushd: Js.Object)
    ensures var b := New(initd, keystore, native);
      PushIntended(b, pushd).trace != [] ==> b.hasQueue
  {
  }

  /* --- state --- */

  /** The symbolic value of `_.id.thing_urn.unique(parts...)`: the arguments it was given. */
  datatype Urn = UniqueUrn(parts: seq<Js.JsValue>)

  datatype Meta = Meta(thing: Urn, device: Urn, name: Js.JsValue, manufacturer: string)

  /**
   * `meta`: nothing without a handle; otherwise a thing id built from the
   * device uuid and the configured number, a device id built from the uuid
   * alone, the device name or "Sonos" when that name is falsy, and the
   * manufacturer page.
   */
  function GetMeta(b: Bridge): (r: Option<Meta>)
    ensures r.None? <==> !HasHandle(b)
    ensures r.Some? ==> Js.Truthy(r.value.name) && r.value.manufacturer == Manufacturer
    ensures r.Some? && Js.Truthy(b.native.name) ==> r.value.name == b.native.name
    ensures r.Some? && !Js.Truthy(b.native.name) ==> r.value.name == Js.Str("Sonos")
    ensures r.Some? ==> r.value.thing.parts == [Js.Str("Sonos"), Js.Str(b.native.uuid), Js.Get(b.initd, "number")]
    ensures r.Some? ==> r.value.device.parts == [Js.Str("Sonos"), Js.Str(b.native.uuid)]
  {
    if !HasHandle(b) then None
    else
      var n := b.native;
      Some(Meta(
        UniqueUrn([Js.Str("Sonos"), Js.Str(n.uuid), Js.Get(b.initd, "number")]),
        UniqueUrn([Js.Str("Sonos"), Js.Str(n.uuid)]),
        if Js.Truthy(n.name) then n.name else Js.Str("Sonos"),
        Manufacturer))
  }

  /**
   * Whatever `_.id.thing_urn.unique` computes: bridges with the same uuid and
   * number get the same thing id, and bridges with the same uuid get the same
   * device id whatever their numbers. The helper is handed equal thing
   * arguments exactly when uuid and number agree, and equal device arguments
   * exactly when the uuid agrees; whether it maps different arguments to
   * different ids is the helper's business and is not assumed here.
   */
  lemma MetaIdentity(a: Bridge, b: Bridge)
    requires HasHandle(a) && HasHandle(b)
    ensures a.native.uuid == b.native.uuid && Js.Get(a.initd, "number") == Js.Get(b.initd, "number")
            ==> GetMeta(a).value.thing == GetMeta(b).value.thing
    ensures a.native.uuid == b.native.uuid ==> GetMeta(a).value.device == GetMeta(b).value.device
    ensures GetMeta(a).value.thing.parts == GetMeta(b).value.thing.parts
            <==> a.native.uuid == b.native.uuid && Js.Get(a.initd, "number") == Js.Get(b.initd, "number")
    ensures GetMeta(a).value.device.parts == GetMeta(b).value.device.parts <==> a.native.uuid == b.native.uuid
    ensures |GetMeta(a).value.thing.parts| == 3 && |GetMeta(b).value.device.parts| == 2
  {
    var ta, tb := GetMeta(a).value.thing.parts, GetMeta(b).value.thing.parts;
    if ta == tb {
      assert ta[1] == tb[1] && ta[2] == tb[2];
    }
    var da, db := GetMeta(a).value.device.parts, GetMeta(b).value.device.parts;
    if da == db {
      assert da[1] == db[1];
    }
  }

  /** `reachable` as written: `native !== null`. */
  predicate Reachable(b: Bridge)
  {
    !b.native.Null?
  }

  /**
   * `reachable` as evidently intended: the same truthiness test that `connect`,
   * `push`, `pull`, `meta`, `_forget` and `disconnect` guard on.
   */
  predicate ReachableIntended(b: Bridge)
  {
    HasHandle(b)
  }

  /**
   * As written, `reachable` holds for a bridge with a handle and fails once it
   * is forgotten, but it also holds for the exemplar, whose `native` is
   * undefined and which every guarded operation treats as having no handle.
   */
  lemma ReachableAsWritten(initd: Js.Object, keystore: map<string, Js.Object>, uuid: string, name: Js.JsValue,
                           pushd: Js.Object)
    ensures Reachable(New(initd, keystore, Handle(uuid, name)))
    ensures !Reachable(Forget(New(initd, keystore, Handle(uuid, name))).bridge)
    ensures var e := New(initd, keystore, Undefined);
      && Reachable(e)
      && Connect(e) == Step(e, [])
      && Pull(e) == Step(e, [])
      && Push(e, pushd) == (Step(e, []), Returned)
      && GetMeta(e) == None
      && Disconnect(e) == Step(e, [])
  {
  }

  /**
   * The intended `reachable` agrees with every guard: it holds exactly when
   * `meta` answers, when `connect` acts and when `disconnect` emits `pulled`.
   */
  lemma ReachableIntendedMatchesGuards(b: Bridge, pushd: Js.Object)
    ensures ReachableIntended(b) <==> GetMeta(b).Some?
    ensures ReachableIntended(b) <==> Connect(b).trace != []
    ensures ReachableIntended(b) <==> Disconnect(b).trace == [Pulled]
    ensures ReachableIntended(b) <==> PushIntended(b, pushd).trace != []
    ensures ReachableIntended(b) ==> Reachable(b)
  {
  }
}
