# SonosBridge handle lifecycle, modelled in Dafny

This project models the `SonosBridge` of the homestar-sonos adapter for the
IOTDB home-automation framework. It covers one bridge object and the native
device handle that the bridge may hold. The handle is in one of three states:

- the **exemplar** is constructed without a handle, so its `native` is
  `undefined`; it exists only to start discovery;
- a **discovered instance** holds a handle (a uuid and a display name);
- a **forgotten instance** has had `native` set to `null` by `_forget`.

The operations `connect`, `push`, `pull`, `meta`, `_forget` and `disconnect`
each first check whether the bridge holds a handle (a truthiness test);
`discover` and `configure` have no guard, and `reachable` uses a different
test (see Findings). In the
model the bridge is an immutable record (`SonosBridge.Bridge`). Each operation
is a pure function that returns the new record together with a trace of what
it did (`SonosBridge.Step`). The trace can record these events:

- a poll interval being set or cleared;
- the bridge calling its own `pull`;
- the injected `pulled` sink being called with no argument;
- an item being added to the command queue;
- a new bridge being handed to the `discovered` sink.

Poll timers are counted, not timed. A `TickCall` is one firing of a live
timer. `Lifecycle.Run` drives a bridge through any sequence of calls, and the
lemmas in `Lifecycle` state what holds for every such sequence.

Files:

- `wrappers.dfy` holds `Option`.
- `js_values.dfy` holds module `Js`: JavaScript values, truthiness, property
  reads and `_.defaults`.
- `sonos_bridge.dfy` holds module `SonosBridge`: the record, the operations,
  `meta` and `reachable`.
- `lifecycle.dfy` holds module `Lifecycle`: whole runs of calls.

This revision of the adapter has no batch push, no device reads in `pull`
and no translation of volume, mute or mode into device calls: `pull` is
empty, and the code after `push`'s guard would build one queue item whose
work finishes itself, but it throws first (see Findings).
`reachable` tests `native !== null`, which also holds when `native` is
`undefined`; see Findings.

## Model

| member | source | states |
|---|---|---|
| `Js.Defaults` | SonosBridge.js:51-56 | The merged configuration reads, for every key, the value of the first layer that gives it a non-undefined value. The caller's object comes first, then each source in order. |
| `Js.DefaultsIdempotent` | SonosBridge.js:51-56 | Merging an already merged configuration again with the same sources changes no property value. |
| `SonosBridge.New` | SonosBridge.js:48-63 | The constructor layers caller `initd`, then stored config, then built-ins. It keeps the given `native`. A queue exists exactly when a handle was given. No timer is live yet. |
| `SonosBridge.ConstructionDefaults` | SonosBridge.js:51-56 | `number` is the caller's value if given, else the stored value, else 0; `poll` likewise, with default 30. Both are always defined after construction. |
| `SonosBridge.OnDeviceFound` | SonosBridge.js:83-85 | Each search result yields exactly one `discovered` event. The new bridge holds the found handle and has a queue and no timers, and every configuration key the searching bridge supplies keeps its value. The searching bridge is unchanged. |
| `SonosBridge.DiscoveredSharesConfig` | SonosBridge.js:83-85 | A bridge discovered by the exemplar has the same configuration values as the exemplar, provided the keystore is unchanged. |
| `SonosBridge.SetupPolling` | SonosBridge.js:102-116 | A falsy `poll` starts no timer and changes nothing. A truthy one adds exactly one live timer and records exactly one interval, whose delay is `poll * 1000` milliseconds for a numeric `poll` (1000 for `true`). |
| `SonosBridge.Pull` | SonosBridge.js:176-181 | `pull` changes nothing and emits nothing, with or without a handle. |
| `SonosBridge.Connect` | SonosBridge.js:92-100 | Without a handle, connect does nothing. With one, its trace is exactly what polling setup records (one interval when `poll` is truthy, else nothing) followed by one call to `pull`, and it adds a timer exactly when `poll` is truthy. It never emits `pulled`, and nothing else in the bridge changes. |
| `SonosBridge.Tick` | SonosBridge.js:108-114 | Once the handle is gone, a tick cancels its own timer and does not pull. While the handle is held, a tick pulls and changes nothing. |
| `SonosBridge.Forget` | SonosBridge.js:118-130 | With a handle, `_forget` sets `native` to null and emits exactly one payload-less `pulled`. Without a handle it is a no-op. Nothing else in the bridge changes. |
| `SonosBridge.Disconnect` | SonosBridge.js:136-143 | `disconnect` has the same effect as `_forget`, under the same guard. |
| `SonosBridge.DisconnectIdempotent` | SonosBridge.js:118-143 | A second `disconnect` or `_forget` emits nothing. A pair of disconnects emits `pulled` once if there was a handle and never otherwise. |
| `SonosBridge.TickAfterDisconnectCancels` | SonosBridge.js:108-112 | After a disconnect, the next tick of a live timer cancels that timer. |
| `SonosBridge.Push` | SonosBridge.js:151-169 | As written, `push` without a handle returns quietly. With a handle it throws, and in both cases it changes nothing and enqueues nothing. |
| `SonosBridge.PushWithHandleThrows` | SonosBridge.js:157-160 | Every push to a bridge built with a handle, for any configuration, keystore and payload, throws a ReferenceError before anything is enqueued. |
| `SonosBridge.PushIntended` | SonosBridge.js:151-169 | Corrected `push`: with a handle it adds exactly one queue item whose id is undefined. Without a handle it adds nothing. It never changes the bridge. |
| `SonosBridge.PushIntendedHasQueue` | SonosBridge.js:60-62 | Whenever the corrected `push` enqueues, the constructed bridge has a queue. |
| `SonosBridge.GetMeta` | SonosBridge.js:199-211 | `meta` returns nothing exactly when there is no handle. Otherwise: the thing id comes from ("Sonos", uuid, number); the device id comes from ("Sonos", uuid); the name is the device name when truthy and "Sonos" otherwise, so it is always truthy; the manufacturer is the fixed page. |
| `SonosBridge.MetaIdentity` | SonosBridge.js:206-207 | Bridges with the same uuid and number get the same thing id; bridges with the same uuid get the same device id whatever their numbers. The id helper receives equal thing arguments iff uuid and number agree, and equal device arguments iff the uuid agrees; thing ids come from three arguments, device ids from two. |
| `SonosBridge.ReachableAsWritten` | SonosBridge.js:219-221 | As written, `reachable` holds with a handle and fails after forgetting. It also holds for the exemplar, although connect, pull, push, meta and disconnect all treat the exemplar as having no handle. |
| `SonosBridge.ReachableIntendedMatchesGuards` | SonosBridge.js:219-221 | The corrected `reachable` holds exactly when `meta` answers, when `connect` acts, when `disconnect` emits `pulled`, and when `push` enqueues, for any push payload. It implies the as-written test. |
| `Lifecycle.Apply` | SonosBridge.js:92-181 | No single call changes the configuration or the queue's existence. No call gives a handle back: `native` is kept, or a held handle becomes null. |
| `Lifecycle.PushAsWrittenActsLikePull` | SonosBridge.js:151-169 | The as-written `push` has the same effect as a framework `pull`: no state change and no event. Hence every run lemma also covers pushes as written. |
| `Lifecycle.RunKeepsIdentity` | SonosBridge.js:57-62 | Over any run, the configuration and queue existence are fixed. A handle is only ever kept or cleared to null, never reinstated. |
| `Lifecycle.QueueInvariant` | SonosBridge.js:60-62 | After construction and any run, a bridge holding a handle has a queue and the exemplar never has one. |
| `Lifecycle.RunEmitsPulledOnce` | SonosBridge.js:118-143 | Over any run, `pulled` is emitted exactly once if the run took the handle away, and zero times otherwise. |
| `Lifecycle.NoHandleOnlyCancels` | SonosBridge.js:92-116 | A bridge without a handle never pulls, emits, starts timers or enqueues. Each event of its run is one leftover timer cancelling itself. |
| `Lifecycle.ExemplarReachableButInert` | SonosBridge.js:219-221 | The exemplar is unchanged and silent under every run of calls, yet `reachable` as written reports it reachable. |
| `Lifecycle.DisconnectEndsPolling` | SonosBridge.js:108-115 | After a disconnect, one more firing of each live timer leaves no timer. Those firings only cancel and never pull. |
| `Lifecycle.TicksWithHandlePull` | SonosBridge.js:108-115 | While the handle is held, every tick pulls and no timer is ever cancelled. |

## Left out

- Network discovery through `sonos.search` (SonosBridge.js:83-85) is foreign I/O. Each search result is an input to `SonosBridge.OnDeviceFound`.
- Wall-clock timing of `setInterval` and `clearInterval` is left out. Only the count of live timers and a discrete tick step remain.
- The command queue from `_.queue` comes from a library that is not part of this model. Only whether the queue exists is modelled, plus the corrected push's add. Order, single-flight execution and `finished` are not modelled.
- The `_.id.thing_urn.unique` helper is not part of this model. Its result is represented symbolically by the arguments it receives (`SonosBridge.Urn`).
- The keystore is an input map from path to object. A missing path reads as an empty object.
- Logging calls are left out. They have no effect on bridge state, except that building the `push` log record throws.
- The `configure` hook does nothing and is not modelled.
- The `connectd` argument of `connect` is never read, so it is not modelled.
- `self.stated` is set to `{}` and never read or written again, so it is not modelled.
- The injected `discovered` and `pulled` placeholders, which throw until the framework replaces them, are modelled as event sinks.
- `models/SonosPlay.js` is a declarative schema with no logic. `samples/wrapper.js` is demo wiring with console output.
- JavaScript numbers are modelled as integers. NaN and fractional values are not modelled.
- Calling the constructor with an `undefined` `initd` is not modelled. Configuration is always an object.
- `SonosBridge.SetupPolling`: a string `poll` is coerced to a number by JavaScript. That coercion is not modelled, and the delay is then recorded as unknown.
- `SonosBridge.DiscoveredSharesConfig`: in the code, a discovered bridge shares and mutates the exemplar's `initd` object. The model copies the values. The lemma shows the values agree when the keystore has not changed. A keystore that changes between discoveries is not modelled.
- `Lifecycle.Apply`: a tick with no live timer is treated as nothing happening. Pushes in a run follow the corrected `push`, because it is the only one with an effect a run can observe; the as-written `push` acts like a `PullCall` (`Lifecycle.PushAsWrittenActsLikePull`), so the run lemmas cover it too.
- `SonosBridge.MetaIdentity`: the id helper `_.id.thing_urn.unique` is not assumed to be injective (it may, for example, give `number` 1 and "1" the same id), so the model promises only that equal arguments give equal ids, not that different arguments give different ids.

## Findings

| source | as written | input that shows it | evidently intended | confidence | as-written member | corrected member |
|---|---|---|---|---|---|---|
| SonosBridge.js:219-221 | `reachable` tests `native !== null`, so an `undefined` handle counts as reachable | the exemplar, built with no handle: `reachable()` is true, while `connect`, `pull`, `push`, `meta` and `disconnect` all do nothing | reachability agrees with the truthiness guard used by every other operation | medium, not executed | `Lifecycle.ExemplarReachableButInert` | `SonosBridge.ReachableIntendedMatchesGuards` |
| SonosBridge.js:157-160 | the log record reads the undeclared identifier `putd` | any push to a bridge that holds a handle throws a ReferenceError before the queue item is added | log `pushd` and add the one queue item | high, not executed | `SonosBridge.PushWithHandleThrows` | `SonosBridge.PushIntended` |
