# electron-buff XPC broker and package-info helper, modelled in Dafny

This project models the core of electron-buff's cross-process call layer ("XPC")
and its package-info helper:

- **The main-process broker** (`dist/xpc/main/index.js`). `XpcCenter` keeps a
  registry from handle name to owning webContents id (0 = the main process) and a
  table of pending `XpcTask`s. `XpcMain` keeps the main process's own handlers.
  `exec` either returns null (unrouted), runs a local handler, returns null
  (target gone), or forwards the call to the owning worker and blocks on the
  task's semaphore until the `__xpc_finish__` message with the same id arrives.
  Module `Broker` is the state machine; `exec` is cut at its one suspension point
  into `ExecStart`, `Finish` (the finish listener) and `ExecResume`. Class
  `XpcMainProcess.XpcCenter` holds the same tables as fields and updates them in
  place; each method is tied to the `Broker` transition it performs.
- **The worker agent** (`dist/xpc/preload/index.js`, and its ESM build
  `index.mjs`). It keeps its own `r-`-prefixed id counter and handler table,
  announces handles, answers invocations with exactly one finish message per
  listener, and sends exec requests. Module `Agent` is the state machine and class
  `XpcPreload.XpcRenderer` is the in-place form. The ipcRenderer side is an outbox
  and a listener count per channel.
- **Package info** (`src/packageHelper/main/package.helper.ts` and its two builds
  under `dist/packageHelper/main/`). `pickFields` projects the parsed
  `package.json` onto eight allowed keys, with `??` defaults. Over calls that do
  not overlap, `getPackageInfo` caches the first successful result. Module
  `PackageHelper`.

Ids are `prefix-n` in radix 36 (`XpcIds`). The central invariant `Broker.Valid`
says every pending key is an id the counter has already produced, and that each
key names its own task. It makes every fresh id new (`Broker.NextIdFresh`).
From it follow the round trip of one forwarded call, completions arriving out of
order, and the end-to-end lemmas in `XpcEndToEnd`.

The builds `dist/xpc/preload/index.mjs`, `dist/packageHelper/main/index.js` and
`dist/packageHelper/main/index.mjs` hold the same code as the files they are
built from. Each component is modelled once. The table cites each copy for some
of the members.

Two behaviours of the code are worth stating up front:

- `removeHandle` also removes every listener on the channel
  (dist/xpc/preload/index.js:42). A forwarded call to a removed name therefore
  gets no finish message, and its caller stays blocked. See
  `XpcEndToEnd.RemovedHandleLeavesCallerBlocked`.
- On the local path, `exec` returns the handler's value as it is, `undefined`
  included (dist/xpc/main/index.js:147). Only the forwarded path applies
  `?? null` (:161; `Broker.ExecStart`, `Broker.ExecResume`).

## Model

| member | source | states |
|---|---|---|
| `Values.Coalesce` | src/packageHelper/main/package.helper.ts:36 | `v ?? fallback` keeps a non-nullish `v` and replaces a null or undefined `v` by `fallback`, so it is never nullish when the fallback is not |
| `Values.CoalesceKeepsFalsy` | dist/packageHelper/main/index.js:36 | `??` keeps the falsy values `""`, `0` and `false` |
| `XpcIds.Base36` | dist/xpc/main/index.js:40 | `n.toString(36)` is non-empty, uses only radix-36 digits, and has no leading zero |
| `XpcIds.ParseBase36OfBase36` | dist/xpc/main/index.js:39-41 | reading the radix-36 rendering back gives the counter value |
| `XpcIds.Base36Injective` | dist/xpc/main/index.js:40 | distinct counter values render to distinct numerals, and equal ones to equal numerals |
| `XpcIds.XpcId` | dist/xpc/main/index.js:39-41 | a coordinator id is the prefix, a dash, and a non-empty run of radix-36 digits. `XpcIdInjective` proves distinct counters give distinct ids |
| `XpcIds.RendererId` | dist/xpc/preload/index.js:10-12 | a worker id is `r-`, the prefix, a dash, and a non-empty run of radix-36 digits. `RendererIdInjective` proves distinct counters give distinct ids |
| `XpcIds.XpcIdInjective` | dist/xpc/main/index.js:37-41 | with one prefix, two ids are equal exactly when their counter values are, so no id repeats in a process |
| `XpcIds.RendererIdInjective` | dist/xpc/preload/index.js:8-12 | worker ids `r-prefix-n` are equal exactly when their counter values are |
| `XpcPayloads.NewTask` | dist/xpc/main/index.js:8-16 | a task copies id, handleName and params. Its `ret` is the payload's `ret` when that is not nullish, and null when it is null or missing. The semaphore starts taken |
| `XpcPayloads.Unblock` | dist/xpc/main/index.js:22-24 | unblock releases the task and leaves all four payload fields unchanged |
| `XpcPayloads.ToPayload` | dist/xpc/main/index.js:26-33 | the plain record carries the task's id, handleName, params and ret, and drops the semaphore. `ToPayloadOfNewTask` relates it to `new XpcTask` |
| `XpcPayloads.ToPayloadOfNewTask` | dist/xpc/main/index.js:26-33 | `toPayload` of a new task gives back the payload it was built from, with `ret` normalised by `?? null` |
| `Broker.Init` | dist/xpc/main/index.js:110-115 | the broker starts with an empty registry, no pending task and the counter at 0 |
| `Broker.NextIdFresh` | dist/xpc/main/index.js:156-157 | under the invariant, the next generated id was never issued and is not a pending key |
| `Broker.Register` | dist/xpc/main/index.js:124 | `registry.set(name, owner)`: the name now maps to the owner, it is the only key that may be new, and nothing but the registry changes. `RegisterLastWriteWins` states the upsert laws |
| `Broker.OnRegister` | dist/xpc/main/index.js:164-166 | the register listener makes the sender the owner of the name, leaving tasks, messages and the counter alone |
| `Broker.RegisterMainHandler` | dist/xpc/main/index.js:123-125 | the name is owned by the main process (0), and handlers, tasks and the counter are unchanged |
| `Broker.Handle` | dist/xpc/main/index.js:85-88 | after `xpcMain.handle`, getHandler finds the new handler, the name is owned by the main process, and the handler table gains only that name. `HandleRoutesLocally` adds the frame |
| `Broker.GetHandler` | dist/xpc/main/index.js:92-94 | getHandler finds a handler exactly when one was stored under the name, and returns that stored handler |
| `Broker.RegisterLastWriteWins` | dist/xpc/main/index.js:164-166 | registering sets the owner of one name, the last write wins, re-registering the same pair changes nothing, and other names, tasks and the counter are untouched |
| `Broker.HandleRoutesLocally` | dist/xpc/main/index.js:85-88 | `xpcMain.handle` stores the handler and makes the main process the owner (0), touching no other registry entry, task or message |
| `Broker.RegisterKeepsValid` | dist/xpc/main/index.js:123-125 | registration and `handle` keep the pending-table invariant |
| `Broker.ExecPayload` | dist/xpc/main/index.js:136-140 | exec's payload has the fresh id, the name and the params, and no `ret` |
| `Broker.ExecStart` | dist/xpc/main/index.js:131-158 | the call suspends iff the name is routed to a live worker. Unrouted: null, nothing changes, the counter included. Routed: exactly one id is consumed. Local: the handler's value on {fresh id, name, params}, or null if the handler is missing or throws. Unreachable: null. Failure and local paths leave the pending table and the sent messages untouched. Forwarded: one new task under the fresh id and one message to the owner on channel `name` |
| `Broker.OnExecRequest` | dist/xpc/main/index.js:167-169 | the exec handler's suspended calls use the coordinator's next id and are pending afterwards. The registry and handlers are unchanged. `ExecRequestIgnoresCallerId` shows the caller's id and ret play no part |
| `Broker.ExecRequestIgnoresCallerId` | dist/xpc/main/index.js:167-169 | the `__xpc_exec__` handler gives the same outcome whatever id and ret the caller sent, and its correlation id is the coordinator's next id |
| `Broker.ExecStartKeepsValid` | dist/xpc/main/index.js:156-157 | exec keeps the invariant, and a suspended call's id was not already a pending key |
| `Broker.Finish` | dist/xpc/main/index.js:170-176 | a finish with an unknown id changes nothing. One with a known id sets that task's `ret` to `payload.ret ?? null` and releases it. Every other task, the key set and all other state stay the same |
| `Broker.ExecResume` | dist/xpc/main/index.js:159-161 | resuming deletes exactly that task and returns its `ret` when that is not nullish, and null when it is null or undefined |
| `Broker.FinishKeepsValid` | dist/xpc/main/index.js:171-175 | the finish listener keeps the invariant |
| `Broker.ExecResumeKeepsValid` | dist/xpc/main/index.js:160 | deleting the resumed task keeps the invariant |
| `Broker.FinishIdempotent` | dist/xpc/main/index.js:171-174 | a repeated completion leaves the tables as the first one did |
| `Broker.FinishCommutes` | dist/xpc/main/index.js:171-174 | completions for different ids give the same state in either order |
| `Broker.StartForwarded` | dist/xpc/main/index.js:156-158 | a call routed to a live worker suspends under the fresh id, which is not yet pending, and adds exactly that one task |
| `Broker.ResumeAfterFinish` | dist/xpc/main/index.js:159-161 | resuming after the completion for that id returns that completion's `ret ?? null` and removes only that task |
| `Broker.ForwardedCallRoundTrip` | dist/xpc/main/index.js:156-161 | start, then the matching completion, then resume: the task is released, the caller gets `ret ?? null`, and the pending table is back to its contents before the call |
| `Broker.TwoForwardedStarts` | dist/xpc/main/index.js:137-157 | two forwarded calls in a row get distinct ids, and those two tasks are the only additions to the table |
| `Broker.CompleteInReverseOrder` | dist/xpc/main/index.js:170-176 | with two tasks pending, completing the later one first still gives each resumed caller its own completion's value |
| `Broker.OutOfOrderCompletions` | dist/xpc/main/index.js:157-161 | calls A then B forwarded and completed B then A: each caller gets its own result, and the pending table ends as it started |
| `Broker.HandleThenExecRunsLocally` | dist/xpc/main/index.js:141-151 | a name bound by `xpcMain.handle` is served by that handler in the main process (null if it throws), with no task and no message |
| `XpcMainProcess.XpcCenter.constructor` | dist/xpc/main/index.js:110-115 | a new broker holds the initial state and the invariant |
| `XpcMainProcess.XpcCenter.GenerateXpcId` | dist/xpc/main/index.js:39-41 | the counter is incremented first, and the id is the prefix, a dash and the new counter in radix 36 |
| `XpcMainProcess.XpcCenter.RegisterMainHandler` | dist/xpc/main/index.js:123-125 | `registry[name] = 0`, and nothing else changes |
| `XpcMainProcess.XpcCenter.Handle` | dist/xpc/main/index.js:85-88 | `handlers[name] = h` and `registry[name] = 0`, keeping the invariant |
| `XpcMainProcess.XpcCenter.GetHandler` | dist/xpc/main/index.js:92-93 | returns the stored handler, or none if the name has none |
| `XpcMainProcess.XpcCenter.OnRegister` | dist/xpc/main/index.js:164-166 | `registry[name] = sender id`, and nothing else changes |
| `XpcMainProcess.XpcCenter.ExecStart` | dist/xpc/main/index.js:131-158 | performs `Broker.ExecStart` on the fields and keeps the invariant. A suspended call's id was not pending before. A finished call leaves tasks and messages unchanged |
| `XpcMainProcess.XpcCenter.Send` | dist/xpc/main/index.js:99-101 | `xpcMain.send` is exec on the same name and params |
| `XpcMainProcess.XpcCenter.OnExecRequest` | dist/xpc/main/index.js:167-169 | the exec handler runs exec on the request's handleName and params |
| `XpcMainProcess.XpcCenter.OnFinish` | dist/xpc/main/index.js:170-176 | performs `Broker.Finish` on the task table. An unknown id leaves the table unchanged |
| `XpcMainProcess.XpcCenter.ExecResume` | dist/xpc/main/index.js:159-161 | on a released task, deletes exactly that entry and returns `task.toPayload().ret ?? null` |
| `XpcMainProcess.StartTwoCalls` | dist/xpc/main/index.js:131-159 | two calls on the object, each routed to a live worker, suspend with two distinct fresh ids. Both tasks are pending and not yet released |
| `XpcMainProcess.CompleteInReverse` | dist/xpc/main/index.js:159-176 | completing B before A through the finish listener, then resuming, gives each caller its own completion's `ret ?? null` and removes exactly those two tasks |
| `XpcMainProcess.ResumeBoth` | dist/xpc/main/index.js:159-161 | resuming two released tasks returns each one's `ret ?? null` and deletes both |
| `Agent.Init` | dist/xpc/preload/index.js:9-18 | the agent starts with counter 0, no handler and nothing sent |
| `Agent.Channel` | dist/xpc/preload/index.js:15-17 | register messages go on `__xpc_register__`, finish messages on `__xpc_finish__` and exec requests on `__xpc_exec__`, each channel carrying exactly one kind |
| `Agent.Handle` | dist/xpc/preload/index.js:19-22 | `handle` stores the handler, adds one listener on the name and sends one register message on `__xpc_register__`, without consuming an id. `HandleEffects` adds the frame for other names |
| `Agent.RemoveHandle` | dist/xpc/preload/index.js:40-43 | after `removeHandle` the name has no handler and no listener, and nothing is sent. `RemoveHandleEffects` adds the frame |
| `Agent.HandleEffects` | dist/xpc/preload/index.js:19-22 | `handle` sets the handler, replacing any earlier one. It sends exactly one register message and adds exactly one listener on the name. Other names and the counter are unchanged |
| `Agent.RemoveHandleEffects` | dist/xpc/preload/index.js:40-43 | `removeHandle` deletes only that name's handler and all its listeners, and sends nothing |
| `Agent.ListenerRet` | dist/xpc/preload/index.js:23-31 | the listener's `ret` is the handler's value if a handler exists and does not throw, and null otherwise |
| `Agent.FinishFor` | dist/xpc/preload/index.js:32-37 | the finish payload echoes the incoming id, handleName and params, and its `ret` is the listener's `ListenerRet`: the handler's value, or null when the handler is missing or throws |
| `Agent.InvokeListener` | dist/xpc/preload/index.js:22-38 | one listener run appends exactly one finish message, whatever the handler does, and changes nothing else |
| `Agent.Deliver` | dist/xpc/preload/index.js:22-38 | k listener runs append exactly k messages after what was already sent, all on `__xpc_finish__`. `DeliverSendsOneFinishPerListener` pins their contents |
| `Agent.Emit` | dist/xpc/preload/index.js:22 | a message reaches every listener on its channel, one reply each. With no listener nothing changes |
| `Agent.DeliverSendsOneFinishPerListener` | dist/xpc/preload/index.js:20-22 | a message on a channel with k listeners produces exactly k identical finish messages and no other change |
| `Agent.ListenerUsesLatestHandler` | dist/xpc/preload/index.js:24 | after a second `handle` on a name, both listeners use the newer handler |
| `Agent.RemovedHandleSendsNothing` | dist/xpc/preload/index.js:42 | after `removeHandle(name)`, a message on `name` triggers no reply |
| `Agent.SendPayload` | dist/xpc/preload/index.js:45-50 | the exec request has the fresh `r-` id, the name, the params and `ret: null` |
| `Agent.Send` | dist/xpc/preload/index.js:44-52 | `send` consumes one id and adds exactly one request, on `__xpc_exec__`, leaving handlers and listeners unchanged |
| `Agent.SendIdFresh` | dist/xpc/preload/index.js:10-12 | a new request's id differs from the id of every earlier request, and the invariant is kept |
| `Agent.OtherStepsKeepValid` | dist/xpc/preload/index.js:19-43 | handle, removeHandle and listener runs send no exec request and keep the id invariant |
| `XpcPreload.XpcRenderer.constructor` | dist/xpc/preload/index.mjs:6-16 | a new agent holds the initial state |
| `XpcPreload.XpcRenderer.GenerateXpcId` | dist/xpc/preload/index.mjs:6-10 | pre-increments the counter and returns `r-prefix-n` in radix 36 |
| `XpcPreload.XpcRenderer.Handle` | dist/xpc/preload/index.mjs:17-20 | replaces the handler, sends one register message and adds one listener |
| `XpcPreload.XpcRenderer.InvokeListener` | dist/xpc/preload/index.mjs:21-35 | sends exactly one finish message that echoes id, handleName and params. Its `ret` is null when the handler is missing or throws |
| `XpcPreload.XpcRenderer.RemoveHandle` | dist/xpc/preload/index.mjs:38-41 | removes only that name's handler and its listeners |
| `XpcPreload.XpcRenderer.Send` | dist/xpc/preload/index.mjs:42-50 | sends one exec request with a fresh id and `ret: null`, and returns the reply unchanged |
| `XpcEndToEnd.ExposeThenCall` | dist/xpc/main/index.js:156-176 | a worker exposes a name, the main process records it, and a call is forwarded and answered by the listener. The caller gets the handler's value `?? null`, or null if it threw, and no task is left |
| `XpcEndToEnd.DoubleHandleRepliesTwiceHarmlessly` | dist/xpc/preload/index.js:19-38 | `handle` twice on a name makes each message there answered twice with the same completion, and the second completion changes nothing more |
| `XpcEndToEnd.RemovedHandleLeavesCallerBlocked` | dist/xpc/preload/index.js:40-43 | after `removeHandle`, the registry still routes the name and calls are still forwarded, but no completion comes back and the task stays blocked |
| `PackageHelper.AllowedFieldsAndDefaults` | src/packageHelper/main/package.helper.ts:8-28 | there are eight distinct allowed fields, and DEFAULTS covers exactly them: `""` for seven and `0` for versionCode, none nullish |
| `PackageHelper.Property` | dist/packageHelper/main/index.mjs:34 | for each of the eight allowed fields, `raw[key]` throws exactly when raw is null or undefined. It reads an object's own field when present. Otherwise it reads undefined, because none of the eight names is an inherited property of a JSON value, so the default applies |
| `PackageHelper.Picked` | src/packageHelper/main/package.helper.ts:33-39 | the result fails exactly on a null record. Otherwise it has exactly the allowed keys, so extra keys are dropped, and no value is nullish |
| `PackageHelper.PickFieldsIdempotent` | src/packageHelper/main/package.helper.ts:19-36 | filtering an already filtered record gives the same record |
| `PackageHelper.PickedIsPickFields` | src/packageHelper/main/package.helper.ts:33-39 | any record with exactly the allowed keys, each `raw[key] ?? DEFAULTS[key]`, is the one pickFields produces, so the loop and the specification agree |
| `PackageHelper.GetPackageInfoStep` | src/packageHelper/main/package.helper.ts:45-53 | a cached value is returned without reading. Otherwise the cache is filled only by a successful read and parse, with what pickFields produced. Every failure leaves the cache empty, so the next call reads again |
| `PackageHelper.CallsAfterSuccessRepeat` | dist/packageHelper/main/index.mjs:42-49 | across successive calls, once one succeeds every later call returns the same record, whatever the file would now give |
| `PackageHelper.CachedCallsRepeat` | dist/packageHelper/main/index.mjs:43 | with the cache filled, every call returns the cached record |
| `PackageHelper.PackageMainHelper.constructor` | dist/packageHelper/main/index.js:30-32 | `cached` starts null |
| `PackageHelper.PackageMainHelper.PickFields` | dist/packageHelper/main/index.js:33-39 | the loop over ALLOWED_FIELDS yields exactly those keys, each `raw[key] ?? DEFAULTS[key]`. It fails only when raw is null |
| `PackageHelper.PackageMainHelper.GetPackageInfo` | dist/packageHelper/main/index.js:44-51 | performs `GetPackageInfoStep` on the `cached` field |

## Left out

- Path helpers (`PathMainHelper`, inlined at dist/xpc/main/index.js:42-73, and the other pathHelper files) are one-line pass-throughs to host path lookups. They hold no logic of this core.
- Wiring: `xpcCenter.init`, `setupListeners` registering with `ipcMain.on`/`ipcMain.handle`, and `PackageMainHelper.init` are not modelled. The listeners themselves are the `On…` methods.
- Context-bridge exposure and the `globalThis` assignment in the preload bundle are environment plumbing.
- `createXpcRendererApi` is not modelled separately. It only returns an object whose `handle`, `removeHandle` and `send` delegate to the functions modelled as `XpcRenderer`'s methods.
- The Electron transport is not modelled. Messages are appended to outboxes, and `webContents.fromId` with its destroyed/crashed checks is the `alive` parameter. Delivering a message to the other process is not a separate step: the end-to-end lemmas compose the two sides.
- `Math.random()` for the id prefix: the prefix is a constructor parameter.
- Counters are unbounded naturals. JavaScript numbers lose integer precision above 2^53, which is not modelled. JSON numbers are integers here, because the modelled code only moves them.
- Handlers are pure functions from the payload to a value or a throw. Their side effects are not modelled, and neither are other events interleaving while `await handler(...)` is pending. A handler that runs twice (two listeners on one name) is taken to give the same result both times.
- The rig-foundation semaphore is a `released` flag, and suspension is the split into `ExecStart` and `ExecResume`. There is no timeout in the code, and liveness is not modelled: a forwarded call whose completion never arrives stays pending forever.
- `XpcMainProcess.XpcCenter.ExecResume` requires its task to be pending and released. It is the continuation of the `exec` call that created the task, which only that call deletes.
- Task objects are values in the pending map, and resumption reads the task back from the map rather than through the `exec` frame's reference. The two are the same because a fresh id is never already a key (`Broker.NextIdFresh`), and no other code removes the entry.
- `XpcPreload.XpcRenderer.InvokeListener` requires a listener on the channel, because the transport only runs listeners that exist.
- `getPackageInfo`'s `app.getAppPath`, `path.join`, `readFile` and `JSON.parse` are the `read` parameter: None when reading or parsing throws.
- The insertion order of the keys in pickFields' result object is not modelled: the record is a map.
- PackageHelper.GetPackageInfoStep: calls are taken not to overlap. In the code, `await readFile` (src/packageHelper/main/package.helper.ts:50) lies between the cache check (:46) and the assignment (:51). Two overlapping calls, such as two workers invoking the package-info channel (:60-62) at once, both miss the cache and both read. The later one overwrites `cached`. The returned record is also taken not to be mutated: `getPackageInfo` returns the cached object itself (:46, :52), so an in-process caller that mutated it would change what later calls return.
- Broker.ExecStart and Agent.InvokeListener: every value is taken to be one Electron can structured-clone, and a `send` that throws is not modelled. In the code, `target.send` (dist/xpc/main/index.js:158) runs after `pendingTasks.set` (:157). Params that cannot be cloned would make `exec` reject and leave its task pending. In the worker, a handler result that cannot be cloned would make the finish `send` (dist/xpc/preload/index.js:32-37) throw. No finish message would be sent, and the caller would stay blocked.
- Rejections are values: `getPackageInfo` returns `Rejected` where the promise would reject.
