/**
 * The coordinator's broker as a state machine over its tables: the handle
 * registry (handleName -> webContents id, 0 = the main process), the local
 * handlers of XpcMain, the pending-task table, the id counter, and the
 * messages sent to worker processes.
 *
 * The async `exec` is split at its one suspension point: ExecStart runs up to
 * `await task.block()`, Finish is the `__xpc_finish__` listener, and
 * ExecResume is what runs after the semaphore is released.
 */
module Broker {
  import opened Values
  import opened XpcIds
  import opened XpcPayloads

  /** The registry's owner value meaning "the main process itself". */
  const MainProcess: nat := 0

  /** `target.send(channel, payload)` to the worker whose webContents id is `target`. */
  datatype Forward = Forward(target: nat, channel: string, payload: Payload)

  datatype CenterState = CenterState(
    prefix: string,
    counter: nat,
    registry: map<string, nat>,
    handlers: map<string, Handler>,
    pending: map<string, XpcTask>,
    outbox: seq<Forward>)

  /** Where exec stands after its synchronous part. */
  datatype ExecStep = Done(result: Value) | Suspended(id: string)

  function Init(prefix: string): (s: CenterState)
    ensures s.counter == 0 && s.registry == map[] && s.pending == map[]
  {
    CenterState(prefix, 0, map[], map[], map[], [])
  }

  // ---------------------------------------------------------------------------
  // Invariant: every pending key was generated earlier and names its own task.

  /** `id` is one of the ids generateXpcId has returned so far. */
  ghost predicate Issued(s: CenterState, id: string) {
    exists k :: 1 <= k <= s.counter && id == XpcId(s.prefix, k)
  }

  ghost predicate Valid(s: CenterState) {
    forall id | id in s.pending :: Issued(s, id) && s.pending[id].id == id
  }

  /** The id the next generateXpcId call returns (`++counter`). */
  function NextId(s: CenterState): string {
    XpcId(s.prefix, s.counter + 1)
  }

  /** The next id has never been issued, so it is never already a pending key. */
  lemma NextIdFresh(s: CenterState)
    requires Valid(s)
    ensures !Issued(s, NextId(s))
    ensures NextId(s) !in s.pending
  {
    if Issued(s, NextId(s)) {
      var k :| 1 <= k <= s.counter && NextId(s) == XpcId(s.prefix, k);
      XpcIdInjective(s.prefix, k, s.counter + 1);
    }
  }

  // ---------------------------------------------------------------------------
  // Registration

  /** `registry.set(name, owner)`. */
  function Register(s: CenterState, name: string, owner: nat): (t: CenterState)
    ensures name in t.registry && t.registry[name] == owner
    ensures t.registry.Keys == s.registry.Keys + {name}
    ensures t.(registry := s.registry) == s
  {
    s.(registry := s.registry[name := owner])
  }

  /** The `__xpc_register__` listener: the sender becomes the owner of the name. */
  function OnRegister(s: CenterState, sender: nat, name: string): (t: CenterState)
    ensures name in t.registry && t.registry[name] == sender
    ensures t.pending == s.pending && t.outbox == s.outbox && t.counter == s.counter
  {
    Register(s, name, sender)
  }

  /** `xpcCenter.registerMainHandler(name)`. */
  function RegisterMainHandler(s: CenterState, name: string): (t: CenterState)
    ensures name in t.registry && t.registry[name] == MainProcess
    ensures t.handlers == s.handlers && t.pending == s.pending && t.counter == s.counter
  {
    Register(s, name, MainProcess)
  }

  /** `xpcMain.handle(name, h)`: store the handler, then register the name as main-owned. */
  function Handle(s: CenterState, name: string, h: Handler): (t: CenterState)
    ensures GetHandler(t, name) == Some(h)
    ensures name in t.registry && t.registry[name] == MainProcess
    ensures t.handlers.Keys == s.handlers.Keys + {name}
  {
    RegisterMainHandler(s.(handlers := s.handlers[name := h]), name)
  }

  /** `xpcMain.getHandler(name)`. */
  function GetHandler(s: CenterState, name: string): (h: Option<Handler>)
    ensures h.Some? <==> name in s.handlers
    ensures h.Some? ==> h.value == s.handlers[name]
  {
    if name in s.handlers then Some(s.handlers[name]) else None
  }

  /** Registration is an upsert of one entry: last write wins, nothing else moves. */
  lemma RegisterLastWriteWins(s: CenterState, name: string, first: nat, second: nat, other: string)
    requires other != name
    ensures Register(s, name, second).registry[name] == second
    ensures Register(Register(s, name, first), name, second) == Register(s, name, second)
    ensures Register(Register(s, name, second), name, second) == Register(s, name, second)
    ensures other in Register(s, name, second).registry <==> other in s.registry
    ensures other in s.registry ==> Register(s, name, second).registry[other] == s.registry[other]
    ensures Register(s, name, second).pending == s.pending
    ensures Register(s, name, second).counter == s.counter
  {
  }

  /** `handle` records the handler and makes the main process the owner. */
  lemma HandleRoutesLocally(s: CenterState, name: string, h: Handler, other: string)
    requires other != name
    ensures Handle(s, name, h).handlers[name] == h
    ensures Handle(s, name, h).registry[name] == MainProcess
    ensures GetHandler(Handle(s, name, h), name) == Some(h)
    ensures other in Handle(s, name, h).registry <==> other in s.registry
    ensures other in s.registry ==> Handle(s, name, h).registry[other] == s.registry[other]
    ensures Handle(s, name, h).pending == s.pending && Handle(s, name, h).outbox == s.outbox
  {
  }

  lemma RegisterKeepsValid(s: CenterState, name: string, owner: nat, h: Handler)
    requires Valid(s)
    ensures Valid(Register(s, name, owner))
    ensures Valid(Handle(s, name, h))
  {
  }

  // ---------------------------------------------------------------------------
  // exec

  /** The payload exec builds once the name is routed: a fresh id, no `ret` field. */
  function ExecPayload(s: CenterState, name: string, params: Value): (p: Payload)
    ensures p.id == NextId(s) && p.handleName == name && p.params == params
    ensures p.ret == Undefined
  {
    Payload(NextId(s), name, params, Undefined)
  }

  /** `exec(name, params)` up to its suspension point; `alive(id)` stands for
      `webContents.fromId(id)` existing and being neither destroyed nor crashed. */
  function ExecStart(s: CenterState, name: string, params: Value, alive: nat -> bool): (r: (ExecStep, CenterState))
    // only a name routed to a live worker suspends
    ensures r.0.Suspended? <==> name in s.registry && s.registry[name] != MainProcess && alive(s.registry[name])
    // unrouted: null, and nothing at all changes (not even the counter)
    ensures name !in s.registry ==> r == (Done(Null), s)
    // every routed call consumes exactly one id
    ensures name in s.registry ==> r.1.counter == s.counter + 1
    // failure and local paths create no task and send nothing
    ensures r.0.Done? ==> r.1.pending == s.pending && r.1.outbox == s.outbox
    // local target: the handler's value on {fresh id, name, params}, null when missing or throwing
    ensures name in s.registry && s.registry[name] == MainProcess ==>
      r.0 == Done(if name in s.handlers && s.handlers[name](ExecPayload(s, name, params)).Returned?
                  then s.handlers[name](ExecPayload(s, name, params)).v else Null)
    // unreachable worker: null
    ensures name in s.registry && s.registry[name] != MainProcess && !alive(s.registry[name]) ==>
      r.0 == Done(Null)
    // forwarded: exactly one new task under the fresh id, and one message on channel `name`
    ensures r.0.Suspended? ==>
      && r.0.id == NextId(s)
      && r.1.pending == s.pending[r.0.id := NewTask(ExecPayload(s, name, params))]
      && r.1.outbox == s.outbox + [Forward(s.registry[name], name, ExecPayload(s, name, params))]
    ensures r.1.prefix == s.prefix && r.1.registry == s.registry && r.1.handlers == s.handlers
  {
    if name !in s.registry then (Done(Null), s)
    else
      var targetId := s.registry[name];
      var payload := ExecPayload(s, name, params);
      var s1 := s.(counter := s.counter + 1);
      if targetId == MainProcess then
        if name !in s.handlers then (Done(Null), s1)
        else match s.handlers[name](payload) {
          case Returned(v) => (Done(v), s1)
          case Threw => (Done(Null), s1)
        }
      else if !alive(targetId) then (Done(Null), s1)
      else
        var task := NewTask(payload);
        (Suspended(task.id),
         s1.(pending := s.pending[task.id := task],
             outbox := s.outbox + [Forward(targetId, name, payload)]))
  }

  /** The `__xpc_exec__` handler: only `handleName` and `params` of the request reach exec. */
  function OnExecRequest(s: CenterState, request: Payload, alive: nat -> bool): (r: (ExecStep, CenterState))
    ensures r.0.Suspended? ==> r.0.id == NextId(s) && r.0.id in r.1.pending
    ensures r.1.registry == s.registry && r.1.handlers == s.handlers
  {
    ExecStart(s, request.handleName, request.params, alive)
  }

  /** The caller's own id and ret are ignored: correlation ids always come from the coordinator. */
  lemma ExecRequestIgnoresCallerId(s: CenterState, request: Payload, otherId: string, otherRet: Value, alive: nat -> bool)
    ensures OnExecRequest(s, request, alive) == OnExecRequest(s, request.(id := otherId, ret := otherRet), alive)
    ensures OnExecRequest(s, request, alive).0.Suspended? ==> OnExecRequest(s, request, alive).0.id == NextId(s)
  {
  }

  lemma {:induction false} ExecStartKeepsValid(s: CenterState, name: string, params: Value, alive: nat -> bool)
    requires Valid(s)
    ensures Valid(ExecStart(s, name, params, alive).1)
    ensures ExecStart(s, name, params, alive).0.Suspended? ==> ExecStart(s, name, params, alive).0.id !in s.pending
  {
    var r := ExecStart(s, name, params, alive);
    var t := r.1;
    if name in s.registry {
      NextIdFresh(s);
      forall id | id in t.pending
        ensures Issued(t, id) && t.pending[id].id == id
      {
        if id in s.pending {
          var k :| 1 <= k <= s.counter && id == XpcId(s.prefix, k);
          assert 1 <= k <= t.counter && id == XpcId(t.prefix, k);
        } else {
          assert id == NextId(s);
          assert 1 <= s.counter + 1 <= t.counter && id == XpcId(t.prefix, s.counter + 1);
        }
      }
    }
  }

  // ---------------------------------------------------------------------------
  // Completion and resumption

  /** The `__xpc_finish__` listener: a known id gets `ret ?? null` and is released;
      an unknown id is dropped. */
  function Finish(s: CenterState, p: Payload): (t: CenterState)
    ensures p.id !in s.pending ==> t == s
    ensures t.pending.Keys == s.pending.Keys
    ensures forall id | id in s.pending && id != p.id :: t.pending[id] == s.pending[id]
    ensures p.id in s.pending ==>
      && t.pending[p.id].released
      && t.pending[p.id].ret == Coalesce(p.ret, Null)
      && t.pending[p.id].(ret := s.pending[p.id].ret, released := s.pending[p.id].released) == s.pending[p.id]
    ensures t.(pending := s.pending) == s
  {
    if p.id in s.pending then
      var task := s.pending[p.id].(ret := Coalesce(p.ret, Null));
      s.(pending := s.pending[p.id := Unblock(task)])
    else s
  }

  /** After the semaphore is released: delete the task and return `task.toPayload().ret ?? null`. */
  function ExecResume(s: CenterState, id: string): (r: (Value, CenterState))
    requires id in s.pending
    ensures r.1.pending == s.pending - {id}
    ensures !IsNullish(s.pending[id].ret) ==> r.0 == s.pending[id].ret
    ensures IsNullish(s.pending[id].ret) ==> r.0 == Null
    ensures r.1.(pending := s.pending) == s
  {
    (Coalesce(ToPayload(s.pending[id]).ret, Null), s.(pending := s.pending - {id}))
  }

  lemma FinishKeepsValid(s: CenterState, p: Payload)
    requires Valid(s)
    ensures Valid(Finish(s, p))
  {
  }

  lemma ExecResumeKeepsValid(s: CenterState, id: string)
    requires Valid(s) && id in s.pending
    ensures Valid(ExecResume(s, id).1)
  {
  }

  /** A completion that is repeated (two listeners on one channel) changes nothing more. */
  lemma FinishIdempotent(s: CenterState, p: Payload)
    ensures Finish(Finish(s, p), p) == Finish(s, p)
  {
  }

  /** Completions for different ids commute: the order they arrive in does not matter. */
  lemma FinishCommutes(s: CenterState, p: Payload, q: Payload)
    requires p.id != q.id
    ensures Finish(Finish(s, p), q) == Finish(Finish(s, q), p)
  {
  }

  /**
   * One forwarded call, start to end: the completion that echoes its id
   * determines the result, and the pending table is back to what it was.
   */
  lemma {:induction false} ForwardedCallRoundTrip(s: CenterState, name: string, params: Value, alive: nat -> bool, completion: Payload)
    requires Valid(s)
    requires name in s.registry && s.registry[name] != MainProcess && alive(s.registry[name])
    requires completion.id == NextId(s)
    ensures
      var (step, s1) := ExecStart(s, name, params, alive);
      && step == Suspended(completion.id)
      && var s2 := Finish(s1, completion);
         && s2.pending[step.id].released
         && var (v, s3) := ExecResume(s2, step.id);
            && v == Coalesce(completion.ret, Null)
            && s3.pending == s.pending
            && s3.counter == s.counter + 1
            && s3.registry == s.registry
  {
    StartForwarded(s, name, params, alive);
    var (step, s1) := ExecStart(s, name, params, alive);
    ResumeAfterFinish(s1, completion);
    RemoveAdded(s.pending, step.id, s1.pending[step.id]);
  }

  /** Removing a key just added to a map where it was absent gives the map back. */
  lemma RemoveAdded(m: map<string, XpcTask>, k: string, v: XpcTask)
    requires k !in m
    ensures m[k := v] - {k} == m
  {
  }

  /** A call routed to a live worker suspends under the fresh id with one new task. */
  lemma StartForwarded(s: CenterState, name: string, params: Value, alive: nat -> bool)
    requires Valid(s)
    requires name in s.registry && s.registry[name] != MainProcess && alive(s.registry[name])
    ensures ExecStart(s, name, params, alive).0 == Suspended(NextId(s))
    ensures NextId(s) !in s.pending
    ensures ExecStart(s, name, params, alive).1.pending == s.pending[NextId(s) := NewTask(ExecPayload(s, name, params))]
    ensures Valid(ExecStart(s, name, params, alive).1)
  {
    ExecStartKeepsValid(s, name, params, alive);
  }

  /** Resuming after the completion of `p.id` yields that completion's `ret ?? null`
      and drops exactly that task. */
  lemma ResumeAfterFinish(s: CenterState, p: Payload)
    requires p.id in s.pending
    ensures p.id in Finish(s, p).pending
    ensures ExecResume(Finish(s, p), p.id).0 == Coalesce(p.ret, Null)
    ensures ExecResume(Finish(s, p), p.id).1.pending == s.pending - {p.id}
  {
  }

  /**
   * Two forwarded calls in flight, A issued before B, completed B first:
   * each caller resumes with its own completion's value, and the pending
   * table ends as it started.
   */
  lemma {:induction false} OutOfOrderCompletions(
    s: CenterState, nameA: string, paramsA: Value, nameB: string, paramsB: Value,
    alive: nat -> bool, retA: Value, retB: Value)
    requires Valid(s)
    requires nameA in s.registry && s.registry[nameA] != MainProcess && alive(s.registry[nameA])
    requires nameB in s.registry && s.registry[nameB] != MainProcess && alive(s.registry[nameB])
    ensures
      var (a, s1) := ExecStart(s, nameA, paramsA, alive);
      var (b, s2) := ExecStart(s1, nameB, paramsB, alive);
      && a.Suspended? && b.Suspended? && a.id != b.id
      && var s3 := Finish(s2, Payload(b.id, nameB, paramsB, retB));
         var s4 := Finish(s3, Payload(a.id, nameA, paramsA, retA));
         && a.id in s4.pending
         && var (va, s5) := ExecResume(s4, a.id);
            && b.id in s5.pending
            && var (vb, s6) := ExecResume(s5, b.id);
               && va == Coalesce(retA, Null)
               && vb == Coalesce(retB, Null)
               && s6.pending == s.pending
  {
    TwoForwardedStarts(s, nameA, paramsA, nameB, paramsB, alive);
    var (a, s1) := ExecStart(s, nameA, paramsA, alive);
    var (b, s2) := ExecStart(s1, nameB, paramsB, alive);
    CompleteInReverseOrder(s2, Payload(a.id, nameA, paramsA, retA), Payload(b.id, nameB, paramsB, retB));
  }

  /** Two forwarded starts in a row create two distinct tasks and nothing else in the table. */
  lemma TwoForwardedStarts(
    s: CenterState, nameA: string, paramsA: Value, nameB: string, paramsB: Value, alive: nat -> bool)
    requires Valid(s)
    requires nameA in s.registry && s.registry[nameA] != MainProcess && alive(s.registry[nameA])
    requires nameB in s.registry && s.registry[nameB] != MainProcess && alive(s.registry[nameB])
    ensures
      var (a, s1) := ExecStart(s, nameA, paramsA, alive);
      var (b, s2) := ExecStart(s1, nameB, paramsB, alive);
      && a.Suspended? && b.Suspended? && a.id != b.id
      && a.id in s2.pending && b.id in s2.pending
      && s2.pending - {a.id} - {b.id} == s.pending
  {
    StartForwarded(s, nameA, paramsA, alive);
    var (a, s1) := ExecStart(s, nameA, paramsA, alive);
    StartForwarded(s1, nameB, paramsB, alive);
    var (b, s2) := ExecStart(s1, nameB, paramsB, alive);
    assert a.id in s1.pending;
    RemoveAdded(s1.pending, b.id, s2.pending[b.id]);
    RemoveAdded(s.pending, a.id, s1.pending[a.id]);
    assert s2.pending - {a.id} - {b.id} == (s2.pending - {b.id}) - {a.id};
  }

  /** Completing the later call first, then the earlier one, and resuming both:
      each resumes with its own value. */
  lemma CompleteInReverseOrder(s: CenterState, pa: Payload, pb: Payload)
    requires pa.id != pb.id && pa.id in s.pending && pb.id in s.pending
    ensures
      var s4 := Finish(Finish(s, pb), pa);
      && pa.id in s4.pending
      && var (va, s5) := ExecResume(s4, pa.id);
         && pb.id in s5.pending
         && var (vb, s6) := ExecResume(s5, pb.id);
            && va == Coalesce(pa.ret, Null)
            && vb == Coalesce(pb.ret, Null)
            && s6.pending == s.pending - {pa.id} - {pb.id}
  {
  }

  /** A name bound with `xpcMain.handle` is served in the main process, with no task. */
  lemma HandleThenExecRunsLocally(s: CenterState, name: string, h: Handler, params: Value, alive: nat -> bool)
    ensures
      var s1 := Handle(s, name, h);
      var (step, s2) := ExecStart(s1, name, params, alive);
      && step == Done(match h(ExecPayload(s1, name, params)) { case Returned(v) => v case Threw => Null })
      && s2.pending == s.pending
      && s2.outbox == s.outbox
  {
  }
}
