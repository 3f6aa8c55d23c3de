/**
 * The worker-side agent of dist/xpc/preload as a state machine: its own id
 * counter, the local handler table, the number of ipcRenderer listeners per
 * channel, and the messages it sends to the main process.
 */
module Agent {
  import opened Values
  import opened XpcIds
  import opened XpcPayloads

  const XPC_REGISTER: string := "__xpc_register__"
  const XPC_EXEC: string := "__xpc_exec__"
  const XPC_FINISH: string := "__xpc_finish__"

  /** What the worker sends: `send(XPC_REGISTER, {handleName})`,
      `send(XPC_FINISH, payload)` and `invoke(XPC_EXEC, payload)`. */
  datatype RendererMessage =
    | Register(handleName: string)
    | Finish(payload: Payload)
    | ExecInvoke(payload: Payload)

  /** The channel each message travels on; the three channels are distinct, so the
      main process tells the kinds apart by channel alone. */
  function Channel(m: RendererMessage): (c: string)
    ensures m.Register? <==> c == XPC_REGISTER
    ensures m.Finish? <==> c == XPC_FINISH
    ensures m.ExecInvoke? <==> c == XPC_EXEC
  {
    match m
    case Register(_) => XPC_REGISTER
    case Finish(_) => XPC_FINISH
    case ExecInvoke(_) => XPC_EXEC
  }

  datatype WorkerState = WorkerState(
    prefix: string,
    counter: nat,
    handlers: map<string, Handler>,
    listeners: map<string, nat>,
    outbox: seq<RendererMessage>)

  function Init(prefix: string): (w: WorkerState)
    ensures w.counter == 0 && w.handlers == map[] && w.outbox == []
  {
    WorkerState(prefix, 0, map[], map[], [])
  }

  /** How many listeners `ipcRenderer.on` has installed on `channel`. */
  function ListenerCount(w: WorkerState, channel: string): nat {
    if channel in w.listeners then w.listeners[channel] else 0
  }

  // ---------------------------------------------------------------------------
  // Ids: every exec request sent so far carries an id this worker generated.

  ghost predicate Issued(w: WorkerState, id: string) {
    exists k :: 1 <= k <= w.counter && id == RendererId(w.prefix, k)
  }

  ghost predicate Valid(w: WorkerState) {
    forall i | 0 <= i < |w.outbox| && w.outbox[i].ExecInvoke? :: Issued(w, w.outbox[i].payload.id)
  }

  /** The id the next generateXpcId call returns. */
  function NextId(w: WorkerState): string {
    RendererId(w.prefix, w.counter + 1)
  }

  // ---------------------------------------------------------------------------
  // handle / removeHandle

  /** `handle(name, h)`: set the handler, announce the name, add one listener. */
  function Handle(w: WorkerState, name: string, h: Handler): (v: WorkerState)
    ensures name in v.handlers && v.handlers[name] == h
    ensures ListenerCount(v, name) == ListenerCount(w, name) + 1
    ensures v.outbox == w.outbox + [Register(name)] && Channel(v.outbox[|w.outbox|]) == XPC_REGISTER
    ensures v.counter == w.counter
  {
    w.(handlers := w.handlers[name := h],
       outbox := w.outbox + [Register(name)],
       listeners := w.listeners[name := ListenerCount(w, name) + 1])
  }

  /** `removeHandle(name)`: delete the handler and every listener on the channel. */
  function RemoveHandle(w: WorkerState, name: string): (v: WorkerState)
    ensures name !in v.handlers && ListenerCount(v, name) == 0
    ensures v.outbox == w.outbox && v.counter == w.counter
  {
    w.(handlers := w.handlers - {name}, listeners := w.listeners - {name})
  }

  /** `handle` does three things and nothing else. */
  lemma HandleEffects(w: WorkerState, name: string, h: Handler, other: string)
    requires other != name
    ensures Handle(w, name, h).handlers[name] == h
    ensures Handle(w, name, h).outbox == w.outbox + [Register(name)]
    ensures ListenerCount(Handle(w, name, h), name) == ListenerCount(w, name) + 1
    ensures other in Handle(w, name, h).handlers <==> other in w.handlers
    ensures other in w.handlers ==> Handle(w, name, h).handlers[other] == w.handlers[other]
    ensures ListenerCount(Handle(w, name, h), other) == ListenerCount(w, other)
    ensures Handle(w, name, h).counter == w.counter
  {
  }

  /** `removeHandle` touches only `name` and sends nothing to the main process. */
  lemma RemoveHandleEffects(w: WorkerState, name: string, other: string)
    requires other != name
    ensures name !in RemoveHandle(w, name).handlers
    ensures ListenerCount(RemoveHandle(w, name), name) == 0
    ensures RemoveHandle(w, name).outbox == w.outbox
    ensures other in RemoveHandle(w, name).handlers <==> other in w.handlers
    ensures other in w.handlers ==> RemoveHandle(w, name).handlers[other] == w.handlers[other]
    ensures ListenerCount(RemoveHandle(w, name), other) == ListenerCount(w, other)
  {
  }

  // ---------------------------------------------------------------------------
  // The invocation listener

  /** The `ret` a listener on `channel` computes: the handler looked up when the
      listener runs, null when it is missing or throws. */
  function ListenerRet(w: WorkerState, channel: string, p: Payload): (ret: Value)
    ensures channel !in w.handlers ==> ret == Null
    ensures channel in w.handlers && w.handlers[channel](p).Threw? ==> ret == Null
    ensures channel in w.handlers && w.handlers[channel](p).Returned? ==> ret == w.handlers[channel](p).v
  {
    if channel in w.handlers then
      match w.handlers[channel](p) {
        case Returned(v) => v
        case Threw => Null
      }
    else Null
  }

  /** The completion a listener sends back: the incoming id, handleName and params, plus `ret`. */
  function FinishFor(w: WorkerState, channel: string, p: Payload): (f: Payload)
    ensures f.id == p.id && f.handleName == p.handleName && f.params == p.params
    ensures f.ret == ListenerRet(w, channel, p)
  {
    Payload(p.id, p.handleName, p.params, ListenerRet(w, channel, p))
  }

  /** One listener on `channel` runs on payload `p`: exactly one finish message. */
  function InvokeListener(w: WorkerState, channel: string, p: Payload): (v: WorkerState)
    ensures v.outbox == w.outbox + [Finish(FinishFor(w, channel, p))]
    ensures v.(outbox := w.outbox) == w
  {
    w.(outbox := w.outbox + [Finish(FinishFor(w, channel, p))])
  }

  /** The first `k` listeners on `channel` run, one after another, on `p`. */
  function Deliver(w: WorkerState, channel: string, p: Payload, k: nat): (v: WorkerState)
    ensures |v.outbox| == |w.outbox| + k && v.outbox[..|w.outbox|] == w.outbox
    ensures forall i | |w.outbox| <= i < |v.outbox| :: Channel(v.outbox[i]) == XPC_FINISH
    decreases k
  {
    if k == 0 then w else Deliver(InvokeListener(w, channel, p), channel, p, k - 1)
  }

  /** A message on `channel` reaches every listener installed there. */
  function Emit(w: WorkerState, channel: string, p: Payload): (v: WorkerState)
    ensures |v.outbox| == |w.outbox| + ListenerCount(w, channel)
    ensures ListenerCount(w, channel) == 0 ==> v == w
  {
    Deliver(w, channel, p, ListenerCount(w, channel))
  }

  /** Listeners send one completion each, all alike, and change nothing else. */
  lemma {:induction false} DeliverSendsOneFinishPerListener(w: WorkerState, channel: string, p: Payload, k: nat)
    ensures Deliver(w, channel, p, k).outbox == w.outbox + seq(k, _ => Finish(FinishFor(w, channel, p)))
    ensures Deliver(w, channel, p, k).(outbox := w.outbox) == w
    decreases k
  {
    if k > 0 {
      var w1 := InvokeListener(w, channel, p);
      DeliverSendsOneFinishPerListener(w1, channel, p, k - 1);
      assert FinishFor(w1, channel, p) == FinishFor(w, channel, p);
      assert w1.outbox + seq(k - 1, _ => Finish(FinishFor(w, channel, p)))
          == w.outbox + seq(k, _ => Finish(FinishFor(w, channel, p)));
    }
  }

  /** The listener reads the table when it runs: after a second `handle` on the same
      name, every listener on that name uses the newer handler. */
  lemma ListenerUsesLatestHandler(w: WorkerState, name: string, h1: Handler, h2: Handler, p: Payload)
    ensures ListenerCount(Handle(Handle(w, name, h1), name, h2), name) == ListenerCount(w, name) + 2
    ensures ListenerRet(Handle(Handle(w, name, h1), name, h2), name, p)
         == ListenerRet(Handle(w, name, h2), name, p)
    ensures ListenerRet(Handle(w, name, h2), name, p)
         == match h2(p) { case Returned(v) => v case Threw => Null }
  {
  }

  /** After `removeHandle(name)` no listener is left on `name`: a message there sends nothing back. */
  lemma RemovedHandleSendsNothing(w: WorkerState, name: string, p: Payload)
    ensures Emit(RemoveHandle(w, name), name, p) == RemoveHandle(w, name)
  {
  }

  // ---------------------------------------------------------------------------
  // send

  /** The exec request `send` builds: a fresh id and `ret: null`. */
  function SendPayload(w: WorkerState, name: string, params: Value): (p: Payload)
    ensures p.id == NextId(w) && p.handleName == name && p.params == params && p.ret == Null
  {
    Payload(NextId(w), name, params, Null)
  }

  /** `send(name, params)`: one id consumed, one `__xpc_exec__` invoke. */
  function Send(w: WorkerState, name: string, params: Value): (v: WorkerState)
    ensures v.counter == w.counter + 1
    ensures v.outbox == w.outbox + [ExecInvoke(SendPayload(w, name, params))]
    ensures Channel(v.outbox[|w.outbox|]) == XPC_EXEC
    ensures v.handlers == w.handlers && v.listeners == w.listeners
  {
    w.(counter := w.counter + 1, outbox := w.outbox + [ExecInvoke(SendPayload(w, name, params))])
  }

  /** The id of a new request differs from the id of every request sent before,
      and the invariant is kept. */
  lemma {:induction false} SendIdFresh(w: WorkerState, name: string, params: Value)
    requires Valid(w)
    ensures forall i | 0 <= i < |w.outbox| && w.outbox[i].ExecInvoke? :: w.outbox[i].payload.id != NextId(w)
    ensures Valid(Send(w, name, params))
  {
    forall i | 0 <= i < |w.outbox| && w.outbox[i].ExecInvoke?
      ensures w.outbox[i].payload.id != NextId(w)
    {
      var k :| 1 <= k <= w.counter && w.outbox[i].payload.id == RendererId(w.prefix, k);
      RendererIdInjective(w.prefix, k, w.counter + 1);
    }
    var v := Send(w, name, params);
    forall i | 0 <= i < |v.outbox| && v.outbox[i].ExecInvoke?
      ensures Issued(v, v.outbox[i].payload.id)
    {
      if i < |w.outbox| {
        var k :| 1 <= k <= w.counter && w.outbox[i].payload.id == RendererId(w.prefix, k);
        assert 1 <= k <= v.counter && v.outbox[i].payload.id == RendererId(v.prefix, k);
      } else {
        assert 1 <= w.counter + 1 <= v.counter && v.outbox[i].payload.id == RendererId(v.prefix, w.counter + 1);
      }
    }
  }

  /** handle, removeHandle and the listeners send no exec request, so they keep the invariant. */
  lemma OtherStepsKeepValid(w: WorkerState, name: string, h: Handler, channel: string, p: Payload)
    requires Valid(w)
    ensures Valid(Handle(w, name, h))
    ensures Valid(RemoveHandle(w, name))
    ensures Valid(InvokeListener(w, channel, p))
  {
  }
}
