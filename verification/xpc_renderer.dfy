/**
 * The module state of dist/xpc/preload (its id counter and `xpcHandlers`)
 * together with the ipcRenderer side it drives (listener counts per channel
 * and the messages sent), as one object. The three public methods are the
 * members of the API object that createXpcRendererApi returns.
 */
module XpcPreload {
  import opened Values
  import opened XpcIds
  import opened XpcPayloads
  import opened Agent

  class XpcRenderer {
    const prefix: string
    var counter: nat
    var xpcHandlers: map<string, Handler>
    var listeners: map<string, nat>
    var outbox: seq<RendererMessage>

    function State(): WorkerState
      reads this
    {
      WorkerState(prefix, counter, xpcHandlers, listeners, outbox)
    }

    ghost predicate Valid()
      reads this
    {
      Agent.Valid(State())
    }

    constructor (prefix: string)
      ensures Valid()
      ensures State() == Init(prefix)
    {
      this.prefix := prefix;
      counter := 0;
      xpcHandlers := map[];
      listeners := map[];
      outbox := [];
    }

    /** generateXpcId: `r-${prefix}-${(++counter).toString(36)}`. */
    method GenerateXpcId() returns (id: string)
      modifies this`counter
      ensures counter == old(counter) + 1
      ensures id == RendererId(prefix, counter)
    {
      counter := counter + 1;
      id := "r-" + prefix + "-" + Base36(counter);
    }

    /** handle(name, h). */
    method Handle(name: string, h: Handler)
      requires Valid()
      modifies this`xpcHandlers, this`listeners, this`outbox
      ensures Valid()
      ensures xpcHandlers == old(xpcHandlers)[name := h]
      ensures outbox == old(outbox) + [Register(name)]
      ensures ListenerCount(State(), name) == ListenerCount(old(State()), name) + 1
      ensures State() == Agent.Handle(old(State()), name, h)
    {
      OtherStepsKeepValid(State(), name, h, name, Payload("", name, Undefined, Undefined));
      xpcHandlers := xpcHandlers[name := h];
      outbox := outbox + [Register(name)];
      var n := if name in listeners then listeners[name] else 0;
      listeners := listeners[name := n + 1];
    }

    /** The listener that `handle(channel, ...)` installs, run once on `payload`. */
    method InvokeListener(channel: string, payload: Payload)
      requires Valid()
      requires ListenerCount(State(), channel) > 0
      modifies this`outbox
      ensures Valid()
      ensures outbox == old(outbox) + [Finish(FinishFor(old(State()), channel, payload))]
      ensures State() == Agent.InvokeListener(old(State()), channel, payload)
    {
      OtherStepsKeepValid(State(), channel, _ => Threw, channel, payload);
      var ret := Null;
      if channel in xpcHandlers {
        var localHandler := xpcHandlers[channel];
        match localHandler(payload) {
          case Returned(v) => ret := v;
          case Threw => ret := Null;
        }
      }
      outbox := outbox + [Finish(Payload(payload.id, payload.handleName, payload.params, ret))];
    }

    /** removeHandle(name). */
    method RemoveHandle(name: string)
      requires Valid()
      modifies this`xpcHandlers, this`listeners
      ensures Valid()
      ensures xpcHandlers == old(xpcHandlers) - {name}
      ensures ListenerCount(State(), name) == 0
      ensures State() == Agent.RemoveHandle(old(State()), name)
    {
      OtherStepsKeepValid(State(), name, _ => Threw, name, Payload("", name, Undefined, Undefined));
      xpcHandlers := xpcHandlers - {name};
      listeners := listeners - {name};
    }

    /**
     * send(name, params): one `__xpc_exec__` invoke with a fresh id; the reply,
     * whatever `invoke` resolves to, is returned unchanged.
     */
    method Send(name: string, params: Value, invoke: Payload -> Value) returns (reply: Value)
      requires Valid()
      modifies this`counter, this`outbox
      ensures Valid()
      ensures State() == Agent.Send(old(State()), name, params)
      ensures reply == invoke(SendPayload(old(State()), name, params))
    {
      SendIdFresh(State(), name, params);
      var id := GenerateXpcId();
      var payload := Payload(id, name, params, Null);
      outbox := outbox + [ExecInvoke(payload)];
      reply := invoke(payload);
    }
  }
}
