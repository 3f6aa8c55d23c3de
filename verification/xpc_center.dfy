/**
 * The main-process objects of dist/xpc/main: the XpcCenter tables, the
 * XpcMain handler table and the module's id counter, as one object whose
 * fields the listeners and `exec` update in place. Each method is tied to the
 * Broker transition it performs; the Broker lemmas say what those guarantee.
 */
module XpcMainProcess {
  import opened Values
  import opened XpcIds
  import opened XpcPayloads
  import opened Broker

  class XpcCenter {
    /** The random prefix chosen once at module load. */
    const prefix: string
    /** The module-level counter behind generateXpcId. */
    var counter: nat
    /** handleName -> webContentsId (0 = main process). */
    var registry: map<string, nat>
    /** XpcMain.handlers: handleName -> main-process handler. */
    var handlers: map<string, Handler>
    /** task.id -> XpcTask. */
    var pendingTasks: map<string, XpcTask>
    /** Messages sent to worker processes with `target.send`. */
    var outbox: seq<Forward>

    function State(): CenterState
      reads this
    {
      CenterState(prefix, counter, registry, handlers, pendingTasks, outbox)
    }

    ghost predicate Valid()
      reads this
    {
      Broker.Valid(State())
    }

    constructor (prefix: string)
      ensures Valid()
      ensures State() == Init(prefix)
    {
      this.prefix := prefix;
      counter := 0;
      registry := map[];
      handlers := map[];
      pendingTasks := map[];
      outbox := [];
    }

    /** generateXpcId: pre-increment the counter and render it in radix 36. */
    method GenerateXpcId() returns (id: string)
      modifies this`counter
      ensures counter == old(counter) + 1
      ensures id == XpcId(prefix, counter)
    {
      counter := counter + 1;
      id := prefix + "-" + Base36(counter);
    }

    /** registerMainHandler: the name is now owned by the main process. */
    method RegisterMainHandler(name: string)
      requires Valid()
      modifies this`registry
      ensures Valid()
      ensures registry == old(registry)[name := MainProcess]
      ensures State() == Broker.RegisterMainHandler(old(State()), name)
    {
      RegisterKeepsValid(State(), name, MainProcess, _ => Threw);
      registry := registry[name := MainProcess];
    }

    /** XpcMain.handle: store the handler, then register the name as main-owned. */
    method Handle(name: string, h: Handler)
      requires Valid()
      modifies this`handlers, this`registry
      ensures Valid()
      ensures handlers == old(handlers)[name := h]
      ensures registry == old(registry)[name := MainProcess]
      ensures State() == Broker.Handle(old(State()), name, h)
    {
      RegisterKeepsValid(State(), name, MainProcess, h);
      handlers := handlers[name := h];
      RegisterMainHandler(name);
    }

    /** XpcMain.getHandler. */
    method GetHandler(name: string) returns (h: Option<Handler>)
      ensures h.Some? <==> name in handlers
      ensures h.Some? ==> h.value == handlers[name]
    {
      if name in handlers {
        h := Some(handlers[name]);
      } else {
        h := None;
      }
    }

    /** The `__xpc_register__` listener: `registry[name] = event.sender.id`. */
    method OnRegister(sender: nat, name: string)
      requires Valid()
      modifies this`registry
      ensures Valid()
      ensures registry == old(registry)[name := sender]
      ensures State() == Broker.OnRegister(old(State()), sender, name)
    {
      RegisterKeepsValid(State(), name, sender, _ => Threw);
      registry := registry[name := sender];
    }

    /**
     * exec(name, params) up to `await task.block()`. `alive` stands for the
     * webContents lookup and its destroyed/crashed checks.
     */
    method ExecStart(name: string, params: Value, alive: nat -> bool) returns (step: ExecStep)
      requires Valid()
      modifies this
      ensures Valid()
      ensures (step, State()) == Broker.ExecStart(old(State()), name, params, alive)
      ensures step.Suspended? ==> step.id !in old(pendingTasks) && step.id in pendingTasks
      ensures step.Done? ==> pendingTasks == old(pendingTasks) && outbox == old(outbox)
    {
      ExecStartKeepsValid(State(), name, params, alive);
      NextIdFresh(State());
      if name !in registry {
        return Done(Null);
      }
      var targetId := registry[name];
      var id := GenerateXpcId();
      var payload := Payload(id, name, params, Undefined);
      if targetId == MainProcess {
        var handler := GetHandler(name);
        if handler.None? {
          return Done(Null);
        }
        match handler.value(payload) {
          case Returned(v) => step := Done(v);
          case Threw => step := Done(Null);
        }
        return;
      }
      if !alive(targetId) {
        return Done(Null);
      }
      var task := NewTask(payload);
      pendingTasks := pendingTasks[task.id := task];
      outbox := outbox + [Forward(targetId, name, payload)];
      step := Suspended(task.id);
    }

    /** XpcMain.send: delegates to exec. */
    method Send(name: string, params: Value, alive: nat -> bool) returns (step: ExecStep)
      requires Valid()
      modifies this
      ensures Valid()
      ensures (step, State()) == Broker.ExecStart(old(State()), name, params, alive)
    {
      step := ExecStart(name, params, alive);
    }

    /** The `__xpc_exec__` handler: exec on the request's handleName and params only. */
    method OnExecRequest(request: Payload, alive: nat -> bool) returns (step: ExecStep)
      requires Valid()
      modifies this
      ensures Valid()
      ensures (step, State()) == Broker.OnExecRequest(old(State()), request, alive)
    {
      step := ExecStart(request.handleName, request.params, alive);
    }

    /** The `__xpc_finish__` listener. */
    method OnFinish(payload: Payload)
      requires Valid()
      modifies this`pendingTasks
      ensures Valid()
      ensures State() == Finish(old(State()), payload)
      ensures payload.id !in old(pendingTasks) ==> pendingTasks == old(pendingTasks)
      ensures payload.id in old(pendingTasks) ==> pendingTasks == old(pendingTasks)[payload.id :=
        old(pendingTasks)[payload.id].(ret := Coalesce(payload.ret, Null), released := true)]
    {
      FinishKeepsValid(State(), payload);
      if payload.id in pendingTasks {
        var task := pendingTasks[payload.id];
        task := task.(ret := Coalesce(payload.ret, Null));
        pendingTasks := pendingTasks[payload.id := Unblock(task)];
      }
    }

    /** The rest of exec once `block()` returns: delete the task, return `ret ?? null`. */
    method ExecResume(id: string) returns (result: Value)
      requires Valid()
      requires id in pendingTasks && pendingTasks[id].released
      modifies this`pendingTasks
      ensures Valid()
      ensures (result, State()) == Broker.ExecResume(old(State()), id)
      ensures pendingTasks == old(pendingTasks) - {id}
      ensures result == Coalesce(old(pendingTasks)[id].ret, Null)
    {
      ExecResumeKeepsValid(State(), id);
      var task := pendingTasks[id];
      pendingTasks := pendingTasks - {id};
      result := Coalesce(ToPayload(task).ret, Null);
    }
  }

  /** Two forwarded calls driven through the object, completed in reverse order. */
  method ConcurrentCallsScenario(worker: nat, retA: Value, retB: Value)
    requires worker != MainProcess
  {
    var center := new XpcCenter("k3x9q");
    center.OnRegister(worker, "slow");
    center.OnRegister(worker, "fast");
    var a, b := StartTwoCalls(center, "slow", "fast");
    var va, vb := CompleteInReverse(center, a, b, retA, retB);
    assert va == Coalesce(retA, Null) && vb == Coalesce(retB, Null);
    assert center.pendingTasks == map[];
  }

  /** Issues `first` then `second`, both routed to live workers: two distinct suspended calls. */
  method StartTwoCalls(center: XpcCenter, first: string, second: string) returns (a: string, b: string)
    requires center.Valid()
    requires first in center.registry && center.registry[first] != MainProcess
    requires second in center.registry && center.registry[second] != MainProcess
    modifies center
    ensures center.Valid()
    ensures a != b && a !in old(center.pendingTasks) && b !in old(center.pendingTasks)
    ensures center.pendingTasks.Keys == old(center.pendingTasks).Keys + {a, b}
    ensures !center.pendingTasks[a].released && !center.pendingTasks[b].released
  {
    var alive: nat -> bool := _ => true;
    StartForwarded(center.State(), first, Undefined, alive);
    var stepA := center.ExecStart(first, Undefined, alive);
    a := stepA.id;
    StartForwarded(center.State(), second, Undefined, alive);
    var stepB := center.ExecStart(second, Undefined, alive);
    b := stepB.id;
  }

  /** Completes `b` before `a`, then resumes both callers: each gets its own completion's value. */
  method CompleteInReverse(center: XpcCenter, a: string, b: string, retA: Value, retB: Value)
    returns (va: Value, vb: Value)
    requires center.Valid() && a != b && a in center.pendingTasks && b in center.pendingTasks
    modifies center
    ensures va == Coalesce(retA, Null) && vb == Coalesce(retB, Null)
    ensures center.pendingTasks.Keys == old(center.pendingTasks).Keys - {a, b}
  {
    var taskA := center.pendingTasks[a];
    var taskB := center.pendingTasks[b];
    center.OnFinish(Payload(b, taskB.handleName, taskB.params, retB));
    center.OnFinish(Payload(a, taskA.handleName, taskA.params, retA));
    va, vb := ResumeBoth(center, a, b);
  }

  /** Resumes two released callers, `a` first. */
  method ResumeBoth(center: XpcCenter, a: string, b: string) returns (va: Value, vb: Value)
    requires center.Valid() && a != b && a in center.pendingTasks && b in center.pendingTasks
    requires center.pendingTasks[a].released && center.pendingTasks[b].released
    modifies center
    ensures va == Coalesce(old(center.pendingTasks)[a].ret, Null)
    ensures vb == Coalesce(old(center.pendingTasks)[b].ret, Null)
    ensures center.pendingTasks.Keys == old(center.pendingTasks).Keys - {a, b}
  {
    va := center.ExecResume(a);
    vb := center.ExecResume(b);
  }
}
