/**
 * The worker agent and the coordinator's broker together: what a caller gets
 * back when its call is forwarded to a worker, and what happens when the
 * worker has two listeners on one name or none left.
 */
module XpcEndToEnd {
  import opened Values
  import opened XpcPayloads
  import Broker
  import Agent

  /**
   * A worker exposes `name`; the main process records the announcement; a call
   * to `name` is forwarded; the worker's listener answers; the caller resumes
   * with the handler's value (`?? null`), or null if it threw, and no task is left.
   */
  lemma {:induction false} ExposeThenCall(
    s: Broker.CenterState, w: Agent.WorkerState, worker: nat,
    name: string, h: Handler, params: Value, alive: nat -> bool)
    requires Broker.Valid(s)
    requires worker != Broker.MainProcess && alive(worker)
    ensures
      var w1 := Agent.Handle(w, name, h);
      && w1.outbox[|w1.outbox| - 1] == Agent.Register(name)
      && var s1 := Broker.OnRegister(s, worker, name);
         var (step, s2) := Broker.ExecStart(s1, name, params, alive);
         var fwd := Broker.ExecPayload(s1, name, params);
         && step == Broker.Suspended(fwd.id)
         && s2.outbox[|s2.outbox| - 1] == Broker.Forward(worker, name, fwd)
         && var reply := Agent.FinishFor(w1, name, fwd);
            && Agent.InvokeListener(w1, name, fwd).outbox == w1.outbox + [Agent.Finish(reply)]
            && fwd.id in Broker.Finish(s2, reply).pending
            && var (v, s3) := Broker.ExecResume(Broker.Finish(s2, reply), fwd.id);
               && v == (match h(fwd) { case Returned(x) => Coalesce(x, Null) case Threw => Null })
               && s3.pending == s.pending
  {
    var w1 := Agent.Handle(w, name, h);
    var s1 := Broker.OnRegister(s, worker, name);
    Broker.RegisterKeepsValid(s, name, worker, h);
    var fwd := Broker.ExecPayload(s1, name, params);
    var reply := Agent.FinishFor(w1, name, fwd);
    Broker.ForwardedCallRoundTrip(s1, name, params, alive, reply);
  }

  /**
   * `handle` twice on one name leaves two listeners: each message on that
   * channel is answered twice with the same completion, and the second
   * completion leaves the main process's tables as the first one left them.
   */
  lemma {:induction false} DoubleHandleRepliesTwiceHarmlessly(
    s: Broker.CenterState, w: Agent.WorkerState, name: string, h1: Handler, h2: Handler, p: Payload)
    requires Agent.ListenerCount(w, name) == 0
    ensures
      var w2 := Agent.Handle(Agent.Handle(w, name, h1), name, h2);
      var f := Agent.FinishFor(w2, name, p);
      && f.ret == (match h2(p) { case Returned(x) => x case Threw => Null })
      && Agent.Emit(w2, name, p).outbox == w2.outbox + [Agent.Finish(f), Agent.Finish(f)]
      && Broker.Finish(Broker.Finish(s, f), f) == Broker.Finish(s, f)
  {
    var w2 := Agent.Handle(Agent.Handle(w, name, h1), name, h2);
    var f := Agent.FinishFor(w2, name, p);
    Agent.ListenerUsesLatestHandler(w, name, h1, h2, p);
    Agent.DeliverSendsOneFinishPerListener(w2, name, p, 2);
    assert seq(2, _ => Agent.Finish(f)) == [Agent.Finish(f), Agent.Finish(f)];
    Broker.FinishIdempotent(s, f);
  }

  /**
   * `removeHandle` sends nothing to the main process, so the registry still
   * routes the name to the worker and calls are still forwarded; with no
   * listener left, no completion comes back and the task stays blocked.
   */
  lemma {:induction false} RemovedHandleLeavesCallerBlocked(
    s: Broker.CenterState, w: Agent.WorkerState, worker: nat,
    name: string, h: Handler, params: Value, alive: nat -> bool)
    requires Broker.Valid(s)
    requires worker != Broker.MainProcess && alive(worker)
    ensures
      var w2 := Agent.RemoveHandle(Agent.Handle(w, name, h), name);
      && w2.outbox == w.outbox + [Agent.Register(name)]
      && var s1 := Broker.OnRegister(s, worker, name);
         var (step, s2) := Broker.ExecStart(s1, name, params, alive);
         var fwd := Broker.ExecPayload(s1, name, params);
         && step == Broker.Suspended(fwd.id)
         && Agent.Emit(w2, name, fwd) == w2
         && !s2.pending[fwd.id].released
  {
  }
}
