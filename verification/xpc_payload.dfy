/** The message record exchanged by the broker, handlers, and the in-flight call record. */
module XpcPayloads {
  import opened Values

  /** XpcPayload: `ret` is `Undefined` when the field is absent. */
  datatype Payload = Payload(id: string, handleName: string, params: Value, ret: Value)

  /** What running an (async) handler on a payload yields: its resolved value, or a throw/rejection. */
  datatype Outcome = Returned(v: Value) | Threw

  /** An XpcHandler, seen as an oracle from the payload it receives to its outcome. */
  type Handler = Payload -> Outcome

  /**
   * XpcTask: one forwarded call in flight. `released` stands for the task's
   * semaphore: false while the caller is blocked in `block()`, true after `unblock()`.
   */
  datatype XpcTask = XpcTask(id: string, handleName: string, params: Value, ret: Value, released: bool)

  /** `new XpcTask(payload)`: copies the fields, `ret` defaults to null, and the semaphore starts taken. */
  function NewTask(p: Payload): (t: XpcTask)
    ensures t.id == p.id && t.handleName == p.handleName && t.params == p.params
    ensures !IsNullish(p.ret) ==> t.ret == p.ret
    ensures IsNullish(p.ret) ==> t.ret == Null
    ensures !t.released
  {
    XpcTask(p.id, p.handleName, p.params, Coalesce(p.ret, Null), false)
  }

  /** `unblock()`: releases the semaphore; every field of the payload stays. */
  function Unblock(t: XpcTask): (u: XpcTask)
    ensures u.released
    ensures ToPayload(u) == ToPayload(t)
  {
    t.(released := true)
  }

  /** `toPayload()`: the plain serializable record of the task's four fields. */
  function ToPayload(t: XpcTask): (p: Payload)
    ensures p.id == t.id && p.handleName == t.handleName && p.params == t.params && p.ret == t.ret
  {
    Payload(t.id, t.handleName, t.params, t.ret)
  }

  /** A task built from a payload gives that payload back, with `ret` normalised by `?? null`. */
  lemma ToPayloadOfNewTask(p: Payload)
    ensures ToPayload(NewTask(p)) == p.(ret := Coalesce(p.ret, Null))
    ensures !IsNullish(p.ret) ==> ToPayload(NewTask(p)) == p
  {
  }
}
