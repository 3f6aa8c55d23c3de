/** JavaScript values as they cross the IPC boundary, and the `??` operator. */
module Values {

  datatype Option<+T> = None | Some(value: T)

  /** A structured-clone / JSON value. `Undefined` stands for an absent field. */
  datatype Value =
    | Undefined
    | Null
    | Bool(b: bool)
    | Num(n: int)
    | Str(s: string)
    | Arr(items: seq<Value>)
    | Obj(fields: map<string, Value>)

  /** The values `??` replaces: `null` and `undefined` (and nothing falsy besides). */
  predicate IsNullish(v: Value) {
    v.Undefined? || v.Null?
  }

  /** `v ?? fallback` */
  function Coalesce(v: Value, fallback: Value): (r: Value)
    ensures !IsNullish(v) ==> r == v
    ensures IsNullish(v) ==> r == fallback
    ensures !IsNullish(fallback) ==> !IsNullish(r)
  {
    if IsNullish(v) then fallback else v
  }

  /** `??` keeps every non-nullish value, falsy ones (`""`, `0`, `false`) included. */
  lemma CoalesceKeepsFalsy(fallback: Value)
    ensures Coalesce(Str(""), fallback) == Str("")
    ensures Coalesce(Num(0), fallback) == Num(0)
    ensures Coalesce(Bool(false), fallback) == Bool(false)
  {
  }
}
