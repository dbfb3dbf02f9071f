/** What a container entry can hold, seen through the checks the container makes on it. */
module Values {

  /** Container offsets. */
  type Key = string

  /**
   * Object numbering. Closures and other objects are numbered separately:
   * `Closure(3)` and `Obj(3, true)` are two different objects.
   */
  type ObjId = nat

  /**
   * A PHP value, reduced to what `Container` distinguishes: `null` (which
   * `isset` rejects), plain values, objects that are not closures (with or
   * without `__invoke`), and instances of `Closure`.
   */
  datatype Value =
    | Null
    | Scalar(repr: string)
    | Obj(id: ObjId, invokable: bool)
    | Closure(id: ObjId)
  {
    /** `method_exists($v, '__invoke')`: true of every closure and of invokable objects. */
    predicate HasInvoke() {
      Closure? || (Obj? && invokable)
    }
  }

  /** The two exception classes the container throws. Their constructors drop the message. */
  datatype Error = ContainerException | NotFoundException

  datatype Result<T> = Success(value: T) | Failure(error: Error)

  /** The outcome of a `void` method that may throw. */
  datatype Outcome = Pass | Fail(error: Error)

  /** Reading `$m[$k]`: an undefined index reads as `null` (PHP raises only a notice). */
  function Lookup(m: map<Key, Value>, k: Key): Value {
    if k in m then m[k] else Null
  }

  /** `isset($m[$k])`: the index is defined and not `null`. */
  predicate IsSet(m: map<Key, Value>, k: Key) {
    k in m && m[k] != Null
  }
}
