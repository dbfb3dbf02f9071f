/**
 * The container of src/core/Container.php as values: its five fields, what
 * each operation does to them, and runs of operations.
 */
module ContainerSpec {
  import opened Values
  import opened Closures

  /**
   * The five fields: `mixed` (payloads), `storage` (closures that must be
   * invoked on every read), `objOutput` (memoised results), `frozenKeys`
   * (keys that may not be overwritten) and `registeredKeys` (keys ever set).
   */
  datatype State = State(
    mixed: map<Key, Value>,
    storage: set<Value>,
    objOutput: map<Key, Value>,
    frozenKeys: set<Key>,
    registeredKeys: set<Key>)

  /** A freshly constructed container. */
  const Empty := State(map[], {}, map[], {}, {})

  /**
   * What every reachable state satisfies: a key is frozen exactly when a
   * result is recorded for it, frozen and stored keys have been registered,
   * and a frozen key's payload, while it is still there, is its recorded result.
   */
  ghost predicate Inv(s: State) {
    && s.frozenKeys <= s.registeredKeys
    && s.mixed.Keys <= s.registeredKeys
    && s.objOutput.Keys == s.frozenKeys
    && forall k :: k in s.frozenKeys && k in s.mixed ==> s.mixed[k] == s.objOutput[k]
  }

  /** `offsetSet`: refused on a frozen key, otherwise stores and registers. */
  function Assign(s: State, key: Key, value: Value): (Outcome, State) {
    if key in s.frozenKeys then (Fail(ContainerException), s)
    else (Pass, s.(mixed := s.mixed[key := value], registeredKeys := s.registeredKeys + {key}))
  }

  /** `offsetUnset`: drops the payload and nothing else. */
  function Remove(s: State, key: Key): State {
    s.(mixed := s.mixed - {key})
  }

  /** `forceNew`: refuses what has no `__invoke`, otherwise attaches it to `storage`. */
  function Mark(s: State, callable: Value): (Result<Value>, State) {
    if !callable.HasInvoke() then (Failure(ContainerException), s)
    else (Success(callable), s.(storage := s.storage + {callable}))
  }

  /** `offsetExists` and `has`: `isset($this->mixed[$key])`. */
  predicate Exists(s: State, key: Key) {
    IsSet(s.mixed, key)
  }

  /** `isset($this->objOutput[$key])`. */
  predicate Memoised(s: State, key: Key) {
    IsSet(s.objOutput, key)
  }

  /**
   * `output`. The guard is the documented one: an unregistered key is not
   * found. The code as written throws for REGISTERED keys instead; that
   * version is `OutputAsWritten`.
   */
  function Output(s: State, key: Key): Result<Value> {
    if key !in s.registeredKeys then Failure(NotFoundException)
    else if Memoised(s, key) then Success(s.objOutput[key])
    else Success(Lookup(s.mixed, key))
  }

  /** `output` exactly as written: the registration test lacks its negation. */
  function OutputAsWritten(s: State, key: Key): (r: Result<Value>)
    ensures r.Failure? <==> key in s.registeredKeys
    ensures r.Success? ==> r.value == (if Memoised(s, key) then s.objOutput[key] else Lookup(s.mixed, key))
  {
    if key in s.registeredKeys then Failure(NotFoundException)
    else if Memoised(s, key) then Success(s.objOutput[key])
    else Success(Lookup(s.mixed, key))
  }

  /** The three ways `offsetGet` can proceed past its registration check. */
  datatype Branch =
    | Verbatim          // return the payload as it is
    | Fresh(id: ObjId)  // a force-new closure: invoke it, record nothing
    | Resolve(id: ObjId) // first read of a shared closure: invoke, record, freeze

  /**
   * The branch `offsetGet` takes for a registered key. Since every Closure
   * is an object with `__invoke`, the `is_object` and `method_exists` tests
   * of the source add nothing to the `instanceof Closure` test: invokable
   * objects of other classes are returned verbatim.
   */
  function Dispatch(s: State, key: Key): Branch {
    var payload := Lookup(s.mixed, key);
    if Memoised(s, key) || !payload.Closure? then Verbatim
    else if payload in s.storage then Fresh(payload.id)
    else Resolve(payload.id)
  }

  /**
   * The documented registration check followed by `Dispatch`. The code as
   * written throws for registered keys; see `ClassifyAsWritten`.
   */
  function Classify(s: State, key: Key): Result<Branch> {
    if key !in s.registeredKeys then Failure(NotFoundException) else Success(Dispatch(s, key))
  }

  /** The registration check of `offsetGet` exactly as written (no negation). */
  function ClassifyAsWritten(s: State, key: Key): Result<Branch> {
    if key in s.registeredKeys then Failure(NotFoundException) else Success(Dispatch(s, key))
  }

  /** The state after `key` is resolved to `v`: stored, recorded and frozen. */
  function Resolved(s: State, key: Key, v: Value): State {
    s.(mixed := s.mixed[key := v], objOutput := s.objOutput[key := v], frozenKeys := s.frozenKeys + {key})
  }

  /** The container together with the closures it may invoke. */
  datatype World = World(state: State, calls: map<ObjId, nat>)

  /** What one read returns and the world it leaves. */
  datatype Step = Step(out: Result<Value>, world: World)

  /** Carries out one branch of `offsetGet` on `key`. */
  function Perform(body: Body, w: World, key: Key, b: Branch): Step {
    match b
    case Verbatim => Step(Success(Lookup(w.state.mixed, key)), w)
    case Fresh(id) =>
      var (v, calls) := Call(body, w.calls, id);
      Step(Success(v), World(w.state, calls))
    case Resolve(id) =>
      var (v, calls) := Call(body, w.calls, id);
      Step(Success(v), World(Resolved(w.state, key, v), calls))
  }

  /** `offsetGet` and its alias `get`, with the documented registration check. */
  function Get(body: Body, w: World, key: Key): Step {
    match Classify(w.state, key)
    case Failure(e) => Step(Failure(e), w)
    case Success(b) => Perform(body, w, key, b)
  }

  /** `offsetGet` exactly as written. */
  function GetAsWritten(body: Body, w: World, key: Key): (r: Step)
    ensures r.out == Failure(NotFoundException) <==> key in w.state.registeredKeys
    ensures key in w.state.registeredKeys ==> r.world == w
    ensures key !in w.state.registeredKeys ==> r == Perform(body, w, key, Dispatch(w.state, key))
  {
    match ClassifyAsWritten(w.state, key)
    case Failure(e) => Step(Failure(e), w)
    case Success(b) => Perform(body, w, key, b)
  }

  /** `n` reads of the same key in a row: their results and the final world. */
  function GetMany(body: Body, w: World, key: Key, n: nat): (seq<Result<Value>>, World)
    decreases n
  {
    if n == 0 then ([], w)
    else
      var first := Get(body, w, key);
      var rest := GetMany(body, first.world, key, n - 1);
      ([first.out] + rest.0, rest.1)
  }

  /** A call on the container's public interface. */
  datatype Op =
    | SetOp(key: Key, value: Value)
    | GetOp(key: Key)
    | OutputOp(key: Key)
    | ExistsOp(key: Key)
    | UnsetOp(key: Key)
    | ForceNewOp(callable: Value)

  /** The world after one call (a thrown exception leaves it as it was). */
  function Apply(body: Body, w: World, op: Op): World {
    match op
    case SetOp(k, v) => World(Assign(w.state, k, v).1, w.calls)
    case GetOp(k) => Get(body, w, k).world
    case OutputOp(_) => w
    case ExistsOp(_) => w
    case UnsetOp(k) => World(Remove(w.state, k), w.calls)
    case ForceNewOp(c) => World(Mark(w.state, c).1, w.calls)
  }

  /** The world after a sequence of calls. */
  function Run(body: Body, w: World, ops: seq<Op>): World
    decreases |ops|
  {
    if ops == [] then w else Run(body, Apply(body, w, ops[0]), ops[1..])
  }

  /** Whether `op`, applied in `w`, is the first-read resolution of a shared closure under `k`. */
  predicate ResolvesKey(w: World, op: Op, k: Key) {
    op.GetOp? && op.key == k && Classify(w.state, k).Success? && Classify(w.state, k).value.Resolve?
  }

  /** How many calls of a run resolve `k` (each invokes its factory once). */
  function Resolutions(body: Body, w: World, ops: seq<Op>, k: Key): nat
    decreases |ops|
  {
    if ops == [] then 0
    else (if ResolvesKey(w, ops[0], k) then 1 else 0) + Resolutions(body, Apply(body, w, ops[0]), ops[1..], k)
  }
}
