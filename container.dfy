/** The `Container` class of src/core/Container.php, updating its fields in place. */
module Core {
  import opened Values
  import opened Closures
  import ContainerSpec

  class Container {
    /** Stored objects and parameters. */
    var mixed: map<Key, Value>
    /** Closures that must return a new instance on every read. */
    var storage: set<Value>
    /** Memoised results of resolved closures. */
    var objOutput: map<Key, Value>
    /** Keys already used, which may no longer be overwritten. */
    var frozenKeys: set<Key>
    /** Keys that have been assigned. */
    var registeredKeys: set<Key>

    /** The five fields as one value. */
    function Snapshot(): ContainerSpec.State
      reads this
    {
      ContainerSpec.State(mixed, storage, objOutput, frozenKeys, registeredKeys)
    }

    ghost predicate Valid()
      reads this
    {
      ContainerSpec.Inv(Snapshot())
    }

    constructor ()
      ensures Valid() && Snapshot() == ContainerSpec.Empty
    {
      mixed := map[];
      storage := {};
      objOutput := map[];
      frozenKeys := {};
      registeredKeys := {};
    }

    /** `offsetSet($key, $value)`. */
    method OffsetSet(key: Key, value: Value) returns (r: Outcome)
      requires Valid()
      modifies this
      ensures Valid()
      ensures (r, Snapshot()) == ContainerSpec.Assign(old(Snapshot()), key, value)
    {
      if key in frozenKeys {
        return Fail(ContainerException);
      }
      mixed := mixed[key := value];
      registeredKeys := registeredKeys + {key};
      r := Pass;
    }

    /**
     * `offsetGet($key)`. The source's guard is `isset($this->registeredKeys[$key])`
     * without a negation, so as written it throws NotFoundException for every
     * registered key; this method takes the direction its documentation and
     * its exception message state (an unregistered key is not found). The
     * as-written guard is `ContainerSpec.ClassifyAsWritten`.
     */
    method OffsetGet(key: Key, rt: Runtime) returns (r: Result<Value>)
      requires Valid()
      modifies this, rt
      ensures Valid()
      ensures ContainerSpec.Step(r, ContainerSpec.World(Snapshot(), rt.calls))
           == ContainerSpec.Get(rt.body, ContainerSpec.World(old(Snapshot()), old(rt.calls)), key)
    {
      if key !in registeredKeys {
        return Failure(NotFoundException);
      }
      var payload := Lookup(mixed, key);
      // `is_object` and `method_exists(.., '__invoke')` hold of every Closure.
      if IsSet(objOutput, key) || !payload.Closure? {
        return Success(payload);
      } else if payload in storage {
        var instance := rt.Invoke(payload.id);
        return Success(instance);
      }
      var output := rt.Invoke(payload.id);
      mixed := mixed[key := output];
      objOutput := objOutput[key := mixed[key]];
      frozenKeys := frozenKeys + {key};
      r := Success(mixed[key]);
    }

    /** `get($key)`, the Interop alias of `offsetGet`. */
    method Get(key: Key, rt: Runtime) returns (r: Result<Value>)
      requires Valid()
      modifies this, rt
      ensures Valid()
      ensures ContainerSpec.Step(r, ContainerSpec.World(Snapshot(), rt.calls))
           == ContainerSpec.Get(rt.body, ContainerSpec.World(old(Snapshot()), old(rt.calls)), key)
    {
      r := OffsetGet(key, rt);
    }

    /**
     * `output($key)`: the memoised result, else the payload as stored; it
     * invokes nothing and changes nothing. Registration is checked in the
     * documented direction, as in `OffsetGet`.
     */
    method Output(key: Key) returns (r: Result<Value>)
      ensures r == ContainerSpec.Output(Snapshot(), key)
    {
      if key !in registeredKeys {
        return Failure(NotFoundException);
      }
      if IsSet(objOutput, key) {
        return Success(objOutput[key]);
      }
      r := Success(Lookup(mixed, key));
    }

    /** `offsetExists($key)`: `isset` on the payload, so a `null` payload is absent. */
    method OffsetExists(key: Key) returns (b: bool)
      ensures b <==> key in mixed && mixed[key] != Null
    {
      b := IsSet(mixed, key);
    }

    /** `has($key)`, the Interop alias of `offsetExists`. */
    method Has(key: Key) returns (b: bool)
      ensures b == ContainerSpec.Exists(Snapshot(), key)
    {
      b := OffsetExists(key);
    }

    /** `offsetUnset($key)`: only the payload goes; a frozen key stays frozen. */
    method OffsetUnset(key: Key)
      requires Valid()
      modifies this
      ensures Valid()
      ensures Snapshot() == ContainerSpec.Remove(old(Snapshot()), key)
    {
      mixed := mixed - {key};
    }

    /** `forceNew($callable)`: attach an invokable to `storage` and hand it back. */
    method ForceNew(callable: Value) returns (r: Result<Value>)
      requires Valid()
      modifies this
      ensures Valid()
      ensures (r, Snapshot()) == ContainerSpec.Mark(old(Snapshot()), callable)
    {
      if !callable.HasInvoke() {
        return Failure(ContainerException);
      }
      storage := storage + {callable};
      r := Success(callable);
    }
  }

  /** A client: "db" is a shared factory, read three times. */
  method SharedDatabase(body: Body)
  {
    var rt := new Runtime(body);
    var c := new Container();
    var ok := c.OffsetSet("db", Closure(1));
    assert ok == Pass;
    var db1 := c.Get("db", rt);
    assert db1 == Success(body(1, 0)) && "db" in c.frozenKeys;
    var db2 := c.Get("db", rt);
    var db3 := c.Get("db", rt);
    assert db2 == db3 == db1;
    assert Count(rt.calls, 1) == 1;
    ok := c.OffsetSet("db", Scalar("other"));
    assert ok == Fail(ContainerException);
  }

  /** A client: "uuid" is a force-new factory whose closure returns a new value each time. */
  method ForceNewUuid(body: Body)
    requires forall i, j :: i != j ==> body(2, i) != body(2, j)
  {
    var rt := new Runtime(body);
    var c := new Container();
    var uuid := c.ForceNew(Closure(2));
    assert uuid == Success(Closure(2));
    var ok := c.OffsetSet("uuid", uuid.value);
    assert ok == Pass;
    var u1 := c.Get("uuid", rt);
    assert u1 == Success(body(2, 0));
    var u2 := c.Get("uuid", rt);
    assert u2 == Success(body(2, 1));
    var u3 := c.Get("uuid", rt);
    assert u3 == Success(body(2, 2));
    assert u1 != u2 && u2 != u3 && u1 != u3;
    assert "uuid" !in c.frozenKeys;
  }
}
