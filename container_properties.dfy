/** What the container promises, proved about the operations of `ContainerSpec`. */
module ContainerProperties {
  import opened Values
  import opened Closures
  import opened ContainerSpec

  // ---------------------------------------------------------------------
  // One call at a time

  /** A new container satisfies the invariant and has no keys. */
  lemma EmptyIsValid(k: Key)
    ensures Inv(Empty)
    ensures Classify(Empty, k) == Failure(NotFoundException) && !Exists(Empty, k)
  {
  }

  /**
   * `offsetSet` throws exactly on frozen keys and then changes nothing;
   * otherwise `key` reads back as `value`, is registered, and no other key's
   * payload or registration and no other field changes.
   */
  lemma AssignEffect(s: State, key: Key, value: Value)
    ensures Assign(s, key, value).0.Fail? <==> key in s.frozenKeys
    ensures key in s.frozenKeys ==> Assign(s, key, value) == (Fail(ContainerException), s)
    ensures key !in s.frozenKeys ==>
      var t := Assign(s, key, value).1;
      && Lookup(t.mixed, key) == value && key in t.registeredKeys
      && (forall k :: k != key ==> Lookup(t.mixed, k) == Lookup(s.mixed, k))
      && (forall k :: k != key ==> (k in t.registeredKeys <==> k in s.registeredKeys))
      && t.storage == s.storage && t.objOutput == s.objOutput && t.frozenKeys == s.frozenKeys
  {
  }

  /** Every call keeps the invariant. */
  lemma ApplyKeepsInv(body: Body, w: World, op: Op)
    requires Inv(w.state)
    ensures Inv(Apply(body, w, op).state)
  {
  }

  /**
   * A read of an unregistered key throws NotFoundException and leaves
   * everything as it was; a read of a registered key never throws.
   */
  lemma GetNotFound(body: Body, w: World, key: Key)
    ensures Get(body, w, key).out == Failure(NotFoundException) <==> key !in w.state.registeredKeys
    ensures key !in w.state.registeredKeys ==> Get(body, w, key).world == w
  {
  }

  /**
   * A registered payload that is not a Closure (a plain value, `null`, or an
   * object of another class even if it has `__invoke`) is returned as it is,
   * and nothing is invoked, recorded or frozen.
   */
  lemma NonClosureVerbatim(body: Body, w: World, key: Key)
    requires key in w.state.registeredKeys && !Lookup(w.state.mixed, key).Closure?
    ensures Get(body, w, key) == Step(Success(Lookup(w.state.mixed, key)), w)
  {
  }

  /**
   * The first read of a registered closure that is not force-new invokes it
   * once, and its result becomes the payload and the recorded output, and
   * the key is frozen; `output` then reports that result.
   */
  lemma FirstReadResolves(body: Body, w: World, key: Key, id: ObjId)
    requires Lookup(w.state.mixed, key) == Closure(id) && Closure(id) !in w.state.storage
    requires key in w.state.registeredKeys && !Memoised(w.state, key)
    ensures var v := body(id, Count(w.calls, id));
      var step := Get(body, w, key);
      && step.out == Success(v)
      && step.world.calls == Call(body, w.calls, id).1
      && step.world.state.mixed == w.state.mixed[key := v]
      && step.world.state.objOutput == w.state.objOutput[key := v]
      && step.world.state.frozenKeys == w.state.frozenKeys + {key}
      && step.world.state.storage == w.state.storage
      && step.world.state.registeredKeys == w.state.registeredKeys
      && Output(step.world.state, key) == Success(v)
  {
  }

  /** Before that first read, `output` hands back the closure itself, unresolved. */
  lemma OutputBeforeResolution(s: State, key: Key, id: ObjId)
    requires Classify(s, key) == Success(Resolve(id))
    ensures Output(s, key) == Success(Closure(id))
  {
  }

  /**
   * A frozen key's read takes the verbatim branch: nothing is invoked. Its
   * result is the recorded output while the payload is present, and `null`
   * once `offsetUnset` has removed the payload.
   */
  lemma FrozenReadIsVerbatim(body: Body, w: World, key: Key)
    requires Inv(w.state) && key in w.state.frozenKeys
    ensures Classify(w.state, key) == Success(Verbatim)
    ensures Get(body, w, key).world == w
    ensures Get(body, w, key).out == Success(if key in w.state.mixed then w.state.objOutput[key] else Null)
  {
  }

  /**
   * `offsetUnset` removes only the payload. A frozen key therefore stays
   * frozen: a later `offsetSet` still throws, reads return `null`, and
   * `output` still reports what it reported before.
   */
  lemma UnsetKeepsFreeze(body: Body, w: World, key: Key, value: Value)
    requires Inv(w.state) && key in w.state.frozenKeys
    ensures var t := Remove(w.state, key);
      && t.registeredKeys == w.state.registeredKeys && t.frozenKeys == w.state.frozenKeys
      && t.objOutput == w.state.objOutput && t.storage == w.state.storage
      && Assign(t, key, value) == (Fail(ContainerException), t)
      && Get(body, World(t, w.calls), key).out == Success(Null)
      && Output(t, key) == Output(w.state, key)
      && !Exists(t, key)
  {
  }

  /** For a key that is not frozen, unsetting and setting again makes the new value read back. */
  lemma UnsetThenSet(body: Body, w: World, key: Key, value: Value)
    requires key !in w.state.frozenKeys && !value.Closure?
    ensures var t := Assign(Remove(w.state, key), key, value);
      t.0 == Pass && Get(body, World(t.1, w.calls), key) == Step(Success(value), World(t.1, w.calls))
  {
  }

  /**
   * `forceNew` refuses what has no `__invoke` and changes nothing; otherwise
   * it hands the callable back and only adds it to `storage`, so no key's
   * entry changes.
   */
  lemma MarkEffect(s: State, callable: Value)
    ensures !callable.HasInvoke() ==> Mark(s, callable) == (Failure(ContainerException), s)
    ensures callable.HasInvoke() ==>
      var (r, t) := Mark(s, callable);
      && r == Success(callable) && t.storage == s.storage + {callable}
      && t.mixed == s.mixed && t.objOutput == s.objOutput
      && t.frozenKeys == s.frozenKeys && t.registeredKeys == s.registeredKeys
  {
  }

  /**
   * The mark is on the closure object, not on a key: every unresolved key
   * whose payload is that closure becomes force-new, including keys set
   * before `forceNew` was called.
   */
  lemma MarkAppliesToEveryKey(s: State, key: Key, id: ObjId)
    requires Classify(s, key) == Success(Resolve(id))
    ensures Classify(Mark(s, Closure(id)).1, key) == Success(Fresh(id))
  {
  }

  /**
   * Attaching an invokable object that is not a Closure is recorded in
   * `storage` but changes how no key is read: such payloads are returned
   * verbatim whether attached or not.
   */
  lemma MarkObjectChangesNoRead(s: State, key: Key, id: ObjId, invokable: bool)
    ensures Classify(Mark(s, Obj(id, invokable)).1, key) == Classify(s, key)
  {
  }

  /**
   * `offsetExists`/`has` follow `isset`: after a successful `offsetSet` the
   * key exists exactly when the value is not `null`, even though a `null`
   * payload is registered and reads back without error.
   */
  lemma ExistsAfterAssign(body: Body, w: World, key: Key, value: Value)
    requires key !in w.state.frozenKeys
    ensures var t := Assign(w.state, key, value).1;
      && (Exists(t, key) <==> value != Null)
      && (value == Null ==> Get(body, World(t, w.calls), key).out == Success(Null))
  {
  }

  // ---------------------------------------------------------------------
  // Repeated reads of one key

  /** Reading a frozen key any number of times returns the same value and changes nothing. */
  lemma {:induction false} FrozenReadsRepeat(body: Body, w: World, key: Key, n: nat)
    requires Inv(w.state) && key in w.state.frozenKeys
    ensures var (outs, w') := GetMany(body, w, key, n);
      && w' == w && |outs| == n
      && forall i :: 0 <= i < n ==> outs[i] == Get(body, w, key).out
    decreases n
  {
    if n > 0 {
      FrozenReadIsVerbatim(body, w, key);
      FrozenReadsRepeat(body, w, key, n - 1);
    }
  }

  /**
   * A shared factory is invoked exactly once over any number of reads:
   * `n + 1` reads all return the result of that one invocation, after which
   * the key is frozen with that result recorded.
   */
  lemma SharedFactoryInvokedOnce(body: Body, w: World, key: Key, id: ObjId, n: nat)
    requires Inv(w.state) && Classify(w.state, key) == Success(Resolve(id))
    ensures var (outs, w') := GetMany(body, w, key, n + 1);
      var v := body(id, Count(w.calls, id));
      && |outs| == n + 1
      && (forall i :: 0 <= i <= n ==> outs[i] == Success(v))
      && w'.calls == w.calls[id := Count(w.calls, id) + 1]
      && w'.state == Resolved(w.state, key, v)
      && key in w'.state.frozenKeys && w'.state.objOutput[key] == v
  {
    var first := Get(body, w, key);
    var v := body(id, Count(w.calls, id));
    assert first.out == Success(v) && first.world.state == Resolved(w.state, key, v);
    assert Inv(first.world.state);
    FrozenReadsRepeat(body, first.world, key, n);
    FrozenReadIsVerbatim(body, first.world, key);
  }

  /**
   * A force-new closure is invoked on every read: `n` reads invoke it `n`
   * times, return its successive results, invoke no other closure, and
   * leave the container's fields as they were.
   */
  lemma {:induction false} ForceNewInvokedEveryRead(body: Body, w: World, key: Key, id: ObjId, n: nat)
    requires Classify(w.state, key) == Success(Fresh(id))
    ensures var (outs, w') := GetMany(body, w, key, n);
      && w'.state == w.state
      && Count(w'.calls, id) == Count(w.calls, id) + n
      && (forall other :: other != id ==> Count(w'.calls, other) == Count(w.calls, other))
      && |outs| == n
      && forall i :: 0 <= i < n ==> outs[i] == Success(body(id, Count(w.calls, id) + i))
    decreases n
  {
    if n > 0 {
      var first := Get(body, w, key);
      assert first.world == World(w.state, Call(body, w.calls, id).1);
      ForceNewInvokedEveryRead(body, first.world, key, id, n - 1);
    }
  }

  // ---------------------------------------------------------------------
  // Arbitrary runs of calls

  /** Every run keeps the invariant. */
  lemma {:induction false} RunKeepsInv(body: Body, w: World, ops: seq<Op>)
    requires Inv(w.state)
    ensures Inv(Run(body, w, ops).state)
    decreases |ops|
  {
    if ops != [] {
      ApplyKeepsInv(body, w, ops[0]);
      RunKeepsInv(body, Apply(body, w, ops[0]), ops[1..]);
    }
  }

  /** Registration and freezing are never undone by any run of calls. */
  lemma {:induction false} RunOnlyGrowsKeys(body: Body, w: World, ops: seq<Op>)
    ensures w.state.registeredKeys <= Run(body, w, ops).state.registeredKeys
    ensures w.state.frozenKeys <= Run(body, w, ops).state.frozenKeys
    ensures w.state.storage <= Run(body, w, ops).state.storage
    decreases |ops|
  {
    if ops != [] {
      RunOnlyGrowsKeys(body, Apply(body, w, ops[0]), ops[1..]);
    }
  }

  /** One call on a frozen key: it stays frozen, its record is kept, its payload can only go away. */
  lemma FrozenStep(body: Body, w: World, op: Op, k: Key)
    requires Inv(w.state) && k in w.state.frozenKeys
    ensures var t := Apply(body, w, op).state;
      && k in t.frozenKeys && t.objOutput[k] == w.state.objOutput[k]
      && (k in t.mixed ==> k in w.state.mixed && t.mixed[k] == w.state.mixed[k])
      && !ResolvesKey(w, op, k)
  {
    FrozenReadIsVerbatim(body, w, k);
  }

  /**
   * Once frozen, a key is frozen for good: after any run of calls its
   * recorded result is the same, its payload is either the same or removed
   * (never replaced), and no call of the run resolves it again.
   */
  lemma {:induction false} FrozenForever(body: Body, w: World, ops: seq<Op>, k: Key)
    requires Inv(w.state) && k in w.state.frozenKeys
    ensures var t := Run(body, w, ops).state;
      && k in t.frozenKeys && k in t.objOutput && t.objOutput[k] == w.state.objOutput[k]
      && (k in t.mixed ==> k in w.state.mixed && t.mixed[k] == w.state.mixed[k])
    ensures Resolutions(body, w, ops, k) == 0
    decreases |ops|
  {
    if ops != [] {
      FrozenStep(body, w, ops[0], k);
      ApplyKeepsInv(body, w, ops[0]);
      FrozenForever(body, Apply(body, w, ops[0]), ops[1..], k);
    }
  }

  /** Over any run of calls, a key's shared factory is invoked at most once. */
  lemma {:induction false} ResolvedAtMostOnce(body: Body, w: World, ops: seq<Op>, k: Key)
    requires Inv(w.state)
    ensures Resolutions(body, w, ops, k) <= 1
    decreases |ops|
  {
    if ops != [] {
      var w1 := Apply(body, w, ops[0]);
      ApplyKeepsInv(body, w, ops[0]);
      if ResolvesKey(w, ops[0], k) {
        assert k in w1.state.frozenKeys;
        FrozenForever(body, w1, ops[1..], k);
      } else {
        ResolvedAtMostOnce(body, w1, ops[1..], k);
      }
    }
  }

  // ---------------------------------------------------------------------
  // The registration guard as written at src/core/Container.php:98 and :140

  /**
   * As written, `offsetGet` throws NotFoundException for every key that has
   * just been set, so `set(K, V); get(K)` never returns `V`.
   */
  lemma GetAsWrittenRejectsSetKey(body: Body, w: World, key: Key, value: Value)
    requires key !in w.state.frozenKeys
    ensures var t := World(Assign(w.state, key, value).1, w.calls);
      GetAsWritten(body, t, key).out == Failure(NotFoundException)
  {
  }

  /**
   * As written, a key that was never set is not reported missing: the read
   * yields `null` and changes nothing, where the documented guard throws
   * NotFoundException.
   */
  lemma GetAsWrittenAcceptsUnknownKey(body: Body, w: World, key: Key)
    requires Inv(w.state) && key !in w.state.registeredKeys
    ensures GetAsWritten(body, w, key) == Step(Success(Null), w)
    ensures Get(body, w, key).out == Failure(NotFoundException)
  {
  }

  /** With the documented guard, a plain value that was set reads back as it is. */
  lemma SetThenGetRaw(body: Body, w: World, key: Key, value: Value)
    requires key !in w.state.frozenKeys && !value.Closure?
    ensures var t := World(Assign(w.state, key, value).1, w.calls);
      Get(body, t, key) == Step(Success(value), t)
  {
  }

  /** As written, `output` likewise throws for a key that has just been set. */
  lemma OutputAsWrittenRejectsSetKey(s: State, key: Key, value: Value)
    requires key !in s.frozenKeys
    ensures OutputAsWritten(Assign(s, key, value).1, key) == Failure(NotFoundException)
  {
  }

  /**
   * With the documented guard, `output` of a key that was just set reports
   * the value set (it is not resolved yet), and an unknown key is not found.
   */
  lemma SetThenOutput(s: State, key: Key, value: Value)
    requires Inv(s) && key !in s.frozenKeys
    ensures Output(Assign(s, key, value).1, key) == Success(value)
    ensures key !in s.registeredKeys ==> Output(s, key) == Failure(NotFoundException)
  {
  }
}
