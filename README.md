# P8P service container, modelled in Dafny

This project models the dependency-injection container of the P8P framework
(`src/core/Container.php`). The container is a keyed registry. `offsetSet`
stores a value or a closure under a key, unless that key is frozen.
`offsetGet` (alias `get`) returns what a key holds, in one of three ways:

- a plain value, `null`, or an object that is not a `Closure` comes back as it is;
- a closure attached to the force-new `storage` by `forceNew` is invoked on every read;
- any other closure is invoked once, on its first read. Its result replaces
  the closure, is recorded in `objOutput`, and the key is frozen.

`output` reports the recorded result without invoking anything.
`offsetExists`/`has` test `isset` on the payload. `offsetUnset` drops the
payload only.

Files:

- `values.dfy` (module `Values`): the values an entry can hold (`Null`,
  `Scalar`, `Obj` with or without `__invoke`, `Closure`), the two exception
  kinds, and PHP's undefined-index and `isset` readings.
- `closures.dfy` (module `Closures`): closures are opaque object ids. A
  closure's behaviour is a total function `body(id, n)`: its result on the
  invocation that follows `n` earlier ones. Class `Runtime` carries that
  behaviour and a count of invocations per closure. The container does not
  own it; `offsetGet` is handed one.
- `container_spec.dfy` (module `ContainerSpec`): the five fields as a value
  `State`, the invariant `Inv`, one function per operation (`Assign`,
  `Remove`, `Mark`, `Output`, `Exists`, `Classify`/`Dispatch`/`Perform`,
  `Get`), repeated reads `GetMany`, and runs of calls (`Apply`, `Run`, `Resolutions`).
- `container.dfy` (module `Core`): class `Container`, with the five fields as
  `map`/`set` fields, updated in place by methods that carry `modifies this`.
  Each method's postcondition ties its result and new fields to the function
  in `ContainerSpec` and keeps `Valid()`. Two client methods, `SharedDatabase`
  and `ForceNewUuid`, show what a caller can conclude from those contracts alone.
- `container_properties.dfy` (module `ContainerProperties`): the lemmas.

Three behaviours of the code differ from its own doc comments, (1), (2) and
(4) below, and (3) is easy to miss. The model follows the code in (1)-(3). For
(4), class `Core.Container` follows the doc comments, and the guard as written
is modelled separately by `ContainerSpec.ClassifyAsWritten`,
`ContainerSpec.GetAsWritten` and `ContainerSpec.OutputAsWritten`.
(1) The doc comment of `offsetUnset` (`src/core/Container.php:166`) says it
erases a registered key "from all instances", but the method removes only the
payload: a frozen key stays frozen and registered, and it can never be set again.
(2) The doc comments of `offsetExists` (`src/core/Container.php:154`) and
`has` (`src/core/Container.php:202`) say they are true if the key is registered, but it is `isset($this->mixed[$key])`: a key holding
`null` is reported absent although it is registered, and an unset key is
reported absent although it stays registered.
(3) On a memoised key `offsetGet` returns `$this->mixed[$key]`, not
`$this->objOutput[$key]`. After an unset the two differ: the read gives
`null`, while `output` still gives the recorded result.
(4) The doc comments of `offsetGet` and `output` (`src/core/Container.php:91`,
`src/core/Container.php:133`) say an unregistered key raises NotFoundException,
but the registration guard is inverted; see "## Findings".

## Model

| member | source | states |
|---|---|---|
| Closures.Call | src/core/Container.php:112 | invoking a closure yields its behaviour at its current call count, raises that count by one and leaves every other closure's count alone |
| Closures.Runtime.Invoke | src/core/Container.php:117 | the in-place invocation agrees with `Call`: result and new counts |
| Core.Container.constructor | src/core/Container.php:58-61 | a new container has all five fields empty and satisfies the invariant |
| Core.Container.OffsetSet | src/core/Container.php:72-83 | result and new fields are those of `Assign`; the invariant is kept |
| Core.Container.OffsetGet | src/core/Container.php:94-125 | result, new fields and new invocation counts are those of `Get`, with the documented registration guard; the invariant is kept |
| Core.Container.Get | src/core/Container.php:218-221 | the same contract as `OffsetGet` |
| Core.Container.Output | src/core/Container.php:137-151 | without changing anything, returns NotFound for an unregistered key, else the recorded result if one is set, else the payload as stored (`null` if removed) |
| Core.Container.OffsetExists | src/core/Container.php:160-163 | true exactly when the key has a payload and it is not `null` |
| Core.Container.Has | src/core/Container.php:205-208 | the same answer as `offsetExists` |
| Core.Container.OffsetUnset | src/core/Container.php:172-175 | only the payload of the key is removed; the other four fields are untouched; the invariant is kept |
| Core.Container.ForceNew | src/core/Container.php:185-195 | new fields and result are those of `Mark`; the invariant is kept |
| ContainerProperties.EmptyIsValid | src/core/Container.php:27-61 | a new container satisfies the invariant, knows no key and reports none as existing |
| ContainerProperties.AssignEffect | src/core/Container.php:72-83 | `offsetSet` throws ContainerException exactly on a frozen key and then changes nothing; otherwise the key reads back as the value and is registered, and no other key and no other field changes |
| ContainerProperties.ApplyKeepsInv | src/core/Container.php:72-195 | every public call keeps the invariant (frozen keys = keys with a record; frozen and stored keys are registered; a frozen payload equals its record) |
| ContainerProperties.GetNotFound | src/core/Container.php:97-100 | a read throws NotFoundException exactly for an unregistered key, and that failed read changes nothing |
| ContainerProperties.NonClosureVerbatim | src/core/Container.php:102-109 | a registered payload that is not a Closure, including an invokable object of another class, is returned unchanged with no invocation and no state change |
| ContainerProperties.FirstReadResolves | src/core/Container.php:115-124 | the first read of a shared closure invokes it once; the result becomes both the payload and the record; the key is frozen; storage and registration are unchanged, and `output` then gives the result |
| ContainerProperties.OutputBeforeResolution | src/core/Container.php:144-150 | before its first read, `output` returns the closure itself, unresolved |
| ContainerProperties.FrozenReadIsVerbatim | src/core/Container.php:103-109 | reading a frozen key invokes nothing and changes nothing; it returns the record while the payload is present, and `null` once the payload is removed |
| ContainerProperties.UnsetKeepsFreeze | src/core/Container.php:172-175 | after unsetting a frozen key it is still registered and frozen, `offsetSet` on it still throws, a read gives `null`, `output` is unchanged and `has` is false |
| ContainerProperties.UnsetThenSet | src/core/Container.php:76-82 | for a key that is not frozen, unset then set succeeds and the new plain value reads back |
| ContainerProperties.MarkEffect | src/core/Container.php:185-195 | `forceNew` of something without `__invoke` throws ContainerException and changes nothing; otherwise it returns the same callable and changes only `storage`, by adding it |
| ContainerProperties.MarkObjectChangesNoRead | src/core/Container.php:103-113 | attaching an invokable object that is not a Closure changes how no key is read, since such payloads are returned verbatim |
| ContainerProperties.MarkAppliesToEveryKey | src/core/Container.php:110-113 | marking a closure force-new turns every unresolved key holding it into a force-new key, including keys set before the mark |
| ContainerProperties.ExistsAfterAssign | src/core/Container.php:160-163 | after a successful set, `has` is true exactly when the value is not `null`; a `null` value still reads back without error |
| ContainerProperties.FrozenReadsRepeat | src/core/Container.php:103-109 | any number of reads of a frozen key all return the same value and change nothing |
| ContainerProperties.SharedFactoryInvokedOnce | src/core/Container.php:103-124 | for a shared closure, n+1 reads all return the result of one single invocation; afterwards the key is frozen with that result recorded |
| ContainerProperties.ForceNewInvokedEveryRead | src/core/Container.php:110-113 | n reads of a force-new key invoke its closure n times and return its successive results; no other closure is invoked and no field changes |
| ContainerProperties.RunKeepsInv | src/core/Container.php:72-195 | every sequence of public calls keeps the invariant |
| ContainerProperties.RunOnlyGrowsKeys | src/core/Container.php:81-82 | no sequence of calls unregisters or unfreezes a key or detaches a closure |
| ContainerProperties.FrozenStep | src/core/Container.php:76-78 | one call of any kind keeps a frozen key frozen with the same record, can only remove its payload and does not resolve it again |
| ContainerProperties.FrozenForever | src/core/Container.php:76-78 | after any sequence of calls a frozen key is still frozen with the same record, its payload is the same or removed (never replaced), and no call resolves it again |
| ContainerProperties.ResolvedAtMostOnce | src/core/Container.php:115-121 | over any sequence of calls, a key's shared factory is resolved, and so invoked, at most once |
| ContainerSpec.GetAsWritten | src/core/Container.php:94-125 | `offsetGet` as the code runs: NotFoundException exactly for a registered key, with nothing changed; any other key proceeds to the verbatim, force-new or resolve branch |
| ContainerSpec.OutputAsWritten | src/core/Container.php:137-151 | `output` as the code runs: NotFoundException exactly for a registered key; otherwise the record if set, else the payload (`null` if absent) |
| ContainerProperties.GetAsWrittenRejectsSetKey | src/core/Container.php:98-100 | with the guard as written, a read of a key that was just set throws NotFoundException |
| ContainerProperties.GetAsWrittenAcceptsUnknownKey | src/core/Container.php:98-109 | with the guard as written, every key never set reads as `null` and changes nothing, where the documented guard throws NotFoundException |
| ContainerProperties.SetThenGetRaw | src/core/Container.php:91-109 | with the documented guard, a plain value that was just set reads back unchanged and nothing changes |
| ContainerProperties.OutputAsWrittenRejectsSetKey | src/core/Container.php:140-142 | with the guard as written, `output` of a key that was just set throws NotFoundException |
| ContainerProperties.SetThenOutput | src/core/Container.php:133-150 | with the documented guard, `output` of a key that was just set returns the value set, and an unregistered key is not found |

## Findings

| source | as written | input that shows it | evidently intended | confidence | as-written member | corrected member |
|---|---|---|---|---|---|---|
| src/core/Container.php:98 | `offsetGet` throws NotFoundException when `isset($this->registeredKeys[$key])` is TRUE | `offsetSet("db", "x")` then `get("db")` throws; `get("db")` on a new container returns `null` | throw only for an unregistered key, as the doc comment at line 91 and the message "is not registered" say | high (not executed) | ContainerProperties.GetAsWrittenRejectsSetKey | ContainerProperties.SetThenGetRaw |
| src/core/Container.php:140 | `output` has the same guard without the negation | `offsetSet("db", "x")` then `output("db")` throws | throw only for an unregistered key, as the doc comment at line 133 says | high (not executed) | ContainerProperties.OutputAsWrittenRejectsSetKey | ContainerProperties.SetThenOutput |

The as-written guards are `ContainerSpec.ClassifyAsWritten`, `ContainerSpec.GetAsWritten`
and `ContainerSpec.OutputAsWritten` (rows in "## Model"). The rest of the model, including class
`Core.Container`, uses the documented guard.

## Left out

- The closures' bodies are opaque. Each is given by `body(id, n)`, so a closure's result depends only on which closure it is and how many times it has run before. Closures that share state with each other (`use (&$counter)`), or that read the container passed to them as their argument, are outside the model: a factory that calls back into the container (a nested `get` or `set`, or a cycle through its own key) is not modelled. A factory that throws is also left out.
- PHP's coercion of array offsets (integer-like strings becoming integers, `null` becoming `""`) is not modelled; keys are plain strings.
- `forceNew` given a string naming an invokable class passes `method_exists`. What happens next depends on the PHP version, since the file does not declare `strict_types`. Under PHP 7, `SplObjectStorage::attach` only warns and `forceNew` returns the string. From PHP 8 on, `attach` throws a TypeError. The model rejects every non-object with ContainerException.
- `SplObjectStorage` is modelled as a set of object values; closures and other objects are numbered separately, and an object's identity is its whole value: kind, number and, for `Obj`, its `invokable` flag. A program's objects are meant to give each number one flag; no proved property depends on it. Attaching a non-Closure invokable object is recorded, but it has no effect on reads, as in the source (`MarkObjectChangesNoRead`).
- Exception messages are not modelled. The two exception classes, `src/Exception/ContainerException.php` and `src/Exception/NotFoundException.php`, have empty constructors that discard the message, so they appear only as the two `Error` variants.
- Reading an undefined index raises a notice under PHP 7 and a warning from PHP 8 on; neither is modelled. In both versions the read yields `null`, as in the model.
- The `ArrayAccess` and Interop `ContainerInterface` plumbing (`$c[$key]` syntax) is not modelled; the aliases `get` and `has` are modelled by delegation.
- `src/App.php` and `public/index.php` are bootstrap glue and are not part of this model.
- The container has no concurrency, locking or cycle detection, and none is added.
