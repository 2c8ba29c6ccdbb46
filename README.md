# java-systemd unit facade — a Dafny model

This project models the logic of the generic systemd unit facade of
java-systemd, `de.thjom.java.systemd.Unit`. That logic covers:

- how a unit name is normalised with its type suffix;
- how a D-Bus object path is mapped back to a unit name and matched against a unit;
- how `PropertiesChanged` change-sets are filtered and fanned out to the unit's state listeners;
- how the immutable `StateTuple` (load, active and sub state) is built from a unit's live values, from a change-set, or from both;
- which request each lifecycle verb sends to the manager.

It also models the row decoder `IOBandwidth(Object[])` and `IOBandwidth.list`.
Their implementation is not part of this model. Their behaviour is taken from
what `IOBandwidthTest` asserts.

Modules:

- `Wrappers`: `Option`, which stands for a nullable Java reference, and `Result`, which stands for a call that may throw.
- `UnitNames`: `normalizeName`, `extractName`, the name test inside `isAssignableFrom`, and the path `Socket.create` builds.
- `StateTuples`: the lifecycle property keys, change-sets as `map<string, string>`, `StateTuple` and its three `of` factories.
- `Units`: the class `Unit`. It holds its name, its listeners and a log of every `stateChanged` call. `OnPropertiesChanged` is the state consumer's handler. Its instance functions `IsAssignableFrom`, `JobRequest`, `Job`, `Kill`, `ResetFailed` and `Unref` read the facade's name.
- `Lifecycle`: `Mode`, `Who` and the requests the lifecycle verbs send to the manager.
- `IOBandwidths`: the row decoder and `list`.

The model treats the following as inputs:

- `Systemd.escapePath` is the function parameter `escape`.
- The unit's live `getLoadState()`, `getActiveState()` and `getSubState()` values are string parameters. They are read when `StateTuple.of(unit, map)` is called, as the code does.
- A change-set value is the string that `String.valueOf(variant.getValue())` renders.
- `Systemd.OBJECT_PATH` is taken as `/org/freedesktop/systemd1`, the object path of the systemd manager. The `Systemd` class is not part of this model. No property depends on this value.

The model follows what the code does, including three points that a reader might not expect:

- The consumer calls `stateChanged(unit, changeSet)` with the raw change-set. It does not build a `StateTuple`.
- `StateTuple.of(unit, map)` falls back to the unit's live values, not to a snapshot taken before the update.
- An exception thrown by one listener is not isolated from the others. It ends the fan-out after that listener. Whether a listener throws is the parameter `throws`.

## Model

| member | source | states |
|---|---|---|
| UnitNames.NormalizeName | src/main/java/de/thjom/java/systemd/Unit.java:195-211 | null name gives ""; null suffix gives the name; otherwise the result ends with the suffix and starts with the name, equals the name exactly when the name already ends with the suffix, and is otherwise name + suffix |
| UnitNames.NormalizeNameIdempotent | src/main/java/de/thjom/java/systemd/Unit.java:198-204 | for a non-null name, normalising the normalised name again with the same suffix changes nothing |
| UnitNames.NormalizeNameShortAndLong | src/main/java/de/thjom/java/systemd/Unit.java:200 | a short name and the same name with the suffix already on it normalise to the same name |
| UnitNames.NormalizeNullName | src/main/java/de/thjom/java/systemd/Unit.java:206-208 | a null name normalises to "", and "" normalises to the suffix, so idempotence fails only for a null name |
| UnitNames.ExtractName | src/main/java/de/thjom/java/systemd/Unit.java:213-224 | for a path in the unit namespace, prefix + result equals the path; a null path or one outside the namespace gives "" |
| UnitNames.ExtractNameRoundTrip | src/main/java/de/thjom/java/systemd/Unit.java:216-217 | extracting from prefix + x gives x back |
| UnitNames.MatchesName | src/main/java/de/thjom/java/systemd/Unit.java:242 | extractName(path) equals escape(name) exactly when the path is prefix + escape(name), or when escape(name) is "" and the path is null or outside the unit namespace |
| UnitNames.CreatedPathMatchesName | src/main/java/de/thjom/java/systemd/Unit.java:241-243 | the path prefix + escape(name) that a unit is created with matches its name |
| UnitNames.MatchingNamesAgree | src/main/java/de/thjom/java/systemd/Unit.java:241-243 | two names that match the same object path, any path at all, have the same escaped form |
| UnitNames.SocketCreatePath | src/main/java/de/thjom/java/systemd/Socket.java:221-228 | a socket name normalised with ".socket" ends with ".socket", and the object path built from it matches that name |
| StateTuples.OfUnit | src/main/java/de/thjom/java/systemd/Unit.java:694-712 | of(unit) equals of(unit, map) with an empty change-set: each field is the unit's live value |
| StateTuples.OfChanges | src/main/java/de/thjom/java/systemd/Unit.java:698-704 | each field is the change-set's value for its key when the key is present, else "-" |
| StateTuples.OfUnitAndChanges | src/main/java/de/thjom/java/systemd/Unit.java:706-712 | each field is the change-set's value for its key when the key is present, else the unit's live value |
| StateTuples.GettersReturnArguments | src/main/java/de/thjom/java/systemd/Unit.java:688-724 | each getter of a constructed tuple returns the matching constructor argument (this holds for every Dafny datatype; the lemma records the property) |
| StateTuples.OfChangesFallsBackToMissing | src/main/java/de/thjom/java/systemd/Unit.java:698-712 | of(map) equals of(unit, map) for a unit whose three values are all "-" |
| StateTuples.OfUnitAndFullChanges | src/main/java/de/thjom/java/systemd/Unit.java:698-712 | with all three keys present, of(unit, map) does not depend on the unit and equals of(map) |
| StateTuples.OnlyLifecycleKeysMatter | src/main/java/de/thjom/java/systemd/Unit.java:698-712 | two change-sets that agree on the three lifecycle keys give the same tuple, in both map variants |
| StateTuples.SuccessiveChangesCoalesce | src/main/java/de/thjom/java/systemd/Unit.java:706-712 | resolving c2 over the tuple that c1 produced equals resolving the union c1 + c2 (later values win) over the unit |
| StateTuples.DeactivatingKeepsOtherFields | src/main/java/de/thjom/java/systemd/Unit.java:706-712 | {ActiveState: deactivating} over (loaded, active, running) gives (loaded, deactivating, running) |
| Units.IsLifecycleChange | src/main/java/de/thjom/java/systemd/Unit.java:263 | a change-set the filter rejects carries none of the three keys, so on its own it resolves to the all-"-" tuple; one it accepts is non-empty |
| Units.Fanout | src/main/java/de/thjom/java/systemd/Unit.java:265 | one notification per listener, in collection order, each carrying this unit and the unmodified change-set |
| Units.FanoutReachesEachListener | src/main/java/de/thjom/java/systemd/Unit.java:265 | the recipients of a fan-out are exactly the listener sequence, so each listener is notified once per registration and no one else is notified |
| Units.FirstThrower | src/main/java/de/thjom/java/systemd/Unit.java:265 | the position of the first call of the fan-out that throws: no call before it throws and the one at it does, or no call throws |
| Units.Reached | src/main/java/de/thjom/java/systemd/Unit.java:265 | the listeners a fan-out calls form a prefix of the collection that ends at the first call that throws, or all of them |
| Units.ReachedAllIff | src/main/java/de/thjom/java/systemd/Unit.java:265 | the fan-out calls every listener exactly when no call before the last throws |
| Units.FilterIsExact | src/main/java/de/thjom/java/systemd/Unit.java:263 | a change-set is forwarded exactly when some live values exist that of(unit, map) would change |
| Units.Unit.constructor | src/main/java/de/thjom/java/systemd/Unit.java:186-193 | the facade keeps its name and its listeners, and no notification has been made yet |
| Units.Unit.OnPropertiesChanged | src/main/java/de/thjom/java/systemd/Unit.java:258-269 | with a lifecycle key present, the log grows by exactly the fan-out to the listeners reached before and including the first that throws, and the result says whether one threw; with none present, the log is unchanged and nothing throws |
| Units.Unit.IsAssignableFrom | src/main/java/de/thjom/java/systemd/Unit.java:241-243 | true exactly when the path is prefix + escape(this unit's name), or when that escaped name is "" and the path is null or outside the unit namespace |
| Units.Unit.Job | src/main/java/de/thjom/java/systemd/Unit.java:277-331 | the Mode overloads send the string-overload request with a mode string that maps back to the given mode |
| Units.Unit.Kill | src/main/java/de/thjom/java/systemd/Unit.java:333-339 | the request names this unit and the signal, and its target string maps back to the given target |
| Lifecycle.Mode.Value | src/main/java/de/thjom/java/systemd/Unit.java:77-79 | every mode's string value maps back to that mode, so distinct modes are sent as distinct strings |
| Lifecycle.Who.Value | src/main/java/de/thjom/java/systemd/Unit.java:53-55 | every target's string value maps back to that target |
| Lifecycle.ModeOfInvertsValue | src/main/java/de/thjom/java/systemd/Unit.java:64-86 | a string that maps to a mode is that mode's value |
| Lifecycle.WhoOfInvertsValue | src/main/java/de/thjom/java/systemd/Unit.java:42-62 | a string that maps to a target is that target's value |
| IOBandwidths.Decode | src/test/java/de/thjom/java/systemd/types/IOBandwidthTest.java:24-45 | decoding succeeds exactly on a row whose first two elements are a string and a UInt64, and yields that path and bandwidth; a missing element is an index error, and a non-UInt64 bandwidth is a cast error |
| IOBandwidths.List | src/test/java/de/thjom/java/systemd/types/IOBandwidthTest.java:47-108 | on success, one record per row in row order, and row i decodes to record i; on failure, the error is that of the first row that fails |
| IOBandwidths.ListSucceedsIff | src/test/java/de/thjom/java/systemd/types/IOBandwidthTest.java:78-108 | list succeeds exactly when every row is well formed |
| IOBandwidths.DecodeFooRow | src/test/java/de/thjom/java/systemd/types/IOBandwidthTest.java:26-30 | ["foo", UInt64 23] decodes to path "foo" and bandwidth 23 |
| IOBandwidths.DecodeEmptyRowFails | src/test/java/de/thjom/java/systemd/types/IOBandwidthTest.java:37-44 | an empty row fails with an index error |
| IOBandwidths.ListExamples | src/test/java/de/thjom/java/systemd/types/IOBandwidthTest.java:49-107 | no rows give an empty list; the foo/bar rows give both records in order; [[]] fails with an index error; ["foo", int 1] fails with a cast error |

## Left out

- Property cache (`Properties`): its source is not part of this model. The live lifecycle values enter only as parameters, and the typed accessor tables of `Unit` and `Socket` are one-line delegations to it.
- `Socket`: only the path-building part of `Socket.create` is modelled, by `SocketCreatePath`. The `getRemoteObject` call is transport.
- Listener registration: `unitStateListeners` and its add/remove operations live in `InterfaceAdapter`, which is not part of this model. The listeners are fixed when the facade is constructed.
- Concurrency: the `synchronized` block around the fan-out, and the signal delivery threads.
- D-Bus I/O: `addHandler`, `removeHandler`, `manager.subscribe()` and `introspect`.
- Listener behaviour: a listener is an identity. The only part of a callback's behaviour in the model is whether it throws, given per position of the fan-out, so a listener registered twice may succeed on its first call and throw on its second. The model assumes that listeners do not change the change-set: in the code every listener receives the same mutable map, so a change made by one would be seen by the listeners after it. Where the exception goes after it leaves the consumer is in `SignalConsumer`, which is not part of this model.
- Lifecycle verbs: the job `Path` the manager returns is not modelled, because `Manager` is not part of this model. `Units.Unit.JobRequest`, `ResetFailed` and `Unref` only build the request record for this unit's name. They carry no contract, because anything they could promise would repeat their bodies.
- `setProperties`: it only throws `UnsupportedOperationException`.
- `ServiceTest` and `SwapTest`: they only wire up mocks of the D-Bus layer.
- Manager registry de-duplication and the subscription toggle: their code is not part of this model.
- `IOBandwidths.Decode`: a first element that is not a string is treated as a cast error, and the first element is checked before the second. A row with more than two elements decodes its first two and ignores the rest. The test does not fix these cases. The implementation of `IOBandwidth` is not part of this model.
- `IOBandwidths.Decode`: a row is modelled with three element kinds: string, `UInt64` and `int`. Elements of other Java classes are not modelled.
- `StateTuple.toString`: string formatting only.
- Strings: a Dafny `string` is a sequence of Unicode scalar values, while Java's `endsWith`, `startsWith` and `substring` work on UTF-16 code units. The two views agree on well-formed strings and on the ASCII object-path prefix. Java strings that hold lone surrogates cannot be represented in the model.
