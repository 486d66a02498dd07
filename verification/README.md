# Piri mapper — a Dafny model

Piri maps an object to an instance of a requested destination type. A
`MapperConfigurationOptions` registry holds three things:

- explicit conversion functions keyed by (source type, destination type);
- fallback functions keyed by destination type alone;
- a switch that enables a generic copier.

`PiriMapper.Create` builds that registry with a configure callback and wraps
it in a `Mapper`. `Mapper.Map<TDestination>` then dispatches in strict
priority order: explicit pair, destination fallback, generic copier, and
otherwise `NotImplementedException`. The generic copier (`DefaultMap`) starts
from a default-constructed destination. It copies each readable source
property into a same-named destination property that is writable and of
exactly the same type, then makes an analogous pass over public fields.

The model is functional:

- `results.dfy` (`Results`): `Option` and `Result`.
- `clr.dfy` (`Clr`): the runtime the mapper leans on. It holds type handles,
  object state (property and field values by member name), member
  descriptors, `GetProperty`/`GetField` lookups, `BindingFlags`, and the
  exceptions. Reflection is a parameter, `Runtime`, that says what each type
  declares and what its parameterless constructor builds.
- `configuration.dfy` (`MapperConfiguration`): the registry as two Dafny maps
  and a bool. The C# builder methods mutate the one registry and return it for
  chaining. Each modelled builder returns a `Step`: the registry's state after
  the call plus the exception raised, if any.
- `default_mapping.dfy` (`DefaultMapping`): the copier, as one fold over member
  descriptors used for both passes.
- `mapping.dfy` (`Mapping`): the dispatcher.
- `factory.dfy` (`PiriMapper`): `Create`. The configure callback is the
  sequence of builder calls it makes, folded over the empty registry.

User conversion functions are Dafny functions `Value -> Value`. Type handles
are compared by identity, as `Dictionary<(Type, Type), …>` compares them.

The model follows the code on three points where a reader might expect otherwise:

- A duplicate `AddMap` or `EnableDefaultMappingFor` fails with the
  dictionary's duplicate-key error. It does not overwrite.
- `EnableDefaultMappingFor` does not turn the generic copier on.
- The field pass copies nothing, and a struct destination comes back with
  nothing copied into it (see Findings).

## Model

| member | source | states |
|---|---|---|
| `Clr.GetProperty` | src/Piri/Piri.Core/Mapper.cs:50 | The lookup returns a property of the destination's public properties with exactly the requested name, and returns none only when no public property has that name. |
| `Clr.GetField` | src/Piri/Piri.Core/Mapper.cs:62 | The lookup returns a field with the requested name that the binding flags select, and returns none only when no field of that name is selected. |
| `Clr.KindlessFieldLookupFindsNothing` | src/Piri/Piri.Core/Mapper.cs:62 | A field lookup whose flags name neither `Instance` nor `Static` (as `BindingFlags.Public` alone does) finds no field, whatever the type declares. |
| `MapperConfiguration.AddMap` | src/Piri/Piri.Core/MapperConfigurationOptions.cs:17-22 | A null function fails with `ArgumentNullException("mapFunction")`, and a pair already present fails with the duplicate-key error; both leave the registry unchanged. Success happens exactly when the function is present and the pair is new. It then adds just that pair bound to the function, keeps every other pair entry, and leaves the destination table and the switch alone. |
| `MapperConfiguration.EnableDefaultMapping` | src/Piri/Piri.Core/MapperConfigurationOptions.cs:28-32 | The copier switch is on afterwards, and both tables are unchanged. |
| `MapperConfiguration.EnableDefaultMappingIdempotent` | src/Piri/Piri.Core/MapperConfigurationOptions.cs:28-32 | Switching the copier on twice is the same as switching it on once. |
| `MapperConfiguration.EnableDefaultMappingFor` | src/Piri/Piri.Core/MapperConfigurationOptions.cs:41-46 | A null function fails with `ArgumentNullException("defaultMapFunction")`, and an already registered destination fails with the duplicate-key error; both leave the registry unchanged. Otherwise it adds just that destination, keeps the other entries, and touches neither the pair table nor the switch. |
| `DefaultMapping.CopyMembers` | src/Piri/Piri.Core/Mapper.cs:48-71 | After one pass, a destination member takes the source's value exactly when some source member of its name passes the filter. Every other member keeps the value it had before the pass. |
| `DefaultMapping.CopyWith` | src/Piri/Piri.Core/Mapper.cs:42-74 | The result keeps the default-constructed destination's runtime type and token. For a value-type destination the result is exactly the default-constructed value, because every write lands in a boxed copy. For a reference type, a property takes the source's value iff some readable source property has a same-named, writable destination property of exactly the same type. Every other property keeps its default value, and likewise for fields under the lookup flags given. |
| `DefaultMapping.DefaultMap` | src/Piri/Piri.Core/Mapper.cs:42-74 | This is the copier as written. The result keeps the constructed instance's runtime type and token; when the constructor builds exactly the requested type, the result is an instance of the destination. Its fields are exactly the default-constructed ones, because the field lookup finds nothing. A value-type destination comes back unchanged. For a reference type, property transfer is as in `CopyWith`. |
| `DefaultMapping.DefaultMapIntended` | src/Piri/Piri.Core/Mapper.cs:42-74 | This is the copier with both defects corrected. For every destination type, struct or class, a property takes the source's value iff it passes the property filter. A field takes the source's value iff it passes the field filter under `Public` and `Instance`. Every other member keeps its default-constructed value. |
| `DefaultMapping.ValueTypeCounterexample` | src/Piri/Piri.Core/Mapper.cs:47-57 | The source is class `Point` and the destination is struct `PointDto`, each with a read-write `int X`. The copier as written leaves `X` unset, while the corrected copier copies it. |
| `DefaultMapping.FieldPassCounterexample` | src/Piri/Piri.Core/Mapper.cs:60-71 | For two types that share a public instance field `Id` of the same type, the copier as written leaves `Id` unset, while the corrected copier copies it. |
| `DefaultMapping.IntendedCopiesMatchingField` | src/Piri/Piri.Core/Mapper.cs:60-71 | The corrected lookup uses `Public` and `Instance`. With it, a public source field reaches a same-named, same-typed destination field that is public, non-static, and neither `readonly` nor `const`. |
| `Mapping.Map` | src/Piri/Piri.Core/Mapper.cs:15-34 | A null source fails with `ArgumentNullException("source")` whatever the registry holds. A non-null source fails exactly when the registry has no pair entry for its exact runtime type, no entry for the destination, and the switch is off. It then fails with `NotImplementedException` naming the destination. Otherwise the result is the pair function applied to the source. Without a pair entry it is the destination function, and without either it is the copier's result. When the constructor builds exactly the requested type, that copier result is an instance of the destination type. |
| `Mapping.AddMapRoutes` | src/Piri/Piri.Core/Mapper.cs:18-23 | After registering (S, D), a source of runtime type exactly S maps to D through the new function, whatever fallbacks exist. Every other `Map` call is unchanged, so a source of another runtime type, such as a subtype, does not hit the entry. |
| `Mapping.EnableDefaultMappingForRoutes` | src/Piri/Piri.Core/Mapper.cs:20-27 | After registering a fallback for D, any non-null source of any runtime type without a pair entry maps to D through it. A pair entry still wins, and other destinations are unchanged. |
| `Mapping.EnableDefaultMappingRoutes` | src/Piri/Piri.Core/Mapper.cs:20-33 | Switching the copier on changes only calls that failed with `NotImplementedException`; they now return the copier's result. Every other call gives the same answer as before. |
| `PiriMapper.Apply` | src/Piri/Piri.Core/MapperConfigurationOptions.cs:17-46 | A builder call succeeds exactly when it supplies its function and its key is new. A missing function raises `ArgumentNullException("mapFunction")` or `ArgumentNullException("defaultMapFunction")`. A key already present raises the duplicate-key error, and a user `throw` raises its own exception. A failing call leaves the registry unchanged, and no call turns the copier switch off. |
| `PiriMapper.Run` | src/Piri/Piri.Core/PiriMapper.cs:15 | Running the configure step only grows the registry. Existing entries and their functions stay, and a switch that is on stays on. |
| `PiriMapper.RunMatchesScript` | src/Piri/Piri.Core/PiriMapper.cs:14-15 | The fold over the builder calls completes exactly when every call supplies its function, no call throws, and no key is inserted twice or was already present. The resulting tables then hold exactly the prior entries plus the registered ones, each bound to its function. The switch is on iff it was on or some call enabled it. |
| `PiriMapper.RunStopsAtFirstFailure` | src/Piri/Piri.Core/PiriMapper.cs:15 | When the configure step raises, there is a call whose predecessors all succeed. Made on the registry those predecessors built, that call raises exactly the propagated exception, and the registry stays as the predecessors left it. |
| `PiriMapper.DuplicateAddMapPropagates` | src/Piri/Piri.Core/PiriMapper.cs:15-16 | A configure step that registers the same (source, destination) pair twice makes `Create` fail with the duplicate-key error, so no mapper is returned. |
| `PiriMapper.Create` | src/Piri/Piri.Core/PiriMapper.cs:11-17 | A null callback fails with `ArgumentNullException("configure")`. Otherwise the steps start from the empty registry. A mapper is returned exactly when the callback runs through, and the error of the failing call propagates otherwise. The mapper's tables hold exactly the registered pairs and destinations, each bound to its function, and its switch is on iff the callback enabled it. |
| `PiriMapper.EmptyConfigureMapsNothing` | src/Piri/Piri.Core/PiriMapper.cs:14-16 | A callback that does nothing yields a mapper. That mapper fails every non-null source with `NotImplementedException` naming the destination. |

## Left out

- The dependency-injection extension (`AddPiriMapper`) is registration glue over a service container, which is not part of this model. `IMapper` is an interface without behaviour.
- Casts are left out. This covers the cast of the stored function's result to `TDestination`, the `(TSource)` cast inside the wrapper `AddMap` stores, and unboxing a null result into a value type. Stored functions are treated as already typed, so no `InvalidCastException` or `NullReferenceException` is modelled.
- User conversion functions are total and pure. Their own exceptions and side effects are not modelled.
- The configure callback is a straight-line sequence of builder calls, and it may throw an exception of its own. A callback that catches a builder's exception and carries on is not modelled.
- Reflection is abstract. Left out are `AmbiguousMatchException` from `GetProperty`, indexer properties (whose `GetValue` needs arguments), hidden members, and getters that compute values. A property reads the state stored under its name. Static members are also left out; their values are kept per object. Also left out are a failing parameterless constructor and `Activator.CreateInstance` returning null for `Nullable<T>`.
- PiriMapper.Create: the C# mapper shares the very registry object the callback received. A callback that keeps that reference can call the builders after `Create` returns, and `Map` then sees those changes. The model's mapper holds a value of the registry, so `Create`'s description of the tables holds at the moment `Create` returns and later changes through a kept reference are not modelled.
- Object identity is not modelled. A builder's "returns the same instance" for chaining corresponds to `Step.options`, the registry's state after the call.
- `Map` only reads the registry. This holds by construction, because `Map` is a function of the mapper and returns no registry, so no member states it. Determinism of repeated calls holds for the same reason.
- Thread safety of the registry is not modelled.
- `Create` does not model running the callback exactly once as a count. The callback is modelled as one script folded once over the registry.

## Findings

| source | as written | input that shows it | evidently intended | confidence | as-written member | corrected member |
|---|---|---|---|---|---|---|
| src/Piri/Piri.Core/Mapper.cs:47-57 | The new instance sits in a local of type `TDestination`, and `SetValue(object, object)` takes it as `object`. For a struct each call boxes a fresh copy, so every write is lost, and the default struct is returned. | Source class `Point` and destination struct `PointDto`, each with a read-write property `int X`, with `X == 5` in the source. | Hold the instance as `object` while copying and cast it to `TDestination` on return, so that struct destinations receive the copies. | high; not executed | `DefaultMapping.ValueTypeCounterexample` | `DefaultMapping.DefaultMapIntended` |
| src/Piri/Piri.Core/Mapper.cs:62 | The destination field is looked up with `BindingFlags.Public` alone. .NET selects a field only when the flags name `Instance` or `Static`, so the lookup never finds a field and the field pass copies nothing. | Source `Order` and destination `OrderDto`, each with a public instance field `int Id`. | Look the field up with `BindingFlags.Public \| BindingFlags.Instance`, so that matching public fields are copied as the method's documentation says. | high; not executed | `DefaultMapping.FieldPassCounterexample` | `DefaultMapping.IntendedCopiesMatchingField` |

The dispatcher `Mapping.Map` uses the copier as written (`DefaultMapping.DefaultMap`), so that the dispatcher's contract matches the code. The corrected copier, `DefaultMapping.DefaultMapIntended`, fixes both rows: it uses the corrected field-lookup flags, and it writes into the instance it returns for every destination type. Both copiers share the two member passes (`DefaultMapping.CopyMembers`).
