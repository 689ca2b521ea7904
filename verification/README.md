# Bottlerocket settings SDK: model registry and migration engine

A settings extension serves one family of versioned settings schemas. Each version is a typed
`SettingsModel` with a version string, an optional forward and backward neighbour, and the
operations `set`, `generate`, `validate`, `migrate_forward` and `migrate_backward`. The SDK wraps
each schema in a type-erased adapter (`BottlerocketSetting<T>` as a `Model`). The adapter reads
the JSON exchange value into the schema type and writes results back out. The adapters go into a
registry keyed by version. The router walks the neighbour links to find how many steps, and in
which direction, lead from one version to another. The executor folds a JSON value through those
steps, one adapter hop per step. The protocol-1 dispatcher maps `set`, `generate`, `validate` and
`migrate` onto the registry and the executor. The sample setting handler supplies two
message-of-the-day schemas: `v1 = {motd}` and `v2 = {motd, person}`.

The Dafny modules follow the source:

- `Wrappers` (wrappers.dfy): `Option`, the error kinds, and `Result`.
- `JsonValue` (json.dfy): the exchange value.
- `Models` (models.dfy): the schema contract, `GenerateResult` and `erase_type`, and the adapter. It models `src/model.rs`.
- `Extension` (extension.dfy): the registry, the walk, the router and the executor. It models `src/extension/mod.rs`.
- `Routing` (routing.dfy) and `Migration` (migration.dfy): what the router and the executor guarantee, independent of the walk's cut-off.
- `Chains` (chain.dfy): routes on a well-formed linear chain of versions.
- `CyclicLinks` (cyclic_links.dfy): the finding below.
- `Proto1` (proto1.dfy): the command dispatcher, `src/extension/proto1.rs`.
- `SampleModels` (sample_models.dfy): `v1.rs` and `v2.rs`. They refer to each other, so they share one module.
- `SampleHandler` (sample_handler.dfy): the two-model registry of `main.rs`.

How the model stands for the source:

- A trait object `Box<dyn Model>` becomes the record `Model`. Its fields are the version, the two links and one closure per operation over `Json`.
- A typed schema becomes the record `SettingsModel<T, P, F, B>`. It holds the schema's codec (the serde derive), its partial type's codec, the serialisers of its migration targets, and its operations.
- The `TypeId` comparison against `NoMigration` becomes the value `TargetType`. That value is either `NoMigrationType` or `SettingsType(version)`.
- The walk is cut off after `|models|` items, where the source's `MigrationIter` has no bound. `Routing.SearchIsFirstHit` and `Routing.SearchMissesIffNoHit` prove the cut-off loses nothing: the bounded search returns position `n` exactly when `n` is the least number of link steps that reaches the target. Whenever the source's search returns, the model returns the same thing. The difference is a cycle of links that does not contain the target. When the forward walk cycles like that, the source never returns, because its backward search runs only after the forward one has ended. The model instead ends the forward search and goes on to the backward search, which may find a backward route (`CyclicLinks.ForwardCycleFallsBack`). When the backward walk cycles and the forward search has failed, or both walks cycle, the model reports no route (see Findings).

In two places the code does less than a settings SDK is usually meant to do: it does not reject repeated versions, and it does not short-cut identical versions. The model follows the code in both, and in these further points:

- Duplicate versions are not rejected. The map keeps the last list entry with that version (`WithModelsLastWins`).
- A route from a version to itself has no separate fast path. It is empty because the start model is item 0 of the forward walk (`RouteToSelf`). This needs every key to name a model of its own version, which `with_models` guarantees.
- A neighbour that is missing during the fold is reported with the forward or backward "previously found" message (`MissingForward`, `MissingBackward`). `Migration.MigrationFailures` proves that this never happens on a route the router returns.
- serde's derived struct deserialiser also accepts the positional form: a JSON array holding the fields in declaration order, of exactly the right length. The sample codecs model that form too.

## Model

| member | source | states |
|---|---|---|
| Models.MigratesTo | bottlerocket-settings-sdk/src/model.rs:21-36 | a migration link is absent exactly when the target type is `NoMigration`; otherwise it is the target's version |
| Models.NoMigrationCodecRoundTrips | bottlerocket-settings-sdk/src/model.rs:49-55 | the `NoMigration` unit struct is written as `null`, only `null` reads as it, and it reads back what it writes |
| Models.Read | bottlerocket-settings-sdk/src/model.rs:204 | reading fails, with a deserialisation error, exactly when the value is not of the schema type |
| Models.ReadOptional | bottlerocket-settings-sdk/src/model.rs:188 | an absent value stays absent; a present one must read, or the result is a deserialisation error |
| Models.EraseType | bottlerocket-settings-sdk/src/model.rs:141-155 | erasing keeps the variant and whether an interior is present, and writes a present interior with the partial or the full serialiser |
| Models.AdapterSet | bottlerocket-settings-sdk/src/model.rs:183-193 | a present current value that fails to read, or a target that fails to read, is a deserialisation error; otherwise the result is the schema's `set` written back out |
| Models.AdapterMigrateForward | bottlerocket-settings-sdk/src/model.rs:195-201 | an unreadable input is a deserialisation error; otherwise the result is the schema's forward migration, written with the forward target's serialiser, or its error |
| Models.AdapterMigrateBackward | bottlerocket-settings-sdk/src/model.rs:203-208 | the same for the backward migration and the backward target's serialiser |
| Models.AdapterGenerate | bottlerocket-settings-sdk/src/model.rs:210-218 | the partial is read only when one is given, the dependent settings reach the schema untouched, and the schema's result comes back with its type erased |
| Models.AdapterValidate | bottlerocket-settings-sdk/src/model.rs:220-227 | the result is exactly the schema's verdict; an unreadable value is an error, not `false` |
| Models.BottlerocketSetting | bottlerocket-settings-sdk/src/model.rs:162-181 | the adapter's version and links are exactly the schema's, and each erased operation is the matching adapter function |
| Models.AdapterTransparent | bottlerocket-settings-sdk/src/model.rs:183-227 | when the codecs read back what they write, every erased operation on written values equals the typed operation with its result written out |
| Extension.WithModels | bottlerocket-settings-sdk/src/extension/mod.rs:17-23 | the registry's keys are the versions of the listed models, and every key maps to a model of that version |
| Extension.WithModelsLastWins | bottlerocket-settings-sdk/src/extension/mod.rs:17-23 | for a repeated version the registry keeps the last list entry with that version |
| Extension.Lookup | bottlerocket-settings-sdk/src/extension/mod.rs:33-35 | a version is found exactly when it is registered, and the model found has that version |
| Extension.Next | bottlerocket-settings-sdk/src/extension/mod.rs:141-145 | the walk moves on exactly when the link in the chosen direction exists and names a registered version |
| Extension.Walk | bottlerocket-settings-sdk/src/extension/mod.rs:115-148 | the walk from an unregistered start is empty; from a registered start it begins with the start; each item is the registered neighbour of the one before; it ends early only at a missing or unregistered link |
| Extension.Steps | bottlerocket-settings-sdk/src/extension/mod.rs:138-148 | taking steps along the links only visits registered versions, and none from an unregistered start |
| Extension.Search | bottlerocket-settings-sdk/src/extension/mod.rs:100-105 | the position found is the first item of the cut-off walk that holds a model of the target version, below the number of models, from a registered start; nothing is found only when no item of the cut-off walk holds one |
| Extension.FirstIndexOf | bottlerocket-settings-sdk/src/extension/mod.rs:100-104 | the position found holds a model of the target version and no earlier one does; nothing is found only when no item matches |
| Extension.Repeat | bottlerocket-settings-sdk/src/extension/mod.rs:111 | the route has the given length and every step in the given direction |
| Extension.FindRoute | bottlerocket-settings-sdk/src/extension/mod.rs:93-112 | there is no route exactly when neither search finds the target; a route has one direction only; it is backward only when the forward search failed |
| Extension.Follow | bottlerocket-settings-sdk/src/extension/mod.rs:60-67 | following a route's neighbour lookups only reaches registered versions |
| Extension.Fold | bottlerocket-settings-sdk/src/extension/mod.rs:55-88 | the empty route returns the value and model unchanged; a fold fails only for a missing neighbour or a failed hop |
| Extension.PerformMigration | bottlerocket-settings-sdk/src/extension/mod.rs:39-90 | an unregistered start fails before routing, a missing route fails with no route, and an empty route returns the input unchanged |
| Routing.WalkIsSteps | bottlerocket-settings-sdk/src/extension/mod.rs:138-148 | item `i` of the walk is the version reached in `i` steps, and the walk is long enough to hold every reachable step below its cut-off |
| Routing.StepsCompose | bottlerocket-settings-sdk/src/extension/mod.rs:138-148 | taking `m + j` steps is taking `m` steps and then `j` more |
| Routing.FirstHitBelowSize | bottlerocket-settings-sdk/src/extension/mod.rs:100-104 | the least number of steps that reaches the target is below the number of registered models |
| Routing.SearchFindsFirstHit | bottlerocket-settings-sdk/src/extension/mod.rs:100-104 | a position the bounded search returns is the least number of steps that reaches the target |
| Routing.FirstHitIsFound | bottlerocket-settings-sdk/src/extension/mod.rs:100-104 | the least number of steps that reaches the target is what the bounded search returns |
| Routing.SearchIsFirstHit | bottlerocket-settings-sdk/src/extension/mod.rs:100-104 | the bounded search returns `n` if and only if `n` is the least number of steps that reaches the target |
| Routing.SearchMissesIffNoHit | bottlerocket-settings-sdk/src/extension/mod.rs:100-104 | the bounded search finds nothing if and only if no number of steps reaches the target |
| Routing.ForwardRoute | bottlerocket-settings-sdk/src/extension/mod.rs:109-111 | when `n` forward steps are the fewest that reach the target, the route is `n` forward steps |
| Routing.BackwardRoute | bottlerocket-settings-sdk/src/extension/mod.rs:109-111 | when no forward walk reaches the target and `n` backward steps are the fewest that do, the route is `n` backward steps |
| Routing.NoRouteIffUnreachable | bottlerocket-settings-sdk/src/extension/mod.rs:109-111 | there is no route if and only if no number of steps in either direction reaches the target |
| Routing.FollowRepeat | bottlerocket-settings-sdk/src/extension/mod.rs:111 | following `n` copies of a direction is taking `n` steps along that direction's links |
| Routing.RouteIsFirstHit | bottlerocket-settings-sdk/src/extension/mod.rs:93-112 | a returned route is `k` copies of one direction, where `k` is the fewest steps that reach the target; it is backward only if forward never reaches the target |
| Routing.RouteReachesTarget | bottlerocket-settings-sdk/src/extension/mod.rs:93-112 | following a returned route ends at a registered model of the target version |
| Routing.RouteToSelf | bottlerocket-settings-sdk/src/extension/mod.rs:100-111 | for a registered version, the route to itself is empty |
| Routing.RouteFromUnregistered | bottlerocket-settings-sdk/src/extension/mod.rs:122 | there is no route from an unregistered version |
| Migration.FoldAlongFollow | bottlerocket-settings-sdk/src/extension/mod.rs:55-88 | along a route whose links all exist, the fold ends at the model the route leads to or fails in a hop, never with a missing neighbour |
| Migration.FoldEndsAtTarget | bottlerocket-settings-sdk/src/extension/mod.rs:55-89 | on a route the router returns, a successful fold ends at a model of the target version |
| Migration.MigrationFailures | bottlerocket-settings-sdk/src/extension/mod.rs:45-88 | a migration fails only for an unknown start, a missing route or a failed hop |
| Migration.MigrateToSelf | bottlerocket-settings-sdk/src/extension/mod.rs:45-89 | migrating a registered version to itself returns the value untouched |
| Chains.ChainStepsForward | bottlerocket-settings-sdk/src/extension/mod.rs:138-148 | on a linear chain, `n` forward steps from item `i` reach item `i + n`, or nothing past the end |
| Chains.ChainStepsBackward | bottlerocket-settings-sdk/src/extension/mod.rs:138-148 | on a linear chain, `n` backward steps from item `i` reach item `i - n`, or nothing before the start |
| Chains.ChainRoute | bottlerocket-settings-sdk/src/extension/mod.rs:93-112 | on a linear chain, the route from item `i` to item `j` is `j - i` forward steps when `i <= j` and `i - j` backward steps otherwise |
| Chains.ChainNoRoute | bottlerocket-settings-sdk/src/extension/mod.rs:93-112 | on a linear chain, there is no route from a chain version to a version outside the chain |
| CyclicLinks.UnboundedWalkNeverEnds | bottlerocket-settings-sdk/src/extension/mod.rs:138-148 | with a self-linked model, every cut-off of the walk is full length and never meets the target, so the unbounded search does not end |
| CyclicLinks.ForwardCycleFallsBack | bottlerocket-settings-sdk/src/extension/mod.rs:106-111 | on the registry `BackLinked` = {a: forward a, backward b; b: forward a}, the forward walk from a cycles on a, the cut-off forward search ends, and the route from a to b is one backward step |
| CyclicLinks.CutOffSearchEnds | bottlerocket-settings-sdk/src/extension/mod.rs:93-112 | with the cut-off, the same search ends with no route, and the migration fails with no route |
| Proto1.GenerateResultToJson | bottlerocket-settings-sdk/src/extension/proto1.rs:54-57 | a generate result is written as a one-key object from its variant name to its interior, or to `null` when there is none |
| Proto1.GenerateResultWriting | bottlerocket-settings-sdk/src/model.rs:135-139 | writing keeps the variants apart, but an absent interior and a `null` interior are written alike |
| Proto1.Set | bottlerocket-settings-sdk/src/extension/proto1.rs:39-46 | an unregistered version is "not found"; otherwise the result is exactly the model's `set` of the current and requested values |
| Proto1.Generate | bottlerocket-settings-sdk/src/extension/proto1.rs:48-58 | an unregistered version is "not found"; otherwise the result is the model's generate result written with its variant tag, or its error |
| Proto1.Migrate | bottlerocket-settings-sdk/src/extension/proto1.rs:60-62 | the result is exactly the executor's migration, so an unknown start fails |
| Proto1.Validate | bottlerocket-settings-sdk/src/extension/proto1.rs:64-74 | an unregistered version is "not found"; otherwise the result is the model's verdict as a JSON boolean, or its error |
| SampleModels.DecodeV1 | sample-setting-handler/src/v1.rs:7-11 | `MotdV1` reads only from an object or an array; an object reads exactly when its only key is `motd` holding a string, and then as that message; an array reads exactly when it holds one string, and then as that message |
| SampleModels.EncodeV1 | sample-setting-handler/src/v1.rs:7-11 | `MotdV1` is written as an object that reads back as the same value; with the decoder's contract this is exactly `{"motd": message}` |
| SampleModels.DecodeV1Partial | sample-setting-handler/src/v1.rs:49-52 | an object reads exactly when its `motd`, if present, is `null` or a string, whatever its other keys; `motd` then reads as the string it holds, or as absent when it is missing or `null` |
| SampleModels.EncodeV1Partial | sample-setting-handler/src/v1.rs:49-52 | `MotdV1Partial` is written as an object that reads back as the same value |
| SampleModels.V1Codec | sample-setting-handler/src/v1.rs:7-11 | the `MotdV1` codec reads back everything it writes |
| SampleModels.V1PartialCodec | sample-setting-handler/src/v1.rs:49-52 | the `MotdV1Partial` codec reads back everything it writes |
| SampleModels.DecodeV2 | sample-setting-handler/src/v2.rs:7-12 | `MotdV2` reads only from an object or an array; an object reads exactly when its keys are `motd` and `person`, each holding a string, and then as those fields; an array reads exactly when it holds two strings, and then as message and person |
| SampleModels.EncodeV2 | sample-setting-handler/src/v2.rs:7-12 | `MotdV2` is written as an object that reads back as the same value; with the decoder's contract this is exactly `{"motd": message, "person": person}` |
| SampleModels.DecodeV2Partial | sample-setting-handler/src/v2.rs:47-51 | an object reads exactly when its `motd` and `person`, where present, are each `null` or a string, whatever its other keys; each field then reads as the string it holds, or as absent when it is missing or `null` |
| SampleModels.EncodeV2Partial | sample-setting-handler/src/v2.rs:47-51 | `MotdV2Partial` is written as an object that reads back as the same value |
| SampleModels.V2Codec | sample-setting-handler/src/v2.rs:7-12 | the `MotdV2` codec reads back everything it writes |
| SampleModels.V2PartialCodec | sample-setting-handler/src/v2.rs:47-51 | the `MotdV2Partial` codec reads back everything it writes |
| SampleModels.V1RejectsUnknownOrMissing | sample-setting-handler/src/v1.rs:7-11 | `MotdV1` rejects an object with any key other than `motd`, or without `motd` |
| SampleModels.V2RejectsUnknownOrMissing | sample-setting-handler/src/v2.rs:7-12 | `MotdV2` rejects an object with any key other than `motd` and `person`, or missing either |
| SampleModels.StrictExamples | sample-setting-handler/src/v1.rs:7-11 | `{"motd":"hi","extra":1}` is not a `MotdV1`, and `{"motd":"hi"}` is not a `MotdV2` |
| SampleModels.PartialsIgnoreUnknownKeys | sample-setting-handler/src/v1.rs:49-52 | the partial types, which do not deny unknown fields, read the same with an extra key |
| SampleModels.V1Schema | sample-setting-handler/src/v1.rs:13-20 | `MotdV1` has version "v1", forward link "v2" and no backward link |
| SampleModels.V2Schema | sample-setting-handler/src/v2.rs:14-21 | `MotdV2` has version "v2", no forward link and backward link "v1" |
| SampleModels.V1Set | sample-setting-handler/src/v1.rs:22-24 | `set` accepts every target unchanged, whatever the current value |
| SampleModels.V1Generate | sample-setting-handler/src/v1.rs:26-31 | `generate` is complete at once with the default value, an empty message |
| SampleModels.V1Validate | sample-setting-handler/src/v1.rs:33-35 | `validate` accepts every value |
| SampleModels.V1MigrateForward | sample-setting-handler/src/v1.rs:37-42 | forward to v2 keeps the message and sets the person to "Sean", and migrating back gives the original value |
| SampleModels.V1MigrateBackward | sample-setting-handler/src/v1.rs:44-46 | there is no earlier version: the migration succeeds with the `NoMigration` marker |
| SampleModels.V2Set | sample-setting-handler/src/v2.rs:23-25 | `set` accepts every target unchanged, whatever the current value |
| SampleModels.V2Generate | sample-setting-handler/src/v2.rs:27-32 | `generate` is complete at once with the default value, an empty message and person |
| SampleModels.V2Validate | sample-setting-handler/src/v2.rs:34-36 | `validate` accepts every value |
| SampleModels.V2MigrateForward | sample-setting-handler/src/v2.rs:38-40 | there is no later version: the migration succeeds with the `NoMigration` marker |
| SampleModels.V2MigrateBackward | sample-setting-handler/src/v2.rs:42-44 | back to v1 keeps the message and drops the person |
| SampleHandler.SampleExtension | sample-setting-handler/src/main.rs:8-11 | the handler's registry has exactly the keys "v1" and "v2", each naming a model of that version |
| SampleHandler.SampleEntries | sample-setting-handler/src/main.rs:8-11 | key "v1" holds the adapter of `MotdV1` and key "v2" the adapter of `MotdV2` |
| SampleHandler.SampleIsChain | sample-setting-handler/src/main.rs:8-11 | the two versions form the linear chain v1 <-> v2 |
| SampleHandler.SampleRoutes | sample-setting-handler/src/main.rs:8-11 | v1 -> v2 is one forward step, v2 -> v1 one backward step, and each version to itself is the empty route |
| SampleHandler.SampleMigrateForward | sample-setting-handler/src/v1.rs:37-42 | migrating v1 -> v2 keeps `motd` and sets `person` to "Sean"; a value that is not a `MotdV1` fails in that hop |
| SampleHandler.SampleMigrateBackward | sample-setting-handler/src/v2.rs:42-44 | migrating v2 -> v1 keeps `motd` and drops `person`; a value that is not a `MotdV2` fails in that hop |
| SampleHandler.SampleMigrationExample | sample-setting-handler/src/main.rs:8-11 | `{"motd":"hi"}` migrates v1 -> v2 to `{"motd":"hi","person":"Sean"}`, and that value migrates back to `{"motd":"hi"}` |
| SampleHandler.V1ThereAndBack | sample-setting-handler/src/v2.rs:42-44 | going v1 -> v2 -> v1 gives back the same message |
| SampleHandler.V2ThereAndBackIsLossy | sample-setting-handler/src/v2.rs:42-44 | going v2 -> v1 -> v2 keeps the message but replaces the person with "Sean", so it loses data |
| SampleHandler.SampleUnknownVersions | sample-setting-handler/src/main.rs:8-11 | a migration from outside {v1, v2} fails with an unknown start; from inside to outside it fails with no route |
| SampleHandler.SampleSet | sample-setting-handler/src/v1.rs:22-24 | `set` ignores the current value once it reads and returns the requested value as read and written back; an unreadable value is an error |
| SampleHandler.SampleGenerate | sample-setting-handler/src/v1.rs:26-31 | `generate` is complete with the default value whatever the inputs, once a given partial reads |
| SampleHandler.SampleValidate | sample-setting-handler/src/v1.rs:33-35 | `validate` is `true` for every value that reads, and an error for one that does not |
| SampleHandler.SampleCommandsNotFound | bottlerocket-settings-sdk/src/extension/proto1.rs:39-69 | on the handler's registry, commands for any version other than v1 and v2 fail with "not found" |

## Left out

- Command-line parsing (`cli/mod.rs`, `cli/proto1.rs`): only the four command records are modelled.
- `run_extension` in `extension/proto1.rs` and `extension/mod.rs`: it prints to stdout and stderr and calls `process::exit`.
- The older `extension/proto1/mod.rs`: it is not part of this model.
- `lib.rs` and `error.rs` only re-export items or declare an empty error type.
- JSON text parsing and pretty printing. JSON is an abstract value, and numbers are integers.
- Writing a value with serde (`to_value`) cannot fail in the model. It cannot fail for these types in the source either, so the "Failed to serialize" and "Failed to JSONify" errors have no constructor.
- The `anyhow` context messages become distinct error constructors. The extra "Failed to parse incoming JSON value." context on the forward migration's read error is not kept apart from the backward one.
- `NoMigration`'s `unimplemented!` panics: they are never reached on a route the router returns.
- `HashMap` iteration order plays no part in the result.
- Extension.FindRoute: a cycle of links that does not contain the target makes the source loop forever. In the model a forward cycle ends the forward search and the backward search is tried; a backward cycle, after a failed forward search, gives no route (see Findings).

## Findings

| source | as written | input that shows it | evidently intended | confidence | as-written member | corrected member |
|---|---|---|---|---|---|---|
| bottlerocket-settings-sdk/src/extension/mod.rs:138-148 | `MigrationIter` follows links with no bound, and `find` runs until it meets the target | a registry with one model "a" whose forward link is "a", and a migration from "a" to "b": the walk yields "a" forever and `find_migration_route` never returns | each search is bounded by the number of registered models, so a misconfigured cycle ends that search with "not found"; the route then comes from the other direction, or there is none | not executed | CyclicLinks.UnboundedWalkNeverEnds | CyclicLinks.CutOffSearchEnds |
