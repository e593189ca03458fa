# compose-joiner: a Dafny model of the manifest operations and the quoting helper

compose-joiner edits docker-compose manifests from the command line. This
project models its two core files:

- `lib/compose.js` (module `Compose`, file `compose.dfy`): the manifest
  operations `update`, `getServices`, `getService`, `addService`,
  `removeService` and `join`. A parsed manifest is a map from top-level key
  to a JSON-like `Value` (`Null`, `Bool`, `Num`, `Str`, `Arr`, `Obj`). There
  are two shapes. A legacy manifest keeps its services at the top level. A
  versioned manifest keeps them under `services`, beside `version`.
  - `update`, `getServices`, `getService`, `addService` and `join` are pure
    functions.
  - `update` is also given as `UpdateManifest`. That method runs the source's
    key filter and reduce loop, and it is proved equal to `Update`.
  - `removeService` is a method over heap objects. A `Document` holds the
    top-level keys and a reference to a shared `ServiceTable`, which is the
    `services` object. This makes the shallow-copy aliasing visible: in the
    `services` branch, the caller's own manifest loses the service too. The
    method is specified by the value-level function `RemoveServiceSpec`.
- `lib/terminal.js` (module `Terminal`, file `terminal.dfy`): `read` and
  `write`, the naive quote swap used to pass a manifest as one shell argument.

## Behaviour kept as written

- `addService` chooses its branch by whether `version` is present, not
  `services` (lib/compose.js:40). So a manifest with `services` but no
  `version` gets the new service at the top level, where `getService` does not
  look (`AddServiceWithoutVersionMissesServices`).
- `join` reads `composeA.services` and `composeB.services` directly
  (lib/compose.js:69) instead of going through `getServices`. The flat services
  of a legacy side therefore stay at the top level. When the other side is
  versioned, `getService` on the result answers from that side's `services`
  (`JoinLegacyRightStaysTopLevel`). An absent `services` contributes nothing
  to `Object.assign`.
- `getServices` on a legacy manifest returns the whole manifest, including a
  stray `version` key.
- `lib/terminal.js` does the naive quote swap. The repository's `Terminal` tests
  (test/index.js:669-680) expect `read` to be the identity and `write` to use
  POSIX `'"'"'` escaping. The code does neither, and the model follows the code
  (`ReadIdentityIff`, `ReadScenario`, `WriteIsNotSingleQuoted`, `WriteScenario`).

## JavaScript semantics as definitions

These helpers have no contract of their own. Each body is the definition of a
piece of JavaScript that the operations depend on.

- `Compose.OwnProps` (lib/compose.js:41, 44-45, 67, 69): what `Object.assign`
  copies out of a value. An object gives its fields; any other value gives
  nothing.
- `Compose.ServicesSource` (lib/compose.js:45, 69): `compose.services` used as
  an `Object.assign` source. An absent key reads as `undefined` and gives
  nothing.
- `Compose.Property` (lib/compose.js:34, 36): reading one property of a value.
  `null` throws a TypeError, and a key missing from an object is absent.
- `Compose.Document.Snapshot` (lib/compose.js:50-60): the abstraction function
  from the heap `Document` to the manifest value it denotes. Its `ensures`
  clauses restate the body point by point, for use by `RemoveService`.

## Model

| member | source | states |
|---|---|---|
| `Compose.LegacyServices` | lib/compose.js:14-19 | the services built from a legacy manifest are exactly its top-level keys other than `version`, with their values |
| `Compose.Update` | lib/compose.js:11-26 | the result always has `services` and `version == v`; a manifest without `services` becomes exactly `{services: every key but version, version: v}`; a manifest with `services` keeps every key unchanged except `version` |
| `Compose.UpdateManifest` | lib/compose.js:11-26 | the filter-then-reduce loop produces the same manifest as `Update` |
| `Compose.UpdateIdempotent` | lib/compose.js:11-26 | updating twice to the same version equals updating once |
| `Compose.UpdateKeepsServices` | lib/compose.js:13-23 | after `update`, the service table is unchanged for a versioned manifest, and is the old top level minus `version` for a legacy one |
| `Compose.UpdateLegacyScenario` | test/index.js:101-119 | `{myService: {name: hello}}` updated to `2.3` is `{version: 2.3, services: {myService: {name: hello}}}` |
| `Compose.GetServices` | lib/compose.js:28-30 | the result is the `services` value when that key exists, else the whole manifest as an object, stray `version` included |
| `Compose.GetService` | lib/compose.js:32-37 | a legacy lookup reads the top level; otherwise a `null` `services` throws, and the result is absent exactly when the name is not a key of the `services` object |
| `Compose.GetServiceAgreesWithGetServices` | lib/compose.js:28-37 | `getService(m, n)` is property `n` of `getServices(m)` for every manifest and name |
| `Compose.AddService` | lib/compose.js:39-48 | without `version`, the result is the right-biased union of the manifest and the fragment; with `version`, every other key is kept and `services` becomes the right-biased union of the old `services` (empty if absent) and the fragment |
| `Compose.AddServiceThenGet` | lib/compose.js:39-48 | when the manifest's shape is consistent, `getService` on the result finds each added service with the fragment's definition |
| `Compose.AddServiceWithoutVersionMissesServices` | lib/compose.js:40-41 | a manifest with `services` but no `version` gets the service at the top level, and `getService` does not find it |
| `Compose.RemoveServiceSpec` | lib/compose.js:50-60 | with `services`, only that object loses `name` and every other key is unchanged; without it, the top level loses `name`; a `null` `services` throws |
| `Compose.RemoveMissingServiceIsNoOp` | lib/compose.js:50-60 | removing a name that `getService` does not find leaves the manifest unchanged |
| `Compose.RemoveAfterAddLegacy` | lib/compose.js:39-60 | for a legacy manifest without `version`, adding a fresh service and removing it gives back the manifest |
| `Compose.RemoveAfterAddVersioned` | lib/compose.js:39-60 | for a versioned manifest, adding a fresh service and removing it gives back the manifest |
| `Compose.Document.ShallowCopy` | lib/compose.js:51 | the copy holds the same top-level values and the same `services` reference as the original |
| `Compose.RemoveService` | lib/compose.js:50-60 | the new manifest is fresh, shares the `services` object and denotes `RemoveServiceSpec` of the old manifest; in the `services` branch the caller's manifest now denotes the same value, otherwise it is unchanged |
| `Compose.JoinedServices` | lib/compose.js:69 | the service union is the right-biased union of the two `services` objects (an absent one adds nothing) |
| `Compose.Join` | lib/compose.js:66-75 | when neither manifest has a `services` key, the result has none |
| `Compose.JoinTopLevel` | lib/compose.js:67 | every key other than `services` comes from the right-biased union of the two manifests; with no `services` on either side, the whole result is that union |
| `Compose.JoinServicesKey` | lib/compose.js:69-72 | a non-empty service union becomes `services`; an empty one leaves the `services` value the top-level union kept, `b`'s before `a`'s |
| `Compose.JoinVersion` | lib/compose.js:67 | the result's `version` is `b`'s when `b` has one, else `a`'s, and absent when neither has one |
| `Compose.JoinServiceRightBiased` | lib/compose.js:66-75 | when `b` has a `services` object that holds a name, `getService` on the join returns `b`'s definition |
| `Compose.JoinKeepsLeftServices` | lib/compose.js:66-75 | a service only `a`'s `services` object defines is still found by `getService` on the join |
| `Compose.JoinLegacyRightStaysTopLevel` | lib/compose.js:67-72 | a legacy `b` joined to a versioned `a` keeps its service at the top level, and `getService` returns `a`'s definition, not `b`'s |
| `Compose.JoinVersionedScenario` | test/index.js:555-592 | two versioned manifests join to `b`'s version and the union of both service sets |
| `Terminal.ReplaceAll` | lib/terminal.js:5 | a global character replace keeps the length and replaces exactly the matching characters |
| `Terminal.Read` | lib/terminal.js:4-6 | every `'` becomes `"`, every other character and the length are unchanged, and no `'` remains |
| `Terminal.Write` | lib/terminal.js:8-10 | the output is two characters longer, starts and ends with `"`, and its interior is the input with every `"` turned into `'`, so it holds no `"` |
| `Terminal.ReadIdentityIff` | lib/terminal.js:5 | `read(x) == x` exactly when `x` has no `'` |
| `Terminal.ReadIdempotent` | lib/terminal.js:5 | `read(read(x)) == read(x)` |
| `Terminal.WriteConflatesQuotes` | lib/terminal.js:9 | inputs that differ only by which quote character sits at some positions are written alike |
| `Terminal.WriteNotInjective` | lib/terminal.js:9 | `write("'") == write("\"")`, so `write` is not injective |
| `Terminal.ReadAfterWrite` | lib/terminal.js:4-10 | `read(write(x))` is `"`, then `x` with every quote of either kind as `"`, then `"` |
| `Terminal.ReadSingleQuoted` | lib/terminal.js:5 | on `'`, then a body with no `'`, then `'`, `read` changes only the two outer quotes to `"` |
| `Terminal.ReadScenario` | test/index.js:669-673 | on the test's argument `'{"services":{"nginx":{"name":"hello"}}}'`, `read` returns it with the outer quotes turned into `"`, so it is not the identity the test expects |
| `Terminal.WriteIsNotSingleQuoted` | lib/terminal.js:9 | `write` never returns a word that starts with `'`, so it never produces a POSIX single-quoted word |
| `Terminal.WriteScenario` | test/index.js:675-680 | on the test's argument, `write` differs from the test's expected output. It starts with `"` instead of `'`, and it is only 2 characters longer than the input, where the expected word is 10 longer |
| `Terminal.ReadAfterWriteIsNotIdentity` | lib/terminal.js:4-10 | `read(write(x))` never equals `x` |

## Left out

- `parseYAML` and `saveYAML` (lib/compose.js:7-9, 62-64): thin wrappers over the external yamljs codec and `fs.writeFileSync`. They are file I/O and are not modelled.
- Property get/set/remove (`removeProperty`, used by test/index.js:21 and 269-409): no definition exists in lib/compose.js. The CLI (`bin/compose-joiner`) is not part of this model.
- The CLI integration tests (test/index.js:683-895): they spawn processes and depend on shell quote removal.
- YAML/JSON key order and serialisation format: objects are maps here.
- `Compose.OwnProps`: strings and arrays used as an `Object.assign` source contribute index-keyed entries in JavaScript. The model treats every non-object value as contributing nothing, which is exact for `null`, `undefined`, numbers and booleans.
- `Compose.Property`: on strings and arrays, the model does not return index and `length` properties. It also does not return properties inherited from `Object.prototype` (such as `toString`); neither does `GetService` on a legacy manifest.
- `Compose.RemoveServiceSpec`: when `services` is a string or an array, `delete` of an index or of `length` can throw or leave a hole in JavaScript. The model treats every non-object, non-`null` `services` value as unchanged.
- `Compose.RemoveService`: the heap model holds `services` only as an object or absent. A manifest whose `services` is `null` or a scalar is covered only by `RemoveServiceSpec`.
- Aliasing from the other operations: `update`, `addService` and `join` also return shallow copies that share nested objects with their inputs. Only `removeService` mutates, so only its aliasing is modelled on the heap. The other operations are modelled on immutable values.
