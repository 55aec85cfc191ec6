# intouch theme plugin: the regeneration step

This project models the webpack plugin `IntouchThemePlugin` of
`src/index.ts`. The plugin keeps two theme source files, `values` and
`variants`. Whenever one of them changes it regenerates one theme module
from both of them.

The model covers:

- **The registry** built by the constructor and `validateThemeFilepath`.
  It holds, per source name, the resolved path, the last bytes read
  (`themeFileBuffers`) and the last parsed value (`themeJSONData`).
- **`writeThemeJS`**. The sources are visited in registration order. Each
  source's fresh bytes are compared byte for byte with the stored buffer.
  When they differ, the buffer is replaced, the bytes are parsed and the
  value is stored. Then every array element without a truthy own `id` gets
  a new one. The file is written back when an id was created. Finally, if
  some source changed and no source's promise rejected, `themeProcessor`
  builds the theme and the theme module is written. A throw of
  `themeProcessor` skips the module and rejects the run.
- **The artifact text**: the `TYPE_DECLARATIONS` block and the rule that
  makes the artifact TypeScript when `path.extname` of the output path is
  `.ts`.

The model has these layers:

- `Regeneration` states one run as a function (`Regenerate`, built from
  `VisitSource`, the body of one promise executor).
- `ThemePlugin.IntouchThemePlugin` is the class with the registry as fields.
  Its `WriteThemeJS` is a loop proved equal to `Regenerate`.
- `IdBackfill` has the backfill loop (`BackfillParsed`) proved equal to the
  function `Backfill`.
- `Convergence` proves that runs settle. The first run backfills. The
  second run re-reads the files written back and writes no new source bytes.
  The third run writes nothing. When the first run's source files have no
  arrays nested in a top-level array, the second run already writes back no
  source and calls `createUuid` not once.

The collaborators the code calls but does not define are parameters of
type `Host`:

- `JSON.parse`, as a partial function (`None` when it throws);
- `JSON.stringify(_, null, 2)`;
- the string-to-bytes encoding of `fs.writeFileSync`;
- `themeProcessor`, as a partial function (`None` when it throws).

`createUuid` is a token supply `uuid: nat -> string`: the n-th call of a run
returns `uuid(n)`. `path.resolve('.', _)` is the function `resolve`.

The filesystem is a map from path to bytes plus a log of writes. A write
fires the file watcher even when it stores the same bytes, so "writes
nothing" is stated on the log.

Semantics the model follows from the code:

- Each executor runs synchronously inside `map`. An exception in one of
  them (a missing file, bytes that do not parse, a backfill step that
  throws) rejects only that source's promise, and the next source is still
  visited. The rejection of `Promise.all` then skips the artifact (lines
  101-108).
- The buffer is replaced before the parse (line 75). The value is stored
  before the backfill loop and then changed in place (lines 77, 85), so the
  registry keeps the value after the backfill, including the ids stamped
  before a step that threw.
- The module runs in strict mode. The loop body throws on these elements:
  - `null`, and an object whose own `hasOwnProperty` member shadows the
    method: the guard throws before `createUuid` is called;
  - a boolean, a number or a string without a truthy `id`: `createUuid()`
    is evaluated first, so a token is taken, and then the assignment of
    `id` throws.

  An array element gets an `id` property that `JSON.stringify` does not
  show, but it still sets `createdUuid`.
- `jsonData.length` decides how many times the loop runs:
  - `null` throws;
  - a non-empty string takes one token and then throws on its first
    character;
  - numbers, booleans, the empty string and objects run the loop zero
    times.

Three further facts about the code that the model keeps:

- The artifact always starts with `const theme = ` and ends with
  `export default theme` (line 106).
- The watcher calls `writeThemeJS` directly on every change event, with no
  debounce (line 114).
- A run in which one source's executor throws still keeps that source's
  replaced buffer and the other sources' new buffers and values (lines
  75-78).

## Model

| member | source | states |
|---|---|---|
| Json.Truthy | src/index.ts:84 | `!!v` of JavaScript: `null`, `false`, `0` and `""` are the falsy JSON values |
| Files.Disk.ReadFile | src/index.ts:72 | reading a path fails exactly when no file is there, and otherwise yields its bytes |
| Files.Disk.WriteFile | src/index.ts:91 | the whole content of the path is replaced and the write is logged |
| IdBackfill.Assign | src/index.ts:85 | an object gets member `id` set to the token and keeps every other member; a value that is not an object is unchanged as JSON |
| IdBackfill.GuardThrows | src/index.ts:84 | the test `!jsonData[i].hasOwnProperty('id')` throws on `null` and on an object whose own `hasOwnProperty` member shadows the method |
| IdBackfill.AssignThrows | src/index.ts:85 | in strict mode, setting `id` on a boolean, a number or a string throws |
| IdBackfill.Throws | src/index.ts:84-85 | the loop body throws on an element iff the guard or the assignment throws on it |
| IdBackfill.LacksId | src/index.ts:84 | an element needs an id iff it is not an object with an own truthy `id` |
| IdBackfill.BackfillFrom | src/index.ts:83-88 | the loop from index `i` never gives back a token, and once `createdUuid` is set it stays set |
| IdBackfill.Backfill | src/index.ts:80-88 | the backfill of a parsed value never gives back a token |
| IdBackfill.CallAtThrow | src/index.ts:85 | the element the loop stopped at took one token iff it is a primitive, whose assignment throws after `createUuid()` ran |
| IdBackfill.BackfillParsed | src/index.ts:80-88 | the loop over the parsed value gives the same value, token count, `createdUuid` flag and failure as `Backfill` |
| IdBackfill.CreatedIffTokenTaken | src/index.ts:81-86 | on a loop that did not throw, `createdUuid` holds iff a token was taken |
| IdBackfill.BackfillArrayEffect | src/index.ts:80-88 | up to the first element the loop throws on, each element lacking a truthy `id` gets the next token and every other element is kept; the loop fails iff it stopped early; the tokens taken are the elements before the stop that lacked an id, plus one when the stop is a primitive; `createdUuid` holds iff an element before the stop lacked an id |
| IdBackfill.BackfillAssignsMissingIds | src/index.ts:83-87 | when no element throws, the loop runs to the end without throwing, elements with a truthy `id` are unchanged, and one token is taken per element that lacked one |
| IdBackfill.BackfillStampsObject | src/index.ts:84-86 | when no element throws, an object without a truthy `id` gets `id` set to the token after those taken by the elements before it, and keeps its other members |
| IdBackfill.BackfillFailsIffSomeElementThrows | src/index.ts:84-85 | on an array the loop throws iff some element is `null`, a primitive or an object shadowing `hasOwnProperty` |
| IdBackfill.NonArrayIsUntouched | src/index.ts:80-83 | a value that is not an array is not changed and does not set `createdUuid`; it throws iff it is `null` or a non-empty string, and only a non-empty string takes a token |
| IdBackfill.BackfillResultIsStable | src/index.ts:83-87 | with non-empty tokens, a loop that did not throw leaves every element with a truthy `id` (or an array) |
| IdBackfill.BackfillResultIsClean | src/index.ts:83-87 | when the parsed array had no array elements, the result of a loop that did not throw has a truthy `id` on every element |
| IdBackfill.StableIsFixedPoint | src/index.ts:83-88 | the loop neither changes nor throws on a value whose elements all have a truthy `id` |
| IdBackfill.CleanIsUntouched | src/index.ts:83-88 | on such a value without array elements the loop also takes no token, so `createdUuid` stays false |
| Artifact.ArtifactText | src/index.ts:104-107 | the artifact is `const theme = `, then the serialised theme verbatim, then the trailer of its format |
| Artifact.Trailer | src/index.ts:106 | the TypeScript trailer starts with ` as const` and a blank line, carries `TYPE_DECLARATIONS` just before the end and ends with `export default theme`; the plain trailer is a blank line and `export default theme` |
| Artifact.ArtifactEmbedsTheme | src/index.ts:106 | the serialised theme can be read back from the artifact, so different themes give different artifacts |
| Artifact.TypedArtifactExtendsPlain | src/index.ts:106 | the TypeScript artifact is the plain one lengthened by ` as const` and the declaration block, with the same opening and theme |
| Artifact.Extname | src/index.ts:51 | the extension is a suffix of the last path component; when not empty it is a `.` followed by neither `.` nor `/` |
| Artifact.IsTypescript | src/index.ts:51 | `path.extname(output) === '.ts'` holds iff the last path component is longer than `.ts` and ends with `.ts` |
| Regeneration.Changed | src/index.ts:74 | a source counts as changed iff its file exists and its bytes differ from the stored buffer |
| Regeneration.VisitSource | src/index.ts:71-99 | one executor: the buffer is replaced iff the bytes differ; an unchanged source changes nothing; bytes that do not parse keep the old value and reject; parsed bytes store the backfilled value and set `didChange`; the file is written back with that value iff an id was created |
| Regeneration.VisitAll | src/index.ts:71-99 | the executors in order keep the registry's keys, never clear `didChange` or a rejection, and write at most one file per source |
| Regeneration.VisitAllQuiet | src/index.ts:71-99 | executors whose files all equal their stored bytes (or are missing) change nothing but the rejection flag |
| Regeneration.ArtifactBytes | src/index.ts:102-107 | there is an artifact iff `themeProcessor` returns on the registry's values; it is then the encoded `ArtifactText` of its serialised result |
| Regeneration.Finish | src/index.ts:101-108 | after the executors the registry and the token count are kept; the run rejects iff an executor threw or, some source having changed, `themeProcessor` threw; otherwise, when some source changed, the artifact is written as the last write |
| Regeneration.Regenerate | src/index.ts:68-109 | a run keeps the registry's keys and writes at most once per source plus once for the artifact |
| Regeneration.QuietRunWritesNothing | src/index.ts:69-101 | when every file equals its stored bytes, the run writes nothing (no write-back, no artifact), takes no token and leaves the registry as it was |
| Regeneration.VisitAllWritesOwnPaths | src/index.ts:90-92 | the executors write only to the files of the sources they visit |
| Regeneration.ArtifactWrittenIffChangedAndResolved | src/index.ts:101-107 | the artifact is written iff some source changed and the run did not reject; the run rejects iff an executor threw, or some source changed and `themeProcessor` threw; a written artifact is the last write and is built from the registry's values of every source |
| Regeneration.UnchangedSourceIsIsolated | src/index.ts:74-102 | a source whose file equals its stored bytes, and which shares its file with no other source, keeps its buffer, value and file, so the theme is built from its last known value |
| Regeneration.VisitAllIsolates | src/index.ts:71-99 | a source whose file is unchanged and shared with no other source keeps its buffer, its value and its file through the executors |
| Convergence.WrittenFileIsFixed | src/index.ts:90-92 | with a host that round-trips backfilled parsed values and with non-empty tokens, a file written back parses to a value the backfill keeps, and re-serialising it gives the same bytes |
| Convergence.VisitKeepsSettled | src/index.ts:71-99 | an executor keeps every other settled source settled, also one sharing its file |
| Convergence.VisitAllSettles | src/index.ts:71-99 | the executors of one run with non-empty tokens leave settled every source visited and every source settled before |
| Convergence.RunLeavesSourcesSettled | src/index.ts:68-109 | after one run with non-empty tokens, every source's file is missing, equals its stored bytes, or is a file the backfill has finished with |
| Convergence.VisitFromSettled | src/index.ts:72-92 | on a settled source the executor rewrites no bytes and leaves the file equal to the stored bytes |
| Convergence.VisitAllFromSettled | src/index.ts:71-99 | executors started from settled sources leave the files as they were and every visited source synced |
| Convergence.SecondRunSyncsSources | src/index.ts:68-109 | a run from settled sources changes no source file (at most the artifact) and leaves every file equal to its stored bytes |
| Convergence.ConvergesInTwoRuns | src/index.ts:68-109 | the second run changes no file but the artifact, and the third run writes nothing and changes nothing |
| Convergence.BackfilledSourceSettlesOnSecondVisit | src/index.ts:75-92 | a source that got ids is written back; the second visit sees bytes different from the stored ones, re-parses them to the stored value, creates no id and writes nothing; a third visit changes nothing |
| ThemePlugin.PathIn | src/index.ts:57 | a config property names the configured path of that property |
| Convergence.WrittenFlatFileIsClean | src/index.ts:90-92 | with a host that round-trips backfilled parsed values and with non-empty tokens, a file written back from bytes without nested arrays parses to a value whose every element has a truthy `id`, and re-serialising it gives the same bytes |
| Convergence.VisitCleansSource | src/index.ts:71-99 | an executor leaves its own source's file missing, equal to the stored bytes, or clean, when the file had no nested arrays |
| Convergence.VisitKeepsCleanSettled | src/index.ts:71-99 | an executor keeps every other such source so, also one sharing its file |
| Convergence.VisitKeepsFlat | src/index.ts:90-92 | an executor never writes back a file with nested arrays |
| Convergence.VisitAllCleans | src/index.ts:71-99 | the executors of one run with non-empty tokens on files without nested arrays leave every source visited, and every source clean before, clean |
| Convergence.RunLeavesSourcesClean | src/index.ts:68-109 | after one run with non-empty tokens on source files without nested arrays, every source's file is missing, equals its stored bytes, or is clean |
| Convergence.VisitFromCleanSettled | src/index.ts:72-92 | on such a source the executor writes nothing, takes no token and leaves the file equal to the stored bytes |
| Convergence.VisitAllFromCleanSettled | src/index.ts:71-99 | executors started from such sources write nothing, take no token and leave the files as they were |
| Convergence.SecondRunWritesOnlyArtifact | src/index.ts:68-109 | a run from such sources calls `createUuid` not once and writes the artifact at most |
| Convergence.SecondRunCreatesNoId | src/index.ts:68-109 | when the first run's source files have no nested arrays, the second run writes back no source, calls `createUuid` not once and changes the artifact at most |
| ThemePlugin.IntouchThemePlugin.Init | src/index.ts:42-51 | the registry starts empty, and the output path and format are fixed from the config |
| ThemePlugin.IntouchThemePlugin.ValidateThemeFilepath | src/index.ts:56-66 | fails exactly when the resolved file does not exist, and then changes nothing; otherwise registers the name with its resolved path, an empty buffer and `{}`; a new name goes to the end of the order and a name registered before keeps its place |
| ThemePlugin.RegisterKeepsRegistry | src/index.ts:56-66 | registering a name, new or already there, keeps every registered name once in the order, with a path, a buffer and a value |
| ThemePlugin.IntouchThemePlugin.RegisterSources | src/index.ts:47-48 | registration fails iff the `values` or `variants` file is missing; otherwise the order is `values` then `variants`, each with its resolved path, an empty buffer and `{}` |
| ThemePlugin.IntouchThemePlugin.Create | src/index.ts:27-54 | construction fails iff the `values` or `variants` file is missing; otherwise the registry holds exactly `values` then `variants`, each with an empty buffer and `{}`, and the output path and format come from the config |
| ThemePlugin.IntouchThemePlugin.VisitSourceStep | src/index.ts:72-98 | the executor of one source changes the registry, the files and the flags as `VisitSource` says |
| ThemePlugin.IntouchThemePlugin.VisitSources | src/index.ts:71-99 | the loop over the registered sources ends in the state `VisitAll` gives |
| ThemePlugin.IntouchThemePlugin.WriteThemeJS | src/index.ts:68-109 | the registry and the files become what `Regenerate` gives, the run's writes are appended to the log, and the promise rejects as `Regenerate` says |

## Left out

- Config discovery and validation (`configFilename`, `validateConfig` and the parse of the config file, lines 28-42) are outside the model. The model starts from a validated `ThemeConfig` with the three paths, and `configPath` is not modelled.
- `Create` does not model the missing config file error (lines 30-32): config loading is outside the model. The missing-source error of lines 59-61 is modelled as the failure of `ValidateThemeFilepath`.
- `fs.existsSync` is membership in the file map. A path that exists as a directory is not modelled.
- `path.resolve('.', _)` depends on the working directory. It is the parameter `resolve`.
- `IsTypescript` models POSIX `path.extname` only. Windows separators are not modelled.
- `themeProcessor` is opaque (the function `process`, which may throw). So are `JSON.parse`, `JSON.stringify` and the text encoding. Their concrete text formats are not modelled.
- JSON object members are a map, so the order in which `JSON.stringify` lists them is not modelled.
- Numbers are `real`. Their textual form is not modelled.
- An object with a `length` member would make the loop run over its numeric keys. This case is not modelled: every object runs the loop zero times.
- The `id` property that the loop gives an array element is not visible to `JSON.stringify`. The model leaves the element unchanged, but the token still counts as created.
- `createUuid` is random, and its source file is not part of this model. It is the token supply `uuid`. The convergence lemmas assume its tokens are non-empty.
- The convergence lemmas also assume that the host's JSON round-trips the backfilled value of every file it parses (`Convergence.RoundTrips`; `SomeHostRoundTrips` shows a host that meets it), and that the artifact is not one of the sources. `ArtifactWrittenIffChangedAndResolved` assumes the latter too, and `UnchangedSourceIsIsolated` assumes that the artifact is not that source's file.
- Errors thrown by `fs.writeFileSync` are not modelled: every write succeeds.
- The result of `themeProcessor` is modelled as a JSON value, so `JSON.stringify` of it (line 106) never throws: its throws need a cycle or a `BigInt`.
- The asynchrony of `Promise.all` is not modelled. The executors are modelled as the sequential loop they are at run time.
- The chokidar watchers and the webpack `apply` hook (lines 111-122) are event plumbing and are not modelled. A watcher-triggered run is a further call of `WriteThemeJS`.
