# pi-fff in Dafny

This is a model of the host side of pi-fff. pi-fff is an extension for the pi coding agent. It replaces the agent's `@` file picker with a search served by the native `fff` engine. The model covers six files:

- **Platform resolution** (`src/fff/platform.ts`): the target triple of the running process, the native library's file name, and the npm platform package that ships it.
- **Locating the library** (`src/fff/download.ts`):
  - the directory of the package this code ships in;
  - resolution of the platform package from the working directory's root, then from this package's root;
  - the install hint in the "not found" error.
- **Option records and results** (`src/fff/types.ts`): `ok`/`err`, the camelCase-to-snake_case option conversions, the JSON sent over the wire, and the grep cursor.
- **The native bridge** (`src/fff/ffi.ts`):
  - the cached library, with its optional live-grep entry point;
  - the result envelope protocol, where every non-null result pointer is freed exactly once;
  - the snake_case-to-camelCase rewrite of decoded payloads;
  - every typed wrapper.
- **`FileFinder`** (`src/fff/finder.ts`): the `initialized` flag, `init`/`destroy`, and the operations guarded by the flag. Each guarded operation either fails fast, degrades to an inert value, or ignores the flag. `liveGrep` builds a cursor for the next page.
- **The extension entry point** (`src/index.ts`):
  - the picker's path helpers, with their round trip;
  - `fffState`, which brings the engine up once;
  - `searchFff`, which serves picker searches;
  - `destroyFinder`, which tears the engine down.

### How the model is built

- **Modules.** Each source file is one module. Helpers have their own modules:
  - `Wrappers`: `Option`, and `Outcome`, which is a JavaScript completion: `Returned(value)` or `Threw(message)`;
  - `Strings`;
  - `Json`, which holds JSON values as JavaScript sees them after `JSON.parse`, and objects as ordered entry lists;
  - `Casing`: the key rewrite of `snakeToCamel`;
  - `Paths`: Node's posix `dirname`, `basename` and `join`.
- **Classes.** Module-level mutable state becomes a class:
  - `Ffi.Bridge` holds the `lib` cache. It records every native entry point called (`calls`), every `fff_free_result` (`frees`) and every `findBinary` call made by `loadLibrary` (`lookups`). The `findBinary` call inside `ensureBinary` depends only on the host and is not recorded.
  - `Finder.FileFinder` holds the static `initialized` flag.
  - `Extension.FffState` holds `fffState`.
- **Method contracts.** Each method states its whole new state. They share these twostate predicates:
  - `Bridge.Loading` is one `loadLibrary()` call;
  - `Bridge.Invoked` is one wrapper call;
  - `Bridge.Untouched` holds when nothing changed.

### What the model takes as inputs

The native engine, the process and the filesystem are not modelled. They are inputs:

- **Native results.** The value each native entry point returns is a parameter of the method that calls it (`Ffi.NativeResult`). It is a null pointer, or a pointer that `koffi.decode` either decodes into an envelope or fails on.
- **JSON parsing.** `JSON.parse` is the function `Bridge.parse`. `parseInt(value, 10)` is `Bridge.parseInt`, where `None` stands for `NaN`.
- **The process and filesystem** form a `Download.Host` value:
  - `process.platform`, `process.arch` and `process.cwd()`;
  - the output of `ldd --version`, or its failure;
  - the directory of this module;
  - the set of paths `existsSync` accepts;
  - `createRequire(from).resolve(request)`, a function returning `None` where it throws.
- **JSON.stringify.** The bridge records the JSON value whose text is passed to a native entry point. `undefined` properties are dropped, as `JSON.stringify` drops them.

### The `"true"` flags

`ffiWaitForScan`, `ffiTrackAccess` and `ffiTrackQuery` compare the *decoded* value with the string `"true"` (`src/fff/ffi.ts:174`, `:186`, `:200`). `parseResult` feeds any payload that parses as JSON through `JSON.parse` first, and the payload `true` parses to the boolean `true`. So the bare payload `true` gives `ok(false)`. Only the JSON string `"\"true\""` reads as `true`.

`Ffi.FlagTrueExactly` states exactly when a flag reads `true`, and `Ffi.FlagOfLiteralTrue` shows the `ok(false)` case. The payload `null` also parses first, so `ffiGetHistoricalQuery` returns the parsed `null`; its own `"null"` branch is reached only by a JSON string.

## Model

| member | source | states |
|---|---|---|
| Types.MakeOk | src/fff/types.ts:5-7 | `ok(value)` is a success carrying `value` |
| Types.MakeErr | src/fff/types.ts:9-11 | `err(error)` is a failure carrying `error` |
| Types.ToInternalInitOptions | src/fff/types.ts:127-135 | the conversion; what it sends is stated in `InitOptionsOnTheWire` |
| Types.ToInternalSearchOptions | src/fff/types.ts:137-148 | the conversion; what it sends is stated in `SearchOptionsOnTheWire` |
| Types.ToInternalGrepOptions | src/fff/types.ts:210-220 | the conversion; what it sends is stated in `GrepOptionsOnTheWire`, `CursorRoundTrip` and `NoCursorStartsAtZero` |
| Types.InitOptionsOnTheWire | src/fff/types.ts:127-135 | base, frecency and history paths are sent unchanged under their snake_case keys; the two flags are sent as the supplied boolean or `false` |
| Types.SearchOptionsOnTheWire | src/fff/types.ts:137-148 | each of the six fields is sent unchanged under its snake_case key; without options the wire object is empty |
| Types.GrepOptionsOnTheWire | src/fff/types.ts:210-220 | `file_offset` is always sent: the cursor's offset, or 0 when the cursor is absent or null; the other fields are copied, the mode by name; without options only `file_offset: 0` is sent |
| Types.CreateGrepCursor | src/fff/types.ts:157-159 | the cursor carries the given offset |
| Types.CursorRoundTrip | src/fff/types.ts:215 | a cursor made from `n` and passed back in the options gives `file_offset == n` |
| Types.NoCursorStartsAtZero | src/fff/types.ts:215 | without a cursor, or with a null one, the search starts at offset 0 |
| Platform.DetectLinuxLibc | src/fff/platform.ts:22-35 | musl exactly when the lower-cased probe output contains `musl`; gnu otherwise and when the probe fails |
| Platform.NormalizeArch | src/fff/platform.ts:37-49 | `x64`/`amd64` give `x86_64`, `arm64` gives `aarch64`, `arm` gives `arm`; every other value throws `Unsupported architecture: <arch>` |
| Platform.GetTriple | src/fff/platform.ts:3-20 | an unsupported platform throws `Unsupported platform: <platform>`; on a supported one the triple exists exactly when the architecture normalizes, and otherwise the architecture error is thrown |
| Platform.PlatformCheckedFirst | src/fff/platform.ts:8-16 | an unsupported platform throws the same error whatever the architecture, so the platform is checked before the architecture |
| Platform.TripleOfSupportedPlatform | src/fff/platform.ts:8-19 | darwin, linux and win32 give `<arch>-apple-darwin`, `<arch>-<libc probe result>` and `<arch>-pc-windows-msvc` |
| Platform.LibExtension | src/fff/platform.ts:51-60 | `dylib` exactly on darwin, `dll` exactly on win32, `so` on every other platform string |
| Platform.LibPrefix | src/fff/platform.ts:62-64 | the prefix is empty exactly on win32 |
| Platform.LibFilename | src/fff/platform.ts:66-68 | prefix + `fff_c.` + extension: `fff_c.dll`, `libfff_c.dylib` or `libfff_c.so` |
| Platform.GetNpmPackageName | src/fff/platform.ts:81-88 | a triple error propagates; a triple in the table gives its package; any other triple throws `No npm package available for platform: <triple>` |
| Platform.TableInjective | src/fff/platform.ts:70-79 | distinct triples name distinct packages |
| Platform.TablePackagesScoped | src/fff/platform.ts:70-79 | every package in the table is an `@ff-labs/fff-bun-` package |
| Platform.ArmHasNoPackage | src/fff/platform.ts:37-88 | `arm` is accepted as an architecture, yet every `arm-` triple throws the no-package error |
| Platform.PackageAvailable | src/fff/platform.ts:3-88 | a package exists exactly for darwin, linux and win32 on `x64`, `amd64` and `arm64` |
| Paths.Dirname | src/fff/download.ts:17 | Node's posix `dirname`; stated in `DirnameFixedPoint` |
| Paths.Basename | src/fff/download.ts:18 | Node's posix `basename`; stated in `BasenameHasNoSeparator` |
| Paths.DirnameFixedPoint | src/fff/download.ts:27-28 | `dirname` stops moving exactly at `/` and `.`, which is where the walk up the tree breaks off |
| Paths.BasenameHasNoSeparator | src/fff/download.ts:18 | the `basename` compared with `dist` never contains `/` |
| Paths.Join | src/fff/download.ts:40 | `join(dir, name)` ends with `name` and is non-empty for a non-empty name |
| Download.FindMarker | src/fff/download.ts:22-30 | the bounded walk up the tree; stated in `FindMarkerIsNearest` |
| Download.PackageDir | src/fff/download.ts:15-33 | what `getPackageDir` returns; stated in `PackageDirCases`, and `GetPackageDir` is proved equal to it |
| Download.GetPackageDir | src/fff/download.ts:15-33 | the loop returns `PackageDir`: `<pkg>` for the layout `<pkg>/dist/<dir>`, else the nearest of four directories upwards holding `package.json`, else the parent |
| Download.FindMarkerIsNearest | src/fff/download.ts:22-30 | a directory found by the walk is `k < n` steps up, holds `package.json`, and no directory below it on the way does; when none is found, none of the directories visited holds one |
| Download.PackageDirCases | src/fff/download.ts:15-33 | the three outcomes of `getPackageDir`: the `dist` case, the parent when no marker is found, and otherwise an ancestor holding `package.json` |
| Download.ResolvePackageBinary | src/fff/download.ts:35-50 | a result is the library file next to the resolved `<package>/package.json`, and it exists; no result means resolution threw or the file is missing |
| Download.ResolveFromNpmPackage | src/fff/download.ts:52-63 | any path it returns exists, is non-empty and ends with the platform's library file name |
| Download.FindBinary | src/fff/download.ts:65-67 | any binary found exists and ends with the library file name; when the package name cannot be determined nothing is found |
| Download.CwdRootFirst | src/fff/download.ts:56-57 | a hit under the working directory's root is the answer, whatever this package's own location is |
| Download.PackageRootSecond | src/fff/download.ts:56-59 | without a hit under the working directory, the answer is the one from this package's root |
| Download.GetInstallHint | src/fff/download.ts:69-75 | the package name, or `@ff-labs/fff-bun-<target>` when finding it throws |
| Download.BinaryExists | src/fff/download.ts:77-79 | true exactly when `findBinary` finds a path |
| Download.EnsureBinary | src/fff/download.ts:81-90 | returns the found path exactly when one is found; otherwise throws a message that contains the install hint |
| Casing.CamelKey | src/fff/ffi.ts:90 | the key rewrite; its behaviour is stated in the `CamelKey…` lemmas below |
| Casing.CamelKeyOfPlainKey | src/fff/ffi.ts:90 | a key without a `_x` pair (x a lower-case letter) is left unchanged |
| Casing.CamelKeyPair | src/fff/ffi.ts:90 | `_x` becomes the upper-case `X` |
| Casing.CamelKeyPlainPrefix | src/fff/ffi.ts:90 | a prefix without `_` passes through unchanged |
| Casing.CamelKeyIsCamel | src/fff/ffi.ts:90 | a rewritten key holds no `_x` pair |
| Casing.CamelKeyIdempotent | src/fff/ffi.ts:90 | rewriting a key twice is rewriting it once |
| Casing.CamelKeyLength | src/fff/ffi.ts:90 | the rewrite never lengthens a key, and shortens it exactly when the key holds a `_x` pair |
| Casing.CamelKeyOfSnakeName | src/fff/ffi.ts:90 | every snake_case name becomes the camelCase name made of the same words |
| Casing.SnakeToCamel | src/fff/ffi.ts:83-94 | the payload conversion; its behaviour is stated in the `SnakeToCamel…` lemmas below |
| Casing.SnakeToCamelShape | src/fff/ffi.ts:83-86 | null and scalars pass through; arrays keep their length and are converted element by element; objects stay objects |
| Casing.SnakeToCamelObject | src/fff/ffi.ts:88-93 | the converted object has distinct keys, exactly the rewritten keys, and each key holds the value last written under it |
| Casing.SnakeToCamelNoCollision | src/fff/ffi.ts:88-93 | when no two keys rewrite to the same key, the object is the converted entries in their original order |
| Casing.SnakeToCamelIdempotent | src/fff/ffi.ts:83-94 | converting a second time changes nothing |
| Ffi.ParseResultValue | src/fff/ffi.ts:96-130 | null pointer gives `FFI returned null pointer`; a decode failure gives an error starting with `Failed to decode FFI result`; success gives `undefined` for empty data, the converted parse, or the raw string; failure gives the error, or `Unknown error` when it is empty |
| Ffi.ParseResultOk | src/fff/ffi.ts:96-130 | the result is ok exactly for a decoded envelope reporting success |
| Ffi.ParsedObjectsAreCamel | src/fff/ffi.ts:121-123 | an object handed to the host has no snake_case `_x` pair in any key |
| Ffi.FlagResult | src/fff/ffi.ts:173-174 | errors pass through unchanged; ok values give `value === "true"` |
| Ffi.FlagTrueExactly | src/fff/ffi.ts:170-175 | a flag reads true exactly when the decoded value is the string `"true"`: the success payload parses to that string, or the parse function (an input) fails on the text `true`, which `JSON.parse` never does |
| Ffi.FlagOfLiteralTrue | src/fff/ffi.ts:170-175 | the payload `true`, which parses to a boolean, gives `ok(false)` |
| Ffi.HistoricalResult | src/fff/ffi.ts:206-208 | the string `"null"` becomes null; every other result passes through |
| Ffi.CountResult | src/fff/ffi.ts:192-193 | errors pass through; ok values are `parseInt`-ed |
| Ffi.Bridge.LoadIdempotent | src/fff/ffi.ts:47-81 | loading twice is loading once; a freshly loaded library is the one `findBinary` names, and loading fails exactly when it names none |
| Ffi.Bridge.LoadedFrom | src/fff/ffi.ts:47-81 | the library a load leaves cached; stated in `LoadIdempotent` and in `LoadLibrary`'s contract |
| Ffi.Bridge.LoadLibrary | src/fff/ffi.ts:47-81 | a cached library is returned without consulting `findBinary`; a miss consults it once and caches the result; no binary throws the not-found error |
| Ffi.Bridge.ParseResult | src/fff/ffi.ts:96-130 | the result is `ParseResultValue`, and `fff_free_result` runs exactly once for a non-null pointer and never for null |
| Ffi.Bridge.CallAndParse | src/fff/ffi.ts:132-145 | the library is loaded; if loaded, the entry point is called once and its result parsed and freed, and otherwise nothing is called and the load error is thrown |
| Ffi.Bridge.Init | src/fff/ffi.ts:132-135 | one `fff_init` call with the options, its result parsed and freed |
| Ffi.Bridge.Destroy | src/fff/ffi.ts:137-140 | one `fff_destroy` call, its result parsed and freed |
| Ffi.Bridge.Search | src/fff/ffi.ts:142-145 | one `fff_search` call with query and options, its result parsed and freed |
| Ffi.Bridge.LiveGrep | src/fff/ffi.ts:147-153 | without the optional symbol: `liveGrep is not supported by this native library.`, no native call, nothing freed; with it: one `fff_live_grep` call, parsed and freed |
| Ffi.Bridge.ScanFiles | src/fff/ffi.ts:155-158 | one `fff_scan_files` call, its result parsed and freed |
| Ffi.Bridge.IsScanning | src/fff/ffi.ts:160-163 | one `fff_is_scanning` call returning its boolean, nothing freed |
| Ffi.Bridge.GetScanProgress | src/fff/ffi.ts:165-168 | one `fff_get_scan_progress` call, its result parsed and freed |
| Ffi.Bridge.WaitForScan | src/fff/ffi.ts:170-175 | one `fff_wait_for_scan` call with the timeout; the result is the flag of the parsed result |
| Ffi.Bridge.RestartIndex | src/fff/ffi.ts:177-180 | one `fff_restart_index` call with the new path, its result parsed and freed |
| Ffi.Bridge.TrackAccess | src/fff/ffi.ts:182-187 | one `fff_track_access` call; the result is the flag of the parsed result |
| Ffi.Bridge.RefreshGitStatus | src/fff/ffi.ts:189-194 | one `fff_refresh_git_status` call; the result is the `parseInt` of the parsed result |
| Ffi.Bridge.TrackQuery | src/fff/ffi.ts:196-201 | one `fff_track_query` call with query and path; the result is the flag of the parsed result |
| Ffi.Bridge.GetHistoricalQuery | src/fff/ffi.ts:203-209 | one `fff_get_historical_query` call with the offset; `"null"` is mapped to null |
| Ffi.Bridge.HealthCheck | src/fff/ffi.ts:211-214 | one `fff_health_check` call with the path, its result parsed and freed |
| Ffi.Bridge.EnsureLoaded | src/fff/ffi.ts:216-219 | a failing `ensureBinary` throws its message before any load; otherwise the library is loaded |
| Ffi.Bridge.IsAvailable | src/fff/ffi.ts:221-228 | true exactly when the load completes, the load's exception swallowed |
| Finder.ToGrepResult | src/fff/finder.ts:88-99 | reading the record throws exactly on `undefined`/`null`; each field is the decoded property; `nextCursor` exists exactly when `nextFileOffset` is a number above 0, and then carries it |
| Finder.GrepAnswer | src/fff/finder.ts:84-101 | an error passes through; an ok value throws exactly when it is `undefined` or `null`, and otherwise becomes its `GrepResult` |
| Finder.NextPageResumes | src/fff/finder.ts:97 | passing a page's `nextCursor` back as the cursor option makes the next search start at the offset the engine reported, which is positive |
| Finder.FileFinder.Init | src/fff/finder.ts:42-51 | the options go to `fff_init` in wire form; the result is returned as it came; the flag is set exactly when it is ok |
| Finder.FileFinder.Destroy | src/fff/finder.ts:53-59 | one `fff_destroy`; the flag is cleared exactly when it is ok |
| Finder.FileFinder.Search | src/fff/finder.ts:61-74 | uninitialized: the not-initialized error, no native call; otherwise the parsed `fff_search` result for the wire options |
| Finder.FileFinder.LiveGrep | src/fff/finder.ts:76-102 | uninitialized: the not-initialized error; without the symbol: the unsupported error; otherwise errors pass through and a decoded value becomes a `GrepResult` |
| Finder.FileFinder.ScanFiles | src/fff/finder.ts:104-109 | guarded: the error and no call when uninitialized, else `fff_scan_files` |
| Finder.FileFinder.IsScanning | src/fff/finder.ts:111-114 | `false` and no call when uninitialized, else `fff_is_scanning` |
| Finder.FileFinder.GetScanProgress | src/fff/finder.ts:116-121 | guarded: the error and no call when uninitialized, else `fff_get_scan_progress` |
| Finder.FileFinder.WaitForScan | src/fff/finder.ts:123-128 | guarded; the timeout defaults to 5000 ms |
| Finder.FileFinder.Reindex | src/fff/finder.ts:130-135 | guarded; it calls `fff_restart_index` with the new path |
| Finder.FileFinder.TrackAccess | src/fff/finder.ts:137-142 | `ok(false)` and no call when uninitialized, else the flag from `fff_track_access` |
| Finder.FileFinder.RefreshGitStatus | src/fff/finder.ts:144-149 | guarded: the error and no call when uninitialized, else the count |
| Finder.FileFinder.TrackQuery | src/fff/finder.ts:151-156 | `ok(false)` and no call when uninitialized, else the flag from `fff_track_query` |
| Finder.FileFinder.GetHistoricalQuery | src/fff/finder.ts:158-163 | `ok(null)` and no call when uninitialized, else the historical query |
| Finder.FileFinder.HealthCheck | src/fff/finder.ts:165-167 | ignores the flag; a missing or empty path is sent as `""` |
| Finder.FileFinder.IsAvailable | src/fff/finder.ts:169-171 | ignores the flag; true exactly when the library loads; no native call |
| Finder.FileFinder.EnsureLoaded | src/fff/finder.ts:173-175 | a failing `ensureBinary` throws its message and changes nothing; otherwise the library is loaded and `()` returned; no native call |
| Extension.NormalizePath | src/index.ts:31-33 | the result has no `\` and is never longer than the input |
| Extension.NormalizePathTrims | src/index.ts:31-33 | the result is the slash-converted path minus one leading `./` when there is one, and minus one trailing `/` exactly when the rest ends with `/` |
| Extension.NormalFormShape | src/index.ts:31-33 | a path in normal form has no `\`, no leading `./` and no trailing `/` |
| Extension.ExtractPathFromValue | src/index.ts:35-41 | the result has no `\` and is never longer than the value; a value with no `@` and no quotes is only normalized; its read-back of built values is stated in `CompletionValueReadBack` |
| Extension.BuildCompletionValue | src/index.ts:43-48 | `@path` when not quoted and the path has no space, `@"path"` otherwise; always starts with `@` |
| Extension.CompletionValueReadBack | src/index.ts:35-48 | reading back a built value gives the path's normal form, except for a wrapped path built without quotes |
| Extension.CompletionValueRoundTrip | src/index.ts:31-48 | a path in normal form comes back unchanged from `extractPathFromValue(buildCompletionValue(p, q))` |
| Extension.UnquotedWrappedPathLosesQuotes | src/index.ts:35-48 | a wrapped path without a space, built unquoted, loses its own quotes: the round trip fails for it |
| Extension.SliceTo | src/index.ts:73 | `slice(0, limit)` is a prefix of `min(limit, n)` items, or `n + limit` (at least 0) for negative `limit` |
| Extension.ItemPath | src/index.ts:74 | returns exactly when the item is an object whose chosen property is a string: `relativePath` when truthy, else `path`; the returned path is that string |
| Extension.Suggest | src/index.ts:74-85 | an entry's path is the normalized item path, its label the item's `fileName`, its description the path, its value the completion value; it throws exactly when the path is not a string or `scores` is missing |
| Extension.MapAll | src/index.ts:73 | `map` gives one entry per item in order, or throws exactly when some item does |
| Extension.SearchSuggestions | src/index.ts:73-86 | the entries correspond one to one with the first `limit` items and never number more than `limit`; it throws exactly when `items` is not an array or some entry throws |
| Extension.PageOptions | src/index.ts:70 | the page size is `max(limit, 20)` and no other search option is set |
| Extension.SearchAnswer | src/index.ts:71-73 | a failed search gives no entries; a successful one gives the entries of its value; never more than `limit` entries |
| Extension.FffState.InitializeFinder | src/index.ts:50-65 | a second call compares base paths and calls nothing; otherwise the state is set only when `init` and `waitForScan(500)` are both ok (a timed-out `ok(false)` counts); a scan error destroys the finder and leaves the state alone; an exception propagates |
| Extension.FffState.DestroyFinder | src/index.ts:118-124 | nothing when uninitialized; otherwise one `destroy` and the state cleared whatever it answers |
| Extension.FffState.SearchFff | src/index.ts:67-87 | `[]` and no call when uninitialized; otherwise one search with page size `max(limit, 20)`, and `[]` on its error; never more than `limit` entries |

## Left out

- **Native library internals.** `koffi.load`, the binding of the mandatory entry points, and `koffi.decode` are foreign calls. The native engine is not modelled. Loading and binding the mandatory symbols are taken to succeed. Whether `fff_live_grep` binds is the input `liveGrepBinds`. A decode success or failure is part of each native result.
- **Promises.** `FileFinder.ensureLoaded`, `ensureLoaded` and `ensureBinary` are asynchronous. Only the outcome their promise settles with, a value or a throw, is modelled; `isAvailable` is synchronous and modelled as it is.
- **I/O, the process and the clock.**
  - `execSync("ldd --version")`, `existsSync` and `createRequire(...).resolve` are inputs, and the 5-second probe timeout is part of the probe failing.
  - `getCurrentDir` (`src/fff/download.ts:7-13`) is not modelled: its result, the `dirname` of `fileURLToPath(import.meta.url)` for a `file://` URL and of the raw URL otherwise, is the input `currentDir`.
- **JSON text.** `JSON.parse` and `JSON.stringify` are not modelled: parsing is a function input, and the bridge records the JSON value that would be serialized.
- **Numbers.** Numbers are integers: floating point, `NaN` and `BigInt` conversion of offsets and timeouts are left out. `parseInt` is a function input.
- **Strings.** `toLowerCase` lowers only ASCII letters. Strings are sequences of characters, without UTF-16 or UTF-8 encoding.
- Json.Field: a property of a non-object primitive (a string's `length`, say) does not exist in the model.
- **`Object.entries` order.** It lists integer-like keys first. The model keeps the order in which the JSON text gives the keys.
- Paths.Join: `path.join` is modelled as concatenation with one `/`, without `.`/`..` normalization of its result.
- **The camel round trip of wire keys.** The model shows which wire keys are sent without stringifying them. It does not decode the keys back through `snakeToCamel`.
- Finder.ToGrepResult: `nextFileOffset > 0` is modelled for numbers only. A non-number value, such as a numeric string or `true` coerced by `>`, gives no cursor in the model, whereas JavaScript would build a cursor from it.
- Extension.SearchSuggestions: the score computation is not modelled. This is `Math.max(1, Math.round(scores[index]?.total ?? items.length - index))` on floating-point numbers. Only the exception it raises when `scores` is missing is kept, and the ranked record holds no score.
- **Registration with the host agent.** `patchFilePicker` (prototype patching), `pi.on`, `registerCommand`, notifications and the default export's wiring are host-runtime and UI code.
- **Output formatting.** `formatRanked` and `formatList` are display text.
- **Concurrency.** There is none: the code is single-threaded, with a plain module-level cache.
- **Other files.** `src/fff/index.ts` is re-exports only. The behaviour-free interfaces of `types.ts` (`FileItem`, `Score`, `GrepMatch`, `HealthCheck` and the like) are not modelled beyond the JSON values that carry them.
- Finder.FileFinder.IsInitialized has no contract: it only reports the flag.
