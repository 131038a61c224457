# optimize-plugin, modelled in Dafny

`optimize-plugin` is a webpack plugin. It hands every chunk of a build to a pool of workers. Each
worker compiles the chunk twice with Babel: once as a modern bundle and, with `downlevel` on, once
as a legacy bundle. It records the core-js polyfills the legacy bundle imports. The plugin writes
both outputs back into the compilation's assets (`main.js`, `main.legacy.js`). It then bundles the
polyfills of the whole build into one shared asset, `polyfills.legacy.js`, built with Rollup and
cached for the plugin's lifetime under the polyfill list.

This project models the orchestration and its helpers, and proves what they promise:

- `optimize_plugin.dfy` (module `Plugin`): the `OptimizePlugin` class of `src/index.js`.
  - Option defaulting and `serializeOptions`.
  - The `optimize` pass: the file list, one worker job per asset object, the fail-fast join, the
    write-back, polyfill aggregation, and the shared polyfills asset.
  - The cross-pass polyfills cache.
  - The outcome of a pass.

  The worker pool, the compilation and the plugin are classes whose methods change their fields.
  Each method is proved against a specification function: `Jobs`, `Settled`, `WriteBack`,
  `Reasons`, `AfterPass`, `CacheBuiltOnce`.
- `plugin_helpers.dfy` (module `PluginHelpers`): the pure helpers of `src/index.js`.
  - `toLegacyFilename`, `buildResultSources` and `buildFile`.
  - `serializeReasons`.
  - The virtual entry module of the polyfills bundle.
  - The core-js `resolveId` rewrite.
- `util.js` is modelled in `util.dfy` (module `Util`):
  - the timing log of `createPerformanceTimings`, a class whose `Start` and `End` change its list;
  - the source-map conversions `toTerserMap` and `toBabelMap`.
- `webpack_urls.dfy` (module `ChangeWebpackUrls`) models the Babel plugin that recognises a webpack
  bootstrap and rewrites the chunk-URL suffix in its URL map. `ast.dfy` (module `Ast`) holds the
  syntax-tree fragment it works on.
- `extract_polyfills.dfy` (module `ExtractPolyfills`): the Babel plugin that reports and removes
  every import declaration, and the worker's `Set` of polyfills.
- `js.dfy` (module `Js`) holds the JavaScript value semantics the code relies on:
  - objects as insertion-ordered property lists, truthiness and `== null`;
  - `Object.assign` and spread;
  - `String`, `parseInt`, `join` and `JSON.stringify`.
- `ordered_set.dfy` (module `OrderedSet`): a JavaScript `Set`, iterated in insertion order.
- `wrappers.dfy`: `Option` and `Result`.

Collaborators the plugin cannot see are parameters:
- the worker's `process` function, a total function from a job to its result or rejection;
- `generatePolyfillsChunk`, a function from a polyfill list to a bundle or a rejection, whose calls
  are recorded;
- the core-js version;
- the clock (`now`).

Promises are modelled as their settled values. `Promise.all` is a sequential map over the files
that reports the first rejection in files order.

## Model

| member | source | states |
|---|---|---|
| Js.Get | src/index.js:73 | reading a key gives the value of a property with that key, and `undefined` when there is none |
| Js.Put | src/index.js:73 | assigning a key sets it, changes no other key, keeps key order for an existing key and appends a new one |
| Js.Assign | src/index.js:71 | `Object.assign`/spread: each key takes the source's value when the source has it, else the target's; the keys are the union |
| Js.AssignDisjoint | src/lib/util.js:25-28 | spreading distinct keys that the target lacks appends the properties unchanged and in order |
| Js.NatToString | src/lib/util.js:27 | `String(n)` of a non-negative integer below 10^21 is a non-empty string of decimal digits |
| Js.DigitsValueOfNatToString | src/lib/util.js:27 | reading the decimal digits of `n` (`String(n)` below 10^21) back gives `n` |
| Js.ParseIntOfIntToString | src/lib/util.js:42 | `parseInt(String(n), 10)` is `n` for every integer of magnitude below 10^21, negative ones included |
| Js.JoinSnoc | src/index.js:199 | appending a string to a non-empty list adds exactly one separator before it |
| Js.JoinInjective | src/index.js:199 | with a one-character separator no string contains, two non-empty lists join to the same text exactly when they are equal |
| OrderedSet.Add | src/index.js:163 | `set.add(x)` keeps the set duplicate-free, adds exactly `x`, and appends it only when it was absent |
| OrderedSet.AddAllSpec | src/index.js:161-164 | adding a list keeps the earlier elements as a prefix, never repeats, and holds exactly the old and the added elements |
| OrderedSet.FromSeqFirstSeenOrder | src/worker.js:175 | `Array.from(new Set(xs))` lists each distinct element of `xs` once, ordered by first occurrence |
| Util.FirstNamed | src/lib/util.js:78-79 | the entry found is the first with the name; `None` means no entry has it |
| Util.PerformanceTimings.constructor | src/lib/util.js:71 | the log starts empty |
| Util.PerformanceTimings.Start | src/lib/util.js:73-75 | `start` appends exactly one unstamped entry `{name, start: now}` |
| Util.PerformanceTimings.FindEntry | src/lib/util.js:78-84 | the loop finds the first entry with the name, or reports that none has it |
| Util.PerformanceTimings.End | src/lib/util.js:77-85 | `end` leaves the log as `Stamped(old log, name, now)` |
| Util.StampedOnlyFirst | src/lib/util.js:77-84 | `end` stamps only the first matching entry with `end = now` and `duration = now - start`; the length and every other entry are unchanged |
| Util.StampedNoMatch | src/lib/util.js:78-84 | `end` of a name with no entry leaves the log unchanged |
| Util.LaterStartNeverStamped | src/lib/util.js:73-83 | after two `start`s of one name, no series of `end` calls ever stamps the later entry |
| Util.ToTerserMap | src/lib/util.js:23-29 | an object keeps every field and gets `version = String(version)`; a non-object gives `null` |
| Util.ToBabelMap | src/lib/util.js:37-44 | an object keeps every field, gets `version = parseInt(version, 10)`, and `file = ''` only when `file` was absent; a non-object gives `null` |
| Util.BabelOfTerserKeepsVersion | src/lib/util.js:26-42 | converting to Terser's shape and back keeps an integer version below 10^21 in magnitude, and every other field |
| Util.TerserMapKeepsKeyOrder | src/lib/util.js:25-28 | the converted map has the original keys in order, plus `version` at the end when it was missing |
| ChangeWebpackUrls.Unwrap | src/lib/transform-change-webpack-urls.js:36-44 | the result is neither an expression statement nor a `!`; other unary operators are not stripped |
| ChangeWebpackUrls.UnwrapWrap | src/lib/transform-change-webpack-urls.js:36-44 | any nesting of statements and `!` around a node is stripped |
| ChangeWebpackUrls.WrapLayersUnwrap | src/lib/transform-change-webpack-urls.js:36-44 | every node is its unwrapped core under the stripped layers, so nothing else is removed |
| ChangeWebpackUrls.UnwrapIdempotent | src/lib/transform-change-webpack-urls.js:36-44 | unwrapping twice is unwrapping once |
| ChangeWebpackUrls.RecordedIff | src/lib/transform-change-webpack-urls.js:118-125 | the identifier table records `a.q` exactly when a member expression `a.q` in the factory's own scope is the child of an assignment |
| ChangeWebpackUrls.ConfidentIff | src/lib/transform-change-webpack-urls.js:138-155 | confident exactly when one identifier has `p`, `c` and `oe` assigned, or `window.webpackJsonp` is |
| ChangeWebpackUrls.ParseWebpackBootstrap | src/lib/transform-change-webpack-urls.js:66-158 | the traversal fills the table `Recorded(members)`, and the confidence loop agrees with `Confident` |
| ChangeWebpackUrls.FlattenConcat | src/lib/transform-change-webpack-urls.js:169-175 | flattening the arguments keeps their order |
| ChangeWebpackUrls.FlattenOne | src/lib/transform-change-webpack-urls.js:169-175 | an array argument contributes its elements, any other argument itself |
| ChangeWebpackUrls.GetWebpackModules | src/lib/transform-change-webpack-urls.js:160-177 | succeeds exactly when every flattened item is a function expression, returns them in order, and otherwise throws "Not a webpack bundle" |
| ChangeWebpackUrls.BootstrapOfSpec | src/lib/transform-change-webpack-urls.js:50-60 | a bootstrap is found only for a call of a function expression that is confidently webpack's; the only error is "Not a webpack bundle"; wrapping in statements or `!` changes nothing |
| ChangeWebpackUrls.GetWebpackBootstrap | src/lib/transform-change-webpack-urls.js:50-60 | the method computes `BootstrapOf` |
| ChangeWebpackUrls.RuleOf | src/lib/transform-change-webpack-urls.js:215-217 | the pattern defaults to `/\.js$/` and the replacement to `.modern.js`; an empty replacement also falls back |
| ChangeWebpackUrls.ExpandPlain | src/lib/transform-change-webpack-urls.js:228 | a replacement without `$` is inserted literally |
| ChangeWebpackUrls.ApplySpec | src/lib/transform-change-webpack-urls.js:228 | `value.replace(pattern, replacement)` swaps the matched suffix and keeps the rest; a value that does not match is unchanged |
| ChangeWebpackUrls.WorkerRule | src/worker.js:153-156 | with the worker's options a `.js` URL ends in `.legacy.js` |
| ChangeWebpackUrls.DefaultRule | src/lib/transform-change-webpack-urls.js:216-217 | with no options a `.js` URL ends in `.modern.js` |
| ChangeWebpackUrls.RewriteNodeSpec | src/lib/transform-change-webpack-urls.js:225-232 | the traversal keeps the tree's shape, rewrites exactly the first string literal ending in `.js` in pre-order, and stops exactly when one exists |
| ChangeWebpackUrls.RewriteKidsSpec | src/lib/transform-change-webpack-urls.js:225-232 | the same for the descendants only, which is what `urlMap.traverse` visits |
| ChangeWebpackUrls.RewriteSeqSpec | src/lib/transform-change-webpack-urls.js:225-232 | the same for a list of siblings, left to right |
| ChangeWebpackUrls.WithUrlMap | src/lib/transform-change-webpack-urls.js:224-228 | replacing the URL map keeps the unwrapped layers and changes only the factory's URL map |
| ChangeWebpackUrls.RewriteStatementSpec | src/lib/transform-change-webpack-urls.js:219-233 | a statement that is not a bootstrap, or has no URL map, is unchanged; a bootstrap's URL map keeps its shape and has only its first `.js` literal rewritten; the statement fails exactly when bootstrap detection throws |
| ChangeWebpackUrls.RewriteProgramSpec | src/lib/transform-change-webpack-urls.js:219-234 | the visitor succeeds exactly when every statement does, and then rewrites each one on its own, keeping number and order |
| ChangeWebpackUrls.TransformProgram | src/lib/transform-change-webpack-urls.js:214-235 | the in-place loop over the body leaves `RewriteProgram(old body)` on success, and the error "Not a webpack bundle" exactly when that fails |
| ChangeWebpackUrls.RewriteFailurePropagates | src/lib/transform-change-webpack-urls.js:219-220 | one statement whose bootstrap detection throws makes the whole visitor throw |
| ExtractPolyfills.Program.constructor | src/lib/transform-extract-polyfills.js:4 | a program holds its statements |
| ExtractPolyfills.PolyfillSet.constructor | src/worker.js:45 | the worker's set starts empty |
| ExtractPolyfills.PolyfillSet.Add | src/worker.js:158-160 | `polyfills.add(specifier)` is `OrderedSet.Add` |
| ExtractPolyfills.Extract | src/lib/transform-extract-polyfills.js:5-8 | the visitor leaves exactly the non-import statements and adds every import source, in program order, to the caller's set |
| ExtractPolyfills.ImportsConcat | src/lib/transform-extract-polyfills.js:5-6 | reported sources keep program order |
| ExtractPolyfills.NonImportsConcat | src/lib/transform-extract-polyfills.js:7 | kept statements keep program order |
| ExtractPolyfills.ImportsIff | src/lib/transform-extract-polyfills.js:5-6 | a source is reported exactly when an import declaration of it exists |
| ExtractPolyfills.NonImportsIff | src/lib/transform-extract-polyfills.js:4-9 | a statement is kept exactly when it is present and is not an import |
| ExtractPolyfills.ExtractIdempotent | src/lib/transform-extract-polyfills.js:5-7 | a second run reports nothing and removes nothing |
| ExtractPolyfills.WorkerPolyfills | src/worker.js:157-175 | the worker's polyfill list is duplicate-free, holds exactly the imported sources, in order of first import |
| PluginHelpers.ToLegacyFilenameSpec | src/index.js:369-376 | `.mjs` and `.js` names get `.legacy` before the extension, others get `.legacy.js` appended; the result never equals the input |
| PluginHelpers.ToLegacyFilenameKeepsStem | src/index.js:369-376 | the legacy name starts with the name's stem and ends in `.legacy.mjs` exactly for `.mjs` names |
| PluginHelpers.ToLegacyFilenameInjective | src/index.js:369-376 | two `.js`/`.mjs` names never share a legacy name |
| PluginHelpers.ToLegacyFilenameCollision | src/index.js:370-374 | `main` and `main.js` both map to `main.legacy.js` |
| PluginHelpers.BuildFile | src/index.js:389-401 | a result with a truthy map becomes a `SourceMapSource` named `name` or the original file, carrying the original source and map; otherwise a `RawSource`; the code is the result's |
| PluginHelpers.BuildResultSources | src/index.js:378-387 | the result keeps the file and polyfills; a legacy output and its `legacyFile` exist together, and the legacy name is `toLegacyFilename(file)`, never the file itself |
| PluginHelpers.SerializeReasonsSpec | src/index.js:337-345 | the exact summary text: one reason is itself; two are `r0 and r1`; three are `r0, r1 and r2`; more than three are `r0, r1 and N others` with N the count less two; an `undefined` reason reads "undefined", or empty inside the `join` |
| PluginHelpers.EntryContentRoundTrip | src/index.js:223 | the entry module imports exactly the polyfills in order: reading it back gives the list |
| PluginHelpers.CoreJsMatchFrom | src/index.js:226 | the leftmost match of the core-js path pattern (`core-js/` at the start or after a slash, then a non-empty rest on one line) and its capture, or no match at all |
| PluginHelpers.ResolveCoreJsIdSpec | src/index.js:251-258 | an id resolves exactly when it has a `core-js/` segment and no `.js` suffix, to the core-js directory, the rest of the id after the first such segment, and `.js` |
| PluginHelpers.ResolveCoreJsModule | src/index.js:251-258 | `core-js/<path>` resolves to `<corejs dir><path>.js` |
| Plugin.WithDefaults | src/index.js:72-74 | the defaulting loop fills exactly the options that are `null` or `undefined` from the defaults and keeps every other property; the keys are the given ones in their order, then the missing default keys in declaration order (the order `JSON.stringify` shows) |
| Plugin.MissingKeysMembers | src/index.js:72-74 | the keys the defaulting loop appends are exactly the default keys the given options lack |
| Plugin.DefaultOptionsUnique | src/index.js:32-64 | the default options have distinct keys |
| Plugin.SerializedOptions | src/index.js:102-104 | `JSON.stringify(options)` is a non-empty object text |
| Plugin.UndefinedOptionNotSerialized | src/index.js:102-104 | an option whose value is `undefined` leaves no trace in the serialized options |
| Plugin.WorkerPool.constructor | src/index.js:76-79 | the pool starts with no jobs |
| Plugin.WorkerPool.Enqueue | src/index.js:139 | `enqueue` records the job and settles as `process` does |
| Plugin.Compilation.constructor | src/index.js:169 | a compilation holds its assets |
| Plugin.ChunkFilesConcat | src/index.js:118-121 | files are taken chunk by chunk, in chunk order |
| Plugin.FilesMembership | src/index.js:118-123 | a file is in the pass exactly when some chunk lists it or it is an additional chunk asset |
| Plugin.ChunkFilesMembership | src/index.js:118-121 | a file is among the chunk files exactly when some chunk lists it |
| Plugin.PresentPrefix | src/index.js:127-136 | the files before the first missing asset are present, and that one is missing |
| Plugin.FirstWith | src/index.js:129-130 | a file's pending result is that of the earliest file with the same asset object |
| Plugin.JoinAll | src/index.js:126 | `Promise.all` resolves exactly when every job does, with the values in order; otherwise it rejects with the first rejection, in files order |
| Plugin.JobsOncePerAsset | src/index.js:126-142 | one job per distinct asset object, in first-seen order, named after the first file with that asset |
| Plugin.DispatchReuse | src/index.js:129-130 | a file whose asset was already met reuses that pending result and enqueues nothing |
| Plugin.DispatchEnqueue | src/index.js:132-142 | a file with a new asset enqueues one job and records its pending result for the asset and the file |
| Plugin.WriteBackUntouched | src/index.js:169-176 | a key that no result writes or deletes keeps its asset or stays absent |
| Plugin.WriteBackLastWrite | src/index.js:169-173 | the last result touching a file name leaves its modern output there, and its legacy output under its legacy name |
| Plugin.WriteBackWithoutLegacy | src/index.js:169-176 | without legacy outputs the write-back deletes only the key `"undefined"`: every other asset and every file is present afterwards |
| Plugin.ReasonsSpec | src/index.js:161-167 | `polyfillReasons` has a key for exactly the polyfills found and lists each use's `legacyFile` in order, repeats included |
| Plugin.AggregationSpec | src/index.js:159-180 | `allPolyfills` is duplicate-free, holds exactly the polyfills of all results in the order each was first found, and has the same members as the keys of `polyfillReasons` |
| Plugin.UsesMembership | src/index.js:161-164 | a polyfill is used exactly when some result lists it |
| Plugin.NoUsesNoPolyfills | src/index.js:159-164 | results without polyfills give an empty polyfill list |
| Plugin.PolyfillsKeyInjective | src/index.js:199 | two non-empty polyfill lists without newlines share a cache key exactly when they are the same list |
| Plugin.PolyfillsKeyOrderSensitive | src/index.js:199 | the cache key keeps discovery order: two polyfills found in the other order make a different key |
| Plugin.PolyfillsAssetIffPolyfills | src/index.js:179-190 | the shared asset exists exactly when some result has a polyfill; it is the bundle under the option's file name, and no other key changes |
| Plugin.PolyfillsFilenameDefault | src/index.js:179 | a falsy `polyfillsFilename` falls back to `polyfills.legacy.js`; a non-empty string is used as given |
| Plugin.SingleEntryAssets | test/index.test.js:47-52 | one entry chunk with a legacy output and a polyfill ends with exactly three assets: the file, its legacy file and the polyfills asset |
| Plugin.CacheInsert | src/index.js:199-204 | storing a newly built key keeps the invariant that each key was built by exactly one call, and its entry is that call's result |
| Plugin.VerboseWithoutDownlevelRejects | src/index.js:193-195 | as written: with `downlevel` off and `verbose` on, every pass whose jobs succeed rejects with a TypeError from the summary |
| Plugin.WithoutDownlevelResolves | src/index.js:183-195 | corrected: with `downlevel` off, a pass whose jobs succeed resolves |
| Plugin.NoDownlevelNoBundle | src/worker.js:131-175 | with `downlevel` off, the results of a settled pass carry no polyfills |
| Plugin.SettledJobs | src/index.js:126-142 | a settled pass has every file's asset present and each file's result is the job of the first file with its asset |
| Plugin.NoDownlevelNoPolyfills | src/worker.js:131-175 | a worker job without `downlevel` reports no polyfill |
| Plugin.OptimizePlugin.PassOutcome | src/index.js:179-195 | a pass whose jobs resolved resolves exactly when it found no polyfill or the cache entry for its list is a bundle, else rejects with that entry's error; the entry is the one cached before, or the bundle built now |
| Plugin.OptimizePlugin.CacheTransparent | src/index.js:198-214 | when no cached list is empty or has a newline, the entry under a list's key is that list's own bundle, so the cache never changes a pass's outcome |
| Plugin.OptimizePlugin.constructor | src/index.js:70-96 | the options are the given ones with `null`/`undefined` defaults filled, the given keys first and the missing default keys after them in declaration order; no serialization, empty cache, a fresh pool with no jobs |
| Plugin.OptimizePlugin.SerializeOptions | src/index.js:102-104 | a non-empty memo is returned as is; otherwise `JSON.stringify(options)` is computed and stored |
| Plugin.OptimizePlugin.GeneratePolyfillsChunkCached | src/index.js:198-214 | an equal key reuses the stored entry without a build; a new key builds once and stores it; the cache invariant holds |
| Plugin.OptimizePlugin.Dispatch | src/index.js:117-156 | the `files.map` enqueues exactly `Dispatched(...)`, throws exactly at a missing asset, and gives each file the pending result of the first file with its asset |
| Plugin.OptimizePlugin.Optimize | src/index.js:106-196 | a pass enqueues the jobs; if `Settled` rejects, no asset and no cache entry changes; otherwise the assets, cache and outcome are `PassEffect` of the results |
| Plugin.OptimizePlugin.Complete | src/index.js:159-195 | after the join: write-back, aggregation, the polyfills asset from the cache, or its deletion, and the corrected outcome |
| Plugin.WriteAndAggregate | src/index.js:159-177 | the `forEach` leaves the assets as `WriteBack`, `allPolyfills` as `AllPolyfills`, and `polyfillReasons` as `Reasons` |
| Plugin.CollectPolyfills | src/index.js:162-167 | the inner loop adds a result's polyfills to the set and its `legacyFile` to each polyfill's reasons |
| Plugin.ForEachStep | src/index.js:161-176 | one more result adds its uses to the aggregation and its writes to the assets |

## Left out

- Plugin.OptimizePlugin.Optimize: `timings`, `start`/`end` and the worker's timing entries are not
  part of the pass model. The clock is left out, and the timing log itself is modelled in `Util`.
  The timing callback `result.then(...)` (src/index.js:146) has no rejection handler. A failed job
  therefore also leaves an unhandled promise rejection beside the pass's own rejection. Under
  Node's default `--unhandled-rejections=throw`, that becomes an uncaught exception. The model's
  failure path (the error returned, assets and cache unchanged) does not capture it.
- Plugin.OptimizePlugin.Optimize: the output summary is taken in its corrected form (see Findings).
  The gzip size, `toPrecision`, `console.log` and the `localeCompare` grouping of
  `showOutputSummary` are I/O and locale-dependent. Only `serializeReasons` is modelled.
- Plugin.JoinAll: rejections are reported in files order. The real `Promise.all` reports the first
  one in time, which depends on scheduling.
- Plugin.OptimizePlugin.Dispatch: object identity of assets (the `WeakMap` key) is modelled as value
  equality of `Source`. The `id` field of an input asset stands for its identity.
- Plugin.MapOf: `sourceAndMap()` is modelled as the asset's code and stored map. Webpack's source
  classes are not modelled beyond which constructor `buildFile` picks.
- Plugin.WorkerPool: the pool's concurrency, jest-worker and the teardown timer are left out. A job
  settles as the `process` parameter says. The worker's compilation by Babel and Terser is that
  parameter too, constrained only by `WorkerContract`:
  - no legacy output and no polyfills without `downlevel`;
  - a legacy output with it.
- Plugin.OptimizePlugin.GeneratePolyfillsChunkCached: `generatePolyfillsChunk` is a parameter.
  - Rollup, its plugins' `load` (a file read), the Rollup cache and `getTimings` are left out.
  - The cache stores the settled bundle rather than the promise. A build that rejects therefore
    stays cached as a rejection, as the stored promise does.
- Plugin.TaskOf: `getCorejsVersion()` reads package metadata and logs, so the core-js version is a
  parameter.
- Util.ToTerserMap and Util.ToBabelMap take parsed maps only. The `JSON.parse` of a string map is
  left out.
- Js: numbers are integers or NaN. Floating point is not modelled.
- Js.NatToString, Js.ParseIntOfIntToString and Util.BabelOfTerserKeepsVersion: JavaScript's `String` switches to exponent notation at 1e21 (`String(1e21)` is `"1e+21"`), and the model always prints plain decimal digits. For a `version` of magnitude 1e21 or more, `parseInt(String(version), 10)` reads only the leading digit, so the source's round trip does not keep such a version. The model promises the round trip for every integer.
- Js.DigitsValueOfNatToString: states that reading back the model's decimal digits gives `n` for every `n`; it matches JavaScript's `String(n)` only below 1e21, for the reason above.
- Js: JSON escaping is modelled for characters, not for lone surrogates.
- ChangeWebpackUrls.ParseWebpackBootstrap: Babel's scope and binding resolution is an input.
  - This covers the `document.createElement('script')` search and `.resolve()` that locate the URL map.
  - A function expression is seen through its recorded member expressions and that URL map, so a
    URL-map traversal does not enter nested function bodies.
- ChangeWebpackUrls.RecordedIff and ChangeWebpackUrls.ConfidentIff: the table of identifiers is
  modelled as a map without a prototype. In the source it is a plain `{}`
  (src/lib/transform-change-webpack-urls.js:86). A base named after a member of
  `Object.prototype` therefore reads an inherited value there:
  - `constructor.p = …` writes onto the global `Object`;
  - `__proto__.q = …` writes onto `Object.prototype`, for every later job in that worker.
  The `for…in` at line 138 skips such non-enumerable inherited names, so such a bootstrap is
  not confident in the source, whereas the model records the name and can call it confident.
- ChangeWebpackUrls.Apply: a pattern is a fixed suffix anchored at the end, which covers the default
  `/\.js$/` and the worker's. General regular expressions and capture-group references in the
  replacement are not modelled.
- PluginHelpers.CoreJsMatchFrom: only the one regular expression the `resolveId` hook uses is
  modelled. The hook's `load` reads a file and is left out.
- Webpack integration is left out: `apply`, the compilation hooks, `updateChunkHash` and `isWebpack4`.
- Also left out:
  - `src/lib/worker-pool.js`;
  - `src/lib/core-js-plugin.js`, which duplicates `resolveId` and does not run as written;
  - the Terser and strip-comments Rollup wrappers.

Two behaviours of the code that a reader might expect otherwise:
- The polyfills cache key is `polyfills.join('\n')` in discovery order, unsorted
  (`Plugin.PolyfillsKeyOrderSensitive`).
- Every chunk file and additional chunk asset goes to the workers, unfiltered by extension
  (`Plugin.Files`).

## Findings

| source | as written | input that shows it | evidently intended | confidence | as-written member | corrected member |
|---|---|---|---|---|---|---|
| src/index.js:193-195 | with `verbose` on (the default), `showOutputSummary` calls `polyfillsAsset.source()` even when no polyfill was found and `polyfillsAsset` is `undefined` | `new OptimizePlugin({ downlevel: false })`: no result has polyfills. The pass writes every asset, then rejects with a TypeError | the summary should skip or report an empty polyfills bundle, and the pass should resolve | not executed | Plugin.VerboseWithoutDownlevelRejects | Plugin.WithoutDownlevelResolves |
