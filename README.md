# Quasar UI JavaScript build: job derivation and string helpers

This project models the parts of Quasar's JavaScript build script
(`ui/build/script.build.javascript.js`) that decide what gets bundled and under
which names. The bundler, the minifier and the file system are not modelled.

- **File-name tagging (`addExtension`).** It inserts `.<ext>` before the last
  extension of a path and turns a final `.mjs` into `.js`. `ext` defaults to
  `prod`. The JavaScript semantics of `lastIndexOf` (-1 when there is no `.`)
  and of `slice` with a negative index are modelled, with the indexing caveat under "## Left out".
- **The Vue guard (`injectVueRequirement`).** It splices a snippet into
  generated UMD code before the first occurrence of the marker that unwraps
  Vue's default export. The one character just before the marker is dropped.
  Code without the marker is returned unchanged.
- **UMD asset jobs (`addUmdAssets`).** A directory listing, given as a sequence
  of file names, is filtered to its `.mjs` files. Each kebab-case base name is
  camelized. One job record per file is appended to the `builds` list, which is
  modelled as a class with a sequence field.
- **Job normalisation (`genConfig`).** It rewrites a job record in place: the
  plugin list, the externals, the banner, the global name and `globals.vue`.
  `build` maps it over the whole list, and the `full` build step first appends
  the language and icon-set assets.
- **Subtype dispatch (`buildJavascript`).** It is meant to accept only the
  keys of the `runBuild` table and to reject anything else with exit code 1.
  As written, it also lets inherited `Object.prototype` names through (see
  "## Findings").

Modules:

- `JsStrings` holds the JavaScript string built-ins the script uses.
- `BuildStrings` holds the three string helpers.
- `BuildJobs` holds the job records: the class `BuildJob`, whose `rollup.input`,
  `rollup.output` and `build` parts are fields holding record values, and the
  class `BuildList`.
- `Dispatch` holds the subtype check.

## Model

| member | source | states |
|---|---|---|
| JsStrings.LastIndexOf | ui/build/script.build.javascript.js:229 | `lastIndexOf('.')` is -1 or an index holding the character, and no later index holds it |
| JsStrings.IndexOfFrom | ui/build/script.build.javascript.js:235 | `indexOf` is -1 or an occurrence of the pattern, and no earlier position holds one |
| JsStrings.Slice | ui/build/script.build.javascript.js:230-231 | `slice` gives the ordinary subsequence for in-range arguments, and a negative argument counts back from the end |
| JsStrings.Substring | ui/build/script.build.javascript.js:171 | `substring` gives the ordinary subsequence in range, is empty for `(0, negative)`, and is never longer than its input |
| JsStrings.ToUpperAscii | ui/build/script.build.javascript.js:172 | `toUpperCase` of an ASCII letter is upper case, maps lower case down by 32 and keeps upper case |
| BuildStrings.AddExtensionAtLastDot | ui/build/script.build.javascript.js:228-232 | with the last `.` at `p`, the result is `f[..p] + "." + ext` followed by the old extension, with `.mjs` rewritten to `.js`, and everything before `p` is kept |
| BuildStrings.AddExtensionWithoutDot | ui/build/script.build.javascript.js:229-231 | without a `.`, the tag goes before the last character (`slice(-1)`), or is all there is for the empty name |
| BuildStrings.LastDotSuffix | ui/build/script.build.javascript.js:230 | the part from the last `.` on holds no other `.`, and it is `.mjs` or `.js` exactly when the name ends so |
| BuildStrings.EndsInJsAfterDot | ui/build/script.build.javascript.js:231 | a name followed by an extension that has no other `.` ends in `.js` if and only if that extension is `.js` |
| BuildStrings.AddExtensionEndsInJs | ui/build/script.build.javascript.js:228-232 | for a name with a `.`, the result ends in `.js` if and only if the name ends in `.mjs` or `.js` |
| BuildStrings.AddExtensionTwice | ui/build/script.build.javascript.js:180 | tagging twice stacks both tags before the original extension, as for an asset's minified file |
| BuildStrings.AddExtensionMjs | ui/build/script.build.javascript.js:228-232 | a name ending in `.mjs` tagged once is its base name + `.<tag>.js`, and tagged twice is its base name + `.<first>.<second>.js` |
| BuildStrings.UmdFileNames | ui/build/script.build.javascript.js:180 | a `.mjs` asset path tagged `umd` ends in `.umd.js` instead of `.mjs`, and tagging that with the default tag (line 276) gives `.umd.prod.js` |
| BuildStrings.AddExtensionExample | ui/build/script.build.javascript.js:228-232 | `en-US.mjs` tagged `umd` is `en-US.umd.js` |
| BuildStrings.AddExtensionDefaultExample | ui/build/script.build.javascript.js:228-232 | `quasar.umd.js` with the default tag `prod` is `quasar.umd.prod.js` |
| BuildStrings.SpliceUnchangedIffAbsent | ui/build/script.build.javascript.js:234-250 | splicing a guard longer than one character leaves the code unchanged if and only if the marker does not occur in it |
| BuildStrings.SpliceAtFirst | ui/build/script.build.javascript.js:235-250 | at the first marker `i`, the result is `code[..max(i-1,0)]` + guard + `code[i..]`, it holds the marker right after the guard, and its length is the code's plus the guard's minus the dropped character |
| BuildStrings.InjectUnchangedIffNoMarker | ui/build/script.build.javascript.js:234-239 | the code is returned unchanged if and only if the Vue marker does not occur in it |
| BuildStrings.InjectAtFirstMarker | ui/build/script.build.javascript.js:241-249 | at the first Vue marker `i`, the Vue guard replaces the character before it, the code from the marker on is kept, and the marker follows the guard |
| BuildStrings.CamelizeHead | ui/build/script.build.javascript.js:172 | the first output character is the upper-cased letter after a leading `-`, or the first input character otherwise |
| BuildStrings.CamelizeNoDashBeforeLower | ui/build/script.build.javascript.js:172 | the camelized name never has a `-` directly before a lower-case ASCII letter |
| BuildStrings.CamelizeWithoutDash | ui/build/script.build.javascript.js:172 | a name without `-` is left as it is |
| BuildStrings.KebabizeCamelize | ui/build/script.build.javascript.js:170-172 | kebab-case names come back from their camelized form through the reverse spelling |
| BuildStrings.CamelizeKebabize | ui/build/script.build.javascript.js:170-172 | a camelCase name without `-` comes back from its kebab-case spelling |
| BuildStrings.AssetNameExample | ui/build/script.build.javascript.js:170-172 | the language pack `en-US.mjs` is named `enUS` |
| BuildStrings.AssetNameIconSetExample | ui/build/script.build.javascript.js:170-172 | the icon set `mdi-v7.mjs` is named `mdiV7` |
| BuildJobs.MjsFiles | ui/build/script.build.javascript.js:167-168 | the filter is no longer than the listing, and every kept name ends in `.mjs` |
| BuildJobs.MjsFilesCount | ui/build/script.build.javascript.js:167-168 | the filter keeps each `.mjs` name as often as it is listed, and no other name |
| BuildJobs.MjsFilesMember | ui/build/script.build.javascript.js:168 | a name is kept if and only if it is listed and ends in `.mjs` |
| BuildJobs.MjsFilesAppend | ui/build/script.build.javascript.js:167-169 | the filter keeps listing order: filtering a concatenation is concatenating the filtered parts |
| BuildJobs.MapMjs | ui/build/script.build.javascript.js:167-169 | one value per kept file: as many values as `.mjs` files |
| BuildJobs.MapMjsAt | ui/build/script.build.javascript.js:167-169 | the `k`-th value is the one made from the `k`-th `.mjs` file of the listing |
| BuildJobs.UmdJobsAt | ui/build/script.build.javascript.js:167-189 | one job per kept file, in listing order, each the job built for that file |
| BuildJobs.UmdJobFiles | ui/build/script.build.javascript.js:180 | an asset job writes `dist/<type>/<base>.umd.js`, and its minified copy goes to `<base>.umd.prod.js` (line 276) |
| BuildJobs.UmdJobShape | ui/build/script.build.javascript.js:170-188 | an asset job reads `<type>/<file>`, has no plugins or externals of its own, is a minified-only UMD bundle named `Quasar.<injectName>.<name>`, and sets no banner, globals or replace table |
| BuildJobs.AddUmdAssets | ui/build/script.build.javascript.js:164-190 | only appends: the old jobs stay in place, the new objects are fresh, their records are one job per `.mjs` file in listing order, and a list without repeated objects keeps none |
| BuildJobs.Configured | ui/build/script.build.javascript.js:198-226 | the plugins are the common ones, with the replace plugin (`preventAssignment`, the job's table) first if and only if there is a table; externals are the old ones (or none) plus `vue`, `@vue/compiler-dom`; the banner is set; the name is removed if and only if it was `false`, is otherwise kept when non-empty and is `Quasar` when missing or empty; `globals.vue` is `Vue` and the other globals are kept; input, file, format and build flags are untouched |
| BuildJobs.GenConfig | ui/build/script.build.javascript.js:198-226 | updates the job object in place to its normalised record and returns the same object |
| BuildJobs.ConfigureAll | ui/build/script.build.javascript.js:194 | `builds.map(genConfig)` normalises every job object in place and returns the same objects in the same order |
| BuildJobs.ConfiguredUmdJob | ui/build/script.build.javascript.js:174-226 | a normalised asset job has only the common plugins, only the Vue externals, its own global name, `globals` equal to `{ vue: 'Vue' }` and the banner |
| BuildJobs.PrepareFullBuild | ui/build/script.build.javascript.js:303-306 | the full build keeps the old jobs in front, appends the language and then the icon-set asset jobs, and normalises every record |
| Dispatch.Key | ui/build/script.build.javascript.js:287-346 | every build step sits under one of the table's keys |
| Dispatch.StepOf | ui/build/script.build.javascript.js:355 | the step run for a key is the one stored under that key |
| Dispatch.BuildJavascriptAsWritten | ui/build/script.build.javascript.js:348-356 | as written, a subtype is rejected with exit code 1 and the key list if and only if it is neither a key nor an inherited `Object.prototype` member; a key runs its own step |
| Dispatch.ToStringPassesCheck | ui/build/script.build.javascript.js:349 | `toString` is no key, yet it passes the check and an inherited member is called |
| Dispatch.BuildJavascript | ui/build/script.build.javascript.js:348-356 | corrected: a subtype is rejected with exit code 1, the subtype and the key list if and only if it is no key; a key runs its own step; nothing inherited is called |
| Dispatch.RunsExactlyItsKey | ui/build/script.build.javascript.js:355 | a step runs if and only if its own key was given |
| Dispatch.KeyInjective | ui/build/script.build.javascript.js:287-346 | distinct steps have distinct keys |
| Dispatch.AsWrittenAgreesOutsidePrototype | ui/build/script.build.javascript.js:349 | the check as written and the corrected one agree on every name except the inherited member names, and differ on each of those |

## Left out

- Rollup bundling, `bundle.generate`, the node-resolve and replace plugins, and uglify minification are foreign libraries. Plugins are opaque tokens, and the bundling and minifying steps of `buildEntry` are not modelled. Only its use of `addExtension` for the minified file name (line 276) is stated, in `BuildJobs.UmdJobFiles` and `BuildStrings.UmdFileNames`.
- `injectVueRequirement` is not connected to a bundle. It is modelled as a function on the code string.
- `fs.readdirSync` is replaced by the listing `files`, an input.
- The `forEach` callback of `addUmdAssets` is split in two: `BuildJobs.UmdJobs` builds the records and the loop of `BuildJobs.AddUmdAssets` pushes them. Building a record has no side effect, so the pushed jobs and their order are the same.
- An asset job's literal has no `plugins` or `external`. It is modelled with an empty plugin list and no externals; `genConfig` replaces the one and extends the other.
- `path.resolve(rootFolder, p)` is modelled as `root + "/" + p`. Here `root` stands for `rootFolder` (line 18) without its trailing `/`. It assumes a relative `p` without `.` or `..` segments, and does no normalisation.
- BuildStrings.AddExtension, BuildStrings.SpliceBefore, BuildStrings.InjectVueRequirement and BuildStrings.AssetName count string indices in Unicode scalar values, not in UTF-16 code units as JavaScript does. The two agree on text without characters outside the Basic Multilingual Plane. On other text, `slice(-1)` (line 230), `index - 1` (line 247) and `file.length - 4` (line 171) can split a surrogate pair in the script but not in the model.
- `Promise.all` in `build`, the `async` steps of `runBuild`, and their dynamic imports of sibling build scripts are concurrency and external code. The other `runBuild` steps are only their keys. Of `full`, only the job handling at lines 303-306 is modelled, as `BuildJobs.PrepareFullBuild`.
- The two `console.log` calls and `process.exit(1)` of `buildJavascript` (lines 350-352) become the `Dispatch.Rejected` outcome. That outcome carries the exit code, the subtype and the key list, but not the exact text.
- The failure path of `buildEntry` (`console.error` and `process.exit(1)`, lines 281-284) is left out with the rest of `buildEntry`.
- The literal `builds` table and the `version` import are static data and are not reproduced.
- `buildConf.banner` is a parameter.
- Job records model only the fields the script reads or writes. `name` is absent, `false` or a string; other JavaScript values, such as a non-array `external`, are not modelled.
- BuildJobs.ConfigureAll requires that the list does not hold the same job object twice. Nested `external` arrays and `globals` objects are values, so sharing them between jobs is not modelled. In the script, such sharing would make `push` and `globals.vue =` act on every sharer.
- Dispatch.BuildJavascriptAsWritten does not model what each inherited member does when it is called. None of them starts a build. `__proto__`, `__defineGetter__` and `__defineSetter__` pass the check and then throw a `TypeError` (the first is not a function, the other two need arguments), instead of starting a build.
- The subtype is a string. An absent command-line argument reads as the key `undefined`, which is rejected like any other unknown name.

## Findings

| source | as written | input that shows it | evidently intended | confidence | as-written member | corrected member |
|---|---|---|---|---|---|---|
| ui/build/script.build.javascript.js:349 | `runBuild[subtype] === void 0` also finds properties inherited from `Object.prototype` | subtype `toString` (likewise `constructor`, `valueOf`, `hasOwnProperty`, `isPrototypeOf`, …) passes the check and returns normally: no error, no exit code 1, and no build step runs; `__proto__`, `__defineGetter__` and `__defineSetter__` also pass the check and then throw a `TypeError` instead of starting a build | only the table's own keys, those listed in the "Available" message, are accepted | not executed | Dispatch.BuildJavascriptAsWritten, Dispatch.ToStringPassesCheck | Dispatch.BuildJavascript |
