# laravel-mix-react-css-modules, modelled in Dafny

The repository ships two Laravel Mix plugins that turn webpack style rules into CSS-modules rules, plus two helpers:

- **helpers.js** holds `deepClone` and `concatRegexp`. `deepClone` copies arrays and objects recursively and keeps regular expressions as they are. `concatRegexp` joins two patterns and merges their flags.
- **ReactCSSModules.js** is a plugin object with two fields: the class-name template `scopedName` and the switch `createSourceMap`.
  - `register` overrides the fields.
  - `webpackConfig` walks every rule's `use` chain and every `oneOf` alternative's `use` chain.
  - `replaceLoaderOptions` injects an `options.modules` record into each css-loader reference.
- **__laravel-mix-extend.js** is `ImportCssModules`, a second plugin object with two fields: `classNamePattern` and `sourceMap`.
  - `register` overrides them, but only with truthy values.
  - Its webpack hook finds the style rules: rules whose `loaders` array names css-loader.
  - It replaces each style rule by a `oneOf` of three alternatives: a module-path variant, a module-query variant and the original rule.

The Dafny files are:

- `js_value.dfy` (module `JsValue`) holds the JavaScript values the configuration is made of: strings, scalars, arrays, objects as ordered property lists, and regular expressions as (source, flags). It also holds the language operations the plugins use:
  - property reads and writes in strict mode;
  - assignment, which replaces a property in place or appends a new one;
  - truthiness and `typeof … === "object"`;
  - the entries `Object.assign` copies;
  - `Array.prototype.map` whose callback may throw.
- `webpack.dfy` (module `Webpack`) holds the css-loader test both plugins use and the `config.module.rules = config.module.rules.map(f)` step.
- `helpers.dfy` (module `Helpers`) holds `deepClone` and `concatRegexp`.
- `react_css_modules.dfy` (module `ReactPlugin`): class `ReactCssModules` and the rewrite.
- `laravel_mix_extend.dfy` (module `MixExtension`): class `ImportCssModules` and the three-way split.

Every operation is modelled as written in the source, and an exception is an explicit `Err` result:

- `ReferenceError` for an undeclared name;
- `TypeError` for a property read on `null`/`undefined` or a property write on a primitive;
- `SyntaxError` for a comma in the flags given to `new RegExp`.

Where the code is evidently wrong, a corrected variant sits beside the as-written one, and lemmas show the difference (see "## Findings"). The plugin classes themselves follow the code as written. The corrections are used by the separate `…Fixed` pipeline functions.

Some facts about the code that shape the model:

- The React plugin's `register` destructures `scopedName` and `sourceMap`, but its JSDoc documents `scopedName` and `createSourceMap`, and its code tests `createSourceMap`. The Mix extension's `register` reads `classNamePattern` and `sourceMap`.
- The Mix extension reads a rule's `loaders` property, and style-rule detection only looks at an array `loaders`.
- The React plugin reads a rule's `use` and `oneOf`; it leaves a rule `{ test: /\.css$/, use: [...] }` a single rule with injected options (`ReactPlugin.DefaultRuleRewrite`). The three-way split of such a rule, under `loaders`, is `MixExtension.CssRuleSplit`.

The webpack hooks change the configuration in place. Each is modelled as a function from the configuration to the configuration afterwards (or the exception). The plugin classes' `WebpackConfig` methods return that value. The React hook itself returns `config`, so there the method's result is also the hook's return value. The Mix hook has no `return` and gives `undefined` to its caller; there the method's result is the configuration after the hook, not the hook's return value.

## Model

| member | source | states |
|---|---|---|
| Helpers.DeepClone | src/helpers.js:13-27 | succeeds exactly when every leaf of the value is a regular expression; on success the copy equals the input structurally; otherwise the error is the ReferenceError for the undeclared `items` |
| Helpers.DeepCloneItems | src/helpers.js:14 | the array branch: element i of the copy is deepClone of element i, and the copy succeeds exactly when every element is clonable |
| Helpers.DeepCloneFields | src/helpers.js:19-23 | the object branch: the copy has the same keys in the same order with the same values, and succeeds exactly when every value is clonable |
| Helpers.DeepCloneFailsOnLeaf | src/helpers.js:25-26 | a loader reference naming a loader by a string (the string itself, or an object whose `loader` is a string) makes deepClone throw, and so does every list holding one |
| Helpers.DeepCloneFixed | src/helpers.js:13-27 | with the fall-through returning the value, deepClone returns a copy equal to its input for every value |
| Helpers.Dedup | src/helpers.js:41 | `Array.from(new Set(…))` keeps each flag once, only flags of the input, in first-occurrence order |
| Helpers.DedupPrefix | src/helpers.js:40-41 | the distinct flags of `reg` come first, in their order, in the distinct flags of `reg.flags + exp.flags` |
| Helpers.JoinComma | src/helpers.js:41 | `join()` with its default separator: zero or one flag is unchanged; for n ≥ 1 flags the result has length 2n − 1, with flag i at position 2i and "," at every odd position |
| Helpers.NewRegExp | src/helpers.js:42 | `new RegExp(source, flags)` throws SyntaxError exactly when the flags hold a comma, and otherwise keeps source and flags |
| Helpers.ConcatRegexp | src/helpers.js:39-43 | the result's source is `reg.source + exp.source` and its flags are the distinct flags (at most one); two or more distinct flags make it a SyntaxError; with at most one and no comma it succeeds |
| Helpers.ConcatTwoFlagsFails | src/helpers.js:41-42 | `concatRegexp(/a/i, /b/g)` throws SyntaxError |
| Helpers.ConcatRegexpFixed | src/helpers.js:39-43 | with the flags joined by "", the result has the concatenated source; every flag of either input appears exactly once, those of `reg` first; no comma means success |
| Helpers.ConcatTwoFlagsFixed | src/helpers.js:39-43 | under the corrected join, `/a/i` and `/b/g` give `/ab/ig` |
| Webpack.MapRules | src/ReactCSSModules.js:79 | `config.module.rules = config.module.rules.map(f)`: a TypeError when the path is missing or not an array; it succeeds exactly when f succeeds on every rule; rule i of the result is f of rule i; nothing outside the rule list changes |
| Webpack.WithSameRules | src/ReactCSSModules.js:79 | writing back the same rule list gives back the same configuration |
| Webpack.IsCssLoaderEntry | src/ReactCSSModules.js:109 | a loader reference names css-loader exactly when it is the string "css-loader" or reading its `loader` property gives "css-loader" |
| JsValue.MapResult | src/ReactCSSModules.js:79 | `Array.prototype.map` with a callback that may throw: it succeeds exactly when the callback succeeds on every element, element i of the result is the callback on element i, and a failure is the error of the first failing element |
| ReactPlugin.ReactCssModules.constructor | src/ReactCSSModules.js:9-15 | the defaults are `scopedName = "[name]__[local]___[hash:base64:5]"` and `createSourceMap = false`; the `generateScopedName` handed to Babel at line 153 is that template |
| ReactPlugin.BabelTemplateIsCssTemplate | src/ReactCSSModules.js:153 | the `generateScopedName` handed to Babel is the template css-loader gets: it is the record's `localIdentName`, and every css-loader reference the hook rewrites carries it in `options.modules` |
| ReactPlugin.ApplyRegister | src/ReactCSSModules.js:51-69 | a string throws the ReferenceError for `classNamePattern` and changes nothing; other non-objects are ignored; `null` throws TypeError; an object's defined `scopedName` is taken and an undefined one leaves the template, then the call throws the ReferenceError for `createSourceMap`; `createSourceMap` never changes |
| ReactPlugin.ReactCssModules.Register | src/ReactCSSModules.js:51-69 | the new fields and how the call ends are those of ApplyRegister; `createSourceMap` keeps its value |
| ReactPlugin.ApplyRegisterFixed | src/ReactCSSModules.js:47-69 | register under the documented keys `scopedName` and `createSourceMap`: a string becomes the template; each key an object defines sets its field, and an undefined one leaves it; only `null` throws |
| ReactPlugin.StringShorthandFails | src/ReactCSSModules.js:53-56 | `register("[hash]")` throws and keeps the default template; the corrected version takes `"[hash]"` |
| ReactPlugin.SourceMapNeverRegistered | src/ReactCSSModules.js:61-68 | as written, `register({ sourceMap: true })` and `register({ createSourceMap: true })` both leave `createSourceMap` false; the corrected version turns it on for `createSourceMap` |
| ReactPlugin.ModulesRecordShape | src/ReactCSSModules.js:114-121 | the record is `{ mode: "local", localIdentName, sourceMap, url: true }` in that key order, with the template and the source-map switch |
| ReactPlugin.MergedOptions | src/ReactCSSModules.js:127-129 | the new `options` holds `modules` set to the record; every other key holds what the entry's truthy `options` held (nothing when it was falsy); a previous `modules` is overwritten |
| ReactPlugin.InjectInto | src/ReactCSSModules.js:127-129 | assigning `options` keeps every other property of the loader object and its key order, appending `options` when it was absent |
| ReactPlugin.InjectModules | src/ReactCSSModules.js:107-132 | the shared rewrite, parameterised by the key the string form is wrapped under: nullish throws, non-css entries are returned unchanged, a css-loader object gets the record |
| ReactPlugin.ReplaceLoaderOptions | src/ReactCSSModules.js:107-132 | null/undefined throw TypeError; a reference not naming css-loader is returned unchanged; the string becomes `{ rule: "css-loader", options: { modules: record } }`; a css-loader object gets `options.modules` set to `{ mode: "local", localIdentName: scopedName, sourceMap: createSourceMap, url: true }` |
| ReactPlugin.StringEntryLosesLoader | src/ReactCSSModules.js:124 | the rewritten string has no `loader` property and no longer names css-loader |
| ReactPlugin.ReplaceLoaderOptionsFixed | src/ReactCSSModules.js:107-132 | with the string wrapped as `{ loader: rule }`, the result names css-loader exactly when the entry did |
| ReactPlugin.ReinjectChangesNothing | src/ReactCSSModules.js:127-129 | merging the record into a loader whose `options.modules` already is that record gives back the same loader, with the same keys in the same order |
| ReactPlugin.FixedOnInjected | src/ReactCSSModules.js:107-132 | a css-loader object that already carries the record is left exactly as it is by the corrected rewrite |
| ReactPlugin.FixedIsIdempotent | src/ReactCSSModules.js:107-132 | running the corrected rewrite on its own output changes nothing |
| ReactPlugin.RewriteUse | src/ReactCSSModules.js:85 | an array `use` is rewritten entry by entry with the same length, and fails exactly when an entry is nullish; a non-array `use` is returned as it was |
| ReactPlugin.RewriteAlternative | src/ReactCSSModules.js:90-93 | a `oneOf` alternative succeeds exactly when it is an object whose `use` is an array with no nullish entry; its `use` is rewritten entry by entry and nothing else changes |
| ReactPlugin.RewriteOneOf | src/ReactCSSModules.js:88-94 | an array `oneOf` is rewritten alternative by alternative and fails exactly when one alternative fails; a non-array one is kept |
| ReactPlugin.RewriteRule | src/ReactCSSModules.js:79-97 | nullish rules throw; a non-object rule, or one with neither a truthy `use` nor a truthy `oneOf`, is returned unchanged; otherwise the rule succeeds exactly when both its `use` and its `oneOf` rewrites do, and then `use` and `oneOf` are rewritten and written back (an absent one becomes an appended undefined property) and nothing else changes |
| ReactPlugin.RuleWithoutAlternatives | src/ReactCSSModules.js:80-96 | a rule with a truthy `use` and no `oneOf` array gets its `use` replaced by the rewrite and `oneOf` written back as it was |
| ReactPlugin.DefaultUseRewrite | src/ReactCSSModules.js:85 | `[{ loader: "css-loader" }]` becomes `[{ loader: "css-loader", options: { modules: default record } }]` |
| ReactPlugin.DefaultRuleRewrite | src/ReactCSSModules.js:79-97 | the rule `{ test: /\.css$/, use: [{ loader: "css-loader" }] }` under the defaults gets the local-scope record with the default template, keeps `test`, and gains an undefined `oneOf` |
| ReactPlugin.RewriteConfig | src/ReactCSSModules.js:77-100 | the hook succeeds exactly when `config.module.rules` is an array and every rule's rewrite succeeds; the rule count is unchanged; rule i of the result is the rewrite of rule i; nothing outside `config.module.rules` changes |
| ReactPlugin.ReactCssModules.WebpackConfig | src/ReactCSSModules.js:77-100 | the hook's result is RewriteConfig under the plugin's current fields |
| MixExtension.ImportCssModules.constructor | src/__laravel-mix-extend.js:23-31 | the defaults are `classNamePattern = "[path]__[local]___[id]-[hash:base64:8]"` and `sourceMap = true` |
| MixExtension.ApplyRegister | src/__laravel-mix-extend.js:33-43 | only `null` throws (TypeError, nothing changed); a missing argument is `{}`; each field is set exactly when the argument gives it a truthy value; a non-object changes nothing; a truthy field stays truthy |
| MixExtension.ImportCssModules.Register | src/__laravel-mix-extend.js:33-43 | the new fields and how the call ends are those of ApplyRegister |
| MixExtension.SourceMapCannotBeDisabled | src/__laravel-mix-extend.js:40-42 | `register({ sourceMap: false })` and `register()` leave the defaults in place |
| MixExtension.FindsCssLoader | src/__laravel-mix-extend.js:59-62 | `some` answers true exactly when an entry names css-loader and no entry before it is nullish; false exactly when no entry is nullish or names css-loader; otherwise it throws TypeError |
| MixExtension.IsStyleRule | src/__laravel-mix-extend.js:58-63 | a nullish rule throws; a rule without an array `loaders` is not a style rule; on an array `loaders` the answer is the `some` scan, so it is true exactly when the array names css-loader before any nullish entry and false exactly when it has neither |
| MixExtension.SetCssOptions | src/__laravel-mix-extend.js:72-75 | `modules`, `localIdentName`, `sourceMap` and `url` take true, the pattern, the switch and true; every other option is kept |
| MixExtension.CssOptionsOfEmpty | src/__laravel-mix-extend.js:72-75 | on an empty options object the four options appear in assignment order |
| MixExtension.NormalizeShape | src/__laravel-mix-extend.js:67-69 | the strings "css-loader" and "sass-loader" become `{ loader, options: {} }` in that key order; every other entry is kept; the result is never one of those strings |
| MixExtension.InjectCssOptions | src/__laravel-mix-extend.js:71-76 | succeeds exactly when the loader's `options` is an object; then the loader's options are set as above and its other properties are kept; a primitive or missing `options` throws TypeError |
| MixExtension.EnableImport | src/__laravel-mix-extend.js:80 | on success the loader's options hold `import: true` and the loader's other properties are kept |
| MixExtension.CssStep | src/__laravel-mix-extend.js:71-76 | reading `.loader` throws on a nullish entry; only a css-loader object is changed |
| MixExtension.ModuleEntry | src/__laravel-mix-extend.js:65-85 | a nullish entry throws; a css-loader object succeeds exactly when its `options` is an object, and then has the four options set; any other entry except the two loader strings passes through unchanged |
| MixExtension.CssStringEntry | src/__laravel-mix-extend.js:67-76 | the string "css-loader" becomes `{ loader: "css-loader", options: { modules: true, localIdentName, sourceMap, url: true } }` |
| MixExtension.CssStringEntryFixed | src/__laravel-mix-extend.js:65-85 | the corrected callback treats the string "css-loader" exactly as the callback as written does |
| MixExtension.SassBranchNeverTaken | src/__laravel-mix-extend.js:66-85 | as written, the callback is the css-loader step on the normalised entry for every entry: the sass branch never runs |
| MixExtension.SassImportNeverSet | src/__laravel-mix-extend.js:66-81 | as written, "sass-loader" becomes `{ loader, options: {} }` and every sass-loader object is returned unchanged: `import` is never set; the corrected callback sets it on the string form |
| MixExtension.ModuleEntryFixed | src/__laravel-mix-extend.js:65-85 | with the sass test on `loader.loader`: nullish entries throw; css-loader objects are treated as before; a sass-loader object succeeds exactly when its `options` is an object; every other entry except the two loader strings is returned unchanged |
| MixExtension.FixedSetsSassImport | src/__laravel-mix-extend.js:78-81 | the corrected callback sets `import: true` on every sass-loader object with an options object and keeps its other options |
| MixExtension.ModuleChain | src/__laravel-mix-extend.js:65-85 | the chain has the length and order of the cloned list, entry i is the callback on entry i, and it succeeds exactly when every entry does |
| MixExtension.ModuleChainFixed | src/__laravel-mix-extend.js:65-85 | the same for the corrected callback |
| MixExtension.ToRegExp | src/__laravel-mix-extend.js:96 | `RegExp(rule.test)` returns a regular expression as it is; a string becomes the source ("" becomes "(?:)"); only a regular expression carries flags |
| MixExtension.OneOf | src/__laravel-mix-extend.js:91-101 | exactly three alternatives, the third the original rule; the first two share the chain as `loaders`, keep every other property and the key order; the first's `test` is the narrowed pattern; the second adds `resourceQuery: /modules?/` |
| MixExtension.SplitRule | src/__laravel-mix-extend.js:87-101 | the first failing chain entry fails the split; a `test` whose pattern has two or more distinct flags makes it a SyntaxError, and one with at most one flag and no comma succeeds; a string or scalar `test` always succeeds; on success the result has the three-alternative shape and the first `test` is `\.modules?` followed by the rule's pattern source |
| MixExtension.SplitRuleFixed | src/__laravel-mix-extend.js:87-101 | with the corrected callback and join, the split succeeds whenever the chain does and the flags hold no comma, and the narrowed test keeps every flag of the rule's pattern |
| MixExtension.CloneAndSplit | src/__laravel-mix-extend.js:65 | a deepClone failure on the loader list is the split's failure; a cloned array is split through SplitRule |
| MixExtension.MixRule | src/__laravel-mix-extend.js:48-106 | a nullish rule throws, and a failing style-rule test is the callback's failure; a rule that is not a style rule, including a non-object or one without an array `loaders`, is returned as it is |
| MixExtension.MatchedRuleFailsToClone | src/__laravel-mix-extend.js:58-65 | every style rule makes the as-written callback throw the ReferenceError from deepClone |
| MixExtension.MixRuleKeepsRule | src/__laravel-mix-extend.js:58-106 | whenever the as-written callback succeeds, it returns the rule unchanged |
| MixExtension.MixRuleFixed | src/__laravel-mix-extend.js:48-106 | with the corrections: non-style rules are kept; a style rule is the corrected split of its loaders, which succeeds when the corrected chain does and the `test` flags hold no comma, and then has the three-alternative shape over that chain |
| MixExtension.MixWebpackConfig | src/__laravel-mix-extend.js:45-107 | the hook succeeds exactly when `config.module.rules` is an array and the callback succeeds on every rule; its only effect is replacing the rule list by one of the same length whose rule i is the callback on rule i |
| MixExtension.MixWebpackConfigIsIdentity | src/__laravel-mix-extend.js:45-107 | as written, the hook either throws or leaves the configuration exactly as it was |
| MixExtension.MixWebpackConfigFixed | src/__laravel-mix-extend.js:45-107 | the corrected hook succeeds exactly when the rule list is an array and the corrected callback succeeds on every rule; it replaces rule i by that result, keeping the count and everything outside the rule list |
| MixExtension.ImportCssModules.WebpackConfig | src/__laravel-mix-extend.js:45-107 | the hook's result is MixWebpackConfig under the current fields, and on success it is the configuration it was given |
| MixExtension.CssRuleIsStyleRule | src/__laravel-mix-extend.js:58-63 | `{ test: /\.css$/, loaders: ["css-loader"] }` is a style rule |
| MixExtension.DefaultChainFixed | src/__laravel-mix-extend.js:65-85 | its chain under the defaults is one css-loader object with the four default options |
| MixExtension.DefaultNarrowedTest | src/__laravel-mix-extend.js:96 | prefixing `/\.css$/` with the module marker gives `/\.modules?\.css$/` |
| MixExtension.CssRuleSplit | src/__laravel-mix-extend.js:91-101 | with the corrections, that rule becomes `{ oneOf: [{ test: /\.modules?\.css$/, loaders }, { test: /\.css$/, loaders, resourceQuery: /modules?/ }, rule] }`; as written, it makes the hook throw |

## Left out

- Object identity and aliasing are not modelled. Both hooks reassign `config.module.rules`, `rule.use`, `rule.oneOf`, `oneOf.use` and `loader.options` on the caller's objects, and the model returns new values instead. The two split alternatives sharing one chain, and the third alternative being the rule itself, are stated as equalities.
- When a callback throws partway through `map`, the objects it already changed in place stay changed. The model only reports the exception.
- Numbers are integers. NaN, floating point and the exact `String(number)` form of non-integers are left out.
- Regular-expression matching is not modelled, and neither is flag validation beyond the comma. A pattern is only its source and flags.
  - Whether `/\.modules?\.css$/` or `/modules?/` match a given path or query is not modelled.
  - Duplicate or unknown flag letters are taken as valid.
  - The canonical order in which `RegExp.prototype.flags` lists flags is not modelled. Flags are kept in the order written.
  - The escaping `source` applies to a string (for example to "/") is not modelled, and neither is pattern syntax errors in a string `test`.
- Named properties on arrays and regular expressions, and the string form of an array, are not represented. Operations that would need them give the `Unmodelled` error: writing `options.import` on an array, or `RegExp(array)`.
- A loader property holding a function, getters, prototype-inherited keys seen by `for…in`, and cyclic values are outside the value model.
- Every object is assumed to have each key once. Integer-like keys are kept in insertion order rather than JavaScript's numeric-first order.
- `name()`, `dependencies()` and the constant parts of `babelConfig()` are constant data for the host. Only `generateScopedName` is modelled: `ReactCssModules.GenerateScopedName`, with `BabelTemplateIsCssTemplate` and the constructor's contract.
- ApplyRegisterFixed: reads the switch under the documented key `createSourceMap` (line 47 and lines 66-67). The `sourceMap` key that line 61 destructures is ignored by the corrected version, since the code names the intended key in two places and `sourceMap` in one.
- How Laravel Mix and webpack call the hooks, when they call `register`, and webpack's first-match choice among `oneOf` alternatives are outside the repository.
- `ImportCssModules.extensionName` is a static constant and is not modelled.
- Helpers.DeepCloneFields: its contract gives the copied fields as equal to the originals. It does not state, separately for each field, that the value is deepClone of the original value.

## Findings

| source | as written | input that shows it | evidently intended | confidence | as-written member | corrected member |
|---|---|---|---|---|---|---|
| src/helpers.js:26 | `return items` names an undeclared variable, so every string, number, boolean, null or undefined leaf throws a ReferenceError | `deepClone("css-loader")` | `return thingToClone` | high, not executed | Helpers.DeepCloneFailsOnLeaf | Helpers.DeepCloneFixed |
| src/helpers.js:41 | `join()` separates the distinct flags with ",", which `new RegExp` rejects | `concatRegexp(/a/i, /b/g)` | `join('')` | high, not executed | Helpers.ConcatTwoFlagsFails | Helpers.ConcatRegexpFixed |
| src/ReactCSSModules.js:54 | the string shorthand assigns the undeclared `classNamePattern` and throws a ReferenceError | `register("[hash]")` | `this.scopedName = args` | high, not executed | ReactPlugin.StringShorthandFails | ReactPlugin.ApplyRegisterFixed |
| src/ReactCSSModules.js:66-67 | the test reads the undeclared `createSourceMap`, while line 61 destructures `sourceMap`, so every object argument throws and the switch never changes | `register({ createSourceMap: true })` | `const { scopedName, createSourceMap } = args`, the key the JSDoc at line 47 documents | medium, not executed | ReactPlugin.SourceMapNeverRegistered | ReactPlugin.ApplyRegisterFixed |
| src/ReactCSSModules.js:124 | the string form is wrapped as `{ rule }`, so the result has no `loader` property | `replaceLoaderOptions("css-loader")` | `{ loader: rule }` | medium, not executed | ReactPlugin.StringEntryLosesLoader | ReactPlugin.ReplaceLoaderOptionsFixed |
| src/__laravel-mix-extend.js:79 | the sass test compares the entry with the string after line 67 has turned it into an object, so `import` is never set | loader list `["css-loader", "sass-loader"]` | `loader.loader === "sass-loader"` | high, not executed | MixExtension.SassImportNeverSet | MixExtension.FixedSetsSassImport |
