/** The `ImportCssModules` Laravel Mix extension (src/__laravel-mix-extend.js):
    two option fields, `register` to override them, and a webpack hook that
    replaces every style rule (a rule whose `loaders` array names
    css-loader) by a `oneOf` of three alternatives: the module-path variant,
    the module-query variant and the original rule. */
module MixExtension {
  import opened JsValue
  import opened Webpack
  import opened Helpers

  const DefaultClassNamePattern: string := "[path]__[local]___[id]-[hash:base64:8]"

  /** `/\.modules?/`, put in front of the rule's `test` in the first alternative. */
  const ModuleMarker: Pattern := Pattern("\\.modules?", "")

  /** `/modules?/`, the `resourceQuery` of the second alternative. */
  const ModuleQuery: Pattern := Pattern("modules?", "")

  /** The extension's two fields. */
  datatype Options = Options(classNamePattern: Value, sourceMap: Value)

  function Defaults(): Options {
    Options(Str(DefaultClassNamePattern), True)
  }

  // ---------------------------------------------------------------------
  // register

  /** `register(args = {})`: a missing argument is `{}`, `null` throws at
      the destructuring, and each field is set only to a truthy value read
      from the argument. */
  function ApplyRegister(opts: Options, args: Value): (r: (Options, Outcome))
    ensures r.1 == Done <==> args != Prim(Null)
    ensures r.1 != Done ==> r == (opts, Threw(TypeError))
    ensures !args.Obj? ==> r.0 == opts
    ensures args.Obj? && Truthy(Lookup(args.fields, "classNamePattern")) ==> r.0.classNamePattern == Lookup(args.fields, "classNamePattern")
    ensures args.Obj? && !Truthy(Lookup(args.fields, "classNamePattern")) ==> r.0.classNamePattern == opts.classNamePattern
    ensures args.Obj? && Truthy(Lookup(args.fields, "sourceMap")) ==> r.0.sourceMap == Lookup(args.fields, "sourceMap")
    ensures args.Obj? && !Truthy(Lookup(args.fields, "sourceMap")) ==> r.0.sourceMap == opts.sourceMap
    ensures Truthy(opts.classNamePattern) ==> Truthy(r.0.classNamePattern)
    ensures Truthy(opts.sourceMap) ==> Truthy(r.0.sourceMap)
  {
    var given := if args == Undef then Obj([]) else args;
    match GetProp(given, "classNamePattern")
    case Err(e) => (opts, Threw(e))
    case Ok(pattern) =>
      var sourceMap := GetProp(given, "sourceMap").value;
      var opts' := if Truthy(pattern) then opts.(classNamePattern := pattern) else opts;
      var opts'' := if Truthy(sourceMap) then opts'.(sourceMap := sourceMap) else opts';
      (opts'', Done)
  }

  /** Source maps, on by default, cannot be switched off through `register`. */
  lemma SourceMapCannotBeDisabled()
    ensures ApplyRegister(Defaults(), Obj([("sourceMap", False)])) == (Defaults(), Done)
    ensures ApplyRegister(Defaults(), Undef) == (Defaults(), Done)
  {
  }

  // ---------------------------------------------------------------------
  // style-rule detection

  /** Some entry names css-loader and no entry before it is null or
      undefined: exactly when `loaders.some(…)` answers true. */
  predicate NamesCssLoader(loaders: seq<Value>) {
    exists i :: 0 <= i < |loaders| && IsCssLoaderEntry(loaders[i]) && forall j :: 0 <= j < i ==> !Nullish(loaders[j])
  }

  /** `loaders.some(loader => loader === "css-loader" || loader.loader === "css-loader")`:
      entries are tested in order, the first match stops the scan, and
      reading `.loader` of a null or undefined entry before any match throws. */
  function FindsCssLoader(loaders: seq<Value>): (r: Result<bool>)
    ensures r.Err? ==> r.error == TypeError
    ensures r == Ok(true) <==> NamesCssLoader(loaders)
    ensures r == Ok(false) <==> forall i :: 0 <= i < |loaders| ==> !Nullish(loaders[i]) && !IsCssLoaderEntry(loaders[i])
  {
    if loaders == [] then Ok(false)
    else if loaders[0] == Str(CssLoader) then
      assert IsCssLoaderEntry(loaders[0]);
      Ok(true)
    else
      match GetProp(loaders[0], "loader")
      case Err(e) => Err(e)
      case Ok(name) =>
        if name == Str(CssLoader) then
          assert IsCssLoaderEntry(loaders[0]);
          Ok(true)
        else
          var r := FindsCssLoader(loaders[1..]);
          assert forall i :: 1 <= i < |loaders| ==> loaders[i] == loaders[1..][i - 1];
          assert r == Ok(true) ==> NamesCssLoader(loaders) by {
            if r == Ok(true) {
              var i :| 0 <= i < |loaders[1..]| && IsCssLoaderEntry(loaders[1..][i]) && forall j :: 0 <= j < i ==> !Nullish(loaders[1..][j]);
              assert IsCssLoaderEntry(loaders[i + 1]) && forall j :: 0 <= j < i + 1 ==> !Nullish(loaders[j]);
            }
          }
          assert NamesCssLoader(loaders) ==> NamesCssLoader(loaders[1..]) by {
            if NamesCssLoader(loaders) {
              var i :| 0 <= i < |loaders| && IsCssLoaderEntry(loaders[i]) && forall j :: 0 <= j < i ==> !Nullish(loaders[j]);
              assert i != 0;
              assert IsCssLoaderEntry(loaders[1..][i - 1]) && forall j :: 0 <= j < i - 1 ==> !Nullish(loaders[1..][j]);
            }
          }
          r
  }

  /** `Array.isArray(rule.loaders) && rule.loaders.some(…)`: reading
      `loaders` throws on a null or undefined rule, and a rule without an
      array `loaders` is not a style rule. */
  function IsStyleRule(rule: Value): (r: Result<bool>)
    ensures Nullish(rule) ==> r == Err(TypeError)
    ensures r.Err? ==> r.error == TypeError
    ensures !rule.Obj? && !Nullish(rule) ==> r == Ok(false)
    ensures rule.Obj? && !Lookup(rule.fields, "loaders").Arr? ==> r == Ok(false)
    ensures r == Ok(true) <==> rule.Obj? && Lookup(rule.fields, "loaders").Arr? && NamesCssLoader(Lookup(rule.fields, "loaders").items)
    ensures rule.Obj? && Lookup(rule.fields, "loaders").Arr? ==> r == FindsCssLoader(Lookup(rule.fields, "loaders").items)
  {
    match rule
    case Obj(fields) =>
      (match Lookup(fields, "loaders")
       case Arr(loaders) =>
         (match FindsCssLoader(loaders)
          case Ok(found) => Ok(found)
          case Err(e) => Err(TypeError))
       case _ => Ok(false))
    case _ => if Nullish(rule) then Err(TypeError) else Ok(false)
  }

  // ---------------------------------------------------------------------
  // the module chain

  /** css-loader's options on a loader object after the four assignments:
      `modules`, `localIdentName`, `sourceMap` and `url` are set, every
      other option and every other property of the loader is kept. */
  ghost predicate CssOptionsSet(opts: Options, before: seq<(string, Value)>, after: seq<(string, Value)>) {
    var options := Lookup(before, "options");
    var options' := Lookup(after, "options");
    && options.Obj? && options'.Obj?
    && Lookup(options'.fields, "modules") == True
    && Lookup(options'.fields, "localIdentName") == opts.classNamePattern
    && Lookup(options'.fields, "sourceMap") == opts.sourceMap
    && Lookup(options'.fields, "url") == True
    && (forall k :: k != "modules" && k != "localIdentName" && k != "sourceMap" && k != "url" ==>
          Lookup(options'.fields, k) == Lookup(options.fields, k))
    && (forall k :: k != "options" ==> Lookup(after, k) == Lookup(before, k))
    && Keys(after) == Keys(before)
  }

  /** `loader.options.modules = true; … loader.options.url = true` on the
      options object itself. */
  function SetCssOptions(opts: Options, options: seq<(string, Value)>): (r: seq<(string, Value)>)
    ensures Lookup(r, "modules") == True && Lookup(r, "url") == True
    ensures Lookup(r, "localIdentName") == opts.classNamePattern && Lookup(r, "sourceMap") == opts.sourceMap
    ensures forall k :: k != "modules" && k != "localIdentName" && k != "sourceMap" && k != "url" ==> Lookup(r, k) == Lookup(options, k)
  {
    var o1 := Put(options, "modules", True);
    var o2 := Put(o1, "localIdentName", opts.classNamePattern);
    var o3 := Put(o2, "sourceMap", opts.sourceMap);
    Put(o3, "url", True)
  }

  /** The css-loader branch: the options object is read, and assigning to
      it throws in strict mode unless it is an object. */
  function InjectCssOptions(opts: Options, loader: Value): (r: Result<Value>)
    requires loader.Obj?
    ensures Lookup(loader.fields, "options").Obj? <==> r.Ok?
    ensures r.Ok? ==> r.value.Obj? && CssOptionsSet(opts, loader.fields, r.value.fields)
    ensures Lookup(loader.fields, "options").Str? || Lookup(loader.fields, "options").Prim? ==> r == Err(TypeError)
  {
    match Lookup(loader.fields, "options")
    case Obj(options) =>
      assert "options" in Keys(loader.fields);
      Ok(Obj(Put(loader.fields, "options", Obj(SetCssOptions(opts, options)))))
    case Str(_) => Err(TypeError)
    case Prim(_) => Err(TypeError)
    case Arr(_) => Err(Unmodelled)
    case Re(_) => Err(Unmodelled)
  }

  /** `loader.options.import = true`. */
  function EnableImport(loader: Value): (r: Result<Value>)
    ensures loader.Obj? && Lookup(loader.fields, "options").Obj? ==> r.Ok? && r.value.Obj?
    ensures r.Ok? ==> loader.Obj? && r.value.Obj? && Lookup(loader.fields, "options").Obj?
                      && Lookup(r.value.fields, "options").Obj?
                      && Lookup(Lookup(r.value.fields, "options").fields, "import") == True
    ensures r.Ok? ==> forall k :: k != "options" ==> Lookup(r.value.fields, k) == Lookup(loader.fields, k)
    ensures r.Ok? ==> forall k :: k != "import" ==>
              Lookup(Lookup(r.value.fields, "options").fields, k) == Lookup(Lookup(loader.fields, "options").fields, k)
  {
    var options :- GetProp(loader, "options");
    var options' :- SetProp(options, "import", True);
    match loader
    case Obj(fields) => Ok(Obj(Put(fields, "options", options')))
    case _ => Err(TypeError)
  }

  /** The bare strings "css-loader" and "sass-loader" become objects. */
  function Normalize(entry: Value): Value {
    if entry == Str(CssLoader) || entry == Str(SassLoader) then Obj([("loader", entry), ("options", Obj([]))]) else entry
  }

  /** The two loader strings become `{ loader, options: {} }`, every other
      entry is kept, so no loader string survives normalisation. */
  lemma NormalizeShape(entry: Value)
    ensures entry == Str(CssLoader) || entry == Str(SassLoader) ==>
              && Normalize(entry).Obj? && Keys(Normalize(entry).fields) == ["loader", "options"]
              && Lookup(Normalize(entry).fields, "loader") == entry && Lookup(Normalize(entry).fields, "options") == Obj([])
    ensures entry != Str(CssLoader) && entry != Str(SassLoader) ==> Normalize(entry) == entry
    ensures Normalize(entry) != Str(CssLoader) && Normalize(entry) != Str(SassLoader)
  {
    var fields := [("loader", entry), ("options", Obj([]))];
    KeysCons(fields[0], [fields[1]]);
    assert fields == [fields[0]] + [fields[1]];
  }

  /** `if (loader.loader === "css-loader") { … }`: reading `.loader`
      throws on null and undefined, and only a css-loader object has its
      options set. */
  function CssStep(opts: Options, loader: Value): (r: Result<Value>)
    ensures Nullish(loader) ==> r == Err(TypeError)
    ensures loader.Obj? && IsCssLoaderEntry(loader) ==> r == InjectCssOptions(opts, loader)
    ensures !Nullish(loader) && !(loader.Obj? && IsCssLoaderEntry(loader)) ==> r == Ok(loader)
  {
    match loader
    case Obj(fields) =>
      if Lookup(fields, "loader") == Str(CssLoader) then InjectCssOptions(opts, loader) else Ok(loader)
    case _ => if Nullish(loader) then Err(TypeError) else Ok(loader)
  }

  /** The callback of `deepClone(rule.loaders).map` as written: the sass
      test compares the entry with the string "sass-loader" after the
      string has become an object, so `import` is never set. */
  function ModuleEntry(opts: Options, entry: Value): (r: Result<Value>)
    ensures Nullish(entry) ==> r == Err(TypeError)
    ensures entry.Obj? && IsCssLoaderEntry(entry) ==>
              && (r.Ok? <==> Lookup(entry.fields, "options").Obj?)
              && (r.Ok? ==> r.value.Obj? && CssOptionsSet(opts, entry.fields, r.value.fields))
    ensures entry.Obj? && IsCssLoaderEntry(entry) && (Lookup(entry.fields, "options").Str? || Lookup(entry.fields, "options").Prim?)
            ==> r == Err(TypeError)
    ensures !Nullish(entry) && entry != Str(CssLoader) && entry != Str(SassLoader) && !(entry.Obj? && IsCssLoaderEntry(entry))
            ==> r == Ok(entry)
  {
    var loader := Normalize(entry);
    var loader' :- CssStep(opts, loader);
    if loader' == Str(SassLoader) then EnableImport(loader') else Ok(loader')
  }

  // Proof steps of CssOptionsOfEmpty: each assignment to a fresh key
  // appends it.

  lemma FirstOption(x: Value)
    ensures Put([("modules", True)], "localIdentName", x) == [("modules", True), ("localIdentName", x)]
  {
    PutNew([("modules", True)], "localIdentName", x);
  }

  lemma SecondOption(x: Value, y: Value)
    ensures Put([("modules", True), ("localIdentName", x)], "sourceMap", y)
         == [("modules", True), ("localIdentName", x), ("sourceMap", y)]
  {
    PutNew([("modules", True), ("localIdentName", x)], "sourceMap", y);
  }

  lemma ThirdOption(x: Value, y: Value)
    ensures Put([("modules", True), ("localIdentName", x), ("sourceMap", y)], "url", True)
         == [("modules", True), ("localIdentName", x), ("sourceMap", y), ("url", True)]
  {
    var fields := [("modules", True), ("localIdentName", x), ("sourceMap", y)];
    assert fields == [fields[0]] + ([fields[1]] + [fields[2]]);
    KeysCons(fields[1], [fields[2]]);
    KeysCons(fields[0], [fields[1]] + [fields[2]]);
    PutNew(fields, "url", True);
  }

  /** The four options set on an empty options object, in assignment order. */
  lemma CssOptionsOfEmpty(opts: Options)
    ensures SetCssOptions(opts, []) == [("modules", True), ("localIdentName", opts.classNamePattern), ("sourceMap", opts.sourceMap), ("url", True)]
  {
    assert Put([], "modules", True) == [("modules", True)];
    FirstOption(opts.classNamePattern);
    SecondOption(opts.classNamePattern, opts.sourceMap);
    ThirdOption(opts.classNamePattern, opts.sourceMap);
  }

  /** The bare string "css-loader" becomes `{ loader, options }` with the
      four css-modules options. */
  lemma CssStringEntry(opts: Options)
    ensures ModuleEntry(opts, Str(CssLoader))
         == Ok(Obj([("loader", Str(CssLoader)), ("options", Obj([("modules", True), ("localIdentName", opts.classNamePattern), ("sourceMap", opts.sourceMap), ("url", True)]))]))
  {
    CssStringSteps(opts);
    InjectPair(opts, Str(CssLoader), []);
    CssOptionsOfEmpty(opts);
  }

  /** Proof step of CssStringEntry: the bare string "css-loader" goes
      through the css-loader branch and the sass test leaves the result
      alone. */
  lemma CssStringSteps(opts: Options)
    ensures ModuleEntry(opts, Str(CssLoader)) == InjectCssOptions(opts, Normalize(Str(CssLoader)))
  {
    var loader := Normalize(Str(CssLoader));
    LookupCons(loader.fields[0], loader.fields[1..], "loader");
    assert IsCssLoaderEntry(loader);
    LookupCons(loader.fields[0], loader.fields[1..], "options");
    LookupCons(loader.fields[1], [], "options");
    assert loader.fields[1..] == [loader.fields[1]] + [];
    assert InjectCssOptions(opts, loader).Ok?;
  }

  /** Proof step of CssStringEntry: the css-loader branch on a
      `{ loader, options }` pair sets the four options in the second place. */
  lemma InjectPair(opts: Options, name: Value, options: seq<(string, Value)>)
    ensures InjectCssOptions(opts, Obj([("loader", name), ("options", Obj(options))]))
         == Ok(Obj([("loader", name), ("options", Obj(SetCssOptions(opts, options)))]))
  {
    var fields := [("loader", name), ("options", Obj(options))];
    LookupCons(fields[0], [fields[1]], "options");
    LookupCons(fields[1], [], "options");
    assert fields == [fields[0]] + [fields[1]] && [fields[1]] == [fields[1]] + [];
    ReplaceOptions(name, Obj(options), Obj(SetCssOptions(opts, options)));
  }

  lemma CssStringEntryFixed(opts: Options)
    ensures ModuleEntryFixed(opts, Str(CssLoader)) == ModuleEntry(opts, Str(CssLoader))
  {
    CssStringEntry(opts);
    var injected := ModuleEntry(opts, Str(CssLoader)).value;
    assert Lookup(injected.fields, "loader") == Str(CssLoader);
  }

  /** Proof step of InjectPair: assigning `options` on a loader object that
      has it in second place. */
  lemma ReplaceOptions(name: Value, before: Value, after: Value)
    ensures Put([("loader", name), ("options", before)], "options", after) == [("loader", name), ("options", after)]
  {
  }

  /** The callback with the sass test on `loader.loader`, as the comment
      beside it intends: a sass-loader entry with an options object gets
      `import` set. */
  function ModuleEntryFixed(opts: Options, entry: Value): (r: Result<Value>)
    ensures Nullish(entry) ==> r == Err(TypeError)
    ensures entry.Obj? && IsCssLoaderEntry(entry) ==>
              && (r.Ok? <==> Lookup(entry.fields, "options").Obj?)
              && (r.Ok? ==> r.value.Obj? && CssOptionsSet(opts, entry.fields, r.value.fields))
    ensures entry.Obj? && Lookup(entry.fields, "loader") == Str(SassLoader) ==> (r.Ok? <==> Lookup(entry.fields, "options").Obj?)
    ensures (&& !Nullish(entry) && entry != Str(CssLoader) && entry != Str(SassLoader)
             && !(entry.Obj? && (IsCssLoaderEntry(entry) || Lookup(entry.fields, "loader") == Str(SassLoader)))) ==> r == Ok(entry)
  {
    var loader := Normalize(entry);
    var loader' :- CssStep(opts, loader);
    match loader'
    case Obj(fields) => if Lookup(fields, "loader") == Str(SassLoader) then EnableImport(loader') else Ok(loader')
    case _ => Ok(loader')
  }

  /** The corrected callback sets `import` on every sass-loader object
      that has an options object, and keeps its other options. */
  lemma FixedSetsSassImport(opts: Options, entry: Value)
    requires entry.Obj? && Lookup(entry.fields, "loader") == Str(SassLoader) && Lookup(entry.fields, "options").Obj?
    ensures ModuleEntryFixed(opts, entry).Ok? && ModuleEntryFixed(opts, entry).value.Obj?
    ensures Lookup(Lookup(ModuleEntryFixed(opts, entry).value.fields, "options").fields, "import") == True
    ensures forall k :: k != "import" ==>
              Lookup(Lookup(ModuleEntryFixed(opts, entry).value.fields, "options").fields, k) == Lookup(Lookup(entry.fields, "options").fields, k)
  {
    assert Normalize(entry) == entry;
    assert CssStep(opts, entry) == Ok(entry);
    assert ModuleEntryFixed(opts, entry) == EnableImport(entry);
  }

  /** The sass test of the as-written callback is never true: after the
      string forms have become objects, no entry equals the string
      "sass-loader", so the callback is the css-loader step alone. */
  lemma SassBranchNeverTaken(opts: Options, entry: Value)
    ensures ModuleEntry(opts, entry) == CssStep(opts, Normalize(entry))
  {
    NormalizeShape(entry);
    var loader := Normalize(entry);
    var r := CssStep(opts, loader);
    if r.Ok? && !(loader.Obj? && IsCssLoaderEntry(loader)) {
      assert r.value == loader;
    }
  }

  /** Whatever the sass-loader reference, the as-written callback never
      sets `import`: the string becomes `{ loader, options: {} }` and a
      sass-loader object is returned as it was. The corrected callback
      sets it on the string form. */
  lemma SassImportNeverSet(opts: Options, entry: Value)
    ensures ModuleEntry(opts, Str(SassLoader)) == Ok(Obj([("loader", Str(SassLoader)), ("options", Obj([]))]))
    ensures entry.Obj? && Lookup(entry.fields, "loader") == Str(SassLoader) ==> ModuleEntry(opts, entry) == Ok(entry)
    ensures ModuleEntryFixed(opts, Str(SassLoader)).Ok?
    ensures Lookup(Lookup(ModuleEntryFixed(opts, Str(SassLoader)).value.fields, "options").fields, "import") == True
  {
    SassBranchNeverTaken(opts, entry);
    SassBranchNeverTaken(opts, Str(SassLoader));
    var loader := Normalize(Str(SassLoader));
    assert !IsCssLoaderEntry(loader);
    assert CssStep(opts, loader) == Ok(loader);
    assert ModuleEntryFixed(opts, Str(SassLoader)) == EnableImport(loader);
  }

  /** `deepClone(rule.loaders).map(…)`: entry i of the chain is the rewrite
      of entry i, and the first entry that throws makes the chain throw. */
  function ModuleChain(opts: Options, loaders: seq<Value>): (r: Result<seq<Value>>)
    ensures r.Ok? <==> forall i :: 0 <= i < |loaders| ==> ModuleEntry(opts, loaders[i]).Ok?
    ensures r.Ok? ==> |r.value| == |loaders| && forall i :: 0 <= i < |loaders| ==> ModuleEntry(opts, loaders[i]) == Ok(r.value[i])
  {
    MapResult(entry => ModuleEntry(opts, entry), loaders)
  }

  function ModuleChainFixed(opts: Options, loaders: seq<Value>): (r: Result<seq<Value>>)
    ensures r.Ok? <==> forall i :: 0 <= i < |loaders| ==> ModuleEntryFixed(opts, loaders[i]).Ok?
    ensures r.Ok? ==> |r.value| == |loaders| && forall i :: 0 <= i < |loaders| ==> ModuleEntryFixed(opts, loaders[i]) == Ok(r.value[i])
  {
    MapResult(entry => ModuleEntryFixed(opts, entry), loaders)
  }

  // ---------------------------------------------------------------------
  // the three-way split

  /** `RegExp(rule.test)` called without `new`: a regular expression is
      returned as it is; any other value is turned into a string that
      becomes the source, with no flags. */
  function ToRegExp(v: Value): (r: Result<Pattern>)
    ensures v.Re? ==> r == Ok(v.pattern)
    ensures v.Str? ==> r == Ok(Pattern(if v.s == "" then "(?:)" else v.s, ""))
    ensures r.Err? <==> v.Arr?
    ensures r.Ok? && !v.Re? ==> r.value.flags == ""
  {
    match v
    case Re(p) => Ok(p)
    case Str(s) => Ok(Pattern(if s == "" then "(?:)" else s, ""))
    case Prim(Undefined) => Ok(Pattern("(?:)", ""))
    case Prim(Null) => Ok(Pattern("null", ""))
    case Prim(Bool(b)) => Ok(Pattern(if b then "true" else "false", ""))
    case Prim(Num(n)) => Ok(Pattern(IntToString(n), ""))
    case Obj(_) => Ok(Pattern("[object Object]", ""))
    case Arr(_) => Err(Unmodelled)
  }

  /** The shape of `{ oneOf: [a, b, rule] }`: exactly three alternatives,
      the third the original rule; `a` and `b` are the rule's properties in
      their order with `loaders` set to the same chain, `a` with `test`
      replaced and `b` with `resourceQuery` set (appended when the rule has
      none). */
  ghost predicate SplitShape(fields: seq<(string, Value)>, chain: seq<Value>, r: Value) {
    && r.Obj?
    && Keys(r.fields) == ["oneOf"]
    && Lookup(r.fields, "oneOf").Arr?
    && |Lookup(r.fields, "oneOf").items| == 3
    && var a := Lookup(r.fields, "oneOf").items[0];
    && var b := Lookup(r.fields, "oneOf").items[1];
    && Lookup(r.fields, "oneOf").items[2] == Obj(fields)
    && a.Obj? && b.Obj?
    && Lookup(a.fields, "loaders") == Arr(chain)
    && Lookup(b.fields, "loaders") == Arr(chain)
    && Lookup(a.fields, "test").Re?
    && Lookup(b.fields, "resourceQuery") == Re(ModuleQuery)
    && (forall k :: k != "loaders" && k != "test" ==> Lookup(a.fields, k) == Lookup(fields, k))
    && (forall k :: k != "loaders" && k != "resourceQuery" ==> Lookup(b.fields, k) == Lookup(fields, k))
    && Keys(a.fields) == WithKey(WithKey(Keys(fields), "loaders"), "test")
    && Keys(b.fields) == WithKey(WithKey(Keys(fields), "loaders"), "resourceQuery")
  }

  /** The object literal of the split, with `test` of `a` given. */
  function OneOf(fields: seq<(string, Value)>, chain: seq<Value>, narrowed: Pattern): (r: Value)
    ensures SplitShape(fields, chain, r)
    ensures Lookup(Lookup(r.fields, "oneOf").items[0].fields, "test") == Re(narrowed)
  {
    var withChain := Put(fields, "loaders", Arr(chain));
    var a := Obj(Put(withChain, "test", Re(narrowed)));
    var b := Obj(Put(withChain, "resourceQuery", Re(ModuleQuery)));
    var split := Arr([a, b, Obj(fields)]);
    assert Lookup(a.fields, "loaders") == Arr(chain) && Lookup(b.fields, "loaders") == Arr(chain);
    assert forall k :: k != "loaders" && k != "test" ==> Lookup(a.fields, k) == Lookup(fields, k);
    assert forall k :: k != "loaders" && k != "resourceQuery" ==> Lookup(b.fields, k) == Lookup(fields, k);
    KeysCons(("oneOf", split), []);
    LookupCons(("oneOf", split), [], "oneOf");
    assert [("oneOf", split)] == [("oneOf", split)] + [];
    Obj([("oneOf", split)])
  }

  /** The test of the first alternative of a split. */
  function NarrowedTest(r: Value): Value
    requires r.Obj? && Lookup(r.fields, "oneOf").Arr? && |Lookup(r.fields, "oneOf").items| == 3
    requires Lookup(r.fields, "oneOf").items[0].Obj?
  {
    Lookup(Lookup(r.fields, "oneOf").items[0].fields, "test")
  }

  /** The split of a style rule from its cloned loader list, as written:
      the module chain is built first, then `test` is converted and
      prefixed with the module marker, which throws when the rule's own
      pattern has two or more distinct flags. */
  function SplitRule(opts: Options, fields: seq<(string, Value)>, cloned: seq<Value>): (r: Result<Value>)
    ensures ModuleChain(opts, cloned).Err? ==> r == Err(ModuleChain(opts, cloned).error)
    ensures (&& ModuleChain(opts, cloned).Ok? && ToRegExp(Lookup(fields, "test")).Ok?
             && ',' !in ToRegExp(Lookup(fields, "test")).value.flags
             && |Dedup(ToRegExp(Lookup(fields, "test")).value.flags)| <= 1) ==> r.Ok?
    ensures (&& ModuleChain(opts, cloned).Ok? && ToRegExp(Lookup(fields, "test")).Ok?
             && |Dedup(ToRegExp(Lookup(fields, "test")).value.flags)| >= 2) ==> r == Err(SyntaxError)
    ensures ModuleChain(opts, cloned).Ok? && !Lookup(fields, "test").Arr? && !Lookup(fields, "test").Re? ==> r.Ok?
    ensures r.Ok? ==> && ModuleChain(opts, cloned).Ok? && ToRegExp(Lookup(fields, "test")).Ok?
                      && SplitShape(fields, ModuleChain(opts, cloned).value, r.value)
                      && NarrowedTest(r.value).pattern.source == ModuleMarker.source + ToRegExp(Lookup(fields, "test")).value.source
                      && NarrowedTest(r.value).pattern.flags == Dedup(ToRegExp(Lookup(fields, "test")).value.flags)
                      && |NarrowedTest(r.value).pattern.flags| <= 1
  {
    var chain :- ModuleChain(opts, cloned);
    var test :- ToRegExp(Lookup(fields, "test"));
    assert ModuleMarker.flags + test.flags == test.flags;
    var narrowed :- ConcatRegexp(ModuleMarker, test);
    Ok(OneOf(fields, chain, narrowed))
  }

  /** The split with the corrected entry callback and the corrected flag
      join: every flag of the rule's pattern is kept. */
  function SplitRuleFixed(opts: Options, fields: seq<(string, Value)>, cloned: seq<Value>): (r: Result<Value>)
    ensures ModuleChainFixed(opts, cloned).Err? ==> r == Err(ModuleChainFixed(opts, cloned).error)
    ensures (&& ModuleChainFixed(opts, cloned).Ok? && ToRegExp(Lookup(fields, "test")).Ok?
             && ',' !in ToRegExp(Lookup(fields, "test")).value.flags) ==> r.Ok?
    ensures r.Ok? ==> && ModuleChainFixed(opts, cloned).Ok? && ToRegExp(Lookup(fields, "test")).Ok?
                      && SplitShape(fields, ModuleChainFixed(opts, cloned).value, r.value)
                      && NarrowedTest(r.value).pattern.source == ModuleMarker.source + ToRegExp(Lookup(fields, "test")).value.source
                      && (forall c :: c in NarrowedTest(r.value).pattern.flags <==> c in ToRegExp(Lookup(fields, "test")).value.flags)
  {
    var chain :- ModuleChainFixed(opts, cloned);
    var test :- ToRegExp(Lookup(fields, "test"));
    assert ModuleMarker.flags + test.flags == test.flags;
    var narrowed :- ConcatRegexpFixed(ModuleMarker, test);
    Ok(OneOf(fields, chain, narrowed))
  }

  /** `deepClone(rule.loaders)` followed by the split. */
  function CloneAndSplit(opts: Options, fields: seq<(string, Value)>, loaders: Value): (r: Result<Value>)
    ensures DeepClone(loaders).Err? ==> r == Err(LeafError)
    ensures DeepClone(loaders).Ok? && loaders.Arr? ==> r == SplitRule(opts, fields, loaders.items)
  {
    var cloned :- DeepClone(loaders);
    match cloned
    case Arr(items) => SplitRule(opts, fields, items)
    case _ => Err(TypeError)
  }

  /** The callback of `config.module.rules.map` as written: a rule that is
      not a style rule is returned as it is; a style rule is cloned and
      split. */
  function MixRule(opts: Options, rule: Value): (r: Result<Value>)
    ensures Nullish(rule) ==> r == Err(TypeError)
    ensures IsStyleRule(rule) == Ok(false) ==> r == Ok(rule)
    ensures IsStyleRule(rule).Err? ==> r == Err(IsStyleRule(rule).error)
    ensures !rule.Obj? && !Nullish(rule) ==> r == Ok(rule)
    ensures rule.Obj? && !Lookup(rule.fields, "loaders").Arr? ==> r == Ok(rule)
  {
    var style :- IsStyleRule(rule);
    if !style then Ok(rule)
    else CloneAndSplit(opts, rule.fields, Lookup(rule.fields, "loaders"))
  }

  /** Every style rule names css-loader by a string leaf, so the
      as-written deepClone throws on its loader list: the hook rejects
      every configuration that has a style rule. */
  lemma MatchedRuleFailsToClone(opts: Options, rule: Value)
    requires IsStyleRule(rule) == Ok(true)
    ensures MixRule(opts, rule) == Err(LeafError)
  {
    var loaders := Lookup(rule.fields, "loaders");
    var i :| 0 <= i < |loaders.items| && IsCssLoaderEntry(loaders.items[i]) && forall j :: 0 <= j < i ==> !Nullish(loaders.items[j]);
    var entry := loaders.items[i];
    assert entry in loaders.items;
    if entry.Obj? && entry != Str(CssLoader) {
      assert "loader" in Keys(entry.fields);
      assert ("loader", Str(CssLoader)) in entry.fields;
    }
    assert !Clonable(entry);
    assert !Clonable(loaders);
  }

  /** Whenever the as-written callback succeeds it leaves the rule as it was. */
  lemma MixRuleKeepsRule(opts: Options, rule: Value)
    ensures MixRule(opts, rule).Ok? ==> MixRule(opts, rule).value == rule
  {
    if IsStyleRule(rule) == Ok(true) {
      MatchedRuleFailsToClone(opts, rule);
    }
  }

  /** The callback with the corrected deepClone, entry callback and flag
      join. */
  function MixRuleFixed(opts: Options, rule: Value): (r: Result<Value>)
    ensures Nullish(rule) ==> r == Err(TypeError)
    ensures IsStyleRule(rule) == Ok(false) ==> r == Ok(rule)
    ensures IsStyleRule(rule).Err? ==> r == Err(IsStyleRule(rule).error)
    ensures IsStyleRule(rule) == Ok(true) ==> r == SplitRuleFixed(opts, rule.fields, Lookup(rule.fields, "loaders").items)
    ensures (&& IsStyleRule(rule) == Ok(true)
             && ModuleChainFixed(opts, Lookup(rule.fields, "loaders").items).Ok?
             && ToRegExp(Lookup(rule.fields, "test")).Ok?
             && ',' !in ToRegExp(Lookup(rule.fields, "test")).value.flags) ==> r.Ok?
    ensures IsStyleRule(rule) == Ok(true) && r.Ok? ==>
              && ModuleChainFixed(opts, Lookup(rule.fields, "loaders").items).Ok?
              && SplitShape(rule.fields, ModuleChainFixed(opts, Lookup(rule.fields, "loaders").items).value, r.value)
  {
    var style :- IsStyleRule(rule);
    if !style then Ok(rule)
    else
      var loaders := Lookup(rule.fields, "loaders");
      SplitRuleFixed(opts, rule.fields, DeepCloneItemsFixed(loaders.items))
  }

  /** `config.module.rules = config.module.rules.map(…)` as written: the
      rule list keeps its length and rule i becomes the callback's result
      on rule i. The result is the configuration after the hook; the hook
      itself has no `return` and gives `undefined` to its caller. */
  function MixWebpackConfig(opts: Options, config: Value): (r: Result<Value>)
    ensures !HasRules(config) ==> r == Err(TypeError)
    ensures r.Ok? <==> HasRules(config) && forall i :: 0 <= i < |RulesOf(config)| ==> MixRule(opts, RulesOf(config)[i]).Ok?
    ensures r.Ok? ==> HasRules(config) && HasRules(r.value) && |RulesOf(r.value)| == |RulesOf(config)|
    ensures r.Ok? ==> forall i :: 0 <= i < |RulesOf(config)| ==> MixRule(opts, RulesOf(config)[i]) == Ok(RulesOf(r.value)[i])
    ensures r.Ok? ==> r.value == WithRules(config, RulesOf(r.value))
  {
    MapRules(config, rule => MixRule(opts, rule))
  }

  /** As written, the hook either throws or leaves the configuration as
      it was. */
  lemma MixWebpackConfigIsIdentity(opts: Options, config: Value)
    requires MixWebpackConfig(opts, config).Ok?
    ensures MixWebpackConfig(opts, config).value == config
  {
    var r := MixWebpackConfig(opts, config).value;
    forall i | 0 <= i < |RulesOf(config)|
      ensures RulesOf(r)[i] == RulesOf(config)[i]
    {
      MixRuleKeepsRule(opts, RulesOf(config)[i]);
    }
    assert RulesOf(r) == RulesOf(config);
    WithSameRules(config);
  }

  /** The corrected hook: rule i becomes the corrected callback's result. */
  function MixWebpackConfigFixed(opts: Options, config: Value): (r: Result<Value>)
    ensures !HasRules(config) ==> r == Err(TypeError)
    ensures r.Ok? <==> HasRules(config) && forall i :: 0 <= i < |RulesOf(config)| ==> MixRuleFixed(opts, RulesOf(config)[i]).Ok?
    ensures r.Ok? ==> HasRules(config) && HasRules(r.value) && |RulesOf(r.value)| == |RulesOf(config)|
    ensures r.Ok? ==> forall i :: 0 <= i < |RulesOf(config)| ==> MixRuleFixed(opts, RulesOf(config)[i]) == Ok(RulesOf(r.value)[i])
    ensures r.Ok? ==> r.value == WithRules(config, RulesOf(r.value))
  {
    MapRules(config, rule => MixRuleFixed(opts, rule))
  }

  /** The style rule `{ test: /\.css$/, loaders: ["css-loader"] }`. */
  function CssRule(): Value {
    Obj([("test", Re(Pattern("\\.css$", ""))), ("loaders", Arr([Str(CssLoader)]))])
  }

  /** Its module chain under the default options. */
  function DefaultChain(): seq<Value> {
    [Obj([("loader", Str(CssLoader)),
          ("options", Obj([("modules", True), ("localIdentName", Str(DefaultClassNamePattern)), ("sourceMap", True), ("url", True)]))])]
  }

  lemma CssRuleIsStyleRule()
    ensures IsStyleRule(CssRule()) == Ok(true)
  {
    assert Lookup(CssRule().fields, "loaders") == Arr([Str(CssLoader)]);
    assert FindsCssLoader([Str(CssLoader)]) == Ok(true);
  }

  lemma DefaultChainFixed()
    ensures ModuleChainFixed(Defaults(), [Str(CssLoader)]) == Ok(DefaultChain())
  {
    CssStringEntry(Defaults());
    CssStringEntryFixed(Defaults());
    var r := ModuleChainFixed(Defaults(), [Str(CssLoader)]);
    assert r.value == DefaultChain();
  }

  lemma DefaultNarrowedTest()
    ensures ConcatRegexpFixed(ModuleMarker, Pattern("\\.css$", "")) == Ok(Pattern("\\.modules?\\.css$", ""))
  {
    assert "" + "" == "";
    assert ModuleMarker.source + "\\.css$" == "\\.modules?\\.css$";
  }

  // Proof steps of CssRuleSplit: the three assignments the split makes to
  // the fields of CssRule().

  lemma CssRuleChain(chain: seq<Value>, test: Pattern)
    ensures Put([("test", Re(test)), ("loaders", Arr([Str(CssLoader)]))], "loaders", Arr(chain)) == [("test", Re(test)), ("loaders", Arr(chain))]
  {
    assert Put([("loaders", Arr([Str(CssLoader)]))], "loaders", Arr(chain)) == [("loaders", Arr(chain))];
  }

  lemma CssRuleNarrowed(chain: seq<Value>, test: Pattern, narrowed: Pattern)
    ensures Put([("test", Re(test)), ("loaders", Arr(chain))], "test", Re(narrowed)) == [("test", Re(narrowed)), ("loaders", Arr(chain))]
  {
  }

  lemma CssRuleQuery(chain: seq<Value>, test: Pattern)
    ensures Put([("test", Re(test)), ("loaders", Arr(chain))], "resourceQuery", Re(ModuleQuery))
         == [("test", Re(test)), ("loaders", Arr(chain)), ("resourceQuery", Re(ModuleQuery))]
  {
    PutNew([("test", Re(test)), ("loaders", Arr(chain))], "resourceQuery", Re(ModuleQuery));
  }

  /** End to end, with the corrections: the module-path alternative tests
      `/\.modules?\.css$/`, the module-query alternative keeps `/\.css$/`
      and adds the query, both carry css-loader with the default
      css-modules options, and the third alternative is the rule itself.
      As written, the same rule makes the hook throw. */
  lemma CssRuleSplit()
    ensures MixRuleFixed(Defaults(), CssRule())
         == Ok(Obj([("oneOf", Arr([Obj([("test", Re(Pattern("\\.modules?\\.css$", ""))), ("loaders", Arr(DefaultChain()))]),
                                   Obj([("test", Re(Pattern("\\.css$", ""))), ("loaders", Arr(DefaultChain())), ("resourceQuery", Re(ModuleQuery))]),
                                   CssRule()]))]))
    ensures MixRule(Defaults(), CssRule()) == Err(LeafError)
  {
    CssRuleIsStyleRule();
    MatchedRuleFailsToClone(Defaults(), CssRule());
    DefaultChainFixed();
    DefaultNarrowedTest();
    assert Lookup(CssRule().fields, "test") == Re(Pattern("\\.css$", ""));
    assert Lookup(CssRule().fields, "loaders") == Arr([Str(CssLoader)]);
    CssRuleChain(DefaultChain(), Pattern("\\.css$", ""));
    CssRuleNarrowed(DefaultChain(), Pattern("\\.css$", ""), Pattern("\\.modules?\\.css$", ""));
    CssRuleQuery(DefaultChain(), Pattern("\\.css$", ""));
  }

  /** The extension object. */
  class ImportCssModules {
    var classNamePattern: Value
    var sourceMap: Value

    function Current(): Options
      reads this
    {
      Options(classNamePattern, sourceMap)
    }

    constructor ()
      ensures Current() == Defaults()
    {
      classNamePattern := Str(DefaultClassNamePattern);
      sourceMap := True;
    }

    method Register(args: Value) returns (outcome: Outcome)
      modifies this
      ensures (Current(), outcome) == ApplyRegister(old(Current()), args)
    {
      var given := if args == Undef then Obj([]) else args;
      if given == Prim(Null) {
        outcome := Threw(TypeError);
        return;
      }
      var pattern := GetProp(given, "classNamePattern").value;
      var maps := GetProp(given, "sourceMap").value;
      if Truthy(pattern) {
        classNamePattern := pattern;
      }
      if Truthy(maps) {
        sourceMap := maps;
      }
      outcome := Done;
    }

    /** The hook: the configuration it leaves behind, or the exception. The
        JavaScript hook has no `return`, so its own return value is
        `undefined`; `r` is the configuration after it, not that value. */
    method WebpackConfig(config: Value) returns (r: Result<Value>)
      ensures r == MixWebpackConfig(Current(), config)
      ensures r.Ok? ==> r.value == config
    {
      r := MixWebpackConfig(Current(), config);
      if r.Ok? {
        MixWebpackConfigIsIdentity(Current(), config);
      }
    }
  }
}
