/** The `ReactCSSModules` plugin (src/ReactCSSModules.js): two option fields,
    `register` to override them, and a webpack hook that injects a
    CSS-modules `options.modules` record into every css-loader reference of
    every rule's `use` chain and of every `oneOf` alternative's `use` chain. */
module ReactPlugin {
  import opened JsValue
  import opened Webpack

  const DefaultScopedName: string := "[name]__[local]___[hash:base64:5]"

  /** The plugin's two fields: the class-name template and the source-map
      switch handed to css-loader. */
  datatype Options = Options(scopedName: Value, createSourceMap: Value)

  function Defaults(): Options {
    Options(Str(DefaultScopedName), False)
  }

  // ---------------------------------------------------------------------
  // register

  /** `register(args)` as written: the options afterwards and how the call
      ends. A string throws at the undeclared `classNamePattern`; any other
      non-object is ignored; `null` throws at the destructuring; an object
      sets `scopedName` when it defines one, then throws at the undeclared
      `createSourceMap`, which therefore never changes. */
  function ApplyRegister(opts: Options, args: Value): (r: (Options, Outcome))
    ensures r.0.createSourceMap == opts.createSourceMap
    ensures r.1 == Done <==> !args.Str? && !IsObjectType(args)
    ensures r.1 == Done ==> r.0 == opts
    ensures args.Str? ==> r == (opts, Threw(ReferenceError("classNamePattern")))
    ensures args == Prim(Null) ==> r == (opts, Threw(TypeError))
    ensures args.Arr? || args.Obj? || args.Re? ==> r.1 == Threw(ReferenceError("createSourceMap"))
    ensures r.0.scopedName != opts.scopedName ==> args.Obj? && r.0.scopedName == Lookup(args.fields, "scopedName")
    ensures args.Obj? && Lookup(args.fields, "scopedName") != Undef ==> r.0.scopedName == Lookup(args.fields, "scopedName")
    ensures args.Obj? && Lookup(args.fields, "scopedName") == Undef ==> r.0.scopedName == opts.scopedName
    ensures !args.Obj? ==> r.0 == opts
  {
    if args.Str? then (opts, Threw(ReferenceError("classNamePattern")))
    else if !IsObjectType(args) then (opts, Done)
    else
      match GetProp(args, "scopedName")
      case Err(e) => (opts, Threw(e))
      case Ok(scopedName) =>
        var opts' := if scopedName != Undef then opts.(scopedName := scopedName) else opts;
        (opts', Threw(ReferenceError("createSourceMap")))
  }

  /** `register` as its comments describe it: a string is the template, an
      object sets each field it defines, under the documented keys
      `scopedName` and `createSourceMap`. */
  function ApplyRegisterFixed(opts: Options, args: Value): (r: (Options, Outcome))
    ensures r.1 == Done <==> args != Prim(Null)
    ensures args.Str? ==> r.0 == opts.(scopedName := args)
    ensures !args.Str? && !args.Obj? ==> r.0 == opts
    ensures args.Obj? && Lookup(args.fields, "scopedName") != Undef ==> r.0.scopedName == Lookup(args.fields, "scopedName")
    ensures args.Obj? && Lookup(args.fields, "createSourceMap") != Undef ==> r.0.createSourceMap == Lookup(args.fields, "createSourceMap")
    ensures args.Obj? && Lookup(args.fields, "scopedName") == Undef ==> r.0.scopedName == opts.scopedName
    ensures args.Obj? && Lookup(args.fields, "createSourceMap") == Undef ==> r.0.createSourceMap == opts.createSourceMap
  {
    if args.Str? then (opts.(scopedName := args), Done)
    else if !IsObjectType(args) then (opts, Done)
    else
      match GetProp(args, "scopedName")
      case Err(e) => (opts, Threw(e))
      case Ok(scopedName) =>
        var sourceMap := GetProp(args, "createSourceMap").value;
        var opts' := if scopedName != Undef then opts.(scopedName := scopedName) else opts;
        var opts'' := if sourceMap != Undef then opts'.(createSourceMap := sourceMap) else opts';
        (opts'', Done)
  }

  /** The string shorthand: as written it throws and keeps the default
      template; corrected, the string becomes the template. */
  lemma StringShorthandFails()
    ensures ApplyRegister(Defaults(), Str("[hash]")) == (Defaults(), Threw(ReferenceError("classNamePattern")))
    ensures ApplyRegisterFixed(Defaults(), Str("[hash]")).0.scopedName == Str("[hash]")
  {
  }

  /** As written the switch stays off under either key; corrected, the
      documented key `createSourceMap` turns it on. */
  lemma SourceMapNeverRegistered()
    ensures ApplyRegister(Defaults(), Obj([("sourceMap", True)])).0.createSourceMap == False
    ensures ApplyRegister(Defaults(), Obj([("createSourceMap", True)])).0.createSourceMap == False
    ensures ApplyRegisterFixed(Defaults(), Obj([("createSourceMap", True)])).0.createSourceMap == True
  {
  }

  // ---------------------------------------------------------------------
  // replaceLoaderOptions

  /** The `options.modules` record injected into css-loader. */
  function ModulesRecord(opts: Options): Value {
    Obj([("mode", Str("local")), ("localIdentName", opts.scopedName),
         ("sourceMap", opts.createSourceMap), ("url", True)])
  }

  /** The record's keys in their order and the value of each. */
  lemma ModulesRecordShape(opts: Options)
    ensures ModulesRecord(opts).Obj?
    ensures Keys(ModulesRecord(opts).fields) == ["mode", "localIdentName", "sourceMap", "url"]
    ensures Lookup(ModulesRecord(opts).fields, "mode") == Str("local") && Lookup(ModulesRecord(opts).fields, "url") == True
    ensures Lookup(ModulesRecord(opts).fields, "localIdentName") == opts.scopedName
    ensures Lookup(ModulesRecord(opts).fields, "sourceMap") == opts.createSourceMap
  {
    ModulesRecordKeys(opts);
  }

  /** Proof step of ModulesRecordShape: the key order. */
  lemma ModulesRecordKeys(opts: Options)
    ensures Keys(ModulesRecord(opts).fields) == ["mode", "localIdentName", "sourceMap", "url"]
  {
    var fields := ModulesRecord(opts).fields;
    var url := [("url", True)];
    assert fields == [fields[0]] + fields[1..] && fields[1..] == [fields[1]] + fields[2..] && fields[2..] == [fields[2]] + url;
    KeysCons(url[0], []);
    KeysCons(fields[2], url);
    KeysCons(fields[1], fields[2..]);
    KeysCons(fields[0], fields[1..]);
  }

  /** `options` after the injection: `modules` is the record, every other
      option the entry had (when its `options` was truthy) survives, and the
      entry's other properties are untouched. */
  ghost predicate OptionsInjected(before: seq<(string, Value)>, after: seq<(string, Value)>, record: Value) {
    var previous := Lookup(before, "options");
    var kept := if Truthy(previous) then OwnEntries(previous) else [];
    var options := Lookup(after, "options");
    && options.Obj?
    && Lookup(options.fields, "modules") == record
    && (forall k :: k != "modules" ==> Lookup(options.fields, k) == Lookup(kept, k))
    && (forall k :: k != "options" ==> Lookup(after, k) == Lookup(before, k))
    && Keys(after) == WithKey(Keys(before), "options")
  }

  /** `rule.options ? Object.assign({}, rule.options, options) : options`,
      where `options` is `{ modules: record }`. */
  function MergedOptions(previous: Value, record: Value): (o: seq<(string, Value)>)
    ensures Lookup(o, "modules") == record
    ensures forall k :: k != "modules" ==> Lookup(o, k) == Lookup(if Truthy(previous) then OwnEntries(previous) else [], k)
  {
    if Truthy(previous) then Put(OwnEntries(previous), "modules", record) else [("modules", record)]
  }

  /** `rule.options = …` on a loader object. */
  function InjectInto(fields: seq<(string, Value)>, record: Value): (r: seq<(string, Value)>)
    ensures OptionsInjected(fields, r, record)
  {
    Put(fields, "options", Obj(MergedOptions(Lookup(fields, "options"), record)))
  }

  /** `replaceLoaderOptions`, with the string form wrapped under `wrapKey`.
      Reading `.loader` throws only on null and undefined, and only an
      object can have a `loader` property. */
  function InjectModules(opts: Options, entry: Value, wrapKey: string): (r: Result<Value>)
    requires wrapKey != "options"
    ensures Nullish(entry) ==> r == Err(TypeError)
    ensures !Nullish(entry) ==> r.Ok?
    ensures !Nullish(entry) && !IsCssLoaderEntry(entry) ==> r == Ok(entry)
    ensures entry == Str(CssLoader) ==> r == Ok(Obj([(wrapKey, entry), ("options", Obj([("modules", ModulesRecord(opts))]))]))
    ensures entry.Obj? && IsCssLoaderEntry(entry) ==> r == Ok(Obj(InjectInto(entry.fields, ModulesRecord(opts))))
    ensures entry.Obj? && IsCssLoaderEntry(entry) ==> r.Ok? && r.value.Obj? && OptionsInjected(entry.fields, r.value.fields, ModulesRecord(opts))
  {
    match entry
    case Obj(fields) =>
      if Lookup(fields, "loader") != Str(CssLoader) then Ok(entry)
      else Ok(Obj(InjectInto(fields, ModulesRecord(opts))))
    case Str(name) =>
      if name != CssLoader then Ok(entry)
      else
        var wrapped := [(wrapKey, entry)];
        assert Lookup(wrapped, "options") == Undef;
        assert MergedOptions(Undef, ModulesRecord(opts)) == [("modules", ModulesRecord(opts))];
        assert Put(wrapped, "options", Obj([("modules", ModulesRecord(opts))]))
            == [(wrapKey, entry), ("options", Obj([("modules", ModulesRecord(opts))]))];
        Ok(Obj(InjectInto(wrapped, ModulesRecord(opts))))
    case _ =>
      if Nullish(entry) then Err(TypeError) else Ok(entry)
  }

  /** `replaceLoaderOptions` as written: null and undefined throw at
      `rule.loader`, a reference that does not name css-loader is returned
      unchanged, a css-loader object gets `options.modules` set to the
      record, and the string "css-loader" becomes an object keyed `rule`. */
  function ReplaceLoaderOptions(opts: Options, entry: Value): (r: Result<Value>)
    ensures Nullish(entry) ==> r == Err(TypeError)
    ensures !Nullish(entry) ==> r.Ok?
    ensures !Nullish(entry) && !IsCssLoaderEntry(entry) ==> r == Ok(entry)
    ensures entry == Str(CssLoader) ==> r == Ok(Obj([("rule", entry), ("options", Obj([("modules", ModulesRecord(opts))]))]))
    ensures entry.Obj? && IsCssLoaderEntry(entry) ==> r.Ok? && r.value.Obj? && OptionsInjected(entry.fields, r.value.fields, ModulesRecord(opts))
  {
    InjectModules(opts, entry, "rule")
  }

  /** The string "css-loader" comes out with no `loader` property: the
      result names no loader at all. */
  lemma StringEntryLosesLoader(opts: Options)
    ensures ReplaceLoaderOptions(opts, Str(CssLoader)).Ok?
    ensures !IsCssLoaderEntry(ReplaceLoaderOptions(opts, Str(CssLoader)).value)
    ensures Lookup(ReplaceLoaderOptions(opts, Str(CssLoader)).value.fields, "loader") == Undef
  {
  }

  /** replaceLoaderOptions with the string wrapped as `{ loader: rule }`:
      the result names css-loader exactly when the entry did. */
  function ReplaceLoaderOptionsFixed(opts: Options, entry: Value): (r: Result<Value>)
    ensures Nullish(entry) ==> r == Err(TypeError)
    ensures !Nullish(entry) ==> r.Ok?
    ensures entry == Str(CssLoader) ==> r == Ok(Obj([("loader", entry), ("options", Obj([("modules", ModulesRecord(opts))]))]))
    ensures entry.Obj? && IsCssLoaderEntry(entry) ==> r == Ok(Obj(InjectInto(entry.fields, ModulesRecord(opts))))
    ensures r.Ok? ==> (IsCssLoaderEntry(r.value) <==> IsCssLoaderEntry(entry))
  {
    InjectModules(opts, entry, "loader")
  }

  /** Injecting the record into a loader whose `options.modules` already is
      that record changes nothing. */
  lemma {:induction false} ReinjectChangesNothing(fields: seq<(string, Value)>, record: Value)
    requires record.Obj? && Lookup(fields, "options").Obj? && Lookup(Lookup(fields, "options").fields, "modules") == record
    ensures InjectInto(fields, record) == fields
  {
    var options := Lookup(fields, "options");
    assert "modules" in Keys(options.fields);
    PutLookup(options.fields, "modules");
    assert Truthy(options) && OwnEntries(options) == options.fields;
    assert MergedOptions(options, record) == options.fields;
    assert "options" in Keys(fields);
    PutLookup(fields, "options");
  }

  /** A css-loader object that already carries the record is a fixed point
      of the corrected rewrite. */
  lemma {:induction false} FixedOnInjected(opts: Options, fields: seq<(string, Value)>)
    requires Lookup(fields, "loader") == Str(CssLoader)
    requires Lookup(fields, "options").Obj? && Lookup(Lookup(fields, "options").fields, "modules") == ModulesRecord(opts)
    ensures ReplaceLoaderOptionsFixed(opts, Obj(fields)) == Ok(Obj(fields))
  {
    ReinjectChangesNothing(fields, ModulesRecord(opts));
  }

  /** Running the corrected rewrite over its own output changes nothing. */
  lemma {:induction false} FixedIsIdempotent(opts: Options, entry: Value)
    requires ReplaceLoaderOptionsFixed(opts, entry).Ok?
    ensures ReplaceLoaderOptionsFixed(opts, ReplaceLoaderOptionsFixed(opts, entry).value) == ReplaceLoaderOptionsFixed(opts, entry)
  {
    var once := ReplaceLoaderOptionsFixed(opts, entry).value;
    if entry == Str(CssLoader) {
      var options := Obj([("modules", ModulesRecord(opts))]);
      assert once == Obj([("loader", entry), ("options", options)]);
      assert Lookup(once.fields, "options") == options;
      FixedOnInjected(opts, once.fields);
    } else if IsCssLoaderEntry(entry) {
      assert OptionsInjected(entry.fields, once.fields, ModulesRecord(opts));
      FixedOnInjected(opts, once.fields);
    }
  }

  // ---------------------------------------------------------------------
  // webpackConfig

  /** Each entry of a `use` chain is the rewrite of the entry at the same
      index. */
  ghost predicate EntriesRewritten(opts: Options, before: seq<Value>, after: seq<Value>) {
    |before| == |after| && forall i :: 0 <= i < |before| ==> ReplaceLoaderOptions(opts, before[i]) == Ok(after[i])
  }

  /** `oneOf.use = oneOf.use.map(this.replaceLoaderOptions); return oneOf`:
      an alternative without an array `use` throws. */
  function RewriteAlternative(opts: Options, alternative: Value): (r: Result<Value>)
    ensures r.Err? ==> r.error == TypeError
    ensures r.Ok? <==> alternative.Obj? && Lookup(alternative.fields, "use").Arr?
                       && forall i :: 0 <= i < |Lookup(alternative.fields, "use").items| ==> !Nullish(Lookup(alternative.fields, "use").items[i])
    ensures r.Ok? ==> && r.value.Obj?
                      && Keys(r.value.fields) == Keys(alternative.fields)
                      && (forall k :: k != "use" ==> Lookup(r.value.fields, k) == Lookup(alternative.fields, k))
                      && Lookup(r.value.fields, "use").Arr?
                      && EntriesRewritten(opts, Lookup(alternative.fields, "use").items, Lookup(r.value.fields, "use").items)
  {
    var use :- GetProp(alternative, "use");
    if !use.Arr? then Err(TypeError)
    else
      match MapResult(entry => ReplaceLoaderOptions(opts, entry), use.items)
      case Err(e) => Err(e)
      case Ok(mapped) => Ok(Obj(Put(alternative.fields, "use", Arr(mapped))))
  }

  /** Each `oneOf` alternative is the rewrite of the one at the same index. */
  ghost predicate AlternativesRewritten(opts: Options, before: seq<Value>, after: seq<Value>) {
    |before| == |after| && forall i :: 0 <= i < |before| ==> RewriteAlternative(opts, before[i]) == Ok(after[i])
  }

  /** A rule object after the hook: an array `use` is rewritten element by
      element, and so is an array `oneOf`; a non-array `use` or `oneOf` is
      written back as it was (so an absent one becomes a property holding
      undefined, appended); nothing else changes. */
  ghost predicate RuleRewritten(opts: Options, before: seq<(string, Value)>, after: Value) {
    var use := Lookup(before, "use");
    var oneOf := Lookup(before, "oneOf");
    && after.Obj?
    && Keys(after.fields) == WithKey(WithKey(Keys(before), "use"), "oneOf")
    && (forall k :: k != "use" && k != "oneOf" ==> Lookup(after.fields, k) == Lookup(before, k))
    && (!use.Arr? ==> Lookup(after.fields, "use") == use)
    && (use.Arr? ==> Lookup(after.fields, "use").Arr? && EntriesRewritten(opts, use.items, Lookup(after.fields, "use").items))
    && (!oneOf.Arr? ==> Lookup(after.fields, "oneOf") == oneOf)
    && (oneOf.Arr? ==> Lookup(after.fields, "oneOf").Arr? && AlternativesRewritten(opts, oneOf.items, Lookup(after.fields, "oneOf").items))
  }

  /** `Array.isArray(rule.use) ? rule.use.map(this.replaceLoaderOptions) : rule.use`. */
  function RewriteUse(opts: Options, use: Value): (r: Result<Value>)
    ensures r.Err? ==> r.error == TypeError
    ensures !use.Arr? ==> r == Ok(use)
    ensures use.Arr? ==> (r.Ok? <==> forall i :: 0 <= i < |use.items| ==> !Nullish(use.items[i]))
    ensures use.Arr? && r.Ok? ==> r.value.Arr? && EntriesRewritten(opts, use.items, r.value.items)
  {
    match use
    case Arr(entries) =>
      (match MapResult(entry => ReplaceLoaderOptions(opts, entry), entries)
       case Err(e) => Err(e)
       case Ok(mapped) => Ok(Arr(mapped)))
    case _ => Ok(use)
  }

  /** `Array.isArray(rule.oneOf) ? rule.oneOf.map(…) : rule.oneOf`. */
  function RewriteOneOf(opts: Options, oneOf: Value): (r: Result<Value>)
    ensures r.Err? ==> r.error == TypeError
    ensures !oneOf.Arr? ==> r == Ok(oneOf)
    ensures oneOf.Arr? ==> (r.Ok? <==> forall i :: 0 <= i < |oneOf.items| ==> RewriteAlternative(opts, oneOf.items[i]).Ok?)
    ensures oneOf.Arr? && r.Ok? ==> r.value.Arr? && AlternativesRewritten(opts, oneOf.items, r.value.items)
  {
    match oneOf
    case Arr(alternatives) =>
      (match MapResult(alternative => RewriteAlternative(opts, alternative), alternatives)
       case Err(e) => Err(e)
       case Ok(mapped) => Ok(Arr(mapped)))
    case _ => Ok(oneOf)
  }

  /** The callback of `config.module.rules.map`: a rule with neither a
      truthy `use` nor a truthy `oneOf` is returned as it is; otherwise both
      properties are written back rewritten, and an alternative without an
      array `use` makes the whole rule throw. */
  function RewriteRule(opts: Options, rule: Value): (r: Result<Value>)
    ensures Nullish(rule) ==> r == Err(TypeError)
    ensures r.Err? ==> r.error == TypeError
    ensures !rule.Obj? && !Nullish(rule) ==> r == Ok(rule)
    ensures rule.Obj? && !Truthy(Lookup(rule.fields, "use")) && !Truthy(Lookup(rule.fields, "oneOf")) ==> r == Ok(rule)
    ensures rule.Obj? && (Truthy(Lookup(rule.fields, "use")) || Truthy(Lookup(rule.fields, "oneOf"))) && r.Ok?
            ==> RuleRewritten(opts, rule.fields, r.value)
    ensures rule.Obj? && (Truthy(Lookup(rule.fields, "use")) || Truthy(Lookup(rule.fields, "oneOf")))
            && Lookup(rule.fields, "oneOf").Arr?
            && (exists i :: 0 <= i < |Lookup(rule.fields, "oneOf").items| && RewriteAlternative(opts, Lookup(rule.fields, "oneOf").items[i]).Err?)
            ==> r.Err?
    ensures rule.Obj? && (Truthy(Lookup(rule.fields, "use")) || Truthy(Lookup(rule.fields, "oneOf")))
            ==> (r.Ok? <==> RewriteUse(opts, Lookup(rule.fields, "use")).Ok? && RewriteOneOf(opts, Lookup(rule.fields, "oneOf")).Ok?)
  {
    match rule
    case Obj(fields) =>
      if !Truthy(Lookup(fields, "use")) && !Truthy(Lookup(fields, "oneOf")) then Ok(rule)
      else
        var use :- RewriteUse(opts, Lookup(fields, "use"));
        var fields' := Put(fields, "use", use);
        var oneOf :- RewriteOneOf(opts, Lookup(fields', "oneOf"));
        Ok(Obj(Put(fields', "oneOf", oneOf)))
    case _ =>
      if Nullish(rule) then Err(TypeError) else Ok(rule)
  }

  /** `webpackConfig(config)`: the rule list keeps its length, rule i of the
      result is the rewrite of rule i, and nothing outside
      `config.module.rules` changes. */
  function RewriteConfig(opts: Options, config: Value): (r: Result<Value>)
    ensures !HasRules(config) ==> r == Err(TypeError)
    ensures r.Ok? <==> HasRules(config) && forall i :: 0 <= i < |RulesOf(config)| ==> RewriteRule(opts, RulesOf(config)[i]).Ok?
    ensures r.Ok? ==> HasRules(config) && HasRules(r.value) && |RulesOf(r.value)| == |RulesOf(config)|
    ensures r.Ok? ==> forall i :: 0 <= i < |RulesOf(config)| ==> RewriteRule(opts, RulesOf(config)[i]) == Ok(RulesOf(r.value)[i])
    ensures r.Ok? ==> r.value == WithRules(config, RulesOf(r.value))
  {
    MapRules(config, rule => RewriteRule(opts, rule))
  }

  /** A rule with a truthy `use` and no `oneOf` array: `use` is replaced by
      its rewrite and `oneOf` is assigned the value it had. */
  lemma RuleWithoutAlternatives(opts: Options, fields: seq<(string, Value)>, use: Value)
    requires Truthy(Lookup(fields, "use"))
    requires RewriteUse(opts, Lookup(fields, "use")) == Ok(use)
    requires !Lookup(fields, "oneOf").Arr?
    ensures RewriteRule(opts, Obj(fields)) == Ok(Obj(Put(Put(fields, "use", use), "oneOf", Lookup(fields, "oneOf"))))
  {
  }

  /** The loader object `{ loader: "css-loader" }` after the hook under the
      default options. */
  function DefaultInjected(): Value {
    Obj([("loader", Str(CssLoader)), ("options", Obj([("modules", ModulesRecord(Defaults()))]))])
  }

  lemma DefaultUseRewrite()
    ensures RewriteUse(Defaults(), Arr([Obj([("loader", Str(CssLoader))])])) == Ok(Arr([DefaultInjected()]))
  {
    assert InjectInto([("loader", Str(CssLoader))], ModulesRecord(Defaults())) == DefaultInjected().fields;
    var use := RewriteUse(Defaults(), Arr([Obj([("loader", Str(CssLoader))])]));
    assert use.value.items == [DefaultInjected()];
  }

  /** Proof step of DefaultRuleRewrite: the two assignments the hook makes
      to that rule. */
  lemma DefaultRuleAssignments()
    ensures Put([("test", Re(Pattern("\\.css$", ""))), ("use", Arr([Obj([("loader", Str(CssLoader))])]))], "use", Arr([DefaultInjected()]))
         == [("test", Re(Pattern("\\.css$", ""))), ("use", Arr([DefaultInjected()]))]
    ensures Put([("test", Re(Pattern("\\.css$", ""))), ("use", Arr([DefaultInjected()]))], "oneOf", Undef)
         == [("test", Re(Pattern("\\.css$", ""))), ("use", Arr([DefaultInjected()])), ("oneOf", Undef)]
  {
  }

  /** The rule `{ test: /\.css$/, use: [{ loader: "css-loader" }] }` under
      the default options: css-loader gets the local-scope record with the
      default template, `test` is untouched, and `oneOf` is written back as
      an appended undefined property. */
  lemma DefaultRuleRewrite()
    ensures RewriteRule(Defaults(), Obj([("test", Re(Pattern("\\.css$", ""))), ("use", Arr([Obj([("loader", Str(CssLoader))])]))]))
         == Ok(Obj([("test", Re(Pattern("\\.css$", ""))), ("use", Arr([DefaultInjected()])), ("oneOf", Undef)]))
  {
    var test := ("test", Re(Pattern("\\.css$", "")));
    var fields := [test, ("use", Arr([Obj([("loader", Str(CssLoader))])]))];
    var fields' := [test, ("use", Arr([DefaultInjected()]))];
    assert Lookup(fields, "use") == Arr([Obj([("loader", Str(CssLoader))])]);
    assert Lookup(fields, "oneOf") == Undef;
    DefaultRuleAssignments();
    DefaultUseRewrite();
    RuleWithoutAlternatives(Defaults(), fields, Arr([DefaultInjected()]));
  }

  /** The template Babel gets as `generateScopedName` is the one css-loader
      gets as `localIdentName`: every css-loader reference the hook rewrites
      carries it in `options.modules`. */
  lemma BabelTemplateIsCssTemplate(p: ReactCssModules, entry: Value)
    ensures p.GenerateScopedName() == Lookup(ModulesRecord(p.Current()).fields, "localIdentName")
    ensures IsCssLoaderEntry(entry) ==>
              var options := Lookup(ReplaceLoaderOptions(p.Current(), entry).value.fields, "options");
              && options.Obj? && Lookup(options.fields, "modules").Obj?
              && Lookup(Lookup(options.fields, "modules").fields, "localIdentName") == p.GenerateScopedName()
  {
    ModulesRecordShape(p.Current());
  }

  /** The plugin object. */
  class ReactCssModules {
    var scopedName: Value
    var createSourceMap: Value

    function Current(): Options
      reads this
    {
      Options(scopedName, createSourceMap)
    }

    /** The `generateScopedName` that `babelConfig` hands to the Babel plugin. */
    function GenerateScopedName(): (r: Value)
      reads this
      ensures r == Current().scopedName
    {
      scopedName
    }

    constructor ()
      ensures Current() == Defaults()
      ensures GenerateScopedName() == Str(DefaultScopedName)
    {
      scopedName := Str(DefaultScopedName);
      createSourceMap := False;
    }

    method Register(args: Value) returns (outcome: Outcome)
      modifies this
      ensures (Current(), outcome) == ApplyRegister(old(Current()), args)
      ensures createSourceMap == old(createSourceMap)
    {
      if args.Str? {
        outcome := Threw(ReferenceError("classNamePattern"));
        return;
      }
      if !IsObjectType(args) {
        outcome := Done;
        return;
      }
      var given := GetProp(args, "scopedName");
      if given.Err? {
        outcome := Threw(given.error);
        return;
      }
      if given.value != Undef {
        scopedName := given.value;
      }
      outcome := Threw(ReferenceError("createSourceMap"));
    }

    /** The hook: it returns the configuration it has changed, or the
        exception. */
    method WebpackConfig(config: Value) returns (r: Result<Value>)
      ensures r == RewriteConfig(Current(), config)
    {
      r := RewriteConfig(Current(), config);
    }
  }
}
