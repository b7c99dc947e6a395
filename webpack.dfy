/** The parts of a webpack configuration that both plugins read: a loader
    reference naming `css-loader`, and the rule list `config.module.rules`. */
module Webpack {
  import opened JsValue

  const CssLoader: string := "css-loader"
  const SassLoader: string := "sass-loader"

  /** A loader reference that names css-loader: the bare string, or an
      object whose `loader` is that string. Both plugins test exactly this. */
  predicate IsCssLoaderEntry(entry: Value)
    ensures IsCssLoaderEntry(entry) <==> entry == Str(CssLoader) || GetProp(entry, "loader") == Ok(Str(CssLoader))
  {
    entry == Str(CssLoader) || (entry.Obj? && Lookup(entry.fields, "loader") == Str(CssLoader))
  }

  /** `config.module.rules` exists and is an array. */
  predicate HasRules(config: Value) {
    && config.Obj?
    && Lookup(config.fields, "module").Obj?
    && Lookup(Lookup(config.fields, "module").fields, "rules").Arr?
  }

  function RulesOf(config: Value): seq<Value>
    requires HasRules(config)
  {
    Lookup(Lookup(config.fields, "module").fields, "rules").items
  }

  /** The configuration after `config.module.rules = Arr(rules)`. */
  function WithRules(config: Value, rules: seq<Value>): Value
    requires HasRules(config)
  {
    var moduleObj := Lookup(config.fields, "module");
    Obj(Put(config.fields, "module", Obj(Put(moduleObj.fields, "rules", Arr(rules)))))
  }

  /** Putting the rule list back unchanged gives the same configuration. */
  lemma WithSameRules(config: Value)
    requires HasRules(config)
    ensures WithRules(config, RulesOf(config)) == config
  {
    var moduleObj := Lookup(config.fields, "module");
    PutLookup(moduleObj.fields, "rules");
    PutLookup(config.fields, "module");
  }

  /** `config.module.rules = config.module.rules.map(f)`, giving the new
      configuration: every step that reads a missing object or calls `map`
      on a non-array throws a TypeError. */
  function MapRules(config: Value, f: Value -> Result<Value>): (r: Result<Value>)
    ensures !HasRules(config) ==> r == Err(TypeError)
    ensures r.Ok? <==> HasRules(config) && forall i :: 0 <= i < |RulesOf(config)| ==> f(RulesOf(config)[i]).Ok?
    ensures r.Ok? ==> HasRules(r.value) && r.value == WithRules(config, RulesOf(r.value))
    ensures r.Ok? ==> |RulesOf(r.value)| == |RulesOf(config)|
    ensures r.Ok? ==> forall i :: 0 <= i < |RulesOf(config)| ==> f(RulesOf(config)[i]) == Ok(RulesOf(r.value)[i])
  {
    match config
    case Obj(cfields) =>
      (match Lookup(cfields, "module")
       case Obj(mfields) =>
         (match Lookup(mfields, "rules")
          case Arr(rules) =>
            assert RulesOf(config) == rules;
            (match MapResult(f, rules)
             case Ok(mapped) => Ok(WithRules(config, mapped))
             case Err(e) => Err(e))
          case _ => Err(TypeError))
       case _ => Err(TypeError))
    case _ => Err(TypeError)
  }
}
