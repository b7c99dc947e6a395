/** JavaScript values as a bundler configuration holds them, and the few
    language operations the two plugins apply to them: property reads and
    writes, truthiness, `typeof`, `Object.assign` sources and `Array.prototype.map`
    with a callback that may throw. */
module JsValue {

  /** Scalars other than strings. Numbers are modelled as integers. */
  datatype Primitive = Undefined | Null | Bool(b: bool) | Num(n: int)

  /** A regular expression, reduced to its `source` and `flags` strings. */
  datatype Pattern = Pattern(source: string, flags: string)

  /** An acyclic JavaScript value. An object is the sequence of its own
      enumerable properties in enumeration order, each key once. */
  datatype Value =
    | Str(s: string)
    | Prim(prim: Primitive)
    | Arr(items: seq<Value>)
    | Obj(fields: seq<(string, Value)>)
    | Re(pattern: Pattern)

  /** The exceptions the plugins raise. `Unmodelled` marks a JavaScript
      behaviour (a named property on an array or a regular expression, the
      string form of an array) that this value model does not represent. */
  datatype Error = ReferenceError(name: string) | TypeError | SyntaxError | Unmodelled

  /** A computation that returns a value or throws. */
  datatype Result<T> = Ok(value: T) | Err(error: Error) {
    predicate IsFailure() { Err? }

    function PropagateFailure<U>(): Result<U>
      requires Err?
    {
      Err(error)
    }

    function Extract(): T
      requires Ok?
    {
      value
    }
  }

  /** How a call that returns nothing ends. */
  datatype Outcome = Done | Threw(error: Error)

  const Undef: Value := Prim(Undefined)
  const True: Value := Prim(Bool(true))
  const False: Value := Prim(Bool(false))

  predicate Nullish(v: Value) {
    v == Undef || v == Prim(Null)
  }

  /** JavaScript truthiness. */
  predicate Truthy(v: Value) {
    match v
    case Str(s) => s != ""
    case Prim(p) => (p.Bool? && p.b) || (p.Num? && p.n != 0)
    case _ => true
  }

  /** `typeof v === "object"`: null, arrays, objects and regular expressions. */
  predicate IsObjectType(v: Value) {
    v == Prim(Null) || v.Arr? || v.Obj? || v.Re?
  }

  /** The property names of an object, in order. */
  function Keys(fields: seq<(string, Value)>): (ks: seq<string>)
    ensures |ks| == |fields|
  {
    if fields == [] then [] else [fields[0].0] + Keys(fields[1..])
  }

  /** The key order after assigning `key`: unchanged if present, else appended. */
  function WithKey(ks: seq<string>, key: string): seq<string> {
    if key in ks then ks else ks + [key]
  }

  /** `o[key]` on an object: the value of the property named `key`, or `undefined`. */
  function Lookup(fields: seq<(string, Value)>, key: string): (v: Value)
    ensures key !in Keys(fields) ==> v == Undef
    ensures key in Keys(fields) ==> (key, v) in fields
  {
    if fields == [] then Undef
    else if fields[0].0 == key then fields[0].1
    else Lookup(fields[1..], key)
  }

  /** Looking up in an object with a given first property. */
  lemma LookupCons(first: (string, Value), rest: seq<(string, Value)>, key: string)
    ensures Lookup([first] + rest, key) == if first.0 == key then first.1 else Lookup(rest, key)
  {
    assert ([first] + rest)[1..] == rest;
  }

  lemma KeysCons(first: (string, Value), rest: seq<(string, Value)>)
    ensures Keys([first] + rest) == [first.0] + Keys(rest)
  {
    assert ([first] + rest)[1..] == rest;
  }

  /** `o[key] = v` on an object: an existing property keeps its place and
      takes the new value, a new one is appended. */
  function Put(fields: seq<(string, Value)>, key: string, v: Value): (r: seq<(string, Value)>)
    ensures Lookup(r, key) == v
    ensures forall k :: k != key ==> Lookup(r, k) == Lookup(fields, k)
    ensures Keys(r) == WithKey(Keys(fields), key)
  {
    if fields == [] then [(key, v)]
    else
      assert fields == [fields[0]] + fields[1..];
      KeysCons(fields[0], fields[1..]);
      if fields[0].0 == key then
        KeysCons((key, v), fields[1..]);
        assert forall k :: Lookup([(key, v)] + fields[1..], k) == if key == k then v else Lookup(fields[1..], k) by {
          forall k { LookupCons((key, v), fields[1..], k); }
        }
        assert forall k :: Lookup(fields, k) == if key == k then fields[0].1 else Lookup(fields[1..], k) by {
          forall k { LookupCons(fields[0], fields[1..], k); }
        }
        [(key, v)] + fields[1..]
      else
        var rest := Put(fields[1..], key, v);
        KeysCons(fields[0], rest);
        assert forall k :: Lookup([fields[0]] + rest, k) == if fields[0].0 == k then fields[0].1 else Lookup(rest, k) by {
          forall k { LookupCons(fields[0], rest, k); }
        }
        assert forall k :: Lookup(fields, k) == if fields[0].0 == k then fields[0].1 else Lookup(fields[1..], k) by {
          forall k { LookupCons(fields[0], fields[1..], k); }
        }
        [fields[0]] + rest
  }

  /** Assigning a property the value it already has changes nothing. */
  lemma {:induction false} PutLookup(fields: seq<(string, Value)>, key: string)
    requires key in Keys(fields)
    ensures Put(fields, key, Lookup(fields, key)) == fields
  {
    if fields[0].0 != key {
      PutLookup(fields[1..], key);
    }
  }

  /** Assigning a property the object does not have appends it. */
  lemma {:induction false} PutNew(fields: seq<(string, Value)>, key: string, v: Value)
    requires key !in Keys(fields)
    ensures Put(fields, key, v) == fields + [(key, v)]
  {
    if fields != [] {
      var rest := fields[1..];
      assert Keys(fields) == [fields[0].0] + Keys(rest);
      assert fields[0].0 != key;
      PutNew(rest, key, v);
      assert Put(fields, key, v) == [fields[0]] + (rest + [(key, v)]);
      assert [fields[0]] + (rest + [(key, v)]) == fields + [(key, v)];
    }
  }

  /** `v.key` for a property name that strings, arrays and regular
      expressions do not have built in. */
  function GetProp(v: Value, key: string): Result<Value> {
    match v
    case Obj(fields) => Ok(Lookup(fields, key))
    case _ => if Nullish(v) then Err(TypeError) else Ok(Undef)
  }

  /** `v.key = x` in strict mode, giving the updated `v`. */
  function SetProp(v: Value, key: string, x: Value): Result<Value> {
    match v
    case Obj(fields) => Ok(Obj(Put(fields, key, x)))
    case Str(_) => Err(TypeError)
    case Prim(_) => Err(TypeError)
    case Arr(_) => Err(Unmodelled)
    case Re(_) => Err(Unmodelled)
  }

  function DigitChar(d: nat): char
    requires d < 10
  {
    "0123456789"[d]
  }

  /** The decimal form of a natural number, as `String(n)` writes it. */
  function NatToString(n: nat): string
    decreases n
  {
    if n < 10 then [DigitChar(n)] else NatToString(n / 10) + [DigitChar(n % 10)]
  }

  function IntToString(n: int): string {
    if n < 0 then "-" + NatToString(-n) else NatToString(n)
  }

  /** The own enumerable properties `Object.assign` copies from a source:
      an object's fields, a string's or an array's indexed elements, and
      nothing from any other value. */
  function OwnEntries(v: Value): seq<(string, Value)> {
    match v
    case Obj(fields) => fields
    case Str(s) => seq(|s|, i requires 0 <= i < |s| => (NatToString(i), Str([s[i]])))
    case Arr(items) => seq(|items|, i requires 0 <= i < |items| => (NatToString(i), items[i]))
    case _ => []
  }

  /** `s.map(f)` for a callback that may throw: every element is mapped in
      index order, and the first exception propagates. */
  function MapResult(f: Value -> Result<Value>, s: seq<Value>): (r: Result<seq<Value>>)
    ensures r.Ok? <==> forall i :: 0 <= i < |s| ==> f(s[i]).Ok?
    ensures r.Ok? ==> |r.value| == |s| && forall i :: 0 <= i < |s| ==> f(s[i]) == Ok(r.value[i])
    ensures r.Err? ==> exists i :: 0 <= i < |s| && f(s[i]) == Err(r.error) && forall j :: 0 <= j < i ==> f(s[j]).Ok?
  {
    if s == [] then Ok([])
    else
      match f(s[0])
      case Err(e) => Err(e)
      case Ok(x) =>
        match MapResult(f, s[1..])
        case Err(e) =>
          ghost var i :| 0 <= i < |s[1..]| && f(s[1..][i]) == Err(e) && forall j :: 0 <= j < i ==> f(s[1..][j]).Ok?;
          assert f(s[i + 1]) == Err(e) && forall j :: 0 <= j < i + 1 ==> f(s[j]).Ok?;
          Err(e)
        case Ok(xs) =>
          assert forall i :: 1 <= i < |s| ==> f(s[i]) == f(s[1..][i - 1]);
          Ok([x] + xs)
  }
}
