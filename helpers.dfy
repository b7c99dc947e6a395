/** The two utilities of src/helpers.js: a recursive clone of arrays and
    objects that keeps regular expressions as they are, and the
    concatenation of two regular expressions. */
module Helpers {
  import opened JsValue

  // ---------------------------------------------------------------------
  // deepClone

  /** The error every leaf that is not a regular expression raises: the
      fall-through returns the undeclared name `items`. */
  const LeafError: Error := ReferenceError("items")

  /** Holds when every leaf of `v` is a regular expression, so `deepClone`
      never reaches its fall-through. */
  ghost predicate Clonable(v: Value) {
    match v
    case Str(_) => false
    case Prim(_) => false
    case Re(_) => true
    case Arr(items) => forall x :: x in items ==> Clonable(x)
    case Obj(fields) => forall kv :: kv in fields ==> kv.1 < v && Clonable(kv.1)
  }

  /** `deepClone` as written: arrays are mapped, a regular expression is
      returned before the generic object branch, an object's properties are
      copied in order, and every other value throws. On success the copy is
      structurally the input. */
  function DeepClone(v: Value): (r: Result<Value>)
    ensures r.Ok? <==> Clonable(v)
    ensures r.Ok? ==> r.value == v
    ensures r.Err? ==> r.error == LeafError
    decreases v
  {
    match v
    case Arr(items) =>
      var copies :- DeepCloneItems(items);
      Ok(Arr(copies))
    case Re(_) => Ok(v)
    case Obj(fields) =>
      var copy :- DeepCloneFields(fields);
      Ok(Obj(copy))
    case Str(_) => Err(LeafError)
    case Prim(_) => Err(LeafError)
  }

  /** `items.map(item => deepClone(item))`: element i of the copy is the
      clone of element i. */
  function DeepCloneItems(items: seq<Value>): (r: Result<seq<Value>>)
    ensures r.Ok? <==> forall x :: x in items ==> Clonable(x)
    ensures r.Ok? ==> r.value == items
    ensures r.Ok? ==> forall i :: 0 <= i < |items| ==> DeepClone(items[i]) == Ok(r.value[i])
    ensures r.Err? ==> r.error == LeafError
    decreases items
  {
    if items == [] then Ok([])
    else
      assert items[0] in items;
      assert forall x :: x in items <==> x == items[0] || x in items[1..];
      var first :- DeepClone(items[0]);
      var rest :- DeepCloneItems(items[1..]);
      Ok([first] + rest)
  }

  /** `for (let k in o) copyObj[k] = deepClone(o[k])`: the copy has the same
      keys in the same order, each value the clone of the original one. */
  function DeepCloneFields(fields: seq<(string, Value)>): (r: Result<seq<(string, Value)>>)
    ensures r.Ok? <==> forall kv :: kv in fields ==> Clonable(kv.1)
    ensures r.Ok? ==> r.value == fields
    ensures r.Ok? ==> Keys(r.value) == Keys(fields)
    ensures r.Err? ==> r.error == LeafError
    decreases fields
  {
    if fields == [] then Ok([])
    else
      assert fields[0].1 < fields[0] && fields[0] in fields;
      assert forall kv :: kv in fields <==> kv == fields[0] || kv in fields[1..];
      var first :- DeepClone(fields[0].1);
      var rest :- DeepCloneFields(fields[1..]);
      Ok([(fields[0].0, first)] + rest)
  }

  /** deepClone fails on a value exactly when some leaf is a string, number,
      boolean, null or undefined; so it fails on every loader reference
      that names a loader by a string, and on every loader list holding
      such a reference. */
  lemma DeepCloneFailsOnLeaf(name: string, entry: Value, items: seq<Value>)
    requires entry in items
    requires entry == Str(name) || (entry.Obj? && Lookup(entry.fields, "loader") == Str(name))
    ensures DeepClone(entry) == Err(LeafError)
    ensures DeepClone(Arr(items)) == Err(LeafError)
  {
    if entry.Obj? {
      assert "loader" in Keys(entry.fields);
      assert ("loader", Str(name)) in entry.fields;
    }
    assert !Clonable(entry);
  }

  /** deepClone with the fall-through returning the value itself: a copy
      of every value. */
  function DeepCloneFixed(v: Value): (r: Value)
    ensures r == v
    decreases v
  {
    match v
    case Arr(items) => Arr(DeepCloneItemsFixed(items))
    case Obj(fields) => Obj(DeepCloneFieldsFixed(fields))
    case _ => v
  }

  function DeepCloneItemsFixed(items: seq<Value>): (r: seq<Value>)
    ensures r == items
    decreases items
  {
    if items == [] then [] else [DeepCloneFixed(items[0])] + DeepCloneItemsFixed(items[1..])
  }

  function DeepCloneFieldsFixed(fields: seq<(string, Value)>): (r: seq<(string, Value)>)
    ensures r == fields
    decreases fields
  {
    if fields == [] then []
    else
      assert fields[0].1 < fields[0];
      [(fields[0].0, DeepCloneFixed(fields[0].1))] + DeepCloneFieldsFixed(fields[1..])
  }

  // ---------------------------------------------------------------------
  // concatRegexp

  predicate NoDuplicates(s: string) {
    forall i, j :: 0 <= i < j < |s| ==> s[i] != s[j]
  }

  /** The index of the first occurrence of `c` in `s`. */
  function FirstIndex(s: string, c: char): (i: nat)
    requires c in s
    ensures i < |s| && s[i] == c && c !in s[..i]
  {
    if s[0] == c then 0 else 1 + FirstIndex(s[1..], c)
  }

  /** The first occurrence of a character in a prefix is its first
      occurrence in the whole string. */
  lemma {:induction false} FirstIndexPrefix(s: string, n: nat, c: char)
    requires n <= |s| && c in s[..n]
    ensures FirstIndex(s, c) == FirstIndex(s[..n], c)
  {
    if s[0] != c {
      assert s[1..][..n - 1] == s[..n][1..];
      FirstIndexPrefix(s[1..], n - 1, c);
    }
  }

  /** `Array.from(new Set(s.split('')))`: each distinct character once, in
      the order of its first occurrence. */
  function Dedup(s: string): (r: string)
    ensures forall c :: c in r <==> c in s
    ensures NoDuplicates(r)
    ensures forall i, j :: 0 <= i < j < |r| ==> FirstIndex(s, r[i]) < FirstIndex(s, r[j])
    decreases |s|
  {
    if s == [] then []
    else
      var init := s[..|s| - 1];
      var last := s[|s| - 1];
      var d := Dedup(init);
      assert s == init + [last];
      DedupStep(init, last, d);
      if last in d then d else d + [last]
  }

  /** One step of the deduplication: the distinct characters of `init`,
      followed by `last` unless it was seen already, are the distinct
      characters of `init + [last]` in first-occurrence order. */
  lemma DedupStep(init: string, last: char, d: string)
    requires forall c :: c in d <==> c in init
    requires NoDuplicates(d)
    requires forall i, j :: 0 <= i < j < |d| ==> FirstIndex(init, d[i]) < FirstIndex(init, d[j])
    ensures var r := if last in d then d else d + [last];
      && (forall c :: c in r <==> c in init + [last])
      && NoDuplicates(r)
      && forall i, j :: 0 <= i < j < |r| ==> FirstIndex(init + [last], r[i]) < FirstIndex(init + [last], r[j])
  {
    var s := init + [last];
    assert s[..|init|] == init;
    forall c | c in d
      ensures FirstIndex(s, c) == FirstIndex(init, c) && FirstIndex(s, c) < |init|
    {
      FirstIndexPrefix(s, |init|, c);
    }
    if last !in d {
      assert last !in init;
      assert FirstIndex(s, last) == |init|;
      var r := d + [last];
      assert forall i :: 0 <= i < |d| ==> r[i] == d[i];
    }
  }

  lemma DedupOfTwo(a: char, b: char)
    requires a != b
    ensures Dedup([a, b]) == [a, b]
  {
    assert [a][..0] == [];
    assert Dedup([a]) == [a];
    assert [a, b][..1] == [a];
  }

  /** The distinct characters of a prefix come first, in the same order. */
  lemma {:induction false} DedupPrefix(a: string, b: string)
    ensures Dedup(a) <= Dedup(a + b)
    decreases |b|
  {
    if b != [] {
      var b' := b[..|b| - 1];
      assert (a + b)[..|a + b| - 1] == a + b';
      DedupPrefix(a, b');
    } else {
      assert a + b == a;
    }
  }

  /** `Array.prototype.join()` over one-character strings, with its default
      separator ",". */
  function JoinComma(cs: string): (r: string)
    ensures |cs| <= 1 ==> r == cs
    ensures |cs| >= 2 ==> ',' in r
    ensures |cs| >= 1 ==> |r| == 2 * |cs| - 1
    ensures forall i :: 0 <= i < |cs| ==> r[2 * i] == cs[i]
    ensures forall i :: 0 <= i < |cs| - 1 ==> r[2 * i + 1] == ','
  {
    if |cs| <= 1 then cs
    else
      var rest := JoinComma(cs[1..]);
      var r := [cs[0], ','] + rest;
      assert r[1] == ',';
      assert forall i :: 1 <= i < |cs| ==> r[2 * i] == rest[2 * (i - 1)];
      forall i | 1 <= i < |cs| - 1
        ensures r[2 * i + 1] == ','
      {
        var k := i - 1;
        assert r[2 * i + 1] == rest[2 * k + 1];
      }
      r
  }

  /** `new RegExp(source, flags)`. Of the flag checks only the one that can
      fail here is modelled: a comma is not a flag. */
  function NewRegExp(source: string, flags: string): (r: Result<Pattern>)
    ensures r.Err? <==> ',' in flags
    ensures r.Err? ==> r.error == SyntaxError
    ensures r.Ok? ==> r.value.source == source && r.value.flags == flags
  {
    if ',' in flags then Err(SyntaxError) else Ok(Pattern(source, flags))
  }

  /** `concatRegexp(reg, exp)` as written: the sources are concatenated,
      the distinct flags of `reg` then `exp` are joined with ",", so two or
      more distinct flags make the RegExp constructor throw. */
  function ConcatRegexp(reg: Pattern, exp: Pattern): (r: Result<Pattern>)
    ensures r.Ok? ==> r.value.source == reg.source + exp.source
    ensures r.Ok? ==> r.value.flags == Dedup(reg.flags + exp.flags) && |r.value.flags| <= 1
    ensures |Dedup(reg.flags + exp.flags)| >= 2 ==> r == Err(SyntaxError)
    ensures ',' !in reg.flags + exp.flags && |Dedup(reg.flags + exp.flags)| <= 1 ==> r.Ok?
  {
    var flags := JoinComma(Dedup(reg.flags + exp.flags));
    NewRegExp(reg.source + exp.source, flags)
  }

  /** The two-flag case the comma join breaks: `/a/i` and `/b/g`. */
  lemma ConcatTwoFlagsFails()
    ensures ConcatRegexp(Pattern("a", "i"), Pattern("b", "g")) == Err(SyntaxError)
  {
    assert "i" + "g" == ['i', 'g'];
    DedupOfTwo('i', 'g');
  }

  /** The same inputs under the corrected join. */
  lemma ConcatTwoFlagsFixed()
    ensures ConcatRegexpFixed(Pattern("a", "i"), Pattern("b", "g")) == Ok(Pattern("ab", "ig"))
  {
    assert "i" + "g" == ['i', 'g'] && "a" + "b" == "ab";
    DedupOfTwo('i', 'g');
  }

  /** concatRegexp with the flags joined by "": the sources are
      concatenated and every flag of either input appears once, those of
      `reg` first. */
  function ConcatRegexpFixed(reg: Pattern, exp: Pattern): (r: Result<Pattern>)
    ensures ',' !in reg.flags + exp.flags ==> r.Ok?
    ensures r.Ok? ==> r.value.source == reg.source + exp.source
    ensures r.Ok? ==> forall c :: c in r.value.flags <==> c in reg.flags || c in exp.flags
    ensures r.Ok? ==> NoDuplicates(r.value.flags)
    ensures r.Ok? ==> Dedup(reg.flags) <= r.value.flags
  {
    DedupPrefix(reg.flags, exp.flags);
    NewRegExp(reg.source + exp.source, Dedup(reg.flags + exp.flags))
  }
}
