/**
 * The prop helpers of `src/buildStyle.ts`: `extractSafeStyleProps`, which splits a component's
 * props into class references, inline overrides and the remaining props; and the merge helpers
 * `mergeArrayObjects`, `makeUseBespokeStyle` and `flatMap`.
 */
module PropHelpers {
  import opened Wrappers
  import opened OrderedMap
  import opened StyleProps
  import opened Theme

  // extractSafeStyleProps

  /**
   * The name a prop key is matched under: with a truthy (present, non-empty) prefix only keys
   * starting with it are examined, with the prefix stripped; otherwise every key, unchanged.
   */
  function TestKey(prefix: Option<string>, key: string): (r: Option<string>)
    ensures (prefix.None? || prefix.value == "") ==> r == Some(key)
    ensures prefix.Some? && prefix.value != "" ==>
      (r.Some? <==> prefix.value <= key) && (r.Some? ==> prefix.value + r.value == key)
  {
    if prefix.None? || prefix.value == "" then Some(key)
    else if prefix.value <= key then
      assert prefix.value + key[|prefix.value|..] == key;
      Some(key[|prefix.value|..])
    else None
  }

  /** The key names a base class or view of the schema. */
  predicate IsClassKey(allKeys: set<string>, prefix: Option<string>, key: string)
  {
    TestKey(prefix, key).Some? && TestKey(prefix, key).value in allKeys
  }

  /** The key names a style property: one of `properties`, which is `allProperties` in use. */
  predicate IsStyleKey(properties: set<string>, prefix: Option<string>, key: string)
  {
    TestKey(prefix, key).Some? && TestKey(prefix, key).value in properties
  }

  /** The class references the props ask for: class keys whose value is exactly `true`. */
  function ClassNameRefs(allKeys: set<string>, prefix: Option<string>, props: Entries<Value>): seq<ClassRef>
  {
    if props == [] then []
    else
      var (key, v) := props[|props| - 1];
      ClassNameRefs(allKeys, prefix, props[..|props| - 1])
        + (if IsClassKey(allKeys, prefix, key) && v == Bool(true) then [Name(TestKey(prefix, key).value)] else [])
  }

  /** The inline override a style-property prop asks for, keyed by `"<original key>=<value>"`. */
  function OverrideOf(prefix: Option<string>, key: string, v: Value): ClassRef
    requires TestKey(prefix, key).Some?
  {
    Bespoke(key + "=" + Text(v), TestKey(prefix, key).value, v)
  }

  /** The inline overrides: one per style-property key. */
  function OverrideRefs(properties: set<string>, prefix: Option<string>, props: Entries<Value>): seq<ClassRef>
  {
    if props == [] then []
    else
      var (key, v) := props[|props| - 1];
      OverrideRefs(properties, prefix, props[..|props| - 1])
        + (if IsStyleKey(properties, prefix, key) then [OverrideOf(prefix, key, v)] else [])
  }

  /** The props handed on: those whose key is neither a class key nor a style key. */
  function Kept(allKeys: set<string>, properties: set<string>, prefix: Option<string>, props: Entries<Value>): Entries<Value>
  {
    if props == [] then []
    else
      var last := props[|props| - 1];
      Kept(allKeys, properties, prefix, props[..|props| - 1])
        + (if IsClassKey(allKeys, prefix, last.0) || IsStyleKey(properties, prefix, last.0) then [] else [last])
  }

  lemma {:induction false} KeptKeys(allKeys: set<string>, properties: set<string>, prefix: Option<string>, props: Entries<Value>)
    ensures KeySet(Kept(allKeys, properties, prefix, props)) <= KeySet(props)
  {
    if props != [] {
      var init := props[..|props| - 1];
      KeptKeys(allKeys, properties, prefix, init);
      forall k | k in KeySet(Kept(allKeys, properties, prefix, props)) ensures k in KeySet(props) {
        var i :| 0 <= i < |Kept(allKeys, properties, prefix, props)| && Kept(allKeys, properties, prefix, props)[i].0 == k;
        if i < |Kept(allKeys, properties, prefix, init)| {
          assert Kept(allKeys, properties, prefix, props)[i] == Kept(allKeys, properties, prefix, init)[i];
          assert k in KeySet(init);
          var j :| 0 <= j < |init| && init[j].0 == k;
          assert props[j] == init[j];
        } else {
          assert props[|props| - 1].0 == k;
        }
      }
    }
  }

  /**
   * `extractSafeStyleProps(safeStyle, props, prefix)`: class keys and style keys are deleted from
   * a copy of the props; a class key becomes a reference when its value is `true`, a style key an
   * inline override. The references come first, then the overrides, each in key order.
   */
  method ExtractSafeStyleProps(schema: Schema, props: Entries<Value>, prefix: Option<string>)
    returns (newProps: Entries<Value>, refs: seq<ClassRef>)
    requires UniqueKeys(props)
    ensures newProps == Kept(schema.allKeys, AllProperties, prefix, props)
    ensures refs == ClassNameRefs(schema.allKeys, prefix, props) + OverrideRefs(AllProperties, prefix, props)
  {
    newProps, refs := ExtractProps(schema.allKeys, AllProperties, props, prefix);
  }

  /** The loop of `extractSafeStyleProps`, over the schema's `allKeys` and the style-property set. */
  method ExtractProps(allKeys: set<string>, properties: set<string>, props: Entries<Value>, prefix: Option<string>)
    returns (newProps: Entries<Value>, refs: seq<ClassRef>)
    requires UniqueKeys(props)
    ensures newProps == Kept(allKeys, properties, prefix, props)
    ensures refs == ClassNameRefs(allKeys, prefix, props) + OverrideRefs(properties, prefix, props)
  {
    newProps := props;
    var names: seq<ClassRef> := [];
    var overrides: seq<ClassRef> := [];
    var i := 0;
    while i < |props|
      invariant 0 <= i <= |props|
      invariant newProps == Kept(allKeys, properties, prefix, props[..i]) + props[i..]
      invariant names == ClassNameRefs(allKeys, prefix, props[..i])
      invariant overrides == OverrideRefs(properties, prefix, props[..i])
    {
      var key := props[i].0;
      var v := props[i].1;
      ExtractStep(allKeys, properties, prefix, props, i);
      var classKey := IsClassKey(allKeys, prefix, key);
      var styleKey := IsStyleKey(properties, prefix, key);
      if classKey || styleKey {
        KeptDrop(allKeys, properties, prefix, props, i);
        newProps := Remove(newProps, key);
      } else {
        KeptPass(allKeys, properties, prefix, props, i);
      }
      if classKey && v == Bool(true) {
        names := names + [Name(TestKey(prefix, key).value)];
      }
      if styleKey {
        overrides := overrides + [OverrideOf(prefix, key, v)];
      }
      i := i + 1;
    }
    assert props[..i] == props;
    assert Kept(allKeys, properties, prefix, props) + [] == Kept(allKeys, properties, prefix, props);
    refs := if |overrides| > 0 then names + overrides else names;
  }

  /** How the three outputs grow by one prop. */
  lemma ExtractStep(allKeys: set<string>, properties: set<string>, prefix: Option<string>, props: Entries<Value>, i: nat)
    requires i < |props|
    ensures var (key, v) := props[i];
      && ClassNameRefs(allKeys, prefix, props[..i + 1]) == ClassNameRefs(allKeys, prefix, props[..i])
           + (if IsClassKey(allKeys, prefix, key) && v == Bool(true) then [Name(TestKey(prefix, key).value)] else [])
      && OverrideRefs(properties, prefix, props[..i + 1]) == OverrideRefs(properties, prefix, props[..i])
           + (if IsStyleKey(properties, prefix, key) then [OverrideOf(prefix, key, v)] else [])

  {
    assert props[..i + 1][..i] == props[..i];
    assert props[..i + 1][i] == props[i];
  }

  /** Deleting a consumed key from the half-processed copy of the props gives the next one. */
  lemma KeptDrop(allKeys: set<string>, properties: set<string>, prefix: Option<string>, props: Entries<Value>, i: nat)
    requires UniqueKeys(props) && i < |props|
    requires IsClassKey(allKeys, prefix, props[i].0) || IsStyleKey(properties, prefix, props[i].0)
    ensures Remove(Kept(allKeys, properties, prefix, props[..i]) + props[i..], props[i].0)
         == Kept(allKeys, properties, prefix, props[..i + 1]) + props[i + 1..]
  {
    var k := props[i].0;
    var done := Kept(allKeys, properties, prefix, props[..i]);
    var rest := props[i + 1..];
    assert props[..i + 1][..i] == props[..i];
    assert Kept(allKeys, properties, prefix, props[..i + 1]) == done + [];
    KeptKeys(allKeys, properties, prefix, props[..i]);
    assert k !in KeySet(props[..i]) by {
      forall j | 0 <= j < i ensures props[..i][j].0 != k {
        assert props[..i][j] == props[j];
      }
    }
    assert k !in KeySet(rest) by {
      forall j | 0 <= j < |rest| ensures rest[j].0 != k {
        assert rest[j] == props[i + 1 + j];
      }
    }
    assert done + props[i..] == done + [(k, props[i].1)] + rest;
    RemoveSingle(done, k, props[i].1, rest);
  }

  /** A prop that is handed on moves from the unprocessed part to the kept part. */
  lemma KeptPass(allKeys: set<string>, properties: set<string>, prefix: Option<string>, props: Entries<Value>, i: nat)
    requires i < |props|
    requires !IsClassKey(allKeys, prefix, props[i].0) && !IsStyleKey(properties, prefix, props[i].0)
    ensures Kept(allKeys, properties, prefix, props[..i]) + props[i..] == Kept(allKeys, properties, prefix, props[..i + 1]) + props[i + 1..]
  {
    var done := Kept(allKeys, properties, prefix, props[..i]);
    assert props[..i + 1][..i] == props[..i];
    assert Kept(allKeys, properties, prefix, props[..i + 1]) == done + [props[i]];
    assert props[i..] == [props[i]] + props[i + 1..];
  }

  /** A reference is produced exactly for a class key whose value is `true`, under its stripped name. */
  lemma {:induction false} ClassNameRefsMeaning(
    allKeys: set<string>, prefix: Option<string>, props: Entries<Value>, r: ClassRef)
    ensures r in ClassNameRefs(allKeys, prefix, props) <==>
      exists i :: 0 <= i < |props| && IsClassKey(allKeys, prefix, props[i].0) && props[i].1 == Bool(true)
                                   && r == Name(TestKey(prefix, props[i].0).value)
  {
    if props != [] {
      var init := props[..|props| - 1];
      ClassNameRefsMeaning(allKeys, prefix, init, r);
      if exists i :: 0 <= i < |props| && IsClassKey(allKeys, prefix, props[i].0) && props[i].1 == Bool(true)
                                      && r == Name(TestKey(prefix, props[i].0).value) {
        var i :| 0 <= i < |props| && IsClassKey(allKeys, prefix, props[i].0) && props[i].1 == Bool(true)
                                  && r == Name(TestKey(prefix, props[i].0).value);
        if i < |init| { assert init[i] == props[i]; }
      }
      if exists i :: 0 <= i < |init| && IsClassKey(allKeys, prefix, init[i].0) && init[i].1 == Bool(true)
                                     && r == Name(TestKey(prefix, init[i].0).value) {
        var i :| 0 <= i < |init| && IsClassKey(allKeys, prefix, init[i].0) && init[i].1 == Bool(true)
                                 && r == Name(TestKey(prefix, init[i].0).value);
        assert init[i] == props[i];
      }
    }
  }

  /**
   * An override is produced exactly for a style key: its property is the stripped key, its value
   * the prop's value, and its cache identity `"<original key>=<value>"`.
   */
  lemma {:induction false} OverrideRefsMeaning(properties: set<string>, prefix: Option<string>, props: Entries<Value>, r: ClassRef)
    ensures r in OverrideRefs(properties, prefix, props) <==>
      exists i :: 0 <= i < |props| && IsStyleKey(properties, prefix, props[i].0)
                                   && r == OverrideOf(prefix, props[i].0, props[i].1)
  {
    if props != [] {
      var init := props[..|props| - 1];
      OverrideRefsMeaning(properties, prefix, init, r);
      forall i | 0 <= i < |init| ensures init[i] == props[i] {
      }
    }
  }

  /** A prop is handed on exactly when its key is neither a class key nor a style key. */
  lemma {:induction false} KeptMeaning(allKeys: set<string>, properties: set<string>, prefix: Option<string>, props: Entries<Value>, p: (string, Value))
    ensures p in Kept(allKeys, properties, prefix, props) <==>
      p in props && !IsClassKey(allKeys, prefix, p.0) && !IsStyleKey(properties, prefix, p.0)
  {
    if props != [] {
      var init := props[..|props| - 1];
      KeptMeaning(allKeys, properties, prefix, init, p);
      assert props == init + [props[|props| - 1]];
    }
  }

  // mergeArrayObjects

  /** Assigning every key of every item, in order, over `acc`. */
  function MergeFrom(acc: Entries<Value>, items: seq<Entries<Value>>): Entries<Value>
    decreases |items|
  {
    if items == [] then acc else MergeFrom(PutAll(acc, items[0]), items[1..])
  }

  function Merge(items: seq<Entries<Value>>): Entries<Value>
  {
    MergeFrom([], items)
  }

  /** The value of `k` in the last item that has it. */
  function LastItemValue(items: seq<Entries<Value>>, k: string): Option<Value>
  {
    if items == [] then None
    else
      var later := LastItemValue(items[1..], k);
      if later.Some? then later else Get(items[0], k)
  }

  /** `mergeArrayObjects(items)`. */
  method MergeArrayObjects(items: seq<Entries<Value>>) returns (r: Entries<Value>)
    ensures r == Merge(items)
  {
    r := [];
    var i := 0;
    while i < |items|
      invariant 0 <= i <= |items|
      invariant MergeFrom(r, items[i..]) == Merge(items)
    {
      assert items[i..][1..] == items[i + 1..];
      r := CopyEntries(r, items[i]);
      i := i + 1;
    }
  }

  /** Merging gives each key the value from the last item that has it, and no other keys. */
  lemma {:induction false} MergeFromGet(acc: Entries<Value>, items: seq<Entries<Value>>, k: string)
    requires forall i :: 0 <= i < |items| ==> UniqueKeys(items[i])
    ensures Get(MergeFrom(acc, items), k)
         == if LastItemValue(items, k).Some? then LastItemValue(items, k) else Get(acc, k)
    decreases |items|
  {
    if items != [] {
      assert forall i :: 0 <= i < |items[1..]| ==> items[1..][i] == items[i + 1];
      MergeFromGet(PutAll(acc, items[0]), items[1..], k);
      PutAllGet(acc, items[0], k);
      LastWriteOfMap(items[0], k);
    }
  }

  /** A key has a merged value exactly when some item has it. */
  lemma {:induction false} LastItemValuePresent(items: seq<Entries<Value>>, k: string)
    ensures LastItemValue(items, k).Some? <==> exists i :: 0 <= i < |items| && k in KeySet(items[i])
  {
    if items != [] {
      LastItemValuePresent(items[1..], k);
      if exists i :: 0 <= i < |items| && k in KeySet(items[i]) {
        var i :| 0 <= i < |items| && k in KeySet(items[i]);
        if i > 0 { assert items[1..][i - 1] == items[i]; }
      }
      if exists i :: 0 <= i < |items[1..]| && k in KeySet(items[1..][i]) {
        var i :| 0 <= i < |items[1..]| && k in KeySet(items[1..][i]);
        assert items[1..][i] == items[i + 1];
      }
    }
  }

  /**
   * `mergeArrayObjects` returns, for each key, the value from the last item containing it, and
   * holds no key that no item has.
   */
  lemma MergeMeaning(items: seq<Entries<Value>>, k: string)
    requires forall i :: 0 <= i < |items| ==> UniqueKeys(items[i])
    ensures Get(Merge(items), k) == LastItemValue(items, k)
    ensures k in KeySet(Merge(items)) <==> exists i :: 0 <= i < |items| && k in KeySet(items[i])
  {
    MergeFromGet([], items, k);
    LastItemValuePresent(items, k);
  }

  // makeUseBespokeStyle

  /** A piece as an object: a class name becomes `{[name]: true}`, properties stay as written. */
  function PieceObject(p: StylePiece): Entries<Value>
  {
    match p
    case ClassName(n) => [(n, Bool(true))]
    case Props(props) => props
  }

  function PieceObjects(ps: seq<StylePiece>): (objs: seq<Entries<Value>>)
    ensures |objs| == |ps|
    ensures forall i :: 0 <= i < |ps| ==> objs[i] == PieceObject(ps[i])
  {
    if ps == [] then [] else [PieceObject(ps[0])] + PieceObjects(ps[1..])
  }

  /** One bespoke class: its pieces merged as objects. */
  function BespokeClass(s: StyleStructure): Entries<Value>
  {
    Merge(PieceObjects(Pieces(s)))
  }

  /** Each declared bespoke class paired with its merged object. */
  function BespokeEntries(classes: Entries<StyleStructure>): (r: Entries<Entries<Value>>)
    ensures |r| == |classes|
    ensures forall i :: 0 <= i < |classes| ==> r[i] == (classes[i].0, BespokeClass(classes[i].1))
  {
    if classes == [] then []
    else [(classes[0].0, BespokeClass(classes[0].1))] + BespokeEntries(classes[1..])
  }

  /** The `reduce` of the function `makeUseBespokeStyle(theme)` returns, applied to `classes`. */
  method MakeUseBespokeStyle(classes: Entries<StyleStructure>) returns (r: Entries<Entries<Value>>)
    ensures r == PutAll([], BespokeEntries(classes))
  {
    r := [];
    var i := 0;
    while i < |classes|
      invariant 0 <= i <= |classes|
      invariant PutAll(r, BespokeEntries(classes[i..])) == PutAll([], BespokeEntries(classes))
    {
      assert classes[i..][1..] == classes[i + 1..];
      var classMap := MergeArrayObjects(PieceObjects(Pieces(classes[i].1)));
      r := Put(r, classes[i].0, classMap);
      i := i + 1;
    }
  }

  /** With distinct class names (an object's keys), the result lists every class in declaration order. */
  lemma BespokeTableInOrder(classes: Entries<StyleStructure>)
    requires UniqueKeys(classes)
    ensures PutAll([], BespokeEntries(classes)) == BespokeEntries(classes)
  {
    var e := BespokeEntries(classes);
    assert [] + e == e;
    assert UniqueKeys(e) by {
      forall i, j | 0 <= i < j < |e| ensures e[i].0 != e[j].0 {
        assert e[i].0 == classes[i].0 && e[j].0 == classes[j].0;
      }
    }
    PutAllCopies([], e);
  }

  /** A bespoke class made of class names only maps exactly those names to `true`. */
  lemma BespokeNamesAreFlags(s: StyleStructure, k: string)
    requires forall i :: 0 <= i < |Pieces(s)| ==> Pieces(s)[i].ClassName?
    ensures Get(BespokeClass(s), k) == if ClassName(k) in Pieces(s) then Some(Bool(true)) else None
  {
    var objs := PieceObjects(Pieces(s));
    forall i | 0 <= i < |objs| ensures UniqueKeys(objs[i]) {}
    MergeMeaning(objs, k);
    NamesLastValue(Pieces(s), k);
  }

  lemma {:induction false} NamesLastValue(ps: seq<StylePiece>, k: string)
    requires forall i :: 0 <= i < |ps| ==> ps[i].ClassName?
    ensures LastItemValue(PieceObjects(ps), k) == if ClassName(k) in ps then Some(Bool(true)) else None
  {
    if ps != [] {
      assert PieceObjects(ps)[1..] == PieceObjects(ps[1..]);
      NamesLastValue(ps[1..], k);
      assert ps == [ps[0]] + ps[1..];
    }
  }

  // flatMap

  /** An element of `flatMap`'s input: one item, or an array of items. */
  datatype Nested<T> = Item(item: T) | Items(items: seq<T>)

  function Spread<T>(n: Nested<T>): seq<T>
  {
    match n
    case Item(x) => [x]
    case Items(xs) => xs
  }

  /** One level of flattening. */
  function Flatten<T>(ns: seq<Nested<T>>): seq<T>
  {
    if ns == [] then [] else Spread(ns[0]) + Flatten(ns[1..])
  }

  lemma {:induction false} FlattenAppend<T>(a: seq<Nested<T>>, b: seq<Nested<T>>)
    ensures Flatten(a + b) == Flatten(a) + Flatten(b)
    decreases |a|
  {
    if a == [] {
      assert a + b == b;
    } else {
      assert (a + b)[0] == a[0];
      assert (a + b)[1..] == a[1..] + b;
      FlattenAppend(a[1..], b);
    }
  }

  /** `flatMap(items)`. */
  method FlatMap<T>(ns: seq<Nested<T>>) returns (result: seq<T>)
    ensures result == Flatten(ns)
  {
    result := [];
    var i := 0;
    while i < |ns|
      invariant 0 <= i <= |ns|
      invariant result == Flatten(ns[..i])
    {
      FlattenAppend(ns[..i], [ns[i]]);
      assert ns[..i + 1] == ns[..i] + [ns[i]];
      match ns[i] {
        case Items(xs) => result := result + xs;
        case Item(x) => result := result + [x];
      }
      i := i + 1;
    }
    assert ns[..i] == ns;
  }

  /** Every element of the output comes from some input element, and every input element's items appear. */
  lemma {:induction false} FlattenMembership<T>(ns: seq<Nested<T>>, x: T)
    ensures x in Flatten(ns) <==> exists i :: 0 <= i < |ns| && x in Spread(ns[i])
  {
    if ns != [] {
      FlattenMembership(ns[1..], x);
      if exists i :: 0 <= i < |ns| && x in Spread(ns[i]) {
        var i :| 0 <= i < |ns| && x in Spread(ns[i]);
        if i > 0 { assert ns[1..][i - 1] == ns[i]; }
      }
      if exists i :: 0 <= i < |ns[1..]| && x in Spread(ns[1..][i]) {
        var i :| 0 <= i < |ns[1..]| && x in Spread(ns[1..][i]);
        assert ns[1..][i] == ns[i + 1];
      }
    }
  }

  /** Flattening keeps the total number of items. */
  function Count<T>(ns: seq<Nested<T>>): nat
  {
    if ns == [] then 0
    else
      var here := match ns[0] case Item(_) => 1 case Items(xs) => |xs|;
      here + Count(ns[1..])
  }

  lemma {:induction false} FlattenLength<T>(ns: seq<Nested<T>>)
    ensures |Flatten(ns)| == Count(ns)
  {
    if ns != [] {
      FlattenLength(ns[1..]);
    }
  }
}
