/**
 * What `buildClassCache` and `parseStyleStructure` compute (`src/buildStyle.ts`), as functions:
 * every base class and every view flattened into an ordered property map, last write wins.
 * The loops that compute them live in `Runtime.StyleRuntime`.
 */
module ClassCompiler {
  import opened Wrappers
  import opened OrderedMap
  import opened StyleProps
  import opened Theme

  /** The `TypeError`s the source can raise while compiling or resolving. */
  datatype TypeError =
    | MissingBaseClass(name: string)   // `baseClassCache.get(piece)!.forEach` on `undefined`
    | NoViewTable(name: string)        // `classCache.has(c)` on an unset `vClassCache`

  /** The writes a run of declared properties makes: canonical key, transformed value. */
  function Transformed(t: Tokens, props: Entries<Value>): (w: Entries<Value>)
    ensures |w| == |props|
  {
    if props == [] then []
    else [(CanonicalKey(props[0].0), TransformValue(t, props[0].0, props[0].1))] + Transformed(t, props[1..])
  }

  /** A compiled base class: its properties applied in declaration order to an empty map. */
  function CompileClass(t: Tokens, props: Entries<Value>): Entries<Value>
  {
    PutAll([], Transformed(t, props))
  }

  /** The last declared property whose canonical key is `c`: the one that must win. */
  function LastDeclared(props: Entries<Value>, c: string): Option<(string, Value)>
  {
    if props == [] then None
    else
      var later := LastDeclared(props[1..], c);
      if later.Some? then later
      else if CanonicalKey(props[0].0) == c then Some(props[0])
      else None
  }

  /** The value a declared property stores. */
  function Stored(t: Tokens, p: Option<(string, Value)>): Option<Value>
  {
    match p
    case None => None
    case Some((k, v)) => Some(TransformValue(t, k, v))
  }

  /** Applying declared properties over `acc`: each canonical key holds its last declaration. */
  lemma {:induction false} ApplyPropsGet(t: Tokens, acc: Entries<Value>, props: Entries<Value>, c: string)
    ensures Get(PutAll(acc, Transformed(t, props)), c)
         == if LastDeclared(props, c).Some? then Stored(t, LastDeclared(props, c)) else Get(acc, c)
    decreases |props|
  {
    if props != [] {
      var w := Transformed(t, props);
      assert w[0] == (CanonicalKey(props[0].0), TransformValue(t, props[0].0, props[0].1));
      assert w[1..] == Transformed(t, props[1..]);
      ApplyPropsGet(t, Put(acc, w[0].0, w[0].1), props[1..], c);
    }
  }

  /**
   * A compiled base class maps each canonical key to the transformed value of the last property
   * declared under it (so `mt` then `marginTop` stores the `marginTop` value), and holds nothing else.
   */
  lemma CompileClassGet(t: Tokens, props: Entries<Value>, c: string)
    ensures Get(CompileClass(t, props), c) == Stored(t, LastDeclared(props, c))
  {
    ApplyPropsGet(t, [], props, c);
  }

  /** A compiled class never holds a key twice. */
  lemma CompileClassUnique(t: Tokens, props: Entries<Value>)
    ensures UniqueKeys(CompileClass(t, props))
  {
    PutAllUnique([], Transformed(t, props));
  }

  /** The writes one view piece makes, or the `TypeError` an unknown base class raises. */
  function PieceWrites(t: Tokens, base: map<string, Entries<Value>>, p: StylePiece)
    : Result<Entries<Value>, TypeError>
  {
    match p
    case ClassName(n) => if n in base then Ok(base[n]) else Err(MissingBaseClass(n))
    case Props(props) => Ok(Transformed(t, props))
  }

  /** The `for (const piece of pieces)` loop of `parseStyleStructure`, from accumulator `acc`. */
  function CompileFrom(t: Tokens, base: map<string, Entries<Value>>, acc: Entries<Value>, ps: seq<StylePiece>)
    : Result<Entries<Value>, TypeError>
    decreases |ps|
  {
    if ps == [] then Ok(acc)
    else
      match PieceWrites(t, base, ps[0])
      case Err(e) => Err(e)
      case Ok(w) => CompileFrom(t, base, PutAll(acc, w), ps[1..])
  }

  /** `parseStyleStructure(theme, s)`. */
  function CompileView(t: Tokens, base: map<string, Entries<Value>>, s: StyleStructure)
    : Result<Entries<Value>, TypeError>
  {
    CompileFrom(t, base, [], Pieces(s))
  }

  /** What one piece alone sets `k` to. */
  function PieceValue(t: Tokens, base: map<string, Entries<Value>>, p: StylePiece, k: string): Option<Value>
  {
    match p
    case ClassName(n) => if n in base then Get(base[n], k) else None
    case Props(props) => Get(CompileClass(t, props), k)
  }

  /** The value of `k` in the last piece that sets it. */
  function LastPieceValue(t: Tokens, base: map<string, Entries<Value>>, ps: seq<StylePiece>, k: string)
    : Option<Value>
  {
    if ps == [] then None
    else
      var later := LastPieceValue(t, base, ps[1..], k);
      if later.Some? then later else PieceValue(t, base, ps[0], k)
  }

  ghost predicate TableUnique(table: map<string, Entries<Value>>)
  {
    forall n :: n in table ==> UniqueKeys(table[n])
  }

  /** The index of the first piece naming a class that is not in `base`, or `|ps|`. */
  function FirstMissing(base: map<string, Entries<Value>>, ps: seq<StylePiece>): (i: nat)
    ensures i <= |ps|
  {
    if ps == [] then 0
    else if ps[0].ClassName? && ps[0].name !in base then 0
    else 1 + FirstMissing(base, ps[1..])
  }

  /**
   * Compiling pieces fails exactly when some piece names a class missing from `base`, with the
   * first such name; otherwise every key holds its value from the last piece that sets it, or
   * else its value in `acc`.
   */
  lemma {:induction false} CompileFromMeaning(
    t: Tokens, base: map<string, Entries<Value>>, acc: Entries<Value>, ps: seq<StylePiece>, k: string)
    requires TableUnique(base)
    ensures var r := CompileFrom(t, base, acc, ps);
      var i := FirstMissing(base, ps);
      && (r.Err? <==> i < |ps|)
      && (r.Err? ==> ps[i].ClassName? && r.error == MissingBaseClass(ps[i].name))
      && (r.Ok? ==> Get(r.value, k) == if LastPieceValue(t, base, ps, k).Some?
                                      then LastPieceValue(t, base, ps, k) else Get(acc, k))
    decreases |ps|
  {
    if ps != [] {
      match PieceWrites(t, base, ps[0])
      case Err(e) =>
      case Ok(w) =>
        CompileFromMeaning(t, base, PutAll(acc, w), ps[1..], k);
        PutAllGet(acc, w, k);
        PutAllGet([], w, k);
        match ps[0]
        case ClassName(n) => LastWriteOfMap(base[n], k);
        case Props(props) =>
    }
  }

  /**
   * A view compiles unless it names a missing base class; then each key holds its value from the
   * last piece that sets it. A single (non-array) structure compiles as a one-piece list.
   */
  lemma CompileViewMeaning(t: Tokens, base: map<string, Entries<Value>>, s: StyleStructure, k: string)
    requires TableUnique(base)
    ensures var r := CompileView(t, base, s);
      && (r.Err? <==> exists i :: 0 <= i < |Pieces(s)| && Pieces(s)[i].ClassName? && Pieces(s)[i].name !in base)
      && (r.Ok? ==> Get(r.value, k) == LastPieceValue(t, base, Pieces(s), k))
  {
    CompileFromMeaning(t, base, [], Pieces(s), k);
    FirstMissingSound(base, Pieces(s));
  }

  /** Literal properties: no shorthand key, and no value that names a token of the theme. */
  ghost predicate Literal(t: Tokens, props: Entries<Value>)
  {
    forall i :: 0 <= i < |props| ==>
      props[i].0 !in ShorthandKeys
      && Text(props[i].1) !in t.colors && Text(props[i].1) !in t.spacing && Text(props[i].1) !in t.borderRadii
  }

  /** Literal properties pass through the resolvers and the shorthand rename unchanged. */
  lemma {:induction false} TransformedLiteral(t: Tokens, props: Entries<Value>)
    requires Literal(t, props)
    ensures Transformed(t, props) == props
  {
    if props != [] {
      CanonicalKeyRenames(props[0].0);
      assert Literal(t, props[1..]) by {
        forall i | 0 <= i < |props[1..]| ensures props[1..][i] == props[i + 1] {}
      }
      TransformedLiteral(t, props[1..]);
    }
  }

  /**
   * A view that is a single object of literal properties, with no base classes, compiles to
   * exactly those properties, in their order.
   */
  lemma LiteralViewRoundTrip(t: Tokens, props: Entries<Value>)
    requires UniqueKeys(props) && Literal(t, props)
    ensures CompileView(t, map[], Single(Props(props))) == Ok(props)
  {
    TransformedLiteral(t, props);
    assert [] + props == props;
    PutAllCopies([], props);
    var ps := Pieces(Single(Props(props)));
    assert ps == [Props(props)];
    assert PieceWrites(t, map[], ps[0]) == Ok(props);
    assert ps[1..] == [];
    assert CompileFrom(t, map[], [], ps) == CompileFrom(t, map[], PutAll([], props), []);
  }

  /** `FirstMissing` finds a missing name iff there is one. */
  lemma {:induction false} FirstMissingSound(base: map<string, Entries<Value>>, ps: seq<StylePiece>)
    ensures var i := FirstMissing(base, ps);
      (i < |ps| <==> exists j :: 0 <= j < |ps| && ps[j].ClassName? && ps[j].name !in base)
      && (i < |ps| ==> ps[i].ClassName? && ps[i].name !in base)
      && (forall j :: 0 <= j < i ==> !(ps[j].ClassName? && ps[j].name !in base))
  {
    if ps != [] && !(ps[0].ClassName? && ps[0].name !in base) {
      FirstMissingSound(base, ps[1..]);
      forall j | 0 < j < FirstMissing(base, ps)
        ensures !(ps[j].ClassName? && ps[j].name !in base)
      {
        assert ps[1..][j - 1] == ps[j];
      }
      if exists j :: 0 <= j < |ps| && ps[j].ClassName? && ps[j].name !in base {
        var j :| 0 <= j < |ps| && ps[j].ClassName? && ps[j].name !in base;
        assert ps[1..][j - 1] == ps[j];
      }
      if FirstMissing(base, ps[1..]) < |ps[1..]| {
        assert ps[1..][FirstMissing(base, ps[1..])] == ps[FirstMissing(base, ps)];
      }
    }
  }

  /** A compiled view never holds a key twice. */
  lemma {:induction false} CompileFromUnique(
    t: Tokens, base: map<string, Entries<Value>>, acc: Entries<Value>, ps: seq<StylePiece>)
    requires UniqueKeys(acc)
    ensures CompileFrom(t, base, acc, ps).Ok? ==> UniqueKeys(CompileFrom(t, base, acc, ps).value)
    decreases |ps|
  {
    if ps != [] {
      match PieceWrites(t, base, ps[0])
      case Err(e) =>
      case Ok(w) =>
        PutAllUnique(acc, w);
        CompileFromUnique(t, base, PutAll(acc, w), ps[1..]);
    }
  }

  /** The base-class loop of `buildClassCache`: name to compiled class, a later name replacing. */
  function BaseTable(t: Tokens, bcs: Entries<Entries<Value>>): map<string, Entries<Value>>
  {
    if bcs == [] then map[]
    else
      var last := bcs[|bcs| - 1];
      BaseTable(t, bcs[..|bcs| - 1])[last.0 := CompileClass(t, last.1)]
  }

  /** The base table holds exactly the declared base-class names. */
  lemma {:induction false} BaseTableKeys(t: Tokens, bcs: Entries<Entries<Value>>)
    ensures BaseTable(t, bcs).Keys == KeySet(bcs)
  {
    if bcs != [] {
      var init := bcs[..|bcs| - 1];
      BaseTableKeys(t, init);
      forall n | n in KeySet(bcs) ensures n in KeySet(init) + {bcs[|bcs| - 1].0} {
        var i :| 0 <= i < |bcs| && bcs[i].0 == n;
        if i < |bcs| - 1 { assert init[i] == bcs[i]; }
      }
      forall n | n in KeySet(init) ensures n in KeySet(bcs) {
        var i :| 0 <= i < |init| && init[i].0 == n;
        assert bcs[i] == init[i];
      }
    }
  }

  /** With unique names, every declared base class is stored as its compiled map. */
  lemma {:induction false} BaseTableValues(t: Tokens, bcs: Entries<Entries<Value>>, i: nat)
    requires UniqueKeys(bcs)
    requires i < |bcs|
    ensures bcs[i].0 in BaseTable(t, bcs)
    ensures BaseTable(t, bcs)[bcs[i].0] == CompileClass(t, bcs[i].1)
  {
    if i < |bcs| - 1 {
      var init := bcs[..|bcs| - 1];
      assert init[i] == bcs[i];
      assert bcs[i].0 != bcs[|bcs| - 1].0;
      assert UniqueKeys(init) by {
        forall a, b | 0 <= a < b < |init| ensures init[a].0 != init[b].0 {
          assert init[a] == bcs[a] && init[b] == bcs[b];
        }
      }
      BaseTableValues(t, init, i);
    }
  }

  /** Compiled base classes never hold a key twice. */
  lemma {:induction false} BaseTableUnique(t: Tokens, bcs: Entries<Entries<Value>>)
    ensures TableUnique(BaseTable(t, bcs))
  {
    if bcs != [] {
      BaseTableUnique(t, bcs[..|bcs| - 1]);
      CompileClassUnique(t, bcs[|bcs| - 1].1);
    }
  }

  /**
   * The view loop of `buildClassCache` from table `acc`: views compile in declaration order; the
   * first failure stops the loop (the exception leaves the `try`) and is reported.
   */
  function ViewTableFrom(
    t: Tokens, base: map<string, Entries<Value>>, acc: map<string, Entries<Value>>, vs: Entries<StyleStructure>)
    : (map<string, Entries<Value>>, Option<TypeError>)
    decreases |vs|
  {
    if vs == [] then (acc, None)
    else
      match CompileView(t, base, vs[0].1)
      case Err(e) => (acc, Some(e))
      case Ok(r) => ViewTableFrom(t, base, acc[vs[0].0 := r], vs[1..])
  }

  function ViewTable(t: Tokens, base: map<string, Entries<Value>>, vs: Entries<StyleStructure>)
    : (map<string, Entries<Value>>, Option<TypeError>)
  {
    ViewTableFrom(t, base, map[], vs)
  }

  /** How many leading views compile. */
  function CompiledPrefix(t: Tokens, base: map<string, Entries<Value>>, vs: Entries<StyleStructure>): (n: nat)
    ensures n <= |vs|
  {
    if vs == [] || CompileView(t, base, vs[0].1).Err? then 0
    else 1 + CompiledPrefix(t, base, vs[1..])
  }

  /** The views before `CompiledPrefix` compile, and the one at it (if any) fails. */
  lemma {:induction false} CompiledPrefixMeaning(
    t: Tokens, base: map<string, Entries<Value>>, vs: Entries<StyleStructure>)
    ensures var n := CompiledPrefix(t, base, vs);
      && (forall i :: 0 <= i < n ==> CompileView(t, base, vs[i].1).Ok?)
      && (n < |vs| ==> CompileView(t, base, vs[n].1).Err?)
  {
    if vs != [] && CompileView(t, base, vs[0].1).Ok? {
      CompiledPrefixMeaning(t, base, vs[1..]);
      var n := CompiledPrefix(t, base, vs);
      forall i | 0 < i < n ensures CompileView(t, base, vs[i].1).Ok? {
        assert vs[1..][i - 1] == vs[i];
      }
      if n < |vs| { assert vs[1..][n - 1] == vs[n]; }
    }
  }

  /** The view loop reports an error exactly when a view fails, and then the first failing view's. */
  lemma {:induction false} ViewTableFromError(
    t: Tokens, base: map<string, Entries<Value>>, acc: map<string, Entries<Value>>, vs: Entries<StyleStructure>)
    ensures var err := ViewTableFrom(t, base, acc, vs).1;
      var n := CompiledPrefix(t, base, vs);
      && (err.None? <==> n == |vs|)
      && (n < |vs| ==> CompileView(t, base, vs[n].1).Err? && err == Some(CompileView(t, base, vs[n].1).error))
    decreases |vs|
  {
    if vs != [] && CompileView(t, base, vs[0].1).Ok? {
      var r := CompileView(t, base, vs[0].1).value;
      ViewTableFromError(t, base, acc[vs[0].0 := r], vs[1..]);
      var n := CompiledPrefix(t, base, vs);
      if n < |vs| { assert vs[1..][n - 1] == vs[n]; }
    }
  }

  /** The view loop adds exactly the names of the views before the first failing one. */
  lemma {:induction false} ViewTableFromKeys(
    t: Tokens, base: map<string, Entries<Value>>, acc: map<string, Entries<Value>>, vs: Entries<StyleStructure>)
    ensures ViewTableFrom(t, base, acc, vs).0.Keys == acc.Keys + KeySet(vs[..CompiledPrefix(t, base, vs)])
    decreases |vs|
  {
    if vs != [] && CompileView(t, base, vs[0].1).Ok? {
      var r := CompileView(t, base, vs[0].1).value;
      var acc' := acc[vs[0].0 := r];
      ViewTableFromKeys(t, base, acc', vs[1..]);
      var n := CompiledPrefix(t, base, vs);
      assert n == 1 + CompiledPrefix(t, base, vs[1..]);
      var done := vs[1..][..n - 1];
      assert vs[..n] == [vs[0]] + done;
      KeySetCons(vs[0], done);
      assert acc'.Keys == acc.Keys + {vs[0].0};
      assert ViewTableFrom(t, base, acc, vs).0 == ViewTableFrom(t, base, acc', vs[1..]).0;
    } else if vs != [] {
      assert vs[..0] == [];
    }
  }

  /**
   * After the view loop the table holds exactly the views before the first failing one, each
   * under its name; the failing view and all later ones are absent, and the error is the
   * failing view's.
   */
  lemma ViewTableMeaning(t: Tokens, base: map<string, Entries<Value>>, vs: Entries<StyleStructure>)
    ensures var (table, err) := ViewTable(t, base, vs);
      var n := CompiledPrefix(t, base, vs);
      && table.Keys == KeySet(vs[..n])
      && (err.None? <==> n == |vs|)
      && (n < |vs| ==> CompileView(t, base, vs[n].1).Err? && err == Some(CompileView(t, base, vs[n].1).error))
      && (forall i :: 0 <= i < n ==> CompileView(t, base, vs[i].1).Ok?)
  {
    ViewTableFromKeys(t, base, map[], vs);
    ViewTableFromError(t, base, map[], vs);
    CompiledPrefixMeaning(t, base, vs);
  }

  /** A view that compiled is stored as its compiled map (names being unique). */
  lemma {:induction false} ViewTableFromValues(
    t: Tokens, base: map<string, Entries<Value>>, acc: map<string, Entries<Value>>, vs: Entries<StyleStructure>,
    i: nat)
    requires UniqueKeys(vs)
    requires i < CompiledPrefix(t, base, vs)
    ensures vs[i].0 in ViewTableFrom(t, base, acc, vs).0
    ensures CompileView(t, base, vs[i].1).Ok?
    ensures ViewTableFrom(t, base, acc, vs).0[vs[i].0] == CompileView(t, base, vs[i].1).value
    decreases |vs|
  {
    assert CompileView(t, base, vs[0].1).Ok?;
    var r := CompileView(t, base, vs[0].1).value;
    assert ViewTableFrom(t, base, acc, vs) == ViewTableFrom(t, base, acc[vs[0].0 := r], vs[1..]);
    UniqueTail(vs);
    if i == 0 {
      ViewTableKeep(t, base, acc[vs[0].0 := r], vs[1..], vs[0].0);
    } else {
      assert i - 1 < CompiledPrefix(t, base, vs[1..]);
      assert vs[1..][i - 1] == vs[i];
      ViewTableFromValues(t, base, acc[vs[0].0 := r], vs[1..], i - 1);
    }
  }

  /** An entry of the starting table whose name no view declares is left alone. */
  lemma {:induction false} ViewTableKeep(
    t: Tokens, base: map<string, Entries<Value>>, acc: map<string, Entries<Value>>, vs: Entries<StyleStructure>,
    n: string)
    requires n in acc && n !in KeySet(vs)
    ensures n in ViewTableFrom(t, base, acc, vs).0
    ensures ViewTableFrom(t, base, acc, vs).0[n] == acc[n]
    decreases |vs|
  {
    if vs != [] {
      KeySetCons(vs[0], vs[1..]);
      assert [vs[0]] + vs[1..] == vs;
      match CompileView(t, base, vs[0].1)
      case Err(e) =>
      case Ok(r) => ViewTableKeep(t, base, acc[vs[0].0 := r], vs[1..], n);
    }
  }

  /** Compiled views never hold a key twice. */
  lemma {:induction false} ViewTableFromUnique(
    t: Tokens, base: map<string, Entries<Value>>, acc: map<string, Entries<Value>>, vs: Entries<StyleStructure>)
    requires TableUnique(acc)
    ensures TableUnique(ViewTableFrom(t, base, acc, vs).0)
    decreases |vs|
  {
    if vs != [] {
      match CompileView(t, base, vs[0].1)
      case Err(e) =>
      case Ok(r) =>
        CompileFromUnique(t, base, [], Pieces(vs[0].1));
        ViewTableFromUnique(t, base, acc[vs[0].0 := r], vs[1..]);
    }
  }
}
