/**
 * The module state of `src/buildStyle.ts` and the operations that change it: `clearCache`,
 * `buildClassCache`, `parseStyleStructure`, `processStyle`, `useSafeStyle` and the `view`,
 * `color` and `spacing` accessors it hands out. Each loop is proved against the function in
 * `ClassCompiler` or `Resolution` that says what it computes.
 */
module Runtime {
  import opened Wrappers
  import opened OrderedMap
  import opened StyleProps
  import opened Theme
  import opened ClassCompiler
  import opened Resolution

  /**
   * `for (const cssProperty in props)`: a transform key is stored under its canonical name with
   * its resolved value, any other key verbatim.
   */
  method ApplyProps(t: Tokens, acc: Entries<Value>, props: Entries<Value>) returns (r: Entries<Value>)
    ensures r == PutAll(acc, Transformed(t, props))
  {
    r := acc;
    var i := 0;
    while i < |props|
      invariant 0 <= i <= |props|
      invariant PutAll(r, Transformed(t, props[i..])) == PutAll(acc, Transformed(t, props))
    {
      var (k, v) := props[i];
      assert props[i..][1..] == props[i + 1..];
      if KindOf(k) != Verbatim {
        r := Put(r, CanonicalKey(k), TransformValue(t, k, v));
      } else {
        VerbatimKeyKept(k);
        r := Put(r, k, v);
      }
      i := i + 1;
    }
  }

  /** The base-class loop of `buildClassCache`: each base class compiled under its name. */
  method CompileBaseClasses(t: Tokens, bcs: Entries<Entries<Value>>) returns (table: map<string, Entries<Value>>)
    ensures table == BaseTable(t, bcs)
  {
    table := map[];
    var i := 0;
    while i < |bcs|
      invariant 0 <= i <= |bcs|
      invariant table == BaseTable(t, bcs[..i])
    {
      var compiled := ApplyProps(t, [], bcs[i].1);
      assert compiled == CompileClass(t, bcs[i].1);
      table := table[bcs[i].0 := compiled];
      assert bcs[..i + 1][..i] == bcs[..i] && bcs[..i + 1][i] == bcs[i];
      i := i + 1;
    }
    assert bcs[..i] == bcs;
  }

  /** The references a `view(classes)` call resolves: the theme's default classes first. */
  function ViewRefs(theme: Schema, classes: seq<ClassRef>): (refs: seq<ClassRef>)
    ensures theme.defaultClasses.view.None? ==> refs == classes
    ensures theme.defaultClasses.view.Some? ==> refs == Names(theme.defaultClasses.view.value) + classes
  {
    match theme.defaultClasses.view
    case None => classes
    case Some(defaults) => Names(defaults) + classes
  }

  /** The globals of `src/buildStyle.ts`. */
  class StyleRuntime {
    /** `vStyleCache`: cache key to resolved style. */
    var styleCache: map<string, Entries<Value>>
    /** `vClassCache`: compiled views, `None` while unset. */
    var viewCache: Option<map<string, Entries<Value>>>
    /** `baseClassCache`: compiled base classes, `None` before the first build. */
    var baseCache: Option<map<string, Entries<Value>>>
    /** `functionCache`: set by the first `useSafeStyle`, whose theme its closures keep. */
    var accessor: Option<Schema>
    /** The theme the class tables were last built from. */
    ghost var source: Option<Schema>

    /** The class tables are exactly what a build from `source` produces. */
    ghost predicate Valid()
      reads this
    {
      && (baseCache.Some? <==> source.Some?)
      && (source.Some? ==> baseCache.value == BaseTable(source.value.tokens, source.value.baseClasses))
      && (viewCache.Some? ==>
            source.Some? && viewCache.value == ViewTable(source.value.tokens, baseCache.value, source.value.views).0)
      && (accessor.Some? ==> source.Some?)
    }

    /** The state at module load: everything unset. */
    constructor()
      ensures Valid()
      ensures styleCache == map[] && viewCache == None && baseCache == None && accessor == None
    {
      styleCache := map[];
      viewCache := None;
      baseCache := None;
      accessor := None;
      source := None;
    }

    /** Compiled tables never hold a key twice. */
    lemma TablesUniqueWhenValid()
      requires Valid() && baseCache.Some?
      ensures TablesUnique(baseCache.value, viewCache)
    {
      BaseTableUnique(source.value.tokens, source.value.baseClasses);
      ViewTableFromUnique(source.value.tokens, baseCache.value, map[], source.value.views);
    }

    /**
     * `clearCache`: empties the style cache and unsets the view table; the base table and the
     * captured accessors stay. Safe in any state, and a second call changes nothing more.
     */
    method ClearCache()
      requires Valid()
      modifies this`styleCache, this`viewCache
      ensures Valid()
      ensures styleCache == map[] && viewCache == None
    {
      styleCache := map[];
      viewCache := None;
    }

    /** `parseStyleStructure(theme, s)` against the current base table. */
    method ParseStyleStructure(t: Tokens, s: StyleStructure) returns (r: Result<Entries<Value>, TypeError>)
      requires baseCache.Some?
      ensures r == CompileView(t, baseCache.value, s)
    {
      var base := baseCache.value;
      var ps := Pieces(s);
      var acc: Entries<Value> := [];
      var i := 0;
      while i < |ps|
        invariant 0 <= i <= |ps|
        invariant CompileFrom(t, base, acc, ps[i..]) == CompileView(t, base, s)
      {
        assert ps[i..][1..] == ps[i + 1..];
        match ps[i] {
          case ClassName(n) =>
            if n !in base {
              assert CompileFrom(t, base, acc, ps[i..]) == Err(MissingBaseClass(n));
              return Err(MissingBaseClass(n));
            }
            assert CompileFrom(t, base, acc, ps[i..]) == CompileFrom(t, base, PutAll(acc, base[n]), ps[i + 1..]);
            acc := CopyEntries(acc, base[n]);
          case Props(props) =>
            assert CompileFrom(t, base, acc, ps[i..])
              == CompileFrom(t, base, PutAll(acc, Transformed(t, props)), ps[i + 1..]);
            acc := ApplyProps(t, acc, props);
        }
        i := i + 1;
      }
      return Ok(acc);
    }

    /**
     * `buildClassCache(theme)`: compiles every base class, then the views in order. A view that
     * names a missing base class stops the loop; the error is only logged, and the views compiled
     * before it stay in the (now set) view table. The error is returned here for the record.
     */
    method BuildClassCache(theme: Schema) returns (err: Option<TypeError>)
      modifies this`viewCache, this`baseCache, this`source
      ensures Valid() && source == Some(theme)
      ensures baseCache == Some(BaseTable(theme.tokens, theme.baseClasses))
      ensures viewCache == Some(ViewTable(theme.tokens, baseCache.value, theme.views).0)
      ensures err == ViewTable(theme.tokens, baseCache.value, theme.views).1
    {
      viewCache := Some(map[]);
      var base := CompileBaseClasses(theme.tokens, theme.baseClasses);
      baseCache := Some(base);
      source := Some(theme);
      var vs := theme.views;
      var j := 0;
      while j < |vs|
        invariant 0 <= j <= |vs|
        invariant baseCache == Some(base) && source == Some(theme)
        invariant viewCache.Some?
        invariant ViewTableFrom(theme.tokens, base, viewCache.value, vs[j..]) == ViewTable(theme.tokens, base, vs)
      {
        assert vs[j..][1..] == vs[j + 1..];
        var r := ParseStyleStructure(theme.tokens, vs[j].1);
        if r.Err? {
          return Some(r.error);
        }
        viewCache := Some(viewCache.value[vs[j].0 := r.value]);
        j := j + 1;
      }
      return None;
    }

    /**
     * `processStyle(theme, refs, vClassCache, vStyleCache)`. A hit returns the stored style and
     * changes nothing. A miss resolves the references against the current tables and stores the
     * result under the key; a `TypeError` leaves the cache as it was.
     */
    method ProcessStyle(t: Tokens, refs: seq<ClassRef>) returns (r: Result<Entries<Value>, TypeError>)
      requires baseCache.Some?
      modifies this`styleCache
      ensures var key := CacheKey(refs);
        && (key in old(styleCache) ==> r == Ok(old(styleCache)[key]) && styleCache == old(styleCache))
        && (key !in old(styleCache) ==>
              && r == Resolve(t, baseCache.value, viewCache, refs)
              && styleCache == if r.Ok? then old(styleCache)[key := r.value] else old(styleCache))
    {
      var key := CacheKey(refs);
      if key in styleCache {
        return Ok(styleCache[key]);
      }
      var base := baseCache.value;
      var style: Entries<Value> := [];
      var i := 0;
      while i < |refs|
        invariant 0 <= i <= |refs|
        invariant styleCache == old(styleCache)
        invariant ResolveFrom(t, base, viewCache, style, refs[i..]) == Resolve(t, base, viewCache, refs)
      {
        assert refs[i..][1..] == refs[i + 1..];
        match refs[i] {
          case Name(n) =>
            if n in base {
              style := CopyEntries(style, base[n]);
            } else if viewCache.None? {
              return Err(NoViewTable(n));
            } else if n in viewCache.value {
              style := CopyEntries(style, viewCache.value[n]);
            } else {
              assert PutAll(style, []) == style;
            }
          case Bespoke(_, p, v) =>
            assert PutAll(style, [(CanonicalKey(p), TransformValue(t, p, v))])
                == Put(style, CanonicalKey(p), TransformValue(t, p, v));
            if KindOf(p) != Verbatim {
              style := Put(style, CanonicalKey(p), TransformValue(t, p, v));
            } else {
              VerbatimKeyKept(p);
              style := Put(style, p, v);
            }
        }
        i := i + 1;
      }
      styleCache := styleCache[key := style];
      return Ok(style);
    }

    /**
     * `useSafeStyle(theme)`: builds the class tables when the view table is unset, and captures
     * `theme` in the accessors only on the first call. Returns the theme the accessors use.
     */
    method UseSafeStyle(theme: Schema) returns (captured: Schema)
      requires Valid()
      modifies this`viewCache, this`baseCache, this`source, this`accessor
      ensures Valid()
      ensures old(viewCache).None? ==>
        && source == Some(theme)
        && baseCache == Some(BaseTable(theme.tokens, theme.baseClasses))
        && viewCache == Some(ViewTable(theme.tokens, baseCache.value, theme.views).0)
      ensures old(viewCache).Some? ==>
        viewCache == old(viewCache) && baseCache == old(baseCache) && source == old(source)
      ensures accessor == Some(captured)
      ensures captured == if old(accessor).Some? then old(accessor).value else theme
    {
      if viewCache.None? {
        var _ := BuildClassCache(theme);
      }
      if accessor.None? {
        accessor := Some(theme);
      }
      captured := accessor.value;
    }

    /**
     * The `view(classes)` accessor: resolves the captured theme's default classes followed by
     * `classes`, through the style cache.
     */
    method View(classes: seq<ClassRef>) returns (r: Result<Entries<Value>, TypeError>)
      requires Valid() && accessor.Some?
      modifies this`styleCache
      ensures Valid()
      ensures var refs := ViewRefs(accessor.value, classes);
        var key := CacheKey(refs);
        && (key in old(styleCache) ==> r == Ok(old(styleCache)[key]) && styleCache == old(styleCache))
        && (key !in old(styleCache) ==>
              && r == Resolve(accessor.value.tokens, baseCache.value, viewCache, refs)
              && styleCache == if r.Ok? then old(styleCache)[key := r.value] else old(styleCache))
    {
      r := ProcessStyle(accessor.value.tokens, ViewRefs(accessor.value, classes));
    }

    /** The `color(name)` accessor: a lookup in the captured theme's colours. */
    function Color(c: string): (r: Option<string>)
      reads this
      requires accessor.Some?
      ensures r.Some? <==> c in accessor.value.tokens.colors
      ensures r.Some? ==> r.value == accessor.value.tokens.colors[c]
    {
      if c in accessor.value.tokens.colors then Some(accessor.value.tokens.colors[c]) else None
    }

    /** The `spacing(name)` accessor: a lookup in the captured theme's spacing scale. */
    function Spacing(s: string): (r: Option<Value>)
      reads this
      requires accessor.Some?
      ensures r.Some? <==> s in accessor.value.tokens.spacing
      ensures r.Some? ==> r.value == accessor.value.tokens.spacing[s]
    {
      if s in accessor.value.tokens.spacing then Some(accessor.value.tokens.spacing[s]) else None
    }
  }

  /**
   * A theme change (`SafeStyleProvider` clears the cache, the next `useSafeStyle` rebuilds)
   * recompiles the class tables from the new theme, but the accessors keep the first theme:
   * colours still come from it.
   */
  method ColorAfterThemeChange(first: Schema, second: Schema, c: string)
    returns (before: Option<string>, after: Option<string>)
    ensures before == after
    ensures before.Some? <==> c in first.tokens.colors
    ensures after == if c in first.tokens.colors then Some(first.tokens.colors[c]) else None
  {
    var rt := new StyleRuntime();
    var _ := rt.UseSafeStyle(first);
    before := rt.Color(c);
    rt.ClearCache();
    var _ := rt.UseSafeStyle(second);
    after := rt.Color(c);
  }

  /**
   * After a theme change the first `view` call resolves against tables compiled from the new
   * theme, but applies the first theme's default classes and resolves inline overrides with the
   * first theme's tokens.
   */
  method ViewAfterThemeChange(first: Schema, second: Schema, classes: seq<ClassRef>)
    returns (r: Result<Entries<Value>, TypeError>)
    ensures var base := BaseTable(second.tokens, second.baseClasses);
      r == Resolve(first.tokens, base, Some(ViewTable(second.tokens, base, second.views).0), ViewRefs(first, classes))
  {
    var rt := new StyleRuntime();
    var _ := rt.UseSafeStyle(first);
    rt.ClearCache();
    var _ := rt.UseSafeStyle(second);
    r := rt.View(classes);
  }

  /** A repeated `view` call with the same classes returns the stored style and stores nothing. */
  method ViewMemoised(theme: Schema, classes: seq<ClassRef>)
    returns (first: Result<Entries<Value>, TypeError>, second: Result<Entries<Value>, TypeError>)
    ensures first.Ok? ==> second == first
    ensures var base := BaseTable(theme.tokens, theme.baseClasses);
      first == Resolve(theme.tokens, base, Some(ViewTable(theme.tokens, base, theme.views).0), ViewRefs(theme, classes))
  {
    var rt := new StyleRuntime();
    var _ := rt.UseSafeStyle(theme);
    first := rt.View(classes);
    second := rt.View(classes);
  }
}
