/**
 * What `processStyle` (`src/buildStyle.ts`) computes on a cache miss, and the cache key it uses,
 * as functions: references are merged left to right, last write wins. The loop itself is
 * `Runtime.StyleRuntime.ProcessStyle`.
 */
module Resolution {
  import opened Wrappers
  import opened OrderedMap
  import opened StyleProps
  import opened Theme
  import opened ClassCompiler

  /**
   * The writes one reference makes. A name is looked up in the base classes first, then in the
   * views; a name in neither contributes nothing (it is only warned about), unless there is no
   * view table at all, where the lookup itself raises a `TypeError`. An inline override writes its
   * one transformed property.
   */
  function RefWrites(
    t: Tokens, base: map<string, Entries<Value>>, views: Option<map<string, Entries<Value>>>, r: ClassRef)
    : Result<Entries<Value>, TypeError>
  {
    match r
    case Name(n) =>
      if n in base then Ok(base[n])
      else if views.None? then Err(NoViewTable(n))
      else if n in views.value then Ok(views.value[n])
      else Ok([])
    case Bespoke(_, p, v) => Ok([(CanonicalKey(p), TransformValue(t, p, v))])
  }

  /** The `for (const c of classes)` loop of `processStyle`, from accumulator `acc`. */
  function ResolveFrom(
    t: Tokens, base: map<string, Entries<Value>>, views: Option<map<string, Entries<Value>>>,
    acc: Entries<Value>, refs: seq<ClassRef>)
    : Result<Entries<Value>, TypeError>
    decreases |refs|
  {
    if refs == [] then Ok(acc)
    else
      match RefWrites(t, base, views, refs[0])
      case Err(e) => Err(e)
      case Ok(w) => ResolveFrom(t, base, views, PutAll(acc, w), refs[1..])
  }

  /** The style a cache miss stores. */
  function Resolve(
    t: Tokens, base: map<string, Entries<Value>>, views: Option<map<string, Entries<Value>>>, refs: seq<ClassRef>)
    : Result<Entries<Value>, TypeError>
  {
    ResolveFrom(t, base, views, [], refs)
  }

  /** What one reference alone sets `k` to. */
  function RefValue(
    t: Tokens, base: map<string, Entries<Value>>, views: Option<map<string, Entries<Value>>>, r: ClassRef, k: string)
    : Option<Value>
  {
    match r
    case Name(n) =>
      if n in base then Get(base[n], k)
      else if views.Some? && n in views.value then Get(views.value[n], k)
      else None
    case Bespoke(_, p, v) => if CanonicalKey(p) == k then Some(TransformValue(t, p, v)) else None
  }

  /** The value of `k` in the last reference that sets it. */
  function LastRefValue(
    t: Tokens, base: map<string, Entries<Value>>, views: Option<map<string, Entries<Value>>>,
    refs: seq<ClassRef>, k: string)
    : Option<Value>
  {
    if refs == [] then None
    else
      var later := LastRefValue(t, base, views, refs[1..], k);
      if later.Some? then later else RefValue(t, base, views, refs[0], k)
  }

  /** The index of the first name that is not a base class, or `|refs|`. */
  function FirstNonBase(base: map<string, Entries<Value>>, refs: seq<ClassRef>): (i: nat)
    ensures i <= |refs|
  {
    if refs == [] then 0
    else if refs[0].Name? && refs[0].name !in base then 0
    else 1 + FirstNonBase(base, refs[1..])
  }

  ghost predicate TablesUnique(base: map<string, Entries<Value>>, views: Option<map<string, Entries<Value>>>)
  {
    TableUnique(base) && (views.Some? ==> TableUnique(views.value))
  }

  /**
   * Resolution fails exactly when there is no view table and some name is not a base class, with
   * the first such name; otherwise each key holds its value from the last reference that sets it,
   * or else its value in `acc`.
   */
  lemma {:induction false} ResolveFromMeaning(
    t: Tokens, base: map<string, Entries<Value>>, views: Option<map<string, Entries<Value>>>,
    acc: Entries<Value>, refs: seq<ClassRef>, k: string)
    requires TablesUnique(base, views)
    ensures var r := ResolveFrom(t, base, views, acc, refs);
      var i := FirstNonBase(base, refs);
      && (r.Err? <==> views.None? && i < |refs|)
      && (r.Err? ==> refs[i].Name? && r.error == NoViewTable(refs[i].name))
      && (r.Ok? ==> Get(r.value, k) == if LastRefValue(t, base, views, refs, k).Some?
                                      then LastRefValue(t, base, views, refs, k) else Get(acc, k))
    decreases |refs|
  {
    if refs != [] {
      match RefWrites(t, base, views, refs[0])
      case Err(e) =>
      case Ok(w) =>
        ResolveFromMeaning(t, base, views, PutAll(acc, w), refs[1..], k);
        PutAllGet(acc, w, k);
        RefWritesValue(t, base, views, refs[0], k);
    }
  }

  /** The writes of one reference set `k` last to that reference's own value of `k`. */
  lemma RefWritesValue(
    t: Tokens, base: map<string, Entries<Value>>, views: Option<map<string, Entries<Value>>>, r: ClassRef, k: string)
    requires TablesUnique(base, views)
    ensures RefWrites(t, base, views, r).Ok? ==> LastWrite(RefWrites(t, base, views, r).value, k) == RefValue(t, base, views, r, k)
  {
    match r
    case Name(n) =>
      if n in base {
        LastWriteOfMap(base[n], k);
      } else if views.Some? && n in views.value {
        LastWriteOfMap(views.value[n], k);
      }
    case Bespoke(_, p, v) =>
  }

  /** The first index where `P` fails, in the quantified form used by callers. */
  lemma {:induction false} FirstNonBaseSound(base: map<string, Entries<Value>>, refs: seq<ClassRef>)
    ensures var i := FirstNonBase(base, refs);
      (i < |refs| <==> exists j :: 0 <= j < |refs| && refs[j].Name? && refs[j].name !in base)
      && (i < |refs| ==> refs[i].Name? && refs[i].name !in base)
      && (forall j :: 0 <= j < i ==> !(refs[j].Name? && refs[j].name !in base))
  {
    if refs != [] && !(refs[0].Name? && refs[0].name !in base) {
      FirstNonBaseSound(base, refs[1..]);
      forall j | 0 < j < FirstNonBase(base, refs)
        ensures !(refs[j].Name? && refs[j].name !in base)
      {
        assert refs[1..][j - 1] == refs[j];
      }
      if exists j :: 0 <= j < |refs| && refs[j].Name? && refs[j].name !in base {
        var j :| 0 <= j < |refs| && refs[j].Name? && refs[j].name !in base;
        assert refs[1..][j - 1] == refs[j];
      }
      if FirstNonBase(base, refs[1..]) < |refs[1..]| {
        assert refs[1..][FirstNonBase(base, refs[1..])] == refs[FirstNonBase(base, refs)];
      }
    }
  }

  /**
   * On a miss the stored style maps each key to its value in the last reference that sets it.
   * It can only fail when there is no view table, and then only for a name that is not a base
   * class; with a view table resolution never fails.
   */
  lemma ResolveMeaning(
    t: Tokens, base: map<string, Entries<Value>>, views: Option<map<string, Entries<Value>>>,
    refs: seq<ClassRef>, k: string)
    requires TablesUnique(base, views)
    ensures var r := Resolve(t, base, views, refs);
      && (r.Err? <==> views.None? && exists j :: 0 <= j < |refs| && refs[j].Name? && refs[j].name !in base)
      && (r.Ok? ==> Get(r.value, k) == LastRefValue(t, base, views, refs, k))
  {
    ResolveFromMeaning(t, base, views, [], refs, k);
    FirstNonBaseSound(base, refs);
  }

  /** Resolving a concatenation resolves the second part on top of the first. */
  lemma {:induction false} ResolveFromAppend(
    t: Tokens, base: map<string, Entries<Value>>, views: Option<map<string, Entries<Value>>>,
    acc: Entries<Value>, a: seq<ClassRef>, b: seq<ClassRef>)
    ensures ResolveFrom(t, base, views, acc, a + b)
         == match ResolveFrom(t, base, views, acc, a)
            case Err(e) => Err(e)
            case Ok(x) => ResolveFrom(t, base, views, x, b)
    decreases |a|
  {
    if a == [] {
      assert a + b == b;
    } else {
      assert (a + b)[0] == a[0];
      assert (a + b)[1..] == a[1..] + b;
      match RefWrites(t, base, views, a[0])
      case Err(e) =>
      case Ok(w) => ResolveFromAppend(t, base, views, PutAll(acc, w), a[1..], b);
    }
  }

  /** A name that is neither a base class nor a view is skipped: it changes nothing. */
  lemma UnknownNameIgnored(
    t: Tokens, base: map<string, Entries<Value>>, views: Option<map<string, Entries<Value>>>,
    before: seq<ClassRef>, n: string, after: seq<ClassRef>)
    requires views.Some? && n !in base && n !in views.value
    ensures Resolve(t, base, views, before + [Name(n)] + after) == Resolve(t, base, views, before + after)
  {
    ResolveFromAppend(t, base, views, [], before + [Name(n)], after);
    ResolveFromAppend(t, base, views, [], before, [Name(n)]);
    ResolveFromAppend(t, base, views, [], before, after);
    match ResolveFrom(t, base, views, [], before)
    case Err(e) =>
    case Ok(x) =>
      assert ResolveFrom(t, base, views, x, [Name(n)]) == ResolveFrom(t, base, views, x, []);
  }

  /** An inline override placed last always decides its canonical key. */
  lemma BespokeWins(
    t: Tokens, base: map<string, Entries<Value>>, views: Option<map<string, Entries<Value>>>,
    refs: seq<ClassRef>, key: string, p: string, v: Value)
    ensures var r := Resolve(t, base, views, refs + [Bespoke(key, p, v)]);
      r.Ok? ==> Get(r.value, CanonicalKey(p)) == Some(TransformValue(t, p, v))
  {
    var b := Bespoke(key, p, v);
    ResolveFromAppend(t, base, views, [], refs, [b]);
    match ResolveFrom(t, base, views, [], refs)
    case Err(e) =>
    case Ok(x) =>
      var w := [(CanonicalKey(p), TransformValue(t, p, v))];
      assert RefWrites(t, base, views, b) == Ok(w);
      assert [b][1..] == [];
      assert ResolveFrom(t, base, views, x, [b]) == Ok(PutAll(x, w));
      assert PutAll(x, w) == Put(x, w[0].0, w[0].1);
  }

  /** `LastRefValue` over a concatenation: the second part wins where it sets the key. */
  lemma {:induction false} LastRefValueAppend(
    t: Tokens, base: map<string, Entries<Value>>, views: Option<map<string, Entries<Value>>>,
    a: seq<ClassRef>, b: seq<ClassRef>, k: string)
    ensures LastRefValue(t, base, views, a + b, k)
         == if LastRefValue(t, base, views, b, k).Some? then LastRefValue(t, base, views, b, k)
            else LastRefValue(t, base, views, a, k)
    decreases |a|
  {
    if a == [] {
      assert a + b == b;
    } else {
      assert (a + b)[0] == a[0];
      assert (a + b)[1..] == a[1..] + b;
      LastRefValueAppend(t, base, views, a[1..], b, k);
    }
  }

  /** The references a list of class names stands for. */
  function Names(ns: seq<string>): (refs: seq<ClassRef>)
    ensures |refs| == |ns|
    ensures forall i :: 0 <= i < |ns| ==> refs[i] == Name(ns[i])
  {
    if ns == [] then [] else [Name(ns[0])] + Names(ns[1..])
  }

  /**
   * Default classes are applied first: a key takes its value from the caller's references when
   * they set it, and from the defaults only otherwise.
   */
  lemma DefaultsOverridable(
    t: Tokens, base: map<string, Entries<Value>>, views: Option<map<string, Entries<Value>>>,
    defaults: seq<string>, refs: seq<ClassRef>, k: string)
    requires TablesUnique(base, views)
    ensures var r := Resolve(t, base, views, Names(defaults) + refs);
      r.Ok? ==> Get(r.value, k) == if LastRefValue(t, base, views, refs, k).Some?
                                   then LastRefValue(t, base, views, refs, k)
                                   else LastRefValue(t, base, views, Names(defaults), k)
  {
    ResolveMeaning(t, base, views, Names(defaults) + refs, k);
    LastRefValueAppend(t, base, views, Names(defaults), refs, k);
  }

  /** A resolved style never holds a key twice. */
  lemma {:induction false} ResolveFromUnique(
    t: Tokens, base: map<string, Entries<Value>>, views: Option<map<string, Entries<Value>>>,
    acc: Entries<Value>, refs: seq<ClassRef>)
    requires UniqueKeys(acc)
    ensures ResolveFrom(t, base, views, acc, refs).Ok? ==> UniqueKeys(ResolveFrom(t, base, views, acc, refs).value)
    decreases |refs|
  {
    if refs != [] {
      match RefWrites(t, base, views, refs[0])
      case Err(e) =>
      case Ok(w) =>
        PutAllUnique(acc, w);
        ResolveFromUnique(t, base, views, PutAll(acc, w), refs[1..]);
    }
  }

  // The cache key.

  /** `classes.map(e => typeof e === 'string' ? e : e.key)`. */
  function Identities(refs: seq<ClassRef>): (ids: seq<string>)
    ensures |ids| == |refs|
    ensures forall i :: 0 <= i < |refs| ==> ids[i] == Identity(refs[i])
  {
    if refs == [] then [] else [Identity(refs[0])] + Identities(refs[1..])
  }

  /** `Array.prototype.join(',')`. */
  function Join(parts: seq<string>): string
  {
    if parts == [] then ""
    else if |parts| == 1 then parts[0]
    else parts[0] + "," + Join(parts[1..])
  }

  /** The key a reference list is memoised under. */
  function CacheKey(refs: seq<ClassRef>): string
  {
    Join(Identities(refs))
  }

  /** Splitting at every comma: the inverse of `Join` on comma-free parts. */
  function Split(s: string): (parts: seq<string>)
    ensures |parts| >= 1
  {
    if s == [] then [""]
    else
      var rest := Split(s[1..]);
      if s[0] == ',' then [""] + rest else [[s[0]] + rest[0]] + rest[1..]
  }

  ghost predicate CommaFree(parts: seq<string>)
  {
    forall i :: 0 <= i < |parts| ==> ',' !in parts[i]
  }

  /** Splitting `a + suffix` for a comma-free `a` extends the first part of the suffix's split. */
  lemma {:induction false} SplitPrefix(a: string, suffix: string)
    requires ',' !in a
    ensures Split(a + suffix) == [a + Split(suffix)[0]] + Split(suffix)[1..]
    decreases |a|
  {
    if a != [] {
      assert (a + suffix)[0] == a[0];
      assert (a + suffix)[1..] == a[1..] + suffix;
      SplitPrefix(a[1..], suffix);
      assert [a[0]] + (a[1..] + Split(suffix)[0]) == a + Split(suffix)[0];
    } else {
      var parts := Split(suffix);
      assert a + suffix == suffix;
      assert a + parts[0] == parts[0];
      assert [parts[0]] + parts[1..] == parts;
    }
  }

  /** `Split` undoes `Join` on a non-empty list of comma-free parts. */
  lemma {:induction false} SplitJoin(parts: seq<string>)
    requires |parts| >= 1 && CommaFree(parts)
    ensures Split(Join(parts)) == parts
    decreases |parts|
  {
    if |parts| == 1 {
      SplitPrefix(parts[0], "");
      assert parts[0] + "" == parts[0];
    } else {
      assert CommaFree(parts[1..]) by {
        forall i | 0 <= i < |parts[1..]| ensures ',' !in parts[1..][i] {
          assert parts[1..][i] == parts[i + 1];
        }
      }
      SplitJoin(parts[1..]);
      SplitPrefix(parts[0], "," + Join(parts[1..]));
      assert ("," + Join(parts[1..]))[0] == ',';
      assert ("," + Join(parts[1..]))[1..] == Join(parts[1..]);
      assert parts[0] + ("," + Join(parts[1..])) == parts[0] + "," + Join(parts[1..]);
      assert parts[0] + "" == parts[0];
    }
  }

  /**
   * For non-empty reference lists whose identities contain no comma, equal cache keys mean equal
   * identity lists: such lists never share a cache entry by accident.
   */
  lemma CacheKeyDistinguishes(refs1: seq<ClassRef>, refs2: seq<ClassRef>)
    requires |refs1| >= 1 && |refs2| >= 1
    requires CommaFree(Identities(refs1)) && CommaFree(Identities(refs2))
    ensures CacheKey(refs1) == CacheKey(refs2) <==> Identities(refs1) == Identities(refs2)
  {
    if CacheKey(refs1) == CacheKey(refs2) {
      SplitJoin(Identities(refs1));
      SplitJoin(Identities(refs2));
    }
  }

  /** The key is not injective: a name containing a comma collides with a two-name list. */
  lemma CacheKeyCollision()
    ensures CacheKey([Name("a,b")]) == CacheKey([Name("a"), Name("b")])
    ensures Identities([Name("a,b")]) != Identities([Name("a"), Name("b")])
  {
    assert Identities([Name("a"), Name("b")]) == ["a", "b"];
    assert Identities([Name("a,b")]) == ["a,b"];
  }

  /** The empty list and the single empty name share the key `""` too. */
  lemma CacheKeyEmptyCollision()
    ensures CacheKey([]) == CacheKey([Name("")])
  {
    assert Identities([Name("")]) == [""];
  }
}
