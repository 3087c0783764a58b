/**
 * The theme schema that `startTheme` builds (`src/buildStyle.ts`): tokens, the raw base-class and
 * view declarations, the default class list, and the derived name sets. Also the class reference
 * a `view()` call receives.
 */
module Theme {
  import opened Wrappers
  import opened OrderedMap
  import opened StyleProps

  /** One piece of a view declaration: the name of a base class, or literal properties. */
  datatype StylePiece = ClassName(name: string) | Props(props: Entries<Value>)

  /** A view declaration: a single piece, or an array of pieces. */
  datatype StyleStructure = Single(piece: StylePiece) | Many(pieces: seq<StylePiece>)

  /** `Array.isArray(s) ? s : [s]`. */
  function Pieces(s: StyleStructure): (ps: seq<StylePiece>)
    ensures s.Single? ==> ps == [s.piece]
    ensures s.Many? ==> ps == s.pieces
  {
    match s
    case Single(p) => [p]
    case Many(ps) => ps
  }

  /** `theme.defaultClasses`: only the `view` channel exists. */
  datatype DefaultClasses = DefaultClasses(view: Option<seq<string>>)

  /** What `addClasses` returns. */
  datatype Schema = Schema(
    tokens: Tokens,
    defaultClasses: DefaultClasses,
    baseClasses: Entries<Entries<Value>>,
    views: Entries<StyleStructure>,
    baseKeys: set<string>,
    viewKeys: set<string>,
    allKeys: set<string>)

  /** A reference in a `view()` call: a class name, or an inline override (`ClassKey`). */
  datatype ClassRef = Name(name: string) | Bespoke(key: string, property: string, value: Value)

  /** The string a reference contributes to the cache key. */
  function Identity(r: ClassRef): string
  {
    match r
    case Name(n) => n
    case Bespoke(key, _, _) => key
  }

  // The staged builder: each stage only offers the next one.

  datatype ThemeStart = ThemeStart(tokens: Tokens)

  datatype WithBaseClasses = WithBaseClasses(tokens: Tokens, baseClasses: Entries<Entries<Value>>)

  datatype WithDefaults = WithDefaults(
    tokens: Tokens, baseClasses: Entries<Entries<Value>>, defaultClasses: DefaultClasses)

  function StartTheme(tokens: Tokens): ThemeStart
  {
    ThemeStart(tokens)
  }

  function AddBaseClasses(s: ThemeStart, baseClasses: Entries<Entries<Value>>): WithBaseClasses
  {
    WithBaseClasses(s.tokens, baseClasses)
  }

  function AddDefaultClasses(s: WithBaseClasses, defaultClasses: DefaultClasses): WithDefaults
  {
    WithDefaults(s.tokens, s.baseClasses, defaultClasses)
  }

  function AddClasses(s: WithDefaults, views: Entries<StyleStructure>): Schema
  {
    var baseKeys := KeySet(s.baseClasses);
    var viewKeys := KeySet(views);
    Schema(s.tokens, s.defaultClasses, s.baseClasses, views, baseKeys, viewKeys, baseKeys + viewKeys)
  }

  /** The whole chain `startTheme(t).addBaseClasses(b).addDefaultClasses(d).addClasses(v)`. */
  function BuildTheme(
    tokens: Tokens, baseClasses: Entries<Entries<Value>>, defaultClasses: DefaultClasses,
    views: Entries<StyleStructure>): Schema
  {
    AddClasses(AddDefaultClasses(AddBaseClasses(StartTheme(tokens), baseClasses), defaultClasses), views)
  }

  /**
   * The schema carries tokens and declarations unchanged; `allKeys` is `baseKeys` and `viewKeys`
   * together, and those are exactly the declared base-class and view names.
   */
  lemma BuildThemeKeys(
    tokens: Tokens, baseClasses: Entries<Entries<Value>>, defaultClasses: DefaultClasses,
    views: Entries<StyleStructure>)
    ensures var s := BuildTheme(tokens, baseClasses, defaultClasses, views);
      && s.tokens == tokens && s.baseClasses == baseClasses
      && s.views == views && s.defaultClasses == defaultClasses
      && s.allKeys == s.baseKeys + s.viewKeys
      && (forall n :: n in s.baseKeys <==> exists i :: 0 <= i < |baseClasses| && baseClasses[i].0 == n)
      && (forall n :: n in s.viewKeys <==> exists i :: 0 <= i < |views| && views[i].0 == n)
  {
  }
}
