/**
 * The property transform table of `src/styleProps.ts`: which style properties resolve their value
 * through a token table of the theme, which shorthand keys are renamed, and the two published key
 * sets `transformKeys` and `allProperties`. The source declares each property family as an object
 * literal and fills dictionaries of closures at load time; here each family is its list of keys in
 * declaration order, and each resolver is one case of the closed enumeration `PropKind`.
 */
module StyleProps {
  import opened Wrappers

  /**
   * A style or prop value. Numbers are opaque and carried by their JavaScript string rendering,
   * which is also what `${value}` and a property lookup `obj[value]` use.
   */
  datatype Value =
    | Str(s: string)
    | Num(repr: string)
    | Bool(b: bool)
    | Opaque(repr: string)   // any other prop value: children, callbacks, `undefined`

  /** The string JavaScript makes of a value in a template literal or a property key. */
  function Text(v: Value): string
  {
    match v
    case Str(s) => s
    case Num(repr) => repr
    case Bool(b) => if b then "true" else "false"
    case Opaque(repr) => repr
  }

  /** The design tokens a theme carries: colour, spacing and border-radius tables. */
  datatype Tokens = Tokens(
    colors: map<string, string>,
    spacing: map<string, Value>,
    borderRadii: map<string, Value>)

  // The property families, each in declaration order.

  const SpacingProperties: seq<string> := [
    "margin", "marginTop", "marginRight", "marginBottom", "marginLeft",
    "marginHorizontal", "marginVertical",
    "padding", "paddingTop", "paddingRight", "paddingBottom", "paddingLeft",
    "paddingHorizontal", "paddingVertical"]

  /** `spacingPropertiesShorthand`: each two-letter alias with the long name it stands for. */
  const SpacingShorthands: seq<(string, string)> := [
    ("m", "margin"), ("mt", "marginTop"), ("mr", "marginRight"), ("mb", "marginBottom"),
    ("ml", "marginLeft"), ("mh", "marginHorizontal"), ("mv", "marginVertical"),
    ("p", "padding"), ("pt", "paddingTop"), ("pr", "paddingRight"), ("pb", "paddingBottom"),
    ("pl", "paddingLeft"), ("ph", "paddingHorizontal"), ("pv", "paddingVertical")]

  const TypographyProperties: seq<string> := [
    "fontFamily", "fontSize", "fontStyle", "fontWeight", "letterSpacing", "lineHeight",
    "textAlign", "textDecorationLine", "textDecorationStyle", "textTransform"]

  const LayoutProperties: seq<string> := [
    "width", "height", "minWidth", "maxWidth", "minHeight", "maxHeight", "overflow",
    "aspectRatio", "alignContent", "alignItems", "alignSelf", "justifyContent", "flex",
    "flexBasis", "flexDirection", "flexGrow", "flexShrink", "flexWrap"]

  const PositionProperties: seq<string> := ["position", "top", "right", "bottom", "left", "zIndex"]

  const BorderProperties: seq<string> := [
    "borderBottomWidth", "borderLeftWidth", "borderRightWidth", "borderStyle",
    "borderTopWidth", "borderWidth"]

  const BorderRadiusProperties: seq<string> := [
    "borderRadius", "borderBottomLeftRadius", "borderBottomRightRadius",
    "borderTopLeftRadius", "borderTopRightRadius"]

  const BorderColorProperties: seq<string> := [
    "borderColor", "borderTopColor", "borderRightColor", "borderLeftColor", "borderBottomColor"]

  /** The two colour properties registered one by one, ahead of the families. */
  const ColorBasics: seq<string> := ["backgroundColor", "color"]

  // The same families as sets, for stating facts about them.

  const SpacingKeys: set<string> := set k | k in SpacingProperties

  /** The aliases of `spacingPropertiesShorthand`. */
  const ShorthandKeys: set<string> := set p | p in SpacingShorthands :: p.0

  const TypographyKeys: set<string> := set k | k in TypographyProperties

  const LayoutKeys: set<string> := set k | k in LayoutProperties

  const PositionKeys: set<string> := set k | k in PositionProperties

  const BorderKeys: set<string> := set k | k in BorderProperties

  const RadiusKeys: set<string> := set k | k in BorderRadiusProperties

  /** The keys whose resolver reads `theme.colors`. */
  const ColorKeys: set<string> := set k | k in ColorBasics + BorderColorProperties

  /**
   * `transformKeys`: every key the source gives a resolver (the two colour basics, the radius,
   * spacing, shorthand and border-colour families).
   */
  const TransformKeys: set<string> := ColorKeys + RadiusKeys + SpacingKeys + ShorthandKeys

  /** `allProperties`: the seven families and `transformKeys`. */
  const AllProperties: set<string> :=
    (set k | k in SpacingProperties + TypographyProperties + LayoutProperties + PositionProperties
                  + BorderProperties + BorderRadiusProperties + BorderColorProperties)
    + TransformKeys

  /** Whether `key` is one of `keys`, looked up one entry at a time. */
  predicate Listed(key: string, keys: seq<string>)
  {
    keys != [] && (keys[0] == key || Listed(key, keys[1..]))
  }

  lemma {:induction false} ListedIsMembership(key: string, keys: seq<string>)
    ensures Listed(key, keys) <==> key in keys
  {
    if keys != [] {
      ListedIsMembership(key, keys[1..]);
      assert keys == [keys[0]] + keys[1..];
    }
  }

  /** `spacingPropertiesShorthand[key]`: the long name an alias stands for, if it is one. */
  function AliasOf(key: string, pairs: seq<(string, string)>): Option<string>
  {
    if pairs == [] then None
    else if pairs[0].0 == key then Some(pairs[0].1)
    else AliasOf(key, pairs[1..])
  }

  /** An alias is found exactly when some pair declares it, and names that pair's long name. */
  lemma {:induction false} AliasOfMeaning(key: string, pairs: seq<(string, string)>)
    ensures AliasOf(key, pairs).Some? <==> exists p :: p in pairs && p.0 == key
    ensures AliasOf(key, pairs).Some? ==> (key, AliasOf(key, pairs).value) in pairs
  {
    if pairs != [] {
      AliasOfMeaning(key, pairs[1..]);
      assert pairs == [pairs[0]] + pairs[1..];
    }
  }

  /** Which token table a property's resolver reads, if it has a resolver at all. */
  datatype PropKind = ColorToken | SpacingToken | RadiusToken | Verbatim

  /** The resolver registered for `key` in `transformProperty` (`Verbatim`: none). */
  function KindOf(key: string): PropKind
  {
    if Listed(key, ColorBasics) || Listed(key, BorderColorProperties) then ColorToken
    else if Listed(key, BorderRadiusProperties) then RadiusToken
    else if Listed(key, SpacingProperties) || AliasOf(key, SpacingShorthands).Some? then SpacingToken
    else Verbatim
  }

  /**
   * `transformPropertyKey[key] || key`: the key a property is stored under. Only the fourteen
   * shorthands are renamed.
   */
  function CanonicalKey(key: string): string
  {
    var alias := AliasOf(key, SpacingShorthands);
    if alias.Some? then alias.value else key
  }

  // Facts about the literal key tables, each small enough for the solver on its own.

  lemma ShorthandLengths()
    ensures forall k :: k in ShorthandKeys ==> |k| <= 2
  {
  }

  lemma SpacingLengths()
    ensures forall k :: k in SpacingKeys ==> |k| >= 6
  {
  }

  lemma ShorthandTargets()
    ensures forall p :: p in SpacingShorthands ==> p.1 in SpacingKeys
  {
  }

  lemma SpacingApartFromColor()
    ensures SpacingKeys !! ColorKeys
  {
  }

  lemma ShorthandsApartFromColor()
    ensures ShorthandKeys !! ColorKeys
  {
  }

  lemma SpacingApartFromRadius()
    ensures SpacingKeys !! RadiusKeys
  {
  }

  lemma ShorthandsApartFromRadius()
    ensures ShorthandKeys !! RadiusKeys
  {
  }

  lemma RadiusApartFromColor()
    ensures RadiusKeys !! ColorKeys
  {
  }

  /** A key is an alias exactly when it is in `spacingPropertiesShorthand`. */
  lemma AliasIffShorthand(key: string)
    ensures AliasOf(key, SpacingShorthands).Some? <==> key in ShorthandKeys
  {
    AliasOfMeaning(key, SpacingShorthands);
  }

  /** A colour key reads `theme.colors`. */
  lemma KindOfColor(key: string)
    ensures KindOf(key) == ColorToken <==> key in ColorKeys
  {
    ListedIsMembership(key, ColorBasics);
    ListedIsMembership(key, BorderColorProperties);
  }

  /** A radius key reads `theme.borderRadii`: colour and radius keys are apart. */
  lemma KindOfRadius(key: string)
    ensures KindOf(key) == RadiusToken <==> key in RadiusKeys
  {
    KindOfColor(key);
    ListedIsMembership(key, BorderRadiusProperties);
    RadiusApartFromColor();
  }

  /** A spacing key or a shorthand reads `theme.spacing`. */
  lemma KindOfSpacing(key: string)
    ensures KindOf(key) == SpacingToken <==> key in SpacingKeys || key in ShorthandKeys
  {
    KindOfColor(key);
    KindOfRadius(key);
    ListedIsMembership(key, SpacingProperties);
    AliasIffShorthand(key);
    SpacingApartFromColor();
    ShorthandsApartFromColor();
    SpacingApartFromRadius();
    ShorthandsApartFromRadius();
  }

  /** A key has a resolver exactly when it is in `transformKeys`. */
  lemma KindOfVerbatim(key: string)
    ensures KindOf(key) == Verbatim <==> key !in TransformKeys
  {
    KindOfColor(key);
    KindOfRadius(key);
    KindOfSpacing(key);
  }

  /** Every shorthand is renamed to a long spacing name. */
  lemma ShorthandTarget(key: string)
    requires key in ShorthandKeys
    ensures CanonicalKey(key) in SpacingKeys
  {
    AliasIffShorthand(key);
    AliasOfMeaning(key, SpacingShorthands);
    ShorthandTargets();
  }

  /** Only the fourteen shorthands are renamed: no alias is its own long name. */
  lemma CanonicalKeyRenames(key: string)
    ensures CanonicalKey(key) != key <==> key in ShorthandKeys
  {
    AliasIffShorthand(key);
    if key in ShorthandKeys {
      ShorthandLengths();
      ShorthandTarget(key);
      SpacingLengths();
    }
  }

  /** Renaming is idempotent: a renamed key is never itself a shorthand. */
  lemma CanonicalKeyIdempotent(key: string)
    ensures CanonicalKey(CanonicalKey(key)) == CanonicalKey(key)
  {
    AliasIffShorthand(key);
    if key in ShorthandKeys {
      ShorthandTarget(key);
      ShorthandLengths();
      SpacingLengths();
      AliasIffShorthand(CanonicalKey(key));
    }
  }

  /** A key without a resolver is never renamed. */
  lemma VerbatimKeyKept(key: string)
    requires KindOf(key) == Verbatim
    ensures CanonicalKey(key) == key
  {
  }

  /** Look a value up in a token table under its string rendering; fall back to the raw value. */
  function Lookup(table: map<string, Value>, v: Value): (r: Value)
    ensures Text(v) in table ==> r == table[Text(v)]
    ensures Text(v) !in table ==> r == v
  {
    if Text(v) in table then table[Text(v)] else v
  }

  /** `transformProperty[key](theme, value)` for transform keys; other values are kept. */
  function TransformValue(t: Tokens, key: string, v: Value): (r: Value)
    ensures KindOf(key) == ColorToken ==> r == (if Text(v) in t.colors then Str(t.colors[Text(v)]) else v)
    ensures KindOf(key) == SpacingToken ==> r == Lookup(t.spacing, v)
    ensures KindOf(key) == RadiusToken ==> r == Lookup(t.borderRadii, v)
    ensures KindOf(key) == Verbatim ==> r == v
    ensures r != v ==> Text(v) in t.colors || Text(v) in t.spacing || Text(v) in t.borderRadii
  {
    match KindOf(key)
    case ColorToken =>
      if Text(v) in t.colors then Str(t.colors[Text(v)]) else v
    case SpacingToken => Lookup(t.spacing, v)
    case RadiusToken => Lookup(t.borderRadii, v)
    case Verbatim => v
  }

  /** A color key takes a value's entry in the theme's colors, as a string, or keeps the value. */
  lemma TransformColorKey(t: Tokens, key: string, v: Value)
    requires key in ColorKeys
    ensures Text(v) in t.colors ==> TransformValue(t, key, v) == Str(t.colors[Text(v)])
    ensures Text(v) !in t.colors ==> TransformValue(t, key, v) == v
  {
    KindOfColor(key);
  }

  /** A spacing key, long form or shorthand, takes a value's entry in the theme's spacing. */
  lemma TransformSpacingKey(t: Tokens, key: string, v: Value)
    requires key in SpacingKeys || key in ShorthandKeys
    ensures Text(v) in t.spacing ==> TransformValue(t, key, v) == t.spacing[Text(v)]
    ensures Text(v) !in t.spacing ==> TransformValue(t, key, v) == v
  {
    KindOfSpacing(key);
  }

  /** A border-radius key takes a value's entry in the theme's border radii. */
  lemma TransformRadiusKey(t: Tokens, key: string, v: Value)
    requires key in RadiusKeys
    ensures Text(v) in t.borderRadii ==> TransformValue(t, key, v) == t.borderRadii[Text(v)]
    ensures Text(v) !in t.borderRadii ==> TransformValue(t, key, v) == v
  {
    KindOfRadius(key);
  }

  /** A shorthand stores exactly what its long form stores, under the same key, for every value. */
  lemma ShorthandAgreesWithLongForm(t: Tokens, key: string, v: Value)
    requires key in ShorthandKeys
    ensures CanonicalKey(CanonicalKey(key)) == CanonicalKey(key)
    ensures TransformValue(t, key, v) == TransformValue(t, CanonicalKey(key), v)
  {
    ShorthandTarget(key);
    CanonicalKeyIdempotent(key);
    KindOfSpacing(key);
    KindOfSpacing(CanonicalKey(key));
  }

  /** No alias is declared twice with different long names. */
  lemma ShorthandsFunctional()
    ensures forall i, j :: 0 <= i < j < |SpacingShorthands| ==> SpacingShorthands[i].0 != SpacingShorthands[j].0
  {
  }

  /** A declared alias is a shorthand renamed to its long name. */
  lemma ShorthandFor(alias: string, long: string)
    requires (alias, long) in SpacingShorthands
    ensures alias in ShorthandKeys && CanonicalKey(alias) == long
  {
    AliasOfMeaning(alias, SpacingShorthands);
    ShorthandsFunctional();
    var found := AliasOf(alias, SpacingShorthands).value;
    var i :| 0 <= i < |SpacingShorthands| && SpacingShorthands[i] == (alias, long);
    var j :| 0 <= j < |SpacingShorthands| && SpacingShorthands[j] == (alias, found);
    assert i == j;
  }

  /** Every long spacing name has a shorthand. */
  lemma ShorthandsCoverSpacing()
    ensures forall k :: k in SpacingKeys ==> exists a :: a in ShorthandKeys && CanonicalKey(a) == k
  {
    forall k | k in SpacingKeys ensures exists a :: a in ShorthandKeys && CanonicalKey(a) == k {
      if k == "margin" { ShorthandFor("m", k); }
      else if k == "marginTop" { ShorthandFor("mt", k); }
      else if k == "marginRight" { ShorthandFor("mr", k); }
      else if k == "marginBottom" { ShorthandFor("mb", k); }
      else if k == "marginLeft" { ShorthandFor("ml", k); }
      else if k == "marginHorizontal" { ShorthandFor("mh", k); }
      else if k == "marginVertical" { ShorthandFor("mv", k); }
      else if k == "padding" { ShorthandFor("p", k); }
      else if k == "paddingTop" { ShorthandFor("pt", k); }
      else if k == "paddingRight" { ShorthandFor("pr", k); }
      else if k == "paddingBottom" { ShorthandFor("pb", k); }
      else if k == "paddingLeft" { ShorthandFor("pl", k); }
      else if k == "paddingHorizontal" { ShorthandFor("ph", k); }
      else { ShorthandFor("pv", k); }
    }
  }

  /** `allProperties` contains every transform key. */
  lemma TransformKeysArePublished()
    ensures TransformKeys <= AllProperties
  {
  }

  lemma OpacityNotInFamilies()
    ensures "opacity" !in SpacingProperties + TypographyProperties + LayoutProperties + PositionProperties
                          + BorderProperties + BorderRadiusProperties + BorderColorProperties
  {
  }

  lemma OpacityNotColorOrRadius()
    ensures "opacity" !in ColorKeys + RadiusKeys
  {
  }

  lemma OpacityNotSpacing()
    ensures "opacity" !in SpacingKeys + ShorthandKeys
  {
  }

  lemma OpacityNotTransformed()
    ensures "opacity" !in TransformKeys
  {
    OpacityNotColorOrRadius();
    OpacityNotSpacing();
  }

  /** `opacity` has a type but is not a recognised property, so it is never extracted. */
  lemma OpacityNotPublished()
    ensures "opacity" !in AllProperties
  {
    OpacityNotInFamilies();
    OpacityNotTransformed();
  }

  lemma TypographyApartFromColor()
    ensures TypographyKeys !! ColorKeys
  {
  }

  lemma TypographyApartFromRadius()
    ensures TypographyKeys !! RadiusKeys
  {
  }

  lemma TypographyApartFromSpacing()
    ensures TypographyKeys !! SpacingKeys
  {
  }

  lemma TypographyApartFromShorthands()
    ensures TypographyKeys !! ShorthandKeys
  {
  }

  lemma LayoutApartFromColor()
    ensures LayoutKeys !! ColorKeys
  {
  }

  lemma LayoutApartFromRadius()
    ensures LayoutKeys !! RadiusKeys
  {
  }

  lemma LayoutApartFromSpacing()
    ensures LayoutKeys !! SpacingKeys
  {
  }

  lemma LayoutApartFromShorthands()
    ensures LayoutKeys !! ShorthandKeys
  {
  }

  lemma PositionApartFromColor()
    ensures PositionKeys !! ColorKeys
  {
  }

  lemma PositionApartFromRadius()
    ensures PositionKeys !! RadiusKeys
  {
  }

  lemma PositionApartFromSpacing()
    ensures PositionKeys !! SpacingKeys
  {
  }

  lemma PositionApartFromShorthands()
    ensures PositionKeys !! ShorthandKeys
  {
  }

  lemma BorderWidthApartFromColor()
    ensures BorderKeys !! ColorKeys
  {
  }

  lemma BorderWidthApartFromRadius()
    ensures BorderKeys !! RadiusKeys
  {
  }

  lemma BorderWidthApartFromSpacing()
    ensures BorderKeys !! SpacingKeys
  {
  }

  lemma BorderWidthApartFromShorthands()
    ensures BorderKeys !! ShorthandKeys
  {
  }

  /** Typography, layout, position and border-width keys have no resolver. */
  lemma UntransformedFamilies()
    ensures TypographyKeys !! TransformKeys && LayoutKeys !! TransformKeys
    ensures PositionKeys !! TransformKeys && BorderKeys !! TransformKeys
  {
    TypographyApartFromColor();
    TypographyApartFromRadius();
    TypographyApartFromSpacing();
    TypographyApartFromShorthands();
    LayoutApartFromColor();
    LayoutApartFromRadius();
    LayoutApartFromSpacing();
    LayoutApartFromShorthands();
    PositionApartFromColor();
    PositionApartFromRadius();
    PositionApartFromSpacing();
    PositionApartFromShorthands();
    BorderWidthApartFromColor();
    BorderWidthApartFromRadius();
    BorderWidthApartFromSpacing();
    BorderWidthApartFromShorthands();
  }
}
