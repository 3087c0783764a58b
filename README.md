# react-safe-style: the style-resolution engine in Dafny

react-safe-style lets a React Native app declare a theme, made of:

- design tokens: colours, spacing and border radii;
- named base classes;
- a default class list;
- named views, each built from base-class names and literal style objects.

Components then ask for a style by listing class names and inline overrides. This project models
the engine behind that. Each model stays close to its source.

- **Property transform table** (`src/styleProps.ts`, module `StyleProps`):
  - which properties resolve their value through a token table, and which table;
  - the fourteen two-letter spacing shorthands and the long names they are renamed to;
  - the published sets `transformKeys` and `allProperties`.
- **Theme builder** (`startTheme … addClasses`, module `Theme`): the staged builder and the schema
  it returns, with its derived key sets.
- **Class compiler** (`buildClassCache`, `parseStyleStructure`, module `ClassCompiler`):
  - base classes and views are compiled into property maps;
  - the last write wins, in declaration order;
  - a view that names a missing base class throws. The throw is caught, and the views compiled
    before it are kept.
- **Resolution** (`processStyle`, module `Resolution`):
  - references are merged left to right;
  - a reference name is looked up in the base classes first, then in the views;
  - inline overrides go through the transform table;
  - the memo key is the references joined with `,`.
- **Runtime** (module `Runtime`): the module globals `vStyleCache`, `vClassCache`,
  `baseClassCache` and `functionCache` become the fields of class `StyleRuntime`. Its methods are:
  - `clearCache`;
  - `buildClassCache` and `parseStyleStructure`, which fill maps in loops;
  - `processStyle`;
  - `useSafeStyle` and the `view`, `color` and `spacing` accessors it returns.
- **Prop helpers** (module `PropHelpers`): `extractSafeStyleProps`, `mergeArrayObjects`,
  `makeUseBespokeStyle` and `flatMap`.

### How the model is built

**Ordered maps.** JavaScript `Map`s and plain objects are ordered. They are modelled as sequences
of `(key, value)` pairs (module `OrderedMap`):

- `Put` keeps an existing key in its place and appends a new key, as `Map.set` and property
  assignment do.
- `PutAll` is a run of such writes.

The class tables are only ever looked up and never iterated, so they are Dafny `map`s.

**Loops and their specifications.** Every loop of `src/buildStyle.ts` that updates a cache or an
accumulator is a method. Each method is proved equal to a specification function: a fold over the same input. Lemmas about that function state
what the source promises, such as last write wins, which error is thrown, and which keys are
present.

**Errors.** A thrown `TypeError` is a `Result` error, `TypeError`:

- `MissingBaseClass(name)`: `baseClassCache.get(piece)!` on an unknown name.
- `NoViewTable(name)`: `classCache.has` while `vClassCache` is unset.

Two kinds of loop are not methods:

- The load-time loops of `src/styleProps.ts:156-168` fill `transformProperty` and
  `transformPropertyKey` once. They are modelled by the pure functions `StyleProps.KindOf` and
  `StyleProps.CanonicalKey`, which say what those tables hold for every key.
- The `classes.map` calls of `src/buildStyle.ts:139` and `src/buildStyle.ts:343` compute a new
  array from an old one. They are modelled by the functions `Resolution.Identities` and
  `PropHelpers.PieceObjects`.

### Theme changes

`SafeStyleProvider` (`src/buildStyle.ts:214-219`) calls `clearCache` on mount and whenever its theme changes.
The next `useSafeStyle` then rebuilds the class tables from the new theme.

`functionCache` is written only once (`src/buildStyle.ts:193-195`), and its closures keep the
first theme. So after the rebuild:

- class tables come from the new theme;
- inline overrides, `defaultClasses`, `color` and `spacing` still read the first theme.

See `Runtime.ColorAfterThemeChange` and `Runtime.ViewAfterThemeChange`.

## Model

| member | source | states |
|---|---|---|
| OrderedMap.Get | src/buildStyle.ts:166 | reading a key of the style object that `mapToObj(style)` builds: the key is present exactly when some entry has it, and the value read is that entry's value |
| OrderedMap.Put | src/buildStyle.ts:147 | `set` gives the key the new value, leaves every other key's value alone, and adds the key to the key set |
| OrderedMap.PutOrder | src/buildStyle.ts:147 | `set` keeps the iteration order of an existing key and appends a new key last |
| OrderedMap.PutUnique | src/buildStyle.ts:147 | `set` never creates a second entry for a key |
| OrderedMap.PutAllGet | src/buildStyle.ts:146-148 | after a run of writes, a key holds its last write, or else what it held before |
| OrderedMap.PutAllKeys | src/buildStyle.ts:146-148 | a run of writes adds exactly the written keys |
| OrderedMap.PutAllAppend | src/buildStyle.ts:143-165 | writing two batches one after the other is writing their concatenation |
| OrderedMap.PutAllCopies | src/buildStyle.ts:107-109 | copying a duplicate-free map entry by entry onto one without its keys appends it unchanged |
| OrderedMap.LastWriteOfMap | src/buildStyle.ts:146-148 | in a duplicate-free map, the last write of a key is its value |
| OrderedMap.CopyEntries | src/buildStyle.ts:107-109 | the `forEach` copy loop is the run of writes of the source's entries, in order, over the target |
| OrderedMap.Remove | src/buildStyle.ts:315 | `delete` drops the key, leaves every other key's value alone, and changes nothing when the key is absent |
| OrderedMap.RemoveSingle | src/buildStyle.ts:321 | deleting a key that occurs once joins the entries before and after it, in order |
| StyleProps.KindOfColor | src/styleProps.ts:153-168 | exactly `backgroundColor`, `color` and the five border-colour keys resolve through `theme.colors` |
| StyleProps.KindOfRadius | src/styleProps.ts:156-158 | exactly the five border-radius keys resolve through `theme.borderRadii` |
| StyleProps.KindOfSpacing | src/styleProps.ts:159-165 | exactly the fourteen long spacing keys and the fourteen shorthands resolve through `theme.spacing` |
| StyleProps.KindOfVerbatim | src/styleProps.ts:149-169 | a key has a resolver if and only if it is in `transformKeys` |
| StyleProps.UntransformedFamilies | src/styleProps.ts:169 | no typography, layout, position or border-width key is in `transformKeys` |
| StyleProps.TransformValue | src/styleProps.ts:153-168 | a color key resolves a value through `theme.colors`, a spacing key through `theme.spacing`, a radius key through `theme.borderRadii`, each falling back to the raw value when the table has no entry; a key without a resolver keeps its value; a resolved value differs from the raw one only when the raw value is a key of one of the token tables |
| StyleProps.TransformColorKey | src/styleProps.ts:153-168 | for `backgroundColor`, `color` and the border-colour keys, a value in `theme.colors` becomes its colour string and any other value is kept |
| StyleProps.TransformSpacingKey | src/styleProps.ts:159-165 | for every spacing key, long form or shorthand, a value in `theme.spacing` becomes its entry and any other value is kept |
| StyleProps.TransformRadiusKey | src/styleProps.ts:156-158 | for every border-radius key, a value in `theme.borderRadii` becomes its entry and any other value is kept |
| StyleProps.Lookup | src/styleProps.ts:160 | `table[value] ?? value`: the table's entry when the value's text is a key, the raw value otherwise |
| StyleProps.ShorthandFor | src/styleProps.ts:21-36 | each declared alias, such as `mt` or `pv`, is a shorthand renamed to its declared long name |
| StyleProps.ShorthandTarget | src/styleProps.ts:162-165 | every shorthand is renamed to a long spacing name |
| StyleProps.CanonicalKeyRenames | src/styleProps.ts:162-165 | a key is renamed if and only if it is one of the fourteen shorthands |
| StyleProps.CanonicalKeyIdempotent | src/styleProps.ts:162-165 | renaming twice is renaming once |
| StyleProps.VerbatimKeyKept | src/styleProps.ts:152-165 | a key without a resolver is never renamed |
| StyleProps.ShorthandAgreesWithLongForm | src/styleProps.ts:159-165 | a shorthand stores the same value, under the same key, as its long form |
| StyleProps.ShorthandsCoverSpacing | src/styleProps.ts:5-36 | every long spacing name has a shorthand |
| StyleProps.TransformKeysArePublished | src/styleProps.ts:171-180 | `allProperties` contains every transform key |
| StyleProps.OpacityNotPublished | src/styleProps.ts:171-180 | `opacity` is not in `allProperties` |
| Theme.BuildThemeKeys | src/buildStyle.ts:25-37 | the schema carries tokens and declarations unchanged; `allKeys` is `baseKeys` and `viewKeys` together, and those are exactly the declared base-class and view names |
| ClassCompiler.ApplyPropsGet | src/buildStyle.ts:111-118 | after a style object's loop, each key holds the transformed value of the last property stored under it, or else its earlier value |
| ClassCompiler.CompileClassGet | src/buildStyle.ts:68-81 | a compiled base class gives each key the transformed value of the last declared property stored under it (`mt` then `marginTop`: the later wins) |
| ClassCompiler.CompileClassUnique | src/buildStyle.ts:68-81 | a compiled base class has no key twice |
| ClassCompiler.CompileFromMeaning | src/buildStyle.ts:105-120 | the piece loop throws if and only if some piece names a missing base class, with the first such name; otherwise each key holds the value of the last piece that sets it, or its earlier value |
| ClassCompiler.CompileViewMeaning | src/buildStyle.ts:101-121 | a view compiles if and only if none of its pieces names a missing base class; a single structure is one piece; each key holds the last piece's value |
| ClassCompiler.TransformedLiteral | src/buildStyle.ts:111-118 | properties with no shorthand key and no value naming a theme token are written under their own keys with their own values |
| ClassCompiler.LiteralViewRoundTrip | src/buildStyle.ts:101-121 | with no base classes, a view that is one object of distinct literal properties compiles to exactly those properties, in order; shorthand keys are excluded because they are renamed to their long form |
| ClassCompiler.FirstMissingSound | src/buildStyle.ts:107 | compilation stops early exactly when some piece names a missing base class; the stopping piece names one, and no earlier piece does |
| ClassCompiler.CompileFromUnique | src/buildStyle.ts:101-121 | a compiled view has no key twice |
| ClassCompiler.BaseTableKeys | src/buildStyle.ts:68-69 | the base table has exactly the declared base-class names |
| ClassCompiler.BaseTableValues | src/buildStyle.ts:68-81 | each base-class name maps to its compiled class |
| ClassCompiler.BaseTableUnique | src/buildStyle.ts:68-81 | no compiled base class has a key twice |
| ClassCompiler.CompiledPrefixMeaning | src/buildStyle.ts:83-85 | every view before the first failure compiles, and the view at it fails |
| ClassCompiler.ViewTableFromError | src/buildStyle.ts:83-88 | the build reports an error if and only if some view fails, and the error is the first failing view's |
| ClassCompiler.ViewTableFromKeys | src/buildStyle.ts:83-85 | the view loop adds exactly the names of the views before the first failing one |
| ClassCompiler.ViewTableMeaning | src/buildStyle.ts:64-88 | after the caught throw, the view table holds exactly the views before the failing one; the failing and later views are absent; the error is the failing view's |
| ClassCompiler.ViewTableFromValues | src/buildStyle.ts:83-85 | every view compiled before the failure is stored under its name as its compiled map |
| ClassCompiler.ViewTableKeep | src/buildStyle.ts:83-85 | the loop leaves alone an entry that no later view redeclares |
| ClassCompiler.ViewTableFromUnique | src/buildStyle.ts:83-85 | no compiled view has a key twice |
| Resolution.ResolveFromMeaning | src/buildStyle.ts:143-165 | the reference loop throws if and only if the view table is unset and some name is not a base class, with the first such name; otherwise each key holds the last reference's value for it |
| Resolution.FirstNonBaseSound | src/buildStyle.ts:145-149 | finds the index of the first reference that is a name but not a base class, if there is one, and no earlier reference is such a name; when the view table is unset, the loop throws there |
| Resolution.ResolveMeaning | src/buildStyle.ts:142-165 | a style resolves if and only if no lookup reaches an unset view table; each key holds the value of the last reference that sets it |
| Resolution.ResolveFromAppend | src/buildStyle.ts:143-165 | resolving two lists one after the other is resolving the second over the result of the first |
| Resolution.LastRefValueAppend | src/buildStyle.ts:143-165 | the last value of a key over two lists is the second list's, or else the first's |
| Resolution.UnknownNameIgnored | src/buildStyle.ts:153-155 | while the view table is set, a name in neither table contributes nothing and does not throw |
| Resolution.BespokeWins | src/buildStyle.ts:157-163 | a trailing inline override sets its renamed key to its transformed value, whatever came before |
| Resolution.DefaultsOverridable | src/buildStyle.ts:199 | with default classes prepended, each key holds the caller's last value, or else the defaults' |
| Resolution.ResolveFromUnique | src/buildStyle.ts:142-165 | a resolved style has no key twice |
| Resolution.SplitJoin | src/buildStyle.ts:139 | splitting a `,`-joined list of comma-free parts gives the parts back |
| Resolution.CacheKeyDistinguishes | src/buildStyle.ts:139 | for non-empty lists of comma-free identities, two cache keys are equal if and only if the identity lists are |
| Resolution.CacheKeyCollision | src/buildStyle.ts:139 | the class name `a,b` and the list `a`, `b` share a cache key |
| Resolution.CacheKeyEmptyCollision | src/buildStyle.ts:139 | the empty list and the list holding the empty name share a cache key |
| Runtime.ApplyProps | src/buildStyle.ts:111-118 | the style-object loop is the run of transformed writes over the map so far |
| Runtime.CompileBaseClasses | src/buildStyle.ts:68-81 | the base-class loop builds the base table |
| Runtime.ViewRefs | src/buildStyle.ts:199 | with default classes, the references are the defaults, each as a class name, followed by the caller's list unchanged; without them, the caller's list |
| Runtime.StyleRuntime.constructor | src/buildStyle.ts:47-50 | at load every cache is empty or unset |
| Runtime.StyleRuntime.ClearCache | src/buildStyle.ts:52-55 | the style cache is emptied and the view table unset; the base table and `functionCache` are left alone |
| Runtime.StyleRuntime.ParseStyleStructure | src/buildStyle.ts:91-122 | the piece loop computes the view's compilation, or the throw of its first missing base class |
| Runtime.StyleRuntime.BuildClassCache | src/buildStyle.ts:57-89 | both tables are rebuilt from the theme; the view table keeps the views compiled before a throw and is set even then |
| Runtime.StyleRuntime.ProcessStyle | src/buildStyle.ts:126-169 | on a hit, the stored style is returned and the cache is unchanged; on a miss, the resolved style is returned and stored under the key |
| Runtime.StyleRuntime.UseSafeStyle | src/buildStyle.ts:177-213 | the tables are built only while the view table is unset; the first theme's accessors are kept for good |
| Runtime.StyleRuntime.View | src/buildStyle.ts:196-204 | `view` resolves the captured theme's defaults and the caller's list through the cache |
| Runtime.StyleRuntime.Color | src/buildStyle.ts:205-207 | `color` returns the captured theme's colour token, and `undefined` for an unknown name |
| Runtime.StyleRuntime.Spacing | src/buildStyle.ts:208-210 | `spacing` returns the captured theme's spacing token, and `undefined` for an unknown name |
| Runtime.ColorAfterThemeChange | src/buildStyle.ts:193-207 | after `clearCache` and `useSafeStyle` with a second theme, `color(c)` still answers the first theme's `colors[c]` (absent when the first theme has no such colour), the same as before the change |
| Runtime.ViewAfterThemeChange | src/buildStyle.ts:190-204 | after the same change, `view` uses the second theme's class tables with the first theme's tokens and defaults |
| Runtime.ViewMemoised | src/buildStyle.ts:141-168 | when the first request for a list resolves, the second returns the same style; the first is the resolution through the theme's tables |
| PropHelpers.TestKey | src/buildStyle.ts:310-312 | with a truthy prefix only keys starting with it are examined, with the prefix stripped; otherwise every key, unchanged |
| PropHelpers.ExtractSafeStyleProps | src/buildStyle.ts:292-326 | the remaining props are those neither a class key nor a style key; the references are the class references followed by the overrides |
| PropHelpers.ExtractProps | src/buildStyle.ts:309-324 | the loop's deletes and pushes produce those remaining props and those two lists |
| PropHelpers.ClassNameRefsMeaning | src/buildStyle.ts:314-319 | a class reference is made exactly for a class key whose value is `true`, naming the stripped key |
| PropHelpers.OverrideRefsMeaning | src/buildStyle.ts:320-323 | an override is made exactly for a style key, with the stripped property, the value, and the key `"<original key>=<value>"` |
| PropHelpers.KeptMeaning | src/buildStyle.ts:305-324 | a prop is kept if and only if its key is neither a class key nor a style key |
| PropHelpers.KeptKeys | src/buildStyle.ts:305-324 | extraction never adds a prop key |
| PropHelpers.MergeArrayObjects | src/buildStyle.ts:360-368 | the merge loop writes every key of every item in order |
| PropHelpers.MergeMeaning | src/buildStyle.ts:360-368 | each key holds the value from the last item that has it, and only keys of some item are present |
| PropHelpers.MakeUseBespokeStyle | src/buildStyle.ts:328-349 | the `reduce` assigns each entry its merged pieces, in order |
| PropHelpers.BespokeTableInOrder | src/buildStyle.ts:341-347 | for distinct names the result lists every entry in declaration order |
| PropHelpers.BespokeNamesAreFlags | src/buildStyle.ts:342-343 | a structure of names only merges to `true` exactly for its names |
| PropHelpers.FlatMap | src/buildStyle.ts:350-359 | the loop spreads array items and keeps the others, in order |
| PropHelpers.FlattenAppend | src/buildStyle.ts:350-359 | flattening a concatenation concatenates the flattenings |
| PropHelpers.FlattenMembership | src/buildStyle.ts:350-359 | an element is in the result if and only if it is spread from some item |
| PropHelpers.FlattenLength | src/buildStyle.ts:350-359 | the result's length is the number of array elements plus the number of other items |

## Left out

- `console.error` and `console.warn` (`src/buildStyle.ts:87`, `154`) are not modelled. A caught throw is reported as the `err` result of `BuildClassCache`, and a missing class contributes nothing.
- `SafeStyleProvider` (`src/buildStyle.ts:214-219`) is a React effect binding. Only the `clearCache` it calls is modelled.
- `makeViewProps` and `makeViewPropsPrefix` are left out because they only return `undefined`. The type-only declarations are left out because they have no run-time behaviour.
- `fromEntries`, `safeKeys` and `safeEntries` come from `./utils`, which is not part of this model. They are treated as identity conversions between pair lists and objects. `mapToObj` therefore stores the resolved pair list as it is.
- Prototype-chain lookups are not modelled: keys such as `constructor` or `__proto__` are treated as ordinary names. JavaScript's ordering of integer-like object keys ahead of the others is not modelled either.
- The `debugStyle` parameter is left out because it is unused.
- Numeric values are left out of the arithmetic: they are opaque and carried by their string rendering, and no arithmetic is done on them.
- `extractSafeStyleProps` receives a JavaScript object, which cannot hold a key twice. `PropHelpers.ExtractSafeStyleProps` therefore requires duplicate-free props.
- `PropHelpers.ExtractProps` takes `allProperties` as a parameter, and `PropHelpers.ExtractSafeStyleProps` passes it `StyleProps.AllProperties`. The extraction lemmas therefore hold for any property set.
- Resolution.CacheKeyDistinguishes: the cache key is not claimed to be injective. Equal keys are shown to mean equal references only for non-empty lists of comma-free identities. `CacheKeyCollision` and `CacheKeyEmptyCollision` give the counterexamples.
- Runtime.StyleRuntime.ProcessStyle: the cache holds a style object, not the map built for it, so a caller that mutates the returned object is not modelled.
- ClassCompiler.ViewTable: `views` is a JavaScript object, so a view name occurs once. The model takes any list of pairs and does not require distinct names; a repeated name would be compiled twice, whereas the object keeps only its last value.
