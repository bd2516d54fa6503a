# common.js helpers, modelled in Dafny

This project models the sequential helpers that `common.js` installs on the
built-in prototypes and on `Math`, and proves what their documentation
comments promise:

- `Array.prototype.shuffle`: an in-place Fisher-Yates shuffle (module `ArrayShuffle`,
  `shuffle.dfy`). An array of `T` is shuffled in place, and the successive results of
  `Math.random()` are an input sequence of reals in [0, 1). The shuffle is proved to be a
  permutation of its input and to follow the Fisher-Yates step order.
- `Object.prototype.extend` and its inner `merge` closure: in-place merging of source
  objects into a target, either shallow or deep (module `ObjectExtend`, `extend.dfy`).
- The `keys` fallback, which collects an object's own enumerable property names
  (module `ObjectKeys`, `keys.dfy`).
- The `findIndex` fallback, a linear search with early exit (module `ArrayFindIndex`,
  `find_index.dfy`).
- The `trim` fallback, which removes white space at both ends (module `StringTrim`,
  `trim.dfy`).
- `Math.clamp`, with its default bounds 0 and 1 (module `MathClamp`, `clamp.dfy`).

JavaScript values as the object helpers see them are in module `JsValue`
(`js_value.dfy`). A plain object, meaning one whose `Object.prototype.toString` tag is
"[object Object]", is the map of its own enumerable properties. Other objects (arrays,
functions, ...) are opaque. The falsy values are `undefined`, `null`, `false`, `0` and `""`. NaN is falsy in
JavaScript too, but it cannot occur here, because numbers are reals.

How the source's behaviour is rendered:

- `shuffle` returns immediately on an empty array. Otherwise its `while (--i)` loop runs
  for `i = n-1` down to `1`. Step `i` takes `r = Math.floor(draw * (i + 1))` and swaps
  `this[r]` with `this[i]`. `Shuffle` is proved against the function `Shuffled`, which
  performs the same steps on a sequence.
- The inner `merge` visits each own property of the source once:
  - In deep mode, a plain-object source value is merged recursively into `target[p]`.
    A missing or falsy `target[p]` is first replaced by `{}`.
  - A truthy `target[p]` that is not a plain object is left as it was. `common.js` is not
    strict-mode code, so calling `extend` on a primitive merges into a temporary wrapper
    object that is then dropped.
  - In every other case the value is copied.

  Because each property is visited once and the entries are independent, the result does
  not depend on the order of the `for ... in` loop. The method `Merge` picks the next
  property arbitrarily and is still proved equal to the order-free function `Merged`.
- `extend` takes a leading boolean argument as the deep flag and does not merge it. The
  remaining arguments are merged from left to right (`MergedAll`, `Extended`).
- `trim` uses `replace(/^\s+|\s+$/g, "")`. Without the `m` flag, `^` and `$` match only at
  the ends of the string. The global replacement therefore deletes the leading run of `\s`
  characters and the trailing run. `IsWS` is the ECMAScript `\s` class: the WhiteSpace
  characters and the LineTerminator characters.
- `shuffle` returns nothing, and so does `Shuffle`. The test at test/array.js:55-58 indexes
  the return value of `shuffle()` as if it were the array.

## Model

| member | source | states |
|---|---|---|
| `ArrayShuffle.Shuffle` | common.js:13-22 | The array after the in-place shuffle equals `Shuffled` of the old contents under the given draws. Its multiset of elements is unchanged. |
| `ArrayShuffle.PickInRange` | common.js:17 | A draw in [0, 1) picks an index `Math.floor(draw * (i + 1))` in [0, i], so each swap stays inside the array. |
| `ArrayShuffle.StepsPermute` | common.js:16-21 | Each run of swap steps keeps the length and the multiset of elements. |
| `ArrayShuffle.ShuffledPermutes` | common.js:14-21 | The shuffled array has the same length as the input and is a permutation of it. |
| `ArrayShuffle.ShuffledShort` | common.js:14-16 | Empty and one-element arrays come back unchanged, whatever the draws (early return, or a loop that never runs). |
| `ArrayShuffle.StepsKeepTail` | common.js:16-21 | The steps for indices `i` down to 1 never touch a position above `i`. |
| `ArrayShuffle.ShuffledLast` | common.js:16-20 | The last position ends up holding the element at the index picked by the first draw, and no later step moves it. |
| `ObjectExtend.Merged` | common.js:48-64 | After `merge`, the target owns exactly its old keys plus the source's keys. Keys the source lacks keep their old values. |
| `ObjectExtend.Merge` | common.js:48-64 | The `for ... in` loop over the source's own properties, in any visiting order, with recursion for deep entries. Its result equals `Merged`. |
| `ObjectExtend.ExtendProps` | common.js:44-77 | Argument handling: a leading boolean is the deep flag, and each later argument is merged from left to right. The result equals `Extended`. |
| `ObjectExtend.PlainObject.Extend` | common.js:40-79 | `extend` updates the target object's own properties in place to `Extended` of the old ones. |
| `ObjectExtend.ShallowMergeIsOverride` | common.js:59-61 | In shallow mode `merge` is map override: `target + source`. |
| `ObjectExtend.ShallowLastSourceWins` | common.js:74-77 | In shallow mode the last argument that owns `p` determines the final `target[p]`. |
| `ObjectExtend.UntouchedKeys` | common.js:49-50 | In either mode, a key that no argument owns keeps its target value, or stays absent. |
| `ObjectExtend.MergedAllKeys` | common.js:74-77 | After merging several sources, the target's keys are its own keys together with every source's keys. |
| `ObjectExtend.ExtendedKeys` | common.js:66-71 | The leading boolean contributes no property: the keys after `extend` are those of the target and of the arguments. |
| `ObjectExtend.DeepMergeIntoEmptyCopies` | common.js:55-58 | Deep-merging a source into `{}` yields the source itself, so the merge copies it deeply. |
| `ObjectExtend.DeepMergeFalsyEntry` | common.js:55-58 | In deep mode, a plain-object source value that meets a missing or falsy target entry ends up there in full. |
| `ObjectExtend.DeepMergeNested` | common.js:51-58 | In deep mode, two plain objects under one key are merged rather than overwritten: the nested result owns the keys of both. |
| `ObjectExtend.DeepWithoutObjectsIsShallow` | common.js:51-61 | A deep merge of a source that holds no plain object is the same as a shallow merge. |
| `ObjectExtend.MergeIdempotent` | common.js:48-64 | Merging the same source twice gives the same result as merging it once, in both modes. |
| `ObjectExtend.DocumentedDeepExample` | common.js:36-38 | `{a:1, b:1, c:{d:1}}.extend(true, {a:2, b:2}, {a:3, c:{e:1}})` gives `{a:3, b:2, c:{d:1, e:1}}`. |
| `ObjectExtend.DocumentedShallowExample` | common.js:66-77 | Without the leading `true`, the same call replaces `c` with `{e:1}`. |
| `ObjectKeys.Keys` | common.js:96-104 | The result lists exactly the object's own enumerable keys, each once. Inherited enumerable names are filtered out, and the length equals the number of own keys. |
| `ArrayFindIndex.FindIndex` | common.js:131-140 | The result lies in [-1, length). It is -1 exactly when the callback rejects every element. Otherwise the callback accepts the element at the result and rejects every earlier one. |
| `StringTrim.DropLeadingWS` | common.js:159 | `^\s+` leaves a suffix whose first character is not white space, and everything removed was white space. |
| `StringTrim.DropTrailingWS` | common.js:159 | `\s+$` leaves a prefix whose last character is not white space, and everything removed was white space. |
| `StringTrim.Trim` | common.js:159 | The result is no longer than the input and has no white space at either end. |
| `StringTrim.TrimIsTrimOf` | common.js:148 | The result is the contiguous piece `s[i..j]` of the input, where everything before `i` and from `j` on is white space; interior characters are untouched. |
| `StringTrim.TrimUnique` | common.js:148 | Any string obtained that way with no white space at its ends is `Trim(s)`, so `trim` is fully determined by that description. |
| `StringTrim.TrimIdempotent` | common.js:159 | Trimming twice equals trimming once. |
| `StringTrim.TrimKeepsTrimmed` | common.js:159 | A string without white space at either end is returned unchanged. |
| `StringTrim.TrimAllWhiteSpace` | common.js:159 | A string made only of white space trims to the empty string. |
| `MathClamp.Clamp` | common.js:175-179 | With the defaults min = 0 and max = 1: when min <= max the result lies in [min, max]; a value already in range is returned unchanged; the result is always `a`, min or max. |
| `MathClamp.ClampDefaults` | common.js:176-177 | Missing bounds act as 0 and 1, so the result lies in [0, 1]. |
| `MathClamp.ClampOutside` | common.js:178 | Below the range the result is min; above the range it is max. |
| `MathClamp.ClampCrossedBounds` | common.js:178 | When max < min, values below min give min and all others give max. |
| `MathClamp.ClampIdempotent` | common.js:175-179 | Clamping twice equals clamping once, when min <= max. |
| `MathClamp.ClampMonotonic` | common.js:175-179 | Clamping preserves order, when min <= max. |
| `MathClamp.ClampTestCases` | test/math.js:10-15 | The six clamp cases of the library's tests hold. |

## Left out

- `Math.random()` is not modelled: its results are the `draws` parameter of `Shuffle`.
  The other random helpers (`randomBetween`, `randomIntBetween`, `cltRandom`,
  `cltRandomInt`) are nondeterministic floating-point code and are left out.
- Floating point: draws and products are reals, not IEEE doubles, so rounding in
  `draw * (i + 1)` is not modelled. `Math.clamp` only compares numbers; NaN and -0 are not
  modelled, and an explicit `null` bound (which compares as 0) is not distinguished from a
  given number.
- `lerp`, `quadraticInterpolate`, `cubicInterpolate`, `radians` and `degrees` are left out.
  They are one-line floating-point formulas, and a model over reals would not match doubles.
- The installation mechanics are left out: the `Object.defineProperty` descriptors and the
  `if (!...)` guards that install a fallback only when the runtime lacks one.
- Object identity and aliasing are left out, because objects are modelled as values:
  - In JavaScript a shallow `extend` shares the source's nested objects by reference.
  - In the model they are copied.
- Properties on the prototype chain are left out for `extend`. The `hasOwnProperty` guard
  (common.js:50) filters only the source. In deep mode the target lookups `!target[p]` and
  `target[p].extend(...)` (common.js:55, 58) go through the target's prototype chain. So a
  plain-object source entry whose name the target only inherits (`constructor`,
  `toString`, `extend`, `__proto__`, ...) is merged into the inherited object, and the
  target gets no own entry. With `__proto__` from a `JSON.parse` source, that object is
  `Object.prototype` itself. `Merged` instead adds a fresh own entry to the target, because
  the model's objects have no prototype chain.
- In deep mode, when `target[p]` is a truthy object that is not plain (an array, a
  function, ...), the source adds the properties to that object. The model keeps the entry
  unchanged, because such objects are opaque.
- Arguments of `extend` that are not plain objects contribute no properties in the model.
  In JavaScript a string argument contributes its indexed characters and an array argument
  its indexed elements.
- Enumeration order is left open in `Keys`, so the model does not fix the order of the
  result. JavaScript lists integer-like keys first, then the others in insertion order.
- The `findIndex` callback is a pure, total function of the element, the
  index and the array. A callback that throws, or that changes the array during the search,
  is not modelled.
- Strings are sequences of Unicode scalar values, not UTF-16 code units. All characters of
  `\s` lie in the Basic Multilingual Plane, so `trim` is unaffected.
- `test/mat.js`, `test/vec.js`, `test/array.js` and most of `test/math.js` test functions
  that `common.js` does not define, so there is no code to model for them.
- `gulpfile.js` is build tooling and is not part of this model.
