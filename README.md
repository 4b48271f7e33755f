# harmony.js collections in Dafny

A model of the collection polyfills in `harmony.js`: the same-value identity
test `Object.is` (with `Object.isnt`), the `Map` built from two parallel arrays
searched with `Object.is`, the `Set` that owns one such `Map`, and the
`WeakMap` that hides each association in a record reachable only through a
`valueOf` hook installed on the key.

- `js_values.dfy` (module `JsValues`): ECMAScript values. NaN, +0, -0, the
  two infinities and the non-zero finite numbers are separate constructors.
  Objects are `Obj(ref)`, where `ref` is a `JsObject` instance, so object
  identity is reference identity. The module also has strict equality `===`
  (section 11.9.6 of ECMA-262 5.1), ToBoolean (section 9.2), `Object.is` and
  `Object.isnt`. `Is` is proved to coincide with equality of the modelled
  values, which is what lets a `Map` have an abstract `map<Value, Value>` view.
- `map.dfy` (module `Maps`): `indexOfIdentical` is a loop with invariants.
  `Map` is a class whose `keys` and `vals` sequence fields are reassigned in
  place by index assignment (`Store`) and `splice` (`Splice`). Its invariant
  is that the arrays have equal length and no two keys are identical. Its view
  `ToMap` comes with lemmas for overwrite, append and splice.
- `set.dfy` (module `Sets`): `Set` owns a `Map` in which every value is `true`.
- `weak_map.dfy` (module `WeakMaps`): every `JsObject` carries its chain of
  `valueOf` overrides, oldest first. The empty chain is the inherited
  `Object.prototype.valueOf`, which returns the object itself. Each `WeakMap`
  owns a fresh token object `unique`. `Conceal` appends a hook holding a fresh
  record. `Reveal` calls the chain with the token. The stored value is the
  record's own property "value", held as an `Option`.

## Model

| member | source | states |
|---|---|---|
| `JsValues.StrictEquals` | harmony.js:26 | `x === y` holds exactly for equal values other than NaN, and for any two zeros (+0 === -0) |
| `JsValues.Reciprocal` | harmony.js:28 | `1 / x` maps +0 to +Infinity and -0 to -Infinity, so it tells the zeros apart |
| `JsValues.Is` | harmony.js:25-38 | `Object.is(x, y)` holds exactly when x and y are the same value: +0 and -0 differ, NaN equals itself |
| `JsValues.Isnt` | harmony.js:51 | `Object.isnt` is the negation of `Object.is`, i.e. holds exactly for different values |
| `JsValues.IsVersusStrictEquals` | harmony.js:25-38 | `Object.is` is reflexive (NaN included), is false for (+0, -0) although `===` holds, is true for (NaN, NaN) although `===` fails, agrees with `===` on every other pair, and is symmetric |
| `JsValues.Truthy` | harmony.js:693-723 | ToBoolean as the logical-and, logical-or and `if` tests use it: false exactly for undefined, null, false, NaN, the two zeros and the empty string, so every record object is true |
| `JsValues.IsNaN` | harmony.js:91-92 | `Number.isNaN` holds exactly for NaN: no value of another type passes, since there is no coercion |
| `JsValues.JsObject.constructor` | harmony.js:674 | an object literal `{}` has no `valueOf` override and no own "value" property |
| `Maps.Store` | harmony.js:612-613 | array assignment `a[i] = x` with `i <= a.length` puts x at i, appends when i is the length, and leaves every other element |
| `Maps.Splice` | harmony.js:623-624 | `a.splice(i, 1)` removes element i and keeps the others in order, one shorter |
| `Maps.IndexOfIdentical` | harmony.js:581-587 | returns the first index whose key is `Object.is`-identical to `key`, or -1 when no stored key is |
| `Maps.ToMapKeys` | harmony.js:580 | the keys of the map view are exactly the stored keys |
| `Maps.ToMapAt` | harmony.js:592-595 | with no two identical keys, the view maps `keys[i]` to `vals[i]` |
| `Maps.ToMapUpdate` | harmony.js:612-613 | overwriting `vals[i]` changes the view at `keys[i]` only |
| `Maps.ToMapAppend` | harmony.js:611-613 | appending a pair at `keys.length` updates the view at the new key |
| `Maps.ToMapDropLast` | harmony.js:623-624 | dropping the last pair removes exactly its key from the view |
| `Maps.ToMapSplice` | harmony.js:623-624 | splicing the same index out of both arrays removes exactly that key from the view |
| `Maps.Map.constructor` | harmony.js:580 | a new map has empty `keys` and `vals`, satisfies the invariant and has an empty view |
| `Maps.Map.Get` | harmony.js:592-595 | returns the value paired with the identical stored key, or `undefined` when there is none |
| `Maps.Map.Has` | harmony.js:600-602 | true exactly when `indexOfIdentical` finds an identical stored key, i.e. the key is in the view |
| `Maps.Map.Set` | harmony.js:609-614 | keeps the invariant. The view becomes the old view with key set to val, so other keys keep their values. A present key is overwritten at its index with `keys` and the length unchanged; an absent key is appended to both arrays |
| `Maps.Map.Delete` | harmony.js:620-626 | keeps the invariant and returns whether the key was present. An absent key leaves both arrays unchanged. A present key's pair is spliced out of both arrays at the same index, the rest keep their order, and the key leaves the view |
| `Maps.Scenario` | harmony.js:578-634 | set "a" to 1 and "b" to 2; then get "a" gives 1, delete "a" gives true, get "a" gives `undefined` and get "b" still gives 2 |
| `Sets.Set.constructor` | harmony.js:638 | a new set owns a fresh empty map |
| `Sets.Set.Has` | harmony.js:644 | the owned map's `has`: true exactly for members |
| `Sets.Set.Add` | harmony.js:650 | `map.set(key, true)`: the key becomes a member and every stored value stays `true`. Adding a present member leaves both arrays unchanged (idempotence) |
| `Sets.Set.Delete` | harmony.js:656 | the owned map's `delete`: returns whether the key was a member, and the key is no longer one |
| `Sets.AddTwiceDeleteOnce` | harmony.js:644-656 | after `add(x); add(x); delete(x)`, the delete returned true and `has(x)` is false |
| `WeakMaps.CallValueOf` | harmony.js:673-679 | `o.valueOf(k)` returns the object itself or the record of one of its hooks |
| `WeakMaps.CallValueOfToken` | harmony.js:673-683 | called with a token, the chain returns the record of the newest hook for that token, or the object itself when no hook is for it |
| `WeakMaps.CallValueOfDelegates` | harmony.js:675-676 | hooks stacked on top of a chain do not change what it returns for any argument none of them recognises (non-interference) |
| `WeakMaps.WeakMap.constructor` | harmony.js:671 | each instance gets a freshly allocated private token |
| `WeakMaps.WeakMap.Reveal` | harmony.js:681-684 | `reveal(o)` is `null` or an object, never o itself. An object is the record of the newest hook for this instance's token. With no hook for the token, the result is `null`. When no record on o is o itself, `null` means exactly that no hook answers the token |
| `WeakMaps.WeakMap.Conceal` | harmony.js:673-679 | appends one hook holding a fresh empty record, which therefore is not o. Afterwards `reveal` finds that record, and `valueOf` called with any argument other than the token returns what the previous `valueOf` returned |
| `WeakMaps.WeakMap.Get` | harmony.js:690-694 | returns the value held in the record `reveal` finds, or `defaultValue` when there is no record or it holds no value |
| `WeakMaps.WeakMap.Set` | harmony.js:700-704 | afterwards the key's record holds `value`. It reuses the record `reveal` finds and conceals a new one only when there is none. Every record is a fresh `{}`, so no record is the key itself; while that holds, the key keeps at most one hook for this instance. Calls with other tokens are answered as before, and only the key and its own record may change |
| `WeakMaps.WeakMap.Has` | harmony.js:710-714 | true exactly when the record `reveal` finds holds a value |
| `WeakMaps.WeakMap.Delete` | harmony.js:720-726 | afterwards the key has no value and its record stays attached. Only that record may change, so a key without a record is left unchanged |
| `WeakMaps.SetThenGet` | harmony.js:690-714 | after `set(o, v)`, `get(o, d)` returns v and `has(o)` is true |
| `WeakMaps.DeleteThenGet` | harmony.js:690-726 | after `set(o, v); delete(o)`, `get(o, d)` returns d and `has(o)` is false |
| `WeakMaps.TwoInstances` | harmony.js:673-704 | two instances set on the same key keep independent records: each `get` returns what its own `set` stored |

## Left out

- The number shims, `Number.compare`, `Number.EPSILON` and every `Math.*` function, because they are floating-point numerics over the host's `Math`.
- The string helpers and `Array.of` / `Array.from` / `pushAll`, because they wrap host string and array primitives and coercions.
- Installation plumbing: the `if (!X)` and `global.X || …` guards, the property descriptor flags, the wrapper over `self`, and the `instanceof` lines that call `new` automatically. This is host wiring with no behaviour of its own.
- Doubles are modelled as reals and strings as character sequences. Only the equalities that `===` and `Object.is` draw are kept, and no arithmetic beyond `1 / x` is modelled.
- `Number.isNaN` is modelled directly as "a number that is NaN". Its definition over the host's global `isNaN` is not part of this model.
- Maps.Map.Get: the code returns `undefined` for an absent key, so a stored `undefined` cannot be told apart from absence by `get` alone (only `has` can). The model follows the code, not a separate ABSENT result.
- WeakMaps.WeakMap.Get, WeakMaps.WeakMap.Set, WeakMaps.WeakMap.Has, WeakMaps.WeakMap.Delete: keys are objects whose original `valueOf` is the inherited one, which returns the object itself. Primitive keys boxed with `Object(key)`, and objects with a custom `valueOf`, are not modelled. For such a key, `reveal` would read the original `valueOf` result as a record.
- WeakMaps.WeakMap.Set, WeakMaps.WeakMap.Conceal, WeakMaps.SetThenGet, WeakMaps.DeleteThenGet, WeakMaps.TwoInstances: keys are also assumed extensible, with a writable `valueOf`. The code runs in strict mode, so `o.valueOf = …` (harmony.js:675) throws TypeError on a frozen, sealed or non-extensible key, or on one whose `valueOf` is read-only. `set` on such a key therefore throws. The model has no extensibility flag and no error path, so its `Set` always succeeds.
- The difference between `hasOwnProperty` and `in` for the record's "value" property is not modelled. It cannot show on a fresh `{}` record, so the property is an `Option`.
- Garbage collection and weak reachability are not modelled. The model shows only that the record is reachable through the key's own hook chain, not through any table of the `WeakMap`.
- Concurrency and re-entrancy do not arise, because every operation is synchronous.
