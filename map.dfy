/**
 * The `Map` polyfill of harmony.js: two parallel growable arrays `keys` and
 * `vals`, searched by a linear scan that compares keys with `Object.is`.
 * `set` overwrites in place or appends, `delete` splices the same index out
 * of both arrays.
 *
 * The abstract view of a map is the Dafny `map` that `ToMap` builds from the
 * two arrays; the lemmas below say how index assignment, appending and
 * splicing act on that view.
 */
module Maps {
  import opened JsValues

  /** No two stored keys are `Object.is`-identical. */
  ghost predicate NoIdenticalKeys(keys: seq<Value>) {
    forall i, j :: 0 <= i < j < |keys| ==> !Is(keys[i], keys[j])
  }

  /**
   * `a[i] = x` on a JavaScript array with `i <= a.length`: replaces element
   * `i`, or appends when `i` is the length.
   */
  function Store<T>(s: seq<T>, i: nat, x: T): (r: seq<T>)
    requires i <= |s|
    ensures |r| == if i == |s| then |s| + 1 else |s|
    ensures r[i] == x
    ensures forall j :: 0 <= j < |s| && j != i ==> r[j] == s[j]
  {
    if i == |s| then s + [x] else s[i := x]
  }

  /** `a.splice(i, 1)`: removes element `i` and shifts the rest down, in order. */
  function Splice<T>(s: seq<T>, i: nat): (r: seq<T>)
    requires i < |s|
    ensures |r| == |s| - 1
    ensures forall j :: 0 <= j < i ==> r[j] == s[j]
    ensures forall j :: i <= j < |r| ==> r[j] == s[j + 1]
  {
    s[..i] + s[i + 1..]
  }

  /**
   * `indexOfIdentical(keys, key)`: the first index whose key is identical to
   * `key`, or -1 when there is none.
   */
  method IndexOfIdentical(keys: seq<Value>, key: Value) returns (i: int)
    ensures -1 <= i < |keys|
    ensures 0 <= i ==> Is(keys[i], key) && forall j :: 0 <= j < i ==> !Is(keys[j], key)
    ensures i < 0 ==> forall j :: 0 <= j < |keys| ==> !Is(keys[j], key)
  {
    i := 0;
    while i < |keys|
      invariant 0 <= i <= |keys|
      invariant forall j :: 0 <= j < i ==> !Is(keys[j], key)
    {
      if Is(keys[i], key) {
        return;
      }
      i := i + 1;
    }
    return -1;
  }

  /** The association the parallel arrays stand for; a later pair wins. */
  ghost function ToMap(keys: seq<Value>, vals: seq<Value>): map<Value, Value>
    requires |keys| == |vals|
  {
    if keys == [] then map[]
    else ToMap(keys[..|keys| - 1], vals[..|vals| - 1])[keys[|keys| - 1] := vals[|vals| - 1]]
  }

  /** The keys of the view are exactly the stored keys. */
  lemma {:induction false} ToMapKeys(keys: seq<Value>, vals: seq<Value>)
    requires |keys| == |vals|
    ensures forall k :: k in ToMap(keys, vals) <==> k in keys
  {
    if keys != [] {
      var n := |keys| - 1;
      ToMapKeys(keys[..n], vals[..n]);
      assert keys == keys[..n] + [keys[n]];
    }
  }

  /** A prefix of a key sequence without identical keys has none either. */
  lemma NoIdenticalKeysPrefix(keys: seq<Value>, n: nat)
    requires NoIdenticalKeys(keys) && n <= |keys|
    ensures NoIdenticalKeys(keys[..n])
  {
  }

  /** With distinct keys, the view maps each stored key to the value at its index. */
  lemma {:induction false} ToMapAt(keys: seq<Value>, vals: seq<Value>, i: nat)
    requires |keys| == |vals| && NoIdenticalKeys(keys) && i < |keys|
    ensures keys[i] in ToMap(keys, vals) && ToMap(keys, vals)[keys[i]] == vals[i]
  {
    var n := |keys| - 1;
    if i < n {
      NoIdenticalKeysPrefix(keys, n);
      ToMapAt(keys[..n], vals[..n], i);
      assert !Is(keys[i], keys[n]);
    }
  }

  /** Assigning `vals[i]` changes the view at `keys[i]` and nowhere else. */
  lemma {:induction false} ToMapUpdate(keys: seq<Value>, vals: seq<Value>, i: nat, v: Value)
    requires |keys| == |vals| && NoIdenticalKeys(keys) && i < |keys|
    ensures ToMap(keys, vals[i := v]) == ToMap(keys, vals)[keys[i] := v]
  {
    var n := |keys| - 1;
    assert vals[i := v][..n] == if i == n then vals[..n] else vals[..n][i := v];
    if i < n {
      NoIdenticalKeysPrefix(keys, n);
      ToMapUpdate(keys[..n], vals[..n], i, v);
      assert !Is(keys[i], keys[n]);
    }
  }

  /** Appending a pair to both arrays updates the view at the new key. */
  lemma ToMapAppend(keys: seq<Value>, vals: seq<Value>, k: Value, v: Value)
    requires |keys| == |vals|
    ensures ToMap(keys + [k], vals + [v]) == ToMap(keys, vals)[k := v]
  {
  }

  /** Dropping the last pair removes its key from the view, the keys being distinct. */
  lemma ToMapDropLast(keys: seq<Value>, vals: seq<Value>)
    requires |keys| == |vals| && NoIdenticalKeys(keys) && |keys| > 0
    ensures ToMap(keys[..|keys| - 1], vals[..|vals| - 1]) == ToMap(keys, vals) - {keys[|keys| - 1]}
  {
    var n := |keys| - 1;
    ToMapKeys(keys[..n], vals[..n]);
    assert keys[n] !in keys[..n] by {
      forall j | 0 <= j < n ensures keys[..n][j] != keys[n] {
        assert !Is(keys[j], keys[n]);
      }
    }
  }

  /** Removing one key and updating another commute. */
  lemma RemoveThenUpdate<K, V>(m: map<K, V>, a: K, b: K, v: V)
    requires a != b
    ensures (m - {a})[b := v] == m[b := v] - {a}
  {
  }

  /** Splicing index `i` out of both arrays removes exactly `keys[i]` from the view. */
  lemma {:induction false} ToMapSplice(keys: seq<Value>, vals: seq<Value>, i: nat)
    requires |keys| == |vals| && NoIdenticalKeys(keys) && i < |keys|
    ensures ToMap(Splice(keys, i), Splice(vals, i)) == ToMap(keys, vals) - {keys[i]}
  {
    var n := |keys| - 1;
    if i == n {
      assert Splice(keys, i) == keys[..n];
      assert Splice(vals, i) == vals[..n];
      ToMapDropLast(keys, vals);
    } else {
      var ks, vs := Splice(keys[..n], i), Splice(vals[..n], i);
      assert Splice(keys, i) == ks + [keys[n]];
      assert Splice(vals, i) == vs + [vals[n]];
      NoIdenticalKeysPrefix(keys, n);
      ToMapSplice(keys[..n], vals[..n], i);
      ToMapAppend(ks, vs, keys[n], vals[n]);
      assert !Is(keys[i], keys[n]);
      RemoveThenUpdate(ToMap(keys[..n], vals[..n]), keys[i], keys[n], vals[n]);
      assert ToMap(keys, vals) == ToMap(keys[..n], vals[..n])[keys[n] := vals[n]];
    }
  }

  class Map {
    var keys: seq<Value>
    var vals: seq<Value>

    /** The map invariant: parallel arrays of equal length, no two identical keys. */
    ghost predicate Valid()
      reads this
    {
      |keys| == |vals| && NoIdenticalKeys(keys)
    }

    ghost function Contents(): map<Value, Value>
      reads this
      requires Valid()
    {
      ToMap(keys, vals)
    }

    constructor ()
      ensures Valid()
      ensures keys == [] && vals == []
      ensures Contents() == map[]
    {
      keys, vals := [], [];
    }

    /** `get(key)`: the stored value, or `undefined` when the key is absent. */
    method Get(key: Value) returns (v: Value)
      requires Valid()
      ensures v == if key in Contents() then Contents()[key] else Undefined
      ensures (exists i :: 0 <= i < |keys| && Is(keys[i], key) && v == vals[i])
           || ((forall i :: 0 <= i < |keys| ==> !Is(keys[i], key)) && v == Undefined)
    {
      var i := IndexOfIdentical(keys, key);
      ToMapKeys(keys, vals);
      if i < 0 {
        v := Undefined;
      } else {
        v := vals[i];
        ToMapAt(keys, vals, i);
      }
    }

    /** `has(key)`: whether `indexOfIdentical` finds the key. */
    method Has(key: Value) returns (b: bool)
      requires Valid()
      ensures b <==> exists i :: 0 <= i < |keys| && Is(keys[i], key)
      ensures b <==> key in Contents()
    {
      var i := IndexOfIdentical(keys, key);
      ToMapKeys(keys, vals);
      b := i >= 0;
    }

    /**
     * `set(key, val)`: overwrite the value at the index of an identical key,
     * or append the pair at index `keys.length`.
     */
    method Set(key: Value, val: Value)
      requires Valid()
      modifies this
      ensures Valid()
      ensures Contents() == old(Contents())[key := val]
      ensures key in old(Contents()) ==>
                keys == old(keys) &&
                exists i :: 0 <= i < |keys| && Is(keys[i], key) && vals == old(vals)[i := val]
      ensures key !in old(Contents()) ==> keys == old(keys) + [key] && vals == old(vals) + [val]
    {
      ToMapKeys(keys, vals);
      var i := IndexOfIdentical(keys, key);
      if i < 0 {
        i := |keys|;
      }
      ghost var oldKeys, oldVals := keys, vals;
      keys := Store(keys, i, key);
      vals := Store(vals, i, val);
      if i < |oldKeys| {
        assert keys == oldKeys;
        assert vals == oldVals[i := val];
        ToMapUpdate(oldKeys, oldVals, i, val);
      } else {
        assert keys == oldKeys + [key] && vals == oldVals + [val];
        assert keys[..|oldKeys|] == oldKeys && vals[..|oldVals|] == oldVals;
      }
    }

    /**
     * `delete(key)`: false and nothing changed when the key is absent;
     * otherwise the pair at its index is spliced out of both arrays.
     */
    method Delete(key: Value) returns (removed: bool)
      requires Valid()
      modifies this
      ensures Valid()
      ensures removed <==> key in old(Contents())
      ensures Contents() == old(Contents()) - {key}
      ensures !removed ==> keys == old(keys) && vals == old(vals)
      ensures removed ==>
                exists i :: 0 <= i < |old(keys)| && Is(old(keys)[i], key) &&
                  keys == Splice(old(keys), i) && vals == Splice(old(vals), i)
    {
      ToMapKeys(keys, vals);
      var i := IndexOfIdentical(keys, key);
      if i < 0 {
        return false;
      }
      ToMapSplice(keys, vals, i);
      keys := Splice(keys, i);
      vals := Splice(vals, i);
      assert NoIdenticalKeys(keys) by {
        forall a, b | 0 <= a < b < |keys| ensures !Is(keys[a], keys[b]) {
          assert keys[a] == old(keys)[if a < i then a else a + 1];
          assert keys[b] == old(keys)[if b < i then b else b + 1];
        }
      }
      return true;
    }
  }

  /**
   * An end-to-end use of one map: set "a" to 1 and "b" to 2, read "a",
   * delete "a", then read "a" and "b" again. Deleting "a" leaves "b" alone.
   */
  method Scenario() returns (a1: Value, deleted: bool, a2: Value, b2: Value)
    ensures a1 == Finite(1.0) && deleted && a2 == Undefined && b2 == Finite(2.0)
  {
    var m := new Map();
    m.Set(Str("a"), Finite(1.0));
    m.Set(Str("b"), Finite(2.0));
    a1 := m.Get(Str("a"));
    deleted := m.Delete(Str("a"));
    a2 := m.Get(Str("a"));
    b2 := m.Get(Str("b"));
  }
}
