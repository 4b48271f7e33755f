/**
 * The `WeakMap` polyfill of harmony.js. Each instance owns a private token
 * object `unique`. `conceal(o)` replaces `o.valueOf` with a hook that returns
 * a fresh `secrets` record when called with the token and otherwise delegates
 * to the `valueOf` it replaced; `reveal(o)` calls `o.valueOf(unique)` and
 * takes any result other than `o` itself as the record. The associated value
 * lives in the record's own property "value", so it is reachable only
 * through the key.
 */
module WeakMaps {
  import opened JsValues

  /**
   * `o.valueOf(k)` for an object whose overrides are `hooks` (oldest first):
   * the newest hook answers its own token with its record and hands every
   * other argument to the one before it; the inherited `valueOf` returns
   * the object itself.
   */
  function CallValueOf(hooks: seq<Hook>, self: JsObject, k: Value): (r: Value)
    ensures r == Obj(self) || exists i :: 0 <= i < |hooks| && r == Obj(hooks[i].secrets)
  {
    if hooks == [] then Obj(self)
    else
      var h := hooks[|hooks| - 1];
      if StrictEquals(k, Obj(h.token)) then Obj(h.secrets)
      else CallValueOf(hooks[..|hooks| - 1], self, k)
  }

  /** Whether some hook in the chain answers `token`. */
  ghost predicate HasHookFor(hooks: seq<Hook>, token: JsObject) {
    exists i :: 0 <= i < |hooks| && hooks[i].token == token
  }

  /** No hook on the chain hands back the object itself as its record. */
  ghost predicate RecordsAreNotSelf(hooks: seq<Hook>, self: JsObject) {
    forall i :: 0 <= i < |hooks| ==> hooks[i].secrets != self
  }

  /** At most one hook on the chain answers `token`. */
  ghost predicate AtMostOneHookFor(hooks: seq<Hook>, token: JsObject) {
    forall i, j :: 0 <= i < j < |hooks| && hooks[i].token == token ==> hooks[j].token != token
  }

  /**
   * What the chain answers to a token: the record of the newest hook for that
   * token, or the object itself when no hook is for it.
   */
  lemma {:induction false} CallValueOfToken(hooks: seq<Hook>, self: JsObject, token: JsObject)
    ensures !HasHookFor(hooks, token) ==> CallValueOf(hooks, self, Obj(token)) == Obj(self)
    ensures HasHookFor(hooks, token) ==>
              exists i :: 0 <= i < |hooks| && hooks[i].token == token &&
                CallValueOf(hooks, self, Obj(token)) == Obj(hooks[i].secrets) &&
                forall j :: i < j < |hooks| ==> hooks[j].token != token
  {
    if hooks != [] {
      var n := |hooks| - 1;
      CallValueOfToken(hooks[..n], self, token);
      if hooks[n].token != token {
        if HasHookFor(hooks, token) {
          var i :| 0 <= i < |hooks| && hooks[i].token == token;
          assert hooks[..n][i].token == token;
        } else {
          assert !HasHookFor(hooks[..n], token) by {
            forall i | 0 <= i < n ensures hooks[..n][i].token != token {
              assert hooks[i].token != token;
            }
          }
        }
      }
    }
  }

  /**
   * Hooks installed on top of a chain are transparent to every argument that
   * none of them recognises: such a call returns what the older chain returns.
   */
  lemma {:induction false} CallValueOfDelegates(hooks: seq<Hook>, newer: seq<Hook>, self: JsObject, k: Value)
    requires forall j :: 0 <= j < |newer| ==> !StrictEquals(k, Obj(newer[j].token))
    ensures CallValueOf(hooks + newer, self, k) == CallValueOf(hooks, self, k)
  {
    if newer != [] {
      var n := |newer| - 1;
      assert (hooks + newer)[..|hooks| + n] == hooks + newer[..n];
      CallValueOfDelegates(hooks, newer[..n], self, k);
    } else {
      assert hooks + newer == hooks;
    }
  }

  class WeakMap {
    /** The instance's private token `{}`. */
    const unique: JsObject

    constructor ()
      ensures fresh(unique)
      ensures unique.hooks == [] && unique.valueProperty == None
    {
      unique := new JsObject();
    }

    /**
     * `reveal(o)`: `null` when `o.valueOf(unique)` gives back `o` itself,
     * otherwise the record it gives back.
     */
    function Reveal(o: JsObject): (r: Value)
      reads o
      ensures r == Null || r.Obj?
      ensures r != Obj(o)
      ensures r.Obj? ==>
                exists i :: 0 <= i < |o.hooks| && o.hooks[i].token == unique &&
                  r == Obj(o.hooks[i].secrets) &&
                  forall j :: i < j < |o.hooks| ==> o.hooks[j].token != unique
      ensures !HasHookFor(o.hooks, unique) ==> r == Null
      ensures RecordsAreNotSelf(o.hooks, o) ==> (r == Null <==> !HasHookFor(o.hooks, unique))
    {
      CallValueOfToken(o.hooks, o, unique);
      var v := CallValueOf(o.hooks, o, Obj(unique));
      if StrictEquals(v, Obj(o)) then Null else v
    }

    /** The record `reveal` finds on `o`, as a frame. */
    function RecordOf(o: JsObject): set<JsObject>
      reads o
    {
      var r := Reveal(o);
      if r.Obj? then {r.ref} else {}
    }

    /** The value associated with `o`: the "value" property of its record, if any. */
    ghost function Lookup(o: JsObject): Option<Value>
      reads o, RecordOf(o)
    {
      var r := Reveal(o);
      if r.Obj? then r.ref.valueProperty else None
    }

    /**
     * `conceal(o)`: install on `o` a hook that answers `unique` with a fresh
     * empty record and hands every other argument to the previous `valueOf`.
     */
    method Conceal(o: JsObject) returns (secrets: JsObject)
      modifies o
      ensures fresh(secrets) && secrets.hooks == [] && secrets.valueProperty == None
      ensures o.hooks == old(o.hooks) + [Hook(unique, secrets)]
      ensures o.valueProperty == old(o.valueProperty)
      ensures Reveal(o) == Obj(secrets)
      ensures RecordsAreNotSelf(old(o.hooks), o) ==> RecordsAreNotSelf(o.hooks, o)
      ensures forall k :: !StrictEquals(k, Obj(unique)) ==> CallValueOf(o.hooks, o, k) == CallValueOf(old(o.hooks), o, k)
    {
      secrets := new JsObject();
      o.hooks := o.hooks + [Hook(unique, secrets)];
      forall k | !StrictEquals(k, Obj(unique))
        ensures CallValueOf(o.hooks, o, k) == CallValueOf(old(o.hooks), o, k)
      {
        CallValueOfDelegates(old(o.hooks), [Hook(unique, secrets)], o, k);
      }
    }

    /** `get(key, defaultValue)`: the associated value, or `defaultValue` when there is none. */
    method Get(key: JsObject, defaultValue: Value) returns (r: Value)
      ensures r == if Lookup(key).Some? then Lookup(key).value else defaultValue
    {
      var secrets := Reveal(key);
      if Truthy(secrets) && secrets.ref.valueProperty.Some? {
        r := secrets.ref.valueProperty.value;
      } else {
        r := defaultValue;
      }
    }

    /**
     * `set(key, value)`: store `value` in the record `reveal` finds, or in the
     * record of a newly concealed hook when there is none. Only this
     * instance's token is answered differently afterwards.
     */
    method Set(key: JsObject, value: Value)
      modifies key, RecordOf(key)
      ensures Lookup(key) == Some(value)
      ensures key.valueProperty == old(key.valueProperty)
      ensures old(Reveal(key)).Obj? ==> key.hooks == old(key.hooks)
      ensures old(Reveal(key)) == Null ==>
                |key.hooks| == |old(key.hooks)| + 1 &&
                key.hooks[..|old(key.hooks)|] == old(key.hooks) &&
                key.hooks[|old(key.hooks)|].token == unique &&
                fresh(key.hooks[|old(key.hooks)|].secrets)
      ensures forall k :: !StrictEquals(k, Obj(unique)) ==> CallValueOf(key.hooks, key, k) == CallValueOf(old(key.hooks), key, k)
      ensures RecordsAreNotSelf(old(key.hooks), key) ==> RecordsAreNotSelf(key.hooks, key)
      ensures RecordsAreNotSelf(old(key.hooks), key) && AtMostOneHookFor(old(key.hooks), unique) ==>
                AtMostOneHookFor(key.hooks, unique)
    {
      var secrets := Reveal(key);
      if !Truthy(secrets) {
        var s := Conceal(key);
        secrets := Obj(s);
      }
      secrets.ref.valueProperty := Some(value);
    }

    /** `has(key)`: whether the record `reveal` finds holds a value. */
    method Has(key: JsObject) returns (b: bool)
      ensures b <==> Lookup(key).Some?
    {
      var secrets := Reveal(key);
      b := Truthy(secrets) && secrets.ref.valueProperty.Some?;
    }

    /**
     * `delete(key)`: remove the value from the record `reveal` finds. The
     * record stays attached; a key without a record is left untouched, since
     * nothing else is in the frame.
     */
    method Delete(key: JsObject)
      modifies RecordOf(key)
      ensures Lookup(key) == None
      ensures RecordOf(key) == old(RecordOf(key))
    {
      var secrets := Reveal(key);
      if Truthy(secrets) {
        secrets.ref.valueProperty := None;
      }
    }
  }

  /** Round trip: after `set(o, v)`, `get(o, d)` is `v` and `has(o)` holds. */
  method SetThenGet(w: WeakMap, o: JsObject, v: Value, d: Value) returns (got: Value, present: bool)
    modifies o, w.RecordOf(o)
    ensures got == v && present
  {
    w.Set(o, v);
    got := w.Get(o, d);
    present := w.Has(o);
  }

  /** After `delete(o)`, `get(o, d)` is `d` and `has(o)` is false. */
  method DeleteThenGet(w: WeakMap, o: JsObject, v: Value, d: Value) returns (got: Value, present: bool)
    modifies o, w.RecordOf(o)
    ensures got == d && !present
  {
    w.Set(o, v);
    w.Delete(o);
    got := w.Get(o, d);
    present := w.Has(o);
  }

  /**
   * Two instances on one key keep independent records: each hook hands the
   * other instance's token on to the hook below it.
   */
  method TwoInstances(o: JsObject, v1: Value, v2: Value) returns (r1: Value, r2: Value)
    modifies o
    ensures r1 == v1 && r2 == v2
  {
    var w1 := new WeakMap();
    var w2 := new WeakMap();
    // Both tokens are fresh, so no hook already on o answers either of them.
    assert !HasHookFor(o.hooks, w1.unique) && !HasHookFor(o.hooks, w2.unique);
    CallValueOfToken(o.hooks, o, w1.unique);
    CallValueOfToken(o.hooks, o, w2.unique);
    w1.Set(o, v1);
    ghost var s1 := w1.Reveal(o).ref;
    assert CallValueOf(o.hooks, o, Obj(w2.unique)) == Obj(o);
    w2.Set(o, v2);
    assert w1.Reveal(o) == Obj(s1);
    r1 := w1.Get(o, Undefined);
    r2 := w2.Get(o, Undefined);
  }
}
