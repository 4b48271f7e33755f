/**
 * The `Set` polyfill of harmony.js: a thin adapter that owns one `Map` and
 * stores `true` as the value of every member.
 */
module Sets {
  import opened JsValues
  import Maps

  class Set {
    const table: Maps.Map

    /** The owned map is valid and every stored value is `true`. */
    ghost predicate Valid()
      reads this, table
    {
      table.Valid() && forall i :: 0 <= i < |table.vals| ==> table.vals[i] == Bool(true)
    }

    ghost function Elements(): set<Value>
      reads this, table
      requires Valid()
    {
      table.Contents().Keys
    }

    constructor ()
      ensures Valid() && fresh(table)
      ensures Elements() == {}
    {
      table := new Maps.Map();
    }

    /** `has(key)`: the owned map's `has`. */
    method Has(key: Value) returns (b: bool)
      requires Valid()
      ensures b <==> key in Elements()
    {
      b := table.Has(key);
    }

    /**
     * `add(key)`: `map.set(key, true)`. Adding a member already present
     * leaves both arrays of the owned map as they were.
     */
    method Add(key: Value)
      requires Valid()
      modifies table
      ensures Valid()
      ensures Elements() == old(Elements()) + {key}
      ensures key in old(Elements()) ==> table.keys == old(table.keys) && table.vals == old(table.vals)
    {
      table.Set(key, Bool(true));
    }

    /** `delete(key)`: the owned map's `delete`, with its result. */
    method Delete(key: Value) returns (removed: bool)
      requires Valid()
      modifies table
      ensures Valid()
      ensures removed <==> key in old(Elements())
      ensures Elements() == old(Elements()) - {key}
    {
      removed := table.Delete(key);
    }
  }

  /** `add(x); add(x); delete(x)` leaves `x` out: adding twice does not count twice. */
  method AddTwiceDeleteOnce(s: Set, x: Value) returns (deleted: bool, present: bool)
    requires s.Valid()
    modifies s.table
    ensures deleted && !present
    ensures s.Valid() && s.Elements() == old(s.Elements()) - {x}
  {
    s.Add(x);
    s.Add(x);
    deleted := s.Delete(x);
    present := s.Has(x);
  }
}
