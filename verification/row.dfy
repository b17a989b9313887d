/** Row: a table row, a sorted map from column names to values, whose
    equality compares the two maps key by key over the union of their key
    sets. A null value and a missing key read the same (TreeMap.get gives
    null for both). */
module Rows {
  import opened Wrappers

  /** A row's entries; None stands for a null value. Values are compared by
      identity with Dafny's `==` and by equals() with an oracle. */
  type Row<V> = map<string, Option<V>>

  /** The argument of equals: a TreeMap (a Row or any other) or an object
      of another class. */
  datatype Other<V> = TreeMapArg(m: Row<V>) | NotTreeMap

  /** TreeMap.get: null for a missing key. */
  function Get<V>(m: Row<V>, key: string): Option<V> {
    if key in m then m[key] else None
  }

  /** Two looked-up values agree: both null, or the same object, or equal
      by equals(). */
  predicate Agree<V(==)>(a: Option<V>, b: Option<V>, eq: (V, V) -> bool) {
    (a.None? && b.None?) || (a.Some? && b.Some? && (a.value == b.value || eq(a.value, b.value)))
  }

  /** The equality Row.equals decides. */
  predicate RowEquals<V(==)>(row: Row<V>, o: Other<V>, eq: (V, V) -> bool) {
    o.TreeMapArg? && forall key :: key in row.Keys + o.m.Keys ==> Agree(Get(row, key), Get(o.m, key), eq)
  }

  /** Row.equals: false for an argument that is not a TreeMap; otherwise a
      walk over the union of the key sets that stops at the first key whose
      values disagree. Neither map is changed. */
  method Equals<V(==)>(row: Row<V>, o: Other<V>, eq: (V, V) -> bool) returns (r: bool)
    ensures r == RowEquals(row, o, eq)
  {
    if !o.TreeMapArg? {
      return false;
    }
    var other := o.m;
    var tmp := row.Keys + other.Keys;
    ghost var all := tmp;
    while tmp != {}
      invariant tmp <= all
      invariant forall key :: key in all - tmp ==> Agree(Get(row, key), Get(other, key), eq)
      decreases |tmp|
    {
      var key :| key in tmp;
      var value1 := Get(row, key);
      var value2 := Get(other, key);
      if value1.None? && value2.Some? {
        return false;
      }
      if value2.None? && value1.Some? {
        return false;
      }
      if value1 != value2 && !eq(value1.value, value2.value) {
        return false;
      }
      tmp := tmp - {key};
    }
    return true;
  }

  // ---- properties ---------------------------------------------------------

  /** A row equals itself, whatever equals() does: every value is the same
      object as itself. */
  lemma Reflexive<V>(row: Row<V>, eq: (V, V) -> bool)
    ensures RowEquals(row, TreeMapArg(row), eq)
  {
  }

  /** Between two rows the relation is symmetric when equals() is. */
  lemma Symmetric<V>(a: Row<V>, b: Row<V>, eq: (V, V) -> bool)
    requires forall x, y :: eq(x, y) == eq(y, x)
    ensures RowEquals(a, TreeMapArg(b), eq) == RowEquals(b, TreeMapArg(a), eq)
  {
    if RowEquals(a, TreeMapArg(b), eq) {
      forall key | key in b.Keys + a.Keys
        ensures Agree(Get(b, key), Get(a, key), eq)
      {
        assert Agree(Get(a, key), Get(b, key), eq);
      }
    }
    if RowEquals(b, TreeMapArg(a), eq) {
      forall key | key in a.Keys + b.Keys
        ensures Agree(Get(a, key), Get(b, key), eq)
      {
        assert Agree(Get(b, key), Get(a, key), eq);
      }
    }
  }

  /** A key mapped to null counts the same as a missing key. */
  lemma NullSameAsMissing<V>(row: Row<V>, o: Other<V>, key: string, eq: (V, V) -> bool)
    ensures RowEquals(row[key := None], o, eq) == RowEquals(row - {key}, o, eq)
  {
    var with := row[key := None];
    var without := row - {key};
    forall k
      ensures Get(with, k) == Get(without, k)
    {
    }
    if o.TreeMapArg? {
      if RowEquals(with, o, eq) {
        forall k | k in without.Keys + o.m.Keys
          ensures Agree(Get(without, k), Get(o.m, k), eq)
        {
          assert k in with.Keys + o.m.Keys;
        }
      }
      if RowEquals(without, o, eq) {
        forall k | k in with.Keys + o.m.Keys
          ensures Agree(Get(with, k), Get(o.m, k), eq)
        {
          if k !in without.Keys + o.m.Keys {
            assert k == key && Get(with, k).None? && Get(o.m, k).None?;
          }
        }
      }
    }
  }

  /** Anything that is not a TreeMap is unequal to every row. */
  lemma NotTreeMapUnequal<V>(row: Row<V>, eq: (V, V) -> bool)
    ensures !RowEquals(row, NotTreeMap, eq)
  {
  }
}
