/** Small helpers shared by the whole model: an optional value and the
    enumeration of a Go map's keys in the order a range loop visits them. */
module Wrappers {

  /** A Go nilable pointer or a (value, found) pair. */
  datatype Option<+T> = None | Some(value: T)

  /** `order` lists every key of `keys` exactly once. Go leaves the order in
      which a map (or a concurrent map's IterCb) visits its keys unspecified,
      so the model takes that order as a parameter constrained by this. */
  predicate Enumerates<K>(order: seq<K>, keys: set<K>)
  {
    && (forall i, j | 0 <= i < j < |order| :: order[i] != order[j])
    && (forall i | 0 <= i < |order| :: order[i] in keys)
    && (forall k | k in keys :: k in order)
  }

  /** An enumeration has as many entries as the set has elements. */
  lemma {:induction false} EnumerationSize<K>(order: seq<K>, keys: set<K>)
    requires Enumerates(order, keys)
    ensures |order| == |keys|
  {
    if |order| > 0 {
      var last := order[|order| - 1];
      var rest := order[..|order| - 1];
      assert Enumerates(rest, keys - {last}) by {
        forall i | 0 <= i < |rest| ensures rest[i] in keys - {last} {
          assert order[i] != order[|order| - 1];
        }
        forall k | k in keys - {last} ensures k in rest {
          var i :| 0 <= i < |order| && order[i] == k;
          assert i != |order| - 1;
          assert rest[i] == k;
        }
      }
      EnumerationSize(rest, keys - {last});
    } else {
      assert keys == {};
    }
  }

  /** An enumeration lists exactly its key set. */
  lemma EnumeratedKeys<K>(order: seq<K>, keys: set<K>)
    requires Enumerates(order, keys)
    ensures (set j | 0 <= j < |order| :: order[j]) == keys
  {
    forall k | k in keys ensures k in (set j | 0 <= j < |order| :: order[j]) {
      var j :| 0 <= j < |order| && order[j] == k;
    }
  }
}
