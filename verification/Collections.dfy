/** Iterating over hash tables. */
module Collections {

  /** The keys of a hash table in whatever order an iteration happens to yield them. */
  method Enumerate<T(==, !new)>(keys: set<T>) returns (order: seq<T>)
    ensures forall i, j | 0 <= i < j < |order| :: order[i] != order[j]
    ensures forall k :: k in order <==> k in keys
  {
    order := [];
    var rest := keys;
    while rest != {}
      invariant forall i, j | 0 <= i < j < |order| :: order[i] != order[j]
      invariant forall k :: k in keys <==> k in rest || k in order
      invariant forall k | k in order :: k !in rest
      decreases |rest|
    {
      var k :| k in rest;
      order := order + [k];
      rest := rest - {k};
    }
  }
}
