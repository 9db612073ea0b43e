/**
 * The standard library's stable sort by a natural-number key.
 */
module StableSort {

  datatype Keyed<+T> = Keyed(key: nat, item: T)

  ghost predicate Ascending<T>(c: seq<Keyed<T>>) { forall i, j :: 0 <= i < j < |c| ==> c[i].key <= c[j].key }

  /** `e` behind everything whose key is no larger. */
  function Insert<T>(c: seq<Keyed<T>>, e: Keyed<T>): (r: seq<Keyed<T>>)
    ensures |r| == |c| + 1
  {
    if c == [] || c[|c| - 1].key <= e.key then c + [e] else Insert(c[..|c| - 1], e) + [c[|c| - 1]]
  }

  function Sort<T>(c: seq<Keyed<T>>): (r: seq<Keyed<T>>)
    ensures |r| == |c|
  {
    if c == [] then [] else Insert(Sort(c[..|c| - 1]), c[|c| - 1])
  }

  lemma {:induction false} InsertBound<T>(c: seq<Keyed<T>>, e: Keyed<T>, limit: nat)
    requires e.key <= limit && forall i :: 0 <= i < |c| ==> c[i].key <= limit
    ensures forall i :: 0 <= i < |Insert(c, e)| ==> Insert(c, e)[i].key <= limit
  {
    if c != [] && c[|c| - 1].key > e.key { InsertBound(c[..|c| - 1], e, limit); }
  }

  lemma {:induction false} InsertAscends<T>(c: seq<Keyed<T>>, e: Keyed<T>)
    requires Ascending(c)
    ensures Ascending(Insert(c, e))
  {
    if c != [] && c[|c| - 1].key > e.key {
      InsertAscends(c[..|c| - 1], e);
      InsertBound(c[..|c| - 1], e, c[|c| - 1].key);
    }
  }

  lemma {:induction false} SortAscends<T>(c: seq<Keyed<T>>)
    ensures Ascending(Sort(c))
  {
    if c != [] {
      SortAscends(c[..|c| - 1]);
      InsertAscends(Sort(c[..|c| - 1]), c[|c| - 1]);
    }
  }
}
