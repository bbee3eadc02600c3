/** `_reorder_columns`: the known columns in a canonical order, then every
    other column in its original order. */
module ColumnOrder {
  import opened SeqUtil

  /** The canonical columns that the frame has, followed by the frame's
      remaining columns. */
  function Reorder(canonical: seq<string>, columns: seq<string>): (r: seq<string>)
    ensures forall c :: c in r <==> c in columns
    ensures r == Filter(canonical, c => c in columns) + Filter(columns, c => c !in canonical)
  {
    var existing := Filter(canonical, c => c in columns);
    var others := Filter(columns, c => c !in existing);
    FilterExtensional(columns, c => c !in existing, c => c !in canonical);
    existing + others
  }

  /** Without repeated names the reordering is a permutation of the
      columns: every column appears exactly as often as before. */
  lemma ReorderPermutation(canonical: seq<string>, columns: seq<string>)
    requires NoDuplicates(canonical) && NoDuplicates(columns)
    ensures multiset(Reorder(canonical, columns)) == multiset(columns)
    ensures NoDuplicates(Reorder(canonical, columns))
  {
    var existing := Filter(canonical, c => c in columns);
    var others := Filter(columns, c => c !in canonical);
    var r := Reorder(canonical, columns);
    forall x
      ensures multiset(r)[x] == multiset(columns)[x]
    {
      FilterMultiset(canonical, c => c in columns, x);
      FilterMultiset(columns, c => c !in canonical, x);
      NoDuplicatesCount(canonical, x);
      NoDuplicatesCount(columns, x);
    }
    assert multiset(r) == multiset(columns);
    FilterNoDuplicates(canonical, c => c in columns);
    FilterNoDuplicates(columns, c => c !in canonical);
    forall i, j | 0 <= i < j < |r|
      ensures r[i] != r[j]
    {
      if i < |existing| && j >= |existing| {
        assert r[i] in existing && r[j] in others;
      }
    }
  }

  /** Every column before a canonical column is canonical too: the
      canonical columns form a prefix of the result. */
  lemma ReorderCanonicalFirst(canonical: seq<string>, columns: seq<string>, i: int, j: int)
    requires 0 <= i < j < |Reorder(canonical, columns)|
    requires Reorder(canonical, columns)[j] in canonical
    ensures Reorder(canonical, columns)[i] in canonical
  {
    var existing := Filter(canonical, c => c in columns);
    var r := Reorder(canonical, columns);
    var others := Filter(columns, c => c !in canonical);
    forall k | |existing| <= k < |r|
      ensures r[k] !in canonical
    {
      assert r[k] == others[k - |existing|];
    }
    assert r[i] == existing[i];
  }
}
