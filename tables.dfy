/** Tables keyed by an `INTEGER PRIMARY KEY AUTOINCREMENT` id: the rows of the store, looked up
    by a column, scanned in id order, inserted with the next id, or refreshed in place on a
    unique-key conflict. */
module Tables {
  import opened Wrappers

  /** The keys of `m` are ids in `1 .. next - 1`, as AUTOINCREMENT hands them out. */
  ghost predicate KeysBelow<V>(m: map<int, V>, next: int) {
    forall k :: k in m ==> 1 <= k < next
  }

  /** Every row carries its own key as its id. */
  ghost predicate IdsAreKeys<V>(m: map<int, V>, idOf: V -> Option<int>) {
    forall k :: k in m ==> idOf(m[k]) == Some(k)
  }

  /** No two rows share a value of the column `col` (a `UNIQUE` column). */
  ghost predicate UniqueColumn<V, K>(m: map<int, V>, col: V -> K) {
    forall a, b :: a in m && b in m && col(m[a]) == col(m[b]) ==> a == b
  }

  /** A well-formed AUTOINCREMENT table. */
  ghost predicate TableOk<V>(m: map<int, V>, next: int, idOf: V -> Option<int>) {
    next >= 1 && KeysBelow(m, next) && IdsAreKeys(m, idOf)
  }

  /** The rows with ids `lo .. hi - 1`, in id order (a table scan without `ORDER BY`). */
  function Rows<V>(m: map<int, V>, lo: int, hi: int): (r: seq<V>)
    decreases hi - lo
  {
    if lo >= hi then [] else (if lo in m then [m[lo]] else []) + Rows(m, lo + 1, hi)
  }

  /** A scanned row is a row with an id in the range, and every such row is scanned. */
  lemma {:induction false} RowsMembers<V>(m: map<int, V>, lo: int, hi: int, x: V)
    ensures x in Rows(m, lo, hi) <==> exists k :: lo <= k < hi && k in m && m[k] == x
    decreases hi - lo
  {
    if lo < hi {
      RowsMembers(m, lo + 1, hi, x);
      if lo in m && m[lo] == x {
        assert x in Rows(m, lo, hi);
      }
    }
  }

  /** The smallest id in `lo .. hi - 1` whose row satisfies `p` (`SELECT ... WHERE`, which finds
      the one row of a unique column). */
  function FindKey<V>(m: map<int, V>, p: V -> bool, lo: int, hi: int): (r: Option<int>)
    ensures r.Some? ==> lo <= r.value < hi && r.value in m && p(m[r.value])
    ensures r.Some? ==> forall k :: lo <= k < r.value && k in m ==> !p(m[k])
    ensures r.None? ==> forall k :: lo <= k < hi && k in m ==> !p(m[k])
    decreases hi - lo
  {
    if lo >= hi then None
    else if lo in m && p(m[lo]) then Some(lo)
    else FindKey(m, p, lo + 1, hi)
  }

  /** The rows of `m` that do not satisfy `p` (`DELETE ... WHERE`). */
  function RemoveWhere<V>(m: map<int, V>, p: V -> bool): (r: map<int, V>)
    ensures forall k :: k in r <==> k in m && !p(m[k])
    ensures forall k :: k in r ==> r[k] == m[k]
  {
    map k | k in m && !p(m[k]) :: m[k]
  }

  /** The ids of the rows of `m` that satisfy `p`. */
  function KeysWhere<V>(m: map<int, V>, p: V -> bool): (ks: set<int>)
    ensures forall k :: k in ks <==> k in m && p(m[k])
  {
    set k | k in m && p(m[k])
  }

  /** `RemoveWhere` deletes exactly the rows `KeysWhere` names. */
  lemma RemoveWhereSplits<V>(m: map<int, V>, p: V -> bool)
    ensures m.Keys == RemoveWhere(m, p).Keys + KeysWhere(m, p)
    ensures RemoveWhere(m, p).Keys !! KeysWhere(m, p)
    ensures |m.Keys| == |RemoveWhere(m, p).Keys| + |KeysWhere(m, p)|
  {
    assert m.Keys == RemoveWhere(m, p).Keys + KeysWhere(m, p);
  }

  /** The insert-or-refresh of `INSERT ... ON CONFLICT(key) DO UPDATE`: with a stored row whose
      key equals the new row's, that row is refreshed in place and no id is used; otherwise the
      new row gets the next id. */
  datatype Upserted<V> = Upserted(table: map<int, V>, next: int, id: int, inserted: bool)

  function Upsert<V>(m: map<int, V>, next: int, sameKey: V -> bool, refresh: V -> V, newRow: int -> V): (r: Upserted<V>)
    ensures r.id in r.table
    ensures r.inserted <==> FindKey(m, sameKey, 1, next).None?
    ensures r.inserted ==> r.id == next && r.next == next + 1 && r.table == m[next := newRow(next)]
    ensures !r.inserted ==> r.id == FindKey(m, sameKey, 1, next).value && r.next == next
                            && r.table == m[r.id := refresh(m[r.id])]
  {
    match FindKey(m, sameKey, 1, next)
    case Some(k) => Upserted(m[k := refresh(m[k])], next, k, false)
    case None => Upserted(m[next := newRow(next)], next + 1, next, true)
  }
}
