/**
 * An SQLite table with an `INTEGER PRIMARY KEY AUTOINCREMENT` column, seen as
 * a map from row id to row. AUTOINCREMENT hands out one more than the largest
 * id ever used, so ids are never reused; `nextId` is that counter.
 */
module Tables {
  import opened PyValues

  datatype Table<R> = Table(rows: map<int, R>, nextId: int)

  /** The intended `get_by_id`: the stored row, or the not-found sentinel that `values.NOT_FOUND` was evidently meant to be. */
  datatype Fetched<T> = Found(value: T) | NotFound

  /** A freshly created table. */
  function EmptyTable<R>(): (t: Table<R>)
    ensures WellNumbered(t) && t.rows == map[]
  {
    Table(map[], 1)
  }

  /** Every row id is positive and was handed out before `nextId`. */
  predicate WellNumbered<R>(t: Table<R>) {
    1 <= t.nextId && forall id | id in t.rows :: 1 <= id < t.nextId
  }

  /** No two different rows violate one of the table's UNIQUE constraints. */
  predicate NoConflicts<R>(t: Table<R>, conflict: (R, R) -> bool) {
    forall i, j | i in t.rows && j in t.rows && i != j :: !conflict(t.rows[i], t.rows[j])
  }

  /** `r` violates no UNIQUE constraint against a stored row. */
  predicate Admits<R>(t: Table<R>, conflict: (R, R) -> bool, r: R) {
    forall i | i in t.rows :: !conflict(t.rows[i], r) && !conflict(r, t.rows[i])
  }

  /** A successful INSERT: the row is stored under the next id. */
  function Append<R>(t: Table<R>, r: R): Table<R> {
    Table(t.rows[t.nextId := r], t.nextId + 1)
  }

  /** An INSERT that the constraints admit keeps the table numbered and conflict-free, and stores the row under a fresh id. */
  lemma AppendKeepsInvariant<R>(t: Table<R>, conflict: (R, R) -> bool, r: R)
    requires WellNumbered(t) && NoConflicts(t, conflict) && Admits(t, conflict, r)
    ensures WellNumbered(Append(t, r)) && NoConflicts(Append(t, r), conflict)
    ensures t.nextId !in t.rows && t.nextId >= 1
    ensures Append(t, r).rows[t.nextId] == r
    ensures forall id | id in t.rows :: id in Append(t, r).rows && Append(t, r).rows[id] == t.rows[id]
  {
    var t' := Append(t, r);
    forall i, j | i in t'.rows && j in t'.rows && i != j
      ensures !conflict(t'.rows[i], t'.rows[j])
    {
      if i != t.nextId && j != t.nextId {
        assert t'.rows[i] == t.rows[i] && t'.rows[j] == t.rows[j];
      }
    }
  }

  /** The first id at or after `from` whose row satisfies `matches`, or BAD_ID: a scan in rowid order. */
  function FirstMatchFrom<R>(t: Table<R>, matches: R -> bool, from: int): (id: int)
    requires 1 <= from
    ensures id == BAD_ID || (from <= id < t.nextId && id in t.rows && matches(t.rows[id]))
    ensures id == BAD_ID <==> forall k | from <= k < t.nextId && k in t.rows :: !matches(t.rows[k])
    ensures id != BAD_ID ==> forall k | from <= k < id && k in t.rows :: !matches(t.rows[k])
    decreases t.nextId - from
  {
    if from >= t.nextId then BAD_ID
    else if from in t.rows && matches(t.rows[from]) then from
    else FirstMatchFrom(t, matches, from + 1)
  }

  /**
   * `SELECT id FROM t WHERE ...` read through `fetch_value` and `if value:`:
   * the id of the first matching row, or BAD_ID when no row matches.
   */
  function Lookup<R>(t: Table<R>, matches: R -> bool): (id: int)
    requires WellNumbered(t)
    ensures id == BAD_ID <==> forall k | k in t.rows :: !matches(t.rows[k])
    ensures id != BAD_ID ==> id in t.rows && matches(t.rows[id])
    ensures id != BAD_ID ==> forall k | k in t.rows && k < id :: !matches(t.rows[k])
  {
    FirstMatchFrom(t, matches, 1)
  }

  /** `SELECT * FROM t WHERE id = ?`, when the query itself is sound. */
  function Get<R>(t: Table<R>, id: int): (r: Fetched<R>)
    ensures r.Found? <==> id in t.rows
    ensures r.Found? ==> r.value == t.rows[id]
  {
    if id in t.rows then Found(t.rows[id]) else NotFound
  }

  /** Round trip: once a row is appended, a lookup that only it satisfies finds its fresh id. */
  lemma {:induction false} LookupFindsAppended<R>(t: Table<R>, r: R, matches: R -> bool)
    requires WellNumbered(t) && matches(r)
    requires forall k | k in t.rows :: !matches(t.rows[k])
    ensures Lookup(Append(t, r), matches) == t.nextId
  {
    var t' := Append(t, r);
    assert WellNumbered(t');
    assert t.nextId in t'.rows && matches(t'.rows[t.nextId]);
    assert forall k | k in t'.rows && k != t.nextId :: k in t.rows && t'.rows[k] == t.rows[k];
  }

  /** `t'` is `t` after some INSERTs: every row of `t` is still there, unchanged, and the counter has not gone back. */
  ghost predicate Extends<R>(t: Table<R>, t': Table<R>) {
    t.nextId <= t'.nextId && forall k | k in t.rows :: k in t'.rows && t'.rows[k] == t.rows[k]
  }

  lemma AppendExtends<R>(t: Table<R>, r: R)
    requires WellNumbered(t)
    ensures Extends(t, Append(t, r))
  {
  }

  // ---------------------------------------------------------------- SELECT ... ORDER BY

  /** `a` sorts strictly before `b` under `ORDER BY key` (ascending) or `ORDER BY key DESC`. */
  predicate Precedes(a: SqlValue, b: SqlValue, desc: bool) {
    if desc then SqlLess(b, a) else SqlLess(a, b)
  }

  /** Whether row `id` is one the query's WHERE clause keeps. */
  predicate Candidate<R>(t: Table<R>, keep: R -> bool, id: int) {
    id in t.rows && keep(t.rows[id])
  }

  /** The candidate in `[from, nextId)` that sorts first (the lowest id among equal keys), or BAD_ID. */
  function First<R>(t: Table<R>, keep: R -> bool, key: R -> SqlValue, desc: bool, from: int): (b: int)
    requires 1 <= from
    ensures b == BAD_ID <==> forall k | from <= k < t.nextId :: !Candidate(t, keep, k)
    ensures b != BAD_ID ==> from <= b < t.nextId && Candidate(t, keep, b)
    ensures b != BAD_ID ==> forall k | from <= k < t.nextId && Candidate(t, keep, k) ::
      !Precedes(key(t.rows[k]), key(t.rows[b]), desc)
    decreases t.nextId - from
  {
    PrecedesOrder(desc);
    if from >= t.nextId then BAD_ID
    else
      var b := First(t, keep, key, desc, from + 1);
      if Candidate(t, keep, from) && (b == BAD_ID || !Precedes(key(t.rows[b]), key(t.rows[from]), desc)) then from
      else b
  }

  /** Sort order is a strict order whose complement ("not before") is transitive: a strict weak order. */
  lemma PrecedesOrder(desc: bool)
    ensures forall a, b :: Precedes(a, b, desc) ==> !Precedes(b, a, desc)
    ensures forall a, b, c :: !Precedes(a, b, desc) && !Precedes(b, c, desc) ==> !Precedes(a, c, desc)
  {
    forall a, b | Precedes(a, b, desc)
      ensures !Precedes(b, a, desc)
    {
      SqlLessIsStrictTotalOrder(a, b, a);
      SqlLessIsStrictTotalOrder(b, a, b);
    }
    forall a, b, c | !Precedes(a, b, desc) && !Precedes(b, c, desc)
      ensures !Precedes(a, c, desc)
    {
      SqlLessIsStrictTotalOrder(a, b, c);
      SqlLessIsStrictTotalOrder(c, b, a);
      SqlLessIsStrictTotalOrder(a, c, b);
      SqlLessIsStrictTotalOrder(b, c, a);
      SqlLessIsStrictTotalOrder(b, a, c);
      SqlLessIsStrictTotalOrder(c, a, b);
    }
  }

  /** The same table with one row deleted. */
  function Without<R>(t: Table<R>, id: int): (t': Table<R>)
    ensures t'.nextId == t.nextId && t'.rows.Keys == t.rows.Keys - {id}
    ensures forall k | k in t'.rows :: t'.rows[k] == t.rows[k]
  {
    Table(t.rows - {id}, t.nextId)
  }

  /**
   * `SELECT ... WHERE keep ORDER BY key [DESC]`: the ids of the kept rows,
   * each once, in key order.
   */
  function Ordered<R>(t: Table<R>, keep: R -> bool, key: R -> SqlValue, desc: bool): (ids: seq<int>)
    requires WellNumbered(t)
    ensures forall i | 0 <= i < |ids| :: ids[i] in t.rows && keep(t.rows[ids[i]])
    ensures forall k | Candidate(t, keep, k) :: k in ids
    ensures forall i, j | 0 <= i < j < |ids| :: ids[i] != ids[j]
    ensures forall i, j | 0 <= i < j < |ids| :: !Precedes(key(t.rows[ids[j]]), key(t.rows[ids[i]]), desc)
    decreases |t.rows|
  {
    var b := First(t, keep, key, desc, 1);
    if b == BAD_ID then []
    else
      var t' := Without(t, b);
      assert |t'.rows| < |t.rows| by {
        assert t'.rows.Keys < t.rows.Keys;
      }
      var rest := Ordered(t', keep, key, desc);
      OrderedStep(t, keep, key, desc, b, rest);
      [b] + rest
  }

  /** Putting the first candidate `b` before the ordered rest of the table orders the whole table. */
  lemma OrderedStep<R>(t: Table<R>, keep: R -> bool, key: R -> SqlValue, desc: bool, b: int, rest: seq<int>)
    requires WellNumbered(t) && Candidate(t, keep, b)
    requires forall k | 1 <= k < t.nextId && Candidate(t, keep, k) :: !Precedes(key(t.rows[k]), key(t.rows[b]), desc)
    requires forall i | 0 <= i < |rest| :: rest[i] in Without(t, b).rows && keep(Without(t, b).rows[rest[i]])
    requires forall k | Candidate(Without(t, b), keep, k) :: k in rest
    requires forall i, j | 0 <= i < j < |rest| :: rest[i] != rest[j]
    requires forall i, j | 0 <= i < j < |rest| :: !Precedes(key(Without(t, b).rows[rest[j]]), key(Without(t, b).rows[rest[i]]), desc)
    ensures forall i | 0 <= i < |[b] + rest| :: ([b] + rest)[i] in t.rows && keep(t.rows[([b] + rest)[i]])
    ensures forall k | Candidate(t, keep, k) :: k in [b] + rest
    ensures forall i, j | 0 <= i < j < |[b] + rest| :: ([b] + rest)[i] != ([b] + rest)[j]
    ensures forall i, j | 0 <= i < j < |[b] + rest| :: !Precedes(key(t.rows[([b] + rest)[j]]), key(t.rows[([b] + rest)[i]]), desc)
  {
    var t', ids := Without(t, b), [b] + rest;
    assert forall i | 0 <= i < |rest| :: ids[i + 1] == rest[i] && rest[i] != b && t'.rows[rest[i]] == t.rows[rest[i]];
    forall k | Candidate(t, keep, k)
      ensures k in ids
    {
      if k != b {
        assert Candidate(t', keep, k);
      }
    }
  }

  /** `LIMIT n`: SQLite reads a negative limit as no limit at all. */
  function Limit<T>(s: seq<T>, n: int): (r: seq<T>)
    ensures n < 0 ==> r == s
    ensures 0 <= n ==> |r| == if n < |s| then n else |s|
    ensures |r| <= |s| && r == s[..|r|]
  {
    if n < 0 || n >= |s| then s else s[..n]
  }

  /** `SELECT ...` with no ORDER BY, as SQLite answers it for a rowid table: ascending id order. */
  function IdsFrom<R>(t: Table<R>, from: int): (ids: seq<int>)
    requires 1 <= from
    ensures forall i | 0 <= i < |ids| :: ids[i] in t.rows && from <= ids[i]
    ensures forall k | k in t.rows && from <= k < t.nextId :: k in ids
    ensures forall i, j | 0 <= i < j < |ids| :: ids[i] < ids[j]
    decreases t.nextId - from
  {
    if from >= t.nextId then []
    else if from in t.rows then [from] + IdsFrom(t, from + 1)
    else IdsFrom(t, from + 1)
  }
}
