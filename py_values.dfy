/**
 * Python values as the core passes them around (`None`, `bool`, `int`, `str`),
 * what the sqlite3 driver stores for each of them, and how SQLite compares the
 * stored values in UNIQUE constraints, WHERE clauses and ORDER BY.
 */
module PyValues {
  import opened Text

  /** The "bad id" sentinel every table lookup and insert returns on failure (values.py:15). */
  const BAD_ID: int := -1

  datatype PyValue = PyNone | PyBool(b: bool) | PyInt(i: int) | PyStr(s: string)

  /**
   * The Python exceptions the core raises or lets escape; RequestException is
   * what the `requests` library raises when a page cannot be fetched at all.
   */
  datatype PyError = TypeError | ValueError | AssertionError | OperationalError | AttributeError | KeyError | RequestException

  /** The storage classes the core's columns can hold. */
  datatype SqlValue = SqlNull | SqlInteger(n: int) | SqlText(t: string)

  /** What the sqlite3 driver binds for a Python value: `None` is NULL and a bool is 0 or 1. */
  function Stored(v: PyValue): (r: SqlValue)
    ensures r == SqlNull <==> v == PyNone
  {
    match v
    case PyNone => SqlNull
    case PyBool(b) => SqlInteger(if b then 1 else 0)
    case PyInt(i) => SqlInteger(i)
    case PyStr(s) => SqlText(s)
  }

  /**
   * SQL `a = b` is TRUE. NULL equals nothing, not even NULL, which is why a
   * UNIQUE column admits any number of NULLs and `WHERE col = NULL` finds no row.
   */
  predicate Clash(a: PyValue, b: PyValue) {
    Stored(a) != SqlNull && Stored(a) == Stored(b)
  }

  lemma ClashSymmetric(a: PyValue, b: PyValue)
    ensures Clash(a, b) <==> Clash(b, a)
  {
  }

  /** SQLite's ordering of stored values: NULL first, then numbers, then text (BINARY collation). */
  predicate SqlLess(a: SqlValue, b: SqlValue) {
    match (a, b)
    case (SqlNull, SqlNull) => false
    case (SqlNull, _) => true
    case (SqlInteger(m), SqlInteger(n)) => m < n
    case (SqlInteger(_), SqlText(_)) => true
    case (SqlText(s), SqlText(t)) => TextLess(s, t)
    case _ => false
  }

  /** SqlLess is a strict total order on stored values. */
  lemma SqlLessIsStrictTotalOrder(a: SqlValue, b: SqlValue, c: SqlValue)
    ensures !SqlLess(a, a)
    ensures SqlLess(a, b) && SqlLess(b, c) ==> SqlLess(a, c)
    ensures a != b ==> SqlLess(a, b) || SqlLess(b, a)
  {
    if a.SqlText? {
      TextLessIrreflexive(a.t);
    }
    if a.SqlText? && b.SqlText? && c.SqlText? && SqlLess(a, b) && SqlLess(b, c) {
      TextLessTransitive(a.t, b.t, c.t);
    }
    if a.SqlText? && b.SqlText? && a != b {
      TextLessTotal(a.t, b.t);
    }
  }

  /** `f"{v}"`: how a value is rendered inside an f-string. */
  function Render(v: PyValue): string {
    match v
    case PyNone => "None"
    case PyBool(b) => if b then "True" else "False"
    case PyInt(i) => IntToString(i)
    case PyStr(s) => s
  }
}
