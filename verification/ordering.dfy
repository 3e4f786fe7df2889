/** `ORDER BY <column> [DESC]` over in-memory rows. A missing column is NULL
    and, as in PostgreSQL, sorts after every value in ascending order and
    before every value in descending order. Rows with equal keys may come in
    any order in SQL; the model fixes one (insertion order of a stable sort is
    not promised, only sortedness and permutation). */
module Ordering {
  import opened Wrappers
  import opened Query

  /** The sort key of a row on a column. */
  function SortKey(row: Row, column: string): Option<Value> {
    if column in row then Some(row[column]) else None
  }

  /** Ascending key order with NULL greatest. */
  predicate KeyLe(a: Option<Value>, b: Option<Value>) {
    b.None? || (a.Some? && ValueLe(a.value, b.value))
  }

  /** `a` may precede `b` in the requested direction. */
  predicate Before(a: Option<Value>, b: Option<Value>, desc: bool) {
    if desc then KeyLe(b, a) else KeyLe(a, b)
  }

  lemma BeforeTotal(a: Option<Value>, b: Option<Value>, desc: bool)
    ensures Before(a, b, desc) || Before(b, a, desc)
  {
    if a.Some? && b.Some? {
      ValueLeTotal(a.value, b.value);
    }
  }

  lemma BeforeTransitive(a: Option<Value>, b: Option<Value>, c: Option<Value>, desc: bool)
    requires Before(a, b, desc) && Before(b, c, desc)
    ensures Before(a, c, desc)
  {
    if a.Some? && b.Some? && c.Some? {
      if desc {
        ValueLeTransitive(c.value, b.value, a.value);
      } else {
        ValueLeTransitive(a.value, b.value, c.value);
      }
    }
  }

  function KeyOf<T>(toRow: T -> Row, column: string, x: T): Option<Value> {
    SortKey(toRow(x), column)
  }

  /** The sequence is ordered on `column` in the requested direction. */
  predicate SortedOn<T>(s: seq<T>, toRow: T -> Row, column: string, desc: bool) {
    forall i, j :: 0 <= i < j < |s| ==> Before(KeyOf(toRow, column, s[i]), KeyOf(toRow, column, s[j]), desc)
  }

  /** Inserts `x` into an ordered sequence. */
  function Insert<T(==)>(x: T, s: seq<T>, toRow: T -> Row, column: string, desc: bool): (r: seq<T>)
    requires SortedOn(s, toRow, column, desc)
    ensures multiset(r) == multiset(s) + multiset{x}
    ensures SortedOn(r, toRow, column, desc)
  {
    if |s| == 0 then [x]
    else if Before(KeyOf(toRow, column, x), KeyOf(toRow, column, s[0]), desc) then
      var r := [x] + s;
      forall j | 0 < j < |r|
        ensures Before(KeyOf(toRow, column, x), KeyOf(toRow, column, r[j]), desc)
      {
        if j > 1 {
          BeforeTransitive(KeyOf(toRow, column, x), KeyOf(toRow, column, s[0]), KeyOf(toRow, column, r[j]), desc);
        }
      }
      r
    else
      var tail := Insert(x, s[1..], toRow, column, desc);
      var r := [s[0]] + tail;
      assert s == [s[0]] + s[1..];
      BeforeTotal(KeyOf(toRow, column, x), KeyOf(toRow, column, s[0]), desc);
      forall j | 0 < j < |r|
        ensures Before(KeyOf(toRow, column, s[0]), KeyOf(toRow, column, r[j]), desc)
      {
        assert r[j] in multiset(tail);
        assert r[j] == x || r[j] in multiset(s[1..]);
        if r[j] != x {
          var k :| 0 <= k < |s[1..]| && s[1..][k] == r[j];
          assert s[k + 1] == r[j];
        }
      }
      r
  }

  /** `ORDER BY column [DESC]`: an ordered permutation of the input. */
  function Sort<T(==)>(s: seq<T>, toRow: T -> Row, column: string, desc: bool): (r: seq<T>)
    ensures multiset(r) == multiset(s)
    ensures SortedOn(r, toRow, column, desc)
  {
    if |s| == 0 then []
    else
      assert s == [s[0]] + s[1..];
      Insert(s[0], Sort(s[1..], toRow, column, desc), toRow, column, desc)
  }
}
