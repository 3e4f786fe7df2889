/** In-memory meaning of the `WHERE` conditions the list filters build: a row
    is a map from column name to value, a clause is `column op ?` with the
    values bound to the placeholder, and a query's clauses are conjoined. */
module Query {
  import Like

  /** A column value: text or an integer (the `decimal` amount and price
      columns are modelled as integers). */
  datatype Value = Str(s: string) | Num(n: int)

  /** A table row; a column absent from the map is SQL NULL. */
  type Row = map<string, Value>

  /** The comparison operators that appear in the filters' `Where` strings. */
  datatype Comparison = Eq | Ne | In | NotIn | Gt | Lt | Ge | Le | LikeOp

  /** `Where("<column> <op> ?", values)`: a single bound value is a list of one. */
  datatype Clause = Clause(column: string, op: Comparison, values: seq<Value>)

  /** Code-point lexicographic order on text. */
  predicate StrLe(a: string, b: string)
    decreases |a|
  {
    |a| == 0 || (|b| > 0 && (a[0] < b[0] || (a[0] == b[0] && StrLe(a[1..], b[1..]))))
  }

  /** A total order on values: numbers numerically, text lexicographically,
      and every number before every text (a column never mixes the two). */
  predicate ValueLe(a: Value, b: Value) {
    match (a, b)
    case (Num(x), Num(y)) => x <= y
    case (Str(x), Str(y)) => StrLe(x, y)
    case (Num(_), Str(_)) => true
    case (Str(_), Num(_)) => false
  }

  predicate ValueLess(a: Value, b: Value) {
    ValueLe(a, b) && a != b
  }

  /** The store accepts the clause: IN and NOT IN take a list, every other
      operator compares against exactly one bound value (a longer list would
      be a row-value comparison the column type does not support). */
  predicate Accepted(c: Clause) {
    c.op == In || c.op == NotIn || |c.values| == 1
  }

  predicate AllAccepted(cs: seq<Clause>) {
    forall i :: 0 <= i < |cs| ==> Accepted(cs[i])
  }

  /** `x op v` for a non-NULL column value `x` and the single bound value `v`. */
  predicate Compare(op: Comparison, x: Value, v: Value) {
    match op
    case Eq => x == v
    case Ne => x != v
    case Gt => ValueLess(v, x)
    case Lt => ValueLess(x, v)
    case Ge => ValueLe(v, x)
    case Le => ValueLe(x, v)
    case LikeOp => x.Str? && v.Str? && Like.Like(x.s, v.s)
    case In => x == v
    case NotIn => x != v
  }

  /** The clause is true of the row; any comparison with NULL is not true. */
  predicate Holds(c: Clause, row: Row) {
    && c.column in row
    && match c.op
       case In => row[c.column] in c.values
       case NotIn => row[c.column] !in c.values
       case _ => |c.values| == 1 && Compare(c.op, row[c.column], c.values[0])
  }

  /** The conjunction of all clauses. */
  predicate AllHold(cs: seq<Clause>, row: Row) {
    forall i :: 0 <= i < |cs| ==> Holds(cs[i], row)
  }

  lemma {:induction false} StrLeTotal(a: string, b: string)
    ensures StrLe(a, b) || StrLe(b, a)
    decreases |a|
  {
    if |a| > 0 && |b| > 0 && a[0] == b[0] {
      StrLeTotal(a[1..], b[1..]);
    }
  }

  lemma {:induction false} StrLeTransitive(a: string, b: string, c: string)
    requires StrLe(a, b) && StrLe(b, c)
    ensures StrLe(a, c)
    decreases |a|
  {
    if |a| > 0 && a[0] == b[0] && b[0] == c[0] {
      StrLeTransitive(a[1..], b[1..], c[1..]);
    }
  }

  lemma {:induction false} StrLeAntisymmetric(a: string, b: string)
    requires StrLe(a, b) && StrLe(b, a)
    ensures a == b
    decreases |a|
  {
    if |a| > 0 {
      StrLeAntisymmetric(a[1..], b[1..]);
      assert a == [a[0]] + a[1..] && b == [b[0]] + b[1..];
    }
  }

  lemma ValueLeTotal(a: Value, b: Value)
    ensures ValueLe(a, b) || ValueLe(b, a)
  {
    if a.Str? && b.Str? {
      StrLeTotal(a.s, b.s);
    }
  }

  lemma ValueLeTransitive(a: Value, b: Value, c: Value)
    requires ValueLe(a, b) && ValueLe(b, c)
    ensures ValueLe(a, c)
  {
    if a.Str? && b.Str? && c.Str? {
      StrLeTransitive(a.s, b.s, c.s);
    }
  }

  /** `>=` is `>` or `=`, as in SQL: the order on values is antisymmetric. */
  lemma GeIsGtOrEq(x: Value, v: Value)
    ensures Compare(Ge, x, v) <==> Compare(Gt, x, v) || Compare(Eq, x, v)
  {
    if x.Str? && v.Str? && ValueLe(v, x) && x != v {
      assert ValueLess(v, x);
    }
    if x.Str? && v.Str? && x == v {
      StrLeTotal(x.s, x.s);
    }
  }

  /** Conjoining two clause lists is conjoining their conditions. */
  lemma AllHoldConcat(a: seq<Clause>, b: seq<Clause>, row: Row)
    ensures AllHold(a + b, row) <==> AllHold(a, row) && AllHold(b, row)
  {
    if AllHold(a, row) && AllHold(b, row) {
      forall i | 0 <= i < |a + b|
        ensures Holds((a + b)[i], row)
      {
        if i >= |a| {
          assert (a + b)[i] == b[i - |a|];
        }
      }
    }
    if AllHold(a + b, row) {
      forall i | 0 <= i < |a|
        ensures Holds(a[i], row)
      {
        assert (a + b)[i] == a[i];
      }
      forall i | 0 <= i < |b|
        ensures Holds(b[i], row)
      {
        assert (a + b)[|a| + i] == b[i];
      }
    }
  }
}
