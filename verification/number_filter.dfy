/** The operators a numeric column filter may name (`NumberFilterOperator`),
    and the SQL comparison each one becomes. */
module NumberFilter {
  import opened Wrappers
  import Query
  import Listing

  datatype Operator =
    | Equals | NotEquals | In | NotIn
    | GreaterThan | LessThan | GreaterThanOrEqual | LessThanOrEqual

  function Name(op: Operator): string {
    match op
    case Equals => "equals"
    case NotEquals => "not_equals"
    case In => "in"
    case NotIn => "not_in"
    case GreaterThan => "greater_than"
    case LessThan => "less_than"
    case GreaterThanOrEqual => "greater_than_or_equal"
    case LessThanOrEqual => "less_than_or_equal"
  }

  /** The operator whose text is exactly `s`, if any. */
  function Parse(s: string): (r: Option<Operator>)
    ensures r.Some? ==> Name(r.value) == s
  {
    if s == "equals" then Some(Equals)
    else if s == "not_equals" then Some(NotEquals)
    else if s == "in" then Some(In)
    else if s == "not_in" then Some(NotIn)
    else if s == "greater_than" then Some(GreaterThan)
    else if s == "less_than" then Some(LessThan)
    else if s == "greater_than_or_equal" then Some(GreaterThanOrEqual)
    else if s == "less_than_or_equal" then Some(LessThanOrEqual)
    else None
  }

  lemma ParseName(op: Operator)
    ensures Parse(Name(op)) == Some(op)
  {
  }

  /** The comparison in the `Where` string: `=`, `!=`, `IN`, `NOT IN`, `>`,
      `<`, `>=`, `<=`. */
  function Comparison(op: Operator): Query.Comparison {
    match op
    case Equals => Query.Eq
    case NotEquals => Query.Ne
    case In => Query.In
    case NotIn => Query.NotIn
    case GreaterThan => Query.Gt
    case LessThan => Query.Lt
    case GreaterThanOrEqual => Query.Ge
    case LessThanOrEqual => Query.Le
  }

  /** The eight operators map one-to-one onto eight distinct comparisons, none
      of them LIKE. */
  lemma ComparisonInjective(a: Operator, b: Operator)
    ensures Comparison(a) == Comparison(b) ==> a == b
    ensures Comparison(a) != Query.LikeOp
  {
  }

  /** `UserIdFilter` / `AmountFilter`, with a `[]uint` value list. */
  type Filter = Listing.FieldFilter<nat>

  function Nums(vals: seq<nat>): (r: seq<Query.Value>)
    ensures |r| == |vals|
    ensures forall i :: 0 <= i < |r| ==> r[i] == Query.Num(vals[i])
  {
    seq(|vals|, i requires 0 <= i < |vals| => Query.Num(vals[i]))
  }

  /** One `if filter.X != nil && filter.X.Val != nil { switch … }` block on a
      numeric column: the whole value list is bound to the operator's
      comparison, and an operator outside the eight adds nothing. */
  function Clauses(column: string, f: Option<Filter>): (r: seq<Query.Clause>)
    ensures |r| <= 1
    ensures |r| == 1 <==> f.Some? && f.value.val.Some? && Parse(f.value.op).Some?
    ensures forall i :: 0 <= i < |r| ==> r[i].column == column
    ensures |r| == 1 ==> r[0].op == Comparison(Parse(f.value.op).value) && |r[0].values| == |f.value.val.value|
    ensures |r| == 1 ==> forall i :: 0 <= i < |r[0].values| ==> r[0].values[i] == Query.Num(f.value.val.value[i])
  {
    match f
    case None => []
    case Some(ff) =>
      match ff.val
      case None => []
      case Some(vals) =>
        match Parse(ff.op)
        case None => []
        case Some(op) => [Query.Clause(column, Comparison(op), Nums(vals))]
  }

  /** What the operator asks of a column value `n`, stated on integers: the
      six comparisons take exactly one value, the list operators any number. */
  predicate Meets(op: Operator, vals: seq<nat>, n: int) {
    match op
    case Equals => |vals| == 1 && n == vals[0]
    case NotEquals => |vals| == 1 && n != vals[0]
    case In => n in vals
    case NotIn => n !in vals
    case GreaterThan => |vals| == 1 && n > vals[0]
    case LessThan => |vals| == 1 && n < vals[0]
    case GreaterThanOrEqual => |vals| == 1 && n >= vals[0]
    case LessThanOrEqual => |vals| == 1 && n <= vals[0]
  }

  /** What a present numeric filter asks of a row; nothing when it adds no clause. */
  predicate FieldMeets(column: string, f: Option<Filter>, row: Query.Row) {
    match f
    case None => true
    case Some(ff) =>
      match ff.val
      case None => true
      case Some(vals) =>
        match Parse(ff.op)
        case None => true
        case Some(op) => column in row && row[column].Num? && Meets(op, vals, row[column].n)
  }

  lemma NumsMember(vals: seq<nat>, n: int)
    ensures Query.Num(n) in Nums(vals) <==> n in vals
  {
    if n in vals {
      var i :| 0 <= i < |vals| && vals[i] == n;
      assert Nums(vals)[i] == Query.Num(n);
    }
  }

  /** The clause a numeric filter builds holds of a numeric column exactly
      when the column's value meets the operator. */
  lemma ClausesMeaning(column: string, f: Option<Filter>, row: Query.Row)
    requires column in row ==> row[column].Num?
    ensures Query.AllHold(Clauses(column, f), row) <==> FieldMeets(column, f, row)
  {
    var cs := Clauses(column, f);
    if |cs| == 1 && column in row {
      var vals := f.value.val.value;
      var x := row[column];
      if Parse(f.value.op).value in {In, NotIn} {
        NumsMember(vals, x.n);
      } else if |vals| == 1 {
        assert cs[0].values[0] == Query.Num(vals[0]);
      }
    }
  }

  /** Every clause a numeric filter builds is one the store accepts exactly
      when a comparison operator carries a single value. */
  lemma ClausesAccepted(column: string, f: Option<Filter>)
    ensures Query.AllAccepted(Clauses(column, f)) <==>
              (|Clauses(column, f)| == 1 && Parse(f.value.op).value !in {In, NotIn} ==> |f.value.val.value| == 1)
  {
  }
}
