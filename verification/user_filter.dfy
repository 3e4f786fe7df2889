/** `UserFilterInput`: the query parameters of `GET /users/`, turned into a
    conjunction of text-column clauses on `username`, `email` and `full_name`
    plus the shared paging fields. */
module UserFilter {
  import opened Wrappers
  import opened Query
  import StringFilter
  import Like
  import Listing

  /** `UsernameFilter` / `EmailFilter` / `FullNameFilter`. */
  type FieldFilter = Listing.FieldFilter<string>

  /** A nil filter is `None`. */
  datatype UserFilterInput = UserFilterInput(
    paging: Listing.Paging,
    username: Option<FieldFilter>,
    email: Option<FieldFilter>,
    fullName: Option<FieldFilter>)

  /** Go's run-time panic when `Val[0]` indexes an empty, non-nil slice. */
  datatype BuildError = IndexOutOfRange

  function WithDefaults(f: UserFilterInput): UserFilterInput {
    UserFilterInput(Listing.WithDefaults(f.paging), Listing.FilterDefaults(f.username), Listing.FilterDefaults(f.email), Listing.FilterDefaults(f.fullName))
  }

  function Strs(vals: seq<string>): (r: seq<Value>)
    ensures |r| == |vals|
    ensures forall i :: 0 <= i < |r| ==> r[i] == Str(vals[i])
  {
    seq(|vals|, i requires 0 <= i < |vals| => Str(vals[i]))
  }

  /** The `Where` call one `case` of the switch makes: the list operators bind
      the whole value list, the pattern operators bind one LIKE pattern built
      from the first value. */
  function FieldClause(column: string, op: StringFilter.Operator, vals: seq<string>): (c: Clause)
    requires StringFilter.UsesPattern(op) ==> |vals| > 0
    ensures c.column == column
  {
    match op
    case Equals => Clause(column, Eq, Strs(vals))
    case NotEquals => Clause(column, Ne, Strs(vals))
    case In => Clause(column, In, Strs(vals))
    case NotIn => Clause(column, NotIn, Strs(vals))
    case Contains => Clause(column, LikeOp, [Str("%" + vals[0] + "%")])
    case StartsWith => Clause(column, LikeOp, [Str(vals[0] + "%")])
    case EndsWith => Clause(column, LikeOp, [Str("%" + vals[0])])
  }

  /** One `if filter.X != nil && filter.X.Val != nil { switch … }` block: no
      clause unless the filter and its value list are both present and the
      operator is one of the seven; a pattern operator on an empty list panics. */
  function FieldClauses(column: string, f: Option<FieldFilter>): (r: Result<seq<Clause>, BuildError>)
    ensures r.Failure? <==>
              f.Some? && f.value.val.Some? && |f.value.val.value| == 0
              && StringFilter.Parse(f.value.op).Some? && StringFilter.UsesPattern(StringFilter.Parse(f.value.op).value)
    ensures r.Success? ==> |r.value| <= 1
    ensures r.Success? && |r.value| == 1 <==>
              f.Some? && f.value.val.Some? && StringFilter.Parse(f.value.op).Some? && !r.Failure?
    ensures r.Success? ==> forall i :: 0 <= i < |r.value| ==> r.value[i].column == column
    ensures r.Success? && |r.value| == 1 ==>
              r.value[0] == FieldClause(column, StringFilter.Parse(f.value.op).value, f.value.val.value)
  {
    match f
    case None => Success([])
    case Some(ff) =>
      match ff.val
      case None => Success([])
      case Some(vals) =>
        match StringFilter.Parse(ff.op)
        case None => Success([])
        case Some(op) =>
          if StringFilter.UsesPattern(op) && |vals| == 0 then Failure(IndexOutOfRange)
          else Success([FieldClause(column, op, vals)])
  }

  /** The position of a user column in `ApplyFilter`'s order. */
  function ColumnRank(column: string): int {
    if column == "username" then 0
    else if column == "email" then 1
    else if column == "full_name" then 2
    else 3
  }

  /** `ApplyFilter`: the username, email and full-name blocks in that order,
      each contributing at most one clause. */
  function ApplyFilter(f: UserFilterInput): (r: Result<seq<Clause>, BuildError>)
    ensures r.Failure? <==>
              FieldClauses("username", f.username).Failure?
              || FieldClauses("email", f.email).Failure?
              || FieldClauses("full_name", f.fullName).Failure?
    ensures r.Success? ==> |r.value| <= 3
    ensures r.Success? ==> forall i :: 0 <= i < |r.value| ==> ColumnRank(r.value[i].column) < 3
    ensures r.Success? ==> forall i, j :: 0 <= i < j < |r.value| ==> ColumnRank(r.value[i].column) < ColumnRank(r.value[j].column)
  {
    var u :- FieldClauses("username", f.username);
    var e :- FieldClauses("email", f.email);
    var n :- FieldClauses("full_name", f.fullName);
    Success(u + e + n)
  }

  /** What a filter on one text column asks of the column's value, stated
      without LIKE: equality, membership, substring, prefix or suffix. */
  predicate Meets(op: StringFilter.Operator, vals: seq<string>, s: string) {
    match op
    case Equals => |vals| == 1 && s == vals[0]
    case NotEquals => |vals| == 1 && s != vals[0]
    case In => s in vals
    case NotIn => s !in vals
    case Contains => |vals| > 0 && Like.Contains(s, vals[0])
    case StartsWith => |vals| > 0 && Like.StartsWith(s, vals[0])
    case EndsWith => |vals| > 0 && Like.EndsWith(s, vals[0])
  }

  /** A pattern operator's first value has no `%` or `_` of its own. */
  predicate LiteralPatterns(f: Option<FieldFilter>) {
    f.Some? && f.value.val.Some? && |f.value.val.value| > 0 ==> Like.NoWildcards(f.value.val.value[0])
  }

  /** What a present field filter asks of a row, or nothing when the block adds no clause. */
  predicate FieldMeets(column: string, f: Option<FieldFilter>, row: Row) {
    match f
    case None => true
    case Some(ff) =>
      match ff.val
      case None => true
      case Some(vals) =>
        match StringFilter.Parse(ff.op)
        case None => true
        case Some(op) => column in row && row[column].Str? && Meets(op, vals, row[column].s)
  }

  lemma StrsMember(vals: seq<string>, s: string)
    ensures Str(s) in Strs(vals) <==> s in vals
  {
    if s in vals {
      var i :| 0 <= i < |vals| && vals[i] == s;
      assert Strs(vals)[i] == Str(s);
    }
  }

  /** The clause built for one operator holds of a text value exactly when
      the value meets the operator, LIKE patterns included. */
  lemma FieldClauseMeaning(column: string, op: StringFilter.Operator, vals: seq<string>, row: Row)
    requires StringFilter.UsesPattern(op) ==> |vals| > 0 && Like.NoWildcards(vals[0])
    requires column in row ==> row[column].Str?
    ensures Holds(FieldClause(column, op, vals), row) <==> column in row && Meets(op, vals, row[column].s)
  {
    if column in row {
      var s := row[column].s;
      match op
      case Contains => Like.LikeContains(s, vals[0]);
      case StartsWith => Like.LikeStartsWith(s, vals[0]);
      case EndsWith => Like.LikeEndsWith(s, vals[0]);
      case In => StrsMember(vals, s);
      case NotIn => StrsMember(vals, s);
      case Equals =>
      case NotEquals =>
    }
  }

  lemma FieldClausesMeaning(column: string, f: Option<FieldFilter>, row: Row)
    requires FieldClauses(column, f).Success?
    requires LiteralPatterns(f)
    requires column in row ==> row[column].Str?
    ensures AllHold(FieldClauses(column, f).value, row) <==> FieldMeets(column, f, row)
  {
    var cs := FieldClauses(column, f).value;
    if |cs| == 1 {
      FieldClauseMeaning(column, StringFilter.Parse(f.value.op).value, f.value.val.value, row);
    }
  }

  /** The three filterable user columns hold text wherever they are present. */
  predicate TextColumns(row: Row) {
    && ("username" in row ==> row["username"].Str?)
    && ("email" in row ==> row["email"].Str?)
    && ("full_name" in row ==> row["full_name"].Str?)
  }

  /** A user row passes the built clauses exactly when it meets every present
      field filter (user columns hold text; search values carry no wildcard). */
  lemma ApplyFilterMeaning(f: UserFilterInput, row: Row)
    requires ApplyFilter(f).Success?
    requires LiteralPatterns(f.username) && LiteralPatterns(f.email) && LiteralPatterns(f.fullName)
    requires TextColumns(row)
    ensures AllHold(ApplyFilter(f).value, row) <==>
              FieldMeets("username", f.username, row)
              && FieldMeets("email", f.email, row)
              && FieldMeets("full_name", f.fullName, row)
  {
    var u := FieldClauses("username", f.username).value;
    var e := FieldClauses("email", f.email).value;
    var n := FieldClauses("full_name", f.fullName).value;
    FieldClausesMeaning("username", f.username, row);
    FieldClausesMeaning("email", f.email, row);
    FieldClausesMeaning("full_name", f.fullName, row);
    AllHoldConcat(u, e, row);
    AllHoldConcat(u + e, n, row);
  }

  /** What the whole filter asks of a row: every present field filter is met. */
  predicate RowMeets(f: UserFilterInput, row: Row) {
    FieldMeets("username", f.username, row) && FieldMeets("email", f.email, row) && FieldMeets("full_name", f.fullName, row)
  }

  /** No search value of a pattern operator carries a wildcard of its own. */
  predicate AllLiteral(f: UserFilterInput) {
    LiteralPatterns(f.username) && LiteralPatterns(f.email) && LiteralPatterns(f.fullName)
  }

  /** `contains "doe"` on `username` matches "john_doe" and "jane_doe". */
  lemma ContainsDoeExample()
    ensures var c := FieldClause("username", StringFilter.Contains, ["doe"]);
            && Holds(c, map["username" := Str("john_doe")])
            && Holds(c, map["username" := Str("jane_doe")])
            && !Holds(c, map["username" := Str("john_smith")])
  {
    var row1: Row := map["username" := Str("john_doe")];
    var row2: Row := map["username" := Str("jane_doe")];
    var row3: Row := map["username" := Str("john_smith")];
    FieldClauseMeaning("username", StringFilter.Contains, ["doe"], row1);
    FieldClauseMeaning("username", StringFilter.Contains, ["doe"], row2);
    FieldClauseMeaning("username", StringFilter.Contains, ["doe"], row3);
    assert Like.OccursAt("john_doe", "doe", 5);
    assert Like.OccursAt("jane_doe", "doe", 5);
    forall k | 0 <= k <= |"john_smith"|
      ensures !Like.OccursAt("john_smith", "doe", k)
    {
      if k + 3 <= 10 {
        assert "john_smith"[k..k + 3][0] == "john_smith"[k] != 'd';
      }
    }
  }
}
