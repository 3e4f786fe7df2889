/** The operators a text column filter may name (`StringFilterOperator`). In Go
    the operator is a plain string, so any text can arrive; `Parse` recognises
    exactly the seven constants. */
module StringFilter {
  import opened Wrappers

  datatype Operator = Equals | Contains | StartsWith | EndsWith | NotEquals | In | NotIn

  /** The constant's text. */
  function Name(op: Operator): string {
    match op
    case Equals => "equals"
    case Contains => "contains"
    case StartsWith => "starts_with"
    case EndsWith => "ends_with"
    case NotEquals => "not_equals"
    case In => "in"
    case NotIn => "not_in"
  }

  /** The operator whose text is exactly `s`, if any. */
  function Parse(s: string): (r: Option<Operator>)
    ensures r.Some? ==> Name(r.value) == s
  {
    if s == "equals" then Some(Equals)
    else if s == "contains" then Some(Contains)
    else if s == "starts_with" then Some(StartsWith)
    else if s == "ends_with" then Some(EndsWith)
    else if s == "not_equals" then Some(NotEquals)
    else if s == "in" then Some(In)
    else if s == "not_in" then Some(NotIn)
    else None
  }

  /** Every constant is recognised, and only by its own text. */
  lemma ParseName(op: Operator)
    ensures Parse(Name(op)) == Some(op)
  {
  }

  /** The seven constants are pairwise distinct. */
  lemma NamesDistinct(a: Operator, b: Operator)
    requires a != b
    ensures Name(a) != Name(b)
  {
    ParseName(a);
    ParseName(b);
  }

  /** The operators whose filter builds a LIKE pattern from the first value. */
  predicate UsesPattern(op: Operator) {
    op == Contains || op == StartsWith || op == EndsWith
  }
}
