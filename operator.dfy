/** Comparison operators (src/Version/Operator.php): the accepted tokens, the spelling `==`
    normalised to `=`, and the evaluation of an operator on the result of Version::compare. */
module Operators {
  import opened Wrappers
  import Versions

  /** One constructor per accepted token; `<>` and `!=` are kept apart because they render
      differently. */
  datatype Op = Eq | Lt | Gt | Le | Ge | Diamond | NotEq | Tilde

  /** The token an operator renders as: one of the accepted tokens, never the spelling `==`. */
  function Render(op: Op): (r: string)
    ensures r in {"=", "<", ">", "<=", ">=", "<>", "!=", "~"}
  {
    match op
    case Eq => "="
    case Lt => "<"
    case Gt => ">"
    case Le => "<="
    case Ge => ">="
    case Diamond => "<>"
    case NotEq => "!="
    case Tilde => "~"
  }

  /** The suggestion of the failure message for two near misses. */
  function Hint(token: string): Option<string>
  {
    if token == "~>" then Some("~") else if token == "!" then Some("!=") else None
  }

  /** The constructor: `==` reads as `=`; any token outside the list fails with a hint. */
  function Parse(token: string): (r: Result<Op>)
    ensures r.Ok? <==> token in {"==", "=", "<", ">", "<=", ">=", "<>", "!=", "~"}
    ensures r.Err? ==> r.error == InvalidOperator(token, Hint(token))
  {
    var t := if token == "==" then "=" else token;
    if t == "=" then Ok(Eq)
    else if t == "<" then Ok(Lt)
    else if t == ">" then Ok(Gt)
    else if t == "<=" then Ok(Le)
    else if t == ">=" then Ok(Ge)
    else if t == "<>" then Ok(Diamond)
    else if t == "!=" then Ok(NotEq)
    else if t == "~" then Ok(Tilde)
    else Err(InvalidOperator(token, Hint(token)))
  }

  /** Rendering gives back a token that parses to the same operator. */
  lemma ParseRender(op: Op)
    ensures Parse(Render(op)) == Ok(op)
  {
  }

  /** An accepted token renders as written, except `==`, which renders as `=`. */
  lemma RenderParse(token: string)
    requires Parse(token).Ok?
    ensures Render(Parse(token).value) == if token == "==" then "=" else token
  {
  }

  /** compare: the sign of Version::compare(v1, v2) read through the operator; `~` has no reading. */
  function Compare(op: Op, v1: Versions.Version, v2: Versions.Version): (r: Result<bool>)
    ensures r.Err? <==> op == Tilde
    ensures r.Err? ==> r.error == NotImplemented
  {
    var c := Versions.Compare(v1, v2);
    match op
    case Eq => Ok(c == 0)
    case Ge => Ok(c >= 0)
    case Gt => Ok(c > 0)
    case Le => Ok(c <= 0)
    case Lt => Ok(c < 0)
    case NotEq => Ok(c != 0)
    case Diamond => Ok(c != 0)
    case Tilde => Err(NotImplemented)
  }

  /** `!=` and `<>` always agree, and both negate `=`. */
  lemma NotEqualIsNegation(v1: Versions.Version, v2: Versions.Version)
    ensures Compare(NotEq, v1, v2) == Compare(Diamond, v1, v2)
    ensures Compare(NotEq, v1, v2).value == !Compare(Eq, v1, v2).value
  {
  }

  /** The non-strict operators are the strict ones or equality. */
  lemma NonStrictIsStrictOrEqual(v1: Versions.Version, v2: Versions.Version)
    ensures Compare(Le, v1, v2).value <==> Compare(Lt, v1, v2).value || Compare(Eq, v1, v2).value
    ensures Compare(Ge, v1, v2).value <==> Compare(Gt, v1, v2).value || Compare(Eq, v1, v2).value
  {
  }

  /** The operator that makes the same test with the sides exchanged. */
  function Flip(op: Op): (f: Op)
    ensures f == Tilde <==> op == Tilde
  {
    match op
    case Lt => Gt
    case Gt => Lt
    case Le => Ge
    case Ge => Le
    case _ => op
  }

  /** Exchanging the versions and flipping the operator gives the same verdict. */
  lemma FlipSwaps(op: Op, v1: Versions.Version, v2: Versions.Version)
    ensures Compare(Flip(op), v2, v1) == Compare(op, v1, v2)
  {
    Versions.CompareAntisymmetric(v1, v2);
  }

  /** Every version is equal to itself, and not strictly above or below itself. */
  lemma Reflexive(v: Versions.Version)
    ensures Compare(Eq, v, v) == Ok(true) && Compare(Le, v, v) == Ok(true) && Compare(Ge, v, v) == Ok(true)
    ensures Compare(Lt, v, v) == Ok(false) && Compare(Gt, v, v) == Ok(false) && Compare(NotEq, v, v) == Ok(false)
  {
    Versions.CompareReflexive(v);
  }
}
