/** The constraint algebra (the classes under src/Version/Constraint): single bounds, the "any version"
    constraint and the AND/OR combinator, with the overlap test `matches`, the containment
    test `isSubsetOf`, and the set of versions each constraint accepts. */
module Constraints {
  import opened Wrappers
  import opened Operators
  import Text
  import Versions
  import Stabilities
  import Order

  type Version = Versions.Version

  datatype Constraint =
    | Anything                                      // AnythingConstraint
    | Simple(op: Op, version: Version)              // SimpleConstraint
    | Multi(children: seq<Constraint>, and: bool)   // MultiConstraint: AND when `and`, else OR

  /** new MultiConstraint($children) with the combinator left out is an AND. */
  function NewMulti(children: seq<Constraint>): (c: Constraint)
    ensures c.Multi? && c.and && c.children == children
  {
    Multi(children, true)
  }

  /** __toString: the operator and the version; `*`; the children joined by `,` or `|`. */
  function Render(c: Constraint): (r: string)
    ensures c.Anything? ==> r == "*"
    ensures c.Multi? && |c.children| == 1 ==> r == Render(c.children[0])
  {
    match c
    case Anything => "*"
    case Simple(op, v) => Operators.Render(op) + Versions.Render(v)
    case Multi(cs, and) => Text.Join(RenderAll(cs), if and then "," else "|")
  }

  function RenderAll(cs: seq<Constraint>): (r: seq<string>)
    ensures |r| == |cs|
    ensures forall i :: 0 <= i < |cs| ==> r[i] == Render(cs[i])
  {
    if cs == [] then [] else [Render(cs[0])] + RenderAll(cs[1..])
  }

  /** The versions a constraint accepts: a bound by its operator, every version for `*`, and
      for a combinator all children (AND) or some child (OR), as MultiConstraint::match decides.
      A `~` bound has no test and accepts nothing here. */
  predicate Accepts(c: Constraint, v: Version)
    ensures c.Simple? && c.op == Tilde ==> !Accepts(c, v)
    ensures c.Multi? && c.children == [] ==> (Accepts(c, v) <==> c.and)
  {
    match c
    case Anything => true
    case Simple(op, bound) => Operators.Compare(op, v, bound) == Ok(true)
    case Multi(cs, and) =>
      if and then forall i :: 0 <= i < |cs| ==> Accepts(cs[i], v)
      else exists i :: 0 <= i < |cs| && Accepts(cs[i], v)
  }

  /** A constraint without `~` bounds and without empty OR combinators. */
  predicate Plain(c: Constraint)
  {
    match c
    case Anything => true
    case Simple(op, _) => op != Tilde
    case Multi(cs, and) => (and || cs != []) && forall i :: 0 <= i < |cs| ==> Plain(cs[i])
  }

  // ---------------------------------------------------------------- isSubsetOf

  /** SimpleConstraint::isSubsetOf against another single bound, in the order the source tests. */
  function SubsetSimple(aop: Op, a: Version, bop: Op, b: Version): (r: Result<bool>)
    ensures r.Err? <==> (aop == Eq && bop == Tilde) || (aop == Tilde && bop != Eq)
    ensures r.Err? ==> r.error == NotImplemented
    ensures aop != Eq && bop == Eq ==> r == Ok(false)
  {
    var c := Versions.Compare(a, b);
    if aop == Eq then Operators.Compare(bop, a, b)
    else if bop == Eq then Ok(false)
    else if aop == Gt || aop == Ge then
      if bop == aop || bop == Ge then Ok(c >= 0)
      else if bop == Lt || bop == Le then Ok(false)
      else if aop == Ge then Ok(c > 0)
      else Ok(c >= 0)
    else if aop == Lt || aop == Le then
      if bop == aop || bop == Le then Ok(c <= 0)
      else if bop == Gt || bop == Ge then Ok(false)
      else if aop == Le then Ok(c < 0)
      else Ok(c <= 0)
    else if aop == Diamond || aop == NotEq then
      Ok((bop == Diamond || bop == NotEq) && c == 0)
    else
      assert aop.Tilde?;
      Err(NotImplemented)
  }

  /** isSubsetOf: only a single bound on the left has an answer; against a combinator it must
      be a subset of every child, in order, the first failure or `false` ending the scan. */
  function IsSubsetOf(a: Constraint, b: Constraint): (r: Result<bool>)
    ensures !a.Simple? || b.Anything? ==> r == Err(NotImplemented)
  {
    match a
    case Simple(aop, av) => SimpleSubset(aop, av, b)
    case _ => Err(NotImplemented)
  }

  function SimpleSubset(aop: Op, a: Version, b: Constraint): Result<bool>
    decreases b, 1
  {
    match b
    case Simple(bop, bv) => SubsetSimple(aop, a, bop, bv)
    case Multi(cs, _) => SubsetAll(aop, a, cs)
    case Anything => Err(NotImplemented)
  }

  function SubsetAll(aop: Op, a: Version, cs: seq<Constraint>): Result<bool>
    decreases cs, 0
  {
    if cs == [] then Ok(true)
    else
      var r := SimpleSubset(aop, a, cs[0]);
      if r.Err? then r
      else if !r.value then Ok(false)
      else SubsetAll(aop, a, cs[1..])
  }

  /** Constraint::isIncluding: b is a subset of a. */
  function IsIncluding(a: Constraint, b: Constraint): (r: Result<bool>)
    ensures Plain(a) && r == Ok(true) ==> forall v :: Accepts(b, v) ==> Accepts(a, v)
  {
    if Plain(a) && IsSubsetOf(b, a) == Ok(true) then
      SubsetSoundAll(b, a);
      IsSubsetOf(b, a)
    else IsSubsetOf(b, a)
  }

  // ---------------------------------------------------------------- matches

  function Size(c: Constraint): (n: nat)
    ensures n >= 1
  {
    match c
    case Multi(cs, _) => 1 + SizeAll(cs)
    case _ => 1
  }

  function SizeAll(cs: seq<Constraint>): (n: nat)
    ensures cs != [] ==> Size(cs[0]) < n && SizeAll(cs[1..]) < n
  {
    if cs == [] then 0 else 1 + Size(cs[0]) + SizeAll(cs[1..])
  }

  /** matches: `*` overlaps everything; a bound decides by its table; a combinator asks its
      children, all of them (AND) or any of them (OR). */
  function Matches(a: Constraint, b: Constraint): (r: Result<bool>)
    ensures a.Anything? || (a.Simple? && b.Anything?) ==> r == Ok(true)
    ensures a.Multi? && a.children == [] ==> r == Ok(a.and)
    decreases Size(a) + Size(b), 2
  {
    match a
    case Anything => Ok(true)
    case Simple(aop, av) => SimpleMatches(aop, av, b)
    case Multi(cs, and) => MatchesAll(cs, and, b)
  }

  /** SimpleConstraint::matches: `*` overlaps; a combinator is asked in turn. */
  function SimpleMatches(aop: Op, a: Version, b: Constraint): Result<bool>
    decreases 1 + Size(b), 1
  {
    match b
    case Anything => Ok(true)
    case Simple(bop, bv) => MatchesSimple(aop, a, bop, bv)
    case Multi(cs, and) => MatchesAll(cs, and, Simple(aop, a))
  }

  /** The children in order: AND stops at the first `false`, OR at the first `true`, and a
      failure ends the scan. */
  function MatchesAll(cs: seq<Constraint>, and: bool, x: Constraint): Result<bool>
    decreases SizeAll(cs) + Size(x), 0
  {
    if cs == [] then Ok(and)
    else
      var r := Matches(cs[0], x);
      if r.Err? then r
      else if r.value != and then Ok(r.value)
      else MatchesAll(cs[1..], and, x)
  }

  /** The overlap table of two single bounds; pairs it does not list fall back to containment
      in either direction. */
  function MatchesSimple(aop: Op, a: Version, bop: Op, b: Version): (r: Result<bool>)
    ensures r.Err? ==> (aop == Tilde || bop == Tilde) && r.error == NotImplemented
    ensures aop != Tilde && bop != Tilde ==> r.Ok?
  {
    var c := Versions.Compare(a, b);
    if aop == Eq && bop == Eq then Ok(c == 0)
    else if aop == NotEq || aop == Diamond then Ok(bop != Eq || c != 0)
    else if bop == NotEq || bop == Diamond then Ok(aop != Eq || c != 0)
    else if aop == Gt && (bop == Lt || bop == Le) then Ok(c < 0)
    else if aop == Ge && bop == Lt then Ok(c < 0)
    else if aop == Lt && (bop == Gt || bop == Ge) then Ok(c > 0)
    else if aop == Le && bop == Gt then Ok(c > 0)
    else if aop == Ge && bop == Le then Ok(c <= 0)
    else if aop == Le && bop == Ge then Ok(c >= 0)
    else
      var r := SubsetSimple(aop, a, bop, b);
      if r.Err? || r.value then r else SubsetSimple(bop, b, aop, a)
  }

  // ---------------------------------------------------------------- lemmas

  /** Facts about Version::compare the tables rely on: it is an ordering whose ties are
      interchangeable. */
  lemma Ordering(a: Version, b: Version, v: Version)
    ensures Versions.Compare(a, b) == -Versions.Compare(b, a)
    ensures Versions.Compare(a, v) == -Versions.Compare(v, a)
    ensures Versions.Compare(b, v) == -Versions.Compare(v, b)
    ensures Versions.Compare(a, v) <= 0 && Versions.Compare(v, b) <= 0 ==> Versions.Compare(a, b) <= 0
    ensures Versions.Compare(a, v) < 0 && Versions.Compare(v, b) <= 0 ==> Versions.Compare(a, b) < 0
    ensures Versions.Compare(a, v) <= 0 && Versions.Compare(v, b) < 0 ==> Versions.Compare(a, b) < 0
    ensures Versions.Compare(b, v) <= 0 && Versions.Compare(v, a) <= 0 ==> Versions.Compare(b, a) <= 0
    ensures Versions.Compare(b, v) < 0 && Versions.Compare(v, a) <= 0 ==> Versions.Compare(b, a) < 0
    ensures Versions.Compare(b, v) <= 0 && Versions.Compare(v, a) < 0 ==> Versions.Compare(b, a) < 0
  {
    Versions.CompareAntisymmetric(a, b);
    Versions.CompareAntisymmetric(a, v);
    Versions.CompareAntisymmetric(b, v);
    if Versions.Compare(a, v) <= 0 && Versions.Compare(v, b) <= 0 {
      Versions.CompareTransitive(a, v, b);
    }
    if Versions.Compare(b, v) <= 0 && Versions.Compare(v, a) <= 0 {
      Versions.CompareTransitive(b, v, a);
    }
  }

  /** A version comparing equal to another compares like it with any third one. */
  lemma TiesInterchangeable(v: Version, a: Version, b: Version)
    requires Versions.Compare(v, a) == 0
    ensures Versions.Compare(v, b) == Versions.Compare(a, b)
  {
    Versions.CompareZero(v, a);
  }

  /** Whenever a bound is found to lie inside another one, every version the first accepts
      the second accepts too. */
  lemma SubsetSimpleSound(aop: Op, a: Version, bop: Op, b: Version, v: Version)
    requires bop != Tilde && SubsetSimple(aop, a, bop, b) == Ok(true)
    requires Accepts(Simple(aop, a), v)
    ensures Accepts(Simple(bop, b), v)
  {
    Ordering(a, b, v);
    if aop == Eq {
      TiesInterchangeable(v, a, b);
    }
  }

  lemma {:induction false} SimpleSubsetSound(aop: Op, a: Version, b: Constraint, v: Version)
    requires Plain(b) && SimpleSubset(aop, a, b) == Ok(true)
    requires Accepts(Simple(aop, a), v)
    ensures Accepts(b, v)
    decreases b, 1
  {
    match b
    case Simple(bop, bv) =>
      SubsetSimpleSound(aop, a, bop, bv, v);
    case Multi(cs, and) =>
      SubsetAllSound(aop, a, cs, v);
      if !and {
        assert Accepts(cs[0], v);
      }
  }

  lemma {:induction false} SubsetAllSound(aop: Op, a: Version, cs: seq<Constraint>, v: Version)
    requires (forall i :: 0 <= i < |cs| ==> Plain(cs[i])) && SubsetAll(aop, a, cs) == Ok(true)
    requires Accepts(Simple(aop, a), v)
    ensures forall i :: 0 <= i < |cs| ==> Accepts(cs[i], v)
    decreases cs, 0
  {
    if cs != [] {
      SimpleSubsetSound(aop, a, cs[0], v);
      SubsetAllSound(aop, a, cs[1..], v);
      assert forall i :: 1 <= i < |cs| ==> cs[i] == cs[1..][i - 1];
    }
  }

  /** isSubsetOf is sound: a `true` verdict means every version the left side accepts, the
      right side accepts too. */
  lemma SubsetSoundAll(a: Constraint, b: Constraint)
    requires Plain(b) && IsSubsetOf(a, b) == Ok(true)
    ensures forall v :: Accepts(a, v) ==> Accepts(b, v)
  {
    forall v | Accepts(a, v)
      ensures Accepts(b, v)
    {
      SimpleSubsetSound(a.op, a.version, b, v);
    }
  }

  /** Every bound but `~` lies inside itself. */
  lemma SubsetReflexive(op: Op, v: Version)
    requires op != Tilde
    ensures IsSubsetOf(Simple(op, v), Simple(op, v)) == Ok(true)
  {
    Versions.CompareReflexive(v);
  }

  /** A bound other than `=` is never inside an `=` bound, and `=a` lies inside B exactly when
      B's operator holds for a and B's version. */
  lemma SubsetOfEquals(aop: Op, a: Version, bop: Op, b: Version)
    ensures aop != Eq && bop == Eq ==> IsSubsetOf(Simple(aop, a), Simple(bop, b)) == Ok(false)
    ensures aop == Eq ==> IsSubsetOf(Simple(aop, a), Simple(bop, b)) == Operators.Compare(bop, a, b)
  {
  }

  /** Containment in a combinator is containment in every child, AND or OR alike. */
  lemma {:induction false} SubsetOfMulti(aop: Op, a: Version, cs: seq<Constraint>, and: bool)
    requires forall i :: 0 <= i < |cs| ==> IsSubsetOf(Simple(aop, a), cs[i]).Ok?
    ensures IsSubsetOf(Simple(aop, a), Multi(cs, and)) == Ok(forall i :: 0 <= i < |cs| ==> IsSubsetOf(Simple(aop, a), cs[i]) == Ok(true))
    decreases cs
  {
    if cs != [] {
      var rest := cs[1..];
      SubsetOfMulti(aop, a, rest, and);
      assert IsSubsetOf(Simple(aop, a), Multi(rest, and)) == SubsetAll(aop, a, rest);
      assert IsSubsetOf(Simple(aop, a), Multi(cs, and)) == SubsetAll(aop, a, cs);
      assert IsSubsetOf(Simple(aop, a), cs[0]) == SimpleSubset(aop, a, cs[0]);
      assert forall i :: 1 <= i < |cs| ==> cs[i] == rest[i - 1];
      assert (forall i :: 0 <= i < |cs| ==> IsSubsetOf(Simple(aop, a), cs[i]) == Ok(true)) <==>
        IsSubsetOf(Simple(aop, a), cs[0]) == Ok(true) && forall i :: 0 <= i < |rest| ==> IsSubsetOf(Simple(aop, a), rest[i]) == Ok(true);
    } else {
      assert IsSubsetOf(Simple(aop, a), Multi(cs, and)) == SubsetAll(aop, a, cs);
    }
  }

  /** matches never fails on constraints without `~` bounds. */
  lemma {:induction false} MatchesTotal(a: Constraint, b: Constraint)
    requires Plain(a) && Plain(b)
    ensures Matches(a, b).Ok?
    decreases Size(a) + Size(b), 2
  {
    match a
    case Anything =>
    case Simple(aop, av) => SimpleMatchesTotal(aop, av, b);
    case Multi(cs, and) => MatchesAllTotal(cs, and, b);
  }

  lemma {:induction false} SimpleMatchesTotal(aop: Op, a: Version, b: Constraint)
    requires aop != Tilde && Plain(b)
    ensures SimpleMatches(aop, a, b).Ok?
    decreases 1 + Size(b), 1
  {
    match b
    case Anything =>
    case Simple(bop, bv) =>
    case Multi(cs, and) => MatchesAllTotal(cs, and, Simple(aop, a));
  }

  lemma {:induction false} MatchesAllTotal(cs: seq<Constraint>, and: bool, x: Constraint)
    requires (forall i :: 0 <= i < |cs| ==> Plain(cs[i])) && Plain(x)
    ensures MatchesAll(cs, and, x).Ok?
    decreases SizeAll(cs) + Size(x), 0
  {
    if cs != [] {
      MatchesTotal(cs[0], x);
      MatchesAllTotal(cs[1..], and, x);
    }
  }

  /** Two bounds that a version satisfies both are found to overlap: the table has no false
      negatives. */
  lemma MatchesSimpleComplete(aop: Op, a: Version, bop: Op, b: Version, v: Version)
    requires aop != Tilde && bop != Tilde
    requires Accepts(Simple(aop, a), v) && Accepts(Simple(bop, b), v)
    ensures MatchesSimple(aop, a, bop, b) == Ok(true)
  {
    Ordering(a, b, v);
  }

  /** matches has no false negatives: constraints without `~` that share a version are found
      to overlap. */
  lemma {:induction false} MatchesComplete(a: Constraint, b: Constraint, v: Version)
    requires Plain(a) && Plain(b) && Accepts(a, v) && Accepts(b, v)
    ensures Matches(a, b) == Ok(true)
    decreases Size(a) + Size(b), 2
  {
    match a
    case Anything =>
    case Simple(aop, av) => SimpleMatchesComplete(aop, av, b, v);
    case Multi(cs, and) => MatchesAllComplete(cs, and, b, v);
  }

  lemma {:induction false} SimpleMatchesComplete(aop: Op, a: Version, b: Constraint, v: Version)
    requires aop != Tilde && Plain(b) && Accepts(Simple(aop, a), v) && Accepts(b, v)
    ensures SimpleMatches(aop, a, b) == Ok(true)
    decreases 1 + Size(b), 1
  {
    match b
    case Anything =>
    case Simple(bop, bv) => MatchesSimpleComplete(aop, a, bop, bv, v);
    case Multi(cs, and) => MatchesAllComplete(cs, and, Simple(aop, a), v);
  }

  lemma {:induction false} MatchesAllComplete(cs: seq<Constraint>, and: bool, x: Constraint, v: Version)
    requires (forall i :: 0 <= i < |cs| ==> Plain(cs[i])) && Plain(x) && Accepts(x, v)
    requires Accepts(Multi(cs, and), v)
    ensures MatchesAll(cs, and, x) == Ok(true)
    decreases SizeAll(cs) + Size(x), 0
  {
    if cs != [] {
      var rest := cs[1..];
      assert forall i :: 1 <= i < |cs| ==> cs[i] == rest[i - 1];
      if and {
        MatchesComplete(cs[0], x, v);
        MatchesAllComplete(rest, and, x, v);
      } else {
        MatchesTotal(cs[0], x);
        if Accepts(cs[0], v) {
          MatchesComplete(cs[0], x, v);
        } else {
          var i :| 0 <= i < |cs| && Accepts(cs[i], v);
          assert Accepts(rest[i - 1], v);
          MatchesAllComplete(rest, and, x, v);
        }
      }
    }
  }

  /** On two single bounds without `~`, matches does not depend on the order. */
  lemma MatchesSymmetric(aop: Op, a: Version, bop: Op, b: Version)
    requires aop != Tilde && bop != Tilde
    ensures Matches(Simple(aop, a), Simple(bop, b)) == Matches(Simple(bop, b), Simple(aop, a))
  {
    Versions.CompareAntisymmetric(a, b);
  }

  /** `*` overlaps every constraint, and a bound overlaps `*`. */
  lemma AnythingMatches(b: Constraint, op: Op, v: Version)
    ensures Matches(Anything, b) == Ok(true)
    ensures Matches(Simple(op, v), Anything) == Ok(true)
  {
  }

  /** `*` never answers isSubsetOf. */
  lemma AnythingHasNoSubset(b: Constraint)
    ensures IsSubsetOf(Anything, b) == Err(NotImplemented)
  {
  }

  /** `*` accepts every version; an empty AND accepts every version, an empty OR none. */
  lemma AcceptsEmpty(v: Version)
    ensures Accepts(Anything, v)
    ensures Accepts(Multi([], true), v) && !Accepts(Multi([], false), v)
  {
  }

  /** Rendering does not show the nesting: AND(a, OR(b, c)) and OR(AND(a, b), c) print the same
      text, although they are different constraints. */
  lemma RenderAmbiguous(a: Constraint, b: Constraint, c: Constraint)
    ensures Render(Multi([a, Multi([b, c], false)], true)) == Render(Multi([Multi([a, b], true), c], false))
    ensures Multi([a, Multi([b, c], false)], true) != Multi([Multi([a, b], true), c], false)
  {
    var ra, rb, rc := Render(a), Render(b), Render(c);
    var alternatives, conjunction := Multi([b, c], false), Multi([a, b], true);
    assert RenderAll([b, c]) == [rb, rc] && RenderAll([a, b]) == [ra, rb];
    assert RenderAll([a, alternatives]) == [ra, Text.Join([rb, rc], "|")];
    assert RenderAll([conjunction, c]) == [Text.Join([ra, rb], ","), rc];
    JoinNest(ra, rb, rc);
  }

  /** `a,(b|c)` and `(a,b)|c` flatten to the same text. */
  lemma JoinNest(ra: string, rb: string, rc: string)
    ensures Text.Join([ra, Text.Join([rb, rc], "|")], ",") == Text.Join([Text.Join([ra, rb], ","), rc], "|")
  {
    JoinTwo([rb, rc], "|");
    JoinTwo([ra, rb], ",");
    JoinTwo([ra, rb + "|" + rc], ",");
    JoinTwo([ra + "," + rb, rc], "|");
  }

  lemma JoinTwo(pieces: seq<string>, sep: string)
    requires |pieces| == 2
    ensures Text.Join(pieces, sep) == pieces[0] + sep + pieces[1]
  {
    assert pieces[1..] == [pieces[1]];
  }

  /** The range-or-pin shape `=a | (>b , <=c)` accepts exactly a and the versions in (b, c]. */
  lemma PinOrRange(a: Version, b: Version, c: Version, v: Version)
    ensures Accepts(Multi([Simple(Eq, a), Multi([Simple(Gt, b), Simple(Le, c)], true)], false), v) <==>
      Versions.Compare(v, a) == 0 || (Versions.Compare(v, b) > 0 && Versions.Compare(v, c) <= 0)
  {
    var range := Multi([Simple(Gt, b), Simple(Le, c)], true);
    var pin := Multi([Simple(Eq, a), range], false);
    assert pin.children[0] == Simple(Eq, a) && pin.children[1] == range;
    assert range.children[0] == Simple(Gt, b) && range.children[1] == Simple(Le, c);
    assert Accepts(Simple(Eq, a), v) <==> Versions.Compare(v, a) == 0;
    assert Accepts(range, v) <==> Versions.Compare(v, b) > 0 && Versions.Compare(v, c) <= 0;
    assert Accepts(pin, v) <==> Accepts(pin.children[0], v) || Accepts(pin.children[1], v);
  }

  /** The combinator example: `=1.5.4 | (>1.7.2 , <=2.0.1)` accepts 1.5.4, 1.7.3 and 2.0.0 and
      rejects 1.6 and 2.2. */
  lemma CombinatorExample()
    ensures var c := Multi([Simple(Eq, Triple("1", "5", "4")),
                            Multi([Simple(Gt, Triple("1", "7", "2")), Simple(Le, Triple("2", "0", "1"))], true)], false);
      Accepts(c, Triple("1", "5", "4")) && Accepts(c, Triple("1", "7", "3")) && Accepts(c, Triple("2", "0", "0")) &&
      !Accepts(c, Triple("1", "6", "0")) && !Accepts(c, Triple("2", "2", "0"))
  {
    var v154, v172, v173, v201, v200, v160, v220 :=
      Triple("1", "5", "4"), Triple("1", "7", "2"), Triple("1", "7", "3"), Triple("2", "0", "1"),
      Triple("2", "0", "0"), Triple("1", "6", "0"), Triple("2", "2", "0");
    assert Text.Value("0") == 0 && Text.Value("1") == 1 && Text.Value("2") == 2 && Text.Value("3") == 3;
    assert Text.Value("4") == 4 && Text.Value("5") == 5 && Text.Value("6") == 6 && Text.Value("7") == 7;
    TriplesCompare(v154, v154);
    PinOrRange(v154, v172, v201, v154);
    TriplesCompare(v173, v154);
    TriplesCompare(v173, v172);
    TriplesCompare(v173, v201);
    PinOrRange(v154, v172, v201, v173);
    TriplesCompare(v200, v154);
    TriplesCompare(v200, v172);
    TriplesCompare(v200, v201);
    PinOrRange(v154, v172, v201, v200);
    TriplesCompare(v160, v154);
    TriplesCompare(v160, v172);
    PinOrRange(v154, v172, v201, v160);
    TriplesCompare(v220, v154);
    TriplesCompare(v220, v201);
    PinOrRange(v154, v172, v201, v220);
  }

  /** Versions without micro and with the same stability compare by their first three segments. */
  lemma TriplesCompare(x: Version, y: Version)
    requires x.micro == None && y.micro == None && x.stability == y.stability
    ensures Versions.Compare(x, y) ==
      var a, b := [Text.Value(x.major), Text.Value(x.minor), Text.Value(x.revision)],
                  [Text.Value(y.major), Text.Value(y.minor), Text.Value(y.revision)];
      if a[0] != b[0] then (if a[0] < b[0] then -1 else 1)
      else if a[1] != b[1] then (if a[1] < b[1] then -1 else 1)
      else if a[2] != b[2] then (if a[2] < b[2] then -1 else 1)
      else 0
  {
    var t := [Versions.MicroValue(x)] + Stabilities.Key(x.stability);
    assert t == [Versions.MicroValue(y)] + Stabilities.Key(y.stability);
    Order.LexEqual(t, t);
    Order.LexCons(Text.Value(x.revision), t, Text.Value(y.revision), t);
    Order.LexCons(Text.Value(x.minor), [Text.Value(x.revision)] + t, Text.Value(y.minor), [Text.Value(y.revision)] + t);
    Order.LexCons(Text.Value(x.major), [Text.Value(x.minor)] + ([Text.Value(x.revision)] + t),
                  Text.Value(y.major), [Text.Value(y.minor)] + ([Text.Value(y.revision)] + t));
  }

  /** A regular version with the given major, minor and revision and default stability. */
  function Triple(major: Text.Numeral, minor: Text.Numeral, revision: Text.Numeral): (v: Version)
    ensures Versions.MicroValue(v) == 0 && v.stability == Stabilities.Default()
  {
    Versions.Version(major, minor, revision, None, Stabilities.Default(), true)
  }
}
