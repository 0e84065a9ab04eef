/** What Constraint::parse (src/Version/Constraint.php) promises about its results: the split
    rules, the wildcard-only terms, the single bound of an exact term, the tilde and wildcard
    ranges and their bounds, the collapse of a range from 0.0.0.0, and the suffixes accepted. */
module ConstraintLaws {
  import opened Wrappers
  import opened Text
  import Scanner
  import Stabilities
  import Versions
  import Operators
  import opened Constraints
  import opened ConstraintParser

  type KnownStability = Stabilities.KnownStability

  // ---------------------------------------------------------------- bounds

  /** Without wildcards the lower bound is the filled segments and the upper bound is the
      tilde's. */
  lemma ExpandNumerals(filled: seq<Numeral>, end: nat)
    requires |filled| == 4
    ensures Expand(filled, end) == Bounds(filled, TildeUpper(filled, end))
  {
    assert !IsWildcard(filled[3]) && !IsWildcard(filled[2]) && !IsWildcard(filled[1]) by {
      assert IsDigit(filled[3][0]) && IsDigit(filled[2][0]) && IsDigit(filled[1][0]);
    }
  }

  /** A term of numerals under any operator but `~` is one bound with that operator: the
      numerals written, zero-filled to four segments, with the stability of the suffix. */
  lemma ExactBound(t: string, op: Operators.Op, parts: seq<Numeral>, stability: KnownStability, resetStable: bool)
    requires |parts| <= 4 && op != Operators.Tilde
    ensures Assemble(t, op, parts, stability, resetStable) == Ok(Simple(op, Bound(ZeroFill(parts), stability)))
  {
    ExpandNumerals(ZeroFill(parts), 0);
  }

  /** The upper bound of `~` by the number of segments written: one or two segments count the
      major up and zero the rest, three count the minor up, four the revision. The lower bound
      is the segments written. */
  lemma TildeBounds(parts: seq<Numeral>)
    requires 1 <= |parts| <= 4
    ensures Expand(ZeroFill(parts), |parts|).lower == ZeroFill(parts)
    ensures var upper := Expand(ZeroFill(parts), |parts|).upper;
      AllNumerals(upper)
      && (|parts| <= 2 ==> Value(upper[0]) == Value(parts[0]) + 1 && upper[1..] == ["0", "0", "0"])
      && (|parts| == 3 ==> upper[0] == parts[0] && Value(upper[1]) == Value(parts[1]) + 1 && upper[2..] == ["0", "0"])
      && (|parts| == 4 ==> upper[..2] == parts[..2] && Value(upper[2]) == Value(parts[2]) + 1 && upper[3] == "0")
  {
    var filled := ZeroFill(parts);
    ExpandNumerals(filled, |parts|);
    assert filled[..|parts|] == parts;
    assert forall k :: 0 <= k < |parts| ==> filled[k] == parts[k];
  }

  /** `~` never survives as an operator: the term becomes the range from its segments to the
      tilde's upper bound, which differ. */
  lemma TildeRange(t: string, parts: seq<Numeral>, upper: seq<Numeral>, stability: KnownStability, resetStable: bool)
    requires 1 <= |parts| <= 4 && upper == TildeUpper(ZeroFill(parts), |parts|)
    ensures ZeroFill(parts) != upper
    ensures Assemble(t, Operators.Tilde, parts, stability, resetStable) == Ok(Outcome(Operators.Tilde, ZeroFill(parts), upper, stability, resetStable))
  {
    TildeBounds(parts);
    ExpandNumerals(ZeroFill(parts), |parts|);
    var k := if |parts| <= 2 then 0 else |parts| - 2;
    assert Value(upper[k]) != Value(ZeroFill(parts)[k]);
  }

  /** A trailing `x` or `*` reads 0 in both bounds, and the upper bound counts the segment
      before it up. */
  lemma WildcardBounds(p: seq<Numeral>, w: string)
    requires 1 <= |p| <= 3 && IsWildcard(w)
    ensures Expand(ZeroFill(p + [w]), 0) == Bounds(ZeroFill(p), ZeroFill(p[|p| - 1 := Bump(p[|p| - 1])]))
  {
    if |p| == 1 {
      FilledOne(p, w);
      WildcardSecond(p[0], w);
    } else if |p| == 2 {
      FilledTwo(p, w);
      WildcardThird(p[0], p[1], w);
    } else {
      FilledThree(p, w);
      WildcardFourth(p[0], p[1], p[2], w);
    }
  }

  lemma FilledOne(p: seq<string>, w: string)
    requires |p| == 1
    ensures ZeroFill(p + [w]) == [p[0], w, "0", "0"] && ZeroFill(p) == [p[0], "0", "0", "0"]
    ensures ZeroFill(p[0 := Bump(p[0])]) == [Bump(p[0]), "0", "0", "0"]
  {
  }

  lemma FilledTwo(p: seq<string>, w: string)
    requires |p| == 2
    ensures ZeroFill(p + [w]) == [p[0], p[1], w, "0"] && ZeroFill(p) == [p[0], p[1], "0", "0"]
    ensures ZeroFill(p[1 := Bump(p[1])]) == [p[0], Bump(p[1]), "0", "0"]
  {
  }

  lemma FilledThree(p: seq<string>, w: string)
    requires |p| == 3
    ensures ZeroFill(p + [w]) == [p[0], p[1], p[2], w] && ZeroFill(p) == [p[0], p[1], p[2], "0"]
    ensures ZeroFill(p[2 := Bump(p[2])]) == [p[0], p[1], Bump(p[2]), "0"]
  {
  }

  lemma WildcardSecond(a: Numeral, w: string)
    requires IsWildcard(w)
    ensures Expand([a, w, "0", "0"], 0) == Bounds([a, "0", "0", "0"], [Bump(a), "0", "0", "0"])
  {
    var b := Bounds([a, w, "0", "0"], [a, w, "0", "0"]);
    assert TildeUpper([a, w, "0", "0"], 0) == [a, w, "0", "0"];
    assert WildcardAt(b, 3) == b && WildcardAt(b, 2) == b;
    assert IsDigit(a[0]);
  }

  lemma WildcardThird(a: Numeral, b: Numeral, w: string)
    requires IsWildcard(w)
    ensures Expand([a, b, w, "0"], 0) == Bounds([a, b, "0", "0"], [a, Bump(b), "0", "0"])
  {
    var x := Bounds([a, b, w, "0"], [a, b, w, "0"]);
    assert TildeUpper([a, b, w, "0"], 0) == [a, b, w, "0"];
    var y := Bounds([a, b, "0", "0"], [a, Bump(b), "0", "0"]);
    assert WildcardAt(x, 3) == x && WildcardAt(x, 2) == y;
    assert IsDigit(b[0]);
  }

  lemma WildcardFourth(a: Numeral, b: Numeral, c: Numeral, w: string)
    requires IsWildcard(w)
    ensures Expand([a, b, c, w], 0) == Bounds([a, b, c, "0"], [a, b, Bump(c), "0"])
  {
    var x := Bounds([a, b, c, w], [a, b, c, w]);
    assert TildeUpper([a, b, c, w], 0) == [a, b, c, w];
    var y := Bounds([a, b, c, "0"], [a, b, Bump(c), "0"]);
    assert WildcardAt(x, 3) == y;
    assert IsDigit(b[0]) && IsDigit(c[0]);
  }

  /** A term ending in a wildcard under any operator but `~` becomes the range from the zeroed
      segments to the bumped ones, which differ. */
  lemma WildcardRange(t: string, op: Operators.Op, p: seq<Numeral>, w: string, stability: KnownStability, resetStable: bool)
    requires 1 <= |p| <= 3 && IsWildcard(w) && op != Operators.Tilde
    ensures var upper := ZeroFill(p[|p| - 1 := Bump(p[|p| - 1])]);
      AllNumerals(upper) && ZeroFill(p) != upper && Value(upper[|p| - 1]) == Value(p[|p| - 1]) + 1
    ensures Assemble(t, op, p + [w], stability, resetStable)
      == Ok(Outcome(op, ZeroFill(p), ZeroFill(p[|p| - 1 := Bump(p[|p| - 1])]), stability, resetStable))
  {
    WildcardBounds(p, w);
    var bumped := p[|p| - 1 := Bump(p[|p| - 1])];
    assert AllNumerals(bumped);
    assert ZeroFill(bumped)[|p| - 1] == bumped[|p| - 1] by {
      assert ZeroFill(bumped)[..|p|] == bumped;
    }
    assert ZeroFill(p)[|p| - 1] == p[|p| - 1] by {
      assert ZeroFill(p)[..|p|] == p;
    }
  }

  /** `~` with a trailing wildcard counts up twice: once for the tilde and once for the
      wildcard, so `~N.x` reaches two majors above N. */
  lemma TildeWildcard(n: Numeral, w: string)
    requires IsWildcard(w)
    ensures Expand(ZeroFill([n, w]), 2) == Bounds([n, "0", "0", "0"], [Bump(Bump(n)), "0", "0", "0"])
    ensures Value(Bump(Bump(n))) == Value(n) + 2
  {
    assert ZeroFill([n, w]) == [n, w, "0", "0"];
  }

  // ---------------------------------------------------------------- the result of two bounds

  /** Different bounds give a range whatever operator was written, without `~`: it accepts
      exactly the versions below the upper bound and, unless the lower bound renders as
      0.0.0.0, at or above the lower bound. */
  lemma RangeAccepts(op: Operators.Op, lower: seq<Numeral>, upper: seq<Numeral>, stability: KnownStability, resetStable: bool, v: Versions.Version)
    requires |lower| == 4 && |upper| == 4 && lower != upper
    ensures Plain(Outcome(op, lower, upper, stability, resetStable))
    ensures Accepts(Outcome(op, lower, upper, stability, resetStable), v) <==>
      Versions.Compare(v, Bound(upper, Stabilities.Default())) < 0
      && (Versions.Render(Bound(lower, stability)) == "0.0.0.0"
          || Versions.Compare(v, Bound(lower, if resetStable then Stabilities.Default() else stability)) >= 0)
  {
    var c := Outcome(op, lower, upper, stability, resetStable);
    if c.Multi? {
      assert c.children[0].op == Operators.Ge && c.children[1].op == Operators.Lt;
    }
  }

  /** Equal bounds keep the operator written and the lower bound. */
  lemma EqualBounds(op: Operators.Op, bounds: seq<Numeral>, stability: KnownStability, resetStable: bool)
    requires |bounds| == 4
    ensures Outcome(op, bounds, bounds, stability, resetStable) == Simple(op, Bound(bounds, stability))
  {
  }

  /** `0.*` and `0.x` become `< 1.0.0.0`: the range from 0.0.0.0 collapses to its upper bound. */
  lemma ZeroWildcard(t: string, op: Operators.Op, w: string)
    requires IsWildcard(w) && op != Operators.Tilde
    ensures Assemble(t, op, ["0", w], Stabilities.Default(), false) == Ok(Simple(Operators.Lt, Bound(["1", "0", "0", "0"], Stabilities.Default())))
  {
    FilledOne(["0"], w);
    assert ["0"] + [w] == ["0", w];
    assert Bump("0") == "1" by {
      assert Value("0") == 0;
    }
    WildcardSecond("0", w);
    assert NatToText(Value("0")) == "0";
  }

  // ---------------------------------------------------------------- suffixes

  /** A last segment capture (nothing, digits or one wildcard) never spells `rc`. */
  lemma SegmentNotRc(s: string)
    requires Scanner.Segment(s, TermGrammar())
    ensures ToLower(s) != "rc"
  {
    if |s| == 2 {
      assert IsDigit(s[0]) && ToLower(s)[0] == Lower(s[0]);
    }
  }

  /** Of the suffix tokens the pattern admits, only pl, patch, p, beta, b and stable (in any
      case) are accepted: they name patch, beta and stable, and rc, a, alpha, dev and d fail. */
  lemma SuffixAccepted(t: string, c: Scanner.Captures)
    requires Scanner.Captured(c, TermGrammar()) && c.suffix.Label?
    ensures TermStability(t, c).Ok? <==> ToLower(c.suffix.token) in {"pl", "patch", "p", "beta", "b", "stable"}
    ensures TermStability(t, c).Err? ==> TermStability(t, c).error == InvalidFormat(t)
    ensures ToLower(c.suffix.token) in {"pl", "patch", "p"}
      ==> TermStability(t, c) == Ok(Stabilities.Make("patch", Versions.NumberOf(c.suffix.number)))
    ensures ToLower(c.suffix.token) in {"beta", "b"}
      ==> TermStability(t, c) == Ok(Stabilities.Make("beta", Versions.NumberOf(c.suffix.number)))
    ensures ToLower(c.suffix.token) == "stable"
      ==> TermStability(t, c) == Ok(Stabilities.Make("stable", Versions.NumberOf(c.suffix.number)))
  {
    assert Scanner.Segment(c.segments[3], TermGrammar());
    SegmentNotRc(c.segments[3]);
  }

  // ---------------------------------------------------------------- splitting

  /** Text that is empty once trimmed fails. */
  lemma ParseEmpty(input: string)
    requires Trim(input) == ""
    ensures Parse(input) == Err(InvalidFormat(""))
  {
  }

  /** The pieces in turn: all of them parse exactly when the loop does, the results in order;
      otherwise the failure is that of the first piece that fails. */
  lemma {:induction false} ParseAllEach(pieces: seq<string>, limit: nat)
    requires forall k :: 0 <= k < |pieces| ==> |pieces[k]| < limit
    ensures ParseAll(pieces, limit).Ok? <==> forall k :: 0 <= k < |pieces| ==> Parse(pieces[k]).Ok?
    ensures ParseAll(pieces, limit).Ok? ==>
      |ParseAll(pieces, limit).value| == |pieces|
      && forall k :: 0 <= k < |pieces| ==> ParseAll(pieces, limit).value[k] == Parse(pieces[k]).value
    ensures ParseAll(pieces, limit).Err? ==>
      exists k :: 0 <= k < |pieces| && Parse(pieces[k]) == Err(ParseAll(pieces, limit).error)
        && forall m :: 0 <= m < k ==> Parse(pieces[m]).Ok?
    decreases |pieces|
  {
    if pieces != [] {
      ParseAllEach(pieces[1..], limit);
      ParseAllStep(pieces, limit);
    }
  }

  lemma ParseAllStep(pieces: seq<string>, limit: nat)
    requires pieces != [] && forall k :: 0 <= k < |pieces| ==> |pieces[k]| < limit
    requires ParseAll(pieces[1..], limit).Ok? <==> forall k :: 0 <= k < |pieces| - 1 ==> Parse(pieces[1..][k]).Ok?
    requires ParseAll(pieces[1..], limit).Ok? ==>
      |ParseAll(pieces[1..], limit).value| == |pieces| - 1
      && forall k :: 0 <= k < |pieces| - 1 ==> ParseAll(pieces[1..], limit).value[k] == Parse(pieces[1..][k]).value
    requires ParseAll(pieces[1..], limit).Err? ==>
      exists k :: 0 <= k < |pieces| - 1 && Parse(pieces[1..][k]) == Err(ParseAll(pieces[1..], limit).error)
        && forall m :: 0 <= m < k ==> Parse(pieces[1..][m]).Ok?
    ensures ParseAll(pieces, limit).Ok? <==> forall k :: 0 <= k < |pieces| ==> Parse(pieces[k]).Ok?
    ensures ParseAll(pieces, limit).Ok? ==>
      |ParseAll(pieces, limit).value| == |pieces|
      && forall k :: 0 <= k < |pieces| ==> ParseAll(pieces, limit).value[k] == Parse(pieces[k]).value
    ensures ParseAll(pieces, limit).Err? ==>
      exists k :: 0 <= k < |pieces| && Parse(pieces[k]) == Err(ParseAll(pieces, limit).error)
        && forall m :: 0 <= m < k ==> Parse(pieces[m]).Ok?
  {
    var rest := ParseAll(pieces[1..], limit);
    if Parse(pieces[0]).Err? {
      assert ParseAll(pieces, limit) == Err(Parse(pieces[0]).error);
    } else if rest.Err? {
      var k :| 0 <= k < |pieces| - 1 && Parse(pieces[1..][k]) == Err(rest.error)
        && forall m :: 0 <= m < k ==> Parse(pieces[1..][m]).Ok?;
      assert Parse(pieces[k + 1]) == Err(ParseAll(pieces, limit).error);
      assert forall m :: 0 < m < k + 1 ==> Parse(pieces[m]).Ok? by {
        forall m | 0 < m < k + 1 ensures Parse(pieces[m]).Ok? {
          assert pieces[m] == pieces[1..][m - 1];
        }
      }
    } else {
      var cs := ParseAll(pieces, limit).value;
      assert cs == [Parse(pieces[0]).value] + rest.value;
      forall k | 0 < k < |pieces| ensures cs[k] == Parse(pieces[k]).value && Parse(pieces[k]).Ok? {
        assert pieces[k] == pieces[1..][k - 1];
      }
    }
  }

  /** A comma anywhere makes an AND of the comma pieces, each parsed on its own (so a piece
      holding `|` becomes an OR inside the AND); it fails as soon as one piece fails. */
  lemma ParseAnd(input: string)
    requires ',' in Trim(input)
    ensures var pieces := Split(Trim(input), ',');
      (Parse(input).Ok? <==> forall k :: 0 <= k < |pieces| ==> Parse(pieces[k]).Ok?)
      && (Parse(input).Ok? ==>
            Parse(input).value.Multi? && Parse(input).value.and && |Parse(input).value.children| == |pieces|
            && forall k :: 0 <= k < |pieces| ==> Parse(input).value.children[k] == Parse(pieces[k]).value)
  {
    var t := Trim(input);
    SplitPieces(t, ',');
    PiecesShorter(t);
    ParseAllEach(Split(t, ','), |t|);
  }

  /** Without a comma, a `|` makes an OR of the `|` pieces, each parsed on its own. */
  lemma ParseOr(input: string)
    requires ',' !in Trim(input) && '|' in Trim(input)
    ensures var pieces := Split(Trim(input), '|');
      (Parse(input).Ok? <==> forall k :: 0 <= k < |pieces| ==> Parse(pieces[k]).Ok?)
      && (Parse(input).Ok? ==>
            Parse(input).value.Multi? && !Parse(input).value.and && |Parse(input).value.children| == |pieces|
            && forall k :: 0 <= k < |pieces| ==> Parse(input).value.children[k] == Parse(pieces[k]).value)
  {
    var t := Trim(input);
    SplitPieces(t, ',');
    SplitPieces(t, '|');
    PiecesShorter(t);
    ParseAllEach(Split(t, '|'), |t|);
  }

  /** Without either separator the trimmed text is one term. */
  lemma ParseSingle(input: string)
    requires Trim(input) != "" && ',' !in Trim(input) && '|' !in Trim(input)
    ensures Parse(input) == ParseTerm(Trim(input))
  {
    SplitPieces(Trim(input), ',');
    SplitPieces(Trim(input), '|');
  }

  /** A single term of one to four wildcards joined by dots accepts every version. */
  lemma ParseAnything(input: string, ws: seq<string>)
    requires 1 <= |ws| <= 4 && forall k :: 0 <= k < |ws| ==> ws[k] in {"*", "x"}
    requires Trim(input) == Join(ws, ".")
    ensures Parse(input) == Ok(Anything)
  {
    var t := Trim(input);
    WildcardsJoin(t, 0, ws, 3);
    JoinChars(ws);
    ParseSingle(input);
  }

  /** Wildcards joined by dots from i, at most n + 1 of them, satisfy the wildcard-only pattern. */
  lemma {:induction false} WildcardsJoin(s: string, i: nat, ws: seq<string>, n: nat)
    requires 1 <= |ws| <= n + 1 && forall k :: 0 <= k < |ws| ==> ws[k] in {"*", "x"}
    requires i <= |s| && s[i..] == Join(ws, ".")
    ensures WildcardsFrom(s, i, n)
    decreases n
  {
    if |ws| == 1 {
      assert s[i..] == ws[0];
      assert s[i] == ws[0][0] && i + 1 == |s|;
    } else {
      Scanner.SliceAround(s, i, |s|, ws[0], '.', Join(ws[1..], "."));
      assert s[i + 2..] == Join(ws[1..], ".");
      WildcardsJoin(s, i + 2, ws[1..], n - 1);
    }
  }

  /** Wildcards joined by dots hold neither separator. */
  lemma {:induction false} JoinChars(ws: seq<string>)
    requires forall k :: 0 <= k < |ws| ==> ws[k] in {"*", "x"}
    ensures ',' !in Join(ws, ".") && '|' !in Join(ws, ".")
    decreases |ws|
  {
    if ws != [] {
      assert ws[0] in {"*", "x"};
      assert ',' !in ws[0] && '|' !in ws[0];
      if |ws| > 1 {
        JoinChars(ws[1..]);
        assert Join(ws, ".") == ws[0] + "." + Join(ws[1..], ".");
      }
    }
  }

  // ---------------------------------------------------------------- a term written out

  /** The operator tokens the term pattern can carry. */
  predicate OperatorText(opText: string)
  {
    opText in {"", "=", "==", "<", ">", "<=", ">=", "<>", "!=", "~"}
  }

  /** An operator, or none, then one to four numerals joined by dots, with no suffix: the term
      reads the operator (`=` when none), the numerals and the default stability. */
  lemma ParseDottedTerm(opText: string, parts: seq<Numeral>)
    requires OperatorText(opText) && 1 <= |parts| <= 4
    ensures Operators.Parse(if opText == "" then "=" else opText).Ok?
    ensures Parse(opText + Join(parts, "."))
      == Assemble(opText + Join(parts, "."), Operators.Parse(if opText == "" then "=" else opText).value,
                  parts, Stabilities.Default(), false)
  {
    DottedText(opText, parts);
    ParseWritten(opText + Join(parts, "."), opText, parts);
  }

  lemma ParseWritten(input: string, opText: string, parts: seq<Numeral>)
    requires OperatorText(opText) && 1 <= |parts| <= 4
    requires |input| > |opText| && input[..|opText|] == opText && input[|opText|..] == Join(parts, ".")
      && IsDigit(input[|opText|]) && IsDigit(input[|input| - 1])
      && (forall k :: 0 <= k < |opText| ==> input[k] in OperatorChars)
      && ',' !in input && '|' !in input
    ensures Operators.Parse(if opText == "" then "=" else opText).Ok?
    ensures Parse(input)
      == Assemble(input, Operators.Parse(if opText == "" then "=" else opText).value, parts, Stabilities.Default(), false)
  {
    TrimFixed(input);
    NoWildcardOnly(input, 0, 3);
    OperatorTextChars(opText);
    TermOfDotted(input, |opText|, parts);
    ParseOfTerm(input, opText, parts);
  }

  /** A trimmed single term that is not all wildcards and that the term pattern reads as an
      operator and dotted numerals without suffix. */
  lemma ParseOfTerm(input: string, opText: string, parts: seq<Numeral>)
    requires OperatorText(opText) && 1 <= |parts| <= 4
    requires input != "" && Trim(input) == input && ',' !in input && '|' !in input && !WildcardOnly(input)
    requires MatchTerm(input) == Some(Term(opText, Scanner.Captures(Scanner.Fill(parts, 0), Scanner.NoSuffix)))
    ensures Operators.Parse(if opText == "" then "=" else opText).Ok?
    ensures Parse(input)
      == Assemble(input, Operators.Parse(if opText == "" then "=" else opText).value, parts, Stabilities.Default(), false)
  {
    ParseSingle(input);
    MatchTermCaptures(input);
    Versions.PresentFill(parts, 0);
  }

  /** What the characters of the written term are. */
  lemma DottedText(opText: string, parts: seq<Numeral>)
    requires OperatorText(opText) && 1 <= |parts|
    ensures var input := opText + Join(parts, ".");
      |input| > |opText| && input[..|opText|] == opText && input[|opText|..] == Join(parts, ".")
      && IsDigit(input[|opText|]) && IsDigit(input[|input| - 1])
      && (forall k :: 0 <= k < |opText| ==> input[k] in OperatorChars)
      && ',' !in input && '|' !in input
  {
    OperatorTextChars(opText);
    NumeralsJoin(parts);
    var input := opText + Join(parts, ".");
    assert input[|opText|..] == Join(parts, ".");
    assert forall k :: 0 <= k < |opText| ==> input[k] == opText[k];
  }

  /** An operator token is at most two operator characters, neither a comma nor a bar. */
  lemma OperatorTextChars(opText: string)
    requires OperatorText(opText)
    ensures |opText| <= 2 && (forall k :: 0 <= k < |opText| ==> opText[k] in OperatorChars)
    ensures ',' !in opText && '|' !in opText
  {
  }

  /** Numerals joined by dots are digits and dots, starting and ending with a digit. */
  lemma {:induction false} NumeralsJoin(parts: seq<Numeral>)
    requires 1 <= |parts|
    ensures var s := Join(parts, ".");
      |s| > 0 && IsDigit(s[0]) && IsDigit(s[|s| - 1]) && forall c :: c in s ==> IsDigit(c) || c == '.'
    decreases |parts|
  {
    var head := parts[0];
    assert IsDigit(head[0]) && IsDigit(head[|head| - 1]);
    assert forall c :: c in head ==> IsDigit(c) by {
      forall c | c in head ensures IsDigit(c) {
        var k :| 0 <= k < |head| && head[k] == c;
      }
    }
    if |parts| > 1 {
      NumeralsJoin(parts[1..]);
      assert Join(parts, ".") == head + "." + Join(parts[1..], ".");
    }
  }

  /** Text whose first and last characters are kept is left alone by trim. */
  lemma TrimFixed(s: string)
    requires s != "" && IsDigit(s[|s| - 1]) && (IsDigit(s[0]) || s[0] in OperatorChars)
    ensures Trim(s) == s
  {
    assert TrimLeft(s) == s;
  }

  /** Wildcard-only text never ends in a digit. */
  lemma {:induction false} NoWildcardOnly(s: string, i: nat, n: nat)
    requires i < |s| && IsDigit(s[|s| - 1])
    ensures !WildcardsFrom(s, i, n)
    decreases n
  {
    if n > 0 && i + 1 < |s| && s[i] in AnyChars && s[i + 1] == '.' {
      if i + 2 < |s| {
        NoWildcardOnly(s, i + 2, n - 1);
      }
    }
  }

  /** The term pattern on the written term: the operator run, no spaces, then the numerals fill
      the segment groups in order and nothing is left for the suffix. */
  lemma TermOfDotted(input: string, n: nat, parts: seq<Numeral>)
    requires n <= 2 && 1 <= |parts| <= 4 && n < |input| && input[n..] == Join(parts, ".")
    requires IsDigit(input[n]) && forall k :: 0 <= k < n ==> input[k] in OperatorChars
    ensures MatchTerm(input) == Some(Term(input[..n], Scanner.Captures(Scanner.Fill(parts, 0), Scanner.NoSuffix)))
  {
    TermRuns(input, n);
    DottedGroups(input, n, parts);
  }

  lemma TermRuns(input: string, n: nat)
    requires n <= 2 && n < |input| && IsDigit(input[n]) && forall k :: 0 <= k < n ==> input[k] in OperatorChars
    ensures OperatorEnd(input) == n && TermStart(input) == n
  {
    RunTo(input, 0, n, OperatorChars);
    assert Run(input, n, {' '}) == 0;
  }

  lemma DottedGroups(input: string, n: nat, parts: seq<Numeral>)
    requires 1 <= |parts| <= 4 && n < |input| && input[n..] == Join(parts, ".")
    ensures Scanner.MatchFrom(input, n, TermGrammar()) == Some(Scanner.Captures(Scanner.Fill(parts, 0), Scanner.NoSuffix))
  {
    Scanner.JoinIsDotted(input, n, |input|, parts);
    TermTokensNonEmpty();
    Scanner.MatchFromDotted(input, n, parts, TermGrammar());
  }

  lemma TermTokensNonEmpty()
    ensures Scanner.NonEmptyTokens(TermTokens)
  {
  }

  /** A run of characters of cs from i to j, stopped by one outside cs. */
  lemma {:induction false} RunTo(s: string, i: nat, j: nat, cs: set<char>)
    requires i <= j < |s| && s[j] !in cs && forall k :: i <= k < j ==> s[k] in cs
    ensures Run(s, i, cs) == j - i
    decreases j - i
  {
    if i < j {
      RunTo(s, i + 1, j, cs);
    }
  }

  /** `=1.0`, `>=1.2.3`, `1`: a written term without `~` is one bound with the operator written
      (`=` when none) and the numerals zero-filled to four segments. */
  lemma ParseExact(opText: string, parts: seq<Numeral>)
    requires OperatorText(opText) && opText != "~" && 1 <= |parts| <= 4
    ensures Operators.Parse(if opText == "" then "=" else opText).Ok?
    ensures Parse(opText + Join(parts, "."))
      == Ok(Simple(Operators.Parse(if opText == "" then "=" else opText).value, Bound(ZeroFill(parts), Stabilities.Default())))
  {
    var token := if opText == "" then "=" else opText;
    ParseDottedTerm(opText, parts);
    Operators.RenderParse(token);
    ExactBound(opText + Join(parts, "."), Operators.Parse(token).value, parts, Stabilities.Default(), false);
  }

  /** `~1.2`: a written `~` term is the range from its numerals to the tilde's upper bound. */
  lemma ParseTilde(opText: string, parts: seq<Numeral>)
    requires OperatorText(opText) && Operators.Parse(opText) == Ok(Operators.Tilde) && 1 <= |parts| <= 4
    ensures AllNumerals(TildeUpper(ZeroFill(parts), |parts|))
    ensures Parse(opText + Join(parts, "."))
      == Ok(Outcome(Operators.Tilde, ZeroFill(parts), TildeUpper(ZeroFill(parts), |parts|), Stabilities.Default(), false))
  {
    TildeBounds(parts);
    ExpandNumerals(ZeroFill(parts), |parts|);
    ParseDottedTerm(opText, parts);
    TildeRange(opText + Join(parts, "."), parts, TildeUpper(ZeroFill(parts), |parts|), Stabilities.Default(), false);
  }

  /** The single bound of a written term renders zero-filled: `=1.0` reads `=1.0.0.0`. */
  lemma ExactRender(op: Operators.Op, parts: seq<Numeral>)
    requires |parts| <= 4 && (|parts| == 4 ==> NatToText(Value(parts[3])) == parts[3])
    ensures Render(Simple(op, Bound(ZeroFill(parts), Stabilities.Default())))
      == Operators.Render(op) + Join(ZeroFill(parts), ".")
  {
    var f := ZeroFill(parts);
    if |parts| < 4 {
      assert f[3] == "0" && NatToText(Value("0")) == "0";
    } else {
      assert f[3] == parts[3] by {
        assert f[..4] == parts;
      }
    }
    BoundText(f);
  }

  /** A bound whose micro reads back as written prints its four segments joined by dots. */
  lemma BoundText(f: seq<Numeral>)
    requires |f| == 4 && NatToText(Value(f[3])) == f[3]
    ensures Versions.Render(Bound(f, Stabilities.Default())) == Join(f, ".")
  {
    var w := Bound(f, Stabilities.Default());
    assert Stabilities.IsStable(w.stability);
    assert Versions.SegmentsText(w) == f[0] + "." + f[1] + "." + f[2] + "." + f[3];
    JoinFour(f, ".");
  }

  lemma JoinFour(f: seq<string>, sep: string)
    requires |f| == 4
    ensures Join(f, sep) == f[0] + sep + f[1] + sep + f[2] + sep + f[3]
  {
    assert f[1..][1..] == f[2..] && f[2..][1..] == [f[3]] && f[2..][0] == f[2];
    assert Join(f[2..], sep) == f[2] + sep + f[3];
    assert Join(f[1..], sep) == f[1] + sep + Join(f[2..], sep);
    assert Join(f, sep) == f[0] + sep + Join(f[1..], sep);
  }
}
