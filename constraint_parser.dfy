/** Constraint::parse (src/Version/Constraint.php): the range grammar. The text is trimmed and
    split into an AND on `,` or, failing that, an OR on `|`; a single term is either made of
    wildcards only or an operator, up to four segments and a stability suffix, which become a
    single bound or a two-bound range. */
module ConstraintParser {
  import opened Wrappers
  import opened Text
  import Scanner
  import Stabilities
  import Versions
  import opened Operators
  import opened Constraints

  type KnownStability = Stabilities.KnownStability

  // ---------------------------------------------------------------- the two patterns

  /** `[\*|x]` of the wildcard-only pattern, which has no /i modifier. */
  const AnyChars: set<char> := {'*', '|', 'x'}

  /** `[<|>|!|=|~]` of the operator group. */
  const OperatorChars: set<char> := {'<', '|', '>', '!', '=', '~'}

  /** Stability::REGEX's alternation, in its order, under the /i modifier of the term pattern. */
  const TermTokens: seq<Scanner.Token> := [
    Scanner.Token("rc", true), Scanner.Token("pl", true), Scanner.Token("a", true),
    Scanner.Token("alpha", true), Scanner.Token("beta", true), Scanner.Token("b", true),
    Scanner.Token("patch", true), Scanner.Token("stable", true), Scanner.Token("p", true),
    Scanner.Token("dev", true), Scanner.Token("d", true)]

  /** The segment groups `(\d+|\*|x)` of the term pattern, dot-separated, where /i lets `X`
      stand for `x`; then Stability::REGEX. */
  function TermGrammar(): (g: Scanner.Grammar)
    ensures Scanner.ValidGrammar(g) && g.wildcards == {'*', 'x', 'X'} && g.tokens == TermTokens
    ensures forall m :: 0 <= m < 3 ==> g.separators[m] == {'.'}
  {
    Scanner.Grammar([{'.'}, {'.'}, {'.'}], {'*', 'x', 'X'}, {'-', '_', '.'}, TermTokens, true)
  }

  /** `(?:([\*|x])\.)?` three times, then `(?:([\*|x]))?$`, from i with n dotted groups left. */
  predicate WildcardsFrom(s: string, i: nat, n: nat)
    requires i <= |s|
    decreases n
  {
    Scanner.AtEnd(s, i)
    || (i < |s| && s[i] in AnyChars && Scanner.AtEnd(s, i + 1))
    || (n > 0 && i + 1 < |s| && s[i] in AnyChars && s[i + 1] == '.' && WildcardsFrom(s, i + 2, n - 1))
  }

  /** The wildcard-only pattern: up to four wildcard characters separated by dots. */
  predicate WildcardOnly(s: string)
  {
    WildcardsFrom(s, 0, 3)
  }

  /** The length of the run of characters of cs starting at i. */
  function Run(s: string, i: nat, cs: set<char>): (n: nat)
    requires i <= |s|
    ensures i + n <= |s| && (i + n == |s| || s[i + n] !in cs)
    decreases |s| - i
  {
    if i < |s| && s[i] in cs then 1 + Run(s, i + 1, cs) else 0
  }

  /** What the term pattern captured: the operator text and the segment and suffix captures. */
  datatype Term = Term(op: string, captures: Scanner.Captures)

  /** The term pattern `^([<|>|!|=|~]{0,2})? *SEGMENTS SUFFIX?$`. The operator and the spaces
      take their longest runs: a shorter run would leave an operator character or a space in
      front of the segment groups, and nothing later in the pattern matches either, so PCRE's
      backtracking into them never succeeds. */
  function MatchTerm(t: string): (r: Option<Term>)
  {
    var m := Scanner.MatchFrom(t, TermStart(t), TermGrammar());
    if m.Some? then Some(Term(t[..OperatorEnd(t)], m.value)) else None
  }

  /** Where the operator group ends: its longest run, at most two characters. */
  function OperatorEnd(t: string): (n: nat)
    ensures n <= 2 && n <= |t|
  {
    var n := Run(t, 0, OperatorChars);
    if n < 2 then n else 2
  }

  /** Where the segment groups start: after the operator group and the spaces that follow it. */
  function TermStart(t: string): (n: nat)
    ensures OperatorEnd(t) <= n <= |t|
  {
    OperatorEnd(t) + Run(t, OperatorEnd(t), {' '})
  }

  /** The captures a match of the term pattern can have. */
  predicate TermCaptures(term: Term)
  {
    Scanner.Captured(term.captures, TermGrammar())
  }

  lemma MatchTermCaptures(t: string)
    ensures MatchTerm(t).Some? ==> TermCaptures(MatchTerm(t).value)
  {
    Scanner.MatchFromSegments(t, TermStart(t), TermGrammar());
  }

  // ---------------------------------------------------------------- from captures to a constraint

  /** The stability a suffix token names. The RC test reads the last segment capture instead of
      the token, so it never holds and `rc` is refused along with `alpha`, `a`, `dev` and `d`. */
  function StabilityName(lastSegment: string, token: string): Option<string>
  {
    if ToLower(lastSegment) == "rc" then Some("RC")
    else if ToLower(token) in {"pl", "patch", "p"} then Some("patch")
    else if ToLower(token) in {"beta", "b"} then Some("beta")
    else if ToLower(token) == "stable" then Some("stable")
    else None
  }

  lemma NameKnown(name: string, number: Option<Numeral>)
    requires name in {"RC", "patch", "beta", "stable"}
    ensures Stabilities.Known(Stabilities.Make(name, number))
  {
    Stabilities.Recognised(name, number);
    assert ToLower("RC") == "rc";
    LowerFixed("patch");
    LowerFixed("beta");
    LowerFixed("stable");
  }

  /** The stability of the term: new Stability(name, digits) for an accepted suffix token,
      the default when there is none, a failure for any other token. */
  function TermStability(t: string, c: Scanner.Captures): (r: Result<KnownStability>)
    requires |c.segments| == 4 && Scanner.WellFormed(c.suffix, TermTokens)
  {
    if c.suffix.Label? then
      var name := StabilityName(c.segments[3], c.suffix.token);
      if name.None? then Err(InvalidFormat(t))
      else
        NameKnown(name.value, Versions.NumberOf(c.suffix.number));
        Ok(Stabilities.Make(name.value, Versions.NumberOf(c.suffix.number)))
    else Ok(Stabilities.Default())
  }

  /** PHP's `++` on a segment: a numeral counts up and becomes an integer, a letter steps to
      the next one (`x` to `y` to `z`), and `*` has no successor and is left as it is. A slot is
      bumped at most twice, so `z` is never bumped. */
  function Bump(s: string): (r: string)
    ensures IsNumeral(s) ==> IsNumeral(r) && Value(r) == Value(s) + 1
    ensures !IsNumeral(s) ==> !IsNumeral(r)
  {
    if IsNumeral(s) then
      ValueOfNatToText(Value(s) + 1);
      NatToText(Value(s) + 1)
    else if s == "x" then assert "y"[0] == 'y'; "y"
    else if s == "y" then assert "z"[0] == 'z'; "z"
    else if s == "X" then assert "Y"[0] == 'Y'; "Y"
    else if s == "Y" then assert "Z"[0] == 'Z'; "Z"
    else s
  }

  /** The segments written, followed by zeros up to four. */
  function ZeroFill(parts: seq<string>): (r: seq<string>)
    requires |parts| <= 4
    ensures |r| == 4 && r[..|parts|] == parts && forall k :: |parts| <= k < 4 ==> r[k] == "0"
    ensures AllNumerals(parts) ==> AllNumerals(r)
  {
    parts + seq(4 - |parts|, _ => "0")
  }

  /** The upper bound of `~` by the number of segments written: one or two bump the major
      and zero the minor, three bump the minor and zero the revision, four bump the revision
      and zero the micro. No other count reaches here. */
  function TildeUpper(filled: seq<string>, end: nat): (upper: seq<string>)
    requires |filled| == 4
    ensures |upper| == 4
  {
    if end == 1 then filled[0 := Bump(filled[0])]
    else if end == 2 then filled[0 := Bump(filled[0])][1 := "0"]
    else if end == 3 then filled[1 := Bump(filled[1])][2 := "0"]
    else if end == 4 then filled[2 := Bump(filled[2])][3 := "0"]
    else filled
  }

  predicate IsWildcard(s: string) { s == "x" || s == "*" }

  /** The segments of the two bounds, lower and upper. */
  datatype Bounds = Bounds(lower: seq<string>, upper: seq<string>)

  /** A wildcard written in slot k reads 0 in both bounds, and the upper bound counts the slot
      before it up. */
  function WildcardAt(b: Bounds, k: nat): (r: Bounds)
    requires 1 <= k < 4 && |b.lower| == 4 && |b.upper| == 4
    ensures |r.lower| == 4 && |r.upper| == 4
  {
    if IsWildcard(b.lower[k]) then Bounds(b.lower[k := "0"], b.upper[k := "0"][k - 1 := Bump(b.upper[k - 1])])
    else b
  }

  /** The bounds of the zero-filled segments: the tilde's upper bound, then the wildcards of
      slots 3, 2 and 1 in that order. */
  function Expand(filled: seq<string>, end: nat): (b: Bounds)
    requires |filled| == 4
    ensures |b.lower| == 4 && |b.upper| == 4
  {
    WildcardAt(WildcardAt(WildcardAt(Bounds(filled, TildeUpper(filled, end)), 3), 2), 1)
  }

  predicate AllNumerals(segments: seq<string>)
  {
    forall k :: 0 <= k < |segments| ==> IsNumeral(segments[k])
  }

  /** new Version($s[0]) with minor, revision and micro set: every slot present, regular. */
  function Bound(s: seq<Numeral>, stability: KnownStability): (v: Versions.Version)
    requires |s| == 4
    ensures v.major == s[0] && v.minor == s[1] && v.revision == s[2] && v.micro == Some(s[3])
    ensures v.stability == stability && v.regular
  {
    Versions.Version(s[0], s[1], s[2], Some(s[3]), stability, true)
  }

  /** The constraint of a term once its operator and stability are read: the segments written
      are zero-filled and expanded into two bounds, which must be numerals. */
  function Assemble(t: string, op: Op, parts: seq<string>, stability: KnownStability, resetStable: bool): Result<Constraint>
    requires |parts| <= 4
  {
    var b := Expand(ZeroFill(parts), if op == Tilde then |parts| else 0);
    if !AllNumerals(b.lower) || !AllNumerals(b.upper) then Err(InvalidFormat(t))
    else Ok(Outcome(op, b.lower, b.upper, stability, resetStable))
  }

  /** Equal bounds give a single bound with the operator written; different ones the range
      [lower, upper), or only `< upper` when the lower bound renders as 0.0.0.0. `stable`
      written on a range's lower bound is reset to the default. */
  function Outcome(op: Op, lower: seq<Numeral>, upper: seq<Numeral>, stability: KnownStability, resetStable: bool): (r: Constraint)
    requires |lower| == 4 && |upper| == 4
    ensures lower == upper ==> r.Simple? && r.op == op && r.version.stability == stability
    ensures lower != upper ==>
      r == Simple(Lt, Bound(upper, Stabilities.Default()))
      || (r.Multi? && r.and && |r.children| == 2 && r.children[0].Simple? && r.children[0].op == Ge
          && r.children[1] == Simple(Lt, Bound(upper, Stabilities.Default())))
  {
    var low := Bound(lower, stability);
    if lower == upper then Simple(op, low)
    else
      var high := Bound(upper, Stabilities.Default());
      if Versions.Render(low) == "0.0.0.0" then Simple(Lt, high)
      else
        var from := if resetStable then low.(stability := Stabilities.Default()) else low;
        Multi([Simple(Ge, from), Simple(Lt, high)], true)
  }

  /** The operator written, `=` when none; the segments that took part; the stability. */
  function FromTerm(t: string, term: Term): (r: Result<Constraint>)
    requires TermCaptures(term)
    ensures Operators.Parse(if term.op == "" then "=" else term.op).Err? ==>
      r == Err(Operators.Parse(if term.op == "" then "=" else term.op).error)
    ensures r.Ok? ==> r.value.Simple? || (r.value.Multi? && |r.value.children| == 2)
  {
    var op := Operators.Parse(if term.op == "" then "=" else term.op);
    if op.Err? then Err(op.error)
    else
      var c := term.captures;
      var stability := TermStability(t, c);
      if stability.Err? then Err(stability.error)
      else
        Assemble(t, op.value, Versions.Present(c.segments), stability.value,
                 c.suffix.Label? && ToLower(c.suffix.token) == "stable")
  }

  /** A single trimmed term: all wildcards, else the term pattern. */
  function ParseTerm(t: string): (r: Result<Constraint>)
    ensures r == Ok(Anything) <==> WildcardOnly(t)
  {
    if WildcardOnly(t) then Ok(Anything)
    else
      var m := MatchTerm(t);
      if m.None? then Err(InvalidFormat(t))
      else
        MatchTermCaptures(t);
        FromTerm(t, m.value)
  }

  // ---------------------------------------------------------------- splitting

  /** The pieces of the trimmed text and their combinator: the `,` pieces when there are
      several, otherwise the `|` pieces. */
  function Pieces(t: string): (r: (seq<string>, bool))
  {
    var commas := Split(t, ',');
    if |commas| > 1 then (commas, true) else (Split(t, '|'), false)
  }

  /** Constraint::parse. */
  function Parse(input: string): (r: Result<Constraint>)
    ensures Trim(input) == "" ==> r == Err(InvalidFormat(""))
    ensures r.Ok? && r.value.Multi? ==> |r.value.children| >= 2
    decreases |input|, 1, 0
  {
    var t := Trim(input);
    if t == "" then Err(InvalidFormat(t))
    else
      var (pieces, and) := Pieces(t);
      if |pieces| > 1 then
        PiecesShorter(t);
        var cs := ParseAll(pieces, |t|);
        if cs.Err? then Err(cs.error) else Ok(Multi(cs.value, and))
      else ParseTerm(t)
  }

  /** Each piece in order; the first failure ends the loop. */
  function ParseAll(pieces: seq<string>, limit: nat): (r: Result<seq<Constraint>>)
    requires forall k :: 0 <= k < |pieces| ==> |pieces[k]| < limit
    ensures r.Ok? ==> |r.value| == |pieces|
    decreases limit, 0, |pieces|
  {
    if pieces == [] then Ok([])
    else
      var first := Parse(pieces[0]);
      if first.Err? then Err(first.error)
      else
        var rest := ParseAll(pieces[1..], limit);
        if rest.Err? then rest else Ok([first.value] + rest.value)
  }

  lemma PiecesShorter(t: string)
    ensures |Pieces(t).0| > 1 ==> forall k :: 0 <= k < |Pieces(t).0| ==> |Pieces(t).0[k]| < |t|
    ensures |Pieces(t).0| == 1 ==> Pieces(t).0[0] == t && ',' !in t && '|' !in t
    ensures |Pieces(t).0| >= 1
  {
    SplitPieces(t, ',');
    SplitPieces(t, '|');
  }

  // ---------------------------------------------------------------- the steps as written

  /** Constraint::parse as the source runs it: trim, the empty check, the split on `,`, else
      on `|`, then each piece parsed in turn, or the single term. */
  method ParseSteps(input: string) returns (r: Result<Constraint>)
    ensures r == Parse(input)
    decreases |input|, 1, 0
  {
    var t := Trim(input);
    if t == "" {
      return Err(InvalidFormat(t));
    }
    var pieces := Split(t, ',');
    var and := true;
    if |pieces| <= 1 {
      SplitPieces(t, ',');
      pieces := Split(pieces[0], '|');
      and := false;
    }
    PiecesShorter(t);
    assert (pieces, and) == Pieces(t);
    if |pieces| > 1 {
      r := PiecesSteps(pieces, and, |t|);
      return;
    }
    r := TermSteps(t);
  }

  /** The combinator of the pieces parsed in order, the first failure ending the loop. */
  method PiecesSteps(pieces: seq<string>, and: bool, limit: nat) returns (r: Result<Constraint>)
    requires forall k :: 0 <= k < |pieces| ==> |pieces[k]| < limit
    ensures r == (var cs := ParseAll(pieces, limit); if cs.Err? then Err(cs.error) else Ok(Multi(cs.value, and)))
    decreases limit, 0, |pieces|
  {
    var cs: seq<Constraint> := [];
    var i := 0;
    assert pieces[i..] == pieces;
    assert Prepend(cs, ParseAll(pieces, limit)) == ParseAll(pieces, limit) by {
      var all := ParseAll(pieces, limit);
      if all.Ok? {
        assert cs + all.value == all.value;
      }
    }
    while i < |pieces|
      invariant 0 <= i <= |pieces|
      invariant ParseAll(pieces, limit) == Prepend(cs, ParseAll(pieces[i..], limit))
    {
      var c := ParseSteps(pieces[i]);
      ParseAllStep(pieces, limit, i, cs);
      if c.Err? {
        assert ParseAll(pieces, limit) == Err(c.error);
        return Err(c.error);
      }
      cs := cs + [c.value];
      i := i + 1;
    }
    assert pieces[i..] == [];
    assert ParseAll(pieces, limit) == Ok(cs + []) && cs + [] == cs;
    r := Ok(Multi(cs, and));
  }

  /** The constraints parsed so far in front of the result of the rest. */
  function Prepend(cs: seq<Constraint>, r: Result<seq<Constraint>>): Result<seq<Constraint>>
  {
    if r.Err? then r else Ok(cs + r.value)
  }

  lemma ParseAllStep(pieces: seq<string>, limit: nat, i: nat, cs: seq<Constraint>)
    requires forall k :: 0 <= k < |pieces| ==> |pieces[k]| < limit
    requires i < |pieces|
    ensures Prepend(cs, ParseAll(pieces[i..], limit)) ==
      if Parse(pieces[i]).Err? then Err(Parse(pieces[i]).error)
      else Prepend(cs + [Parse(pieces[i]).value], ParseAll(pieces[i + 1..], limit))
  {
    assert pieces[i..][0] == pieces[i];
    assert pieces[i..][1..] == pieces[i + 1..];
    var first := Parse(pieces[i]);
    var rest := ParseAll(pieces[i + 1..], limit);
    if first.Ok? && rest.Ok? {
      assert cs + ([first.value] + rest.value) == cs + [first.value] + rest.value;
    }
  }

  /** A single term: the wildcard-only pattern, then the term pattern and its captures. */
  method TermSteps(t: string) returns (r: Result<Constraint>)
    ensures r == ParseTerm(t)
  {
    if WildcardOnly(t) {
      return Ok(Anything);
    }
    var m := MatchTerm(t);
    if m.None? {
      return Err(InvalidFormat(t));
    }
    MatchTermCaptures(t);
    r := CapturesSteps(t, m.value);
  }

  /** The operator, the segments that took part, the two bounds, the lower version and its
      stability, then the scan for a slot where the bounds differ. */
  method CapturesSteps(t: string, term: Term) returns (r: Result<Constraint>)
    requires TermCaptures(term)
    ensures r == FromTerm(t, term)
  {
    var c := term.captures;
    var op := Operators.Parse(if term.op != "" then term.op else "=");
    if op.Err? {
      return Err(op.error);
    }
    var parts := CollectParts(c.segments);
    var end := if op.value == Tilde then |parts| else 0;
    var lower, upper := ExpandSteps(parts, end);
    if !AllNumerals(lower) || !AllNumerals(upper) {
      // A letter left in a segment: the source builds a version of it, the model refuses it.
      return Err(InvalidFormat(t));
    }
    var version := VersionSteps(lower);
    if c.suffix.Label? {
      var name := StabilityName(c.segments[3], c.suffix.token);
      if name.None? {
        return Err(InvalidFormat(t));
      }
      NameKnown(name.value, Versions.NumberOf(c.suffix.number));
      version := version.(stability := Stabilities.Make(name.value, Versions.NumberOf(c.suffix.number)));
    }
    var c' := RangeSteps(op.value, version, lower, upper, c.suffix.Label? && ToLower(c.suffix.token) == "stable");
    return Ok(c');
  }

  /** The scan for a slot where the bounds differ: there the range is returned, or only its
      upper bound when the lower one renders as 0.0.0.0; otherwise the single bound. */
  method RangeSteps(op: Op, version: Versions.Version, lower: seq<Numeral>, upper: seq<Numeral>, resetStable: bool)
    returns (r: Constraint)
    requires |lower| == 4 && |upper| == 4 && version == Bound(lower, version.stability)
    ensures r == Outcome(op, lower, upper, version.stability, resetStable)
  {
    var k := FirstDifference(lower, upper);
    if k < 4 {
      var maxVersion := VersionSteps(upper);
      if Versions.Render(version) == "0.0.0.0" {
        return Simple(Lt, maxVersion);
      }
      var from := version;
      if resetStable {
        from := from.(stability := Stabilities.Default());
      }
      return Multi([Simple(Ge, from), Simple(Lt, maxVersion)], true);
    }
    return Simple(op, version);
  }

  /** The captures that took part, appended in order. */
  method CollectParts(segments: seq<string>) returns (parts: seq<string>)
    requires |segments| == 4
    ensures parts == Versions.Present(segments) && |parts| <= 4
  {
    parts := [];
    if segments[0] != "" {
      parts := parts + [segments[0]];
    }
    if segments[1] != "" {
      parts := parts + [segments[1]];
    }
    if segments[2] != "" {
      parts := parts + [segments[2]];
    }
    if segments[3] != "" {
      parts := parts + [segments[3]];
    }
    Versions.PresentFour(segments);
  }

  /** Zeros appended up to four slots; the copy that becomes the upper bound is bumped for a
      tilde; then each wildcard slot from the last to the second is zeroed in both and the slot
      before it bumped in the upper bound. */
  method ExpandSteps(parts: seq<string>, end: nat) returns (lower: seq<string>, upper: seq<string>)
    requires |parts| <= 4
    ensures Bounds(lower, upper) == Expand(ZeroFill(parts), end)
  {
    lower := parts;
    while |lower| < 4
      invariant |parts| <= |lower| <= 4
      invariant lower == parts + seq(|lower| - |parts|, _ => "0")
      decreases 4 - |lower|
    {
      lower := lower + ["0"];
    }
    assert lower == ZeroFill(parts);
    upper := lower;
    if end == 1 {
      upper := upper[0 := Bump(upper[0])];
    } else if end == 2 {
      upper := upper[0 := Bump(upper[0])];
      upper := upper[1 := "0"];
    } else if end == 3 {
      upper := upper[1 := Bump(upper[1])];
      upper := upper[2 := "0"];
    } else if end == 4 {
      upper := upper[2 := Bump(upper[2])];
      upper := upper[3 := "0"];
    }
    assert Bounds(lower, upper) == Bounds(ZeroFill(parts), TildeUpper(ZeroFill(parts), end));
    lower, upper := WildcardSteps(lower, upper, 3);
    lower, upper := WildcardSteps(lower, upper, 2);
    lower, upper := WildcardSteps(lower, upper, 1);
  }

  method WildcardSteps(lower0: seq<string>, upper0: seq<string>, k: nat) returns (lower: seq<string>, upper: seq<string>)
    requires 1 <= k < 4 && |lower0| == 4 && |upper0| == 4
    ensures Bounds(lower, upper) == WildcardAt(Bounds(lower0, upper0), k)
  {
    lower, upper := lower0, upper0;
    if lower[k] == "x" || lower[k] == "*" {
      lower := lower[k := "0"];
      upper := upper[k := "0"];
      upper := upper[k - 1 := Bump(upper[k - 1])];
    }
  }

  /** new Version($s[0]), then minor, revision and micro set in turn. */
  method VersionSteps(s: seq<Numeral>) returns (v: Versions.Version)
    requires |s| == 4
    ensures v == Bound(s, Stabilities.Default())
  {
    v := Versions.New(s[0]);
    v := v.(minor := s[1]);
    v := v.(revision := s[2]);
    v := v.(micro := Some(s[3]));
  }

  /** The first slot where the bounds differ, 4 when none does. */
  method FirstDifference(lower: seq<string>, upper: seq<string>) returns (k: nat)
    requires |lower| == 4 && |upper| == 4
    ensures k <= 4 && lower[..k] == upper[..k]
    ensures k < 4 ==> lower[k] != upper[k]
    ensures k < 4 <==> lower != upper
  {
    k := 0;
    while k < 4 && lower[k] == upper[k]
      invariant k <= 4 && lower[..k] == upper[..k]
    {
      k := k + 1;
    }
    if k == 4 {
      assert lower == lower[..4] && upper == upper[..4];
    }
  }
}
