/** VersionParser (src/Version/VersionParser.php): the older string-to-string layer. normalize
    rewrites a version as text, parseConstraints builds constraint descriptions from a range
    text, and parseStability classifies the first stability token found anywhere in a text. */
module VersionParser {
  import opened Wrappers
  import opened Text
  import Scanner
  import Stabilities
  import Versions
  import ConstraintParser
  import ConstraintLaws
  import Ops = Operators

  // ---------------------------------------------------------------- normalize

  /** The suffix alternation of normalize, in its order; only `[Rr][Cc]` allows capitals. */
  const NormalTokens: seq<Scanner.Token> := [
    Scanner.Token("rc", true), Scanner.Token("pl", false), Scanner.Token("beta", false),
    Scanner.Token("b", false), Scanner.Token("patch", false), Scanner.Token("p", false)]

  /** The pattern of normalize: an optional `v`, two groups followed by `-` or `.`, one by `.`,
      the last group, then an optional `-` or `.` and a token; no date alternative. */
  function NormalGrammar(): (g: Scanner.Grammar)
    ensures Scanner.ValidGrammar(g) && g.wildcards == {} && g.tokens == NormalTokens && !g.date
    ensures g.separators == [{'-', '.'}, {'-', '.'}, {'.'}] && g.suffixSeparators == {'-', '.'}
  {
    Scanner.Grammar([{'-', '.'}, {'-', '.'}, {'.'}], {}, {'-', '.'}, NormalTokens, false)
  }

  /** The shape normalize joins with dashes: a first segment of 14, 8, 6 or 4 digits, unless
      it has 4 and is followed by a second segment that is not 2 digits long. */
  predicate DashJoined(parts: seq<string>)
    requires |parts| > 0
  {
    (|parts[0]| == 14 || |parts[0]| == 8 || |parts[0]| == 6 || |parts[0]| == 4)
    && !(|parts[0]| == 4 && |parts| > 1 && |parts[1]| != 2)
  }

  /** The label normalize writes for a suffix token. */
  function Label(token: string): string
  {
    if ToLower(token) == "rc" then "RC"
    else if ToLower(token) in {"pl", "patch", "p"} then "patch"
    else if ToLower(token) in {"beta", "b"} then "beta"
    else ""
  }

  /** The text appended for the suffix: a dash, the label and the digits written after it. */
  function SuffixText(x: Scanner.Suffix): string
  {
    if x.Label? then "-" + Label(x.token) + x.number else ""
  }

  /** The segments that took part: zero-filled to four and joined by dots, or, when there are
      none or they are dash-joined, joined by dashes as they are. */
  function Glued(parts: seq<string>): string
    requires |parts| <= 4
  {
    if parts != [] && !DashJoined(parts) then Join(ConstraintParser.ZeroFill(parts), ".")
    else Join(parts, "-")
  }

  /** normalize. */
  function Normalize(input: string): (r: Result<string>)
    ensures r.Err? ==> r.error == InvalidFormat(input)
  {
    if |input| < 1 then Err(InvalidFormat(input))
    else
      var m := Scanner.MatchWithV(input, NormalGrammar());
      if m.None? then Err(InvalidFormat(input))
      else Ok(Glued(Versions.Present(m.value.segments)) + SuffixText(m.value.suffix))
  }

  /** normalize as the source runs it: the segments that took part are appended in order, zeros
      are appended up to four unless the shape is dash-joined, and the suffix is appended last. */
  method NormalizeSteps(input: string) returns (r: Result<string>)
    ensures r == Normalize(input)
  {
    if |input| < 1 {
      return Err(InvalidFormat(input));
    }
    var m := Scanner.MatchWithV(input, NormalGrammar());
    if m.None? {
      return Err(InvalidFormat(input));
    }
    r := CapturesSteps(m.value);
  }

  /** The text built from the captures: the segments that took part are appended in order,
      zeros are appended up to four unless the shape is dash-joined, then the suffix. */
  method CapturesSteps(c: Scanner.Captures) returns (r: Result<string>)
    requires |c.segments| == 4
    ensures r == Ok(Glued(Versions.Present(c.segments)) + SuffixText(c.suffix))
  {
    var written := ConstraintParser.CollectParts(c.segments);
    var parts := written;
    var glue := "-";
    if parts != [] && !DashJoined(parts) {
      while |parts| < 4
        invariant |written| <= |parts| <= 4
        invariant parts == written + seq(|parts| - |written|, _ => "0")
        decreases 4 - |parts|
      {
        parts := parts + ["0"];
      }
      assert parts == ConstraintParser.ZeroFill(written);
      glue := ".";
    }
    var normalized := Join(parts, glue);
    assert normalized == Glued(written);
    if c.suffix.Label? {
      normalized := normalized + ("-" + Label(c.suffix.token) + c.suffix.number);
    } else {
      assert normalized == normalized + "";
    }
    return Ok(normalized);
  }

  /** The three separator groups of normalize all accept a dot. */
  lemma NormalGrammarDotted()
    ensures forall m :: 0 <= m < 3 ==> '.' in NormalGrammar().separators[m]
    ensures Scanner.NonEmptyTokens(NormalTokens)
  {
  }

  /** One to four numerals joined by dots, with an optional leading `v`, followed by text that
      the suffix part matches on its own: dash-joined shapes keep their numerals as written,
      joined by dashes; every other shape is zero-filled to four numerals joined by dots; the
      suffix text follows. */
  lemma NormalizeDotted(input: string, v: bool, parts: seq<Numeral>, rest: string, x: Scanner.Suffix)
    requires 1 <= |parts| <= 4 && input == (if v then "v" else "") + Join(parts, ".") + rest
    requires rest == "" || (!IsDigit(rest[0]) && forall m :: |parts| - 1 <= m < 3 ==> rest[0] !in NormalGrammar().separators[m])
    requires Scanner.Tail(rest, 0, NormalGrammar()) == Some(x)
    ensures Normalize(input)
      == Ok((if DashJoined(parts) then Join(parts, "-") else Join(ConstraintParser.ZeroFill(parts), ".")) + SuffixText(x))
  {
    var front := (if v then "v" else "") + Join(parts, ".");
    Versions.TextIsDotted(front, v, parts, rest);
    NormalGrammarDotted();
    Scanner.MatchWithVDotted(front, rest, if v then 1 else 0, parts, x, NormalGrammar());
    NormalizeOfMatch(input, parts, x);
  }

  /** normalize reads its text off the captures of dotted numerals. */
  lemma NormalizeOfMatch(input: string, parts: seq<Numeral>, x: Scanner.Suffix)
    requires 1 <= |parts| <= 4 && |input| >= 1
    requires Scanner.MatchWithV(input, NormalGrammar()) == Some(Scanner.Captures(Scanner.Fill(parts, 0), x))
    ensures Normalize(input) == Ok(Glued(parts) + SuffixText(x))
  {
    Versions.PresentFill(parts, 0);
  }

  /** Plain dotted numerals, with or without a leading `v`: no suffix text. */
  lemma NormalizePlain(v: bool, parts: seq<Numeral>)
    requires 1 <= |parts| <= 4
    ensures Normalize((if v then "v" else "") + Join(parts, "."))
      == Ok(if DashJoined(parts) then Join(parts, "-") else Join(ConstraintParser.ZeroFill(parts), "."))
  {
    var input := (if v then "v" else "") + Join(parts, ".");
    var out := if DashJoined(parts) then Join(parts, "-") else Join(ConstraintParser.ZeroFill(parts), ".");
    assert input == input + "" && out == out + SuffixText(Scanner.NoSuffix);
    NothingAfter();
    NormalizeDotted(input, v, parts, "", Scanner.NoSuffix);
  }

  /** Nothing after the segments: no suffix. */
  lemma NothingAfter()
    ensures Scanner.Tail("", 0, NormalGrammar()) == Some(Scanner.NoSuffix)
  {
    NormalGrammarDotted();
    Scanner.TailAtEnd("", NormalGrammar());
  }

  /** Every token of the alternation gets one of the three labels, and the label names the same
      stability level as the token does for the Stability class. */
  lemma SuffixLabel(x: Scanner.Suffix)
    requires x.Label? && Scanner.WellFormed(x, NormalTokens)
    ensures Label(x.token) in {"RC", "patch", "beta"}
    ensures Stabilities.Normalise(Label(x.token)) == Stabilities.Normalise(x.token)
  {
    var t := x.token;
    assert Scanner.IsToken(t, NormalTokens);
    var rest := NormalTokens[1..];
    if !Scanner.Spells(t, NormalTokens[0]) {
      assert Scanner.IsToken(t, rest);
      assert t in {"pl", "beta", "b", "patch", "p"} by {
        TokenWords(t, rest);
      }
      WordLabel(t);
    } else {
      RcLabel(t);
    }
  }

  lemma WordLabel(t: string)
    requires t in {"pl", "beta", "b", "patch", "p"}
    ensures Label(t) in {"patch", "beta"}
    ensures Stabilities.Normalise(Label(t)) == Stabilities.Normalise(t)
  {
    LowerFixed(t);
    if t in {"pl", "patch", "p"} {
      LowerFixed("patch");
      assert Label(t) == "patch";
    } else {
      LowerFixed("beta");
      assert Label(t) == "beta";
    }
  }

  lemma RcLabel(t: string)
    requires ToLower(t) == "rc"
    ensures Label(t) == "RC"
    ensures Stabilities.Normalise(Label(t)) == Stabilities.Normalise(t)
  {
    assert ToLower("RC") == "rc";
  }

  /** A case-sensitive token of an alternation is one of its words. */
  lemma {:induction false} TokenWords(t: string, tokens: seq<Scanner.Token>)
    requires Scanner.IsToken(t, tokens)
    requires forall k :: 0 <= k < |tokens| ==> !tokens[k].anyCase
    ensures exists k :: 0 <= k < |tokens| && t == tokens[k].word
    decreases |tokens|
  {
    if !Scanner.Spells(t, tokens[0]) {
      TokenWords(t, tokens[1..]);
      var k :| 0 <= k < |tokens[1..]| && t == tokens[1..][k].word;
      assert t == tokens[k + 1].word;
    }
  }

  /** The dash-joined shape and the date-like shape of Version differ only on a lone segment of
      four digits, which normalize dash-joins and Version reads as regular. */
  lemma DashJoinedDateLike(parts: seq<string>)
    requires |parts| > 0
    ensures DashJoined(parts) <==> Versions.DateLike(parts) || (|parts[0]| == 4 && |parts| == 1)
  {
  }

  /** A text with no segment at all still matches: `v` alone normalises to nothing. */
  lemma NormalizeBareV()
    ensures Normalize("v") == Ok("")
  {
    MatchBareV();
    Versions.PresentFour(["", "", "", ""]);
  }

  /** The `v` is consumed, every group takes no part and `$` follows. */
  lemma MatchBareV()
    ensures Scanner.MatchWithV("v", NormalGrammar()) == Some(Scanner.Captures(["", "", "", ""], Scanner.NoSuffix))
  {
    var g := NormalGrammar();
    var none := Scanner.Cut(1, 1);
    Scanner.TailAtEnd("v", g);
    BareGroups();
    assert "v"[1..1] == "";
    Scanner.MatchOfGroups("v", g, 1, [none, none, none, none], 1, ["", "", "", ""], Scanner.NoSuffix);
  }

  lemma BareGroups()
    ensures Scanner.Groups("v", 1, 0, NormalGrammar(), Scanner.TailAccepts("v", NormalGrammar()))
      == Some(Scanner.Span([Scanner.Cut(1, 1), Scanner.Cut(1, 1), Scanner.Cut(1, 1), Scanner.Cut(1, 1)], 1))
  {
    var g := NormalGrammar();
    Scanner.TailAtEnd("v", g);
    var accept := Scanner.TailAccepts("v", g);
    var none := Scanner.Cut(1, 1);
    assert Scanner.Groups("v", 1, 3, g, accept) == Some(Scanner.Span([none], 1));
    assert Scanner.Separated("v", 1, 2, g) == None;
    Scanner.GroupsAbsent("v", 1, 2, g, accept);
    assert [none] + [none] == [none, none];
    assert Scanner.Separated("v", 1, 1, g) == None;
    Scanner.GroupsAbsent("v", 1, 1, g, accept);
    assert [none] + [none, none] == [none, none, none];
    assert Scanner.Separated("v", 1, 0, g) == None;
    Scanner.GroupsAbsent("v", 1, 0, g, accept);
    assert [none] + [none, none, none] == [none, none, none, none];
  }

  // ---------------------------------------------------------------- parseConstraints

  /** What parseConstraints builds, as the arguments it passes to the constraint classes. */
  datatype Legacy =
    | Everything                                      // new EmptyConstraint()
    | Single(op: string, version: string)             // new VersionConstraint($operator, $version)
    | Both(first: Legacy, second: Legacy, and: bool)  // new MultiConstraint(array(...), $and)

  /** The operators parseConstraints accepts once `==` has become `=`. */
  const Operators: set<string> := {"=", "<", ">", "<=", ">=", "<>", "!=", "~"}

  /** The operator of a term: `=` when none is written or `==` is. */
  function OperatorOf(written: string): string
  {
    if written == "" || written == "==" then "=" else written
  }

  /** The suggestion of the failure message: only `~>` has one. */
  function Hint(operator: string): Option<string>
  {
    if operator == "~>" then Some("~") else None
  }

  /** The suffix alternation of the term pattern, in its order; `[Rr][Cc]` and `[Bb][Ee][Tt][Aa]`
      allow capitals, the other tokens do not. */
  const TermTokens: seq<Scanner.Token> := [
    Scanner.Token("rc", true), Scanner.Token("pl", false), Scanner.Token("beta", true),
    Scanner.Token("b", false), Scanner.Token("patch", false), Scanner.Token("p", false),
    Scanner.Token("stable", false)]

  /** The segment groups `(\d+|\*|x)` of the term pattern, dot-separated, then an optional `-` or
      `.` and a token; no modifier, so no `X`, and no date alternative. */
  function TermGrammar(): (g: Scanner.Grammar)
    ensures Scanner.ValidGrammar(g) && g.wildcards == {'*', 'x'} && g.tokens == TermTokens && !g.date
    ensures forall m :: 0 <= m < 3 ==> g.separators[m] == {'.'}
  {
    Scanner.Grammar([{'.'}, {'.'}, {'.'}], {'*', 'x'}, {'-', '.'}, TermTokens, false)
  }

  /** Where the operator group `([<|>|!|=|~]*)` ends: its longest run, of any length. */
  function OperatorEnd(t: string): (n: nat)
    ensures n <= |t|
  {
    ConstraintParser.Run(t, 0, ConstraintParser.OperatorChars)
  }

  /** Where the segment groups start: after the operator group and the spaces that follow it.
      As in Constraint::parse, a shorter run would leave a character no later part accepts. */
  function TermStart(t: string): (n: nat)
    ensures OperatorEnd(t) <= n <= |t|
  {
    OperatorEnd(t) + ConstraintParser.Run(t, OperatorEnd(t), {' '})
  }

  /** The term pattern: the operator text and the captures. */
  function MatchTerm(t: string): (r: Option<ConstraintParser.Term>)
  {
    var m := Scanner.MatchFrom(t, TermStart(t), TermGrammar());
    if m.Some? then Some(ConstraintParser.Term(t[..OperatorEnd(t)], m.value)) else None
  }

  lemma MatchTermCaptures(t: string)
    ensures MatchTerm(t).Some? ==> Scanner.Captured(MatchTerm(t).value.captures, TermGrammar())
  {
    Scanner.MatchFromSegments(t, TermStart(t), TermGrammar());
  }

  /** The text the suffix appends to the version: `-patch` or `-beta` and the digits, only the
      digits for `stable`. The RC test reads the last segment capture instead of the token, as
      in Constraint::parse, so a written `rc` fails like an unknown token. */
  function SuffixOf(t: string, c: Scanner.Captures): (r: Result<string>)
    requires |c.segments| == 4
  {
    if c.suffix.Label? then
      var name := ConstraintParser.StabilityName(c.segments[3], c.suffix.token);
      if name.None? then Err(InvalidFormat(t))
      else Ok((if name.value == "stable" then "" else "-" + name.value) + c.suffix.number)
    else Ok("")
  }

  /** PHP's loose `!=` on two segments: numerals compare by value, other text as written. */
  predicate LooselyDifferent(a: string, b: string)
    ensures LooselyDifferent(a, b) ==> a != b
    ensures IsNumeral(a) && IsNumeral(b) && Value(a) == Value(b) ==> !LooselyDifferent(a, b)
  {
    if IsNumeral(a) && IsNumeral(b) then Value(a) != Value(b) else a != b
  }

  /** The bounds differ in some slot. */
  predicate Differ(lower: seq<string>, upper: seq<string>)
    requires |lower| == 4 && |upper| == 4
  {
    exists k :: 0 <= k < 4 && LooselyDifferent(lower[k], upper[k])
  }

  /** Equal bounds give the single constraint with the operator written. Different ones give
      `< upper` alone when the lower version is the text 0.0.0.0, and otherwise the range
      `>= lower, < upper`, with `-stable` appended to the lower version when `stable` was
      written. */
  function Outcome(operator: string, version: string, lower: seq<string>, upper: seq<string>, stable: bool): (r: Legacy)
    requires |lower| == 4 && |upper| == 4
    ensures !Differ(lower, upper) ==> r.Single? && r.op == operator
    ensures Differ(lower, upper) ==>
      r == Single("<", Join(upper, ".")) || (r.Both? && r.and && r.first.Single? && r.first.op == ">=" && r.second == Single("<", Join(upper, ".")))
  {
    if !Differ(lower, upper) then Single(operator, version)
    else if version == "0.0.0.0" then Single("<", Join(upper, "."))
    else Both(Single(">=", version + (if stable then "-stable" else "")), Single("<", Join(upper, ".")), true)
  }

  /** A matched term: the operator, `=` when none is written; the segments written, zero-filled
      and expanded into two bounds as Constraint::parse does; the lower bound joined by dots with
      the suffix text appended. */
  function FromTerm(t: string, term: ConstraintParser.Term): (r: Result<Legacy>)
    requires Scanner.Captured(term.captures, TermGrammar())
    ensures OperatorOf(term.op) !in Operators ==> r == Err(InvalidOperator(OperatorOf(term.op), Hint(OperatorOf(term.op))))
    ensures r.Ok? ==> !r.value.Everything?
  {
    var operator := OperatorOf(term.op);
    if operator !in Operators then Err(InvalidOperator(operator, Hint(operator)))
    else
      var c := term.captures;
      var parts := Versions.Present(c.segments);
      var b := ConstraintParser.Expand(ConstraintParser.ZeroFill(parts), if operator == "~" then |parts| else 0);
      var suffix := SuffixOf(t, c);
      if suffix.Err? then Err(suffix.error)
      else Ok(Outcome(operator, Join(b.lower, ".") + suffix.value, b.lower, b.upper,
                      c.suffix.Label? && ToLower(c.suffix.token) == "stable"))
  }

  /** Both halves of a split, the first failure winning. */
  function Pair(min: Result<Legacy>, max: Result<Legacy>, and: bool): (r: Result<Legacy>)
  {
    if min.Err? then min else if max.Err? then max else Ok(Both(min.value, max.value, and))
  }

  /** parseConstraints: the trimmed text splits into an AND when it has exactly one comma, else
      into an OR when it has exactly one pipe; otherwise it is all wildcards or a single term. */
  function ParseConstraints(input: string): (r: Result<Legacy>)
    ensures Trim(input) == "" ==> r == Err(InvalidFormat(""))
    ensures r == Ok(Everything) ==> ConstraintParser.WildcardOnly(Trim(input))
    decreases |input|
  {
    var t := Trim(input);
    if |t| < 1 then Err(InvalidFormat(t))
    else
      var commas := Split(t, ',');
      if |commas| == 2 then
        SplitPieces(t, ',');
        Pair(ParseConstraints(commas[0]), ParseConstraints(commas[1]), true)
      else
        var pipes := Split(t, '|');
        if |pipes| == 2 then
          SplitPieces(t, '|');
          Pair(ParseConstraints(pipes[0]), ParseConstraints(pipes[1]), false)
        else if ConstraintParser.WildcardOnly(t) then Ok(Everything)
        else
          var m := MatchTerm(t);
          if m.None? then Err(InvalidFormat(t))
          else
            MatchTermCaptures(t);
            FromTerm(t, m.value)
  }

  /** parseConstraints as the source runs it. */
  method ParseConstraintsSteps(input: string) returns (r: Result<Legacy>)
    ensures r == ParseConstraints(input)
    decreases |input|
  {
    var t := Trim(input);
    if |t| < 1 {
      return Err(InvalidFormat(t));
    }
    var pieces := Split(t, ',');
    var and := true;
    if |pieces| != 2 {
      pieces := Split(t, '|');
      and := false;
    }
    if |pieces| == 2 {
      SplitPieces(t, if and then ',' else '|');
      var min := ParseConstraintsSteps(pieces[0]);
      if min.Err? {
        return min;
      }
      var max := ParseConstraintsSteps(pieces[1]);
      if max.Err? {
        return max;
      }
      return Ok(Both(min.value, max.value, and));
    }
    if ConstraintParser.WildcardOnly(t) {
      return Ok(Everything);
    }
    var m := MatchTerm(t);
    if m.None? {
      return Err(InvalidFormat(t));
    }
    MatchTermCaptures(t);
    r := TermSteps(t, m.value);
  }

  /** A matched term as the source runs it: the operator, the segments appended, zeros
      appended, the bounds expanded, the version text built, then the scan over the slots. */
  method TermSteps(t: string, term: ConstraintParser.Term) returns (r: Result<Legacy>)
    requires Scanner.Captured(term.captures, TermGrammar())
    ensures r == FromTerm(t, term)
  {
    var operator := "=";
    if term.op != "" {
      operator := term.op;
      if operator == "==" {
        operator := "=";
      }
    }
    if operator !in Operators {
      return Err(InvalidOperator(operator, Hint(operator)));
    }
    var c := term.captures;
    var parts := ConstraintParser.CollectParts(c.segments);
    var end := if operator == "~" then |parts| else 0;
    var lower, upper := ConstraintParser.ExpandSteps(parts, end);
    var version := Join(lower, ".");
    if c.suffix.Label? {
      var name := ConstraintParser.StabilityName(c.segments[3], c.suffix.token);
      if name.None? {
        return Err(InvalidFormat(t));
      }
      var stability := if name.value == "stable" then "" else "-" + name.value;
      version := version + (stability + c.suffix.number);
    } else {
      assert version == version + "";
    }
    var stable := c.suffix.Label? && ToLower(c.suffix.token) == "stable";
    var legacy := ScanSteps(operator, version, lower, upper, stable);
    return Ok(legacy);
  }

  /** The scan over the slots: at the first slot where the bounds differ loosely, the upper
      bound alone or the range is returned; when none differs, the single constraint. */
  method ScanSteps(operator: string, version0: string, lower: seq<string>, upper: seq<string>, stable: bool)
    returns (r: Legacy)
    requires |lower| == 4 && |upper| == 4
    ensures r == Outcome(operator, version0, lower, upper, stable)
  {
    var version := version0;
    var k := 0;
    while k < 4
      invariant k <= 4 && forall j :: 0 <= j < k ==> !LooselyDifferent(lower[j], upper[j])
    {
      if LooselyDifferent(lower[k], upper[k]) {
        var max := Join(upper, ".");
        if version == "0.0.0.0" {
          return Single("<", max);
        }
        if stable {
          version := version + "-stable";
        } else {
          assert version == version + "";
        }
        return Both(Single(">=", version), Single("<", max), true);
      }
      k := k + 1;
    }
    return Single(operator, version);
  }

  // ---------------------------------------------------------------- laws of parseConstraints

  /** A text with exactly one comma, or else exactly one pipe, is the pair of its two pieces:
      it parses when both pieces do, the first failure is reported, and the pieces joined by
      the separator give back the trimmed text. */
  lemma SplitInTwo(input: string, sep: char, and: bool)
    requires Trim(input) != ""
    requires (sep == ',' && and && |Split(Trim(input), ',')| == 2)
          || (sep == '|' && !and && |Split(Trim(input), ',')| != 2 && |Split(Trim(input), '|')| == 2)
    ensures var pieces := Split(Trim(input), sep);
      Join(pieces, [sep]) == Trim(input) && |pieces[0]| < |Trim(input)| && |pieces[1]| < |Trim(input)|
    ensures var pieces := Split(Trim(input), sep);
      var r, min, max := ParseConstraints(input), ParseConstraints(pieces[0]), ParseConstraints(pieces[1]);
      (r.Ok? <==> min.Ok? && max.Ok?)
      && (r.Ok? ==> r.value == Both(min.value, max.value, and))
      && (r.Err? ==> r.error == if min.Err? then min.error else max.error)
  {
    JoinSplit(Trim(input), sep);
    SplitPieces(Trim(input), sep);
  }

  /** A term alone is the single constraint, or the range `>=`, `<` joined by AND. */
  lemma TermShape(t: string, term: ConstraintParser.Term)
    requires Scanner.Captured(term.captures, TermGrammar())
    ensures var r := FromTerm(t, term);
      r.Ok? ==> (r.value.Single? || (r.value.and && r.value.first.Single? && r.value.first.op == ">="
        && r.value.second.Single? && r.value.second.op == "<"))
  {
  }

  /** A text that is not split in two is read as one term, whatever number of commas or pipes
      it has: its constraint is the wildcard one, a single constraint, or the range `>=`, `<`
      joined by AND. */
  lemma UnsplitIsTerm(input: string)
    requires |Split(Trim(input), ',')| != 2 && |Split(Trim(input), '|')| != 2
    ensures var r := ParseConstraints(input);
      r.Ok? && r.value.Both? ==>
        r.value.and && r.value.first.Single? && r.value.first.op == ">="
        && r.value.second.Single? && r.value.second.op == "<"
  {
    var t := Trim(input);
    if t != "" && !ConstraintParser.WildcardOnly(t) && MatchTerm(t).Some? {
      MatchTermCaptures(t);
      TermShape(t, MatchTerm(t).value);
    }
  }

  /** An OR is only ever built from a text with exactly one pipe and not exactly one comma. */
  lemma OrNeedsOnePipe(input: string, a: Legacy, b: Legacy)
    requires ParseConstraints(input) == Ok(Both(a, b, false))
    ensures |Split(Trim(input), ',')| != 2 && |Split(Trim(input), '|')| == 2
  {
    if |Split(Trim(input), ',')| != 2 && |Split(Trim(input), '|')| != 2 {
      UnsplitIsTerm(input);
    }
  }

  /** Bounds that differ give `< upper` alone when the lower version is 0.0.0.0, and otherwise
      the range `>= lower, < upper`. */
  lemma DifferentBounds(operator: string, version: string, lower: seq<string>, upper: seq<string>)
    requires |lower| == 4 && |upper| == 4 && Differ(lower, upper)
    ensures Outcome(operator, version, lower, upper, false)
      == if version == "0.0.0.0" then Single("<", Join(upper, "."))
         else Both(Single(">=", version), Single("<", Join(upper, ".")), true)
  {
    assert version + "" == version;
  }

  /** A term with no suffix and a known operator: the outcome of the bounds its segments expand
      to, with the lower bound as the version. */
  lemma TermBounds(t: string, term: ConstraintParser.Term, lower: seq<string>, upper: seq<string>)
    requires Scanner.Captured(term.captures, TermGrammar()) && term.captures.suffix == Scanner.NoSuffix
    requires OperatorOf(term.op) in Operators
    requires var parts := Versions.Present(term.captures.segments);
      ConstraintParser.Expand(ConstraintParser.ZeroFill(parts), if OperatorOf(term.op) == "~" then |parts| else 0)
        == ConstraintParser.Bounds(lower, upper)
    ensures |lower| == 4 && |upper| == 4
    ensures FromTerm(t, term) == Ok(Outcome(OperatorOf(term.op), Join(lower, "."), lower, upper, false))
  {
    assert Join(lower, ".") + "" == Join(lower, ".");
  }

  /** Written numerals with an operator other than `~` and no suffix: the single constraint,
      with the numerals zero-filled and joined by dots. */
  lemma ExactTerm(t: string, term: ConstraintParser.Term, parts: seq<Numeral>)
    requires Scanner.Captured(term.captures, TermGrammar()) && term.captures.suffix == Scanner.NoSuffix
    requires Versions.Present(term.captures.segments) == parts
    requires OperatorOf(term.op) in Operators && OperatorOf(term.op) != "~"
    ensures FromTerm(t, term) == Ok(Single(OperatorOf(term.op), Join(ConstraintParser.ZeroFill(parts), ".")))
  {
    var filled := ConstraintParser.ZeroFill(parts);
    ConstraintLaws.ExpandNumerals(filled, 0);
    TermBounds(t, term, filled, filled);
  }

  /** `~` before written numerals, no suffix: the range from the numerals zero-filled up to the
      tilde's upper bound, or only `<` that bound when the numerals are all zero. */
  lemma TildeTerm(t: string, term: ConstraintParser.Term, parts: seq<Numeral>)
    requires Scanner.Captured(term.captures, TermGrammar()) && term.captures.suffix == Scanner.NoSuffix
    requires Versions.Present(term.captures.segments) == parts && 1 <= |parts|
    requires OperatorOf(term.op) == "~"
    ensures var filled := ConstraintParser.ZeroFill(parts);
      var lower, upper := Join(filled, "."), Join(ConstraintParser.TildeUpper(filled, |parts|), ".");
      FromTerm(t, term) == Ok(if lower == "0.0.0.0" then Single("<", upper) else Both(Single(">=", lower), Single("<", upper), true))
  {
    var filled := ConstraintParser.ZeroFill(parts);
    ConstraintLaws.TildeBounds(parts);
    ConstraintLaws.ExpandNumerals(filled, |parts|);
    var b := ConstraintParser.Expand(filled, |parts|);
    TermBounds(t, term, b.lower, b.upper);
    var k := if |parts| <= 2 then 0 else |parts| - 2;
    assert LooselyDifferent(b.lower[k], b.upper[k]);
    DifferentBounds("~", Join(filled, "."), b.lower, b.upper);
  }

  /** Written numerals followed by a wildcard, an operator other than `~` and no suffix: the
      range from the numerals zero-filled up to the last numeral counted up, or only `<` that
      bound when the numerals are all zero. */
  lemma WildcardTerm(t: string, term: ConstraintParser.Term, p: seq<Numeral>, w: string)
    requires Scanner.Captured(term.captures, TermGrammar()) && term.captures.suffix == Scanner.NoSuffix
    requires Versions.Present(term.captures.segments) == p + [w] && 1 <= |p| <= 3 && ConstraintParser.IsWildcard(w)
    requires OperatorOf(term.op) in Operators && OperatorOf(term.op) != "~"
    ensures var lower := Join(ConstraintParser.ZeroFill(p), ".");
      var upper := Join(ConstraintParser.ZeroFill(p[|p| - 1 := ConstraintParser.Bump(p[|p| - 1])]), ".");
      FromTerm(t, term) == Ok(if lower == "0.0.0.0" then Single("<", upper) else Both(Single(">=", lower), Single("<", upper), true))
  {
    ConstraintLaws.WildcardBounds(p, w);
    ConstraintLaws.WildcardRange(t, Ops.Eq, p, w, Stabilities.Default(), false);
    var b := ConstraintParser.Expand(ConstraintParser.ZeroFill(p + [w]), 0);
    TermBounds(t, term, b.lower, b.upper);
    assert LooselyDifferent(b.lower[|p| - 1], b.upper[|p| - 1]);
    DifferentBounds(OperatorOf(term.op), Join(b.lower, "."), b.lower, b.upper);
  }

  // ---------------------------------------------------------------- parseStability

  /** The alternation of STABILITY_REGEX, in its order: `[Rr][Cc]`, then case-sensitive words. */
  const StabilityTokens: seq<Scanner.Token> := [
    Scanner.Token("rc", true), Scanner.Token("pl", false), Scanner.Token("a", false),
    Scanner.Token("alpha", false), Scanner.Token("beta", false), Scanner.Token("b", false),
    Scanner.Token("B", false), Scanner.Token("patch", false), Scanner.Token("p", false)]

  /** The first token of the alternation written at i. What follows a token, `\.?\d*`, can
      match nothing, so it never makes a token fail. */
  function TokenAt(s: string, i: nat, tokens: seq<Scanner.Token>): (r: Option<string>)
    ensures r.Some? ==> Scanner.IsToken(r.value, tokens)
    decreases |tokens|
  {
    if tokens == [] then None
    else if Scanner.Fits(s, i, tokens[0]) then Some(s[i..i + |tokens[0].word|])
    else TokenAt(s, i, tokens[1..])
  }

  /** The pattern tried from i: the optional `-` or `.` is taken first. */
  function MatchAt(s: string, i: nat): (r: Option<string>)
    ensures r.Some? ==> Scanner.IsToken(r.value, StabilityTokens)
  {
    if i < |s| && s[i] in {'-', '.'} && TokenAt(s, i + 1, StabilityTokens).Some? then TokenAt(s, i + 1, StabilityTokens)
    else TokenAt(s, i, StabilityTokens)
  }

  /** The unanchored search of preg_match: the pattern is tried at each start from i in turn. */
  function Search(s: string, i: nat): (r: Option<string>)
    requires i <= |s|
    ensures r.Some? ==> Scanner.IsToken(r.value, StabilityTokens)
    decreases |s| - i
  {
    if MatchAt(s, i).Some? then MatchAt(s, i) else if i < |s| then Search(s, i + 1) else None
  }

  /** The channel a token names: `pl` and `patch` count as stable, `b` and `B` as beta, `a` as
      alpha, any spelling of `rc` as RC, and the other tokens are returned as written. */
  function Channel(token: string): string
  {
    var t := ToLower(token);
    if t in {"pl", "patch"} then "stable"
    else if t == "b" then "beta"
    else if t == "a" then "alpha"
    else if t == "rc" then "RC"
    else token
  }

  /** parseStability: the channel of the token found; no token at all means stable. */
  function ParseStability(input: string): (channel: string)
    ensures channel in {"stable", "beta", "alpha", "RC", "p"}
  {
    var m := Search(input, 0);
    if m.None? then "stable" else (ChannelOf(m.value); Channel(m.value))
  }

  /** The reference reading of the search: the first position where any token is written, and
      the first token of the alternation written there. */
  function FirstToken(s: string, i: nat): Option<string>
    requires i <= |s|
    decreases |s| - i
  {
    if TokenAt(s, i, StabilityTokens).Some? then TokenAt(s, i, StabilityTokens)
    else if i < |s| then FirstToken(s, i + 1)
    else None
  }

  /** The search finds the leftmost token: taking the separator first never moves the match. */
  lemma {:induction false} SearchIsFirstToken(s: string, i: nat)
    requires i <= |s|
    ensures Search(s, i) == FirstToken(s, i)
    decreases |s| - i
  {
    if i < |s| {
      if s[i] in {'-', '.'} {
        NoTokenAtSeparator(s, i, StabilityTokens);
      }
      SearchIsFirstToken(s, i + 1);
    }
  }

  /** No token starts with `-` or `.`. */
  lemma {:induction false} NoTokenAtSeparator(s: string, i: nat, tokens: seq<Scanner.Token>)
    requires i < |s| && s[i] in {'-', '.'}
    requires forall k :: 0 <= k < |tokens| ==> |tokens[k].word| > 0 && tokens[k].word[0] !in {'-', '.'}
    ensures TokenAt(s, i, tokens) == None
    decreases |tokens|
  {
    if tokens != [] {
      var w := tokens[0].word;
      assert !Scanner.Fits(s, i, tokens[0]) by {
        if i + |w| <= |s| {
          var t := s[i..i + |w|];
          assert t[0] == s[i] && Lower(s[i]) == s[i];
          assert ToLower(t)[0] == s[i];
        }
      }
      NoTokenAtSeparator(s, i, tokens[1..]);
    }
  }

  /** The search finds nothing exactly when no token is written anywhere from i on. */
  lemma {:induction false} FirstTokenNone(s: string, i: nat)
    requires i <= |s|
    ensures FirstToken(s, i).None? <==> forall p :: i <= p <= |s| ==> TokenAt(s, p, StabilityTokens).None?
    decreases |s| - i
  {
    if i < |s| {
      FirstTokenNone(s, i + 1);
      NoTokenStep(s, i);
      assert FirstToken(s, i).None? <==> TokenAt(s, i, StabilityTokens).None? && FirstToken(s, i + 1).None?;
    }
  }

  /** No token from i on: none at i and none from i + 1 on. */
  lemma NoTokenStep(s: string, i: nat)
    requires i < |s|
    ensures (forall p :: i <= p <= |s| ==> TokenAt(s, p, StabilityTokens).None?) <==>
      TokenAt(s, i, StabilityTokens).None? && forall p :: i + 1 <= p <= |s| ==> TokenAt(s, p, StabilityTokens).None?
  {
    if TokenAt(s, i, StabilityTokens).None? && forall p :: i + 1 <= p <= |s| ==> TokenAt(s, p, StabilityTokens).None? {
      forall p | i <= p <= |s|
        ensures TokenAt(s, p, StabilityTokens).None?
      {
        if p > i {
          assert i + 1 <= p <= |s|;
        }
      }
    }
  }

  /** The channels a token can name: `alpha` written is read as `a` first, so only `beta` and
      `p` come back as written; stable comes only from `pl` and `patch`. */
  lemma ChannelOf(t: string)
    requires Scanner.IsToken(t, StabilityTokens)
    ensures Channel(t) in {"beta", "alpha", "RC", "p", "stable"}
    ensures Channel(t) == "stable" <==> t in {"pl", "patch"}
  {
    if Scanner.Spells(t, StabilityTokens[0]) {
      RcChannel(t);
    } else {
      WordsOf(t);
      WordChannel(t);
    }
  }

  /** A token other than `rc` is one of the case-sensitive words. */
  lemma WordsOf(t: string)
    requires Scanner.IsToken(t, StabilityTokens[1..])
    ensures t in {"pl", "a", "alpha", "beta", "b", "B", "patch", "p"}
  {
    var words := StabilityTokens[1..];
    TokenWords(t, words);
    var k :| 0 <= k < |words| && t == words[k].word;
    assert words[k].word in {"pl", "a", "alpha", "beta", "b", "B", "patch", "p"};
  }

  /** The channels of the case-sensitive words. */
  lemma WordChannel(t: string)
    requires t in {"pl", "a", "alpha", "beta", "b", "B", "patch", "p"}
    ensures Channel(t) in {"beta", "alpha", "p", "stable"}
    ensures Channel(t) == "stable" <==> t in {"pl", "patch"}
  {
    if t == "B" {
      assert ToLower(t) == "b";
    } else {
      LowerFixed(t);
    }
  }

  /** Any spelling of `rc` is RC. */
  lemma RcChannel(t: string)
    requires ToLower(t) == "rc"
    ensures Channel(t) == "RC" && t !in {"pl", "patch"}
  {
    assert |t| == |ToLower(t)| == 2;
    assert ToLower(t)[0] == Lower(t[0]) == 'r';
    assert t[0] in {'r', 'R'};
  }

  /** parseStability returns one of five channels, and stable exactly when no token is written
      or the first one is `pl` or `patch`. */
  lemma StabilityChannels(input: string)
    ensures ParseStability(input) in {"stable", "beta", "alpha", "RC", "p"}
    ensures ParseStability(input) == "stable" <==>
      FirstToken(input, 0).None? || FirstToken(input, 0).value in {"pl", "patch"}
  {
    SearchIsFirstToken(input, 0);
    var m := Search(input, 0);
    if m.Some? {
      ChannelOf(m.value);
    }
  }

  /** A text in which no token is written anywhere is stable. */
  lemma NoTokenIsStable(input: string)
    requires forall p :: 0 <= p <= |input| ==> TokenAt(input, p, StabilityTokens).None?
    ensures ParseStability(input) == "stable"
  {
    SearchIsFirstToken(input, 0);
    FirstTokenNone(input, 0);
  }
}
