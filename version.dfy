/** Versions (src/Version/Version.php): the parser for `v?N[.-]N[.-]N.N` plus a stability
    suffix, the dotted and dash-joined renderings, and the lexicographic compare. */
module Versions {
  import opened Text
  import opened Wrappers
  import opened Stabilities
  import Scanner
  import Order

  /** Segments keep the digits they were written with: the renderings print them as written. */
  datatype Version = Version(
    major: Numeral,
    minor: Numeral,
    revision: Numeral,
    micro: Option<Numeral>,
    stability: KnownStability,
    regular: bool)

  /** new Version($major): minor and revision 0, no micro, default stability, regular. */
  function New(major: Numeral): (v: Version)
    ensures v.major == major && v.regular && v.micro == None && v.stability == Default()
    ensures Value(v.minor) == 0 && Value(v.revision) == 0
  {
    Version(major, "0", "0", None, Default(), true)
  }

  /** The stability alternation of the pattern, in the order it is tried; no /i modifier. */
  const Tokens: seq<Scanner.Token> := [
    Scanner.Token("rc", false), Scanner.Token("pl", false), Scanner.Token("a", false),
    Scanner.Token("alpha", false), Scanner.Token("beta", false), Scanner.Token("b", false),
    Scanner.Token("patch", false), Scanner.Token("stable", false), Scanner.Token("p", false),
    Scanner.Token("dev", false), Scanner.Token("d", false)]

  const Separators: set<char> := {'-', '|', '.'}

  /** The pattern of Version::parse, with Stability::REGEX as its suffix. */
  function Grammar(): (g: Scanner.Grammar)
    ensures Scanner.ValidGrammar(g) && g.wildcards == {} && g.date && g.tokens == Tokens
    ensures g.separators == [Separators, Separators, {'.'}] && g.suffixSeparators == {'-', '_', '.'}
  {
    Scanner.Grammar([Separators, Separators, {'.'}], {}, {'-', '_', '.'}, Tokens, true)
  }

  /** The captures that took part, in order. */
  function Present(segments: seq<string>): (numbers: seq<string>)
    ensures |numbers| <= |segments|
  {
    if segments == [] then []
    else if segments[0] == "" then Present(segments[1..])
    else [segments[0]] + Present(segments[1..])
  }

  /** The numbers kept are the non-empty captures, nothing else. */
  lemma {:induction false} PresentKeeps(segments: seq<string>)
    ensures forall x :: x in Present(segments) <==> x in segments && x != ""
    decreases |segments|
  {
    if segments != [] {
      PresentKeeps(segments[1..]);
      assert segments == [segments[0]] + segments[1..];
    }
  }

  /** Date-like first segments (YYYYMMDD[HHMMSS], YYMMDD, YYYY.MM) make a version irregular. */
  predicate DateLike(numbers: seq<string>)
    requires |numbers| > 0
  {
    |numbers[0]| == 14 || |numbers[0]| == 8 || |numbers[0]| == 6
    || (|numbers[0]| == 4 && |numbers| > 1 && |numbers[1]| == 2)
  }

  /** The sub-revision digits; none written means no number. */
  function NumberOf(digits: string): Option<Numeral>
    requires AllDigits(digits)
  {
    if digits == "" then None else Some(digits)
  }

  /** Every token of the pattern is one the Stability constructor recognises. */
  lemma TokensKnown(t: string, number: Option<Numeral>)
    requires Scanner.IsToken(t, Tokens)
    ensures Known(Make(t, number))
  {
    forall k | 0 <= k < |Tokens|
      ensures KnownWord(Tokens[k])
    {
      WordKnown(k);
    }
    KnownTokens(t, Tokens, number);
  }

  /** A case-sensitive token the constructor recognises as it is written. */
  predicate KnownWord(token: Scanner.Token)
  {
    !token.anyCase && token.word != "" && NoUpper(token.word) && !Canonicalise(token.word).Other?
  }

  lemma {:induction false} KnownTokens(t: string, tokens: seq<Scanner.Token>, number: Option<Numeral>)
    requires forall k :: 0 <= k < |tokens| ==> KnownWord(tokens[k])
    requires Scanner.IsToken(t, tokens)
    ensures Known(Make(t, number))
    decreases |tokens|
  {
    if Scanner.Spells(t, tokens[0]) {
      LowerFixed(t);
    } else {
      KnownTokens(t, tokens[1..], number);
    }
  }

  lemma WordKnown(k: nat)
    requires k < |Tokens|
    ensures KnownWord(Tokens[k])
  {
    var w := Tokens[k].word;
    if k == 0 { assert w == "rc"; }
    else if k == 1 { assert w == "pl"; }
    else if k == 2 { assert w == "a"; }
    else if k == 3 { assert w == "alpha"; }
    else if k == 4 { assert w == "beta"; }
    else if k == 5 { assert w == "b"; }
    else if k == 6 { assert w == "patch"; }
    else if k == 7 { assert w == "stable"; }
    else if k == 8 { assert w == "p"; }
    else if k == 9 { assert w == "dev"; }
    else { assert w == "d"; }
  }

  /** The stability a parsed suffix sets: new Stability(token, digits) for a token, else the default. */
  function SuffixStability(x: Scanner.Suffix): (s: KnownStability)
    requires Scanner.WellFormed(x, Tokens)
  {
    if x.Label? then (TokensKnown(x.token, NumberOf(x.number)); Make(x.token, NumberOf(x.number)))
    else Default()
  }

  /** Version::parse: the empty text and text the pattern rejects fail with the input. */
  function Parse(input: string): (r: Result<Version>)
    ensures input == "" ==> r.Err?
    ensures r.Err? ==> r.error == InvalidFormat(input)
  {
    if |input| < 1 then Err(InvalidFormat(input))
    else
      var m := Scanner.MatchWithV(input, Grammar());
      if m.None? then Err(InvalidFormat(input))
      else
        Scanner.MatchSegments(input, Grammar());
        FromCaptures(input, m.value)
  }

  /** The version built from the captures: the segments that took part, in order. */
  function FromCaptures(input: string, c: Scanner.Captures): (r: Result<Version>)
    requires |c.segments| == 4 && forall j :: 0 <= j < 4 ==> Scanner.Segment(c.segments[j], Grammar())
    requires Scanner.WellFormed(c.suffix, Tokens)
    ensures r.Err? <==> forall j :: 0 <= j < 4 ==> c.segments[j] == ""
    ensures r.Err? ==> r.error == InvalidFormat(input)
    ensures r.Ok? ==> r.value.stability == SuffixStability(c.suffix) && r.value.major in c.segments
  {
    forall j | 0 <= j < 4
      ensures c.segments[j] == "" || IsNumeral(c.segments[j])
    {
      assert Scanner.Segment(c.segments[j], Grammar()) && Grammar().wildcards == {};
    }
    PresentKeeps(c.segments);
    var numbers := Present(c.segments);
    assert forall x :: x in numbers ==> IsNumeral(x);
    assert numbers == [] <==> forall j :: 0 <= j < 4 ==> c.segments[j] == "" by {
      if numbers == [] {
        forall j | 0 <= j < 4 ensures c.segments[j] == "" {
          assert c.segments[j] in c.segments;
        }
      } else {
        assert numbers[0] in numbers;
      }
    }
    assert numbers != [] ==> numbers[0] in numbers;
    if numbers == [] then Err(InvalidFormat(input)) else Ok(FromNumbers(numbers, SuffixStability(c.suffix)))
  }

  /** The version of one to four segment numbers: the missing minor and revision read as 0, a
      missing micro as none, and a date-like first segment makes it irregular. */
  function FromNumbers(numbers: seq<Numeral>, stability: KnownStability): (v: Version)
    requires 1 <= |numbers| <= 4
  {
    Version(
      numbers[0],
      if |numbers| > 1 then numbers[1] else "0",
      if |numbers| > 2 then numbers[2] else "0",
      if |numbers| > 3 then Some(numbers[3]) else None,
      stability,
      !DateLike(numbers))
  }

  /** PHP truthiness of a segment: only "0" is false. */
  predicate Truthy(s: string) { s != "0" }

  /** The segments part of __toString: dotted for a regular version, with the micro printed as
      an integer; dash-joined for an irregular one, leaving out each later segment that is 0. */
  function SegmentsText(v: Version): string
  {
    if v.regular then
      v.major + "." + v.minor + "." + v.revision
      + (if v.micro.Some? then "." + NatToText(Value(v.micro.value)) else "")
    else
      v.major + DashedSegment(v.minor) + DashedSegment(v.revision)
      + (if v.micro.Some? then DashedSegment(v.micro.value) else "")
  }

  /** __toString: the segments, then a dash and the stability unless it is stable. */
  function Render(v: Version): (r: string)
    ensures r == SegmentsText(v) <==> IsStable(v.stability)
  {
    var numbers := SegmentsText(v);
    var r := numbers + (if IsStable(v.stability) then "" else "-" + Stabilities.Render(v.stability));
    assert !IsStable(v.stability) ==> |r| > |numbers|;
    r
  }

  /** getVersionStability: the channel, with patch counted as stable. The channel is never
      `patch`, it is `stable` exactly for a stable or patch version, and read back as a stability
      it gives the version's own level with patch folded into stable. */
  function GetVersionStability(v: Version): (channel: string)
    ensures channel != "patch"
    ensures channel == "stable" <==> v.stability.level == Stable || v.stability.level == Patch
    ensures Normalise(channel) == if v.stability.level == Patch then Stable else v.stability.level
  {
    var channel := LevelText(v.stability.level);
    var r := if channel == "patch" then "stable" else channel;
    assert Normalise(r) == if v.stability.level == Patch then Stable else v.stability.level by {
      KnownLevelIsNormal(v.stability.level);
      KnownLevelIsNormal(Stable);
    }
    r
  }

  function MicroValue(v: Version): nat
  {
    if v.micro.Some? then Value(v.micro.value) else 0
  }

  /** The ordering key: the four segment values, then the stability key. Regularity is not in it. */
  function Key(v: Version): (k: seq<nat>)
    ensures |k| == 6
  {
    [Value(v.major)] + ([Value(v.minor)] + ([Value(v.revision)] + ([MicroValue(v)] + Stabilities.Key(v.stability))))
  }

  /** compare: major, minor, revision, micro, then Stability::compare. */
  function Compare(a: Version, b: Version): (r: int)
    ensures r == Order.Lex(Key(a), Key(b))
  {
    var sa, sb := Stabilities.Key(a.stability), Stabilities.Key(b.stability);
    Order.LexCons(MicroValue(a), sa, MicroValue(b), sb);
    Order.LexCons(Value(a.revision), [MicroValue(a)] + sa, Value(b.revision), [MicroValue(b)] + sb);
    Order.LexCons(Value(a.minor), [Value(a.revision)] + ([MicroValue(a)] + sa),
                  Value(b.minor), [Value(b.revision)] + ([MicroValue(b)] + sb));
    Order.LexCons(Value(a.major), [Value(a.minor)] + ([Value(a.revision)] + ([MicroValue(a)] + sa)),
                  Value(b.major), [Value(b.minor)] + ([Value(b.revision)] + ([MicroValue(b)] + sb)));
    if Value(a.major) < Value(b.major) then -1
    else if Value(a.major) > Value(b.major) then 1
    else if Value(a.minor) < Value(b.minor) then -1
    else if Value(a.minor) > Value(b.minor) then 1
    else if Value(a.revision) < Value(b.revision) then -1
    else if Value(a.revision) > Value(b.revision) then 1
    else if MicroValue(a) < MicroValue(b) then -1
    else if MicroValue(a) > MicroValue(b) then 1
    else Stabilities.Compare(a.stability, b.stability).value
  }

  lemma {:induction false} PresentPadded(p: string, n: nat)
    requires p != ""
    ensures Present(Scanner.Padded(p, n)) == [p]
    decreases n
  {
    if n == 0 {
      PresentCons(p, []);
    } else {
      PresentCons("", Scanner.Padded(p, n - 1));
      PresentPadded(p, n - 1);
    }
  }

  lemma PresentCons(x: string, rest: seq<string>)
    ensures Present([x] + rest) == if x == "" then Present(rest) else [x] + Present(rest)
  {
    assert ([x] + rest)[1..] == rest;
  }

  /** The numbers read back from dotted captures are the numerals written. */
  lemma {:induction false} PresentFill(parts: seq<Numeral>, k: nat)
    requires 1 <= |parts| && k + |parts| <= 4
    ensures Present(Scanner.Fill(parts, k)) == parts
    decreases |parts|
  {
    if |parts| == 1 {
      PresentPadded(parts[0], 3 - k);
    } else {
      var rest := Scanner.Fill(parts[1..], k + 1);
      assert Scanner.Fill(parts, k) == [parts[0]] + rest;
      PresentCons(parts[0], rest);
      PresentFill(parts[1..], k + 1);
      assert parts == [parts[0]] + parts[1..];
    }
  }

  /** One to four numerals joined by dots, with an optional leading `v`, followed by any text
      that the suffix part of the pattern matches on its own: the numerals become the segments in
      order, the missing ones read as 0 and no micro, and the date-like test decides regularity.
      A suffix may start with a separator the group of the last numeral accepts ('1.0-beta'). */
  lemma ParseDotted(v: bool, parts: seq<Numeral>, rest: string, x: Scanner.Suffix)
    requires 1 <= |parts| <= 4
    requires rest == "" || !IsDigit(rest[0])
    requires Scanner.Tail(rest, 0, Grammar()) == Some(x)
    ensures Scanner.WellFormed(x, Tokens)
    ensures Parse((if v then "v" else "") + Join(parts, ".") + rest) == Ok(FromNumbers(parts, SuffixStability(x)))
  {
    Scanner.TailWellFormed(rest, 0, Grammar());
    if rest != "" && |parts| <= 3 && rest[0] in Grammar().separators[|parts| - 1] {
      ParseSeparated(v, parts, rest, x);
    } else {
      if rest != "" {
        SeparatorsShrink(rest[0], |parts|);
      }
      MatchDottedText(v, parts, rest, x);
      ParseOfMatchText(v, parts, rest, x);
    }
  }

  /** A suffix that starts with a separator the group of the last numeral accepts: that group
      takes the numeral with the separator, the later groups take no part, and the version is
      the one the numerals and the suffix after the separator describe. */
  lemma ParseSeparated(v: bool, parts: seq<Numeral>, rest: string, x: Scanner.Suffix)
    requires 1 <= |parts| <= 3
    requires rest != "" && rest[0] in Grammar().separators[|parts| - 1]
    requires Scanner.Tail(rest, 0, Grammar()) == Some(x)
    ensures Scanner.WellFormed(x, Tokens)
    ensures Parse((if v then "v" else "") + Join(parts, ".") + rest) == Ok(FromNumbers(parts, SuffixStability(x)))
  {
    Scanner.TailWellFormed(rest, 0, Grammar());
    var input := (if v then "v" else "") + Join(parts, ".") + rest;
    MatchSeparatedText(v, parts, rest, x);
    PresentTrailing(parts, 3 - |parts|);
    assert |input| >= |rest| > 0;
    ParseOfCaptures(input, parts + Scanner.Padded("", 3 - |parts|), parts, x);
  }

  lemma MatchSeparatedText(v: bool, parts: seq<Numeral>, rest: string, x: Scanner.Suffix)
    requires 1 <= |parts| <= 3
    requires rest != "" && rest[0] in Grammar().separators[|parts| - 1]
    requires Scanner.Tail(rest, 0, Grammar()) == Some(x)
    ensures Scanner.MatchWithV((if v then "v" else "") + Join(parts, ".") + rest, Grammar())
      == Some(Scanner.Captures(parts + Scanner.Padded("", 3 - |parts|), x))
  {
    var front := (if v then "v" else "") + Join(parts, ".");
    TextIsDotted(front, v, parts, rest);
    GrammarDates();
    GrammarDotted();
    assert rest[0] in Separators && Scanner.Mark(rest[0]) && rest[0] != '\n';
    Scanner.MatchSeparated(front, rest, if v then 1 else 0, parts, x, Grammar());
  }

  /** Each segment group accepts fewer separators than the one before it. */
  lemma SeparatorsShrink(c: char, n: nat)
    requires 1 <= n <= 4 && (n == 4 || c !in Grammar().separators[n - 1])
    ensures forall m :: n - 1 <= m < 3 ==> c !in Grammar().separators[m]
  {
  }

  lemma TokensLettered()
    ensures Scanner.Lettered(Tokens)
  {
  }

  /** The pattern meets what the scanner's date reasoning needs. */
  lemma GrammarDates()
    ensures Scanner.DateGrammar(Grammar())
  {
    TokensLettered();
  }

  /** Numerals followed by groups that took no part read back as the numerals. */
  lemma {:induction false} PresentTrailing(parts: seq<string>, n: nat)
    requires forall m :: 0 <= m < |parts| ==> parts[m] != ""
    ensures Present(parts + Scanner.Padded("", n)) == parts
    decreases |parts|
  {
    if parts == [] {
      PresentBlank(n);
      assert parts + Scanner.Padded("", n) == Scanner.Padded("", n);
    } else {
      PresentTrailing(parts[1..], n);
      assert parts + Scanner.Padded("", n) == [parts[0]] + (parts[1..] + Scanner.Padded("", n));
      PresentCons(parts[0], parts[1..] + Scanner.Padded("", n));
      assert parts == [parts[0]] + parts[1..];
    }
  }

  lemma {:induction false} PresentBlank(n: nat)
    ensures Present(Scanner.Padded("", n)) == []
    decreases n
  {
    if n > 0 {
      PresentCons("", Scanner.Padded("", n - 1));
      PresentBlank(n - 1);
    }
  }

  /** Parse reads its result off any captures whose non-empty segments are the numerals. */
  lemma ParseOfCaptures(input: string, segments: seq<string>, parts: seq<Numeral>, x: Scanner.Suffix)
    requires 1 <= |parts| <= 4 && |input| >= 1
    requires Scanner.MatchWithV(input, Grammar()) == Some(Scanner.Captures(segments, x))
    requires Present(segments) == parts
    ensures Parse(input) == Ok(FromNumbers(parts, SuffixStability(x)))
  {
  }

  lemma TextIsDotted(front: string, v: bool, parts: seq<Numeral>, rest: string)
    requires 1 <= |parts|
    requires front == (if v then "v" else "") + Join(parts, ".")
    ensures Scanner.DottedAt(front + rest, if v then 1 else 0, |front|, parts)
    ensures ((front + rest)[0] == 'v') == v
  {
    var prefix: string := if v then "v" else "";
    var text := Join(parts, ".");
    Pieces(prefix, text, rest);
    assert front + rest == prefix + text + rest;
    assert forall m :: 0 <= m < |parts| ==> IsNumeral(parts[m]);
    Scanner.JoinIsDotted(front + rest, |prefix|, |front|, parts);
    if !v {
      assert |text| > 0 && text[0] == parts[0][0];
    }
  }

  lemma Pieces(a: string, b: string, c: string)
    ensures (a + b + c)[|a|..|a| + |b|] == b
    ensures |c| > 0 ==> (a + b + c)[|a| + |b|] == c[0]
    ensures |a| > 0 ==> (a + b + c)[0] == a[0]
    ensures |a| == 0 && |b| > 0 ==> (a + b + c)[0] == b[0]
  {
  }

  lemma ParseOfMatchText(v: bool, parts: seq<Numeral>, rest: string, x: Scanner.Suffix)
    requires 1 <= |parts| <= 4
    requires Scanner.MatchWithV((if v then "v" else "") + Join(parts, ".") + rest, Grammar())
      == Some(Scanner.Captures(Scanner.Fill(parts, 0), x))
    ensures Scanner.WellFormed(x, Tokens)
    ensures Parse((if v then "v" else "") + Join(parts, ".") + rest) == Ok(FromNumbers(parts, SuffixStability(x)))
  {
    var input := (if v then "v" else "") + Join(parts, ".") + rest;
    assert |input| >= |Join(parts, ".")| >= |parts[0]| > 0;
    ParseOfMatch(input, parts, x);
  }

  /** Parse reads its result off the captures. */
  lemma ParseOfMatch(input: string, parts: seq<Numeral>, x: Scanner.Suffix)
    requires 1 <= |parts| <= 4 && |input| >= 1
    requires Scanner.MatchWithV(input, Grammar()) == Some(Scanner.Captures(Scanner.Fill(parts, 0), x))
    ensures Scanner.WellFormed(x, Tokens)
    ensures Parse(input) == Ok(FromNumbers(parts, SuffixStability(x)))
  {
    PresentFill(parts, 0);
  }

  lemma MatchDottedText(v: bool, parts: seq<Numeral>, rest: string, x: Scanner.Suffix)
    requires 1 <= |parts| <= 4
    requires rest == "" || (!IsDigit(rest[0]) && forall m :: |parts| - 1 <= m < 3 ==> rest[0] !in Grammar().separators[m])
    requires Scanner.Tail(rest, 0, Grammar()) == Some(x)
    ensures Scanner.MatchWithV((if v then "v" else "") + Join(parts, ".") + rest, Grammar())
      == Some(Scanner.Captures(Scanner.Fill(parts, 0), x))
  {
    var front := (if v then "v" else "") + Join(parts, ".");
    TextIsDotted(front, v, parts, rest);
    MatchDotted(front, rest, if v then 1 else 0, parts, x);
  }

  /** The match behind ParseDotted, on positions. */
  lemma MatchDotted(front: string, rest: string, i: nat, parts: seq<Numeral>, x: Scanner.Suffix)
    requires |parts| <= 4 && Scanner.DottedAt(front + rest, i, |front|, parts)
    requires (i == 1 && (front + rest)[0] == 'v') || (i == 0 && (front + rest)[0] != 'v')
    requires rest == "" || (!IsDigit(rest[0]) && forall m :: |parts| - 1 <= m < 3 ==> rest[0] !in Grammar().separators[m])
    requires Scanner.Tail(rest, 0, Grammar()) == Some(x)
    ensures Scanner.MatchWithV(front + rest, Grammar()) == Some(Scanner.Captures(Scanner.Fill(parts, 0), x))
  {
    GrammarDotted();
    Scanner.MatchWithVDotted(front, rest, i, parts, x, Grammar());
  }

  /** Every separator group of the pattern accepts a dot. */
  lemma GrammarDotted()
    ensures forall m :: 0 <= m < 3 ==> '.' in Grammar().separators[m]
  {
  }

  /** Version::parse as the source runs it: the empty check, the pattern, then the captures. */
  method ParseSteps(input: string) returns (r: Result<Version>)
    ensures r == Parse(input)
  {
    if |input| < 1 {
      return Err(InvalidFormat(input));
    }
    var m := Scanner.MatchWithV(input, Grammar());
    if m.None? {
      return Err(InvalidFormat(input));
    }
    Scanner.MatchSegments(input, Grammar());
    r := CapturesSteps(input, m.value);
  }

  /** The captures that took part are appended one group at a time, then the fields of a fresh
      version are set in turn. */
  method CapturesSteps(input: string, c: Scanner.Captures) returns (r: Result<Version>)
    requires |c.segments| == 4 && forall j :: 0 <= j < 4 ==> Scanner.Segment(c.segments[j], Grammar())
    requires Scanner.WellFormed(c.suffix, Tokens)
    ensures r == FromCaptures(input, c)
  {
    var numbers := CollectNumbers(c.segments);
    if numbers == [] {
      return Err(InvalidFormat(input));
    }
    var version := BuildVersion(numbers, c.suffix);
    return Ok(version);
  }

  /** The segments that took part, appended in order. */
  method CollectNumbers(segments: seq<string>) returns (numbers: seq<Numeral>)
    requires |segments| == 4 && forall j :: 0 <= j < 4 ==> Scanner.Segment(segments[j], Grammar())
    ensures numbers == Present(segments)
  {
    forall j | 0 <= j < 4
      ensures segments[j] == "" || IsNumeral(segments[j])
    {
      assert Scanner.Segment(segments[j], Grammar()) && Grammar().wildcards == {};
    }
    numbers := [];
    if segments[0] != "" {
      numbers := numbers + [segments[0]];
    }
    if segments[1] != "" {
      numbers := numbers + [segments[1]];
    }
    if segments[2] != "" {
      numbers := numbers + [segments[2]];
    }
    if segments[3] != "" {
      numbers := numbers + [segments[3]];
    }
    PresentFour(segments);
  }

  /** A fresh version of the first number, then regularity, minor, revision, micro and
      stability set in turn. */
  method BuildVersion(numbers: seq<Numeral>, suffix: Scanner.Suffix) returns (version: Version)
    requires 1 <= |numbers| <= 4 && Scanner.WellFormed(suffix, Tokens)
    ensures version == FromNumbers(numbers, SuffixStability(suffix))
  {
    version := New(numbers[0]);
    if DateLike(numbers) {
      version := version.(regular := false);
    }
    if |numbers| > 1 {
      version := version.(minor := numbers[1]);
    }
    if |numbers| > 2 {
      version := version.(revision := numbers[2]);
    }
    if |numbers| > 3 {
      version := version.(micro := Some(numbers[3]));
    }
    if suffix.Label? {
      version := version.(stability := SuffixStability(suffix));
    }
  }

  /** Present on the four captures, one group at a time. */
  lemma PresentFour(segments: seq<string>)
    requires |segments| == 4
    ensures Present(segments)
      == (if segments[0] == "" then [] else [segments[0]]) + (if segments[1] == "" then [] else [segments[1]])
       + (if segments[2] == "" then [] else [segments[2]]) + (if segments[3] == "" then [] else [segments[3]])
  {
    assert segments == [segments[0]] + segments[1..];
    assert segments[1..] == [segments[1]] + segments[2..];
    assert segments[2..] == [segments[2]] + segments[3..];
    assert segments[3..] == [segments[3]] + [];
    PresentCons(segments[0], segments[1..]);
    PresentCons(segments[1], segments[2..]);
    PresentCons(segments[2], segments[3..]);
    PresentCons(segments[3], []);
  }

  /** A version needs at least one digit: text without one never parses. */
  lemma ParseNeedsDigit(input: string)
    requires Parse(input).Ok?
    ensures exists k :: 0 <= k < |input| && IsDigit(input[k])
  {
    var m := Scanner.MatchWithV(input, Grammar());
    Scanner.MatchSegments(input, Grammar());
    PresentKeeps(m.value.segments);
    var numbers := Present(m.value.segments);
    assert numbers != [] && numbers[0] in numbers;
    var j :| 0 <= j < 4 && m.value.segments[j] != "";
    Scanner.MatchNeedsSegmentChar(input, Grammar(), j);
  }

  /** Regularity as the parsed fields show it: irregular exactly when the major has 14, 8 or 6
      digits, or 4 digits followed by a two-digit minor (a minor that was not written is "0"). */
  lemma ParseRegularity(input: string)
    requires Parse(input).Ok?
    ensures var v := Parse(input).value;
      !v.regular <==> |v.major| == 14 || |v.major| == 8 || |v.major| == 6 || (|v.major| == 4 && |v.minor| == 2)
  {
    var m := Scanner.MatchWithV(input, Grammar());
    Scanner.MatchSegments(input, Grammar());
    var numbers := Present(m.value.segments);
    assert Parse(input) == FromCaptures(input, m.value);
    assert |numbers| > 0;
  }

  /** The empty text fails before the pattern is tried. */
  lemma ParseEmpty()
    ensures Parse("") == Err(InvalidFormat(""))
  {
  }

  lemma TokensNonEmpty()
    ensures Scanner.NonEmptyTokens(Tokens)
  {
    forall k | 0 <= k < |Tokens|
      ensures |Tokens[k].word| > 0
    {
      WordKnown(k);
    }
  }

  /** One to four dotted numerals with nothing after them: the missing minor and revision
      read as 0, no micro, default stability. */
  lemma ParsePlain(input: string, v: bool, parts: seq<Numeral>)
    requires 1 <= |parts| <= 4 && input == (if v then "v" else "") + Join(parts, ".")
    ensures Parse(input) == Ok(FromNumbers(parts, Default()))
  {
    TokensNonEmpty();
    Scanner.TailAtEnd("", Grammar());
    ParseDotted(v, parts, "", Scanner.NoSuffix);
    assert input + "" == input;
  }

  /** What __toString appends after the segments: nothing for a stable version, otherwise a
      dash, the stored label and the number's digits as written. */
  function StabilityTail(s: KnownStability): (t: string)
    ensures t == "" <==> s.level == Stable
  {
    if s.level == Stable then "" else "-" + LevelText(s.level) + Digits(s.number)
  }

  /** The tail the pattern's suffix leads to: the label the constructor stores for the token
      and the digits written after it, unless the token means stable. */
  function SuffixTail(x: Scanner.Suffix): string
  {
    if x.Label? && Normalise(x.token) != Stable then "-" + LevelText(Normalise(x.token)) + x.number else ""
  }

  lemma TailOfSuffix(x: Scanner.Suffix)
    requires Scanner.WellFormed(x, Tokens)
    ensures StabilityTail(SuffixStability(x)) == SuffixTail(x)
  {
  }

  /** The rendering is the segments' text followed by the stability's tail. */
  lemma RenderTail(v: Version)
    ensures Render(v) == SegmentsText(v) + StabilityTail(v.stability)
  {
    var numbers := SegmentsText(v);
    assert numbers + "" == numbers;
  }

  /** One to four dotted numerals, with an optional `v` and a suffix the pattern accepts, in the
      regular shape: the segments print dotted, with the missing minor and revision as 0 and the
      micro only when written ('1.0' renders '1.0.0'), followed by the suffix's stability unless
      it is stable ('1.0.0-rc1' renders '1.0.0-RC1', '1.0-beta' renders '1.0.0-beta'). */
  lemma RenderRegular(input: string, v: bool, parts: seq<Numeral>, rest: string, x: Scanner.Suffix)
    requires 1 <= |parts| <= 4 && input == (if v then "v" else "") + Join(parts, ".") + rest
    requires rest == "" || !IsDigit(rest[0])
    requires Scanner.Tail(rest, 0, Grammar()) == Some(x)
    requires !DateLike(parts)
    ensures Parse(input).Ok? && Parse(input).value.regular
    ensures |parts| == 1 ==> Render(Parse(input).value) == parts[0] + ".0.0" + SuffixTail(x)
    ensures |parts| == 2 ==> Render(Parse(input).value) == parts[0] + "." + parts[1] + ".0" + SuffixTail(x)
    ensures |parts| == 3 ==> Render(Parse(input).value) == Join(parts, ".") + SuffixTail(x)
    ensures |parts| == 4 ==>
      Render(Parse(input).value) == Join(parts[..3], ".") + "." + NatToText(Value(parts[3])) + SuffixTail(x)
  {
    ParseDotted(v, parts, rest, x);
    RenderRegularNumbers(parts, SuffixStability(x));
    TailOfSuffix(x);
  }

  /** The regular rendering of the version built from one to four numerals, for any stability. */
  lemma RenderRegularNumbers(parts: seq<Numeral>, s: KnownStability)
    requires 1 <= |parts| <= 4 && !DateLike(parts)
    ensures FromNumbers(parts, s).regular
    ensures |parts| == 1 ==> Render(FromNumbers(parts, s)) == parts[0] + ".0.0" + StabilityTail(s)
    ensures |parts| == 2 ==> Render(FromNumbers(parts, s)) == parts[0] + "." + parts[1] + ".0" + StabilityTail(s)
    ensures |parts| == 3 ==> Render(FromNumbers(parts, s)) == Join(parts, ".") + StabilityTail(s)
    ensures |parts| == 4 ==>
      Render(FromNumbers(parts, s)) == Join(parts[..3], ".") + "." + NatToText(Value(parts[3])) + StabilityTail(s)
  {
    RenderTail(FromNumbers(parts, s));
    RegularPlain(parts, s);
  }

  lemma RegularPlain(parts: seq<Numeral>, s: KnownStability)
    requires 1 <= |parts| <= 4 && !DateLike(parts)
    ensures |parts| == 1 ==> SegmentsText(FromNumbers(parts, s)) == parts[0] + ".0.0"
    ensures |parts| == 2 ==> SegmentsText(FromNumbers(parts, s)) == parts[0] + "." + parts[1] + ".0"
    ensures |parts| == 3 ==> SegmentsText(FromNumbers(parts, s)) == Join(parts, ".")
    ensures |parts| == 4 ==> SegmentsText(FromNumbers(parts, s)) == Join(parts[..3], ".") + "." + NatToText(Value(parts[3]))
  {
    if |parts| == 1 {
      RegularOne(parts, s);
    } else if |parts| == 2 {
      RegularTwo(parts, s);
    } else if |parts| == 3 {
      RegularThree(parts, s);
    } else {
      RegularFour(parts, s);
    }
  }

  lemma RegularOne(parts: seq<Numeral>, s: KnownStability)
    requires |parts| == 1 && !DateLike(parts)
    ensures SegmentsText(FromNumbers(parts, s)) == parts[0] + ".0.0"
  {
    var w := FromNumbers(parts, s);
    RegularHead(w);
    assert w.minor == "0" && w.revision == "0" && w.micro == None;
  }

  lemma RegularTwo(parts: seq<Numeral>, s: KnownStability)
    requires |parts| == 2 && !DateLike(parts)
    ensures SegmentsText(FromNumbers(parts, s)) == parts[0] + "." + parts[1] + ".0"
  {
    var w := FromNumbers(parts, s);
    RegularHead(w);
    assert w.minor == parts[1] && w.revision == "0" && w.micro == None;
  }

  lemma RegularThree(parts: seq<Numeral>, s: KnownStability)
    requires |parts| == 3 && !DateLike(parts)
    ensures SegmentsText(FromNumbers(parts, s)) == Join(parts, ".")
  {
    var w := FromNumbers(parts, s);
    RegularHead(w);
    RegularFront(parts, s);
    assert parts[..3] == parts && w.micro == None;
  }

  lemma RegularFour(parts: seq<Numeral>, s: KnownStability)
    requires |parts| == 4 && !DateLike(parts)
    ensures SegmentsText(FromNumbers(parts, s)) == Join(parts[..3], ".") + "." + NatToText(Value(parts[3]))
  {
    var w := FromNumbers(parts, s);
    RegularHead(w);
    RegularFront(parts, s);
    assert w.micro == Some(parts[3]);
  }

  lemma RegularHead(w: Version)
    requires w.regular
    ensures SegmentsText(w) == w.major + "." + w.minor + "." + w.revision
      + (if w.micro.Some? then "." + NatToText(Value(w.micro.value)) else "")
  {
  }

  lemma RegularFront(parts: seq<Numeral>, s: KnownStability)
    requires 3 <= |parts| <= 4
    ensures FromNumbers(parts, s).major + "." + FromNumbers(parts, s).minor + "." + FromNumbers(parts, s).revision
      == Join(parts[..3], ".")
  {
    var front := parts[..3];
    JoinThree(front, ".");
    assert front[0] == parts[0] && front[1] == parts[1] && front[2] == parts[2];
  }

  /** implode of three pieces. */
  lemma JoinThree(pieces: seq<string>, sep: string)
    requires |pieces| == 3
    ensures Join(pieces, sep) == pieces[0] + sep + pieces[1] + sep + pieces[2]
  {
    var tail := pieces[1..];
    assert tail[0] == pieces[1] && tail[1..] == [pieces[2]];
    assert Join(tail, sep) == pieces[1] + sep + pieces[2];
  }

  /** The segments other than "0", in order. */
  function NonZero(segments: seq<string>): (r: seq<string>)
    ensures |r| <= |segments|
  {
    if segments == [] then []
    else (if segments[0] == "0" then [] else [segments[0]]) + NonZero(segments[1..])
  }

  /** Each piece after a dash, concatenated. */
  function Dashes(pieces: seq<string>): string
  {
    if pieces == [] then "" else "-" + pieces[0] + Dashes(pieces[1..])
  }

  /** implode with `-` is the first piece followed by every other piece after a dash. */
  lemma {:induction false} JoinDashes(first: string, pieces: seq<string>)
    ensures Join([first] + pieces, "-") == first + Dashes(pieces)
    decreases |pieces|
  {
    if pieces != [] {
      JoinDashes(pieces[0], pieces[1..]);
      assert ([first] + pieces)[1..] == [pieces[0]] + pieces[1..];
    }
  }

  /** A later segment of an irregular version as printed: after a dash, or nothing when it is 0. */
  function DashedSegment(segment: string): string
  {
    if Truthy(segment) then "-" + segment else ""
  }

  lemma DashesNonZero(segment: string, later: seq<string>)
    ensures Dashes(NonZero([segment] + later)) == DashedSegment(segment) + Dashes(NonZero(later))
  {
    assert ([segment] + later)[1..] == later;
    var rest := NonZero(later);
    if segment == "0" {
      assert NonZero([segment] + later) == [] + rest == rest;
    } else {
      assert NonZero([segment] + later) == [segment] + rest;
      assert ([segment] + rest)[1..] == rest;
    }
  }

  /** The later segment in slot i, or "0" when it was not written. */
  function Slot(later: seq<string>, i: nat): string
  {
    if i < |later| then later[i] else "0"
  }

  lemma DashesOne(later: seq<string>)
    requires |later| == 1
    ensures Dashes(NonZero(later)) == DashedSegment(later[0])
  {
    DashesNonZero(later[0], []);
    assert later == [later[0]] + [];
  }

  lemma DashesTwo(later: seq<string>)
    requires |later| == 2
    ensures Dashes(NonZero(later)) == DashedSegment(later[0]) + DashedSegment(later[1])
  {
    DashesNonZero(later[0], later[1..]);
    assert later == [later[0]] + later[1..];
    DashesOne(later[1..]);
  }

  lemma DashesThree(later: seq<string>)
    requires |later| == 3
    ensures Dashes(NonZero(later)) == DashedSegment(later[0]) + DashedSegment(later[1]) + DashedSegment(later[2])
  {
    DashesNonZero(later[0], later[1..]);
    assert later == [later[0]] + later[1..];
    DashesTwo(later[1..]);
    AppendAssoc3(DashedSegment(later[0]), DashedSegment(later[1]), DashedSegment(later[2]));
  }

  lemma AppendAssoc3(a: string, b: string, c: string)
    ensures a + b + c == a + (b + c)
  {
  }

  /** The later segments of the version built from the numerals, each printed after a dash
      unless it is "0"; a missing segment reads as "0". */
  lemma DashesSlots(later: seq<string>)
    requires |later| <= 3
    ensures Dashes(NonZero(later)) == DashedSegment(Slot(later, 0)) + DashedSegment(Slot(later, 1)) + DashedSegment(Slot(later, 2))
  {
    var d0, d1, d2 := DashedSegment(Slot(later, 0)), DashedSegment(Slot(later, 1)), DashedSegment(Slot(later, 2));
    if |later| == 0 {
      assert NonZero(later) == [] && d0 == d1 == d2 == "";
    } else if |later| == 1 {
      DashesOne(later);
      assert d1 == d2 == "";
      EmptyTail(d0, d1, d2);
    } else if |later| == 2 {
      DashesTwo(later);
      assert d2 == "";
      EmptyLast(d0 + d1, d2);
    } else {
      DashesThree(later);
    }
  }

  lemma EmptyTail(a: string, b: string, c: string)
    requires b == c == ""
    ensures a + b + c == a
  {
  }

  lemma EmptyLast(a: string, b: string)
    requires b == ""
    ensures a + b == a
  {
  }

  /** The minor, revision and micro of the version built from the numerals are the later slots. */
  lemma SlotsOfNumbers(parts: seq<Numeral>, s: KnownStability)
    requires 1 <= |parts| <= 4
    ensures FromNumbers(parts, s).minor == Slot(parts[1..], 0)
    ensures FromNumbers(parts, s).revision == Slot(parts[1..], 1)
    ensures (if FromNumbers(parts, s).micro.Some? then DashedSegment(FromNumbers(parts, s).micro.value) else "")
      == DashedSegment(Slot(parts[1..], 2))
  {
  }

  /** The irregular segments' text is the major, then each later segment that is not 0 after a dash. */
  lemma IrregularSegments(parts: seq<Numeral>, s: KnownStability)
    requires 1 <= |parts| <= 4 && DateLike(parts)
    ensures SegmentsText(FromNumbers(parts, s)) == parts[0] + Dashes(NonZero(parts[1..]))
  {
    var w := FromNumbers(parts, s);
    var later := parts[1..];
    var d0, d1, d2 := DashedSegment(Slot(later, 0)), DashedSegment(Slot(later, 1)), DashedSegment(Slot(later, 2));
    SlotsOfNumbers(parts, s);
    assert SegmentsText(w) == parts[0] + d0 + d1 + d2;
    DashesSlots(later);
    AppendAssoc(parts[0], d0, d1, d2);
  }

  lemma AppendAssoc(a: string, b: string, c: string, d: string)
    ensures a + b + c + d == a + (b + c + d)
  {
  }

  /** A date-like version prints its first segment, then every later segment that is not "0"
      after a dash, then the stability's tail: '20100102-203040-p1' renders as written with
      `patch1` for `p1`. */
  lemma IrregularRender(parts: seq<Numeral>, s: KnownStability)
    requires 1 <= |parts| <= 4 && DateLike(parts)
    ensures !FromNumbers(parts, s).regular
    ensures Render(FromNumbers(parts, s)) == Join([parts[0]] + NonZero(parts[1..]), "-") + StabilityTail(s)
  {
    var w := FromNumbers(parts, s);
    assert w.stability == s;
    RenderTail(w);
    IrregularSegments(parts, s);
    JoinDashes(parts[0], NonZero(parts[1..]));
  }

  lemma {:induction false} NonZeroKeeps(segments: seq<string>)
    requires forall m :: 0 <= m < |segments| ==> segments[m] != "0"
    ensures NonZero(segments) == segments
    decreases |segments|
  {
    if segments != [] {
      NonZeroKeeps(segments[1..]);
    }
  }

  lemma NonZeroParts(parts: seq<string>)
    requires |parts| >= 1 && forall m :: 0 <= m < |parts| ==> parts[m] != "0"
    ensures [parts[0]] + NonZero(parts[1..]) == parts
  {
    NonZeroKeeps(parts[1..]);
  }

  /** A date-like version without a zero segment prints its segments joined by dashes, then the
      stability's tail. */
  lemma RenderDateNumbers(parts: seq<Numeral>, s: KnownStability)
    requires 1 <= |parts| <= 4
    requires DateLike(parts) && forall m :: 0 <= m < |parts| ==> parts[m] != "0"
    ensures !FromNumbers(parts, s).regular
    ensures Render(FromNumbers(parts, s)) == Join(parts, "-") + StabilityTail(s)
  {
    NonZeroParts(parts);
    IrregularRender(parts, s);
  }

  /** One to four dotted numerals, with an optional `v` and a suffix the pattern accepts, in a
      date-like shape without a zero: '2010.01.02' renders '2010-01-02', followed by the
      suffix's stability unless it is stable ('20100102.203040-p1' renders
      '20100102-203040-patch1'). */
  lemma RenderDate(input: string, v: bool, parts: seq<Numeral>, rest: string, x: Scanner.Suffix)
    requires 1 <= |parts| <= 4 && input == (if v then "v" else "") + Join(parts, ".") + rest
    requires rest == "" || !IsDigit(rest[0])
    requires Scanner.Tail(rest, 0, Grammar()) == Some(x)
    requires DateLike(parts) && forall m :: 0 <= m < |parts| ==> parts[m] != "0"
    ensures Parse(input).Ok? && !Parse(input).value.regular
    ensures Render(Parse(input).value) == Join(parts, "-") + SuffixTail(x)
  {
    ParseDotted(v, parts, rest, x);
    RenderDateNumbers(parts, SuffixStability(x));
    TailOfSuffix(x);
  }

  /** `1.0.0-rc1` prints `1.0.0-RC1`: the label is upper-cased after a dash. */
  lemma RenderRcExample(parts: seq<Numeral>, s: KnownStability)
    requires parts == ["1", "0", "0"] && s == Stability(RC, Some("1"))
    ensures Render(FromNumbers(parts, s)) == "1.0.0-RC1"
  {
    DottedExample(parts, "1.0.0");
    RenderRegularNumbers(parts, s);
    assert StabilityTail(s) == "-RC1";
    ExampleText("1.0.0", "-RC1", "1.0.0-RC1");
  }

  /** `10.4.13-b5` prints `10.4.13-beta5`: the short alias is written out. */
  lemma RenderBetaExample(parts: seq<Numeral>, s: KnownStability)
    requires parts == ["10", "4", "13"] && s == Stability(Beta, Some("5"))
    ensures Render(FromNumbers(parts, s)) == "10.4.13-beta5"
  {
    DottedExample(parts, "10.4.13");
    RenderRegularNumbers(parts, s);
    assert StabilityTail(s) == "-beta5";
    ExampleText("10.4.13", "-beta5", "10.4.13-beta5");
  }

  /** `20100102-203040-p1` prints `20100102-203040-patch1`: a date keeps its dashes. */
  lemma RenderPatchDateExample(parts: seq<Numeral>, s: KnownStability)
    requires parts == ["20100102", "203040"] && s == Stability(Patch, Some("1"))
    ensures Render(FromNumbers(parts, s)) == "20100102-203040-patch1"
  {
    DateExample(parts);
    DashedExample(parts);
    RenderDateNumbers(parts, s);
    assert StabilityTail(s) == "-patch1";
    ExampleText("20100102-203040", "-patch1", "20100102-203040-patch1");
  }

  /** Three short segments, joined by dots. */
  lemma DottedExample(parts: seq<Numeral>, text: string)
    requires |parts| == 3 && |parts[0]| <= 2 && text == parts[0] + "." + parts[1] + "." + parts[2]
    ensures !DateLike(parts) && Join(parts, ".") == text
  {
    JoinThree(parts, ".");
  }

  lemma DateExample(parts: seq<Numeral>)
    requires parts == ["20100102", "203040"]
    ensures DateLike(parts) && forall m :: 0 <= m < |parts| ==> parts[m] != "0"
  {
  }

  lemma DashedExample(parts: seq<Numeral>)
    requires parts == ["20100102", "203040"]
    ensures Join(parts, "-") == "20100102-203040"
  {
    assert parts[1..] == ["203040"];
  }

  /** The segments' text and the stability's tail of an example, put together. */
  lemma ExampleText(numbers: string, tail: string, text: string)
    requires text == numbers + tail
    ensures numbers + tail == text
  {
  }

  /** compare ignores regularity and the digits' spelling; equal keys compare equal. */
  lemma CompareZero(a: Version, b: Version)
    ensures Compare(a, b) == 0 <==> Key(a) == Key(b)
  {
    Order.LexEqual(Key(a), Key(b));
  }

  lemma CompareReflexive(a: Version)
    ensures Compare(a, a) == 0
  {
    CompareZero(a, a);
  }

  lemma CompareAntisymmetric(a: Version, b: Version)
    ensures Compare(a, b) == -Compare(b, a)
  {
    Order.LexAntisymmetric(Key(a), Key(b));
  }

  lemma CompareTransitive(a: Version, b: Version, c: Version)
    requires Compare(a, b) <= 0 && Compare(b, c) <= 0
    ensures Compare(a, c) <= 0
    ensures Compare(a, b) < 0 || Compare(b, c) < 0 ==> Compare(a, c) < 0
  {
    Order.LexTransitive(Key(a), Key(b), Key(c));
  }
}
