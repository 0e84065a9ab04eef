/** Release channels (src/Version/Stability.php): alias normalisation, rendering, and the
    total order dev < alpha < beta < RC < stable < patch with the sub-revision as tie-break. */
module Stabilities {
  import opened Text
  import opened Wrappers
  import Order

  /** The stored token. `Other` keeps a token the constructor does not recognise (lower-cased). */
  datatype Level = Dev | Alpha | Beta | RC | Stable | Patch | Other(text: string)

  /** The number keeps the digits it was written with: `beta01` prints as written. */
  datatype Stability = Stability(level: Level, number: Option<Numeral>)

  /** A stability whose token `toInt` can rank. */
  predicate Known(s: Stability) { !s.level.Other? }

  type KnownStability = s: Stability | Known(s) witness Stability(Stable, None)

  /** The string the constructor stores for a level. */
  function LevelText(l: Level): string
  {
    match l
    case Dev => "dev"
    case Alpha => "alpha"
    case Beta => "beta"
    case RC => "RC"
    case Stable => "stable"
    case Patch => "patch"
    case Other(t) => t
  }

  /** The constructor's switch on a lower-cased token: aliases become canonical labels. */
  function Canonicalise(t: string): Level
  {
    if t == "rc" then RC
    else if t == "patch" || t == "pl" || t == "p" then Patch
    else if t == "beta" || t == "b" then Beta
    else if t == "alpha" || t == "a" then Alpha
    else if t == "dev" || t == "d" then Dev
    else if t == "stable" then Stable
    else Other(t)
  }

  /** The empty token means stable; every token is lower-cased before the switch. */
  function Normalise(token: string): Level
  {
    Canonicalise(ToLower(if token == "" then "stable" else token))
  }

  lemma ToLowerIdempotent(s: string)
    ensures ToLower(ToLower(s)) == ToLower(s)
  {
  }

  /** new Stability($stability, $number). */
  function Make(token: string, number: Option<Numeral>): (s: Stability)
    ensures s.number == number
    ensures token == "" ==> s.level == Stable
    ensures s.level.Other? ==> s.level.text == ToLower(token) && s.level.text != "" && NoUpper(s.level.text)
  {
    Stability(Normalise(token), number)
  }

  /** The stored label is already normal: constructing again from it changes nothing. */
  lemma MakeIdempotent(token: string, number: Option<Numeral>)
    ensures Make(LevelText(Make(token, number).level), number) == Make(token, number)
  {
    var t := ToLower(if token == "" then "stable" else token);
    ToLowerIdempotent(if token == "" then "stable" else token);
    var l := Canonicalise(t);
    if l.Other? {
      assert LevelText(l) == t != "";
    } else {
      KnownLevelIsNormal(l);
    }
  }

  lemma KnownLevelIsNormal(l: Level)
    requires !l.Other?
    ensures Normalise(LevelText(l)) == l
  {
    match l
    case RC => assert ToLower("RC") == "rc";
    case Patch => assert ToLower("patch") == "patch";
    case Beta => assert ToLower("beta") == "beta";
    case Alpha => assert ToLower("alpha") == "alpha";
    case Dev => assert ToLower("dev") == "dev";
    case Stable => assert ToLower("stable") == "stable";
  }

  /** The token is compared without regard to case. */
  lemma CaseInsensitive(token: string, number: Option<Numeral>)
    ensures Make(ToLower(token), number) == Make(token, number)
  {
    ToLowerIdempotent(token);
  }

  /** The constructor's alias table, for every spelling of every alias. */
  lemma AliasTable(token: string, number: Option<Numeral>)
    ensures ToLower(token) == "rc" ==> Make(token, number).level == RC
    ensures ToLower(token) in {"patch", "pl", "p"} ==> Make(token, number).level == Patch
    ensures ToLower(token) in {"beta", "b"} ==> Make(token, number).level == Beta
    ensures ToLower(token) in {"alpha", "a"} ==> Make(token, number).level == Alpha
    ensures ToLower(token) in {"dev", "d"} ==> Make(token, number).level == Dev
    ensures token == "" || ToLower(token) == "stable" ==> Make(token, number).level == Stable
  {
    if token == "" {
      LowerFixed("stable");
    }
  }

  /** new Stability() with no arguments. */
  function Default(): (s: KnownStability)
    ensures IsStable(s) && s.number == None
    ensures s == Make("stable", None)
  {
    LowerFixed("stable");
    Stability(Stable, None)
  }
  /** The digits of a number as written; no number prints nothing. */
  function Digits(number: Option<Numeral>): string
  {
    if number.Some? then number.value else ""
  }

  /** The value of a number; no number counts as 0. */
  function NumberValue(number: Option<Numeral>): nat
  {
    if number.Some? then Value(number.value) else 0
  }

  /** __toString: the label immediately followed by the number. Reading the printed label back
      through the constructor, with the same number, gives the same stability. */
  function Render(s: Stability): (r: string)
    ensures |LevelText(s.level)| <= |r|
    ensures Known(s) ==> Make(r[..|LevelText(s.level)|], s.number) == s
  {
    var r := LevelText(s.level) + Digits(s.number);
    assert Known(s) ==> Make(r[..|LevelText(s.level)|], s.number) == s by {
      if Known(s) {
        assert r[..|LevelText(s.level)|] == LevelText(s.level);
        KnownLevelIsNormal(s.level);
      }
    }
    r
  }

  /** isStable: the stored label is `stable`. */
  predicate IsStable(s: Stability)
    ensures Known(s) ==> (IsStable(s) <==> LevelText(s.level) == "stable")
  {
    s.level == Stable
  }

  /** toInt: the rank of a token; an unrecognised token is an error. */
  function Rank(l: Level): (r: Result<nat>)
    ensures r.Ok? <==> !l.Other?
    ensures r.Ok? ==> 1 <= r.value <= 6
  {
    match l
    case Dev => Ok(1)
    case Alpha => Ok(2)
    case Beta => Ok(3)
    case RC => Ok(4)
    case Stable => Ok(5)
    case Patch => Ok(6)
    case Other(t) => Err(InvalidStability(t))
  }

  /** The ordering key: rank, then the number with an absent number counting as 0. */
  function Key(s: KnownStability): (k: seq<nat>)
    ensures |k| == 2
  {
    [Rank(s.level).value, NumberValue(s.number)]
  }

  /** compare: by rank first, then by number. */
  function Compare(a: Stability, b: Stability): (r: Result<int>)
    ensures r.Ok? <==> Known(a) && Known(b)
    ensures r.Ok? ==> r.value == Order.Lex(Key(a), Key(b))
    ensures !Known(a) ==> r == Err(InvalidStability(a.level.text))
    ensures Known(a) && !Known(b) ==> r == Err(InvalidStability(b.level.text))
  {
    var ra := Rank(a.level);
    var rb := Rank(b.level);
    if ra.Err? then Err(ra.error)
    else if rb.Err? then Err(rb.error)
    else
      var na, nb := NumberValue(a.number), NumberValue(b.number);
      Order.LexPair(ra.value, na, rb.value, nb);
      if ra.value > rb.value then Ok(1)
      else if ra.value < rb.value then Ok(-1)
      else if na > nb then Ok(1)
      else if na < nb then Ok(-1)
      else Ok(0)
  }

  /** isStable holds exactly for rank 5: RC (4) and patch (6) are not stable. */
  lemma StableIsRankFive(s: Stability)
    ensures IsStable(s) <==> Rank(s.level) == Ok(5)
    ensures s.level == Patch || s.level == RC ==> !IsStable(s)
  {
  }

  /** The level decides before the number is looked at. */
  lemma LevelDecidesFirst(a: KnownStability, b: KnownStability)
    requires Rank(a.level).value < Rank(b.level).value
    ensures Compare(a, b) == Ok(-1) && Compare(b, a) == Ok(1)
  {
  }

  lemma CompareReflexive(a: KnownStability)
    ensures Compare(a, a) == Ok(0)
  {
  }

  lemma CompareAntisymmetric(a: KnownStability, b: KnownStability)
    ensures Compare(a, b).value == -Compare(b, a).value
  {
    Order.LexAntisymmetric(Key(a), Key(b));
  }

  lemma CompareTransitive(a: KnownStability, b: KnownStability, c: KnownStability)
    requires Compare(a, b).value <= 0 && Compare(b, c).value <= 0
    ensures Compare(a, c).value <= 0
  {
    Order.LexTransitive(Key(a), Key(b), Key(c));
  }

  /** The tokens the constructor recognises: the empty one and the aliases, in any case. */
  lemma Recognised(token: string, number: Option<Numeral>)
    ensures Known(Make(token, number)) <==>
      token == "" || ToLower(token) in {"rc", "patch", "pl", "p", "beta", "b", "alpha", "a", "dev", "d", "stable"}
  {
    if token == "" {
      LowerFixed("stable");
    }
  }

  /** Any other token is kept, lower-cased, and comparing it fails in either position. */
  lemma UnknownLabelFails(token: string, n: Option<Numeral>, b: Stability)
    requires !Known(Make(token, n))
    ensures Make(token, n).level == Other(ToLower(token))
    ensures Compare(Make(token, n), b) == Err(InvalidStability(ToLower(token)))
    ensures Known(b) ==> Compare(b, Make(token, n)) == Err(InvalidStability(ToLower(token)))
  {
  }

  /** Rendering by alias: the canonical label of the token, then its digits as written; a token
      the constructor does not recognise prints lower-cased. */
  lemma RenderAliases(token: string, number: Option<Numeral>)
    ensures ToLower(token) == "rc" ==> Render(Make(token, number)) == "RC" + Digits(number)
    ensures ToLower(token) in {"patch", "pl", "p"} ==> Render(Make(token, number)) == "patch" + Digits(number)
    ensures ToLower(token) in {"beta", "b"} ==> Render(Make(token, number)) == "beta" + Digits(number)
    ensures ToLower(token) in {"alpha", "a"} ==> Render(Make(token, number)) == "alpha" + Digits(number)
    ensures ToLower(token) in {"dev", "d"} ==> Render(Make(token, number)) == "dev" + Digits(number)
    ensures token == "" || ToLower(token) == "stable" ==> Render(Make(token, number)) == "stable" + Digits(number)
    ensures !Known(Make(token, number)) ==> Render(Make(token, number)) == ToLower(token) + Digits(number)
  {
    AliasTable(token, number);
  }

  lemma RenderExamples()
    ensures Render(Make("rc", Some("15"))) == "RC15"
    ensures Render(Make("pl", Some("3"))) == "patch3"
    ensures Render(Make("b", None)) == "beta"
    ensures Render(Make("b", Some("01"))) == "beta01"
  {
    assert ToLower("rc") == "rc" && ToLower("pl") == "pl" && ToLower("b") == "b";
  }
}
