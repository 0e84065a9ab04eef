# php-mod/version: the constraint algebra in Dafny

This project models the core of the php-mod/version library. The library reads Composer-style
version strings and version ranges, and it decides whether two constraints overlap (`matches`)
or whether one contains the other (`isSubsetOf`). The model has eleven modules, each following
one part of the library:

- `Wrappers` holds `Option`, `Result` and the library's failures: `InvalidFormat`,
  `InvalidOperator` (with its hint), `InvalidStability` and `NotImplemented`.
- `Text` models the PHP string built-ins the library relies on: digit runs and their values,
  `strtolower`, `trim`, `explode` and `implode`.
- `Order` is the lexicographic comparison behind both `compare` methods.
- `Stabilities` models `Stability`: alias normalisation, rendering, `isStable`, and the ranked
  `compare`.
- `Scanner` is an explicit scanner for the library's anchored regular expressions. It makes
  PCRE's choices in PCRE's order: an optional group is tried present before absent, a digit run
  longest first, and the stability alternation in the order it is written.
- `Versions` models `Version`: the constructor defaults, `parse` (written as a method step by
  step, and as the function that specifies it), the two renderings, `getVersionStability`, and
  `compare`.
- `Operators` models `Operator`: token validation, rendering and `compare`.
- `Constraints` models `SimpleConstraint`, `AnythingConstraint` and `MultiConstraint` as one
  datatype. It defines the decision tables of `matches` and `isSubsetOf`, `isIncluding`, the
  renderings, and `Accepts`, the set of versions a constraint accepts. `Accepts` is the meaning
  against which the decision tables are proved sound and complete.
- `ConstraintParser` models `Constraint::parse`: the split, the wildcard-only term, the term
  pattern, zero-filling, the tilde and wildcard expansion, and the collapse of the result. The
  loops and the element-by-element updates of PHP arrays are methods over sequences, each proved
  equal to the function that specifies it.
- `ConstraintLaws` holds what `Constraint::parse` promises about its results.
- `VersionParser` models the older `VersionParser` class: `normalize`, `parseConstraints` and
  `parseStability`, with their laws.

Segments and the stability's number stay the digit strings they were written as, because the
renderings print them that way (`01` stays `01`, and `beta01` stays `beta01`). They are compared
by numeric value, as PHP's loose comparison does.

## Model

| member | source | states |
|---|---|---|
| Stabilities.Make | src/Version/Stability.php:21-51 | The constructor keeps the number given; an empty token means stable; a token outside the alias table is kept lower-cased |
| Stabilities.MakeIdempotent | src/Version/Stability.php:26-49 | Constructing again from the stored label and the same number gives the same stability |
| Stabilities.CaseInsensitive | src/Version/Stability.php:26 | The token is lower-cased first, so its case never matters |
| Stabilities.AliasTable | src/Version/Stability.php:23-48 | Every spelling of rc gives RC; patch/pl/p give patch; beta/b give beta; alpha/a give alpha; dev/d give dev; the empty token and stable give stable |
| Stabilities.Default | src/Version/Stability.php:21 | The default stability is stable with no number, and it is the one built from the token `stable` |
| Stabilities.Rank | src/Version/Stability.php:88-105 | toInt ranks the six known levels 1 to 6 and fails exactly on any other label |
| Stabilities.Compare | src/Version/Stability.php:71-86 | compare succeeds exactly when both labels are known, fails naming the first unknown label, and is the lexicographic order of (rank, number) |
| Stabilities.StableIsRankFive | src/Version/Stability.php:58-61 | isStable holds exactly for rank 5, so patch and RC are not stable |
| Stabilities.LevelDecidesFirst | src/Version/Stability.php:73-78 | A lower rank compares below, whatever the numbers |
| Stabilities.CompareReflexive | src/Version/Stability.php:71-86 | Every stability compares equal to itself |
| Stabilities.CompareAntisymmetric | src/Version/Stability.php:71-86 | Exchanging the arguments negates the result |
| Stabilities.CompareTransitive | src/Version/Stability.php:71-86 | compare's "not above" relation is transitive |
| Stabilities.Recognised | src/Version/Stability.php:23-48 | A stability can be ranked exactly when its token is empty or one of the eleven aliases, in any case |
| Stabilities.UnknownLabelFails | src/Version/Stability.php:88-105 | An unknown token is stored lower-cased, and comparing it fails in either position |
| Stabilities.RenderExamples | src/Version/Stability.php:53-56 | Rendering is the label followed by the number as written: rc 15 gives RC15, pl 3 gives patch3, b gives beta, b 01 gives beta01 |
| Stabilities.Render | src/Version/Stability.php:53-56 | The rendering starts with the stored label, and for a known level constructing again from that label and the same number gives the same stability |
| Stabilities.RenderAliases | src/Version/Stability.php:21-56 | For every alias and every number, the rendering is the canonical label followed by the number's digits: any case of rc gives RC, pl/p/patch give patch, b/beta give beta, a/alpha give alpha, d/dev give dev, the empty token and stable give stable; any other token renders lower-cased |
| Stabilities.IsStable | src/Version/Stability.php:58-61 | For a known level, isStable holds exactly when the stored label is `stable` |
| Order.Lex | src/Version/Version.php:262-293 | The comparison chain returns -1, 0 or 1 |
| Order.LexEqual | src/Version/Version.php:262-293 | The chain returns 0 exactly on equal keys |
| Order.LexAntisymmetric | src/Version/Version.php:262-293 | Exchanging the keys negates the result |
| Order.LexTransitive | src/Version/Version.php:262-293 | The order is transitive, strictly when either step is strict |
| Order.LexPair | src/Version/Stability.php:73-85 | On two-element keys the chain is compare's four tests in order |
| Versions.New | src/Version/Version.php:37-48 | A new version is regular, minor and revision are 0, micro is absent, and the stability is the default |
| Versions.Grammar | src/Version/Version.php:60-67 | The pattern's separators include `\|`, the last one is `.` only, and its suffix has the date alternative |
| Versions.PresentKeeps | src/Version/Version.php:73-86 | The numbers kept are exactly the non-empty captures |
| Versions.Present | src/Version/Version.php:73-86 | No more numbers are kept than there are groups |
| Versions.TokensKnown | src/Version/Version.php:60-124 | Every token the pattern captures is a stability that Stability recognises |
| Versions.GetVersionStability | src/Version/Version.php:253-260 | The channel is never `patch`; it is `stable` exactly for a stable or a patch version; read back as a stability it names the version's own level, with patch folded into stable |
| Versions.Compare | src/Version/Version.php:262-293 | compare is the lexicographic order of major, minor, revision, micro (absent counts as 0) and the stability's rank and number |
| Versions.ParseSteps | src/Version/Version.php:54-127 | parse as the source runs it equals the specification function Parse |
| Versions.CapturesSteps | src/Version/Version.php:73-126 | The steps after the match equal the function that reads the captures |
| Versions.CollectNumbers | src/Version/Version.php:73-86 | The appends keep exactly the captures that took part, in order |
| Versions.BuildVersion | src/Version/Version.php:94-124 | The setter sequence on a fresh version gives the regular or irregular version the numbers and the suffix describe |
| Versions.ParseDotted | src/Version/Version.php:54-127 | One to four numerals joined by dots, with an optional `v`, and any suffix the pattern accepts, parse to the version those numerals and that suffix describe; this includes a suffix that starts with a separator the group of the last numeral takes, as in `1.0-beta`, `1-rc1` or `1.0.0.beta`, and a date after such a separator |
| Versions.ParseOfMatch | src/Version/Version.php:69-127 | Whenever the pattern captures the numerals, parse returns the version they describe |
| Versions.MatchDottedText | src/Version/Version.php:60-67 | The pattern captures each of the dotted numerals in order, and the suffix that follows |
| Versions.ParseNeedsDigit | src/Version/Version.php:88-90 | A text that parses contains a digit |
| Versions.ParseRegularity | src/Version/Version.php:96-107 | A parsed version is irregular exactly when its major has 14, 8 or 6 digits, or 4 followed by a minor of 2 |
| Versions.ParseEmpty | src/Version/Version.php:56-58 | The empty text fails |
| Versions.Parse | src/Version/Version.php:54-71 | The empty text fails, and every failure is the invalid-format failure of the input |
| Versions.FromCaptures | src/Version/Version.php:73-126 | The captures fail exactly when no segment group took part, with the invalid-format failure of the input; otherwise the version's major is one of the captures and its stability is the one the suffix names |
| Versions.ParsePlain | src/Version/Version.php:54-127 | Dotted numerals without a suffix parse with the default stability |
| Versions.Render | src/Version/Version.php:217-243 | The rendering is the segments' text alone exactly when the stability is stable |
| Versions.StabilityTail | src/Version/Version.php:239-241 | The stability part of the rendering is empty exactly when the stability is stable |
| Versions.RenderTail | src/Version/Version.php:217-243 | Every rendering is the segments' text followed by a dash, the stability's label and its number, the dash and label left out only for a stable version |
| Versions.TailOfSuffix | src/Version/Version.php:122-124 | The stability part printed for a parsed suffix is a dash, the canonical label of its token and the digits written after it, or nothing for a stable token or no suffix |
| Versions.RenderRegular | src/Version/Version.php:217-243 | For every input of one to four dotted numerals, an optional `v` and any suffix the pattern accepts, separator-led ones included, in the regular shape, parse then render gives major.minor.revision (plus `.micro` as an integer when written), then `-`, the canonical label and the digits written when the suffix is not stable: `1.0` gives `1.0.0`, `10.4.13beta2` gives `10.4.13-beta2`, `1.0-beta` gives `1.0.0-beta` |
| Versions.RenderRegularNumbers | src/Version/Version.php:217-243 | The version built from one to four numerals in the regular shape, with any stability, renders as the dotted segments zero-filled to three followed by the stability's tail |
| Versions.IrregularRender | src/Version/Version.php:227-241 | A date-like version with any stability renders as its first segment and each later segment other than `0` joined by dashes, followed by the stability's tail |
| Versions.RenderDateNumbers | src/Version/Version.php:227-241 | The version built from date-like numerals with no zero, with any stability, renders as the numerals joined by dashes followed by the stability's tail |
| Versions.RenderDate | src/Version/Version.php:217-243 | For every input of date-like dotted numerals with no zero and any suffix the pattern accepts, separator-led ones included, parse then render gives the numerals joined by dashes, then the suffix's stability unless it is stable: `2010.01.02` gives `2010-01-02`, `20100102.203040-p1` gives `20100102-203040-patch1` |
| Versions.RenderRcExample | src/Version/Version.php:217-243 | The version of `1.0.0-rc1` renders as `1.0.0-RC1` |
| Versions.RenderBetaExample | src/Version/Version.php:217-243 | The version of `10.4.13-b5` renders as `10.4.13-beta5` |
| Versions.RenderPatchDateExample | src/Version/Version.php:217-243 | The version of `20100102-203040-p1` renders as `20100102-203040-patch1` |
| Versions.CompareZero | src/Version/Version.php:262-293 | compare returns 0 exactly when the keys agree, so regularity is ignored |
| Versions.CompareReflexive | src/Version/Version.php:262-293 | Every version compares equal to itself |
| Versions.CompareAntisymmetric | src/Version/Version.php:262-293 | Exchanging the versions negates the result |
| Versions.CompareTransitive | src/Version/Version.php:262-293 | The order is transitive, strictly when either step is strict |
| Operators.Render | src/Version/Operator.php:29-32 | The rendering is always one of the eight accepted tokens |
| Operators.Parse | src/Version/Operator.php:11-27 | Exactly the eight tokens and `==` are accepted; any other fails with the hint for `~>` or `!` |
| Operators.ParseRender | src/Version/Operator.php:29-32 | Rendering gives back a token that parses to the same operator |
| Operators.RenderParse | src/Version/Operator.php:13-15 | An accepted token renders as written, except `==`, which renders as `=` |
| Operators.Compare | src/Version/Operator.php:40-61 | compare fails exactly for `~`, with the not-implemented failure |
| Operators.NotEqualIsNegation | src/Version/Operator.php:57-59 | `!=` and `<>` always agree and negate `=` |
| Operators.NonStrictIsStrictOrEqual | src/Version/Operator.php:42-56 | `<=` holds iff `<` or `=` holds; `>=` holds iff `>` or `=` holds |
| Operators.FlipSwaps | src/Version/Operator.php:42-59 | Exchanging the versions and mirroring the operator gives the same verdict |
| Operators.Flip | src/Version/Operator.php:40-61 | Mirroring an operator gives `~` exactly for `~` |
| Operators.Reflexive | src/Version/Operator.php:42-59 | A version is `=`, `<=` and `>=` itself and not `<`, `>` or `!=` itself |
| Constraints.Render | src/Version/Constraint/MultiConstraint.php:13-16 | `*` renders as `*`, and a combinator of one child renders as that child, with no separator |
| Constraints.Accepts | src/Version/Constraint/MultiConstraint.php:18-32 | A `~` bound accepts no version; an empty AND accepts every version and an empty OR none |
| Constraints.SubsetSimple | src/Version/Constraint/SimpleConstraint.php:129-181 | The table fails exactly for `=` against `~` and for `~` against anything but `=`, with the not-implemented failure; nothing but `=` is within an `=` bound |
| Constraints.MatchesSimple | src/Version/Constraint/SimpleConstraint.php:45-98 | Two bounds without `~` always get a verdict, and only a `~` bound makes the table fail |
| Constraints.Matches | src/Version/Constraint/SimpleConstraint.php:40-104 | `*` on the left, or `*` on the right of a bound, overlaps everything; an empty combinator gives true for AND and false for OR |
| Constraints.NewMulti | src/Version/Constraint/MultiConstraint.php:7-11 | The combinator defaults to AND and keeps the children given |
| Constraints.IsSubsetOf | src/Version/Constraint/SimpleConstraint.php:127-193 | Only a single bound has a verdict, and never against Anything |
| Constraints.IsIncluding | src/Version/Constraint.php:213-216 | isIncluding(A, B) is B.isSubsetOf(A); when it holds and A has no `~` bound, every version B accepts A accepts |
| Constraints.SubsetSimpleSound | src/Version/Constraint/SimpleConstraint.php:129-181 | When the table says bound A is within bound B, every version A accepts B accepts |
| Constraints.SimpleSubsetSound | src/Version/Constraint/SimpleConstraint.php:127-193 | When a bound is within a constraint without `~`, every version the bound accepts the constraint accepts |
| Constraints.SubsetAllSound | src/Version/Constraint/SimpleConstraint.php:182-189 | When a bound is within every child, every version the bound accepts every child accepts |
| Constraints.SubsetSoundAll | src/Version/Constraint/SimpleConstraint.php:127-193 | When isSubsetOf holds and the second constraint has no `~` bound, every version the first accepts the second accepts, AND/OR children included |
| Constraints.SubsetReflexive | src/Version/Constraint/SimpleConstraint.php:129-181 | Every bound without `~` is a subset of itself |
| Constraints.SubsetOfEquals | src/Version/Constraint/SimpleConstraint.php:131-139 | `=a` is within B exactly when B's operator holds for a; nothing else is within an `=` bound |
| Constraints.SubsetOfMulti | src/Version/Constraint/SimpleConstraint.php:182-189 | A bound is within a combinator exactly when it is within every child, whatever the combinator |
| Constraints.MatchesTotal | src/Version/Constraint/SimpleConstraint.php:40-104 | Without `~`, matches always gives a verdict |
| Constraints.MatchesSimpleComplete | src/Version/Constraint/SimpleConstraint.php:45-98 | Two bounds that accept a common version match: the table has no false negatives |
| Constraints.SimpleMatchesComplete | src/Version/Constraint/SimpleConstraint.php:40-104 | A bound and any constraint without `~` that accept a common version match |
| Constraints.MatchesAllComplete | src/Version/Constraint/MultiConstraint.php:18-33 | A combinator and a constraint that accept a common version match |
| Constraints.MatchesComplete | src/Version/Constraint/SimpleConstraint.php:40-104 | Any two constraints accepting a common version match, combinators included |
| Constraints.MatchesSymmetric | src/Version/Constraint/SimpleConstraint.php:45-98 | matches on two bounds does not depend on their order |
| Constraints.AnythingMatches | src/Version/Constraint/AnythingConstraint.php:14-17 | Anything matches every constraint, and every bound matches Anything |
| Constraints.AnythingHasNoSubset | src/Version/Constraint/AnythingConstraint.php:19-23 | isSubsetOf on Anything always fails as not implemented |
| Constraints.AcceptsEmpty | src/Version/Constraint/MultiConstraint.php:18-33 | Anything accepts every version; an empty AND accepts all, an empty OR none |
| Constraints.RenderAmbiguous | src/Version/Constraint/MultiConstraint.php:13-16 | AND(a, OR(b, c)) and OR(AND(a, b), c) differ but render identically |
| Constraints.PinOrRange | src/Version/Constraint/MultiConstraint.php:18-33 | OR(=a, AND(>b, <=c)) accepts v exactly when v equals a or lies in (b, c] |
| Constraints.CombinatorExample | tests/Version/Constraint/MultiConstraintTest.php:9-24 | OR(=1.5.4, AND(>1.7.2, <=2.0.1)) accepts 1.5.4, 1.7.3 and 2.0.0 and rejects 1.6.0 and 2.2.0 |
| Constraints.TriplesCompare | src/Version/Version.php:262-293 | Two versions with the same stability and no micro compare by major, then minor, then revision |
| ConstraintParser.TermGrammar | src/Version/Constraint.php:67-74 | The term pattern: dot separators, wildcards `*` and `x` (and `X` under /i), and the alternation of every alias in any case |
| ConstraintParser.Run | src/Version/Constraint.php:68 | A run stops at the end or at the first character outside the class |
| ConstraintParser.OperatorEnd | src/Version/Operator.php:7 | The operator group takes at most two characters |
| ConstraintParser.TermStart | src/Version/Constraint.php:68 | The segments start after the operator group and the spaces after it |
| ConstraintParser.MatchTermCaptures | src/Version/Constraint.php:67-78 | Every capture of the term pattern is a segment it accepts, and its suffix is well formed |
| ConstraintParser.Bump | src/Version/Constraint.php:116-146 | `++` counts a numeral up by one and keeps a non-numeral non-numeric |
| ConstraintParser.TildeUpper | src/Version/Constraint.php:112-129 | The tilde's upper bound keeps four slots |
| ConstraintParser.WildcardAt | src/Version/Constraint.php:131-147 | One wildcard step keeps both bounds at four slots |
| ConstraintParser.Expand | src/Version/Constraint.php:102-147 | The tilde and wildcard expansion keeps both bounds at four slots |
| ConstraintParser.NameKnown | src/Version/Constraint.php:161-175 | Each label the suffix step writes is one Stability recognises |
| ConstraintParser.ZeroFill | src/Version/Constraint.php:108-110 | The segments written, then `0` up to four |
| ConstraintParser.Bound | src/Version/Constraint.php:149-159 | The version built from four slots is regular, with every slot set, micro included |
| ConstraintParser.Parse | src/Version/Constraint.php:29-52 | Blank text fails with the invalid-format failure; a combinator the parse returns has at least two children |
| ConstraintParser.ParseAll | src/Version/Constraint.php:46-50 | When every piece parses, there is one constraint per piece |
| ConstraintParser.ParseTerm | src/Version/Constraint.php:54-78 | A term parses to `*` exactly when it is wildcards only |
| ConstraintParser.FromTerm | src/Version/Constraint.php:80-208 | An operator the class refuses makes the term fail with that operator's failure; otherwise the result is a single bound or a combinator of two |
| ConstraintParser.Outcome | src/Version/Constraint.php:177-208 | Equal bounds give the single bound with the operator and stability written; different ones give `< upper` alone or `>= lower , < upper`, the upper bound always exclusive and stable |
| ConstraintParser.ParseSteps | src/Version/Constraint.php:29-209 | parse as the source runs it equals the specification function Parse |
| ConstraintParser.PiecesSteps | src/Version/Constraint.php:46-52 | The loop over the pieces parses each in order, stops at the first failure, and otherwise builds the combinator |
| ConstraintParser.TermSteps | src/Version/Constraint.php:54-78 | A single term: the wildcard-only test, then the term pattern |
| ConstraintParser.CapturesSteps | src/Version/Constraint.php:80-175 | The steps on the captures equal the function that reads them |
| ConstraintParser.RangeSteps | src/Version/Constraint.php:177-208 | The scan over the slots gives the single bound, the lone `<` bound or the range |
| ConstraintParser.CollectParts | src/Version/Constraint.php:87-100 | The appends keep exactly the captures that took part, in order |
| ConstraintParser.ExpandSteps | src/Version/Constraint.php:102-147 | The zero-fill loop and the in-place bumps give the expanded bounds |
| ConstraintParser.WildcardSteps | src/Version/Constraint.php:131-147 | One wildcard slot zeroed in both bounds, with the slot before it bumped in the upper one |
| ConstraintParser.VersionSteps | src/Version/Constraint.php:149-159 | The setter sequence gives the four-slot version |
| ConstraintParser.FirstDifference | src/Version/Constraint.php:177-178 | The scan stops at the first slot where the bounds differ, and runs to the end exactly when they are equal |
| ConstraintParser.PiecesShorter | src/Version/Constraint.php:37-44 | When there are several pieces, each is shorter than the text; a single piece is the text itself, with no `,` or `\|` |
| ConstraintLaws.ExactBound | src/Version/Constraint.php:149-208 | Numerals under any operator but `~` give one bound, zero-filled to four |
| ConstraintLaws.TildeBounds | src/Version/Constraint.php:102-129 | The tilde's upper bound by count: one or two segments bump the major, three the minor, four the revision, and the later slots are zero |
| ConstraintLaws.ExpandNumerals | src/Version/Constraint.php:102-147 | Without a wildcard, the lower bound is the filled parts and the upper bound the tilde bound |
| ConstraintLaws.TildeRange | src/Version/Constraint.php:102-208 | `~` before numerals always gives a range |
| ConstraintLaws.WildcardBounds | src/Version/Constraint.php:131-147 | A trailing wildcard is zero in both bounds and bumps the slot before it in the upper bound |
| ConstraintLaws.WildcardRange | src/Version/Constraint.php:131-208 | Numerals then a wildcard give the range from the numerals to the last one plus one |
| ConstraintLaws.TildeWildcard | src/Version/Constraint.php:114-141 | `~N.x` bumps the major twice, giving [N, N+2) |
| ConstraintLaws.RangeAccepts | src/Version/Constraint.php:177-204 | A range accepts exactly the versions below the upper bound and, unless the lower bound renders 0.0.0.0, not below the lower one |
| ConstraintLaws.EqualBounds | src/Version/Constraint.php:177-208 | Equal bounds give the single bound with the operator written |
| ConstraintLaws.ZeroWildcard | src/Version/Constraint.php:193-195 | `0.x` collapses to `<1.0.0.0` |
| ConstraintLaws.SegmentNotRc | src/Version/Constraint.php:162 | The RC test reads a segment, which is never `rc` |
| ConstraintLaws.SuffixAccepted | src/Version/Constraint.php:161-175 | A suffix is accepted exactly when it is pl/patch/p, beta/b or stable in any case, each giving its stability; any other fails |
| ConstraintLaws.ParseEmpty | src/Version/Constraint.php:31-35 | Empty or blank text fails |
| ConstraintLaws.ParseAllEach | src/Version/Constraint.php:47-50 | The pieces parse exactly when each does, in order, and the first failure is reported |
| ConstraintLaws.ParseAnd | src/Version/Constraint.php:37-52 | A comma anywhere makes an AND of the comma pieces, each parsed on its own |
| ConstraintLaws.ParseOr | src/Version/Constraint.php:37-52 | Without a comma, a pipe makes an OR of the pipe pieces |
| ConstraintLaws.ParseSingle | src/Version/Constraint.php:37-54 | Text without `,` or `\|` is one term |
| ConstraintLaws.ParseAnything | src/Version/Constraint.php:56-65 | One to four wildcards joined by dots parse to Anything |
| ConstraintLaws.ParseDottedTerm | src/Version/Constraint.php:54-159 | An operator text before dotted numerals is a valid operator, and the term is assembled from it with the default stability |
| ConstraintLaws.ParseWritten | src/Version/Constraint.php:29-159 | Any text made of at most two operator characters and dotted numerals is assembled from that operator and those numerals |
| ConstraintLaws.ParseOfTerm | src/Version/Constraint.php:29-159 | Whenever the term pattern captures an operator and numerals without a suffix, the text is assembled from them |
| ConstraintLaws.ParseExact | src/Version/Constraint.php:67-208 | An operator but `~` before dotted numerals gives that single bound, zero-filled to four, so `=1.0` gives `=1.0.0.0` |
| ConstraintLaws.ParseTilde | src/Version/Constraint.php:67-208 | `~` before dotted numerals gives the tilde range |
| ConstraintLaws.ExactRender | src/Version/Constraint/SimpleConstraint.php:34-38 | The bound of an exact term renders as the operator followed by the four slots joined by dots, when a written fourth slot has no leading zero |
| VersionParser.NormalGrammar | src/Version/VersionParser.php:22-29 | normalize's pattern: `-` or `.` after the first two groups, `.` after the third, and no date alternative |
| VersionParser.Normalize | src/Version/VersionParser.php:15-81 | normalize fails only with the invalid-format failure for its own input |
| VersionParser.NormalizeSteps | src/Version/VersionParser.php:15-81 | normalize as the source runs it equals the specification function |
| VersionParser.CapturesSteps | src/Version/VersionParser.php:33-80 | The appends, the zero-fill loop, the implode and the suffix append give the segments glued and the suffix text |
| VersionParser.NormalizeDotted | src/Version/VersionParser.php:22-78 | Dotted numerals with an optional `v` and a suffix: date-like shapes are dash-joined as written, other shapes are zero-filled to four and dot-joined, and the suffix text follows |
| VersionParser.NormalizePlain | src/Version/VersionParser.php:44-66 | The same without a suffix |
| VersionParser.NormalizeOfMatch | src/Version/VersionParser.php:31-80 | Whenever the pattern captures the numerals and a suffix, normalize returns the numerals glued and the suffix text |
| VersionParser.SuffixLabel | src/Version/VersionParser.php:68-78 | The label written is RC, patch or beta, and it names the level Stability gives the token |
| VersionParser.DashJoinedDateLike | src/Version/VersionParser.php:44-64 | normalize's dash-joined shape is Version's date-like shape, except for a lone four-digit segment |
| VersionParser.NormalizeBareV | src/Version/VersionParser.php:22-42 | `v` alone matches with no segment and normalises to the empty text |
| VersionParser.MatchBareV | src/Version/VersionParser.php:22-31 | The pattern matches `v` alone, with every group empty and no suffix |
| VersionParser.TermGrammar | src/Version/VersionParser.php:117-124 | The term pattern: dot separators, wildcards `*` and `x`, and its own alternation with `stable` |
| VersionParser.OperatorEnd | src/Version/VersionParser.php:118 | The operator group is the longest run of operator characters, of any length |
| VersionParser.TermStart | src/Version/VersionParser.php:118 | The segments start after the operator group and the spaces after it |
| VersionParser.MatchTermCaptures | src/Version/VersionParser.php:117-126 | Every capture of the term pattern is a segment it accepts, and its suffix is well formed |
| VersionParser.ParseConstraints | src/Version/VersionParser.php:83-245 | Blank text fails with the invalid-format failure; the result is the empty constraint only for wildcards-only text |
| VersionParser.FromTerm | src/Version/VersionParser.php:132-245 | An operator outside the list fails with that operator and its hint; a matched term never gives the empty constraint |
| VersionParser.Outcome | src/Version/VersionParser.php:221-245 | Bounds that agree give the single constraint with the operator written; bounds that differ give `< upper` alone or `>= lower , < upper`, with the upper bound joined by dots |
| VersionParser.LooselyDifferent | src/Version/VersionParser.php:222 | Loosely different segments are different texts, and numerals of the same value, such as `01` and `1`, are never loosely different |
| VersionParser.ParseConstraintsSteps | src/Version/VersionParser.php:83-245 | parseConstraints as the source runs it equals the specification function |
| VersionParser.TermSteps | src/Version/VersionParser.php:132-219 | The steps on a matched term equal the function that reads it |
| VersionParser.ScanSteps | src/Version/VersionParser.php:221-243 | The scan over the slots gives the single constraint, the lone `<` constraint or the range |
| VersionParser.SplitInTwo | src/Version/VersionParser.php:92-104 | Exactly two comma pieces, or else exactly two pipe pieces, parse as a pair: OK exactly when both pieces are, the first failure reported, and the pieces rejoined give the text |
| VersionParser.TermShape | src/Version/VersionParser.php:221-243 | A term gives a single constraint or the range `>=`, `<` joined by AND |
| VersionParser.UnsplitIsTerm | src/Version/VersionParser.php:106-243 | Text not split in two, whatever its commas or pipes, gives Everything, a single constraint, or the AND range |
| VersionParser.OrNeedsOnePipe | src/Version/VersionParser.php:92-104 | An OR only comes from exactly two pipe pieces and not exactly two comma pieces |
| VersionParser.DifferentBounds | src/Version/VersionParser.php:229-239 | Bounds that differ give `<upper` alone for the version 0.0.0.0 and the range otherwise |
| VersionParser.TermBounds | src/Version/VersionParser.php:149-219 | Without a suffix, the version is the lower bound joined by dots |
| VersionParser.ExactTerm | src/Version/VersionParser.php:132-243 | Numerals under an operator but `~` give that single constraint, zero-filled and dot-joined |
| VersionParser.TildeTerm | src/Version/VersionParser.php:156-239 | `~` before numerals gives the range up to the tilde bound, or `<` that bound from 0.0.0.0 |
| VersionParser.WildcardTerm | src/Version/VersionParser.php:186-239 | Numerals then a wildcard give the range up to the last numeral plus one, or `<` that bound from 0.0.0.0 |
| VersionParser.TokenAt | src/Version/VersionParser.php:12-13 | What the alternation captures at a position is one of its tokens |
| VersionParser.MatchAt | src/Version/VersionParser.php:12-13 | The same with the optional separator tried first |
| VersionParser.Search | src/Version/VersionParser.php:249-252 | The unanchored search captures one of the tokens |
| VersionParser.SearchIsFirstToken | src/Version/VersionParser.php:247-252 | The search captures the first token of the alternation at the leftmost position where any token is written |
| VersionParser.NoTokenAtSeparator | src/Version/VersionParser.php:12-13 | No token starts at `-` or `.`, so taking the separator never moves the match |
| VersionParser.FirstTokenNone | src/Version/VersionParser.php:249-268 | The search finds nothing exactly when no token is written anywhere |
| VersionParser.ChannelOf | src/Version/VersionParser.php:252-265 | A token names stable, beta, alpha, RC or p, and stable exactly for pl and patch |
| VersionParser.RcChannel | src/Version/VersionParser.php:262-264 | Every spelling of rc names RC |
| VersionParser.ParseStability | src/Version/VersionParser.php:247-269 | parseStability returns one of stable, beta, alpha, RC and p |
| VersionParser.StabilityChannels | src/Version/VersionParser.php:247-269 | parseStability returns one of five channels, and stable exactly when no token is found or the first is pl or patch |
| VersionParser.NoTokenIsStable | src/Version/VersionParser.php:266-268 | A text without any token is stable |
| Scanner.MatchWithV | src/Version/Version.php:60-69 | A match captures four segment groups and a suffix made of a pattern token |
| Scanner.MatchSegments | src/Version/Version.php:62-65 | Every captured group is empty, a digit run, or a wildcard of the pattern |
| Scanner.MatchNeedsSegmentChar | src/Version/Version.php:88-90 | A non-empty capture needs a digit or a wildcard in the text |
| Scanner.MatchOfGroups | src/Version/Version.php:60-69 | The groups chosen in PCRE's order, followed by a suffix that reaches the end, are the match |
| Scanner.MatchWithVDotted | src/Version/Version.php:60-69 | Dotted numerals followed by an accepted tail are captured one per group, in order |
| Scanner.MatchFromDotted | src/Version/Constraint.php:67-78 | The unprefixed pattern captures dotted numerals that reach the end, one per group, with no suffix |
| Scanner.Separated | src/Version/Version.php:62-64 | An optional group's separator follows a digit run or a wildcard, and is one of that group's separators |
| Scanner.NumberTail | src/Version/Version.php:66 | The number after a token is a digit run |
| Scanner.TailAtEnd | src/Version/Version.php:66-67 | The optional suffix matches nothing at the end of the text |
| Scanner.GroupsAbsent | src/Version/Version.php:62-64 | An optional group is absent exactly when its present form cannot complete the match |
| Scanner.DigitRun | src/Version/Version.php:62 | `\d+` takes the longest run of digits |
| Text.Split | src/Version/Constraint.php:37-42 | explode gives at least one piece, and no piece contains the separator |
| Text.Join | src/Version/Constraint/MultiConstraint.php:15 | implode's result is at least as long as its first piece, and its length is the sum of the pieces' lengths plus one separator between each pair of neighbours |
| Text.Trim | src/Version/Constraint.php:31 | trim's result is no longer than the text, and neither starts nor ends with a character trim removes |
| Text.TrimSpec | src/Version/Constraint.php:31 | trim's result is a contiguous slice of the text, and every character of the text outside that slice is one trim removes; with Text.Trim's ends, the slice is the largest such |
| Text.JoinAppend | src/Version/Constraint/MultiConstraint.php:15 | implode of two nonempty lists placed one after the other is the first list's implode, the separator, then the second's |
| Text.ToLower | src/Version/Stability.php:26 | strtolower keeps the length and leaves no capital letter |
| Text.JoinSplit | src/Version/Constraint.php:37-42 | implode undoes explode |
| Text.SplitPieces | src/Version/Constraint.php:37-46 | explode gives one piece exactly when the separator is absent, and otherwise pieces each shorter than the text |
| Text.ValueOfNatToText | src/Version/Constraint.php:116 | The numeral written for n has value n |

## Left out

- src/Version/Constraint/VersionConstraint.php is not part of this model. Its `match` delegates to
  PHP's `version_compare`, whose semantics are not visible. `parseConstraints` is modelled up to
  the arguments it passes to the constraint classes: the `Legacy` datatype.
- src/Version/Constraint/EmptyConstraint.php is a constant stub whose parent class is not visible.
  It appears only as the `Everything` result.
- src/Version/Compare.php is a two-line wrapper over `Version::parse` and `Version::compare`.
- The getters and public setters of `Version` are not separate members. `Version` is a value, and
  the setter sequence in `parse` is a method that updates a fresh value field by field, so
  aliasing between version objects is not modelled.
- Regular expressions are explicit scanners. The `|` quirks of the character classes are kept:
  `|` separates segments in `Version::parse` (Version.php:62-63) and counts as a wildcard in the
  wildcard-only test (Constraint.php:57-60 and VersionParser.php:107-110).
- `Stability`'s date alternative is accepted and ignored, because its capture is never read.
- The debug branches of `parseConstraints` (VersionParser.php:180-182 and 223-228) are left out.
  They only run for an impossible segment count and for the literal input `<=1.2.3`.
- Segments are digit strings compared by value. An absent micro and an absent stability number
  compare as 0. PHP's `null` versus `"0"` ordering is not reproduced.
- Exception messages are not modelled. The failure kind and its argument are: the input text,
  the operator and its hint, the unknown label, or not-implemented.
- ConstraintParser.FromTerm: a term with a wildcard in the first slot (`x.1`, `~x`) or a capital
  `X` segment fails with the invalid-format failure. The source would build a `Version` with a
  non-numeric major.
- ConstraintParser.Bump: `++` is modelled for numerals and for `x`/`y`/`X`/`Y`, and leaves `*`
  unchanged. A slot is bumped at most twice, so PHP's step from `z` to `aa` never arises.
- Constraints.SimpleMatches and Constraints.SimpleSubset accept a combinator on the right of a
  single bound (SimpleConstraint.php:100-102 and 182-189). `SimpleMatches` asks the children
  in turn, all of them for AND and any of them for OR. `SimpleSubset` requires every child,
  whatever the combinator, as SimpleConstraint.php:182-189 is written. As written,
  `MultiConstraint` does not extend `Constraint` (MultiConstraint.php:5), so passing one to these
  type-hinted methods is a PHP type error, and `getConstraints` (SimpleConstraint.php:183) is
  not defined anywhere.
- ConstraintParser.Bump and VersionParser.FromTerm count with unbounded integers. PHP's `++` on
  a numeral of `PHP_INT_MAX` or more (Constraint.php:116-146, VersionParser.php:170-201) turns
  the slot into a float, which prints in exponent form; the model prints the next numeral.
- Versions.Render prints the micro of a regular version as its unbounded value. PHP's
  `(int)` cast (Version.php:225) saturates at `PHP_INT_MAX` on 64-bit builds, so a micro with
  more than 19 digits prints differently there.
- Constraints.Matches with a combinator on the left asks the children in turn: all of them for
  AND, any of them for OR. Constraints.IsSubsetOf with anything but a single bound on the left
  fails as not implemented. `MultiConstraint.php` has no `matches`, `isSubsetOf` or
  `getConstraints`, so neither case has visible source behaviour.
- Versions.ParseDotted, Versions.RenderRegular and Versions.RenderDate state `parse` for numerals
  joined by dots. Numerals joined by the other separators the pattern allows between the first
  three segments (Version.php:62-63), such as `20100102-203040-p1`, are covered by the
  specification function `Versions.Parse` and by the single example
  `Versions.RenderPatchDateExample`, not by an all-inputs lemma.
- VersionParser.NormalizeDotted and VersionParser.NormalizePlain state `normalize` for
  dot-joined input only. Dash-joined input and the `-`/`.` separator choices are covered only by
  the general specification function `VersionParser.Normalize`.
- VersionParser.Normalize: both failures, the empty text and the text outside the pattern, are
  reported as the invalid-format failure of the input.
- VersionParser.LooselyDifferent models PHP 8's loose `!=` on two segments. A numeral never
  meets a wildcard in the same slot, so older PHP versions would give the same results.
- The test rows for upper-case stability in `Version::parse` (tests/Version/VersionTest.php:26-28,
  96, 101) fail under the code as written, because its pattern has no `/i` flag. The model follows
  the code.
- The test rows with a combinator on the left of `isSubsetOf` or `matches` depend on a
  `MultiConstraint` that is not visible, and are not modelled.
