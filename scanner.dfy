/** Explicit scanners for the anchored version patterns of the library. Every pattern has the
    shape  (SEG SEP)? (SEG SEP)? (SEG SEP)? SEG? SUFFIX? $  and PCRE tries each optional group
    present before absent and each digit run longest first; these functions make the same
    choices in the same order, so they return the captures preg_match would return. */
module Scanner {
  import opened Text
  import opened Wrappers

  /** A stability token of a pattern: its lower-case word, and whether the pattern carries the
      /i modifier, under which each letter also matches its capital. */
  datatype Token = Token(word: string, anyCase: bool)

  /** The optional stability suffix that was matched, if any. */
  datatype Suffix =
    | NoSuffix
    | Label(token: string, number: string)   // the stability token and its trailing digits
    | Date                                   // the YYYY-MM-DD alternative, whose capture nobody reads

  /** The four segment captures ("" for a group that took no part) and the suffix. */
  datatype Captures = Captures(segments: seq<string>, suffix: Suffix)

  datatype Grammar = Grammar(
    separators: seq<set<char>>,  // accepted after each of the first three segment groups
    wildcards: set<char>,        // single characters accepted as a segment besides a digit run
    suffixSeparators: set<char>, // the optional character before the stability token
    tokens: seq<Token>,          // the stability alternation, in the order PCRE tries it
    date: bool)                  // whether the suffix has the YYYY-MM-DD alternative

  predicate ValidGrammar(g: Grammar)
  {
    |g.separators| == 3 && (forall c :: c in g.wildcards ==> !IsDigit(c))
  }

  /** What a segment group captures: nothing, a digit run, or one wildcard character. */
  predicate Segment(t: string, g: Grammar)
  {
    t == "" || IsNumeral(t) || (|t| == 1 && t[0] in g.wildcards)
  }

  /** `$` without the D modifier: the end of the text, or just before a final newline. */
  predicate AtEnd(s: string, i: nat)
  {
    i == |s| || (i + 1 == |s| && s[i] == '\n')
  }

  /** The length of the longest digit run starting at i. */
  function DigitRun(s: string, i: nat): (n: nat)
    requires i <= |s|
    ensures i + n <= |s| && (i + n == |s| || !IsDigit(s[i + n]))
    decreases |s| - i
  {
    if i < |s| && IsDigit(s[i]) then 1 + DigitRun(s, i + 1) else 0
  }

  lemma {:induction false} DigitRunDigits(s: string, i: nat)
    requires i <= |s|
    ensures AllDigits(s[i..i + DigitRun(s, i)])
    decreases |s| - i
  {
    if i < |s| && IsDigit(s[i]) {
      DigitRunDigits(s, i + 1);
      var run := s[i..i + DigitRun(s, i)];
      assert run[0] == s[i];
      assert forall m :: 1 <= m < |run| ==> run[m] == s[i + 1..i + 1 + DigitRun(s, i + 1)][m - 1];
    }
  }

  /** A prefix of a digit run is digits. */
  lemma DigitRunPrefix(s: string, i: nat, len: nat)
    requires i <= |s| && len <= DigitRun(s, i)
    ensures AllDigits(s[i..i + len])
  {
    DigitRunDigits(s, i);
    assert s[i..i + len] == s[i..i + DigitRun(s, i)][..len];
  }

  predicate Fits(s: string, i: nat, t: Token)
  {
    i + |t.word| <= |s| && Spells(s[i..i + |t.word|], t)
  }

  /** `\.?(\d*)$` after a stability token: the digits of the sub-revision. */
  function NumberTail(s: string, i: nat): (r: Option<string>)
    requires i <= |s|
    ensures r.Some? ==> AllDigits(r.value)
  {
    if i < |s| && s[i] == '.' && AtEnd(s, i + 1 + DigitRun(s, i + 1)) then
      DigitRunDigits(s, i + 1);
      Some(s[i + 1..i + 1 + DigitRun(s, i + 1)])
    else if AtEnd(s, i + DigitRun(s, i)) then
      DigitRunDigits(s, i);
      Some(s[i..i + DigitRun(s, i)])
    else None
  }

  /** t is spelled by token: exactly, or up to case under /i. */
  predicate Spells(t: string, token: Token)
  {
    if token.anyCase then ToLower(t) == token.word else t == token.word
  }

  /** t is spelled by one of the tokens. */
  predicate IsToken(t: string, tokens: seq<Token>)
    decreases |tokens|
  {
    tokens != [] && (Spells(t, tokens[0]) || IsToken(t, tokens[1..]))
  }

  /** A captured label is one of the alternation's tokens followed by digits. */
  predicate WellFormed(x: Suffix, tokens: seq<Token>)
  {
    x.Label? ==> AllDigits(x.number) && IsToken(x.token, tokens)
  }

  /** The first token of the alternation that fits at i and is followed by `\.?\d*$`. */
  function LabelAt(s: string, i: nat, tokens: seq<Token>): (r: Option<Suffix>)
    requires i <= |s|
    ensures r.Some? ==> r.value.Label?
    decreases |tokens|
  {
    if tokens == [] then None
    else if Fits(s, i, tokens[0]) && NumberTail(s, i + |tokens[0].word|).Some? then
      Some(Label(s[i..i + |tokens[0].word|], NumberTail(s, i + |tokens[0].word|).value))
    else LabelAt(s, i, tokens[1..])
  }

  predicate Month(a: char, b: char)
  {
    (a == '0' && '1' <= b <= '9') || (a == '1' && '0' <= b <= '2')
  }

  predicate Day(a: char, b: char)
  {
    (a == '0' && '1' <= b <= '9') || ('1' <= a <= '2' && IsDigit(b)) || (a == '3' && '0' <= b <= '1')
  }

  /** `[0-9]{4}-(0[1-9]|1[0-2])-(0[1-9]|[1-2][0-9]|3[0-1])` at i. */
  predicate IsDate(s: string, i: nat)
  {
    i + 10 <= |s| && IsDigit(s[i]) && IsDigit(s[i + 1]) && IsDigit(s[i + 2]) && IsDigit(s[i + 3])
    && s[i + 4] == '-' && Month(s[i + 5], s[i + 6]) && s[i + 7] == '-' && Day(s[i + 8], s[i + 9])
  }

  /** The suffix after its optional separator: a token, else the date; it must reach `$`. */
  function SuffixBody(s: string, i: nat, g: Grammar): Option<Suffix>
    requires i <= |s|
  {
    var l := LabelAt(s, i, g.tokens);
    if l.Some? then l
    else if g.date && IsDate(s, i) && AtEnd(s, i + 10) then Some(Date)
    else None
  }

  /** The optional separator is tried consumed first. */
  function SuffixAt(s: string, i: nat, g: Grammar): Option<Suffix>
    requires i <= |s|
  {
    if i < |s| && s[i] in g.suffixSeparators && SuffixBody(s, i + 1, g).Some? then SuffixBody(s, i + 1, g)
    else SuffixBody(s, i, g)
  }

  /** `SUFFIX? $` from i. */
  function Tail(s: string, i: nat, g: Grammar): Option<Suffix>
    requires i <= |s|
  {
    var x := SuffixAt(s, i, g);
    if x.Some? then x
    else if AtEnd(s, i) then Some(NoSuffix)
    else None
  }

  /** A label the suffix scanner finds is a token of the alternation followed by digits. */
  lemma {:induction false} LabelAtWellFormed(s: string, i: nat, tokens: seq<Token>)
    requires i <= |s|
    ensures LabelAt(s, i, tokens).Some? ==> WellFormed(LabelAt(s, i, tokens).value, tokens)
    decreases |tokens|
  {
    if tokens != [] && !(Fits(s, i, tokens[0]) && NumberTail(s, i + |tokens[0].word|).Some?) {
      LabelAtWellFormed(s, i, tokens[1..]);
    }
  }

  lemma TailWellFormed(s: string, i: nat, g: Grammar)
    requires i <= |s|
    ensures Tail(s, i, g).Some? ==> WellFormed(Tail(s, i, g).value, g.tokens)
  {
    LabelAtWellFormed(s, i, g.tokens);
    if i < |s| {
      LabelAtWellFormed(s, i + 1, g.tokens);
    }
  }

  /** `SUFFIX? $` matches from p: the continuation the segment groups hand over to. */
  function TailAccepts(s: string, g: Grammar): nat -> bool
  {
    (p: nat) => p <= |s| && Tail(s, p, g).Some?
  }

  /** A capture by position, the text s[from..to]; a group that took no part captures nothing. */
  datatype Cut = Cut(from: nat, to: nat)

  /** What the segment groups matched: one cut per group, and the position where the rest of
      the pattern took over. */
  datatype Span = Span(cuts: seq<Cut>, end: nat)

  /** The last, unseparated segment group: the digit run of length len at i first, then shorter
      runs, then the group left out; accept says whether the rest of the pattern matches from a
      position. */
  function LastFrom(s: string, i: nat, len: nat, accept: nat -> bool): (r: Option<Span>)
    requires i + len <= |s|
    ensures r.Some? ==> r.value.cuts == [Cut(i, r.value.end)] && i <= r.value.end <= i + len && accept(r.value.end)
    decreases len
  {
    if len == 0 then
      if accept(i) then Some(Span([Cut(i, i)], i)) else None
    else if accept(i + len) then Some(Span([Cut(i, i + len)], i + len))
    else LastFrom(s, i, len - 1, accept)
  }

  function LastGroup(s: string, i: nat, g: Grammar, accept: nat -> bool): (r: Option<Span>)
    requires i <= |s|
    ensures r.Some? ==> r.value.cuts == [Cut(i, r.value.end)] && i <= r.value.end <= |s| && accept(r.value.end)
  {
    var n := DigitRun(s, i);
    if n > 0 then LastFrom(s, i, n, accept)
    else if i < |s| && s[i] in g.wildcards && accept(i + 1) then Some(Span([Cut(i, i + 1)], i + 1))
    else LastFrom(s, i, 0, accept)
  }

  /** The end of a segment at i that the k-th separator follows. A shorter digit run would be
      followed by a digit, so only the longest one can succeed. */
  function Separated(s: string, i: nat, k: nat, g: Grammar): (e: Option<nat>)
    requires i <= |s| && k < 3 && ValidGrammar(g)
    ensures e.Some? ==> i < e.value < |s| && s[e.value] in g.separators[k]
  {
    var n := DigitRun(s, i);
    var m := if n > 0 then n else if i < |s| && s[i] in g.wildcards then 1 else 0;
    if m > 0 && i + m < |s| && s[i + m] in g.separators[k] then Some(i + m) else None
  }

  /** The segment groups k..3 from i, followed by whatever accept stands for. */
  function Groups(s: string, i: nat, k: nat, g: Grammar, accept: nat -> bool): (r: Option<Span>)
    requires i <= |s| && k <= 3 && ValidGrammar(g)
    ensures r.Some? ==> |r.value.cuts| == 4 - k && i <= r.value.end <= |s| && accept(r.value.end)
    decreases 3 - k
  {
    if k == 3 then LastGroup(s, i, g, accept)
    else
      var e := Separated(s, i, k, g);
      var present := if e.Some? then Groups(s, e.value + 1, k + 1, g, accept) else None;
      if present.Some? then Some(Span([Cut(i, e.value)] + present.value.cuts, present.value.end))
      else
        var absent := Groups(s, i, k + 1, g, accept);
        if absent.Some? then Some(Span([Cut(i, i)] + absent.value.cuts, absent.value.end)) else None
  }

  /** The segment groups with an optional leading `v`, tried consumed first. */
  function GroupsWithV(s: string, g: Grammar, accept: nat -> bool): (r: Option<Span>)
    requires ValidGrammar(g)
    ensures r.Some? ==> |r.value.cuts| == 4 && r.value.end <= |s| && accept(r.value.end)
  {
    if |s| > 0 && s[0] == 'v' && Groups(s, 1, 0, g, accept).Some? then Groups(s, 1, 0, g, accept)
    else Groups(s, 0, 0, g, accept)
  }

  /** Every cut is a slice of the text. */
  predicate InText(s: string, cuts: seq<Cut>)
  {
    forall m :: 0 <= m < |cuts| ==> cuts[m].from <= cuts[m].to <= |s|
  }

  /** The text of each cut. */
  function Texts(s: string, cuts: seq<Cut>): (r: seq<string>)
    requires InText(s, cuts)
    ensures |r| == |cuts|
  {
    if cuts == [] then [] else [s[cuts[0].from..cuts[0].to]] + Texts(s, cuts[1..])
  }

  /** The whole pattern: the groups, then the suffix the rest of the text matches. */
  function MatchWithV(s: string, g: Grammar): (r: Option<Captures>)
    requires ValidGrammar(g)
    ensures r.Some? ==> |r.value.segments| == 4 && WellFormed(r.value.suffix, g.tokens)
  {
    var m := GroupsWithV(s, g, TailAccepts(s, g));
    GroupsWithVSegments(s, g, TailAccepts(s, g));
    if m.Some? then
      TextsSegments(s, m.value.cuts, g);
      TailWellFormed(s, m.value.end, g);
      Some(Captures(Texts(s, m.value.cuts), Tail(s, m.value.end, g).value)) else None
  }

  /** A cut the segment groups may make: empty, a prefix of the digit run where it starts, or a
      single wildcard. */
  predicate SegmentCut(s: string, c: Cut, g: Grammar)
  {
    c.from <= c.to <= |s|
    && (c.to - c.from <= DigitRun(s, c.from) || (c.to == c.from + 1 && s[c.from] in g.wildcards))
  }

  predicate SegmentCuts(s: string, cuts: seq<Cut>, g: Grammar)
  {
    forall m :: 0 <= m < |cuts| ==> SegmentCut(s, cuts[m], g)
  }

  lemma SegmentCutsCons(s: string, c: Cut, cuts: seq<Cut>, g: Grammar)
    requires SegmentCut(s, c, g) && SegmentCuts(s, cuts, g)
    ensures SegmentCuts(s, [c] + cuts, g)
  {
    assert forall m :: 1 <= m <= |cuts| ==> ([c] + cuts)[m] == cuts[m - 1];
  }

  /** The text of such a cut is a segment. */
  lemma CutSegment(s: string, c: Cut, g: Grammar)
    requires SegmentCut(s, c, g)
    ensures Segment(s[c.from..c.to], g)
  {
    if c.to - c.from <= DigitRun(s, c.from) {
      DigitRunPrefix(s, c.from, c.to - c.from);
    }
  }

  lemma LastGroupSegment(s: string, i: nat, g: Grammar, accept: nat -> bool)
    requires i <= |s|
    ensures LastGroup(s, i, g, accept).Some? ==> SegmentCuts(s, LastGroup(s, i, g, accept).value.cuts, g)
  {
  }

  /** PCRE leaves group k out when it cannot stay present and the groups after it match from i. */
  lemma GroupsAbsent(s: string, i: nat, k: nat, g: Grammar, accept: nat -> bool)
    requires ValidGrammar(g) && k < 3 && i <= |s|
    requires Separated(s, i, k, g).Some? ==> Groups(s, Separated(s, i, k, g).value + 1, k + 1, g, accept) == None
    ensures Groups(s, i, k + 1, g, accept).Some? ==>
      Groups(s, i, k, g, accept) == Some(Span([Cut(i, i)] + Groups(s, i, k + 1, g, accept).value.cuts, Groups(s, i, k + 1, g, accept).value.end))
    ensures Groups(s, i, k + 1, g, accept) == None ==> Groups(s, i, k, g, accept) == None
  {
    assert k != 3;
  }

  lemma {:induction false} GroupsSegments(s: string, i: nat, k: nat, g: Grammar, accept: nat -> bool)
    requires i <= |s| && k <= 3 && ValidGrammar(g)
    ensures Groups(s, i, k, g, accept).Some? ==> SegmentCuts(s, Groups(s, i, k, g, accept).value.cuts, g)
    decreases 3 - k
  {
    if k == 3 {
      LastGroupSegment(s, i, g, accept);
    } else {
      var e := Separated(s, i, k, g);
      var present := if e.Some? then Groups(s, e.value + 1, k + 1, g, accept) else None;
      if present.Some? {
        GroupsSegments(s, e.value + 1, k + 1, g, accept);
        SegmentCutsCons(s, Cut(i, e.value), present.value.cuts, g);
        GroupsPresent(s, i, k, g, accept, e.value, present.value);
      } else {
        var absent := Groups(s, i, k + 1, g, accept);
        GroupsSegments(s, i, k + 1, g, accept);
        GroupsAbsent(s, i, k, g, accept);
        if absent.Some? {
          SegmentCutsCons(s, Cut(i, i), absent.value.cuts, g);
        }
      }
    }
  }

  lemma GroupsWithVSegments(s: string, g: Grammar, accept: nat -> bool)
    requires ValidGrammar(g)
    ensures GroupsWithV(s, g, accept).Some? ==> SegmentCuts(s, GroupsWithV(s, g, accept).value.cuts, g)
  {
    if |s| > 0 {
      GroupsSegments(s, 1, 0, g, accept);
    }
    GroupsSegments(s, 0, 0, g, accept);
  }

  /** Cuts the groups may make lie in the text, and their texts are segments. */
  lemma {:induction false} TextsSegments(s: string, cuts: seq<Cut>, g: Grammar)
    requires SegmentCuts(s, cuts, g)
    ensures InText(s, cuts) && forall m :: 0 <= m < |cuts| ==> Segment(Texts(s, cuts)[m], g)
    decreases |cuts|
  {
    if cuts != [] {
      TextsSegments(s, cuts[1..], g);
      CutSegment(s, cuts[0], g);
      assert forall m :: 1 <= m < |cuts| ==> Texts(s, cuts)[m] == Texts(s, cuts[1..])[m - 1];
    }
  }

  /** The captures of a match are empty, digit runs or single wildcards. */
  lemma MatchSegments(s: string, g: Grammar)
    requires ValidGrammar(g)
    ensures MatchWithV(s, g).Some? ==> forall j :: 0 <= j < 4 ==> Segment(MatchWithV(s, g).value.segments[j], g)
  {
    var m := GroupsWithV(s, g, TailAccepts(s, g));
    GroupsWithVSegments(s, g, TailAccepts(s, g));
    if m.Some? {
      TextsSegments(s, m.value.cuts, g);
    }
  }

  /** Each capture is the slice of its cut. */
  lemma {:induction false} TextsAt(s: string, cuts: seq<Cut>)
    requires InText(s, cuts)
    ensures forall m :: 0 <= m < |cuts| ==> Texts(s, cuts)[m] == s[cuts[m].from..cuts[m].to]
    decreases |cuts|
  {
    if cuts != [] {
      TextsAt(s, cuts[1..]);
      assert forall m :: 1 <= m < |cuts| ==> Texts(s, cuts)[m] == Texts(s, cuts[1..])[m - 1];
    }
  }

  /** A segment that took part starts with a digit or a wildcard of the text. */
  lemma MatchNeedsSegmentChar(s: string, g: Grammar, j: nat)
    requires ValidGrammar(g) && j < 4
    requires MatchWithV(s, g).Some? && MatchWithV(s, g).value.segments[j] != ""
    ensures exists k :: 0 <= k < |s| && (IsDigit(s[k]) || s[k] in g.wildcards)
  {
    var m := GroupsWithV(s, g, TailAccepts(s, g));
    GroupsWithVSegments(s, g, TailAccepts(s, g));
    TextsSegments(s, m.value.cuts, g);
    TextsAt(s, m.value.cuts);
    var c := m.value.cuts[j];
    assert s[c.from..c.to] != "";
    assert SegmentCut(s, c, g);
    assert IsDigit(s[c.from]) || s[c.from] in g.wildcards;
  }

  /** The match reads its captures off the cuts of the segment groups, with a `v` consumed
      exactly when one leads the text. */
  lemma MatchOfGroups(s: string, g: Grammar, i: nat, cuts: seq<Cut>, j: nat, segments: seq<string>, x: Suffix)
    requires ValidGrammar(g) && i <= 1 && i <= |s|
    requires (i == 1) == (|s| > 0 && s[0] == 'v')
    requires Groups(s, i, 0, g, TailAccepts(s, g)) == Some(Span(cuts, j))
    requires InText(s, cuts) && Texts(s, cuts) == segments
    requires j <= |s| && Tail(s, j, g) == Some(x)
    ensures MatchWithV(s, g) == Some(Captures(segments, x))
  {
  }

  /** Every stability token has at least one character. */
  predicate NonEmptyTokens(tokens: seq<Token>)
  {
    forall k :: 0 <= k < |tokens| ==> |tokens[k].word| > 0
  }

  lemma {:induction false} NoLabelAtEnd(s: string, tokens: seq<Token>)
    requires NonEmptyTokens(tokens)
    ensures LabelAt(s, |s|, tokens) == None
    decreases |tokens|
  {
    if tokens != [] {
      NoLabelAtEnd(s, tokens[1..]);
    }
  }

  /** At the end of the text only `$` is left: no suffix. */
  lemma TailAtEnd(s: string, g: Grammar)
    requires NonEmptyTokens(g.tokens)
    ensures Tail(s, |s|, g) == Some(NoSuffix)
  {
    NoLabelAtEnd(s, g.tokens);
  }

  lemma {:induction false} DigitRunTo(s: string, i: nat, j: nat)
    requires i <= j <= |s|
    requires forall k :: i <= k < j ==> IsDigit(s[k])
    requires j == |s| || !IsDigit(s[j])
    ensures DigitRun(s, i) == j - i
    decreases j - i
  {
    if i < j {
      DigitRunTo(s, i + 1, j);
    }
  }

  /** The cuts of n groups that took no part at i, then the cut i..j of the unseparated group. */
  function Lead(i: nat, j: nat, n: nat): (r: seq<Cut>)
    ensures |r| == n + 1
  {
    if n == 0 then [Cut(i, j)] else [Cut(i, i)] + Lead(i, j, n - 1)
  }

  /** A digit run that is the last segment written: the groups from k on take no part except
      the unseparated one, which takes the whole run. */
  lemma {:induction false} GroupsLast(s: string, i: nat, j: nat, k: nat, g: Grammar, accept: nat -> bool)
    requires ValidGrammar(g) && k <= 3
    requires i < j <= |s| && DigitRun(s, i) == j - i
    requires j == |s| || forall m :: k <= m < 3 ==> s[j] !in g.separators[m]
    requires accept(j)
    ensures Groups(s, i, k, g, accept) == Some(Span(Lead(i, j, 3 - k), j))
    decreases 3 - k
  {
    if k < 3 {
      assert Separated(s, i, k, g) == None;
      GroupsLast(s, i, j, k + 1, g, accept);
    }
  }

  /** s[i..j] spells the numerals in order, each followed by a dot except the last. */
  predicate DottedAt(s: string, i: nat, j: nat, parts: seq<string>)
    decreases |parts|
  {
    i <= j <= |s| && |parts| >= 1 && IsNumeral(parts[0]) &&
    if |parts| == 1 then s[i..j] == parts[0]
    else
      i + |parts[0]| < j && s[i..i + |parts[0]|] == parts[0] && s[i + |parts[0]|] == '.'
      && DottedAt(s, i + |parts[0]| + 1, j, parts[1..])
  }

  /** Text made of numerals joined by dots is dotted at every position it occupies. */
  lemma {:induction false} JoinIsDotted(s: string, i: nat, j: nat, parts: seq<string>)
    requires 1 <= |parts| && forall m :: 0 <= m < |parts| ==> IsNumeral(parts[m])
    requires i <= j <= |s| && s[i..j] == Join(parts, ".")
    ensures DottedAt(s, i, j, parts)
    decreases |parts|
  {
    if |parts| > 1 {
      SliceAround(s, i, j, parts[0], '.', Join(parts[1..], "."));
      JoinIsDotted(s, i + |parts[0]| + 1, j, parts[1..]);
    }
  }

  /** Where a slice is a word, a character and the rest, so are the pieces of the text. */
  lemma SliceAround(s: string, i: nat, j: nat, w: string, c: char, rest: string)
    requires i <= j <= |s| && s[i..j] == w + [c] + rest
    ensures i + |w| < j && s[i..i + |w|] == w && s[i + |w|] == c && s[i + |w| + 1..j] == rest
  {
    assert s[i..j][..|w|] == w;
    assert s[i..j][|w|] == c;
    assert s[i..j][|w| + 1..] == rest;
  }

  /** The captures of n groups that took no part, then the capture t of the unseparated group. */
  function Padded(t: string, n: nat): (r: seq<string>)
    ensures |r| == n + 1 && r[n] == t
  {
    if n == 0 then [t] else [""] + Padded(t, n - 1)
  }

  /** The captures of dotted numerals from group k on: each numeral but the last fills the next
      group, the groups left over take no part, and the last numeral fills the unseparated group. */
  function Fill(parts: seq<string>, k: nat): (r: seq<string>)
    requires 1 <= |parts| && k + |parts| <= 4
    ensures |r| == 4 - k && r[3 - k] == parts[|parts| - 1]
    decreases |parts|
  {
    if |parts| == 1 then Padded(parts[0], 3 - k) else [parts[0]] + Fill(parts[1..], k + 1)
  }

  /** The cuts of dotted numerals from group k on, the last one ending at j: each numeral but the
      last fills the next group, the groups left over take no part, and the last numeral fills
      the unseparated group. */
  function DottedCuts(i: nat, j: nat, parts: seq<string>, k: nat): (r: seq<Cut>)
    requires 1 <= |parts| && k + |parts| <= 4
    ensures |r| == 4 - k
    decreases |parts|
  {
    if |parts| == 1 then Lead(i, j, 3 - k)
    else [Cut(i, i + |parts[0]|)] + DottedCuts(i + |parts[0]| + 1, j, parts[1..], k + 1)
  }

  /** Group k takes parts[0] and its separator, group k+1 the next numeral, and so on up to
      the last numeral, which is left to the groups that follow. */
  predicate Chain(s: string, i: nat, parts: seq<string>, k: nat, g: Grammar)
    decreases |parts|
  {
    ValidGrammar(g) && |parts| >= 1 && i <= |s| && k + |parts| <= 4 &&
    (|parts| == 1 ||
      (Separated(s, i, k, g) == Some(i + |parts[0]|) && Chain(s, i + |parts[0]| + 1, parts[1..], k + 1, g)))
  }

  /** Where the last of dotted numerals starts. */
  function LastStart(i: nat, parts: seq<string>): nat
    requires |parts| >= 1
    decreases |parts|
  {
    if |parts| == 1 then i else LastStart(i + |parts[0]| + 1, parts[1..])
  }

  /** PCRE keeps a group present when the rest of the pattern matches after it. */
  lemma GroupsPresent(s: string, i: nat, k: nat, g: Grammar, accept: nat -> bool, e: nat, later: Span)
    requires ValidGrammar(g) && k < 3 && i <= |s|
    requires Separated(s, i, k, g) == Some(e)
    requires Groups(s, e + 1, k + 1, g, accept) == Some(later)
    ensures Groups(s, i, k, g, accept) == Some(Span([Cut(i, e)] + later.cuts, later.end))
  {
    assert k != 3 && Separated(s, i, k, g).value == e;
    var present := Groups(s, e + 1, k + 1, g, accept);
    assert present.Some?;
  }

  /** Every group of a chain stays present once the groups after the chain match. */
  lemma {:induction false} GroupsChain(s: string, i: nat, j: nat, parts: seq<string>, k: nat, g: Grammar, accept: nat -> bool)
    requires Chain(s, i, parts, k, g) && LastStart(i, parts) <= |s|
    requires Groups(s, LastStart(i, parts), k + |parts| - 1, g, accept)
      == Some(Span(Lead(LastStart(i, parts), j, 3 - (k + |parts| - 1)), j))
    ensures Groups(s, i, k, g, accept) == Some(Span(DottedCuts(i, j, parts, k), j))
    decreases |parts|
  {
    if |parts| > 1 {
      var e := i + |parts[0]|;
      var rest := parts[1..];
      assert LastStart(e + 1, rest) == LastStart(i, parts);
      assert k + 1 + |rest| - 1 == k + |parts| - 1;
      GroupsChain(s, e + 1, j, rest, k + 1, g, accept);
      GroupsChainStep(s, i, j, parts, k, g, accept);
    }
  }

  lemma GroupsChainStep(s: string, i: nat, j: nat, parts: seq<string>, k: nat, g: Grammar, accept: nat -> bool)
    requires ValidGrammar(g) && 1 < |parts| && k + |parts| <= 4 && i <= |s|
    requires Separated(s, i, k, g) == Some(i + |parts[0]|)
    requires Groups(s, i + |parts[0]| + 1, k + 1, g, accept) == Some(Span(DottedCuts(i + |parts[0]| + 1, j, parts[1..], k + 1), j))
    ensures Groups(s, i, k, g, accept) == Some(Span(DottedCuts(i, j, parts, k), j))
  {
    var e := i + |parts[0]|;
    GroupsPresent(s, i, k, g, accept, e, Span(DottedCuts(e + 1, j, parts[1..], k + 1), j));
  }

  /** Dotted numerals in the text form a chain, and the last one is a whole digit run. */
  lemma {:induction false} DottedChain(s: string, i: nat, j: nat, parts: seq<string>, k: nat, g: Grammar)
    requires ValidGrammar(g) && k + |parts| <= 4
    requires forall m :: k <= m < 3 ==> '.' in g.separators[m]
    requires DottedAt(s, i, j, parts)
    requires j == |s| || !IsDigit(s[j])
    ensures Chain(s, i, parts, k, g)
    ensures LastStart(i, parts) < j && DigitRun(s, LastStart(i, parts)) == j - LastStart(i, parts)
    decreases |parts|
  {
    if |parts| > 1 {
      SeparatedDotted(s, i, j, parts, k, g);
      DottedChain(s, i + |parts[0]| + 1, j, parts[1..], k + 1, g);
    } else {
      assert forall m :: i <= m < j ==> s[m] == parts[0][m - i];
      DigitRunTo(s, i, j);
    }
  }

  /** The captures of dotted numerals are the numerals, with the groups that took no part empty. */
  lemma {:induction false} DottedTexts(s: string, i: nat, j: nat, parts: seq<string>, k: nat)
    requires k + |parts| <= 4 && DottedAt(s, i, j, parts)
    ensures InText(s, DottedCuts(i, j, parts, k))
    ensures Texts(s, DottedCuts(i, j, parts, k)) == Fill(parts, k)
    decreases |parts|
  {
    if |parts| > 1 {
      assert s[i..i + |parts[0]|] == parts[0] && DottedAt(s, i + |parts[0]| + 1, j, parts[1..]);
      DottedTexts(s, i + |parts[0]| + 1, j, parts[1..], k + 1);
      DottedTextsStep(s, i, j, parts, k);
    } else {
      assert s[i..j] == parts[0];
      LeadTexts(s, i, j, 3 - k);
    }
  }

  lemma DottedTextsStep(s: string, i: nat, j: nat, parts: seq<string>, k: nat)
    requires k + |parts| <= 4 && |parts| > 1 && i + |parts[0]| <= |s| && s[i..i + |parts[0]|] == parts[0]
    requires InText(s, DottedCuts(i + |parts[0]| + 1, j, parts[1..], k + 1))
    requires Texts(s, DottedCuts(i + |parts[0]| + 1, j, parts[1..], k + 1)) == Fill(parts[1..], k + 1)
    ensures InText(s, DottedCuts(i, j, parts, k))
    ensures Texts(s, DottedCuts(i, j, parts, k)) == Fill(parts, k)
  {
    var e := i + |parts[0]|;
    var later := DottedCuts(e + 1, j, parts[1..], k + 1);
    TextsCons(s, Cut(i, e), later);
    assert DottedCuts(i, j, parts, k) == [Cut(i, e)] + later;
  }

  lemma TextsCons(s: string, c: Cut, cuts: seq<Cut>)
    requires c.from <= c.to <= |s| && InText(s, cuts)
    ensures InText(s, [c] + cuts) && Texts(s, [c] + cuts) == [s[c.from..c.to]] + Texts(s, cuts)
  {
    assert ([c] + cuts)[1..] == cuts;
  }

  lemma {:induction false} LeadTexts(s: string, i: nat, j: nat, n: nat)
    requires i <= j <= |s|
    ensures InText(s, Lead(i, j, n)) && Texts(s, Lead(i, j, n)) == Padded(s[i..j], n)
    decreases n
  {
    if n == 0 {
      TextsCons(s, Cut(i, j), []);
    } else {
      LeadTexts(s, i, j, n - 1);
      TextsCons(s, Cut(i, i), Lead(i, j, n - 1));
      assert s[i..i] == "";
    }
  }

  /** Numerals joined by dots, as they appear in a version, followed by what the rest of the
      pattern accepts: the groups are filled from the first one, the last numeral goes to the
      unseparated group, and the groups in between take no part. */
  lemma GroupsDotted(s: string, i: nat, j: nat, parts: seq<string>, k: nat, g: Grammar, accept: nat -> bool)
    requires Chain(s, i, parts, k, g)
    requires LastStart(i, parts) < j <= |s| && DigitRun(s, LastStart(i, parts)) == j - LastStart(i, parts)
    requires j == |s| || forall m :: k + |parts| - 1 <= m < 3 ==> s[j] !in g.separators[m]
    requires accept(j)
    ensures Groups(s, i, k, g, accept) == Some(Span(DottedCuts(i, j, parts, k), j))
  {
    GroupsLast(s, LastStart(i, parts), j, k + |parts| - 1, g, accept);
    GroupsChain(s, i, j, parts, k, g, accept);
  }

  /** The first of several dotted numerals fills group k; the rest follow its dot. */
  lemma SeparatedDotted(s: string, i: nat, j: nat, parts: seq<string>, k: nat, g: Grammar)
    requires ValidGrammar(g) && k < 3 && '.' in g.separators[k]
    requires DottedAt(s, i, j, parts) && |parts| >= 2
    ensures Separated(s, i, k, g) == Some(i + |parts[0]|)
    ensures DottedAt(s, i + |parts[0]| + 1, j, parts[1..])
  {
    var e := i + |parts[0]|;
    assert forall m :: i <= m < e ==> s[m] == parts[0][m - i];
    DigitRunTo(s, i, e);
  }

  /** The suffix scanners look only at the text from their position on: a prefix changes nothing. */
  lemma {:induction false} DigitRunShift(p: string, t: string, i: nat)
    requires i <= |t|
    ensures DigitRun(p + t, |p| + i) == DigitRun(t, i)
    decreases |t| - i
  {
    if i < |t| {
      assert (p + t)[|p| + i] == t[i];
      DigitRunShift(p, t, i + 1);
    }
  }

  lemma SliceShift(p: string, t: string, a: nat, b: nat)
    requires a <= b <= |t|
    ensures (p + t)[|p| + a..|p| + b] == t[a..b]
  {
  }

  lemma NumberTailShift(p: string, t: string, i: nat)
    requires i <= |t|
    ensures NumberTail(p + t, |p| + i) == NumberTail(t, i)
  {
    DigitRunShift(p, t, i);
    SliceShift(p, t, i, i + DigitRun(t, i));
    AtEndShift(p, t, i + DigitRun(t, i));
    if i < |t| {
      assert (p + t)[|p| + i] == t[i];
      DigitRunShift(p, t, i + 1);
      SliceShift(p, t, i + 1, i + 1 + DigitRun(t, i + 1));
      AtEndShift(p, t, i + 1 + DigitRun(t, i + 1));
    }
  }

  lemma AtEndShift(p: string, t: string, i: nat)
    requires i <= |t|
    ensures AtEnd(p + t, |p| + i) == AtEnd(t, i)
  {
    if i < |t| {
      assert (p + t)[|p| + i] == t[i];
    }
  }

  lemma FitsShift(p: string, t: string, i: nat, token: Token)
    ensures Fits(p + t, |p| + i, token) == Fits(t, i, token)
  {
    if i + |token.word| <= |t| {
      SliceShift(p, t, i, i + |token.word|);
    }
  }

  lemma {:induction false} LabelAtShift(p: string, t: string, i: nat, tokens: seq<Token>)
    requires i <= |t|
    ensures LabelAt(p + t, |p| + i, tokens) == LabelAt(t, i, tokens)
    decreases |tokens|
  {
    if tokens != [] {
      LabelAtShift(p, t, i, tokens[1..]);
      LabelAtShiftStep(p, t, i, tokens);
    }
  }

  lemma LabelAtShiftStep(p: string, t: string, i: nat, tokens: seq<Token>)
    requires i <= |t| && tokens != []
    requires LabelAt(p + t, |p| + i, tokens[1..]) == LabelAt(t, i, tokens[1..])
    ensures LabelAt(p + t, |p| + i, tokens) == LabelAt(t, i, tokens)
  {
    FitsShift(p, t, i, tokens[0]);
    if Fits(t, i, tokens[0]) {
      NumberTailShift(p, t, i + |tokens[0].word|);
      SliceShift(p, t, i, i + |tokens[0].word|);
    }
  }

  lemma SuffixBodyShift(p: string, t: string, i: nat, g: Grammar)
    requires i <= |t|
    ensures SuffixBody(p + t, |p| + i, g) == SuffixBody(t, i, g)
  {
    LabelAtShift(p, t, i, g.tokens);
    if i + 10 <= |t| {
      assert forall k :: |p| <= k < |p| + |t| ==> (p + t)[k] == t[k - |p|];
    }
    if i < |t| {
      assert (p + t)[|p| + i] == t[i];
    }
  }

  lemma TailShift(p: string, t: string, g: Grammar)
    ensures Tail(p + t, |p|, g) == Tail(t, 0, g)
  {
    SuffixBodyShift(p, t, 0, g);
    if 0 < |t| {
      assert (p + t)[|p|] == t[0];
      SuffixBodyShift(p, t, 1, g);
    }
  }

  /** A pattern without the leading `v`, anchored at i: the groups, then the suffix. */
  function MatchFrom(s: string, i: nat, g: Grammar): (r: Option<Captures>)
    requires ValidGrammar(g) && i <= |s|
    ensures r.Some? ==> |r.value.segments| == 4 && WellFormed(r.value.suffix, g.tokens)
  {
    var m := Groups(s, i, 0, g, TailAccepts(s, g));
    GroupsSegments(s, i, 0, g, TailAccepts(s, g));
    if m.Some? then
      TextsSegments(s, m.value.cuts, g);
      TailWellFormed(s, m.value.end, g);
      Some(Captures(Texts(s, m.value.cuts), Tail(s, m.value.end, g).value))
    else None
  }

  /** Four segment captures, each empty, a digit run or a single wildcard, and a suffix made
      of one of the grammar's tokens and digits. */
  predicate Captured(c: Captures, g: Grammar)
  {
    |c.segments| == 4 && (forall j :: 0 <= j < 4 ==> Segment(c.segments[j], g)) && WellFormed(c.suffix, g.tokens)
  }

  /** The captures of MatchFrom are empty, digit runs or single wildcards. */
  lemma MatchFromSegments(s: string, i: nat, g: Grammar)
    requires ValidGrammar(g) && i <= |s|
    ensures MatchFrom(s, i, g).Some? ==> Captured(MatchFrom(s, i, g).value, g)
  {
    var m := Groups(s, i, 0, g, TailAccepts(s, g));
    GroupsSegments(s, i, 0, g, TailAccepts(s, g));
    if m.Some? {
      TextsSegments(s, m.value.cuts, g);
    }
  }

  /** One to four dotted numerals up to the end of the text fill the groups in order, with no
      suffix. */
  lemma MatchFromDotted(s: string, i: nat, parts: seq<string>, g: Grammar)
    requires ValidGrammar(g) && NonEmptyTokens(g.tokens) && forall m :: 0 <= m < 3 ==> '.' in g.separators[m]
    requires 1 <= |parts| <= 4 && DottedAt(s, i, |s|, parts)
    ensures MatchFrom(s, i, g) == Some(Captures(Fill(parts, 0), NoSuffix))
  {
    var cuts := DottedCuts(i, |s|, parts, 0);
    GroupsToEnd(s, i, parts, g);
    DottedTexts(s, i, |s|, parts, 0);
    TailAtEnd(s, g);
    MatchFromOfGroups(s, i, g, cuts, Fill(parts, 0));
  }

  /** Dotted numerals up to the end of the text: the groups take them all. */
  lemma GroupsToEnd(s: string, i: nat, parts: seq<string>, g: Grammar)
    requires ValidGrammar(g) && NonEmptyTokens(g.tokens) && forall m :: 0 <= m < 3 ==> '.' in g.separators[m]
    requires 1 <= |parts| <= 4 && DottedAt(s, i, |s|, parts)
    ensures Groups(s, i, 0, g, TailAccepts(s, g)) == Some(Span(DottedCuts(i, |s|, parts, 0), |s|))
  {
    DottedChain(s, i, |s|, parts, 0, g);
    TailAtEnd(s, g);
    assert TailAccepts(s, g)(|s|);
    GroupsDotted(s, i, |s|, parts, 0, g, TailAccepts(s, g));
  }

  /** MatchFrom reads the captures off the groups that reach the end of the text. */
  lemma MatchFromOfGroups(s: string, i: nat, g: Grammar, cuts: seq<Cut>, segments: seq<string>)
    requires ValidGrammar(g) && i <= |s|
    requires Groups(s, i, 0, g, TailAccepts(s, g)) == Some(Span(cuts, |s|))
    requires InText(s, cuts) && Texts(s, cuts) == segments
    requires Tail(s, |s|, g) == Some(NoSuffix)
    ensures MatchFrom(s, i, g) == Some(Captures(segments, NoSuffix))
  {
  }

  /** Numerals joined by dots from i to j, with a `v` before them exactly when i is 1, followed
      by text the rest of the pattern matches on its own: the numerals fill the groups in order
      and the suffix is what that text gives. */
  lemma MatchWithVDotted(front: string, rest: string, i: nat, parts: seq<string>, x: Suffix, g: Grammar)
    requires ValidGrammar(g) && forall m :: 0 <= m < 3 ==> '.' in g.separators[m]
    requires |parts| <= 4 && DottedAt(front + rest, i, |front|, parts)
    requires (i == 1 && (front + rest)[0] == 'v') || (i == 0 && (front + rest)[0] != 'v')
    requires rest == "" || (!IsDigit(rest[0]) && forall m :: |parts| - 1 <= m < 3 ==> rest[0] !in g.separators[m])
    requires Tail(rest, 0, g) == Some(x)
    ensures MatchWithV(front + rest, g) == Some(Captures(Fill(parts, 0), x))
  {
    var s, j := front + rest, |front|;
    TailShift(front, rest, g);
    if rest != "" {
      assert s[j] == rest[0];
    }
    DottedChain(s, i, j, parts, 0, g);
    DottedTexts(s, i, j, parts, 0);
    GroupsDotted(s, i, j, parts, 0, g, TailAccepts(s, g));
    MatchOfGroups(s, g, i, DottedCuts(i, j, parts, 0), j, Fill(parts, 0), x);
  }

  /** Every token's word starts with a lower-case ASCII letter. */
  predicate Lettered(tokens: seq<Token>)
  {
    forall k :: 0 <= k < |tokens| ==> |tokens[k].word| > 0 && 'a' <= tokens[k].word[0] <= 'z'
  }

  /** No token starts at a character that is not a letter. */
  lemma {:induction false} NoLabelAt(s: string, i: nat, tokens: seq<Token>)
    requires Lettered(tokens) && i < |s| && !('a' <= s[i] <= 'z') && !('A' <= s[i] <= 'Z')
    ensures LabelAt(s, i, tokens) == None
    decreases |tokens|
  {
    if tokens != [] {
      NoLabelAt(s, i, tokens[1..]);
    }
  }

  /** The cuts of the numerals of a chain but the last, then the cuts of the groups from the one
      where the last numeral starts. */
  function ChainCuts(i: nat, parts: seq<string>, last: seq<Cut>): (r: seq<Cut>)
    requires |parts| >= 1
    ensures |r| == |parts| - 1 + |last|
    decreases |parts|
  {
    if |parts| == 1 then last else [Cut(i, i + |parts[0]|)] + ChainCuts(i + |parts[0]| + 1, parts[1..], last)
  }

  /** Every group of a chain stays present once the groups from the last numeral on match. */
  lemma {:induction false} GroupsChainTo(s: string, i: nat, parts: seq<string>, k: nat, g: Grammar, accept: nat -> bool, last: Span)
    requires Chain(s, i, parts, k, g) && LastStart(i, parts) <= |s|
    requires Groups(s, LastStart(i, parts), k + |parts| - 1, g, accept) == Some(last)
    ensures Groups(s, i, k, g, accept) == Some(Span(ChainCuts(i, parts, last.cuts), last.end))
    decreases |parts|
  {
    if |parts| > 1 {
      var e := i + |parts[0]|;
      assert LastStart(e + 1, parts[1..]) == LastStart(i, parts);
      assert k + 1 + |parts[1..]| - 1 == k + |parts| - 1;
      GroupsChainTo(s, e + 1, parts[1..], k + 1, g, accept, last);
      GroupsPresent(s, i, k, g, accept, e, Span(ChainCuts(e + 1, parts[1..], last.cuts), last.end));
    }
  }

  /** The captures of a chain are its numerals but the last, then those of the later groups. */
  lemma {:induction false} ChainTexts(s: string, i: nat, j: nat, parts: seq<string>, last: seq<Cut>)
    requires DottedAt(s, i, j, parts) && InText(s, last)
    ensures InText(s, ChainCuts(i, parts, last))
    ensures Texts(s, ChainCuts(i, parts, last)) == parts[..|parts| - 1] + Texts(s, last)
    decreases |parts|
  {
    if |parts| > 1 {
      var e := i + |parts[0]|;
      ChainTexts(s, e + 1, j, parts[1..], last);
      TextsCons(s, Cut(i, e), ChainCuts(e + 1, parts[1..], last));
      assert parts[..|parts| - 1] == [parts[0]] + parts[1..][..|parts[1..]| - 1];
    }
  }

  /** The last of dotted numerals is the text from where it starts. */
  lemma {:induction false} DottedLast(s: string, i: nat, j: nat, parts: seq<string>)
    requires DottedAt(s, i, j, parts)
    ensures LastStart(i, parts) <= j && s[LastStart(i, parts)..j] == parts[|parts| - 1]
    decreases |parts|
  {
    if |parts| > 1 {
      DottedLast(s, i + |parts[0]| + 1, j, parts[1..]);
    }
  }

  /** Groups that find neither a digit nor a wildcard take no part. */
  lemma {:induction false} GroupsBlank(s: string, i: nat, k: nat, g: Grammar, accept: nat -> bool)
    requires ValidGrammar(g) && k <= 3 && i <= |s|
    requires DigitRun(s, i) == 0 && (i < |s| ==> s[i] !in g.wildcards) && accept(i)
    ensures Groups(s, i, k, g, accept) == Some(Span(Lead(i, i, 3 - k), i))
    decreases 3 - k
  {
    if k < 3 {
      assert Separated(s, i, k, g) == None;
      GroupsBlank(s, i, k + 1, g, accept);
    }
  }

  /** The last numeral, a whole digit run ending at j, followed by a separator of group k: the
      group takes the numeral with its separator once the groups after it match at j + 1
      without taking part. */
  lemma GroupsSeparatedLast(s: string, p: nat, j: nat, k: nat, g: Grammar, accept: nat -> bool)
    requires ValidGrammar(g) && k < 3 && p < j < |s|
    requires DigitRun(s, p) == j - p && s[j] in g.separators[k]
    requires Groups(s, j + 1, k + 1, g, accept) == Some(Span(Lead(j + 1, j + 1, 2 - k), j + 1))
    ensures Groups(s, p, k, g, accept) == Some(Span([Cut(p, j)] + Lead(j + 1, j + 1, 2 - k), j + 1))
  {
    assert Separated(s, p, k, g) == Some(j);
    GroupsPresent(s, p, k, g, accept, j, Span(Lead(j + 1, j + 1, 2 - k), j + 1));
  }

  /** The cuts of numerals joined by dots from i to j when a separator follows them: the last
      numeral goes to the group after the others, and the groups after it take no part at j + 1. */
  function SeparatedCuts(i: nat, j: nat, parts: seq<string>): seq<Cut>
    requires 1 <= |parts| <= 3
  {
    ChainCuts(i, parts, [Cut(LastStart(i, parts), j)] + Lead(j + 1, j + 1, 3 - |parts|))
  }

  /** Numerals joined by dots from i to j, followed by a separator of the group of the last
      numeral and then by no segment: the groups take the numerals in order. */
  lemma GroupsSeparated(s: string, i: nat, j: nat, parts: seq<string>, g: Grammar, accept: nat -> bool)
    requires ValidGrammar(g) && forall m :: 0 <= m < 3 ==> '.' in g.separators[m]
    requires 1 <= |parts| <= 3 && DottedAt(s, i, j, parts) && j < |s|
    requires !IsDigit(s[j]) && s[j] in g.separators[|parts| - 1]
    requires Groups(s, j + 1, |parts|, g, accept) == Some(Span(Lead(j + 1, j + 1, 3 - |parts|), j + 1))
    ensures Groups(s, i, 0, g, accept) == Some(Span(SeparatedCuts(i, j, parts), j + 1))
  {
    var n := |parts|;
    DottedChain(s, i, j, parts, 0, g);
    var p := LastStart(i, parts);
    GroupsSeparatedLast(s, p, j, n - 1, g, accept);
    GroupsChainTo(s, i, parts, 0, g, accept, Span([Cut(p, j)] + Lead(j + 1, j + 1, 3 - n), j + 1));
  }

  /** Their captures are the numerals, then groups that took no part. */
  lemma SeparatedTexts(s: string, i: nat, j: nat, parts: seq<string>)
    requires 1 <= |parts| <= 3 && DottedAt(s, i, j, parts) && j < |s|
    ensures InText(s, SeparatedCuts(i, j, parts))
    ensures Texts(s, SeparatedCuts(i, j, parts)) == parts + Padded("", 3 - |parts|)
  {
    var n := |parts|;
    var later := Lead(j + 1, j + 1, 3 - n);
    DottedLast(s, i, j, parts);
    LastTexts(s, LastStart(i, parts), j, n);
    ChainTexts(s, i, j, parts, [Cut(LastStart(i, parts), j)] + later);
    SplitLast(parts, Padded("", 3 - n));
  }

  lemma LastTexts(s: string, p: nat, j: nat, n: nat)
    requires p <= j < |s| && 1 <= n <= 3
    ensures InText(s, [Cut(p, j)] + Lead(j + 1, j + 1, 3 - n))
    ensures Texts(s, [Cut(p, j)] + Lead(j + 1, j + 1, 3 - n)) == [s[p..j]] + Padded("", 3 - n)
  {
    LeadTexts(s, j + 1, j + 1, 3 - n);
    assert s[j + 1..j + 1] == "";
    TextsCons(s, Cut(p, j), Lead(j + 1, j + 1, 3 - n));
  }

  lemma SplitLast<T>(parts: seq<T>, tail: seq<T>)
    requires |parts| >= 1
    ensures parts[..|parts| - 1] + ([parts[|parts| - 1]] + tail) == parts + tail
  {
  }

  /** The whole pattern on such text: the numerals, groups that took no part, and the suffix
      that follows the separator. */
  lemma MatchWithVSeparated(s: string, i: nat, j: nat, parts: seq<string>, x: Suffix, g: Grammar)
    requires ValidGrammar(g) && forall m :: 0 <= m < 3 ==> '.' in g.separators[m]
    requires 1 <= |parts| <= 3 && DottedAt(s, i, j, parts) && j < |s|
    requires (i == 1 && s[0] == 'v') || (i == 0 && s[0] != 'v')
    requires !IsDigit(s[j]) && s[j] in g.separators[|parts| - 1]
    requires Groups(s, j + 1, |parts|, g, TailAccepts(s, g)) == Some(Span(Lead(j + 1, j + 1, 3 - |parts|), j + 1))
    requires Tail(s, j + 1, g) == Some(x)
    ensures MatchWithV(s, g) == Some(Captures(parts + Padded("", 3 - |parts|), x))
  {
    GroupsSeparated(s, i, j, parts, g, TailAccepts(s, g));
    SeparatedTexts(s, i, j, parts);
    MatchOfGroups(s, g, i, SeparatedCuts(i, j, parts), j + 1, parts + Padded("", 3 - |parts|), x);
  }

  /** Neither a digit nor an ASCII letter. */
  predicate Mark(c: char)
  {
    !IsDigit(c) && !('a' <= c <= 'z') && !('A' <= c <= 'Z')
  }

  /** What the reasoning about a date after a separator needs of a pattern: tokens that start
      with a letter, suffix separators that are marks, the date alternative, and a third
      segment group that a dash does not end. */
  predicate DateGrammar(g: Grammar)
  {
    ValidGrammar(g) && Lettered(g.tokens) && (forall c :: c in g.suffixSeparators ==> Mark(c))
    && g.date && '-' !in g.separators[2]
  }

  /** A suffix the pattern accepts that starts with a mark other than a newline: the mark is
      the optional separator, and a token or a date follows it. */
  lemma SeparatorTail(s: string, g: Grammar)
    requires DateGrammar(g) && s != [] && Mark(s[0]) && s[0] != '\n'
    requires Tail(s, 0, g).Some?
    ensures |s| >= 2 && Tail(s[1..], 0, g) == Tail(s, 0, g)
    ensures IsDigit(s[1]) ==> IsDate(s[1..], 0) && AtEnd(s[1..], 10)
  {
    NoLabelAt(s, 0, g.tokens);
    var t := s[1..];
    assert s == [s[0]] + t;
    SuffixBodyShift([s[0]], t, 0, g);
    if t == [] {
      NoLabelAtEnd(t, g.tokens);
    } else if !('a' <= t[0] <= 'z') && !('A' <= t[0] <= 'Z') {
      NoLabelAt(t, 0, g.tokens);
    }
  }

  lemma DateShift(p: string, t: string)
    requires IsDate(t, 0) && AtEnd(t, 10)
    ensures IsDate(p + t, |p|) && AtEnd(p + t, |p| + 10)
  {
    assert forall k :: 0 <= k < 10 ==> (p + t)[|p| + k] == t[k];
    AtEndShift(p, t, 10);
  }

  /** No suffix starts at a digit, or at a dash before a digit, where no date fits. */
  lemma NoTailAt(s: string, r: nat, g: Grammar)
    requires DateGrammar(g) && r + 1 < |s| && (IsDigit(s[r]) || (s[r] == '-' && IsDigit(s[r + 1])))
    requires !(IsDate(s, r) && AtEnd(s, r + 10))
    requires s[r] == '-' ==> !(IsDate(s, r + 1) && AtEnd(s, r + 11))
    ensures Tail(s, r, g) == None
  {
    NoLabelAt(s, r, g.tokens);
    if s[r] == '-' {
      NoLabelAt(s, r + 1, g.tokens);
    }
  }

  /** The unseparated group at a date takes none of the year's digits. */
  lemma YearGroup(s: string, q: nat, g: Grammar)
    requires DateGrammar(g) && IsDate(s, q) && AtEnd(s, q + 10)
    ensures DigitRun(s, q) == 4
    ensures Groups(s, q, 3, g, TailAccepts(s, g)) == Some(Span([Cut(q, q)], q))
  {
    DigitRunTo(s, q, q + 4);
    NoLabelAt(s, q, g.tokens);
    assert Tail(s, q, g).Some?;
    NoTailAt(s, q + 1, g);
    NoTailAt(s, q + 2, g);
    NoTailAt(s, q + 3, g);
    NoTailAt(s, q + 4, g);
  }

  /** After the year and its dash, the groups from the third on find no way to the end. */
  lemma MonthGroups(s: string, q: nat, g: Grammar)
    requires DateGrammar(g) && IsDate(s, q) && AtEnd(s, q + 10)
    ensures Groups(s, q + 5, 2, g, TailAccepts(s, g)) == None
    ensures Groups(s, q + 5, 3, g, TailAccepts(s, g)) == None
  {
    var accept := TailAccepts(s, g);
    DigitRunTo(s, q + 5, q + 7);
    NoTailAt(s, q + 5, g);
    NoTailAt(s, q + 6, g);
    NoTailAt(s, q + 7, g);
    assert Separated(s, q + 5, 2, g) == None;
    GroupsAbsent(s, q + 5, 2, g, accept);
  }

  /** A date: the segment groups from k on try its digits and take none, so the suffix reads
      the whole date. */
  lemma DateGroups(s: string, q: nat, k: nat, g: Grammar)
    requires DateGrammar(g) && IsDate(s, q) && AtEnd(s, q + 10) && 1 <= k <= 3
    ensures Groups(s, q, k, g, TailAccepts(s, g)) == Some(Span(Lead(q, q, 3 - k), q))
  {
    var accept := TailAccepts(s, g);
    YearGroup(s, q, g);
    if k <= 2 {
      MonthGroups(s, q, g);
      assert Separated(s, q, 2, g) == None;
      GroupsAbsent(s, q, 2, g, accept);
      assert Lead(q, q, 1) == [Cut(q, q)] + Lead(q, q, 0);
      if k == 1 {
        assert Separated(s, q, 1, g).Some? ==> Separated(s, q, 1, g).value == q + 4;
        GroupsAbsent(s, q, 1, g, accept);
        assert Lead(q, q, 2) == [Cut(q, q)] + Lead(q, q, 1);
      }
    }
  }

  /** After a separator that starts a suffix the pattern accepts, the remaining segment groups
      take no part and the suffix reads the rest of the text. */
  lemma AfterSeparator(front: string, rest: string, k: nat, g: Grammar)
    requires DateGrammar(g) && g.wildcards == {} && 1 <= k <= 3
    requires rest != "" && Mark(rest[0]) && rest[0] != '\n' && Tail(rest, 0, g).Some?
    ensures |rest| >= 2 && Tail(front + rest, |front| + 1, g) == Tail(rest, 0, g)
    ensures Groups(front + rest, |front| + 1, k, g, TailAccepts(front + rest, g))
      == Some(Span(Lead(|front| + 1, |front| + 1, 3 - k), |front| + 1))
  {
    var s, j := front + rest, |front|;
    SeparatorTail(rest, g);
    var t := rest[1..];
    assert s == (front + [rest[0]]) + t;
    TailShift(front + [rest[0]], t, g);
    if IsDigit(t[0]) {
      DateShift(front + [rest[0]], t);
      DateGroups(s, j + 1, k, g);
    } else {
      assert s[j + 1] == t[0] && DigitRun(s, j + 1) == 0;
      assert TailAccepts(s, g)(j + 1);
      GroupsBlank(s, j + 1, k, g, TailAccepts(s, g));
    }
  }

  /** Numerals joined by dots after an optional `v`, then a suffix the pattern accepts that
      starts with a separator of the group of the last numeral: the numerals fill the groups
      from the first one, the groups after them take no part, and the suffix is what the text
      after the numerals gives. */
  lemma MatchSeparated(front: string, rest: string, i: nat, parts: seq<string>, x: Suffix, g: Grammar)
    requires DateGrammar(g) && g.wildcards == {} && forall m :: 0 <= m < 3 ==> '.' in g.separators[m]
    requires 1 <= |parts| <= 3 && DottedAt(front + rest, i, |front|, parts)
    requires (i == 1 && (front + rest)[0] == 'v') || (i == 0 && (front + rest)[0] != 'v')
    requires rest != "" && Mark(rest[0]) && rest[0] != '\n' && rest[0] in g.separators[|parts| - 1]
    requires Tail(rest, 0, g) == Some(x)
    ensures MatchWithV(front + rest, g) == Some(Captures(parts + Padded("", 3 - |parts|), x))
  {
    AfterSeparator(front, rest, |parts|, g);
    assert (front + rest)[|front|] == rest[0];
    MatchWithVSeparated(front + rest, i, |front|, parts, x, g);
  }
}
