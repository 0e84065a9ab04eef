/** Character-level helpers: decimal numerals, ASCII lower-casing, PHP's trim and explode. */
module Text {

  predicate IsDigit(c: char) { '0' <= c <= '9' }

  predicate AllDigits(s: string) { forall i :: 0 <= i < |s| ==> IsDigit(s[i]) }

  /** A non-empty run of decimal digits, as PHP's `\d+` captures it. */
  predicate IsNumeral(s: string) { |s| > 0 && AllDigits(s) }

  type Numeral = s: string | IsNumeral(s) witness "0"

  function DigitValue(c: char): nat
    requires IsDigit(c)
  {
    (c as int - '0' as int) as nat
  }

  function DigitChar(d: nat): (c: char)
    requires d < 10
    ensures IsDigit(c) && DigitValue(c) == d
  {
    ('0' as int + d) as char
  }

  /** The number a digit string denotes; leading zeros do not matter. */
  function Value(s: string): nat
    requires AllDigits(s)
  {
    if s == [] then 0 else Value(s[..|s| - 1]) * 10 + DigitValue(s[|s| - 1])
  }

  /** Decimal rendering of a natural number, as PHP prints an int. */
  function NatToText(n: nat): (s: Numeral)
    decreases n
  {
    if n < 10 then [DigitChar(n)] else NatToText(n / 10) + [DigitChar(n % 10)]
  }

  lemma {:induction false} ValueOfNatToText(n: nat)
    ensures Value(NatToText(n)) == n
    decreases n
  {
    var s := NatToText(n);
    if n >= 10 {
      ValueOfNatToText(n / 10);
      assert s[..|s| - 1] == NatToText(n / 10);
    }
  }

  /** A numeral without superfluous leading zeros, i.e. one that NatToText produces. */
  predicate Canonical(s: string)
  {
    IsNumeral(s) && (s[0] == '0' ==> |s| == 1)
  }

  lemma {:induction false} NatToTextCanonical(n: nat)
    ensures Canonical(NatToText(n))
    decreases n
  {
    if n >= 10 {
      NatToTextCanonical(n / 10);
    }
  }

  lemma {:induction false} ValueLowerBound(s: string)
    requires IsNumeral(s) && s[0] != '0'
    ensures Value(s) >= Pow10(|s| - 1)
    decreases |s|
  {
    if |s| > 1 {
      var p := s[..|s| - 1];
      assert p[0] == s[0];
      ValueLowerBound(p);
    }
  }

  function Pow10(k: nat): (p: nat)
    ensures p >= 1
  {
    if k == 0 then 1 else 10 * Pow10(k - 1)
  }

  /** NatToText is the inverse of Value on canonical numerals. */
  lemma {:induction false} NatToTextOfValue(s: string)
    requires Canonical(s)
    ensures NatToText(Value(s)) == s
    decreases |s|
  {
    if |s| > 1 {
      var p := s[..|s| - 1];
      assert p[0] == s[0];
      ValueLowerBound(p);
      NatToTextOfValue(p);
      assert Value(s) / 10 == Value(p);
    }
  }

  function Lower(c: char): char
  {
    if 'A' <= c <= 'Z' then (c as int + 32) as char else c
  }

  /** PHP's strtolower on ASCII text. */
  function ToLower(s: string): (r: string)
    ensures |r| == |s| && NoUpper(r)
  {
    seq(|s|, i requires 0 <= i < |s| => Lower(s[i]))
  }

  predicate NoUpper(s: string) { forall i :: 0 <= i < |s| ==> !('A' <= s[i] <= 'Z') }

  /** Lower-casing leaves text without capitals unchanged. */
  lemma LowerFixed(s: string)
    requires NoUpper(s)
    ensures ToLower(s) == s
  {
  }

  /** The characters PHP's trim removes by default. */
  predicate IsTrimmed(c: char)
  {
    c == ' ' || c == '\t' || c == '\n' || c == '\r' || c == '\0' || c == '\U{B}'
  }

  /** s without its leading trimmed characters. */
  function TrimLeft(s: string): (r: string)
    ensures |r| <= |s| && (r == [] || !IsTrimmed(r[0]))
  {
    if s != [] && IsTrimmed(s[0]) then TrimLeft(s[1..]) else s
  }

  /** s without its trailing trimmed characters. */
  function TrimRight(s: string): (r: string)
    ensures |r| <= |s| && r == s[..|r|] && (r == [] || !IsTrimmed(r[|r| - 1]))
  {
    if s != [] && IsTrimmed(s[|s| - 1]) then TrimRight(s[..|s| - 1]) else s
  }

  /** r is the infix of s at i, and every character of s around it is a trimmed one. */
  predicate TrimmedAround(s: string, i: int, r: string)
  {
    0 <= i <= |s| - |r| && r == s[i..i + |r|]
    && (forall k :: 0 <= k < i ==> IsTrimmed(s[k])) && (forall k :: i + |r| <= k < |s| ==> IsTrimmed(s[k]))
  }

  /** PHP's trim. */
  function Trim(s: string): (r: string)
    ensures |r| <= |s| && (r == [] || (!IsTrimmed(r[0]) && !IsTrimmed(r[|r| - 1])))
  {
    TrimRight(TrimLeft(s))
  }

  /** trim keeps the infix left once the trimmed characters at either end are removed: with the
      ends Trim ensures, this is the longest infix without a trimmed character at either end. */
  lemma TrimSpec(s: string)
    ensures exists i :: TrimmedAround(s, i, Trim(s))
  {
    TrimInfix(s);
    assert TrimmedAround(s, |s| - |TrimLeft(s)|, Trim(s));
  }

  lemma TrimInfix(s: string)
    ensures TrimmedAround(s, |s| - |TrimLeft(s)|, TrimRight(TrimLeft(s)))
  {
    var left := TrimLeft(s);
    var r := TrimRight(left);
    var i := |s| - |left|;
    TrimLeftSkips(s);
    TrimRightSkips(left);
    SliceOfSuffix(s, i, |r|);
    forall k | i + |r| <= k < |s|
      ensures IsTrimmed(s[k])
    {
      assert s[k] == left[k - i];
    }
  }

  /** TrimLeft keeps a suffix and drops trimmed characters. */
  lemma {:induction false} TrimLeftSkips(s: string)
    ensures TrimLeft(s) == s[|s| - |TrimLeft(s)|..]
    ensures forall k :: 0 <= k < |s| - |TrimLeft(s)| ==> IsTrimmed(s[k])
    decreases |s|
  {
    if s != [] && IsTrimmed(s[0]) {
      TrimLeftSkips(s[1..]);
      assert forall k :: 1 <= k < |s| ==> s[k] == s[1..][k - 1];
    }
  }

  /** What TrimRight drops is trimmed characters. */
  lemma {:induction false} TrimRightSkips(s: string)
    ensures forall k :: |TrimRight(s)| <= k < |s| ==> IsTrimmed(s[k])
    decreases |s|
  {
    if s != [] && IsTrimmed(s[|s| - 1]) {
      TrimRightSkips(s[..|s| - 1]);
      assert forall k :: 0 <= k < |s| - 1 ==> s[k] == s[..|s| - 1][k];
    }
  }

  lemma SliceOfSuffix(s: string, i: nat, n: nat)
    requires i + n <= |s|
    ensures s[i..][..n] == s[i..i + n]
  {
  }

  /** PHP's explode(sep, s): the pieces between occurrences of sep, in order. */
  function Split(s: string, sep: char): (pieces: seq<string>)
    ensures |pieces| >= 1
    ensures forall i :: 0 <= i < |pieces| ==> sep !in pieces[i]
    decreases |s|
  {
    if s == [] then [[]]
    else
      var rest := Split(s[1..], sep);
      if s[0] == sep then [[]] + rest else [[s[0]] + rest[0]] + rest[1..]
  }

  /** The length of the pieces with a separator of length m after each. */
  function Spread(pieces: seq<string>, m: nat): nat
  {
    if pieces == [] then 0 else |pieces[0]| + m + Spread(pieces[1..], m)
  }

  /** PHP's implode(sep, pieces): every piece, with one separator between neighbours. */
  function Join(pieces: seq<string>, sep: string): (r: string)
    ensures |pieces| > 0 ==> |r| >= |pieces[0]|
    ensures |pieces| > 0 ==> |r| + |sep| == Spread(pieces, |sep|)
  {
    if pieces == [] then []
    else if |pieces| == 1 then pieces[0]
    else pieces[0] + sep + Join(pieces[1..], sep)
  }

  /** Joining two lists is joining each and putting a separator between them. */
  lemma {:induction false} JoinAppend(a: seq<string>, b: seq<string>, sep: string)
    requires a != [] && b != []
    ensures Join(a + b, sep) == Join(a, sep) + sep + Join(b, sep)
    decreases |a|
  {
    if |a| > 1 {
      JoinAppend(a[1..], b, sep);
      assert (a + b)[1..] == a[1..] + b;
    } else {
      assert (a + b)[1..] == b;
    }
  }

  /** explode followed by implode gives back the original text. */
  lemma {:induction false} JoinSplit(s: string, sep: char)
    ensures Join(Split(s, sep), [sep]) == s
    decreases |s|
  {
    if s != [] {
      JoinSplit(s[1..], sep);
      var rest := Split(s[1..], sep);
      if s[0] != sep {
        var pieces := Split(s, sep);
        if |rest| > 1 {
          assert pieces[1..] == rest[1..];
        }
      }
    }
  }

  /** Text without the separator is one piece; with it, several pieces each shorter than the text. */
  lemma {:induction false} SplitPieces(s: string, sep: char)
    ensures (|Split(s, sep)| == 1) == (sep !in s)
    ensures |Split(s, sep)| == 1 ==> Split(s, sep)[0] == s
    ensures |Split(s, sep)| > 1 ==> forall i :: 0 <= i < |Split(s, sep)| ==> |Split(s, sep)[i]| < |s|
    decreases |s|
  {
    if s != [] {
      SplitPieces(s[1..], sep);
      var rest := Split(s[1..], sep);
      assert s == [s[0]] + s[1..];
      if s[0] != sep && |rest| > 1 {
        var pieces := Split(s, sep);
        forall i | 0 <= i < |pieces| ensures |pieces[i]| < |s| {
          if i > 0 { assert pieces[i] == rest[i]; }
        }
      }
    }
  }
}
