/** Lexicographic comparison of equal-length tuples of naturals: the reference ordering that
    Stability::compare and Version::compare are proved to implement. */
module Order {

  /** -1, 0 or 1 as the first differing component of a is below, absent, or above b's. */
  function Lex(a: seq<nat>, b: seq<nat>): (r: int)
    requires |a| == |b|
    ensures r in {-1, 0, 1}
    decreases |a|
  {
    if a == [] then 0
    else if a[0] < b[0] then -1
    else if a[0] > b[0] then 1
    else Lex(a[1..], b[1..])
  }

  lemma {:induction false} LexEqual(a: seq<nat>, b: seq<nat>)
    requires |a| == |b|
    ensures Lex(a, b) == 0 <==> a == b
    decreases |a|
  {
    if a != [] {
      LexEqual(a[1..], b[1..]);
      if a[0] == b[0] && a[1..] == b[1..] {
        assert a == [a[0]] + a[1..] && b == [b[0]] + b[1..];
      }
    }
  }

  lemma {:induction false} LexAntisymmetric(a: seq<nat>, b: seq<nat>)
    requires |a| == |b|
    ensures Lex(a, b) == -Lex(b, a)
    decreases |a|
  {
    if a != [] {
      LexAntisymmetric(a[1..], b[1..]);
    }
  }

  lemma {:induction false} LexTransitive(a: seq<nat>, b: seq<nat>, c: seq<nat>)
    requires |a| == |b| == |c|
    ensures Lex(a, b) <= 0 && Lex(b, c) <= 0 ==> Lex(a, c) <= 0
    ensures Lex(a, b) < 0 && Lex(b, c) <= 0 ==> Lex(a, c) < 0
    ensures Lex(a, b) <= 0 && Lex(b, c) < 0 ==> Lex(a, c) < 0
    decreases |a|
  {
    if a != [] {
      LexTransitive(a[1..], b[1..], c[1..]);
    }
  }

  /** Lex on pairs, spelled out. */
  lemma LexPair(x1: nat, x2: nat, y1: nat, y2: nat)
    ensures Lex([x1, x2], [y1, y2])
         == if x1 < y1 then -1 else if x1 > y1 then 1 else if x2 < y2 then -1 else if x2 > y2 then 1 else 0
  {
    assert [x1, x2][1..] == [x2] && [y1, y2][1..] == [y2];
    assert [x2][1..] == [] && [y2][1..] == [];
    assert Lex([], []) == 0;
    assert Lex([x2], [y2]) == if x2 < y2 then -1 else if x2 > y2 then 1 else 0;
  }

  /** One step of the comparison: the first position decides unless it ties. */
  lemma LexCons(x: nat, a: seq<nat>, y: nat, b: seq<nat>)
    requires |a| == |b|
    ensures Lex([x] + a, [y] + b) == if x < y then -1 else if x > y then 1 else Lex(a, b)
  {
    assert ([x] + a)[1..] == a && ([y] + b)[1..] == b;
  }

  /** Lex on a concatenation decides on the prefixes first. */
  lemma {:induction false} LexAppend(a: seq<nat>, b: seq<nat>, x: seq<nat>, y: seq<nat>)
    requires |a| == |b| && |x| == |y|
    ensures Lex(a + x, b + y) == if Lex(a, b) != 0 then Lex(a, b) else Lex(x, y)
    decreases |a|
  {
    if a != [] {
      assert (a + x)[1..] == a[1..] + x;
      assert (b + y)[1..] == b[1..] + y;
      LexAppend(a[1..], b[1..], x, y);
    } else {
      assert a + x == x && b + y == y;
    }
  }
}
