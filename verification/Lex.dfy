/** Lexicographic order on vectors of equal length, outermost component first. */
module Lex {

  type Vec = seq<nat>

  ghost predicate LexLe(a: Vec, b: Vec)
    requires |a| == |b|
  {
    a == [] || a[0] < b[0] || (a[0] == b[0] && LexLe(a[1..], b[1..]))
  }

  ghost predicate LexLt(a: Vec, b: Vec)
    requires |a| == |b|
  {
    a != b && LexLe(a, b)
  }

  lemma {:induction false} Reflexive(a: Vec)
    ensures LexLe(a, a)
  {
    if a != [] { Reflexive(a[1..]); }
  }

  lemma {:induction false} Transitive(a: Vec, b: Vec, c: Vec)
    requires |a| == |b| == |c|
    requires LexLe(a, b) && LexLe(b, c)
    ensures LexLe(a, c)
  {
    if a != [] && a[0] == b[0] == c[0] { Transitive(a[1..], b[1..], c[1..]); }
  }

  lemma {:induction false} Total(a: Vec, b: Vec)
    requires |a| == |b|
    ensures LexLe(a, b) || LexLe(b, a)
    ensures LexLe(a, b) && LexLe(b, a) ==> a == b
  {
    if a != [] && a[0] == b[0] {
      Total(a[1..], b[1..]);
      assert a == [a[0]] + a[1..] && b == [b[0]] + b[1..];
    }
  }

  /** Comparing fewer components can only turn "less" into "equal". */
  lemma {:induction false} PrefixOf(a: Vec, b: Vec, i: nat)
    requires |a| == |b| && i <= |a| && LexLe(a, b)
    ensures LexLe(a[..i], b[..i])
  {
    if i > 0 && a[0] == b[0] {
      PrefixOf(a[1..], b[1..], i - 1);
      assert a[..i][1..] == a[1..][..i - 1] && b[..i][1..] == b[1..][..i - 1];
    }
  }

  /** A comparison of prefixes extends by one component that is not larger. */
  lemma {:induction false} ExtendPrefix(a: Vec, b: Vec, i: nat)
    requires |a| == |b| && i < |a|
    requires LexLe(a[..i], b[..i]) && a[i] <= b[i]
    ensures LexLe(a[..i + 1], b[..i + 1])
  {
    if i > 0 && a[0] == b[0] {
      assert a[..i][1..] == a[1..][..i - 1] && b[..i][1..] == b[1..][..i - 1];
      ExtendPrefix(a[1..], b[1..], i - 1);
      assert a[..i + 1][1..] == a[1..][..i] && b[..i + 1][1..] == b[1..][..i];
    }
  }

  /** A strictly smaller component after a prefix that is not larger decides the comparison. */
  lemma {:induction false} DecidedAt(a: Vec, b: Vec, i: nat)
    requires |a| == |b| && i < |a|
    requires LexLe(a[..i], b[..i]) && a[i] < b[i]
    ensures LexLe(a, b)
  {
    if i > 0 && a[0] == b[0] {
      assert a[..i][1..] == a[1..][..i - 1] && b[..i][1..] == b[1..][..i - 1];
      DecidedAt(a[1..], b[1..], i - 1);
    }
  }

  /** A strictly larger component after an equal prefix decides it the other way. */
  lemma {:induction false} RefutedAt(a: Vec, b: Vec, i: nat)
    requires |a| == |b| && i < |a|
    requires a[..i] == b[..i] && a[i] > b[i]
    ensures !LexLe(a, b)
  {
    if i > 0 {
      assert a[0] == a[..i][0] == b[..i][0] == b[0];
      assert a[..i][1..] == a[1..][..i - 1] && b[..i][1..] == b[1..][..i - 1];
      RefutedAt(a[1..], b[1..], i - 1);
    }
  }
}
