/** The packed form of doacross post and wait (ordered.c:274-296, 325-332, 378-391, 440-461).

  When the bit widths of all dimensions add up to at most 64, an iteration vector is packed
  into one unsigned long, outermost dimension in the highest bits; a post stores that value
  plus one and a wait passes when its own packed value is below the stored one.
 */
module DoacrossPacked {
  import opened Arith
  import opened Bits
  import opened Lex
  import opened Words

  /** The width given to a dimension of c iterations. */
  function Width(c: nat): nat
    requires c > 0
  {
    if c == 1 then 1 else BitLength(c - 1)
  }

  predicate Counts(counts: Vec) {
    forall i | 0 <= i < |counts| :: 0 < counts[i] < Pow2(63)
  }

  ghost predicate InRange(v: Vec, counts: Vec) {
    |v| == |counts| && forall i | 0 <= i < |v| :: v[i] < counts[i]
  }

  function TotalWidth(counts: Vec): nat
    requires Counts(counts)
  {
    if counts == [] then 0 else Width(counts[0]) + TotalWidth(counts[1..])
  }

  /** What the packed word means: a mixed-radix number with power-of-two radices. */
  ghost function Value(v: Vec, counts: Vec): nat
    requires Counts(counts) && |v| == |counts|
  {
    if v == [] then 0 else v[0] * Pow2(TotalWidth(counts[1..])) + Value(v[1..], counts[1..])
  }

  lemma WidthIsEnough(c: nat)
    requires c > 0
    ensures 0 < Width(c) && c <= Pow2(Width(c))
  {
    BitLengthBounds(c - 1);
  }

  lemma {:induction false} ValueFits(v: Vec, counts: Vec)
    requires Counts(counts) && InRange(v, counts)
    ensures Value(v, counts) < Pow2(TotalWidth(counts))
  {
    if v != [] {
      ValueFits(v[1..], counts[1..]);
      WidthIsEnough(counts[0]);
      var p, w := Pow2(TotalWidth(counts[1..])), Pow2(Width(counts[0]));
      Pow2Sum(Width(counts[0]), TotalWidth(counts[1..]));
      MulStep(v[0], w, p);
    }
  }

  /** Packing is strictly monotone for the lexicographic order. */
  lemma {:induction false} ValueIsMonotone(u: Vec, v: Vec, counts: Vec)
    requires Counts(counts) && InRange(u, counts) && InRange(v, counts)
    requires LexLt(u, v)
    ensures Value(u, counts) < Value(v, counts)
  {
    var p := Pow2(TotalWidth(counts[1..]));
    if u[0] == v[0] {
      assert u == [u[0]] + u[1..] && v == [v[0]] + v[1..];
      ValueIsMonotone(u[1..], v[1..], counts[1..]);
    } else {
      ValueFits(u[1..], counts[1..]);
      MulStep(u[0], v[0], p);
    }
  }

  lemma ValueOrder(u: Vec, v: Vec, counts: Vec)
    requires Counts(counts) && InRange(u, counts) && InRange(v, counts)
    ensures Value(u, counts) <= Value(v, counts) <==> LexLe(u, v)
  {
    Total(u, v);
    if LexLt(u, v) {
      ValueIsMonotone(u, v, counts);
    } else if LexLt(v, u) {
      ValueIsMonotone(v, u, counts);
    }
  }

  datatype Layout =
    | NoDoacross                       // some dimension has no iterations
    | Words                            // too wide: the multi-word form is used
    | Packed(shifts: seq<nat>)

  function ShiftsFrom(counts: Vec): (s: seq<nat>)
    requires Counts(counts)
    ensures |s| == |counts|
    ensures forall i | 0 <= i < |s| :: s[i] == TotalWidth(counts[i + 1..])
  {
    if counts == [] then []
    else
      var r := ShiftsFrom(counts[1..]);
      assert forall i | 1 <= i < |counts| :: counts[i + 1..] == counts[1..][i..];
      [TotalWidth(counts[1..])] + r
  }

  lemma {:induction false} TotalWidthSnoc(counts: Vec, c: nat)
    requires Counts(counts) && 0 < c < Pow2(63)
    ensures Counts(counts + [c]) && TotalWidth(counts + [c]) == TotalWidth(counts) + Width(c)
  {
    assert [c][1..] == [] && [c][0] == c;
    if counts == [] {
      assert counts + [c] == [c];
    } else {
      assert (counts + [c])[1..] == counts[1..] + [c];
      TotalWidthSnoc(counts[1..], c);
    }
  }

  /** First loop of gomp_doacross_init: 65 stands for "does not fit". */
  method ComputeWidths(counts: seq<nat>) returns (numBits: nat, bits: seq<nat>)
    requires Counts(counts)
    ensures TotalWidth(counts) > 64 ==> numBits == 65
    ensures TotalWidth(counts) <= 64 ==> numBits == TotalWidth(counts)
    ensures TotalWidth(counts) <= 64 ==> |bits| == |counts| && forall j | 0 <= j < |counts| :: bits[j] == Width(counts[j])
  {
    numBits, bits := 0, [];
    var i := 0;
    while i < |counts|
      invariant 0 <= i <= |counts|
      invariant numBits == if TotalWidth(counts[..i]) > 64 then 65 else TotalWidth(counts[..i])
      invariant numBits <= 64 ==> |bits| == i && forall j | 0 <= j < i :: bits[j] == Width(counts[j])
    {
      assert counts[..i + 1] == counts[..i] + [counts[i]];
      TotalWidthSnoc(counts[..i], counts[i]);
      if numBits <= 64 {
        var thisBits := Width(counts[i]);
        if numBits + thisBits <= 64 {
          bits := bits + [thisBits];
          numBits := numBits + thisBits;
        } else {
          numBits := 65;
        }
      }
      i := i + 1;
    }
    assert counts[..i] == counts;
  }

  /** The layout that gomp_doacross_init chooses: packed exactly when all dimensions have
      iterations and fit in 64 bits together; the field of a dimension then starts above the
      fields of all inner dimensions. */
  method ComputeLayout(counts: seq<nat>) returns (layout: Layout)
    requires forall i | 0 <= i < |counts| :: counts[i] < Pow2(63)
    ensures layout == NoDoacross <==> 0 in counts
    ensures 0 !in counts ==>
      layout == if TotalWidth(counts) <= 64 then Packed(ShiftsFrom(counts)) else Words
  {
    if 0 in counts {
      return NoDoacross;
    }
    var numBits, bits := ComputeWidths(counts);
    if numBits > 64 {
      return Words;
    }
    var shifts: seq<nat> := seq(|counts|, _ => 0);
    var shiftCount: nat := 0;
    var i := |counts|;
    assert counts[i..] == [];
    while i > 0
      invariant 0 <= i <= |counts| && |shifts| == |counts|
      invariant shiftCount == TotalWidth(counts[i..])
      invariant forall j | i <= j < |counts| :: shifts[j] == TotalWidth(counts[j + 1..])
    {
      assert counts[i - 1..][1..] == counts[i..];
      shifts := shifts[i - 1 := shiftCount];
      shiftCount := shiftCount + bits[i - 1];
      i := i - 1;
    }
    assert shifts == ShiftsFrom(counts);
    return Packed(shifts);
  }

  /** Left shift of an unsigned long. */
  function Shl(x: nat, k: nat): nat { (x * Pow2(k)) % WORD }

  /** The value of the first i components, and what the next component adds to it. */
  ghost function Head(v: Vec, counts: Vec, i: nat): nat
    requires Counts(counts) && |v| == |counts| && i <= |v|
  {
    if i == 0 then 0 else Head(v, counts, i - 1) + v[i - 1] * Pow2(TotalWidth(counts[i..]))
  }

  lemma {:induction false} HeadIsValue(v: Vec, counts: Vec, i: nat)
    requires Counts(counts) && |v| == |counts| && i <= |v|
    ensures Head(v, counts, i) + Value(v[i..], counts[i..]) == Value(v, counts)
    decreases i
  {
    if i > 0 {
      HeadIsValue(v, counts, i - 1);
      assert v[i - 1..][1..] == v[i..] && counts[i - 1..][1..] == counts[i..];
    } else {
      assert v[0..] == v && counts[0..] == counts;
    }
  }

  /** The part packed so far only occupies the bits of its own fields. */
  lemma {:induction false} HeadIsMultiple(v: Vec, counts: Vec, i: nat) returns (h: nat)
    requires Counts(counts) && |v| == |counts| && 0 < i <= |v|
    ensures Head(v, counts, i) == h * Pow2(TotalWidth(counts[i..]))
  {
    h := v[i - 1];
    if i > 1 {
      var g := HeadIsMultiple(v, counts, i - 1);
      var w, p := Width(counts[i - 1]), Pow2(TotalWidth(counts[i..]));
      assert counts[i - 1..][1..] == counts[i..];
      Pow2Sum(w, TotalWidth(counts[i..]));
      h := g * Pow2(w) + v[i - 1];
      Associate(g, Pow2(w), p);
      Distribute(g * Pow2(w), v[i - 1], p);
    }
  }

  lemma ValueFitsWord(v: Vec, counts: Vec)
    requires Counts(counts) && InRange(v, counts) && TotalWidth(counts) <= 64
    ensures Value(v, counts) < WORD
  {
    ValueFits(v, counts);
    Pow2Of32And64();
    if TotalWidth(counts) < 64 { Pow2Grows(TotalWidth(counts), 64); }
  }

  lemma TotalWidthStep(counts: Vec, i: nat)
    requires Counts(counts) && i < |counts|
    ensures TotalWidth(counts[i..]) == Width(counts[i]) + TotalWidth(counts[i + 1..])
  {
    assert counts[i..][1..] == counts[i + 1..];
  }

  lemma ShlIsExact(x: nat, k: nat)
    requires x * Pow2(k) < WORD
    ensures Shl(x, k) == x * Pow2(k)
  {
    hide Pow2;
  }

  lemma FieldFits(v: Vec, counts: Vec, i: nat)
    requires Counts(counts) && InRange(v, counts) && TotalWidth(counts) <= 64 && i < |v|
    ensures Shl(v[i], TotalWidth(counts[i + 1..])) == v[i] * Pow2(TotalWidth(counts[i + 1..]))
  {
    hide TotalWidth, Value, Pow2, Shl;
    HeadIsValue(v, counts, i + 1);
    ValueFitsWord(v, counts);
    assert v[i] * Pow2(TotalWidth(counts[i + 1..])) < WORD;
    ShlIsExact(v[i], TotalWidth(counts[i + 1..]));
  }

  /** One more field: it fits, it does not overlap what is there, and nothing is cut off. */
  lemma AddField(v: Vec, counts: Vec, i: nat)
    requires Counts(counts) && InRange(v, counts) && TotalWidth(counts) <= 64 && i < |v|
    ensures Shl(v[i], TotalWidth(counts[i + 1..])) == v[i] * Pow2(TotalWidth(counts[i + 1..]))
    ensures BitOr(Head(v, counts, i), Shl(v[i], TotalWidth(counts[i + 1..]))) == Head(v, counts, i + 1)
  {
    hide TotalWidth, Value, Pow2, Shl, Width, Head, BitOr;
    FieldFits(v, counts, i);
    HeadStep(v, counts, i);
    if i > 0 {
      AddInnerField(v, counts, i);
    }
  }

  lemma AddInnerField(v: Vec, counts: Vec, i: nat)
    requires Counts(counts) && InRange(v, counts) && TotalWidth(counts) <= 64 && 0 < i < |v|
    ensures var f := v[i] * Pow2(TotalWidth(counts[i + 1..]));
      BitOr(Head(v, counts, i), f) == Head(v, counts, i) + f
  {
    WidthIsEnough(counts[i]);
    assert v[i] < Pow2(Width(counts[i]));
    hide *;
    var h := HeadIsMultiple(v, counts, i);
    TotalWidthStep(counts, i);
    var w, r := Width(counts[i]), TotalWidth(counts[i + 1..]);
    assert Head(v, counts, i) == h * Pow2(w + r);
    OrOfField(h, w, r, v[i]);
  }

  lemma HeadStep(v: Vec, counts: Vec, i: nat)
    requires Counts(counts) && |v| == |counts| && i < |v|
    ensures Head(v, counts, i + 1) == Head(v, counts, i) + v[i] * Pow2(TotalWidth(counts[i + 1..]))
    ensures i == 0 ==> Head(v, counts, i) == 0 && forall x: nat :: BitOr(0, x) == x
  {
  }

  /** The packing loop shared by post and wait: the or of the shifted components is the
      mixed-radix value, so no two fields overlap and nothing is shifted out. */
  method Pack(v: seq<nat>, counts: seq<nat>, shifts: seq<nat>) returns (flattened: nat)
    requires |v| > 0 && Counts(counts) && InRange(v, counts)
    requires TotalWidth(counts) <= 64 && shifts == ShiftsFrom(counts)
    ensures flattened == Value(v, counts) < WORD
  {
    flattened := Shl(v[0], shifts[0]);
    AddField(v, counts, 0);
    var i := 1;
    while i < |v|
      invariant 1 <= i <= |v| && flattened == Head(v, counts, i)
    {
      AddField(v, counts, i);
      flattened := BitOr(flattened, Shl(v[i], shifts[i]));
      i := i + 1;
    }
    HeadIsValue(v, counts, |v|);
    ValueFitsWord(v, counts);
  }

  /** The word stored by a post. */
  method Post(v: seq<nat>, counts: seq<nat>, shifts: seq<nat>) returns (stored: nat)
    requires |v| > 0 && Counts(counts) && InRange(v, counts)
    requires TotalWidth(counts) <= 64 && shifts == ShiftsFrom(counts)
    ensures stored == (Value(v, counts) + 1) % WORD
  {
    var flattened := Pack(v, counts, shifts);
    stored := (flattened + 1) % WORD;
  }

  /** One test of a waiter for `sink` against the current word of the slot. */
  method Test(sink: seq<nat>, counts: seq<nat>, shifts: seq<nat>, cur: nat) returns (passed: bool)
    requires |sink| > 0 && Counts(counts) && InRange(sink, counts)
    requires TotalWidth(counts) <= 64 && shifts == ShiftsFrom(counts)
    ensures passed <==> Value(sink, counts) < cur
  {
    var flattened := Pack(sink, counts, shifts);
    passed := flattened < cur;
  }

  /** The posted vector is all ones in all of the 64 bits: every dimension has a power of two
      of at least two iterations, the widths fill the word, and this is the last iteration. */
  ghost predicate AllOnes(v: Vec, counts: Vec)
    requires Counts(counts) && |v| == |counts|
  {
    TotalWidth(counts) == 64 && AllTop(v, counts)
  }

  /** With at most x < w in the top field and y < p below it, the sum is maximal only if both are. */
  lemma TopOfTwo(x: nat, w: nat, y: nat, p: nat)
    requires x < w && y < p
    ensures x * p + y + 1 == w * p <==> x + 1 == w && y + 1 == p
  {
    Distribute(x, 1, p);
    if x + 1 < w {
      MulStep(x + 1, w, p);
    }
  }

  ghost predicate AllTop(v: Vec, counts: Vec)
    requires Counts(counts) && |v| == |counts|
  {
    forall i | 0 <= i < |v| :: v[i] + 1 == Pow2(Width(counts[i]))
  }

  lemma AllTopStep(v: Vec, counts: Vec)
    requires Counts(counts) && |v| == |counts| && v != []
    ensures AllTop(v, counts) <==> v[0] + 1 == Pow2(Width(counts[0])) && AllTop(v[1..], counts[1..])
  {
    hide Pow2, Width;
    assert forall i | 1 <= i < |v| :: v[i] == v[1..][i - 1] && counts[i] == counts[1..][i - 1];
    assert forall i | 0 <= i < |v| - 1 :: v[1..][i] == v[i + 1] && counts[1..][i] == counts[i + 1];
  }

  lemma {:induction false} TopValue(v: Vec, counts: Vec)
    requires Counts(counts) && InRange(v, counts)
    ensures Value(v, counts) + 1 == Pow2(TotalWidth(counts)) <==> AllTop(v, counts)
  {
    if v != [] {
      TopValue(v[1..], counts[1..]);
      ValueFits(v[1..], counts[1..]);
      WidthIsEnough(counts[0]);
      AllTopStep(v, counts);
      Pow2Sum(Width(counts[0]), TotalWidth(counts[1..]));
      hide AllTop, Pow2, Width;
      TopOfTwo(v[0], Pow2(Width(counts[0])), Value(v[1..], counts[1..]), Pow2(TotalWidth(counts[1..])));
    }
  }

  lemma WrapsExactlyAtAllOnes(v: Vec, counts: Vec)
    requires Counts(counts) && InRange(v, counts) && TotalWidth(counts) <= 64
    ensures Value(v, counts) + 1 == WORD <==> AllOnes(v, counts)
  {
    TopValue(v, counts);
    ValueFits(v, counts);
    Pow2Of32And64();
    if TotalWidth(counts) < 64 { Pow2Grows(TotalWidth(counts), 64); }
  }

  /** The packed test agrees with the vector test: a waiter for `sink` passes the word left by
      the post of `posted` exactly when sink <= posted, except that the post of the all-ones
      vector wraps to 0 and lets nobody pass. */
  lemma PackedTestIsExact(sink: Vec, posted: Vec, counts: Vec)
    requires Counts(counts) && TotalWidth(counts) <= 64
    requires InRange(sink, counts) && InRange(posted, counts)
    ensures Value(sink, counts) < (Value(posted, counts) + 1) % WORD
      <==> LexLe(sink, posted) && !AllOnes(posted, counts)
  {
    ValueOrder(sink, posted, counts);
    WrapsExactlyAtAllOnes(posted, counts);
    ValueFitsWord(posted, counts);
  }

  /** The dimensions fill all 64 bits, each with a power of two of at least two iterations. */
  predicate FillsWord(counts: Vec)
    requires Counts(counts)
  {
    TotalWidth(counts) == 64 && forall i | 0 <= i < |counts| :: counts[i] == Pow2(Width(counts[i]))
  }

  /** What can be known of a loop beforehand: the tests are right for all posts and all sinks if
      and only if the loop does not fill the word. */
  lemma AllPostsAreRight(counts: Vec)
    requires Counts(counts) && TotalWidth(counts) <= 64
    ensures (forall sink, posted :: InRange(sink, counts) && InRange(posted, counts) ==> TestIsRight(sink, posted, counts))
      <==> !FillsWord(counts)
  {
    if FillsWord(counts) {
      LastTestIsWrong(counts);
    } else {
      forall sink, posted | InRange(sink, counts) && InRange(posted, counts) ensures TestIsRight(sink, posted, counts) {
        PackedTestIsExact(sink, posted, counts);
        if AllOnes(posted, counts) { OnlyIfFull(posted, counts); }
      }
    }
  }

  ghost predicate TestIsRight(sink: Vec, posted: Vec, counts: Vec)
    requires Counts(counts) && |sink| == |posted| == |counts|
  {
    Value(sink, counts) < (Value(posted, counts) + 1) % WORD <==> LexLe(sink, posted)
  }

  lemma LastTestIsWrong(counts: Vec)
    requires Counts(counts) && TotalWidth(counts) <= 64 && FillsWord(counts)
    ensures var last := LastVector(counts); InRange(last, counts) && !TestIsRight(last, last, counts)
  {
    var last := LastVector(counts);
    LastIsAllOnes(counts);
    hide Value, FillsWord, AllOnes, InRange, Counts, LexLe;
    PackedTestIsExact(last, last, counts);
    Reflexive(last);
  }
  function LastVector(counts: Vec): Vec
    requires Counts(counts)
  {
    seq(|counts|, i requires 0 <= i < |counts| => counts[i] - 1)
  }

  lemma LastIsAllOnes(counts: Vec)
    requires Counts(counts) && FillsWord(counts)
    ensures InRange(LastVector(counts), counts) && AllOnes(LastVector(counts), counts)
  {
    hide Pow2, Width;
  }

  lemma OnlyIfFull(v: Vec, counts: Vec)
    requires Counts(counts) && InRange(v, counts) && AllOnes(v, counts)
    ensures FillsWord(counts)
  {
    forall i | 0 <= i < |counts| ensures counts[i] == Pow2(Width(counts[i])) {
      WidthIsEnough(counts[i]);
    }
  }

  lemma WidthOfTwoTo32()
    ensures Width(0x1_0000_0000) == 32
  {
    Pow2Of32And64();
    BitLengthBounds(0xFFFF_FFFF);
    var b := BitLength(0xFFFF_FFFF);
    hide Pow2, BitLength;
    if b < 32 { Pow2Grows(b, 32); }
    if b > 33 { Pow2Grows(32, b - 1); }
  }

  lemma TwoDimensionsOfTwoTo32(counts: Vec)
    requires counts == [0x1_0000_0000, 0x1_0000_0000]
    ensures Counts(counts) && TotalWidth(counts) == 64
  {
    Pow2Of32And64();
    Pow2Grows(32, 63);
    WidthOfTwoTo32();
    hide Pow2, Width;
    TotalWidthStep(counts, 0);
    TotalWidthStep(counts, 1);
    assert counts[0..] == counts && counts[2..] == [];
  }

  lemma LastOfTwoTo32(posted: Vec, counts: Vec)
    requires counts == [0x1_0000_0000, 0x1_0000_0000] && posted == [0xFFFF_FFFF, 0xFFFF_FFFF]
    ensures Counts(counts) && InRange(posted, counts) && AllOnes(posted, counts)
  {
    TwoDimensionsOfTwoTo32(counts);
    WidthOfTwoTo32();
    Pow2Of32And64();
    hide Pow2, Width, TotalWidth, Value, Counts;
  }

  /** The exception is real: with two dimensions of 2^32 iterations the very last post makes a
      waiter for the first iteration spin. */
  lemma LastPostCanWrap()
    ensures var counts, sink, posted := [0x1_0000_0000, 0x1_0000_0000], [0, 0], [0xFFFF_FFFF, 0xFFFF_FFFF];
            && Counts(counts) && TotalWidth(counts) == 64 && InRange(sink, counts) && InRange(posted, counts)
            && LexLe(sink, posted)
            && !(Value(sink, counts) < (Value(posted, counts) + 1) % WORD)
  {
    var counts, sink, posted := [0x1_0000_0000, 0x1_0000_0000], [0, 0], [0xFFFF_FFFF, 0xFFFF_FFFF];
    TwoDimensionsOfTwoTo32(counts);
    LastOfTwoTo32(posted, counts);
    assert InRange(sink, counts) && LexLe(sink, posted) by { hide Pow2, Width, TotalWidth, Value, Counts, AllOnes; }
    hide *;
    PackedTestIsExact(sink, posted, counts);
  }
}
