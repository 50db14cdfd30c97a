/** The 64-bit words of the loop code: long and unsigned long long.  Both wrap; for long that is
    what two's complement does, although the C standard promises nothing there.
 */
module Words {

  const WORD := 0x1_0000_0000_0000_0000
  const HALF := 0x8000_0000_0000_0000

  datatype Kind = Long | Ull {
    function Min(): int {
      if Long? then -HALF else 0
    }

    function Max(): int {
      Min() + WORD - 1
    }

    predicate Has(x: int) {
      Min() <= x <= Max()
    }

    /** The word that x becomes. */
    function Norm(x: int): (r: int)
      ensures Has(r)
    {
      (x - Min()) % WORD + Min()
    }
  }

  /** The conversion to unsigned. */
  function Unsigned(x: int): (r: nat)
    ensures r < WORD
  {
    x % WORD
  }

  /** A word is found by adding or taking away multiples of 2^64. */
  lemma NormIs(kind: Kind, x: int, y: int, k: int)
    requires kind.Has(y) && x == y + k * WORD
    ensures kind.Norm(x) == y
  {
  }

  lemma UnsignedIs(x: int, y: nat, k: int)
    requires y < WORD && x == y + k * WORD
    ensures Unsigned(x) == y
  {
  }

  lemma NormId(kind: Kind, x: int)
    requires kind.Has(x)
    ensures kind.Norm(x) == x
  {
  }

  lemma NormAdd(kind: Kind, x: int, y: int)
    ensures kind.Norm(x + kind.Norm(y)) == kind.Norm(x + y)
  {
    var k := (y - kind.Min()) / WORD;
    assert y == kind.Norm(y) + k * WORD;
    var z := kind.Norm(x + kind.Norm(y));
    var j := (x + kind.Norm(y) - kind.Min()) / WORD;
    NormIs(kind, x + y, z, j + k);
  }

  /** What the increment of a loop stands for, by the direction of the loop: in an unsigned loop
      downward it is a huge number. */
  function StepOf(kind: Kind, up: bool, incr: int): int {
    if kind.Long? then (if up then incr else -incr) else Unsigned(if up then incr else -incr)
  }

  /** An increment that may be: not zero, and in a signed loop of the right sign. */
  predicate IncrOk(kind: Kind, up: bool, incr: int) {
    kind.Has(incr) && incr != 0 && (kind.Long? ==> (up <==> incr > 0))
  }

  /** Positions in the direction of the loop. */
  function Dir(up: bool, x: int): int {
    if up then x else -x
  }

  lemma StepIsPositive(kind: Kind, up: bool, incr: int)
    requires IncrOk(kind, up, incr)
    ensures 0 < StepOf(kind, up, incr) <= WORD - 1
    ensures kind.Long? ==> StepOf(kind, up, incr) <= HALF && (up ==> StepOf(kind, up, incr) < HALF)
    ensures exists k: int :: Dir(up, incr) == StepOf(kind, up, incr) + k * WORD
  {
    var s := StepOf(kind, up, incr);
    if kind.Long? || up {
      assert Dir(up, incr) == s + 0 * WORD;
    } else {
      assert Dir(up, incr) == s + (-1) * WORD;
    }
  }
}
