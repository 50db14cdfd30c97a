/** Distribution of the threads of a team over the places of the parent's partition
    (team.c:366-424 and 725-791), for proc_bind close and spread (OpenMP 4.5 section 2.5.2).

  The partition has the places off, off + 1, ..., off + len - 1, and the master is on place p.
 */
module Places {
  import opened Arith
  import opened Collections

  /** The place after p, wrapping by the test for equality that the source uses. */
  function Wrapped(p: nat, off: nat, len: nat): nat {
    if p == off + len then off else p
  }

  // ---------------------------------------------------------------- spread, no more threads than places

  /** The subpartitions: the first len % threads of them have one place more. */
  function Block(off: nat, len: nat, threads: nat, j: nat): nat
    requires threads > 0
  {
    var s, r := len / threads, len % threads;
    if j <= r then off + j * (s + 1) else off + r * (s + 1) + (j - r) * s
  }

  function BlockLen(len: nat, threads: nat, j: nat): nat
    requires threads > 0
  {
    len / threads + if j < len % threads then 1 else 0
  }

  lemma NextBlock(off: nat, len: nat, threads: nat, j: nat)
    requires threads > 0
    ensures Block(off, len, threads, j + 1) == Block(off, len, threads, j) + BlockLen(len, threads, j)
  {
    var s, r := len / threads, len % threads;
    Distribute(j, 1, s + 1);
    if j >= r { Distribute(j - r, 1, s); }
  }

  lemma LastBlockEnds(off: nat, len: nat, threads: nat)
    requires threads > 0
    ensures Block(off, len, threads, 0) == off && Block(off, len, threads, threads) == off + len
  {
    var s, r := len / threads, len % threads;
    assert len == threads * s + r;
    assert r * (s + 1) + (threads - r) * s == r + threads * s by {
      Distribute(r, threads - r, s);
      Distribute(s, 1, r);
    }
  }

  lemma {:induction false} BlocksGrow(off: nat, len: nat, threads: nat, i: nat, j: nat)
    requires 0 < threads <= len && i < j
    ensures Block(off, len, threads, i) < Block(off, len, threads, j)
  {
    NextBlock(off, len, threads, j - 1);
    AtLeastOne(len, threads);
    if i < j - 1 { BlocksGrow(off, len, threads, i, j - 1); }
  }

  /** Block j is among the larger ones exactly when it starts before the last larger one ends. */
  lemma LargerBlocks(off: nat, len: nat, threads: nat, j: nat)
    requires 0 < threads <= len && j < threads
    ensures var s, r := len / threads, len % threads;
      Block(off, len, threads, j) < (s + 1) * r + off <==> j < r
  {
    var r := len % threads;
    assert Block(off, len, threads, r) == off + r * (len / threads + 1);
    if j < r {
      BlocksGrow(off, len, threads, j, r);
    } else if r < j {
      BlocksGrow(off, len, threads, r, j);
    }
  }

  /** The block that holds a place. */
  lemma {:induction false} BlockOf(off: nat, len: nat, threads: nat, m: nat, p: nat) returns (j: nat)
    requires 0 < threads && off <= p < Block(off, len, threads, m)
    ensures j < m && Block(off, len, threads, j) <= p < Block(off, len, threads, j + 1)
  {
    assert Block(off, len, threads, 0) == off;
    if p >= Block(off, len, threads, m - 1) {
      j := m - 1;
    } else {
      j := BlockOf(off, len, threads, m - 1, p);
    }
  }

  /** Every place is in exactly one subpartition, and each has floor or ceiling of len / threads
      places. */
  lemma BlocksPartition(off: nat, len: nat, threads: nat, p: nat)
    requires 0 < threads <= len && off <= p < off + len
    ensures exists j: nat :: j < threads && HasPlace(off, len, threads, j, p)
    ensures forall i: nat, j: nat | i < threads && j < threads :: HasPlace(off, len, threads, i, p) && HasPlace(off, len, threads, j, p) ==> i == j
  {
    LastBlockEnds(off, len, threads);
    var b := BlockOf(off, len, threads, threads, p);
    NextBlock(off, len, threads, b);
    assert HasPlace(off, len, threads, b, p);
    forall i: nat, j: nat | i < j < threads && HasPlace(off, len, threads, i, p) && HasPlace(off, len, threads, j, p) ensures false {
      NextBlock(off, len, threads, i);
      if i + 1 < j { BlocksGrow(off, len, threads, i + 1, j); }
    }
  }

  predicate HasPlace(off: nat, len: nat, threads: nat, j: nat, p: nat)
    requires threads > 0
  {
    Block(off, len, threads, j) <= p < Block(off, len, threads, j) + BlockLen(len, threads, j)
  }

  datatype Part = Part(off: nat, len: nat) {
    predicate Has(p: nat) {
      off <= p < off + len
    }
  }

  ghost predicate HasAt(parts: seq<Part>, k: nat, p: nat) {
    k < |parts| && parts[k].Has(p)
  }

  /** A place of the partition is in exactly one of the parts, any other in none. */
  ghost predicate OnePart(off: nat, len: nat, parts: seq<Part>, p: nat) {
    && (off <= p < off + len <==> exists k: nat :: HasAt(parts, k, p))
    && forall i: nat, k: nat :: HasAt(parts, i, p) && HasAt(parts, k, p) ==> i == k
  }

  /** A part has floor or ceiling of len / threads places. */
  predicate EvenPart(len: nat, threads: nat, part: Part)
    requires threads > 0
  {
    len / threads <= part.len <= len / threads + if len % threads == 0 then 0 else 1
  }

  /** The subpartitions that the walk gives to the threads, that of the master first. */
  method Spread(off: nat, len: nat, p0: nat, threads: nat) returns (parts: seq<Part>, ghost m: nat)
    requires 0 < threads <= len && off <= p0 < off + len
    ensures m < threads && HasPlace(off, len, threads, m, p0)
    ensures |parts| == threads && PartsOk(off, len, threads, m, parts)
    ensures parts[0].Has(p0) && (forall p: nat :: OnePart(off, len, parts, p))
    ensures forall k | 0 <= k < threads :: EvenPart(len, threads, parts[k])
    ensures forall i, k :: 0 <= i && k == i + 1 < threads ==> parts[k].off == Wrapped(parts[i].off + parts[i].len, off, len)
  {
    hide Block, BlockLen, HasPlace;
    AtLeastOne(len, threads);
    LastBlockEnds(off, len, threads);
    m := FindMaster(off, len, threads, p0);
    var s := len / threads;
    var rest := (s + 1) * (len % threads) + off;
    var p := p0;
    MasterBlock(off, len, threads, p0, m);
    LargerBlocks(off, len, threads, m);
    LenIs(len, threads, m);
    if p < rest {
      p := p - (p - off) % (s + 1);
      parts := [Part(p, s + 1)];
    } else {
      p := p - (p - rest) % s;
      parts := [Part(p, s)];
    }
    ghost var j := m;
    assert j == (m + 0) % threads by { ModIs(m, threads, 0, m); }
    var i := 1;
    while i < threads
      invariant 1 <= i <= threads && |parts| == i
      invariant j == (m + i - 1) % threads && p == Block(off, len, threads, j)
      invariant PartsOk(off, len, threads, m, parts)
    {
      LargerBlocks(off, len, threads, j);
      LenIs(len, threads, j);
      if p < rest {
        p := p + s + 1;
      } else {
        p := p + s;
      }
      WrapHits(off, len, threads, j);
      p := Wrapped(p, off, len);
      NextMod(m + i - 1, threads);
      j := (m + i) % threads;
      LargerBlocks(off, len, threads, j);
      LenIs(len, threads, j);
      parts := parts + [Part(p, if p < rest then s + 1 else s)];
      i := i + 1;
    }
    hide PartsOk;
    PartsPartition(off, len, p0, threads, m, parts);
  }

  /** Each place of the partition is in exactly one of the subpartitions, and that of the master in the
      first; they have floor or ceiling of len / threads places and follow each other. */
  lemma PartsPartition(off: nat, len: nat, p0: nat, threads: nat, m: nat, parts: seq<Part>)
    requires 0 < threads <= len && off <= p0 < off + len && m < threads && HasPlace(off, len, threads, m, p0)
    requires |parts| == threads && PartsOk(off, len, threads, m, parts)
    ensures parts[0].Has(p0) && (forall p: nat :: OnePart(off, len, parts, p))
    ensures forall k | 0 <= k < threads :: EvenPart(len, threads, parts[k])
    ensures forall i, k :: 0 <= i && k == i + 1 < threads ==> parts[k].off == Wrapped(parts[i].off + parts[i].len, off, len)
  {
    assert parts[0].Has(p0) by { ModIs(m, threads, 0, m); }
    forall p: nat ensures OnePart(off, len, parts, p) {
      PlaceInOnePart(off, len, threads, m, parts, p);
    }
    forall k | 0 <= k < threads ensures EvenPart(len, threads, parts[k]) {
      PartIsEven(off, len, threads, (m + k) % threads);
    }
    hide Block, BlockLen, OnePart, EvenPart;
    forall i, k | 0 <= i && k == i + 1 < threads ensures parts[k].off == Wrapped(parts[i].off + parts[i].len, off, len) {
      NextMod(m + i, threads);
      WrapHits(off, len, threads, (m + i) % threads);
    }
  }

  lemma PartIsEven(off: nat, len: nat, threads: nat, j: nat)
    requires 0 < threads
    ensures EvenPart(len, threads, PartAt(off, len, threads, j))
  {
  }

  lemma PlaceInOnePart(off: nat, len: nat, threads: nat, m: nat, parts: seq<Part>, p: nat)
    requires 0 < threads <= len && m < threads && |parts| == threads && PartsOk(off, len, threads, m, parts)
    ensures OnePart(off, len, parts, p)
  {
    hide Block, BlockLen;
    assert forall k: nat :: HasAt(parts, k, p) ==> HasPlace(off, len, threads, (m + k) % threads, p);
    hide PartsOk, HasPlace;
    if off <= p < off + len {
      var j := FindMaster(off, len, threads, p);
      var k := TurnOf(m, threads, j);
      assert HasAt(parts, k, p) by { PartIs(off, len, threads, m, parts, k, p); }
    }
    forall i: nat, k: nat | HasAt(parts, i, p) && HasAt(parts, k, p) ensures i == k {
      BlockInside(off, len, threads, (m + i) % threads, p);
      BlocksPartition(off, len, threads, p);
      TurnsDiffer(m, threads, i, k);
    }
    forall k: nat | HasAt(parts, k, p) ensures off <= p < off + len {
      BlockInside(off, len, threads, (m + k) % threads, p);
    }
  }

  lemma PartIs(off: nat, len: nat, threads: nat, m: nat, parts: seq<Part>, k: nat, p: nat)
    requires 0 < threads && |parts| == threads && PartsOk(off, len, threads, m, parts) && k < threads
    ensures parts[k].Has(p) <==> HasPlace(off, len, threads, (m + k) % threads, p)
  {
  }

  lemma BlockInside(off: nat, len: nat, threads: nat, j: nat, p: nat)
    requires 0 < threads <= len && j < threads && HasPlace(off, len, threads, j, p)
    ensures off <= p < off + len
  {
    NextBlock(off, len, threads, j);
    LastBlockEnds(off, len, threads);
    if j + 1 < threads { BlocksGrow(off, len, threads, j + 1, threads); }
    if 0 < j { BlocksGrow(off, len, threads, 0, j); }
  }

  /** Block j is given to this thread. */
  lemma TurnOf(m: nat, threads: nat, j: nat) returns (k: nat)
    requires m < threads && j < threads
    ensures k < threads && (m + k) % threads == j
  {
    k := if j >= m then j - m else j + threads - m;
    ModIs(m + k, threads, if j >= m then 0 else 1, j);
  }

  lemma TurnsDiffer(m: nat, threads: nat, i: nat, k: nat)
    requires m < threads && i < threads && k < threads
    ensures (m + i) % threads == (m + k) % threads ==> i == k
  {
    var x, y := if m + i < threads then m + i else m + i - threads, if m + k < threads then m + k else m + k - threads;
    ModIs(m + i, threads, if m + i < threads then 0 else 1, x);
    ModIs(m + k, threads, if m + k < threads then 0 else 1, y);
  }

  /** The subpartitions so far are consecutive blocks from block m on, around the partition. */
  ghost predicate PartsOk(off: nat, len: nat, threads: nat, m: nat, parts: seq<Part>)
    requires threads > 0
  {
    forall k | 0 <= k < |parts| :: parts[k] == PartAt(off, len, threads, (m + k) % threads)
  }

  function PartAt(off: nat, len: nat, threads: nat, j: nat): Part
    requires threads > 0
  {
    Part(Block(off, len, threads, j), BlockLen(len, threads, j))
  }

  lemma LenIs(len: nat, threads: nat, j: nat)
    requires threads > 0
    ensures BlockLen(len, threads, j) == if j < len % threads then len / threads + 1 else len / threads
  {
  }

  lemma FindMaster(off: nat, len: nat, threads: nat, p: nat) returns (m: nat)
    requires 0 < threads <= len && off <= p < off + len
    ensures m < threads && HasPlace(off, len, threads, m, p)
  {
    LastBlockEnds(off, len, threads);
    m := BlockOf(off, len, threads, threads, p);
    NextBlock(off, len, threads, m);
  }

  lemma NextMod(a: nat, n: nat)
    requires n > 0
    ensures (a + 1) % n == if a % n + 1 == n then 0 else a % n + 1
  {
    var q, r := a / n, a % n;
    assert a == q * n + r;
    if r + 1 == n {
      Distribute(q, 1, n);
      ModIs(a + 1, n, q + 1, 0);
    } else {
      ModIs(a + 1, n, q, r + 1);
    }
  }

  /** The end of a block is the end of the partition exactly for the last block, and never
      beyond it, so the wrap-around test by equality is always hit. */
  lemma WrapHits(off: nat, len: nat, threads: nat, j: nat)
    requires 0 < threads <= len && j < threads
    ensures var p := Block(off, len, threads, j) + BlockLen(len, threads, j);
      && p <= off + len && (p == off + len <==> j + 1 == threads)
      && Wrapped(p, off, len) == Block(off, len, threads, if j + 1 == threads then 0 else j + 1)
  {
    NextBlock(off, len, threads, j);
    LastBlockEnds(off, len, threads);
    if j + 1 < threads { BlocksGrow(off, len, threads, j + 1, threads); }
  }

  /** Rounding down gives the start of the master's block. */
  lemma MasterBlock(off: nat, len: nat, threads: nat, p: nat, m: nat)
    requires 0 < threads <= len && m < threads && HasPlace(off, len, threads, m, p) && len / threads >= 1
    ensures var s, rest := len / threads, (len / threads + 1) * (len % threads) + off;
      if m < len % threads then p < rest && p - (p - off) % (s + 1) == Block(off, len, threads, m)
      else p >= rest && p - (p - rest) % s == Block(off, len, threads, m)
  {
    var s, r := len / threads, len % threads;
    var d := p - Block(off, len, threads, m);
    if m < r {
      ModIs(p - off, s + 1, m, d);
      MulMono(m + 1, r, s + 1);
      Distribute(m, 1, s + 1);
    } else {
      ModIs(p - (r * (s + 1) + off), s, m - r, d);
    }
  }

  // ---------------------------------------------------------------- more threads than places

  /** How many places after the master's one thread i is placed: s threads on each place in turn,
      and the last ones one by one. */
  function Step(len: nat, threads: nat, i: nat): nat
    requires len > 0
  {
    var s := threads / len;
    if s == 0 then i else if i < s * len then i / s else i - s * len
  }

  /** Place number d after the master's, around the partition. */
  function Around(off: nat, len: nat, p0: nat, d: nat): nat
    requires off <= p0
  {
    if p0 + d >= off + len then p0 + d - len else p0 + d
  }

  /** The number of the first n threads on the place d after the master's. */
  function Load(len: nat, threads: nat, n: nat, d: nat): nat
    requires len > 0
  {
    if n == 0 then 0 else Load(len, threads, n - 1, d) + if Step(len, threads, n - 1) == d then 1 else 0
  }

  lemma NextAround(off: nat, len: nat, p0: nat, d: nat)
    requires off <= p0 < off + len && d < len
    ensures off <= Around(off, len, p0, d) < off + len
    ensures Wrapped(Around(off, len, p0, d) + 1, off, len) == Around(off, len, p0, if d + 1 == len then 0 else d + 1)
  {
  }

  /** While each place takes s threads: the next thread stays, or opens the next place. */
  lemma NextStep(s: nat, i: nat)
    requires s > 0 && i > 0
    ensures i / s == (i - 1) / s + (if (i - 1) % s + 1 == s then 1 else 0)
    ensures i % s == if (i - 1) % s + 1 == s then 0 else (i - 1) % s + 1
  {
    var q, r := (i - 1) / s, (i - 1) % s;
    assert i - 1 == q * s + r;
    if r + 1 == s {
      Distribute(q, 1, s);
      ModIs(i, s, q + 1, 0);
    } else {
      ModIs(i, s, q, r + 1);
    }
  }

  /** The thread counter within a place, after thread i - 1. */
  ghost predicate PhaseOk(len: nat, threads: nat, i: nat, s: nat, k: nat)
    requires len > 0 && threads > len && i > 0
  {
    var s0 := threads / len;
    if i <= s0 * len then s == s0 > 0 && k == (i - 1) % s0 + 1 else s == 1 == k
  }

  lemma PhaseStarts(len: nat, threads: nat)
    requires 0 < len < threads
    ensures PhaseOk(len, threads, 1, threads / len, 1) && Step(len, threads, 0) == 0
    ensures threads - threads % len == threads / len * len && threads / len > 0
  {
    var s := threads / len;
    assert threads == s * len + threads % len;
    AtLeastOne(threads, len);
    MulMono(1, s, len);
    ModIs(0, s, 0, 0);
  }

  /** One turn of the loop, from thread i - 1 to thread i. */
  lemma PhaseGoesOn(len: nat, threads: nat, i: nat, s: nat, k: nat)
    requires 0 < len < threads && 0 < i < threads && PhaseOk(len, threads, i, s, k)
    ensures var d := Step(len, threads, i - 1);
      && d < len
      && Step(len, threads, i) == (if k == s then (if d + 1 == len then 0 else d + 1) else d)
      && PhaseOk(len, threads, i + 1, if k == s && i == threads - threads % len then 1 else s, if k == s then 1 else k + 1)
  {
    var s0 := threads / len;
    PhaseStarts(len, threads);
    hide Load;
    if i < s0 * len {
      NextStep(s0, i);
      InRange(i, s0, len);
    } else if i == s0 * len {
      ModIs(i - 1, s0, len - 1, s0 - 1);
    }
  }

  lemma InRange(i: nat, s: nat, len: nat)
    requires s > 0 && 0 < i < s * len
    ensures i / s < len && (i - 1) / s < len
  {
    assert i == i / s * s + i % s && i - 1 == (i - 1) / s * s + (i - 1) % s;
    if i / s >= len { MulMono(len, i / s, s); }
    if (i - 1) / s >= len { MulMono(len, (i - 1) / s, s); }
  }

  /** The places of the threads when there are more threads than places, for close and spread. */
  method Pack(off: nat, len: nat, p0: nat, threads: nat) returns (places: seq<nat>)
    requires 0 < len < threads && off <= p0 < off + len
    ensures |places| == threads
    ensures forall i | 0 <= i < threads :: places[i] == Around(off, len, p0, Step(len, threads, i))
    ensures forall i | 0 <= i < threads :: off <= places[i] < off + len
    ensures forall p: nat | off <= p < off + len ::
              OnPlace(places, threads, p) == threads / len + if Distance(len, p0, p) < threads % len then 1 else 0
  {
    var s: nat, rest: nat, p: nat, k: nat := threads / len, threads % len, p0, 1;
    places := [p0];
    PhaseStarts(len, threads);
    var i := 1;
    hide Step, PhaseOk;
    while i < threads
      invariant 1 <= i <= threads && |places| == i && PhaseOk(len, threads, i, s, k)
      invariant p == Around(off, len, p0, Step(len, threads, i - 1))
      invariant forall j | 0 <= j < i :: places[j] == Around(off, len, p0, Step(len, threads, j))
    {
      PhaseGoesOn(len, threads, i, s, k);
      NextAround(off, len, p0, Step(len, threads, i - 1));
      if k == s {
        p := Wrapped(p + 1, off, len);
        k := 1;
        if i == threads - rest {
          s := 1;
        }
      } else {
        k := k + 1;
      }
      places := places + [p];
      i := i + 1;
    }
    PackedEvenly(off, len, p0, threads, places);
  }

  /** How many of the first n threads are on place p. */
  function OnPlace(places: seq<nat>, n: nat, p: nat): nat
    requires n <= |places|
  {
    if n == 0 then 0 else OnPlace(places, n - 1, p) + if places[n - 1] == p then 1 else 0
  }

  /** From the master's place p0 around to p. */
  function Distance(len: nat, p0: nat, p: nat): int {
    if p >= p0 then p - p0 else p - p0 + len
  }

  /** Every place of the partition has floor or ceiling of threads / len threads; those that have
      one more come first on the way around from the master. */
  lemma PackedEvenly(off: nat, len: nat, p0: nat, threads: nat, places: seq<nat>)
    requires 0 < len < threads && off <= p0 < off + len && |places| == threads
    requires forall i | 0 <= i < threads :: places[i] == Around(off, len, p0, Step(len, threads, i))
    ensures forall i | 0 <= i < threads :: off <= places[i] < off + len
    ensures forall p: nat | off <= p < off + len ::
              OnPlace(places, threads, p) == threads / len + if Distance(len, p0, p) < threads % len then 1 else 0
  {
    forall i | 0 <= i < threads ensures off <= places[i] < off + len {
      StepInside(len, threads, i);
      NextAround(off, len, p0, Step(len, threads, i));
    }
    forall p: nat | off <= p < off + len
      ensures OnPlace(places, threads, p) == threads / len + if Distance(len, p0, p) < threads % len then 1 else 0
    {
      var d: nat := Distance(len, p0, p);
      OnPlaceIsLoad(off, len, p0, threads, places, threads, d);
      LoadsAreEven(len, threads, d);
    }
  }

  lemma {:induction false} OnPlaceIsLoad(off: nat, len: nat, p0: nat, threads: nat, places: seq<nat>, n: nat, d: nat)
    requires 0 < len < threads && off <= p0 < off + len && |places| == threads && n <= threads && d < len
    requires forall i | 0 <= i < threads :: places[i] == Around(off, len, p0, Step(len, threads, i))
    ensures OnPlace(places, n, Around(off, len, p0, d)) == Load(len, threads, n, d)
  {
    if n > 0 {
      OnPlaceIsLoad(off, len, p0, threads, places, n - 1, d);
      StepInside(len, threads, n - 1);
      AroundIsPermutation(off, len, p0, places[n - 1]);
    }
  }

  lemma StepInside(len: nat, threads: nat, i: nat)
    requires 0 < len < threads && i < threads
    ensures Step(len, threads, i) < len
  {
    var s := threads / len;
    AtLeastOne(threads, len);
    DivBounds(threads, len);
    if i < s * len {
      DivBounds(i, s);
      assert len * s == s * len;
      if i / s >= len { MulMono(len, i / s, s); }
    }
  }

  /** The threads on each place have consecutive numbers. */
  ghost predicate InBlocks(places: seq<nat>) {
    forall i, j, k :: 0 <= i < j < k < |places| && places[i] == places[k] ==> places[j] == places[i]
  }

  /** That is so, as OpenMP 4.5 section 2.5.2 asks, if and only if the places divide the threads: the
      threads left over go one by one to places that are occupied already. */
  lemma BlocksIfEven(off: nat, len: nat, p0: nat, threads: nat, places: seq<nat>)
    requires 0 < len < threads && off <= p0 < off + len && |places| == threads
    requires forall i | 0 <= i < threads :: places[i] == Around(off, len, p0, Step(len, threads, i))
    ensures InBlocks(places) <==> threads % len == 0
  {
    var s := threads / len;
    PhaseStarts(len, threads);
    forall i: nat | i < threads ensures Step(len, threads, i) < len {
      StepInside(len, threads, i);
    }
    AroundIsPermutation(off, len, p0, p0);
    hide Around;
    if threads % len == 0 {
      forall i: nat, j: nat, k: nat | i < j < k < threads && places[i] == places[k] ensures places[j] == places[i] {
        assert Step(len, threads, i) == Step(len, threads, k);
        QuotientGrows(i, j, s);
        QuotientGrows(j, k, s);
      }
    } else {
      LeftOver(len, threads, s);
      assert places[0] == places[s * len] && places[s] != places[0];
    }
  }

  lemma QuotientGrows(i: nat, j: nat, s: nat)
    requires s > 0 && i <= j
    ensures i / s <= j / s
  {
    DivBounds(i, s);
    DivBounds(j, s);
    if i / s > j / s { MulStep(j / s, i / s, s); }
  }

  /** The first thread left over comes back to the place of the master, which thread s had left. */
  lemma LeftOver(len: nat, threads: nat, s: nat)
    requires 0 < len < threads && threads % len != 0 && s == threads / len
    ensures 0 < s < s * len < threads
    ensures Step(len, threads, 0) == 0 && Step(len, threads, s) == 1 && Step(len, threads, s * len) == 0
  {
    PhaseStarts(len, threads);
    ModIs(threads, 1, threads, 0);
    assert len > 1;
    MulStep(1, len, s);
    ModIs(s, s, 1, 0);
  }

  lemma LeftOverComesBack()
    ensures Step(2, 3, 0) == 0 && Step(2, 3, 1) == 1 && Step(2, 3, 2) == 0
  {
  }

  /** The places for close when there are at most as many threads as places: one after the other. */
  method OneEach(off: nat, len: nat, p0: nat, threads: nat) returns (places: seq<nat>)
    requires 0 < threads <= len && off <= p0 < off + len
    ensures |places| == threads
    ensures forall i | 0 <= i < threads :: places[i] == Around(off, len, p0, i)
    ensures NoDup(places)
  {
    var p := p0;
    places := [p0];
    while |places| < threads
      invariant 1 <= |places| <= threads && p == Around(off, len, p0, |places| - 1)
      invariant forall j | 0 <= j < |places| :: places[j] == Around(off, len, p0, j)
      decreases threads - |places|
    {
      p := Wrapped(p + 1, off, len);
      places := places + [p];
    }
    forall i, j | 0 <= i < j < threads ensures places[i] != places[j] {
      AroundIsPermutation(off, len, p0, p0);
    }
  }

  /** How many of the first n threads are on a place while each takes s in turn. */
  function Filled(s: nat, n: nat, d: nat): nat {
    if n <= d * s then 0 else if n >= d * s + s then s else n - d * s
  }

  lemma FilledNext(s: nat, n: nat, d: nat)
    requires s > 0
    ensures Filled(s, n + 1, d) == Filled(s, n, d) + if n / s == d then 1 else 0
  {
    assert n == n / s * s + n % s;
    if n / s < d { MulMono(n / s + 1, d, s); Distribute(n / s, 1, s); }
    if n / s > d { MulMono(d + 1, n / s, s); Distribute(d, 1, s); }
  }

  lemma {:induction false} LoadIs(len: nat, threads: nat, n: nat, d: nat)
    requires 0 < len < threads && n <= threads && d < len
    ensures var s := threads / len;
      Load(len, threads, n, d) == if n <= s * len then Filled(s, n, d) else s + if d < n - s * len then 1 else 0
  {
    var s := threads / len;
    AtLeastOne(threads, len);
    if n > 0 {
      LoadIs(len, threads, n - 1, d);
      FilledNext(s, n - 1, d);
      MulMono(d + 1, len, s);
      Distribute(d, 1, s);
    }
  }

  /** Every place receives floor or ceiling of threads / len threads; the places that get one more
      are those from the master's on. */
  lemma LoadsAreEven(len: nat, threads: nat, d: nat)
    requires 0 < len < threads && d < len
    ensures Load(len, threads, threads, d) == threads / len + if d < threads % len then 1 else 0
  {
    var s := threads / len;
    hide *;
    PhaseStarts(len, threads);
    LoadIs(len, threads, threads, d);
    FilledAll(s, len, d);
  }

  lemma FilledAll(s: nat, len: nat, d: nat)
    requires d < len
    ensures Filled(s, s * len, d) == s
  {
    MulMono(d + 1, len, s);
    Distribute(d, 1, s);
  }

  /** Going around from the master's place reaches every place of the partition once. */
  lemma AroundIsPermutation(off: nat, len: nat, p0: nat, p: nat)
    requires off <= p0 < off + len && off <= p < off + len
    ensures exists d: nat :: d < len && Around(off, len, p0, d) == p
    ensures forall c: nat, d: nat | c < len && d < len :: Around(off, len, p0, c) == Around(off, len, p0, d) ==> c == d
  {
    var d: nat := if p >= p0 then p - p0 else p - p0 + len;
    assert Around(off, len, p0, d) == p;
  }
}
