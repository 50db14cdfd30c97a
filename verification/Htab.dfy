/** The open-addressing hash table of hashtab.h:227-439, updated in place, proved to be a finite
    map from keys to entries.

  The last row of the table of primes is left out of probing, because the sum of index and step
  wraps in 32 bits there.
 */
module Htab {
  import opened Arith
  import opened Primes
  import opened Options
  import opened HtabMod
  import opened HtabPrimes
  import opened HtabProbe
  import opened HtabCells

  const ROWS: nat := 29

  lemma RowsInTable()
    ensures ROWS < |PRIME_TAB|
  {
  }

  /** htab_mod and htab_mod_m2 are the start and the stride of the probes. */
  lemma FirstProbe(h: hashval, row: nat)
    requires row < ROWS
    ensures var e := PRIME_TAB[row];
      && 2 < e.prime && 2 * e.prime <= WORD
      && Mod1(h, e.prime, e.inv, e.shift) == Slot(h, e.prime, 0)
      && 1 + Mod1(h, e.prime - 2, e.invM2, e.shift) == Stride(h, e.prime)
  {
    RowFits(row);
    hide PRIME_TAB, Mod1, Probe;
    TableMods(h, row);
    ProbeZero(h, PRIME_TAB[row].prime);
  }

  lemma RowFits(row: nat)
    requires row < ROWS
    ensures 2 * PRIME_TAB[row].prime <= WORD
  {
    assert 2 * PRIME_TAB[ROWS - 1].prime <= WORD && |PRIME_TAB| > ROWS;
    hide PRIME_TAB;
    if row < ROWS - 1 { RowsIncrease(row, ROWS - 1); }
  }

  lemma ProbeZero(h: hashval, size: nat)
    requires 2 < size
    ensures Slot(h, size, 0) == h % size
  {
    assert 0 * Stride(h, size) == 0;
    SmallMod(h % size, size);
  }

  lemma SmallMod(n: nat, size: nat)
    requires n < size
    ensures n % size == n
  {
  }

  /** One step of a probe loop, on 32-bit words. */
  function NextIndex(index: nat, hash2: nat, size: nat): nat {
    var sum := (index + hash2) % WORD;
    if sum >= size then sum - size else sum
  }

  lemma NextIndexIs(h: hashval, size: nat, k: nat)
    requires 2 < size && 2 * size <= WORD
    ensures NextIndex(Slot(h, size, k), Stride(h, size), size) == Slot(h, size, k + 1)
  {
    hide Probe, Start, Stride;
    NextProbe(Start(h, size), Stride(h, size), size, k);
    SumFits(Slot(h, size, k), Stride(h, size), size);
  }

  /** One step of a probe loop goes to the next slot if and only if the sum is a 32-bit word. */
  lemma NextIndexIsExact(index: nat, hash2: nat, size: nat)
    requires index < size < WORD && 0 < hash2 < size
    ensures NextIndex(index, hash2, size) == (index + hash2) % size <==> index + hash2 < WORD
  {
    if index + hash2 < size {
      SmallMod(index + hash2, size);
    } else {
      ModIs(index + hash2, size, 1, index + hash2 - size);
    }
  }

  /** In the last row it is not always one, and the step goes astray. */
  lemma LastRowGoesAstray()
    ensures var size: nat := PRIME_TAB[29].prime;
      NextIndex(size - 1, size - 2, size) == size - 8 && (size - 1 + (size - 2)) % size == size - 3
  {
    var size: nat := PRIME_TAB[29].prime;
    assert size == 0xfffffffb;
    ModIs(size - 1 + (size - 2), size, 1, size - 3);
    ModIs(size - 1 + (size - 2), WORD, 1, size - 8);
  }

  lemma SumFits(index: nat, hash2: nat, size: nat)
    requires index < size && hash2 < size && 2 * size <= WORD
    ensures (index + hash2) % WORD == index + hash2
  {
  }

  ghost predicate TableOk(cells: seq<Cell>, hash: int -> hashval, row: nat, nElements: nat, nDeleted: nat) {
    && row < ROWS && |cells| == PRIME_TAB[row].prime
    && Good(cells, hash)
    && nElements == Used(cells) && nElements - nDeleted == Live(cells)
    && nElements < |cells|
  }

  /** Storing an entry with the key at the slot gives a table that maps the key to it. */
  ghost predicate ReadyFor(cells: seq<Cell>, hash: int -> hashval, row: nat, nElements: nat, nDeleted: nat, slot: nat, key: int) {
    slot < |cells| && KeysApart(cells) &&
    forall e: Entry | e.key == key ::
      && TableOk(cells[slot := Full(e)], hash, row, nElements, nDeleted)
      && Contents(cells[slot := Full(e)]) == Contents(cells)[key := e]
  }

  /** A new slot counts; the slot of a deleted entry is emptied and counts already. */
  lemma NewSlotIsReady(cells: seq<Cell>, hash: int -> hashval, row: nat, nElements: nat, nDeleted: nat, s: nat, key: int, k: nat)
    requires TableOk(cells, hash, row, nElements, nDeleted) && nElements + 1 < |cells|
    requires s < |cells| && cells[s] == Empty && forall i | 0 <= i < |cells| :: !Has(cells[i], key)
    requires Slot(hash(key), |cells|, k) == s && NoEmptyBefore(cells, hash(key), k)
    ensures ReadyFor(cells, hash, row, nElements + 1, nDeleted, s, key)
  {
    forall e: Entry | e.key == key
      ensures TableOk(cells[s := Full(e)], hash, row, nElements + 1, nDeleted)
      ensures Contents(cells[s := Full(e)]) == Contents(cells)[key := e]
    {
      StoreKeepsGood(cells, hash, s, e, k);
      UsedAfter(cells, s, Full(e));
    }
  }

  lemma DeletedSlotIsReady(cells: seq<Cell>, hash: int -> hashval, row: nat, nElements: nat, nDeleted: nat, s: nat, key: int, k: nat)
    requires TableOk(cells, hash, row, nElements, nDeleted)
    requires s < |cells| && cells[s] == Deleted && forall i | 0 <= i < |cells| :: !Has(cells[i], key)
    requires Slot(hash(key), |cells|, k) == s && NoEmptyBefore(cells, hash(key), k)
    ensures nDeleted > 0 && ReadyFor(cells[s := Empty], hash, row, nElements, nDeleted - 1, s, key)
    ensures Contents(cells[s := Empty]) == Contents(cells)
  {
    var cells' := cells[s := Empty];
    DeletedCounts(cells, s);
    forall f ensures f in Entries(cells') <==> f in Entries(cells) {
      EntryIsHeld(cells, f);
      EntryIsHeld(cells', f);
      if i :| 0 <= i < |cells| && cells[i] == Full(f) { assert cells'[i] == Full(f); }
    }
    assert KeysApart(cells');
    SameContents(cells, cells');
    forall e: Entry | e.key == key
      ensures TableOk(cells'[s := Full(e)], hash, row, nElements, nDeleted - 1)
      ensures Contents(cells'[s := Full(e)]) == Contents(cells)[key := e]
    {
      assert cells'[s := Full(e)] == cells[s := Full(e)];
      StoreKeepsGood(cells, hash, s, e, k);
      UsedAfter(cells, s, Full(e));
    }
  }

  lemma DeletedCounts(cells: seq<Cell>, s: nat)
    requires s < |cells| && cells[s] == Deleted
    ensures Live(cells) < Used(cells)
  {
    UsedAfter(cells, s, Empty);
    LiveIsUsed(cells[s := Empty]);
  }

  /** find_empty_slot_for_expand. */
  method FindEmptySlot(entries: array<Cell>, row: nat, h: hashval) returns (index: nat, ghost k: nat)
    requires row < ROWS && entries.Length == PRIME_TAB[row].prime && IsPrime(entries.Length) && entries.Length > 2
    requires Used(entries[..]) < entries.Length
    ensures index < entries.Length && entries[index] == Empty
    ensures Slot(h, entries.Length, k) == index && NoEmptyBefore(entries[..], h, k)
  {
    hide PRIME_TAB, Mod1, Slot, Stride, NextIndex, IsPrime, Used;
    RowsInTable();
    var p, size := PRIME_TAB[row], entries.Length;
    ghost var cells := entries[..];
    ghost var empty := SomeEmpty(cells);
    FirstProbe(h, row);
    index, k := Mod1(h, p.prime, p.inv, p.shift), 0;
    if entries[index] == Empty { return; }
    var hash2 := 1 + Mod1(h, p.prime - 2, p.invM2, p.shift);
    while true
      invariant index == Slot(h, size, k) && NoEmptyBefore(cells, h, k + 1)
      decreases size - k
    {
      SearchEnds(cells, h, 0, k + 1, empty);
      NextIndexIs(h, size, k);
      index, k := NextIndex(index, hash2, size), k + 1;
      if entries[index] == Empty { return; }
    }
  }

  /** The entries of the first p old slots are in the new table. */
  ghost predicate Moved(cells: seq<Cell>, p: nat, cells': seq<Cell>, hash: int -> hashval)
    requires p <= |cells|
  {
    && Good(cells', hash)
    && Entries(cells') == Entries(cells[..p])
    && Used(cells') == Live(cells') == Live(cells[..p])
  }

  lemma PrefixEntries(cells: seq<Cell>, p: nat)
    requires p < |cells|
    ensures Entries(cells[..p + 1]) == Entries(cells[..p]) + if cells[p].Full? then {cells[p].entry} else {}
    ensures Live(cells[..p + 1]) == Live(cells[..p]) + if cells[p].Full? then 1 else 0
  {
    var a, b := cells[..p], cells[..p + 1];
    assert b[..p] == a;
    forall f ensures f in Entries(b) <==> f in Entries(a) || cells[p] == Full(f) {
      EntryIsHeld(a, f);
      EntryIsHeld(b, f);
      if i :| 0 <= i < |a| && a[i] == Full(f) { assert b[i] == Full(f); }
      if cells[p] == Full(f) { assert b[p] == Full(f); }
    }
  }

  lemma MovedNothing(cells: seq<Cell>, p: nat, cells': seq<Cell>, hash: int -> hashval)
    requires p < |cells| && Moved(cells, p, cells', hash) && !cells[p].Full?
    ensures Moved(cells, p + 1, cells', hash)
  {
    PrefixEntries(cells, p);
  }

  /** The next old entry has a key that the new table does not hold yet. */
  lemma KeyIsNew(cells: seq<Cell>, p: nat, cells': seq<Cell>, hash: int -> hashval)
    requires KeysApart(cells) && p < |cells| && Moved(cells, p, cells', hash) && cells[p].Full?
    ensures forall i | 0 <= i < |cells'| :: !Has(cells'[i], cells[p].entry.key)
  {
    forall i | 0 <= i < |cells'| ensures !Has(cells'[i], cells[p].entry.key) {
      if cells'[i].Full? {
        EntryIsHeld(cells', cells'[i].entry);
        EntryIsHeld(cells[..p], cells'[i].entry);
        var j :| 0 <= j < p && cells[..p][j] == cells'[i];
        assert cells[j] == cells'[i];
      }
    }
  }

  lemma MovedOne(cells: seq<Cell>, p: nat, cells': seq<Cell>, hash: int -> hashval, i: nat, k: nat)
    requires KeysApart(cells) && p < |cells| && Moved(cells, p, cells', hash) && cells[p].Full?
    requires i < |cells'| && cells'[i] == Empty
    requires var h := hash(cells[p].entry.key); Slot(h, |cells'|, k) == i && NoEmptyBefore(cells', h, k)
    ensures Moved(cells, p + 1, cells'[i := cells[p]], hash)
  {
    var e := cells[p].entry;
    PrefixEntries(cells, p);
    KeyIsNew(cells, p, cells', hash);
    StoreKeepsGood(cells', hash, i, e, k);
    UsedAfter(cells', i, Full(e));
    var cells'' := cells'[i := Full(e)];
    forall f ensures f in Entries(cells'') <==> f in Entries(cells') || f == e {
      ContentsHas(cells'', f);
      ContentsHas(cells', f);
    }
  }

  lemma AllMoved(cells: seq<Cell>, cells': seq<Cell>, hash: int -> hashval)
    requires KeysApart(cells) && Moved(cells, |cells|, cells', hash)
    ensures Contents(cells') == Contents(cells) && Used(cells') == Live(cells') == Live(cells)
  {
    assert cells[..|cells|] == cells;
    SameContents(cells, cells');
  }

  class Table {
    var entries: array<Cell>
    var nElements: nat       // with deleted ones
    var nDeleted: nat
    var row: nat             // size_prime_index
    const hash: int -> hashval

    ghost predicate Valid()
      reads this, entries
    {
      TableOk(entries[..], hash, row, nElements, nDeleted)
    }

    ghost function Map(): map<int, Entry>
      requires KeysApart(entries[..])
      reads this, entries
    {
      Contents(entries[..])
    }

    /** htab_find. */
    method Find(key: int) returns (r: Option<Entry>)
      requires Valid()
      ensures r == if key in Map() then Some(Map()[key]) else None
    {
      hide PRIME_TAB, Mod1, Slot, Stride, NextIndex, IsPrime, Used, Live, Findable;
      RowsInTable();
      var p, size, h := PRIME_TAB[row], entries.Length, hash(key);
      ghost var cells, k := entries[..], 0;
      ghost var empty := SomeEmpty(cells);
      FirstProbe(h, row);
      var index := Mod1(h, p.prime, p.inv, p.shift);
      var hash2 := 1 + Mod1(h, p.prime - 2, p.invM2, p.shift);
      while entries[index] != Empty && !Has(entries[index], key)
        invariant index == Slot(h, size, k) && Passed(cells, h, key, k)
        decreases size - k
      {
        SearchEnds(cells, h, key, k + 1, empty);
        NextIndexIs(h, size, k);
        index, k := NextIndex(index, hash2, size), k + 1;
      }
      if entries[index] == Empty {
        NotThere(cells, hash, key, k);
        r := None;
      } else {
        FoundIsHeld(cells, index);
        r := Some(entries[index].entry);
      }
    }

    /** htab_expand: live entries move to a table of twice their number, or of the same size. */
    method Expand()
      requires Valid() && 2 * (nElements - nDeleted) <= PRIME_TAB[ROWS - 1].prime
      modifies this
      ensures Valid() && fresh(entries) && Map() == old(Map())
      ensures nDeleted == 0 && nElements == old(nElements - nDeleted) && 2 * nElements <= entries.Length
      ensures var n := old(entries.Length);
        if 2 * nElements > n || (8 * nElements < n && n > 32) then IsLeastSize(entries.Length, 2 * nElements) else entries.Length == n
    {
      var osize, elts := entries.Length, nElements - nDeleted;
      var row' := HigherPrimeIndex(if elts * 2 > osize || (elts * 8 < osize && osize > 32) then elts * 2 else osize - 1);
      NewRowFits(row, row', elts, osize);
      NewSizeIs(row, row', elts, osize);
      hide IsLeastSize, PRIME_TAB;
      var new_ := MoveAll(entries, row', hash, elts);
      entries, nElements, nDeleted, row := new_, elts, 0, row';
    }

    /** htab_create. */
    constructor (size: nat, hash: int -> hashval)
      requires size <= PRIME_TAB[ROWS - 1].prime
      ensures Valid() && fresh(entries) && Map() == map[] && IsLeastSize(entries.Length, size)
    {
      var row' := HigherPrimeIndex(size);
      assert row' < ROWS;
      var cells := new Cell[PRIME_TAB[row'].prime](_ => Empty);
      NewTable(cells[..], hash, row');
      LeastRow(row', size);
      this.hash, entries, nElements, nDeleted, row := hash, cells, 0, 0, row';
    }

    /** The probe loop of htab_find_slot: the slot that ends the search, after k probes, and the
        first deleted slot before it, which was probe d. */
    method Scan(key: int) returns (index: nat, firstDeleted: Option<nat>, ghost k: nat, ghost d: nat)
      requires Valid()
      ensures var cells, h := entries[..], hash(key);
        && index < |cells| && index == Slot(h, |cells|, k) && Passed(cells, h, key, k)
        && (cells[index] == Empty || Has(cells[index], key))
        && (firstDeleted.Some? ==> d < k && firstDeleted.value == Slot(h, |cells|, d) && cells[firstDeleted.value] == Deleted)
      ensures firstDeleted == None ==> forall j: nat | j < k :: entries[..][Slot(hash(key), entries.Length, j)] != Deleted
    {
      hide PRIME_TAB, Mod1, Slot, Stride, NextIndex, IsPrime, Used, Live, KeysApart, Findable;
      RowsInTable();
      var p, size, h := PRIME_TAB[row], entries.Length, hash(key);
      ghost var cells := entries[..];
      ghost var empty := SomeEmpty(cells);
      FirstProbe(h, row);
      index, firstDeleted, k, d := Mod1(h, p.prime, p.inv, p.shift), None, 0, 0;
      var hash2 := 1 + Mod1(h, p.prime - 2, p.invM2, p.shift);
      while entries[index] != Empty && !Has(entries[index], key)
        invariant index == Slot(h, size, k) && Passed(cells, h, key, k)
        invariant firstDeleted.Some? ==> d < k && firstDeleted.value == Slot(h, size, d) && cells[Slot(h, size, d)] == Deleted
        invariant firstDeleted == None ==> forall j: nat | j < k :: cells[Slot(h, size, j)] != Deleted
        decreases size - k
      {
        if entries[index] == Deleted && firstDeleted == None {
          firstDeleted, d := Some(index), k;
        }
        SearchEnds(cells, h, key, k + 1, empty);
        NextIndexIs(h, size, k);
        index, k := NextIndex(index, hash2, size), k + 1;
      }
    }

    /** htab_find_slot.  Without insert, the slot of the key, if it is there.  With insert, that
        slot, or one where the caller must store an entry with the key: the first deleted one on
        the path, or the empty one that ends it. */
    method FindSlot(key: int, insert: bool) returns (slot: Option<nat>)
      requires Valid()
      requires insert ==> 2 * (nElements - nDeleted) <= PRIME_TAB[ROWS - 1].prime
      modifies this, entries
      ensures (entries == old(entries) || fresh(entries)) && KeysApart(entries[..]) && Map() == old(Map())
      ensures entries == old(entries) <==> !(insert && 3 * old(entries.Length) <= 4 * old(nElements))
      ensures insert ==> 4 * nElements < 3 * entries.Length + 4
      ensures key in Map() ==> Valid() && slot.Some? && slot.value < entries.Length && entries[slot.value] == Full(Map()[key])
      ensures key !in Map() && !insert ==> Valid() && slot == None
      ensures key !in Map() && insert ==>
        && slot.Some? && slot.value < entries.Length && entries[slot.value] == Empty
        && ReadyFor(entries[..], hash, row, nElements, nDeleted, slot.value, key)
    {
      if insert && entries.Length * 3 <= nElements * 4 {
        Expand();
      }
      var index, firstDeleted, k, d := Scan(key);
      if entries[index] != Empty {
        FoundIsHeld(entries[..], index);
        return Some(index);
      }
      NotThere(entries[..], hash, key, k);
      if !insert { return None; }
      var s := ClaimSlot(key, index, firstDeleted, k, d);
      slot := Some(s);
    }

    /** The end of htab_find_slot for a key that is not there. */
    method ClaimSlot(key: int, index: nat, firstDeleted: Option<nat>, ghost k: nat, ghost d: nat) returns (slot: nat)
      requires Valid() && key !in Map() && nElements + 1 < entries.Length
      requires var cells, h := entries[..], hash(key);
        && index < |cells| && cells[index] == Empty && index == Slot(h, |cells|, k) && Passed(cells, h, key, k)
        && (firstDeleted.Some? ==> d < k && firstDeleted.value == Slot(h, |cells|, d) && cells[firstDeleted.value] == Deleted)
      modifies this, entries
      ensures entries == old(entries) && KeysApart(entries[..]) && Map() == old(Map())
      ensures slot < entries.Length && entries[slot] == Empty
      ensures slot == if firstDeleted.Some? then firstDeleted.value else index
      ensures ReadyFor(entries[..], hash, row, nElements, nDeleted, slot, key)
      ensures nElements <= old(nElements) + 1
    {
      ghost var cells := entries[..];
      NotThere(cells, hash, key, k);
      hide Contents;
      if firstDeleted.Some? {
        slot := firstDeleted.value;
        DeletedSlotIsReady(cells, hash, row, nElements, nDeleted, slot, key, d);
        nDeleted := nDeleted - 1;
        entries[slot] := Empty;
        assert entries[..] == cells[slot := Empty];
      } else {
        slot := index;
        NewSlotIsReady(cells, hash, row, nElements, nDeleted, index, key, k);
        nElements := nElements + 1;
      }
    }

    /** htab_clear_slot; the source aborts when the slot holds no entry. */
    method ClearSlot(slot: nat)
      requires Valid() && slot < entries.Length && entries[slot].Full?
      modifies this, entries
      ensures Valid() && entries == old(entries) && Map() == old(Map()) - {old(entries[slot]).entry.key}
    {
      ghost var cells := entries[..];
      ClearKeepsGood(cells, hash, slot);
      UsedAfter(cells, slot, Deleted);
      entries[slot] := Deleted;
      nDeleted := nDeleted + 1;
      assert entries[..] == cells[slot := Deleted];
    }

    /** As the callers do: find a slot for the entry and store it there. */
    method Put(e: Entry)
      requires Valid() && 2 * (nElements - nDeleted) <= PRIME_TAB[ROWS - 1].prime
      modifies this, entries
      ensures Valid() && (entries == old(entries) || fresh(entries)) && Map() == old(Map())[e.key := e]
    {
      var slot := FindSlot(e.key, true);
      ghost var cells := entries[..];
      if e.key in Map() {
        ReplaceKeepsGood(cells, hash, slot.value, e);
        UsedAfter(cells, slot.value, Full(e));
      }
      entries[slot.value] := Full(e);
      assert entries[..] == cells[slot.value := Full(e)];
    }

    method Remove(key: int)
      requires Valid()
      modifies this, entries
      ensures Valid() && Map() == old(Map()) - {key}
    {
      var slot := FindSlot(key, false);
      if slot.Some? {
        ClearSlot(slot.value);
      }
    }
  }

  lemma NewTable(cells: seq<Cell>, hash: int -> hashval, row: nat)
    requires row < ROWS && |cells| == PRIME_TAB[row].prime && forall i | 0 <= i < |cells| :: cells[i] == Empty
    ensures TableOk(cells, hash, row, 0, 0) && Contents(cells) == map[]
  {
    AllEmpty(cells);
    EveryRowIsOk(row);
    RowsArePrime(row);
    assert Entries(cells) == {};
  }

  /** The least size in the table that is at least n. */
  ghost predicate IsLeastSize(size: nat, n: nat) {
    && n <= size && (exists i :: 0 <= i < |PRIME_TAB| && PRIME_TAB[i].prime == size)
    && forall i | 0 <= i < |PRIME_TAB| && n <= PRIME_TAB[i].prime :: size <= PRIME_TAB[i].prime
  }

  lemma NewSizeIs(row: nat, row': nat, elts: nat, osize: nat)
    requires row < ROWS && 0 < osize == PRIME_TAB[row].prime && row' < ROWS
    requires var n := if elts * 2 > osize || (elts * 8 < osize && osize > 32) then elts * 2 else osize - 1;
      (forall i | 0 <= i < row' :: PRIME_TAB[i].prime < n) && (forall i | row' <= i < |PRIME_TAB| :: n <= PRIME_TAB[i].prime)
    ensures if elts * 2 > osize || (elts * 8 < osize && osize > 32) then IsLeastSize(PRIME_TAB[row'].prime, 2 * elts)
            else PRIME_TAB[row'].prime == osize
  {
    RowCount();
    hide PRIME_TAB;
    LeastRow(row', if elts * 2 > osize || (elts * 8 < osize && osize > 32) then elts * 2 else osize - 1);
    if row' < row { RowsIncrease(row', row); }
    if row < row' { RowsIncrease(row, row'); }
  }

  lemma LeastRow(row: nat, n: nat)
    requires row < ROWS && n <= PRIME_TAB[row].prime && forall i | 0 <= i < row :: PRIME_TAB[i].prime < n
    ensures IsLeastSize(PRIME_TAB[row].prime, n)
  {
    hide PRIME_TAB;
    RowCount();
    forall i: nat | i < |PRIME_TAB| && n <= PRIME_TAB[i].prime ensures PRIME_TAB[row].prime <= PRIME_TAB[i].prime {
      if row < i { RowsIncrease(row, i); }
    }
  }

  lemma RowCount()
    ensures ROWS <= |PRIME_TAB|
  {
  }

  lemma NewRowFits(row: nat, row': nat, elts: nat, osize: nat)
    requires row < ROWS && osize == PRIME_TAB[row].prime && elts <= osize && 2 * elts <= PRIME_TAB[ROWS - 1].prime
    requires var n := if elts * 2 > osize || (elts * 8 < osize && osize > 32) then elts * 2 else osize - 1;
      && row' <= |PRIME_TAB|
      && (forall i | 0 <= i < row' :: PRIME_TAB[i].prime < n) && (forall i | row' <= i < |PRIME_TAB| :: n <= PRIME_TAB[i].prime)
    ensures row' < ROWS && 2 * elts <= PRIME_TAB[row'].prime
  {
    if !(elts * 2 > osize || (elts * 8 < osize && osize > 32)) && row' < row {
      RowsIncrease(row', row);
    }
  }

  /** The loop of htab_expand: each live entry goes to the first empty slot of its path. */
  method MoveAll(old_: array<Cell>, row: nat, hash: int -> hashval, ghost elts: nat) returns (new_: array<Cell>)
    requires Good(old_[..], hash) && row < ROWS
    requires elts == Live(old_[..]) && 2 * elts <= PRIME_TAB[row].prime
    ensures fresh(new_) && TableOk(new_[..], hash, row, elts, 0)
    ensures Contents(new_[..]) == Contents(old_[..])
  {
    var size := PRIME_TAB[row].prime;
    RowsArePrime(row);
    new_ := new Cell[size](_ => Empty);
    ghost var cells := old_[..];
    AllEmpty(new_[..]);
    var p := 0;
    while p < old_.Length
      invariant p <= old_.Length
      invariant Moved(cells, p, new_[..], hash)
      invariant new_.Length == size && fresh(new_)
    {
      var x := old_[p];
      if x.Full? {
        LiveOfPrefix(cells, p);
        var i, k := FindEmptySlot(new_, row, hash(x.entry.key));
        MovedOne(cells, p, new_[..], hash, i, k);
        new_[i] := x;
      } else {
        MovedNothing(cells, p, new_[..], hash);
      }
      p := p + 1;
    }
    AllMoved(cells, new_[..], hash);
  }
}
