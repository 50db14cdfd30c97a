/** The slots of the hash table as a sequence: what keeps an entry findable, and what inserting,
    deleting and moving entries do to the map that the slots stand for (hashtab.h:254-439).
 */
module HtabCells {
  import opened Primes
  import opened HtabMod
  import opened HtabProbe

  datatype Entry = Entry(key: int, value: int)

  /** HTAB_EMPTY_ENTRY, HTAB_DELETED_ENTRY, or a pointer to an entry. */
  datatype Cell = Empty | Deleted | Full(entry: Entry)

  predicate Has(c: Cell, key: int) {
    c.Full? && c.entry.key == key
  }

  /** htab_mod and htab_mod_m2. */
  function Start(h: hashval, size: nat): (i: nat)
    requires size > 2
    ensures i < size
  {
    h % size
  }

  function Stride(h: hashval, size: nat): (d: nat)
    requires size > 2
    ensures 0 < d < size
  {
    1 + h % (size - 2)
  }

  /** The slot of the k-th probe for a hash value. */
  function Slot(h: hashval, size: nat, k: nat): (i: nat)
    requires size > 2
    ensures i < size
  {
    Probe(Start(h, size), Stride(h, size), size, k)
  }

  /** The first k probes find neither an empty slot nor the key. */
  ghost predicate Passed(cells: seq<Cell>, h: hashval, key: int, k: nat)
    requires |cells| > 2
  {
    forall j: nat | j < k :: cells[Slot(h, |cells|, j)] != Empty && !Has(cells[Slot(h, |cells|, j)], key)
  }

  /** The first k probes find no empty slot. */
  ghost predicate NoEmptyBefore(cells: seq<Cell>, h: hashval, k: nat)
    requires |cells| > 2
  {
    forall j: nat | j < k :: cells[Slot(h, |cells|, j)] != Empty
  }

  /** Slot i is on the probe path of the hash value and no empty slot precedes it. */
  ghost predicate Reaches(cells: seq<Cell>, h: hashval, i: nat)
    requires |cells| > 2
  {
    exists k: nat :: Slot(h, |cells|, k) == i && NoEmptyBefore(cells, h, k)
  }

  ghost predicate KeysApart(cells: seq<Cell>) {
    forall i, j :: 0 <= i < |cells| && 0 <= j < |cells| && cells[i].Full? && Has(cells[j], cells[i].entry.key) ==> i == j
  }

  ghost predicate Findable(cells: seq<Cell>, hash: int -> hashval, i: nat)
    requires |cells| > 2 && i < |cells|
  {
    cells[i].Full? ==> Reaches(cells, hash(cells[i].entry.key), i)
  }

  ghost predicate Good(cells: seq<Cell>, hash: int -> hashval) {
    && |cells| > 2 && IsPrime(|cells|)
    && KeysApart(cells)
    && forall i: nat | i < |cells| :: Findable(cells, hash, i)
  }

  ghost function Entries(cells: seq<Cell>): set<Entry> {
    set i | 0 <= i < |cells| && cells[i].Full? :: cells[i].entry
  }

  lemma EntryIsHeld(cells: seq<Cell>, e: Entry)
    ensures e in Entries(cells) <==> exists i :: 0 <= i < |cells| && cells[i] == Full(e)
  {
    if i :| 0 <= i < |cells| && cells[i] == Full(e) {
      assert cells[i].Full? && cells[i].entry == e;
    }
  }

  lemma OneEntryPerKey(cells: seq<Cell>, e: Entry, f: Entry)
    requires KeysApart(cells) && e in Entries(cells) && f in Entries(cells) && e.key == f.key
    ensures e == f
  {
    EntryIsHeld(cells, e);
    EntryIsHeld(cells, f);
    var i :| 0 <= i < |cells| && cells[i] == Full(e);
    var j :| 0 <= j < |cells| && cells[j] == Full(f);
    assert Has(cells[j], cells[i].entry.key);
  }

  /** The map that the slots stand for. */
  ghost function Contents(cells: seq<Cell>): map<int, Entry>
    requires KeysApart(cells)
  {
    assert forall e, f | e in Entries(cells) && f in Entries(cells) && e.key == f.key :: e == f by {
      forall e, f | e in Entries(cells) && f in Entries(cells) && e.key == f.key ensures e == f {
        OneEntryPerKey(cells, e, f);
      }
    }
    map e | e in Entries(cells) :: e.key := e
  }

  lemma ContentsHas(cells: seq<Cell>, e: Entry)
    requires KeysApart(cells)
    ensures e in Entries(cells) <==> e.key in Contents(cells) && Contents(cells)[e.key] == e
  {
    if e in Entries(cells) {
      assert e.key in Contents(cells);
      OneEntryPerKey(cells, e, Contents(cells)[e.key]);
    }
  }

  /** Equal entries, equal maps. */
  lemma SameContents(cells: seq<Cell>, cells': seq<Cell>)
    requires KeysApart(cells) && KeysApart(cells') && Entries(cells) == Entries(cells')
    ensures Contents(cells) == Contents(cells')
  {
  }

  // ---------------------------------------------------------------- searching

  lemma FoundIsHeld(cells: seq<Cell>, i: nat)
    requires KeysApart(cells) && i < |cells| && cells[i].Full?
    ensures var e := cells[i].entry; e.key in Contents(cells) && Contents(cells)[e.key] == e
  {
    EntryIsHeld(cells, cells[i].entry);
    ContentsHas(cells, cells[i].entry);
  }

  /** A search that meets an empty slot before the key has shown that the key is not there. */
  lemma NotThere(cells: seq<Cell>, hash: int -> hashval, key: int, k: nat)
    requires Good(cells, hash) && Passed(cells, hash(key), key, k) && cells[Slot(hash(key), |cells|, k)] == Empty
    ensures forall i | 0 <= i < |cells| :: !Has(cells[i], key)
    ensures key !in Contents(cells)
  {
    forall i: nat | i < |cells| ensures !Has(cells[i], key) {
      assert Findable(cells, hash, i);
    }
    if key in Contents(cells) {
      var e := Contents(cells)[key];
      EntryIsHeld(cells, e);
    }
  }

  /** While a slot is empty, a search ends within size probes. */
  lemma SearchEnds(cells: seq<Cell>, h: hashval, key: int, k: nat, empty: nat)
    requires |cells| > 2 && IsPrime(|cells|) && NoEmptyBefore(cells, h, k) && empty < |cells| && cells[empty] == Empty
    ensures k < |cells|
  {
    hide Probe;
    ProbesVisitAll(Start(h, |cells|), Stride(h, |cells|), |cells|, empty);
    var m: nat :| m < |cells| && Probe(Start(h, |cells|), Stride(h, |cells|), |cells|, m) == empty;
    assert Slot(h, |cells|, m) == empty;
  }

  // ---------------------------------------------------------------- storing and deleting

  lemma ReachesStill(cells: seq<Cell>, s: nat, c: Cell, h: hashval, i: nat)
    requires |cells| > 2 && s < |cells| && c != Empty && Reaches(cells, h, i)
    ensures Reaches(cells[s := c], h, i)
  {
    var k: nat :| Slot(h, |cells|, k) == i && NoEmptyBefore(cells, h, k);
    assert NoEmptyBefore(cells[s := c], h, k);
  }

  /** An entry may be stored at any slot of its path that is not behind an empty one. */
  lemma StoreKeepsGood(cells: seq<Cell>, hash: int -> hashval, s: nat, e: Entry, k: nat)
    requires Good(cells, hash) && s < |cells| && !cells[s].Full? && forall i | 0 <= i < |cells| :: !Has(cells[i], e.key)
    requires Slot(hash(e.key), |cells|, k) == s && NoEmptyBefore(cells, hash(e.key), k)
    ensures Good(cells[s := Full(e)], hash)
    ensures Contents(cells[s := Full(e)]) == Contents(cells)[e.key := e]
    ensures e.key !in Contents(cells)
  {
    var cells' := cells[s := Full(e)];
    forall i: nat | i < |cells'| ensures Findable(cells', hash, i) {
      assert Findable(cells, hash, i);
      if i == s {
        assert Reaches(cells, hash(e.key), s);
      }
      if cells'[i].Full? { ReachesStill(cells, s, Full(e), hash(cells'[i].entry.key), i); }
    }
    assert KeysApart(cells');
    StoredContents(cells, s, e);
  }

  lemma StoredContents(cells: seq<Cell>, s: nat, e: Entry)
    requires KeysApart(cells) && s < |cells| && !cells[s].Full? && forall i | 0 <= i < |cells| :: !Has(cells[i], e.key)
    requires KeysApart(cells[s := Full(e)])
    ensures Contents(cells[s := Full(e)]) == Contents(cells)[e.key := e] && e.key !in Contents(cells)
  {
    var cells' := cells[s := Full(e)];
    forall f ensures f in Entries(cells') <==> f == e || f in Entries(cells) {
      EntryIsHeld(cells, f);
      EntryIsHeld(cells', f);
      if i :| 0 <= i < |cells| && cells[i] == Full(f) { assert cells'[i] == Full(f); }
      if f == e { assert cells'[s] == Full(f); }
    }
    if e.key in Contents(cells) {
      EntryIsHeld(cells, Contents(cells)[e.key]);
    }
    assert Entries(cells') == Entries(cells) + {e};
  }

  /** An entry with the same key takes the place of another one. */
  lemma ReplaceKeepsGood(cells: seq<Cell>, hash: int -> hashval, s: nat, e: Entry)
    requires Good(cells, hash) && s < |cells| && Has(cells[s], e.key)
    ensures Good(cells[s := Full(e)], hash)
    ensures Contents(cells[s := Full(e)]) == Contents(cells)[e.key := e]
  {
    var cells' := cells[s := Full(e)];
    forall i: nat | i < |cells'| ensures Findable(cells', hash, i) {
      assert Findable(cells, hash, i);
      if cells'[i].Full? { ReachesStill(cells, s, Full(e), hash(cells'[i].entry.key), i); }
    }
    assert KeysApart(cells');
    RemovedEntries(cells, s, Full(e));
    var gone := cells[s].entry;
    assert Entries(cells') == (Entries(cells) - {gone}) + {e};
    FoundIsHeld(cells, s);
    assert forall f | f in Entries(cells) - {gone} :: f.key != e.key by {
      forall f | f in Entries(cells) && f.key == e.key ensures f == gone {
        EntryIsHeld(cells, gone);
        OneEntryPerKey(cells, f, gone);
      }
    }
  }

  lemma RemovedEntries(cells: seq<Cell>, s: nat, c: Cell)
    requires KeysApart(cells) && s < |cells| && cells[s].Full? && (c == Deleted || Has(c, cells[s].entry.key))
    ensures Entries(cells[s := c]) == (Entries(cells) - {cells[s].entry}) + if c.Full? then {c.entry} else {}
  {
    var cells', gone := cells[s := c], cells[s].entry;
    forall f ensures f in Entries(cells') <==> ((f in Entries(cells) && f != gone) || c == Full(f)) {
      EntryIsHeld(cells, f);
      EntryIsHeld(cells', f);
      if i :| 0 <= i < |cells| && cells[i] == Full(f) && f != gone { assert i != s && cells'[i] == Full(f); }
      if i :| 0 <= i < |cells| && cells'[i] == Full(f) && i != s {
        assert cells[i] == Full(f);
      }
      if c == Full(f) { assert cells'[s] == Full(f); }
    }
  }

  /** htab_clear_slot. */
  lemma ClearKeepsGood(cells: seq<Cell>, hash: int -> hashval, s: nat)
    requires Good(cells, hash) && s < |cells| && cells[s].Full?
    ensures Good(cells[s := Deleted], hash)
    ensures Contents(cells[s := Deleted]) == Contents(cells) - {cells[s].entry.key}
  {
    var cells' := cells[s := Deleted];
    forall i: nat | i < |cells'| ensures Findable(cells', hash, i) {
      assert Findable(cells, hash, i);
      if cells'[i].Full? { ReachesStill(cells, s, Deleted, hash(cells'[i].entry.key), i); }
    }
    hide Findable;
    ClearedContents(cells, s);
  }

  lemma ClearedContents(cells: seq<Cell>, s: nat)
    requires KeysApart(cells) && s < |cells| && cells[s].Full?
    ensures KeysApart(cells[s := Deleted])
    ensures Contents(cells[s := Deleted]) == Contents(cells) - {cells[s].entry.key}
  {
    var gone := cells[s].entry;
    RemovedEntries(cells, s, Deleted);
    FoundIsHeld(cells, s);
    assert forall f | f in Entries(cells) - {gone} :: f.key != gone.key by {
      forall f | f in Entries(cells) && f.key == gone.key ensures f == gone {
        EntryIsHeld(cells, gone);
        OneEntryPerKey(cells, f, gone);
      }
    }
  }
  // ---------------------------------------------------------------- counting

  function Used(cells: seq<Cell>): (n: nat)
    ensures n <= |cells|
  {
    if cells == [] then 0 else Used(cells[..|cells| - 1]) + if cells[|cells| - 1] == Empty then 0 else 1
  }

  function Live(cells: seq<Cell>): (n: nat)
    ensures n <= |cells|
  {
    if cells == [] then 0 else Live(cells[..|cells| - 1]) + if cells[|cells| - 1].Full? then 1 else 0
  }

  lemma {:induction false} UsedAfter(cells: seq<Cell>, s: nat, c: Cell)
    requires s < |cells|
    ensures Used(cells[s := c]) == Used(cells) - (if cells[s] == Empty then 0 else 1) + (if c == Empty then 0 else 1)
    ensures Live(cells[s := c]) == Live(cells) - (if cells[s].Full? then 1 else 0) + (if c.Full? then 1 else 0)
  {
    var n := |cells| - 1;
    if s < n {
      UsedAfter(cells[..n], s, c);
      assert cells[s := c][..n] == cells[..n][s := c];
    } else {
      assert cells[s := c][..n] == cells[..n];
    }
  }

  lemma {:induction false} SomeEmpty(cells: seq<Cell>) returns (i: nat)
    requires Used(cells) < |cells|
    ensures i < |cells| && cells[i] == Empty
  {
    i := |cells| - 1;
    if cells[i] != Empty { i := SomeEmpty(cells[..i]); }
  }

  lemma {:induction false} AllEmpty(cells: seq<Cell>)
    requires forall i | 0 <= i < |cells| :: cells[i] == Empty
    ensures Used(cells) == 0 && Live(cells) == 0
  {
    if cells != [] { AllEmpty(cells[..|cells| - 1]); }
  }

  lemma {:induction false} LiveIsUsed(cells: seq<Cell>)
    ensures Live(cells) <= Used(cells)
    ensures (forall i | 0 <= i < |cells| :: cells[i] != Deleted) ==> Live(cells) == Used(cells)
  {
    if cells != [] { LiveIsUsed(cells[..|cells| - 1]); }
  }

  lemma {:induction false} LiveOfPrefix(cells: seq<Cell>, n: nat)
    requires n <= |cells|
    ensures Live(cells[..n]) <= Live(cells)
  {
    if n < |cells| {
      assert cells[..|cells| - 1][..n] == cells[..n];
      LiveOfPrefix(cells[..|cells| - 1], n);
    } else {
      assert cells[..n] == cells;
    }
  }
}
