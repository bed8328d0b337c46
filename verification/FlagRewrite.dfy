/** How page-types.c rewrites a flags word before it filters, lists and counts it: `expand_overloaded_flags` for kernel
    developers, `well_known_flags` for everybody else. */
module FlagRewrite {
  import opened FlagNames
  import opened FlagTable

  const ERROR: Word := 0x2
  const ACTIVE: Word := 0x40
  const SLAB: Word := 0x80
  const WRITEBACK: Word := 0x100
  const RECLAIM: Word := 0x200
  const HUGE: Word := 0x2_0000
  const PRIVATE: Word := 0x8_0000_0000
  const SOFTDIRTY: Word := 0x100_0000_0000
  const READAHEAD: Word := 0x1_0000_0000_0000
  const SLOB_FREE: Word := 0x2_0000_0000_0000
  const SLUB_FROZEN: Word := 0x4_0000_0000_0000
  const SLUB_DEBUG: Word := 0x8_0000_0000_0000
  const FILE: Word := 0x4000_0000_0000_0000
  const MMAP_EXCLUSIVE: Word := 0x8000_0000_0000_0000

  const HACKERS_BITS: Word := 0xffff_0000_0000

  const PM_SOFT_DIRTY: Word := 0x80_0000_0000_0000
  const PM_MMAP_EXCLUSIVE: Word := 0x100_0000_0000_0000
  const PM_FILE: Word := 0x2000_0000_0000_0000

  function Without(flags: Word, mask: Word): Word { flags & !mask }
  function Toggle(flags: Word, mask: Word): Word { flags ^ mask }
  predicate Has(flags: Word, mask: Word) { Masked(flags, mask) != 0 }

  /** flags ^= own | madeUp: an overloaded bit moves to a free place, or back. */
  function Move(flags: Word, when: bool, own: Word, madeUp: Word): Word {
    if when then Toggle(flags, Union(own, madeUp)) else flags
  }

  function ExpandSlab(flags: Word): Word {
    if !Has(flags, SLAB) then flags
    else
      var a := Move(flags, Has(flags, PRIVATE), PRIVATE, SLOB_FREE);
      var b := Move(a, Has(a, ACTIVE), ACTIVE, SLUB_FROZEN);
      Move(b, Has(b, ERROR), ERROR, SLUB_DEBUG)
  }

  function ExpandReclaim(flags: Word): Word {
    Move(flags, Masked(flags, Union(RECLAIM, WRITEBACK)) == RECLAIM, RECLAIM, READAHEAD)
  }

  function ExpandPme(flags: Word, pme: Word): Word {
    var a := if Has(pme, PM_SOFT_DIRTY) then Union(flags, SOFTDIRTY) else flags;
    var b := if Has(pme, PM_FILE) then Union(a, FILE) else a;
    if Has(pme, PM_MMAP_EXCLUSIVE) then Union(b, MMAP_EXCLUSIVE) else b
  }

  /** expand_overloaded_flags. */
  function Expand(flags: Word, pme: Word): Word {
    ExpandPme(ExpandReclaim(ExpandSlab(flags)), pme)
  }

  /** well_known_flags. */
  function WellKnown(flags: Word): Word {
    var a := Without(flags, HACKERS_BITS);
    if Has(a, COMPOUND) && !Has(a, HUGE) then Without(a, COMPOUND) else a
  }

  /** kpageflags_flags. */
  function Rewrite(raw: bool, flags: Word, pme: Word): Word {
    if raw then Expand(flags, pme) else WellKnown(flags)
  }

  /** Neither form touches the bit of an idle page. */
  lemma {:induction false} IdleStays()
    ensures Expand(0x200_0000, 0) == 0x200_0000 && WellKnown(0x200_0000) == 0x200_0000
  {
  }

  // ------------------------------------------------------------- what a kernel developer sees

  lemma {:induction false} LowBits()
    ensures Bit(1) == ERROR && Bit(6) == ACTIVE && Bit(7) == SLAB && Bit(8) == WRITEBACK && Bit(9) == RECLAIM
    ensures Union(Bit(15), Bit(16)) == COMPOUND && Bit(17) == HUGE && Bit(24) == 0x100_0000
  {
    assert Bit(5) == 0x20;
    assert Bit(9) == 0x200;
    assert Bit(14) == 0x4000;
    assert Bit(19) == 0x8_0000;
  }

  lemma {:induction false} HighBits()
    ensures Bit(35) == PRIVATE && Bit(40) == SOFTDIRTY && Bit(48) == READAHEAD && Bit(49) == SLOB_FREE
    ensures Bit(50) == SLUB_FROZEN && Bit(51) == SLUB_DEBUG && Bit(62) == FILE && Bit(63) == MMAP_EXCLUSIVE
  {
    LowBits();
    assert Bit(29) == 0x2000_0000;
    assert Bit(34) == 0x4_0000_0000;
    assert Bit(39) == 0x80_0000_0000;
    assert Bit(44) == 0x1000_0000_0000;
    assert Bit(49) == SLOB_FREE;
    assert Bit(54) == 0x40_0000_0000_0000;
    assert Bit(59) == 0x800_0000_0000_0000;
  }

  /** The masks are the bits of the table's entries. */
  lemma {:induction false} MasksAreNamed()
    ensures ERROR == Bit(1) && Name(1) == "error" && ACTIVE == Bit(6) && Name(6) == "active"
    ensures SLAB == Bit(7) && Name(7) == "slab" && WRITEBACK == Bit(8) && Name(8) == "writeback"
    ensures RECLAIM == Bit(9) && Name(9) == "reclaim" && HUGE == Bit(17) && Name(17) == "huge"
    ensures COMPOUND == Union(Bit(15), Bit(16)) && Name(15) == "compound_head" && Name(16) == "compound_tail"
    ensures PRIVATE == Bit(35) && Name(35) == "private" && SOFTDIRTY == Bit(40) && Name(40) == "softdirty"
    ensures READAHEAD == Bit(48) && Name(48) == "readahead" && SLOB_FREE == Bit(49) && Name(49) == "slob_free"
    ensures SLUB_FROZEN == Bit(50) && Name(50) == "slub_frozen" && SLUB_DEBUG == Bit(51) && Name(51) == "slub_debug"
    ensures FILE == Bit(62) && Name(62) == "file" && MMAP_EXCLUSIVE == Bit(63) && Name(63) == "mmap_exclusive"
  {
    LowBits();
    HighBits();
    hide Bit;
  }

  /** The bits that expanding never touches. */
  const UNTOUCHED: Word := 0x3ff0_fef7_ffff_fdbd

  lemma {:induction false} MoveElsewhere(flags: Word, when: bool, own: Word, madeUp: Word, others: Word)
    requires Masked(Union(own, madeUp), others) == 0
    ensures Masked(Move(flags, when, own, madeUp), others) == Masked(flags, others)
  {
    hide Masked, Union, Toggle;
    ToggleElsewhere(flags, Union(own, madeUp), others);
  }

  lemma {:induction false} UnionElsewhere(flags: Word, m: Word, others: Word)
    requires Masked(m, others) == 0
    ensures Masked(Union(flags, m), others) == Masked(flags, others)
  {
  }

  lemma {:induction false} MovesElsewhere()
    ensures Masked(Union(PRIVATE, SLOB_FREE), UNTOUCHED) == 0 && Masked(Union(ACTIVE, SLUB_FROZEN), UNTOUCHED) == 0
    ensures Masked(Union(ERROR, SLUB_DEBUG), UNTOUCHED) == 0 && Masked(Union(RECLAIM, READAHEAD), UNTOUCHED) == 0
    ensures Masked(SOFTDIRTY, UNTOUCHED) == 0 && Masked(FILE, UNTOUCHED) == 0 && Masked(MMAP_EXCLUSIVE, UNTOUCHED) == 0
  {
  }

  lemma {:induction false} SlabElsewhere(flags: Word)
    ensures Masked(ExpandSlab(flags), UNTOUCHED) == Masked(flags, UNTOUCHED)
  {
    MovesElsewhere();
    hide Masked, Union, Has, Move;
    var a := Move(flags, Has(flags, PRIVATE), PRIVATE, SLOB_FREE);
    var b := Move(a, Has(a, ACTIVE), ACTIVE, SLUB_FROZEN);
    MoveElsewhere(flags, Has(flags, PRIVATE), PRIVATE, SLOB_FREE, UNTOUCHED);
    MoveElsewhere(a, Has(a, ACTIVE), ACTIVE, SLUB_FROZEN, UNTOUCHED);
    MoveElsewhere(b, Has(b, ERROR), ERROR, SLUB_DEBUG, UNTOUCHED);
  }

  lemma {:induction false} PmeElsewhere(flags: Word, pme: Word)
    ensures Masked(ExpandPme(flags, pme), UNTOUCHED) == Masked(flags, UNTOUCHED)
  {
    MovesElsewhere();
    hide Masked, Union, Has;
    var a := if Has(pme, PM_SOFT_DIRTY) then Union(flags, SOFTDIRTY) else flags;
    var b := if Has(pme, PM_FILE) then Union(a, FILE) else a;
    UnionElsewhere(flags, SOFTDIRTY, UNTOUCHED);
    UnionElsewhere(a, FILE, UNTOUCHED);
    UnionElsewhere(b, MMAP_EXCLUSIVE, UNTOUCHED);
  }

  lemma {:induction false} UntouchedStays(flags: Word, pme: Word)
    ensures Masked(Expand(flags, pme), UNTOUCHED) == Masked(flags, UNTOUCHED)
  {
    MovesElsewhere();
    hide Masked, Union, Has, Move, ExpandSlab, ExpandPme;
    var a := ExpandSlab(flags);
    SlabElsewhere(flags);
    MoveElsewhere(a, Masked(a, Union(RECLAIM, WRITEBACK)) == RECLAIM, RECLAIM, READAHEAD, UNTOUCHED);
    PmeElsewhere(ExpandReclaim(a), pme);
  }

  lemma {:induction false} SlabBits(flags: Word)
    ensures var r := ExpandSlab(flags);
      && (Has(r, SLOB_FREE) <==> Has(flags, SLOB_FREE) != (Has(flags, SLAB) && Has(flags, PRIVATE)))
      && (Has(r, SLUB_FROZEN) <==> Has(flags, SLUB_FROZEN) != (Has(flags, SLAB) && Has(flags, ACTIVE)))
      && (Has(r, SLUB_DEBUG) <==> Has(flags, SLUB_DEBUG) != (Has(flags, SLAB) && Has(flags, ERROR)))
      && (Has(r, PRIVATE) <==> Has(flags, PRIVATE) && !Has(flags, SLAB))
      && (Has(r, ACTIVE) <==> Has(flags, ACTIVE) && !Has(flags, SLAB))
      && (Has(r, ERROR) <==> Has(flags, ERROR) && !Has(flags, SLAB))
  {
  }

  lemma {:induction false} SlabKeeps(flags: Word)
    ensures var r := ExpandSlab(flags);
      && (Has(r, READAHEAD) <==> Has(flags, READAHEAD)) && (Has(r, RECLAIM) <==> Has(flags, RECLAIM))
      && (Has(r, WRITEBACK) <==> Has(flags, WRITEBACK)) && (Has(r, SOFTDIRTY) <==> Has(flags, SOFTDIRTY))
      && (Has(r, FILE) <==> Has(flags, FILE)) && (Has(r, MMAP_EXCLUSIVE) <==> Has(flags, MMAP_EXCLUSIVE))
  {
  }

  lemma {:induction false} ReclaimBits(flags: Word)
    ensures var r := ExpandReclaim(flags);
      && (Has(r, READAHEAD) <==> Has(flags, READAHEAD) != (Has(flags, RECLAIM) && !Has(flags, WRITEBACK)))
      && (Has(r, RECLAIM) <==> Has(flags, RECLAIM) && Has(flags, WRITEBACK))
      && (Has(r, SOFTDIRTY) <==> Has(flags, SOFTDIRTY)) && (Has(r, FILE) <==> Has(flags, FILE))
      && (Has(r, MMAP_EXCLUSIVE) <==> Has(flags, MMAP_EXCLUSIVE))
  {
  }

  lemma {:induction false} ReclaimKeeps(flags: Word)
    ensures var r := ExpandReclaim(flags);
      && (Has(r, SLOB_FREE) <==> Has(flags, SLOB_FREE)) && (Has(r, SLUB_FROZEN) <==> Has(flags, SLUB_FROZEN))
      && (Has(r, SLUB_DEBUG) <==> Has(flags, SLUB_DEBUG)) && (Has(r, PRIVATE) <==> Has(flags, PRIVATE))
      && (Has(r, ACTIVE) <==> Has(flags, ACTIVE)) && (Has(r, ERROR) <==> Has(flags, ERROR))
  {
  }

  lemma {:induction false} PmeBits(flags: Word, pme: Word)
    ensures var r := ExpandPme(flags, pme);
      && (Has(r, SOFTDIRTY) <==> Has(flags, SOFTDIRTY) || Has(pme, PM_SOFT_DIRTY))
      && (Has(r, FILE) <==> Has(flags, FILE) || Has(pme, PM_FILE))
      && (Has(r, MMAP_EXCLUSIVE) <==> Has(flags, MMAP_EXCLUSIVE) || Has(pme, PM_MMAP_EXCLUSIVE))
  {
  }

  lemma {:induction false} PmeKeeps(flags: Word, pme: Word)
    ensures var r := ExpandPme(flags, pme);
      && (Has(r, SLOB_FREE) <==> Has(flags, SLOB_FREE)) && (Has(r, SLUB_FROZEN) <==> Has(flags, SLUB_FROZEN))
      && (Has(r, SLUB_DEBUG) <==> Has(flags, SLUB_DEBUG)) && (Has(r, PRIVATE) <==> Has(flags, PRIVATE))
      && (Has(r, ACTIVE) <==> Has(flags, ACTIVE)) && (Has(r, ERROR) <==> Has(flags, ERROR))
      && (Has(r, READAHEAD) <==> Has(flags, READAHEAD)) && (Has(r, RECLAIM) <==> Has(flags, RECLAIM))
  {
  }

  /** The word of a slab page tells of its allocator in bits of their own, and PRIVATE, ACTIVE and ERROR are left to other
      pages; RECLAIM on a page that is not written back is read-ahead; and three bits come from the pagemap entry. A bit
      that the kernel had in such a place itself is turned over in the first two cases, and kept in the third. */
  lemma {:induction false} ExpandExactly(flags: Word, pme: Word)
    ensures var r := Rewrite(true, flags, pme);
      && (Has(r, SLOB_FREE) <==> Has(flags, SLOB_FREE) != (Has(flags, SLAB) && Has(flags, PRIVATE)))
      && (Has(r, SLUB_FROZEN) <==> Has(flags, SLUB_FROZEN) != (Has(flags, SLAB) && Has(flags, ACTIVE)))
      && (Has(r, SLUB_DEBUG) <==> Has(flags, SLUB_DEBUG) != (Has(flags, SLAB) && Has(flags, ERROR)))
      && (Has(r, PRIVATE) <==> Has(flags, PRIVATE) && !Has(flags, SLAB))
      && (Has(r, ACTIVE) <==> Has(flags, ACTIVE) && !Has(flags, SLAB))
      && (Has(r, ERROR) <==> Has(flags, ERROR) && !Has(flags, SLAB))
      && (Has(r, READAHEAD) <==> Has(flags, READAHEAD) != (Has(flags, RECLAIM) && !Has(flags, WRITEBACK)))
      && (Has(r, RECLAIM) <==> Has(flags, RECLAIM) && Has(flags, WRITEBACK))
      && (Has(r, SOFTDIRTY) <==> Has(flags, SOFTDIRTY) || Has(pme, PM_SOFT_DIRTY))
      && (Has(r, FILE) <==> Has(flags, FILE) || Has(pme, PM_FILE))
      && (Has(r, MMAP_EXCLUSIVE) <==> Has(flags, MMAP_EXCLUSIVE) || Has(pme, PM_MMAP_EXCLUSIVE))
      && Masked(r, UNTOUCHED) == Masked(flags, UNTOUCHED)
  {
    UntouchedStays(flags, pme);
    hide Masked, Union, Has, ExpandSlab, ExpandReclaim, ExpandPme;
    var a := ExpandSlab(flags);
    var b := ExpandReclaim(a);
    SlabBits(flags);
    SlabKeeps(flags);
    ReclaimBits(a);
    ReclaimKeeps(a);
    PmeBits(b, pme);
    PmeKeeps(b, pme);
  }

  // ------------------------------------------------------------- expanding and back

  const PME_BITS: Word := 0xC000_0100_0000_0000
  const MADE_UP: Word := 0xC00F_0100_0000_0000

  /** A moved bit is moved back to its own place. */
  function Back(flags: Word, own: Word, madeUp: Word): Word {
    Move(flags, Has(flags, madeUp), own, madeUp)
  }

  /** The kernel's word again: every made-up bit is moved back to the bit it was split off from. */
  function Collapse(flags: Word): Word {
    Back(Back(Back(Back(Without(flags, PME_BITS), RECLAIM, READAHEAD), ERROR, SLUB_DEBUG), ACTIVE, SLUB_FROZEN),
         PRIVATE, SLOB_FREE)
  }

  lemma {:induction false} ToggleTwice(a: Word, m: Word)
    ensures Toggle(Toggle(a, m), m) == a
  {
  }

  lemma {:induction false} ToggleSets(flags: Word, own: Word, madeUp: Word)
    requires Masked(flags, madeUp) == 0
    ensures Masked(Toggle(flags, Union(own, madeUp)), madeUp) == madeUp
  {
  }

  lemma {:induction false} ToggleElsewhere(flags: Word, m: Word, others: Word)
    requires Masked(m, others) == 0
    ensures Masked(Toggle(flags, m), others) == Masked(flags, others)
  {
  }

  lemma {:induction false} FreeParts(flags: Word, m: Word, rest: Word)
    requires Masked(flags, Union(m, rest)) == 0
    ensures Masked(flags, m) == 0 && Masked(flags, rest) == 0
  {
  }

  lemma {:induction false} UnionWithout(flags: Word, m: Word, all: Word)
    requires Masked(m, all) == m
    ensures Without(Union(flags, m), all) == Without(flags, all)
  {
  }

  lemma {:induction false} NothingOff(flags: Word, m: Word)
    requires Masked(flags, m) == 0
    ensures Without(flags, m) == flags
  {
  }

  /** A move to a free place can be moved back, and touches no other free place. */
  lemma {:induction false} MoveBack(flags: Word, when: bool, own: Word, madeUp: Word, free: Word)
    requires madeUp != 0 && Masked(flags, Union(madeUp, free)) == 0 && Masked(Union(own, madeUp), free) == 0
    ensures Back(Move(flags, when, own, madeUp), own, madeUp) == flags && Masked(Move(flags, when, own, madeUp), free) == 0
  {
    hide Toggle, Union, Masked;
    FreeParts(flags, madeUp, free);
    ToggleTwice(flags, Union(own, madeUp));
    ToggleSets(flags, own, madeUp);
    ToggleElsewhere(flags, Union(own, madeUp), free);
  }

  lemma {:induction false} PmeBitsOff(flags: Word, pme: Word)
    requires Masked(flags, PME_BITS) == 0
    ensures Without(ExpandPme(flags, pme), PME_BITS) == flags
  {
    Places();
    hide Masked, Union, Without, Has;
    var a := if Has(pme, PM_SOFT_DIRTY) then Union(flags, SOFTDIRTY) else flags;
    var b := if Has(pme, PM_FILE) then Union(a, FILE) else a;
    UnionWithout(flags, SOFTDIRTY, PME_BITS);
    UnionWithout(a, FILE, PME_BITS);
    UnionWithout(b, MMAP_EXCLUSIVE, PME_BITS);
    NothingOff(flags, PME_BITS);
  }

  const FREE3: Word := 0xC001_0100_0000_0000
  const FREE2: Word := 0xC009_0100_0000_0000
  const FREE1: Word := 0xC00D_0100_0000_0000

  /** The made-up bits are different from each other and from the bits they are split off from. */
  lemma {:induction false} Places()
    ensures Union(SLOB_FREE, FREE1) == MADE_UP && Union(SLUB_FROZEN, FREE2) == FREE1
    ensures Union(SLUB_DEBUG, FREE3) == FREE2 && Union(READAHEAD, PME_BITS) == FREE3
    ensures Masked(Union(PRIVATE, SLOB_FREE), FREE1) == 0 && Masked(Union(ACTIVE, SLUB_FROZEN), FREE2) == 0
    ensures Masked(Union(ERROR, SLUB_DEBUG), FREE3) == 0 && Masked(Union(RECLAIM, READAHEAD), PME_BITS) == 0
    ensures Masked(SOFTDIRTY, PME_BITS) == SOFTDIRTY && Masked(FILE, PME_BITS) == FILE
    ensures Masked(MMAP_EXCLUSIVE, PME_BITS) == MMAP_EXCLUSIVE
  {
  }

  lemma {:induction false} ToggleClears(flags: Word, own: Word, madeUp: Word)
    requires Masked(flags, madeUp) == madeUp
    ensures Masked(Toggle(flags, Union(own, madeUp)), madeUp) == 0
  {
  }

  lemma {:induction false} BothFree(flags: Word, m: Word, rest: Word)
    requires Masked(flags, m) == 0 && Masked(flags, rest) == 0
    ensures Masked(flags, Union(m, rest)) == 0
  {
  }

  /** Moving back frees the place, and leaves free what was free. */
  lemma {:induction false} BackClears(flags: Word, own: Word, madeUp: Word, free: Word)
    requires Single(madeUp) && Masked(flags, free) == 0 && Masked(Union(own, madeUp), free) == 0
    ensures Masked(Back(flags, own, madeUp), Union(madeUp, free)) == 0
  {
    SingleSelects(flags, madeUp);
    hide Masked, Union, Toggle, Single;
    if Has(flags, madeUp) { ToggleClears(flags, own, madeUp); }
    ToggleElsewhere(flags, Union(own, madeUp), free);
    BothFree(Back(flags, own, madeUp), madeUp, free);
  }

  lemma {:induction false} PlacesAreSingle()
    ensures Single(SLOB_FREE) && Single(SLUB_FROZEN) && Single(SLUB_DEBUG) && Single(READAHEAD)
  {
  }

  lemma {:induction false} CollapseClears(flags: Word)
    ensures Masked(Collapse(flags), MADE_UP) == 0
  {
    Places();
    PlacesAreSingle();
    hide Masked, Union, Without, Back, Single;
    var a := Without(flags, PME_BITS);
    var b := Back(a, RECLAIM, READAHEAD);
    var c := Back(b, ERROR, SLUB_DEBUG);
    var d := Back(c, ACTIVE, SLUB_FROZEN);
    WithoutClears(flags, PME_BITS);
    BackClears(a, RECLAIM, READAHEAD, PME_BITS);
    BackClears(b, ERROR, SLUB_DEBUG, FREE3);
    BackClears(c, ACTIVE, SLUB_FROZEN, FREE2);
    BackClears(d, PRIVATE, SLOB_FREE, FREE1);
  }

  lemma {:induction false} CollapseUndoesExpand(flags: Word, pme: Word)
    requires Masked(flags, MADE_UP) == 0
    ensures Collapse(Expand(flags, pme)) == flags
  {
    Places();
    hide Masked, Union, Has, Move, Back, ExpandPme;
    var slab := Has(flags, SLAB);
    var a := if slab then Move(flags, Has(flags, PRIVATE), PRIVATE, SLOB_FREE) else flags;
    var b := if slab then Move(a, Has(a, ACTIVE), ACTIVE, SLUB_FROZEN) else a;
    var c := if slab then Move(b, Has(b, ERROR), ERROR, SLUB_DEBUG) else b;
    var d := ExpandReclaim(c);
    SlabBack(flags, slab, Has(flags, PRIVATE), PRIVATE, SLOB_FREE, FREE1);
    SlabBack(a, slab, Has(a, ACTIVE), ACTIVE, SLUB_FROZEN, FREE2);
    SlabBack(b, slab, Has(b, ERROR), ERROR, SLUB_DEBUG, FREE3);
    MoveBack(c, Masked(c, Union(RECLAIM, WRITEBACK)) == RECLAIM, RECLAIM, READAHEAD, PME_BITS);
    PmeBitsOff(d, pme);
  }

  /** The expansion can be undone exactly where the places it takes are free in the kernel's word. */
  lemma {:induction false} ExpandLosesNothingExactly(flags: Word, pme: Word)
    ensures Collapse(Expand(flags, pme)) == flags <==> Masked(flags, MADE_UP) == 0
  {
    hide Masked, Collapse, Expand;
    CollapseClears(Expand(flags, pme));
    if Masked(flags, MADE_UP) == 0 { CollapseUndoesExpand(flags, pme); }
  }

  lemma {:induction false} SlabBack(flags: Word, slab: bool, when: bool, own: Word, madeUp: Word, free: Word)
    requires madeUp != 0 && Masked(flags, Union(madeUp, free)) == 0 && Masked(Union(own, madeUp), free) == 0
    ensures var a := if slab then Move(flags, when, own, madeUp) else flags;
      Back(a, own, madeUp) == flags && Masked(a, free) == 0
  {
    hide Masked, Union, Toggle, Back;
    MoveBack(flags, slab && when, own, madeUp, free);
  }

  /** Different words look different after the expansion. */
  lemma {:induction false} ExpandInjective(a: Word, b: Word, pme: Word)
    requires Masked(a, MADE_UP) == 0 && Masked(b, MADE_UP) == 0 && Expand(a, pme) == Expand(b, pme)
    ensures a == b
  {
    hide Expand, Collapse, Masked;
    CollapseUndoesExpand(a, pme);
    CollapseUndoesExpand(b, pme);
  }

  // ------------------------------------------------------------- well-known flags

  const REST: Word := 0xffff_0000_fffe_7fff

  lemma {:induction false} WithoutKeeps(flags: Word, m: Word, others: Word)
    requires Masked(m, others) == 0
    ensures Masked(Without(flags, m), others) == Masked(flags, others)
  {
  }

  lemma {:induction false} WithoutClears(flags: Word, m: Word)
    ensures Masked(Without(flags, m), m) == 0
  {
  }

  lemma {:induction false} Parts()
    ensures Masked(HACKERS_BITS, REST) == 0 && Masked(HACKERS_BITS, COMPOUND) == 0 && Masked(HACKERS_BITS, HUGE) == 0
    ensures Masked(COMPOUND, REST) == 0 && Masked(COMPOUND, HACKERS_BITS) == 0 && Masked(COMPOUND, HUGE) == 0
    ensures Union(REST, Union(HACKERS_BITS, COMPOUND)) == 0xffff_ffff_ffff_ffff
  {
  }

  /** Taking one part off leaves the other parts alone. */
  lemma {:induction false} PartOff(flags: Word, m: Word)
    requires Masked(m, REST) == 0 && Masked(m, HUGE) == 0
    ensures var a := Without(flags, m);
      Masked(a, REST) == Masked(flags, REST) && Masked(a, HUGE) == Masked(flags, HUGE) && Masked(a, m) == 0
  {
    hide Masked, Without;
    WithoutKeeps(flags, m, REST);
    WithoutKeeps(flags, m, HUGE);
    WithoutClears(flags, m);
  }

  /** An ordinary user sees the word without the hackers' bits, and compound bits only on huge pages; a second look
      hides nothing more. */
  lemma {:induction false} WellKnownExactly(flags: Word, pme: Word)
    ensures var r := Rewrite(false, flags, pme);
      && Masked(r, REST) == Masked(flags, REST) && Masked(r, HACKERS_BITS) == 0
      && Masked(r, COMPOUND) == (if Has(flags, HUGE) then Masked(flags, COMPOUND) else 0)
    ensures Rewrite(false, Rewrite(false, flags, pme), pme) == Rewrite(false, flags, pme)
  {
    Parts();
    hide Masked, Without;
    var a := Without(flags, HACKERS_BITS);
    PartOff(flags, HACKERS_BITS);
    WithoutKeeps(flags, HACKERS_BITS, COMPOUND);
    PartOff(a, COMPOUND);
    WithoutKeeps(a, COMPOUND, HACKERS_BITS);
    NothingOff(WellKnown(flags), HACKERS_BITS);
  }
}
