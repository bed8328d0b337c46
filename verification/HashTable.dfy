/** The open-addressing table of page-types.c that counts pages per flags word.

    Slot 0 is reserved for the word 0, because a zero key marks a free slot; the other words probe
    slots 1..HASH_SIZE-1 cyclically. */
module HashTable {
  import opened Basics
  import FlagLetters

  const HASH_SIZE: nat := 8192

  /** The slot where the probe for a nonzero word starts. */
  function Home(flags: ULong): (k: nat)
    ensures 1 <= k < HASH_SIZE
  {
    var key := flags % HASH_SIZE;
    if key == 0 then 1 else key
  }

  /** How many advances lead from home to slot k. */
  function Distance(home: nat, k: nat): (d: nat)
    requires 1 <= home < HASH_SIZE && 1 <= k < HASH_SIZE
    ensures d < HASH_SIZE - 1
  {
    if k >= home then k - home else k + (HASH_SIZE - 1) - home
  }

  /** The slot visited after j advances from home; past the last slot the probe wraps to slot 1.
      The visits are the slots 1..HASH_SIZE-1, each once. */
  function Probe(home: nat, j: nat): (k: nat)
    requires 1 <= home < HASH_SIZE && j < HASH_SIZE - 1
    ensures 1 <= k < HASH_SIZE && Distance(home, k) == j
  {
    if home + j < HASH_SIZE then home + j else home + j - (HASH_SIZE - 1)
  }

  lemma {:induction false} ProbeReaches(home: nat, k: nat)
    requires 1 <= home < HASH_SIZE && 1 <= k < HASH_SIZE
    ensures Probe(home, Distance(home, k)) == k
  {
  }

  lemma {:induction false} ProbeStarts(flags: ULong)
    ensures var key := flags % HASH_SIZE; Probe(Home(flags), 0) == if key == 0 then 1 else key
  {
  }

  lemma {:induction false} ProbeAdvances(home: nat, j: nat)
    requires 1 <= home < HASH_SIZE && j < HASH_SIZE - 1
    ensures var next := Probe(home, j) + 1; j + 1 < HASH_SIZE - 1 ==> Probe(home, j + 1) == if next >= HASH_SIZE then 1 else next
  {
  }

  // ------------------------------------------------------------ specification

  type Keys = s: seq<ULong> | |s| == HASH_SIZE witness seq(HASH_SIZE, _ => 0)

  /** A slot where the probe for flags stops. */
  predicate Stops(keys: Keys, flags: ULong, k: nat)
    requires k < HASH_SIZE
  {
    keys[k] == 0 || keys[k] == flags
  }

  /** The number of advances after which the probe stops, at least j. */
  function Search(keys: Keys, flags: ULong, j: nat): (r: Option<nat>)
    requires j <= HASH_SIZE - 1
    ensures r.Some? ==> j <= r.value < HASH_SIZE - 1 && Stops(keys, flags, Probe(Home(flags), r.value))
    ensures forall i :: j <= i < (if r.Some? then r.value else HASH_SIZE - 1) ==> !Stops(keys, flags, Probe(Home(flags), i))
    decreases HASH_SIZE - 1 - j
  {
    if j == HASH_SIZE - 1 then None
    else if Stops(keys, flags, Probe(Home(flags), j)) then Some(j)
    else Search(keys, flags, j + 1)
  }

  /** The slot of a word, or None where the program ends with "hash table full". */
  function Find(keys: Keys, flags: ULong): (r: Option<nat>)
    ensures r.Some? ==> r.value < HASH_SIZE && (flags != 0 ==> 1 <= r.value && Stops(keys, flags, r.value))
  {
    if flags == 0 then Some(0)
    else match Search(keys, flags, 0)
      case None => None
      case Some(j) => Some(Probe(Home(flags), j))
  }

  datatype Table = Table(keys: Keys, counts: seq<nat>, total: nat) {
    predicate Shape() { |counts| == HASH_SIZE }
  }

  function Empty(): Table {
    Table(seq(HASH_SIZE, _ => 0), seq(HASH_SIZE, _ => 0), 0)
  }

  /** An `unsigned long` counter after n increments. */
  function Wrap(n: nat): nat { n % ULONG_RANGE }

  /** page_flags[k] = flags, nr_pages[k]++ and total_pages++. */
  function Store(t: Table, k: nat, flags: ULong): (r: Table)
    requires t.Shape() && k < HASH_SIZE
    ensures r.Shape()
  {
    Table(t.keys[k := flags], t.counts[k := Wrap(t.counts[k] + 1)], Wrap(t.total + 1))
  }

  /** Counting one page: nr_pages[hash_slot(flags)]++ and total_pages++. */
  function Add(t: Table, flags: ULong): Option<Table>
    requires t.Shape()
  {
    match Find(t.keys, flags)
    case None => None
    case Some(k) => Some(Store(t, k, flags))
  }

  /** The table after a sequence of pages, or None when some page found the table full. */
  function AddAll(pages: seq<ULong>): (r: Option<Table>)
    ensures r.Some? ==> r.value.Shape()
  {
    if pages == [] then Some(Empty())
    else match AddAll(pages[..|pages| - 1])
      case None => None
      case Some(t) => Add(t, pages[|pages| - 1])
  }

  // ---------------------------------------------------------------- invariant

  predicate Occupied(keys: Keys, k: nat)
    requires k < HASH_SIZE
  {
    keys[k] != 0
  }

  /** Every slot the probe from home visits before k is occupied. */
  ghost predicate PathOccupied(keys: Keys, home: nat, k: nat)
    requires 1 <= home < HASH_SIZE && 1 <= k < HASH_SIZE
  {
    forall j :: 0 <= j < Distance(home, k) ==> Occupied(keys, Probe(home, j))
  }

  /** Slot 0 stores no key, no key occurs twice, and the probe path up to every key is occupied. */
  ghost predicate KeysInv(keys: Keys) {
    && !Occupied(keys, 0)
    && (forall a, b :: 1 <= a < b < HASH_SIZE && Occupied(keys, a) ==> keys[a] != keys[b])
    && (forall k :: 1 <= k < HASH_SIZE && Occupied(keys, k) ==> PathOccupied(keys, Home(keys[k]), k))
  }

  /** The table is a map from the words in pages to how often they occur there. */
  ghost predicate Refines(t: Table, pages: seq<ULong>) {
    && t.Shape() && KeysInv(t.keys)
    && (forall k :: 0 <= k < HASH_SIZE && (k == 0 || Occupied(t.keys, k)) ==>
          t.counts[k] == Wrap(multiset(pages)[t.keys[k]]))
    && (forall k :: 1 <= k < HASH_SIZE && !Occupied(t.keys, k) ==> t.counts[k] == 0)
    && (forall k :: 1 <= k < HASH_SIZE && Occupied(t.keys, k) ==> t.keys[k] in pages)
    && (forall w :: w in pages ==> w in t.keys)
    && t.total == Wrap(|pages|)
    && Wrap(Sum(t.counts)) == t.total
  }

  ghost function Sum(s: seq<nat>): nat {
    if s == [] then 0 else s[0] + Sum(s[1..])
  }

  lemma {:induction false} SumUpdate(s: seq<nat>, k: nat, x: nat)
    requires k < |s|
    ensures Sum(s[k := x]) + s[k] == Sum(s) + x
  {
    if k > 0 {
      assert s[k := x][1..] == s[1..][k - 1 := x];
      SumUpdate(s[1..], k - 1, x);
    } else {
      assert s[0 := x][1..] == s[1..];
    }
  }

  lemma {:induction false} SumZero(n: nat)
    ensures Sum(seq(n, _ => 0)) == 0
  {
    if n > 0 {
      assert seq(n, _ => 0)[1..] == seq(n - 1, _ => 0);
      SumZero(n - 1);
    }
  }

  lemma {:induction false} SearchStopsAt(keys: Keys, flags: ULong, d: nat)
    requires d < HASH_SIZE - 1 && Stops(keys, flags, Probe(Home(flags), d))
    requires forall j :: 0 <= j < d ==> !Stops(keys, flags, Probe(Home(flags), j))
    ensures Search(keys, flags, 0) == Some(d)
  {
  }

  lemma {:induction false} PathDoesNotStop(keys: Keys, k: nat, j: nat)
    requires KeysInv(keys) && 1 <= k < HASH_SIZE && Occupied(keys, k) && j < Distance(Home(keys[k]), k)
    ensures !Stops(keys, keys[k], Probe(Home(keys[k]), j))
  {
    var b := Probe(Home(keys[k]), j);
    assert PathOccupied(keys, Home(keys[k]), k);
    assert Occupied(keys, b) && b != k;
    if b < k { assert keys[b] != keys[k]; }
  }

  /** A stored key is found again in the slot that stores it. */
  lemma {:induction false} FindStored(keys: Keys, k: nat)
    requires KeysInv(keys) && 1 <= k < HASH_SIZE && Occupied(keys, k)
    ensures Find(keys, keys[k]) == Some(k)
  {
    var home := Home(keys[k]);
    var d := Distance(home, k);
    ProbeReaches(home, k);
    forall j | 0 <= j < d ensures !Stops(keys, keys[k], Probe(home, j)) { PathDoesNotStop(keys, k, j); }
    SearchStopsAt(keys, keys[k], d);
  }

  /** The search fails exactly when the word is nonzero and every slot is taken by another word. */
  lemma {:induction false} FindFails(keys: Keys, flags: ULong)
    ensures Find(keys, flags) == None
       <==> flags != 0 && forall k :: 1 <= k < HASH_SIZE ==> !Stops(keys, flags, k)
  {
    if flags != 0 && Search(keys, flags, 0) == None {
      forall k | 1 <= k < HASH_SIZE ensures !Stops(keys, flags, k) {
        ProbeReaches(Home(flags), k);
      }
    }
  }

  /** A word found in a free slot is stored nowhere. */
  lemma {:induction false} FreeMeansAbsent(keys: Keys, flags: ULong, k: nat)
    requires KeysInv(keys) && flags != 0 && Find(keys, flags) == Some(k) && !Occupied(keys, k)
    ensures flags !in keys
  {
    forall a | 0 <= a < HASH_SIZE ensures keys[a] != flags {
      if keys[a] == flags { FindStored(keys, a); }
    }
  }

  /** The probe path to the free slot is occupied by other words. */
  lemma {:induction false} PathToFree(keys: Keys, flags: ULong, k: nat)
    requires flags != 0 && Find(keys, flags) == Some(k) && 1 <= k && !Occupied(keys, k)
    ensures PathOccupied(keys[k := flags], Home(flags), k)
  {
    hide Home, Probe, Distance;
    forall j | 0 <= j < Distance(Home(flags), k) ensures Occupied(keys[k := flags], Probe(Home(flags), j)) {
      assert !Stops(keys, flags, Probe(Home(flags), j));
    }
  }

  /** Filling a slot frees none. */
  lemma {:induction false} PathStaysOccupied(keys: Keys, k: nat, flags: ULong, home: nat, b: nat)
    requires flags != 0 && k < HASH_SIZE && 1 <= home < HASH_SIZE && 1 <= b < HASH_SIZE && PathOccupied(keys, home, b)
    ensures PathOccupied(keys[k := flags], home, b)
  {
    hide Probe, Distance;
    forall j | 0 <= j < Distance(home, b) ensures Occupied(keys[k := flags], Probe(home, j)) {
      assert Occupied(keys, Probe(home, j));
    }
  }

  /** Storing a word where its probe stops keeps the key invariant. */
  lemma {:induction false} StoreKeepsKeys(keys: Keys, flags: ULong, k: nat)
    requires KeysInv(keys) && flags != 0 && Find(keys, flags) == Some(k) && !Occupied(keys, k)
    ensures KeysInv(keys[k := flags])
  {
    hide Home, PathOccupied;
    var after: Keys := keys[k := flags];
    FreeMeansAbsent(keys, flags, k);
    PathToFree(keys, flags, k);
    forall b | 1 <= b < HASH_SIZE && Occupied(after, b) && b != k
      ensures PathOccupied(after, Home(after[b]), b)
    {
      assert Occupied(keys, b);
      PathStaysOccupied(keys, k, flags, Home(keys[b]), b);
    }
  }

  lemma {:induction false} CountSnoc(pages: seq<ULong>, flags: ULong, w: ULong)
    ensures multiset(pages + [flags])[w] == multiset(pages)[w] + (if w == flags then 1 else 0)
    ensures multiset(pages)[w] == 0 <==> w !in pages
  {
    assert multiset(pages + [flags]) == multiset(pages) + multiset{flags};
    assert w in pages <==> w in multiset(pages);
  }

  lemma {:induction false} WrapNext(n: nat)
    ensures Wrap(Wrap(n) + 1) == Wrap(n + 1)
  {
  }

  /** Slot k is where the probe for flags stopped: its counter belongs to flags, and storing flags keeps the keys. */
  ghost predicate Fits(t: Table, pages: seq<ULong>, flags: ULong, k: nat)
    requires t.Shape()
  {
    && k < HASH_SIZE && (k == 0 <==> flags == 0)
    && (Occupied(t.keys, k) ==> t.keys[k] == flags)
    && t.counts[k] == Wrap(multiset(pages)[flags])
    && KeysInv(t.keys[k := flags])
  }

  lemma {:induction false} FoundFits(t: Table, pages: seq<ULong>, flags: ULong, k: nat)
    requires Refines(t, pages) && Find(t.keys, flags) == Some(k)
    ensures Fits(t, pages, flags, k)
  {
    if flags == 0 {
      assert t.keys[0 := flags] == t.keys;
    } else if Occupied(t.keys, k) {
      assert t.keys[k := flags] == t.keys;
    } else {
      StoreKeepsKeys(t.keys, flags, k);
      FreeMeansAbsent(t.keys, flags, k);
      CountSnoc(pages, flags, flags);
    }
  }

  /** The counters after one more page: only the page's own word has its counter moved. */
  lemma {:induction false} StoreCounts(t: Table, pages: seq<ULong>, flags: ULong, k: nat, a: nat)
    requires Refines(t, pages) && Fits(t, pages, flags, k)
    requires a < HASH_SIZE && (a == 0 || Occupied(Store(t, k, flags).keys, a))
    ensures Store(t, k, flags).counts[a] == Wrap(multiset(pages + [flags])[Store(t, k, flags).keys[a]])
  {
    var keys := Store(t, k, flags).keys;
    CountSnoc(pages, flags, keys[a]);
    if a == k {
      WrapNext(multiset(pages)[flags]);
    } else if a == 0 || k == 0 {
      assert keys[a] != flags;
    } else {
      assert Occupied(keys, a) && Occupied(keys, k);
      assert keys[if a < k then a else k] != keys[if a < k then k else a];
    }
  }

  lemma {:induction false} StoreHasWord(t: Table, pages: seq<ULong>, flags: ULong, k: nat, w: ULong)
    requires Refines(t, pages) && Fits(t, pages, flags, k) && w in pages + [flags]
    ensures w in Store(t, k, flags).keys
  {
    var keys := Store(t, k, flags).keys;
    if w == flags {
      assert keys[k] == w;
    } else {
      var a :| 0 <= a < HASH_SIZE && t.keys[a] == w;
      assert keys[if a == k then 0 else a] == w;
    }
  }

  lemma {:induction false} WrapShift(a: nat, b: nat, c: nat)
    requires a + c == b + Wrap(c + 1)
    ensures Wrap(a) == Wrap(b + 1)
  {
    if c + 1 < ULONG_RANGE {
      assert a == b + 1;
    } else {
      WrapAdd(a, (c + 1) / ULONG_RANGE);
    }
  }

  lemma {:induction false} WrapAdd(a: nat, q: nat)
    ensures Wrap(a + q * ULONG_RANGE) == Wrap(a)
  {
    if q > 0 {
      WrapAdd(a, q - 1);
      assert a + q * ULONG_RANGE == (a + (q - 1) * ULONG_RANGE) + ULONG_RANGE;
    }
  }

  lemma {:induction false} StoreTotal(t: Table, pages: seq<ULong>, flags: ULong, k: nat)
    requires Refines(t, pages) && k < HASH_SIZE
    ensures Store(t, k, flags).total == Wrap(|pages + [flags]|) == Wrap(Sum(Store(t, k, flags).counts))
  {
    var c := t.counts[k];
    SumUpdate(t.counts, k, Wrap(c + 1));
    WrapShift(Sum(Store(t, k, flags).counts), Sum(t.counts), c);
    WrapNext(|pages|);
    WrapNext(Sum(t.counts));
  }

  /** One counted page takes a table for `pages` to a table for `pages + [flags]`. */
  lemma {:induction false} AddRefines(t: Table, pages: seq<ULong>, flags: ULong)
    requires Refines(t, pages) && Add(t, flags).Some?
    ensures Refines(Add(t, flags).value, pages + [flags])
  {
    var k := Find(t.keys, flags).value;
    FoundFits(t, pages, flags, k);
    StoreRefines(t, pages, flags, k);
  }

  lemma {:induction false} StoreRefines(t: Table, pages: seq<ULong>, flags: ULong, k: nat)
    requires Refines(t, pages) && Fits(t, pages, flags, k)
    ensures Refines(Store(t, k, flags), pages + [flags])
  {
    var t' := Store(t, k, flags);
    StoreTotal(t, pages, flags, k);
    forall a | 0 <= a < HASH_SIZE && (a == 0 || Occupied(t'.keys, a))
      ensures t'.counts[a] == Wrap(multiset(pages + [flags])[t'.keys[a]])
    {
      StoreCounts(t, pages, flags, k, a);
    }
    forall w | w in pages + [flags] ensures w in t'.keys { StoreHasWord(t, pages, flags, k, w); }
  }

  lemma {:induction false} EmptyRefines()
    ensures Refines(Empty(), [])
  {
    SumZero(HASH_SIZE);
  }

  lemma {:induction false} AddAllRefines(pages: seq<ULong>)
    requires AddAll(pages).Some?
    ensures Refines(AddAll(pages).value, pages)
  {
    if pages == [] {
      EmptyRefines();
    } else {
      var n := |pages| - 1;
      AddAllRefines(pages[..n]);
      AddRefines(AddAll(pages[..n]).value, pages[..n], pages[n]);
      assert pages == pages[..n] + [pages[n]];
    }
  }

  // ------------------------------------------------- when the table is full

  /** The distinct nonzero words of a sequence of pages. */
  ghost function Distinct(pages: seq<ULong>): set<ULong> {
    set w | w in pages && w != 0
  }

  ghost function KeySet(keys: Keys, n: nat): set<ULong>
    requires n <= HASH_SIZE
  {
    set k | 1 <= k < n && Occupied(keys, k) :: keys[k]
  }

  lemma {:induction false} KeySetStep(keys: Keys, n: nat)
    requires KeysInv(keys) && 1 <= n < HASH_SIZE
    ensures KeySet(keys, n + 1) == KeySet(keys, n) + (if Occupied(keys, n) then {keys[n]} else {})
    ensures Occupied(keys, n) ==> keys[n] !in KeySet(keys, n)
  {
  }

  lemma {:induction false} KeySetSize(keys: Keys, n: nat)
    requires KeysInv(keys) && 1 <= n <= HASH_SIZE
    ensures |KeySet(keys, n)| <= n - 1
  {
    if n == 1 {
      assert KeySet(keys, 1) == {};
    } else {
      KeySetSize(keys, n - 1);
      KeySetStep(keys, n - 1);
    }
  }

  lemma {:induction false} KeySetFull(keys: Keys, n: nat)
    requires KeysInv(keys) && 1 <= n <= HASH_SIZE
    requires forall k :: 1 <= k < n ==> Occupied(keys, k)
    ensures |KeySet(keys, n)| == n - 1
  {
    if n == 1 {
      assert KeySet(keys, 1) == {};
    } else {
      KeySetFull(keys, n - 1);
      KeySetStep(keys, n - 1);
    }
  }

  lemma {:induction false} KeySetIsDistinct(t: Table, pages: seq<ULong>)
    requires Refines(t, pages)
    ensures KeySet(t.keys, HASH_SIZE) == Distinct(pages)
  {
    forall w | w in Distinct(pages) ensures w in KeySet(t.keys, HASH_SIZE) {
      var k :| 0 <= k < HASH_SIZE && t.keys[k] == w;
      assert Occupied(t.keys, k);
    }
  }

  lemma {:induction false} OneMoreDistinct(pages: seq<ULong>, flags: ULong)
    ensures Distinct(pages + [flags]) == Distinct(pages) + (if flags == 0 then {} else {flags})
  {
  }

  lemma {:induction false} PageFails(t: Table, pages: seq<ULong>, flags: ULong)
    requires Refines(t, pages) && Find(t.keys, flags) == None
    ensures |Distinct(pages + [flags])| == HASH_SIZE
  {
    FindFails(t.keys, flags);
    forall k | 1 <= k < HASH_SIZE ensures Occupied(t.keys, k) && t.keys[k] != flags {
      assert !Stops(t.keys, flags, k);
    }
    KeySetFull(t.keys, HASH_SIZE);
    KeySetIsDistinct(t, pages);
    OneMoreDistinct(pages, flags);
    assert flags !in KeySet(t.keys, HASH_SIZE);
  }

  /** A run of pages ends with "hash table full" exactly when it holds at least HASH_SIZE distinct nonzero words. */
  lemma {:induction false} FullExactly(pages: seq<ULong>)
    ensures AddAll(pages).Some? <==> |Distinct(pages)| < HASH_SIZE
  {
    if pages == [] {
      assert Distinct(pages) == {};
    } else {
      var n := |pages| - 1;
      var before, flags := pages[..n], pages[n];
      assert pages == before + [flags];
      FullExactly(before);
      OneMoreDistinct(before, flags);
      if AddAll(before).Some? {
        AddAllRefines(before);
        if Find(AddAll(before).value.keys, flags) == None {
          PageFails(AddAll(before).value, before, flags);
        } else {
          AddAllRefines(pages);
          KeySetSize(AddAll(pages).value.keys, HASH_SIZE);
          KeySetIsDistinct(AddAll(pages).value, pages);
        }
      } else {
        SubsetSize(Distinct(before), Distinct(pages));
      }
    }
  }

  lemma {:induction false} SubsetSize<T>(a: set<T>, b: set<T>)
    requires a <= b
    ensures |a| <= |b|
  {
    assert b == a + (b - a);
  }

  // ---------------------------------------------------------------- summary

  lemma {:induction false} MultiplicityBound(pages: seq<ULong>, w: ULong)
    ensures multiset(pages)[w] <= |pages|
  {
    assert multiset{}[w := multiset(pages)[w]] <= multiset(pages);
  }

  lemma {:induction false} StoreSum(t: Table, pages: seq<ULong>, flags: ULong, k: nat)
    requires Refines(t, pages) && Fits(t, pages, flags, k)
    requires |pages| + 1 < ULONG_RANGE && Sum(t.counts) == |pages| == t.total
    ensures Sum(Store(t, k, flags).counts) == |pages| + 1 == Store(t, k, flags).total
  {
    MultiplicityBound(pages, flags);
    SumUpdate(t.counts, k, Wrap(t.counts[k] + 1));
  }

  /** Below 2^64 pages no counter has wrapped: the counters add up to the number of pages. */
  lemma {:induction false} CountersAddUp(pages: seq<ULong>)
    requires AddAll(pages).Some? && |pages| < ULONG_RANGE
    ensures Sum(AddAll(pages).value.counts) == |pages| == AddAll(pages).value.total
  {
    if pages == [] {
      SumZero(HASH_SIZE);
    } else {
      var n := |pages| - 1;
      var t := AddAll(pages[..n]).value;
      CountersAddUp(pages[..n]);
      AddAllRefines(pages[..n]);
      FoundFits(t, pages[..n], pages[n], Find(t.keys, pages[n]).value);
      StoreSum(t, pages[..n], pages[n], Find(t.keys, pages[n]).value);
    }
  }

  /** Slot k gets a row in the summary for word w. */
  predicate IsRow(t: Table, w: ULong, k: nat)
    requires t.Shape()
  {
    k < HASH_SIZE && t.counts[k] != 0 && t.keys[k] == w
  }

  lemma {:induction false} RowIsRight(t: Table, pages: seq<ULong>, w: ULong, k: nat)
    requires Refines(t, pages) && |pages| < ULONG_RANGE && IsRow(t, w, k)
    ensures w in pages && t.counts[k] == multiset(pages)[w] && (k == 0 || Occupied(t.keys, k))
  {
    assert k == 0 || Occupied(t.keys, k);
    MultiplicityBound(pages, w);
    CountSnoc(pages, w, w);
  }

  lemma {:induction false} RowsAreUnique(t: Table, pages: seq<ULong>, w: ULong, a: nat, b: nat)
    requires Refines(t, pages) && |pages| < ULONG_RANGE && IsRow(t, w, a) && IsRow(t, w, b)
    ensures a == b
  {
    RowIsRight(t, pages, w, a);
    RowIsRight(t, pages, w, b);
  }

  lemma {:induction false} RowsDiffer(t: Table, pages: seq<ULong>, a: nat, b: nat)
    requires Refines(t, pages) && |pages| < ULONG_RANGE && a < b < HASH_SIZE && IsRow(t, t.keys[a], a) && IsRow(t, t.keys[b], b)
    ensures t.keys[a] != t.keys[b]
  {
    if t.keys[a] == t.keys[b] {
      RowsAreUnique(t, pages, t.keys[a], a, b);
      assert false;
    }
  }

  lemma {:induction false} RowExists(t: Table, pages: seq<ULong>, w: ULong) returns (k: nat)
    requires Refines(t, pages) && |pages| < ULONG_RANGE && w in pages
    ensures IsRow(t, w, k)
  {
    k :| k < HASH_SIZE && t.keys[k] == w;
    if w == 0 { k := 0; }
    assert k == 0 || Occupied(t.keys, k);
    MultiplicityBound(pages, w);
    CountSnoc(pages, w, w);
  }

  /** The rows show_summary prints, one for each slot with a nonzero counter, list every flags word that occurs
      exactly once, with the number of its pages. */
  lemma {:induction false} SummaryExact(pages: seq<ULong>, w: ULong)
    requires AddAll(pages).Some? && |pages| < ULONG_RANGE
    ensures var t := AddAll(pages).value;
      && (w in pages <==> exists k: nat :: IsRow(t, w, k))
      && (forall k: nat :: IsRow(t, w, k) ==> t.counts[k] == multiset(pages)[w])
      && (forall a: nat, b: nat :: IsRow(t, w, a) && IsRow(t, w, b) ==> a == b)
  {
    var t := AddAll(pages).value;
    AddAllRefines(pages);
    forall k: nat | IsRow(t, w, k) ensures w in pages && t.counts[k] == multiset(pages)[w] {
      RowIsRight(t, pages, w, k);
    }
    forall a: nat, b: nat | IsRow(t, w, a) && IsRow(t, w, b) ensures a == b { RowsAreUnique(t, pages, w, a, b); }
    if w in pages {
      var k := RowExists(t, pages, w);
    }
  }

  // ----------------------------------------------------------- the printed summary

  /** A line of the summary. */
  datatype Row = Row(flags: ULong, pages: nat)

  predicate Unknown(flags: ULong) { FlagLetters.Unknown(flags) }

  /** The lines for the first n slots. */
  function RowsUpTo(t: Table, n: nat): seq<Row>
    requires t.Shape() && n <= HASH_SIZE
  {
    if n == 0 then []
    else RowsUpTo(t, n - 1) + if t.counts[n - 1] != 0 then [Row(t.keys[n - 1], t.counts[n - 1])] else []
  }

  /** The lines show_summary comes to print. */
  function Rows(t: Table): seq<Row>
    requires t.Shape()
  {
    RowsUpTo(t, |t.counts|)
  }

  lemma {:induction false} RowsUpToIn(t: Table, n: nat, r: Row)
    requires t.Shape() && n <= HASH_SIZE
    ensures r in RowsUpTo(t, n) <==> exists k: nat :: k < n && IsRow(t, r.flags, k) && t.counts[k] == r.pages
  {
    if n > 0 { RowsUpToIn(t, n - 1, r); }
  }

  lemma {:induction false} RowsUpToDistinct(t: Table, pages: seq<ULong>, n: nat)
    requires Refines(t, pages) && |pages| < ULONG_RANGE && n <= HASH_SIZE
    ensures forall i, j :: 0 <= i < j < |RowsUpTo(t, n)| ==> RowsUpTo(t, n)[i].flags != RowsUpTo(t, n)[j].flags
  {
    assert t.Shape();
    hide Refines;
    if n > 0 {
      RowsUpToDistinct(t, pages, n - 1);
      var before := RowsUpTo(t, n - 1);
      if t.counts[n - 1] != 0 {
        forall i | 0 <= i < |before| ensures before[i].flags != t.keys[n - 1] {
          RowsUpToIn(t, n - 1, before[i]);
          var k: nat :| k < n - 1 && IsRow(t, before[i].flags, k) && t.counts[k] == before[i].pages;
          RowsDiffer(t, pages, k, n - 1);
        }
      }
    }
  }

  /** The lines are exactly one for each flags word that occurs, with the number of its pages. */
  lemma {:induction false} RowsExactly(pages: seq<ULong>, r: Row)
    requires AddAll(pages).Some? && |pages| < ULONG_RANGE
    ensures var rows := Rows(AddAll(pages).value);
      && (r in rows <==> r.flags in pages && r.pages == multiset(pages)[r.flags])
      && (forall i, j :: 0 <= i < j < |rows| ==> rows[i].flags != rows[j].flags)
  {
    var t := AddAll(pages).value;
    AddAllRefines(pages);
    RowsUpToDistinct(t, pages, |t.counts|);
    RowsUpToIn(t, |t.counts|, r);
    SummaryExact(pages, r.flags);
  }

  /** The slot a word gets when no other word is in the way: 0 for the word 0, and 1 for others whose last 13 bits are 0. */
  function OwnSlot(w: ULong): (k: nat)
    ensures k < HASH_SIZE
  {
    if w == 0 then 0 else if w % 0x2000 == 0 then 1 else w % 0x2000
  }

  /** No two of the words want the same slot. */
  predicate Apart(pages: seq<ULong>) {
    forall u, w :: u in pages && w in pages && OwnSlot(u) == OwnSlot(w) ==> u == w
  }

  ghost predicate AtOwnSlots(t: Table, pages: seq<ULong>) {
    && (forall k :: 1 <= k < HASH_SIZE && t.keys[k] != 0 ==> t.keys[k] in pages && OwnSlot(t.keys[k]) == k)
    && t.keys[0] == 0
  }

  lemma {:induction false} FoundAtOwn(t: Table, pages: seq<ULong>, w: ULong)
    requires t.Shape() && Apart(pages) && w in pages && AtOwnSlots(t, pages)
    ensures Find(t.keys, w) == Some(OwnSlot(w))
  {
    if w != 0 {
      var k := OwnSlot(w);
      assert Probe(Home(w), 0) == k;
      assert Stops(t.keys, w, k) by { if t.keys[k] != 0 { assert OwnSlot(t.keys[k]) == k; } }
      assert Search(t.keys, w, 0) == Some(0);
    }
  }

  lemma {:induction false} AllAtOwn(pages: seq<ULong>, all: seq<ULong>)
    requires Apart(all) && pages <= all
    ensures AddAll(pages).Some? && AtOwnSlots(AddAll(pages).value, all)
  {
    hide Apart, Search, Home;
    if pages == [] {
      assert AddAll(pages) == Some(Empty());
    } else {
      var before, w := pages[..|pages| - 1], pages[|pages| - 1];
      AllAtOwn(before, all);
      var t := AddAll(before).value;
      assert all[|pages| - 1] == w;
      FoundAtOwn(t, all, w);
      OwnSlotOfZero(w);
    }
  }

  lemma {:induction false} OwnSlotOfZero(w: ULong)
    ensures OwnSlot(w) == 0 <==> w == 0
  {
  }

  lemma {:induction false} CountedAtOwn(t: Table, pages: seq<ULong>, all: seq<ULong>, k: nat)
    requires t.Shape() && Refines(t, pages) && AtOwnSlots(t, all) && k < HASH_SIZE && t.counts[k] != 0
    ensures OwnSlot(t.keys[k]) == k
  {
    if k > 0 { assert Occupied(t.keys, k); }
  }

  predicate Ascends(rows: seq<Row>, n: nat) {
    && (forall i :: 0 <= i < |rows| ==> OwnSlot(rows[i].flags) < n)
    && (forall i, j :: 0 <= i < j < |rows| ==> OwnSlot(rows[i].flags) < OwnSlot(rows[j].flags))
  }

  lemma {:induction false} AscendsSnoc(rows: seq<Row>, n: nat, x: Row)
    requires Ascends(rows, n)
    ensures Ascends(rows, n + 1) && (OwnSlot(x.flags) == n ==> Ascends(rows + [x], n + 1))
  {
  }

  lemma {:induction false} RowsAscend(t: Table, pages: seq<ULong>, all: seq<ULong>, n: nat)
    requires t.Shape() && Refines(t, pages) && AtOwnSlots(t, all) && n <= HASH_SIZE
    ensures Ascends(RowsUpTo(t, n), n)
  {
    if n > 0 {
      RowsAscend(t, pages, all, n - 1);
      if t.counts[n - 1] != 0 { CountedAtOwn(t, pages, all, n - 1); }
      AscendsSnoc(RowsUpTo(t, n - 1), n - 1, Row(t.keys[n - 1], t.counts[n - 1]));
      hide Ascends, OwnSlot, Refines, AtOwnSlots;
      assert RowsUpTo(t, n - 1) + [] == RowsUpTo(t, n - 1);
    }
  }

  /** Where no two words want the same slot, the table never comes to be full, and the summary is in the order of their last
      13 bits. */
  lemma {:induction false} SummaryInOrder(pages: seq<ULong>)
    requires Apart(pages)
    ensures AddAll(pages).Some?
    ensures var rows := Rows(AddAll(pages).value);
      forall i, j :: 0 <= i < j < |rows| ==> OwnSlot(rows[i].flags) < OwnSlot(rows[j].flags)
  {
    hide Apart, AddAll, OwnSlot, Refines, AtOwnSlots;
    AllAtOwn(pages, pages);
    AddAllRefines(pages);
    var t := AddAll(pages).value;
    RowsAscend(t, pages, pages, HASH_SIZE);
    assert Rows(t) == RowsUpTo(t, HASH_SIZE);
  }

  /** The summary is printed to its end if and only if every flags word has named bits only. */
  lemma {:induction false} SummaryEndsExactly(pages: seq<ULong>)
    requires AddAll(pages).Some? && |pages| < ULONG_RANGE
    ensures (forall r <- Rows(AddAll(pages).value) :: !Unknown(r.flags)) <==> forall w <- pages :: !Unknown(w)
  {
    hide Unknown, Rows, AddAll;
    var rows := Rows(AddAll(pages).value);
    forall r | r in rows ensures r.flags in pages { RowsExactly(pages, r); }
    forall w | w in pages ensures Row(w, multiset(pages)[w]) in rows { RowsExactly(pages, Row(w, multiset(pages)[w])); }
    if forall r <- rows :: !Unknown(r.flags) {
      forall w | w in pages ensures !Unknown(w) { assert Row(w, multiset(pages)[w]).flags == w; }
    }
  }

  /** One idle page, and the summary does not come to its end. */
  lemma {:induction false} IdleEndsSummary()
    ensures AddAll([0x200_0000]).Some? && exists r <- Rows(AddAll([0x200_0000]).value) :: Unknown(r.flags)
  {
    FlagLetters.IdleIsUnknown();
    var pages: seq<ULong> := [0x200_0000];
    hide FlagLetters.Unknown, AddAll, Rows;
    assert Distinct(pages) == {0x200_0000};
    FullExactly(pages);
    SummaryEndsExactly(pages);
    assert pages[0] in pages && Unknown(pages[0]);
  }

  lemma {:induction false} RowsPrefix(t: Table, n: nat)
    requires t.Shape() && n <= HASH_SIZE
    ensures RowsUpTo(t, n) <= Rows(t)
    decreases HASH_SIZE - n
  {
    if n < HASH_SIZE { RowsPrefix(t, n + 1); }
  }

  lemma {:induction false} NameOrEnd(flags: ULong)
    ensures FlagLetters.ShortName(flags) == None <==> Unknown(flags)
  {
    hide FlagLetters.Unknown;
  }

  // ------------------------------------------------------ the table in place

  /** The global tables of page-types.c, updated in place. */
  class PageCounts {
    const page_flags: array<ULong>
    const nr_pages: array<nat>
    var total_pages: nat

    ghost predicate Valid()
      reads this, page_flags
    {
      page_flags.Length == nr_pages.Length == HASH_SIZE && page_flags[0] == 0
    }

    ghost function Contents(): Table
      requires Valid()
      reads this, page_flags, nr_pages
    {
      Table(page_flags[..], nr_pages[..], total_pages)
    }

    constructor ()
      ensures Valid() && Contents() == Empty()
      ensures fresh(page_flags) && fresh(nr_pages)
    {
      page_flags := new ULong[HASH_SIZE](_ => 0);
      nr_pages := new nat[HASH_SIZE](_ => 0);
      total_pages := 0;
      new;
      assert page_flags[..] == seq(HASH_SIZE, _ => 0) && nr_pages[..] == seq(HASH_SIZE, _ => 0);
    }

    /** Search-or-insert; None is the fatal "hash table full". */
    method HashSlot(flags: ULong) returns (r: Option<nat>)
      requires Valid()
      modifies page_flags
      ensures r == Find(old(page_flags[..]), flags)
      ensures page_flags[..] == if r.Some? then old(page_flags[..])[r.value := flags] else old(page_flags[..])
      ensures Valid()
    {
      hide Probe, Home;
      ProbeStarts(flags);
      if flags == 0 {
        assert page_flags[..][0 := flags] == page_flags[..];
        return Some(0);
      }
      ghost var keys: Keys := page_flags[..];
      var k := flags % HASH_SIZE;
      var i := 1;
      while i < HASH_SIZE
        invariant 1 <= i <= HASH_SIZE
        invariant page_flags[..] == keys
        invariant i < HASH_SIZE ==> (if k == 0 || k >= HASH_SIZE then 1 else k) == Probe(Home(flags), i - 1)
        invariant Search(keys, flags, 0) == Search(keys, flags, i - 1)
      {
        if k == 0 || k >= HASH_SIZE {
          k := 1;
        }
        if page_flags[k] == 0 {
          page_flags[k] := flags;
          return Some(k);
        }
        if page_flags[k] == flags {
          assert keys[k := flags] == keys;
          return Some(k);
        }
        ProbeAdvances(Home(flags), i - 1);
        i := i + 1;
        k := k + 1;
      }
      return None;
    }

    /** show_summary: the lines printed; ok is false when page_flag_name ended the program at the next one. */
    method ShowSummary() returns (rows: seq<Row>, ok: bool)
      requires Valid()
      ensures rows <= Rows(Contents()) && forall r <- rows :: !Unknown(r.flags)
      ensures ok <==> rows == Rows(Contents())
      ensures !ok ==> |rows| < |Rows(Contents())| && Unknown(Rows(Contents())[|rows|].flags)
    {
      hide FlagLetters.Unknown, FlagLetters.ShortName;
      ghost var t := Contents();
      rows := [];
      for i := 0 to HASH_SIZE
        invariant rows == RowsUpTo(t, i) && forall r <- rows :: !Unknown(r.flags)
      {
        if nr_pages[i] != 0 {
          RowsPrefix(t, i + 1);
          NameOrEnd(page_flags[i]);
          var name := FlagLetters.PageFlagName(page_flags[i]);
          if name == None {
            return rows, false;
          }
          rows := rows + [Row(page_flags[i], nr_pages[i])];
        }
      }
      return rows, true;
    }

    /** The last two statements of add_page. */
    method CountPage(flags: ULong) returns (ok: bool)
      requires Valid()
      modifies this, page_flags, nr_pages
      ensures Valid()
      ensures ok == Add(old(Contents()), flags).Some?
      ensures Contents() == if ok then Add(old(Contents()), flags).value else old(Contents())
    {
      var k := HashSlot(flags);
      if k == None {
        return false;
      }
      nr_pages[k.value] := (nr_pages[k.value] + 1) % ULONG_RANGE;
      total_pages := (total_pages + 1) % ULONG_RANGE;
      return true;
    }
  }
}
