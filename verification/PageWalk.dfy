/** The walkers of page-types.c: batched reads of kpageflags and pagemap, and the walk over the VMAs of a task.

    What a read delivers is up to the kernel: the content of the two files is arbitrary, and each read may be short,
    empty or an error. */
module PageWalk {
  import opened Basics
  import RangeLister

  const BATCH: nat := 65536

  /** Answer of one pread: that many words at most, or an error or a partial word, both of which end the program. */
  datatype Read = Got(words: nat) | Error

  /** The arguments of one add_page call. */
  datatype Call = Call(voffset: ULong, offset: ULong, flags: ULong, pme: ULong)

  type File = ULong -> ULong

  /** Unsigned arithmetic wraps around. */
  function Wrapped(a: nat): ULong { a % ULONG_RANGE }

  function Min(a: nat, b: nat): nat { if a < b then a else b }
  function Max(a: nat, b: nat): nat { if a < b then b else a }

  /** The number of words do_u64_read returns for a request of `count`; 0 past the last answer. */
  function Delivered(answers: seq<Read>, count: nat): nat {
    if answers == [] || answers[0].Error? then 0 else Min(answers[0].words, count)
  }

  /** do_u64_read ends the program. */
  predicate Fatal(answers: seq<Read>, index: ULong) {
    index > ULONG_MAX / 8 || (answers != [] && answers[0].Error?)
  }

  function Rest(answers: seq<Read>): seq<Read> {
    if answers == [] then [] else answers[1..]
  }

  /** Where a walk stands after it: the add_page calls made, the answers not yet used, and whether the program goes on. */
  datatype Walk = Walk(calls: seq<Call>, answers: seq<Read>, ok: bool)

  /** The add_page call for word i of a batch. */
  function CallAt(file: File, voffset: ULong, index: ULong, i: nat, pme: ULong): Call
    requires index + i <= ULONG_MAX
  {
    Call(Wrapped(voffset + i), index + i, file(index + i), pme)
  }

  /** The add_page calls for one batch of n words. */
  function BatchCalls(file: File, voffset: ULong, index: ULong, n: nat, pme: ULong): (s: seq<Call>)
    requires index + n <= ULONG_MAX
    ensures |s| == n && forall i :: 0 <= i < n ==> s[i] == CallAt(file, voffset, index, i, pme)
  {
    seq(n, i requires 0 <= i < n => CallAt(file, voffset, index, i, pme))
  }

  lemma {:induction false} WrappedSmall(a: ULong)
    ensures Wrapped(a) == a
  {
  }

  /** walk_pfn. */
  function WalkPfn(file: File, voffset: ULong, index: ULong, count: nat, pme: ULong, answers: seq<Read>): Walk
    decreases count
  {
    if count == 0 then Walk([], answers, true)
    else if Fatal(answers, index) then Walk([], answers, false)
    else
      var n := Delivered(answers, Min(count, BATCH));
      if n == 0 then Walk([], Rest(answers), true)
      else
        var w := WalkPfn(file, voffset, index + n, count - n, pme, Rest(answers));
        w.(calls := BatchCalls(file, voffset, index, n, pme) + w.calls)
  }

  /** One turn of the loop of walk_pfn. */
  lemma {:induction false} WalkTurn(file: File, voffset: ULong, index: ULong, count: nat, pme: ULong, answers: seq<Read>)
    requires var n := Delivered(answers, Min(count, BATCH)); count > 0 && !Fatal(answers, index) && n > 0
    ensures var n := Delivered(answers, Min(count, BATCH));
      && n <= BATCH && n <= count && index + n <= ULONG_MAX
      && WalkPfn(file, voffset, index, count, pme, answers).calls
           == BatchCalls(file, voffset, index, n, pme) + WalkPfn(file, voffset, index + n, count - n, pme, Rest(answers)).calls
  {
  }

  /** Call k of a walk that started at index is for page index + k and carries that page's words. */
  predicate InPlace(file: File, index: ULong, k: nat, pme: ULong, c: Call) {
    index + k <= ULONG_MAX && c.offset == index + k && c.flags == file(index + k) && c.pme == pme
  }

  predicate AllInPlace(file: File, index: ULong, pme: ULong, calls: seq<Call>) {
    forall k :: 0 <= k < |calls| ==> InPlace(file, index, k, pme, calls[k])
  }

  lemma {:induction false} JoinInPlace(file: File, index: ULong, n: nat, pme: ULong, a: seq<Call>, b: seq<Call>)
    requires index + n <= ULONG_MAX && |a| == n && AllInPlace(file, index, pme, a) && AllInPlace(file, index + n, pme, b)
    ensures AllInPlace(file, index, pme, a + b)
  {
    forall k | 0 <= k < |a + b| ensures InPlace(file, index, k, pme, (a + b)[k]) {
      if k >= n { assert InPlace(file, index + n, k - n, pme, b[k - n]); }
    }
  }

  /** For any pattern of short reads the pages are handed on as index, index + 1, ... in order, once each, with their own
      flags words, and never more than count of them. */
  lemma {:induction false} PhysicalOrder(file: File, voffset: ULong, index: ULong, count: nat, pme: ULong, answers: seq<Read>)
    ensures |WalkPfn(file, voffset, index, count, pme, answers).calls| <= count
    ensures AllInPlace(file, index, pme, WalkPfn(file, voffset, index, count, pme, answers).calls)
    decreases count
  {
    hide AllInPlace;
    var n := Delivered(answers, Min(count, BATCH));
    if count > 0 && !Fatal(answers, index) && n > 0 {
      WalkTurn(file, voffset, index, count, pme, answers);
      BatchInPlace(file, voffset, index, n, pme);
      PhysicalOrder(file, voffset, index + n, count - n, pme, Rest(answers));
      JoinInPlace(file, index, n, pme, BatchCalls(file, voffset, index, n, pme),
                  WalkPfn(file, voffset, index + n, count - n, pme, Rest(answers)).calls);
    } else {
      NoneInPlace(file, index, pme);
    }
  }

  lemma {:induction false} BatchInPlace(file: File, voffset: ULong, index: ULong, n: nat, pme: ULong)
    requires index + n <= ULONG_MAX
    ensures AllInPlace(file, index, pme, BatchCalls(file, voffset, index, n, pme))
  {
  }

  lemma {:induction false} NoneInPlace(file: File, index: ULong, pme: ULong)
    ensures AllInPlace(file, index, pme, [])
  {
  }

  /** How many words the reads deliver before the first one that delivers none. */
  function Available(answers: seq<Read>, count: nat): (n: nat)
    ensures n <= count
    decreases count
  {
    var n := Delivered(answers, Min(count, BATCH));
    if count == 0 || n == 0 then 0 else n + Available(Rest(answers), count - n)
  }

  /** A walk the program survives hands on exactly the pages that the reads deliver: all of them, or those before
      the first empty read. */
  lemma {:induction false} StopsOnlyAtEmptyRead(file: File, voffset: ULong, index: ULong, count: nat, pme: ULong, answers: seq<Read>)
    ensures var w := WalkPfn(file, voffset, index, count, pme, answers); w.ok ==> |w.calls| == Available(answers, count)
    decreases count
  {
    var n := Delivered(answers, Min(count, BATCH));
    if count > 0 && !Fatal(answers, index) && n > 0 {
      StopsOnlyAtEmptyRead(file, voffset, index + n, count - n, pme, Rest(answers));
    }
  }

  /** k reads, each of which brings something, bring n pages together. */
  predicate Brings(answers: seq<Read>, count: nat, k: nat, n: nat)
    decreases k
  {
    if k == 0 then n == 0
    else
      var m := Delivered(answers, Min(count, BATCH));
      0 < m <= n && Brings(Rest(answers), count - m, k - 1, n - m)
  }

  /** The read after that is asked for pages beyond the reach of a file offset, or fails. */
  predicate Fails(index: ULong, answers: seq<Read>, k: nat, n: nat) {
    index + n > ULONG_MAX / 8 || (k < |answers| && answers[k].Error?)
  }

  /** The program is ended exactly by a read, made while pages are still wanted, that lies beyond the reach of a file offset
      or fails. */
  lemma {:induction false} EndsExactly(file: File, voffset: ULong, index: ULong, count: nat, pme: ULong, answers: seq<Read>)
    ensures !WalkPfn(file, voffset, index, count, pme, answers).ok
       <==> exists k: nat, n: nat :: Brings(answers, count, k, n) && n < count && Fails(index, answers, k, n)
    decreases count
  {
    var m := Delivered(answers, Min(count, BATCH));
    if count > 0 && Fatal(answers, index) {
      assert Brings(answers, count, 0, 0) && Fails(index, answers, 0, 0);
    } else if count > 0 && m > 0 {
      EndsExactly(file, voffset, index + m, count - m, pme, Rest(answers));
      LaterRead(index, count, answers, m, index + m, count - m, Rest(answers));
    } else if k: nat, n: nat :| Brings(answers, count, k, n) && n < count && Fails(index, answers, k, n) {
      assert k == 0;
    }
  }

  lemma {:induction false} LaterRead(index: ULong, count: nat, answers: seq<Read>, m: nat, later: ULong, left: nat, rest: seq<Read>)
    requires m == Delivered(answers, Min(count, BATCH)) && 0 < m && !Fatal(answers, index)
    requires later == index + m && left == count - m && rest == Rest(answers)
    ensures (exists k: nat, n: nat :: Brings(answers, count, k, n) && n < count && Fails(index, answers, k, n))
       <==> (exists k: nat, n: nat :: Brings(rest, left, k, n) && n < left && Fails(later, rest, k, n))
  {
    if k: nat, n: nat :| Brings(answers, count, k, n) && n < count && Fails(index, answers, k, n) {
      assert k > 0;
      assert Brings(rest, left, k - 1, n - m) && Fails(later, rest, k - 1, n - m);
    }
    if k: nat, n: nat :| Brings(rest, left, k, n) && n < left && Fails(later, rest, k, n) {
      assert Brings(answers, count, k + 1, n + m) && Fails(index, answers, k + 1, n + m);
    }
  }

  /** No page comes from a second read: there is none, or the first ends the walk, or brings everything, or the second
      ends the program or brings nothing. */
  predicate OneRead(index: ULong, count: nat, answers: seq<Read>) {
    var n := Delivered(answers, Min(count, BATCH));
    || count == 0 || Fatal(answers, index) || n == 0 || n == count
    || Fatal(Rest(answers), index + n) || Delivered(Rest(answers), Min(count - n, BATCH)) == 0
  }

  lemma {:induction false} OneReadExactly(file: File, voffset: ULong, index: ULong, count: nat, pme: ULong, answers: seq<Read>)
    ensures |WalkPfn(file, voffset, index, count, pme, answers).calls| <= Delivered(answers, Min(count, BATCH))
       <==> OneRead(index, count, answers)
  {
    var n := Delivered(answers, Min(count, BATCH));
    if count > 0 && !Fatal(answers, index) && n > 0 {
      WalkTurn(file, voffset, index, count, pme, answers);
      var m := Delivered(Rest(answers), Min(count - n, BATCH));
      if n < count && !Fatal(Rest(answers), index + n) && m > 0 {
        WalkTurn(file, voffset, index + n, count - n, pme, Rest(answers));
      }
    }
  }

  /** The virtual offset is not advanced between batches: it counts up along with the pages exactly when no page comes
      from a second read. */
  lemma {:induction false} VoffsetTracksExactly(file: File, voffset: ULong, index: ULong, count: nat, pme: ULong, answers: seq<Read>)
    ensures var calls := WalkPfn(file, voffset, index, count, pme, answers).calls;
      (forall k :: 0 <= k < |calls| ==> calls[k].voffset == Wrapped(voffset + k)) <==> OneRead(index, count, answers)
  {
    hide OneRead;
    OneReadExactly(file, voffset, index, count, pme, answers);
    var calls := WalkPfn(file, voffset, index, count, pme, answers).calls;
    var n := Delivered(answers, Min(count, BATCH));
    if |calls| > n {
      SecondBatch(file, voffset, index, count, pme, answers);
      assert calls[n].voffset != Wrapped(voffset + n);
    } else {
      FirstBatch(file, voffset, index, count, pme, answers);
    }
  }

  lemma {:induction false} FirstBatch(file: File, voffset: ULong, index: ULong, count: nat, pme: ULong, answers: seq<Read>)
    requires var n := Delivered(answers, Min(count, BATCH)); |WalkPfn(file, voffset, index, count, pme, answers).calls| <= n
    ensures forall k :: 0 <= k < |WalkPfn(file, voffset, index, count, pme, answers).calls| ==>
      WalkPfn(file, voffset, index, count, pme, answers).calls[k].voffset == Wrapped(voffset + k)
  {
    var n := Delivered(answers, Min(count, BATCH));
    if count > 0 && !Fatal(answers, index) && n > 0 {
      WalkTurn(file, voffset, index, count, pme, answers);
    }
  }

  /** Two pages in two reads of one: both are listed at the same virtual offset. */
  lemma {:induction false} TwoReadsOneVoffset(file: File, voffset: ULong)
    ensures WalkPfn(file, voffset, 0, 2, 0, [Got(1), Got(1)]).calls
         == [Call(voffset, 0, file(0), 0), Call(voffset, 1, file(1), 0)]
    ensures !OneRead(0, 2, [Got(1), Got(1)])
  {
    var a, b := [Got(1), Got(1)], [Got(1)];
    assert Rest(a) == b && Delivered(a, Min(2, BATCH)) == 1 && Delivered(b, Min(1, BATCH)) == 1;
    WalkTurn(file, voffset, 0, 2, 0, a);
    WalkTurn(file, voffset, 1, 1, 0, b);
    FirstCall(file, voffset, 0, 2, 0, a);
    FirstCall(file, voffset, 1, 1, 0, b);
    assert WalkPfn(file, voffset, 2, 0, 0, []).calls == [];
  }

  lemma {:induction false} SecondBatch(file: File, voffset: ULong, index: ULong, count: nat, pme: ULong, answers: seq<Read>)
    requires var n := Delivered(answers, Min(count, BATCH)); |WalkPfn(file, voffset, index, count, pme, answers).calls| > n
    ensures var n := Delivered(answers, Min(count, BATCH));
      var calls := WalkPfn(file, voffset, index, count, pme, answers).calls;
      && 0 < n <= BATCH && calls[n].voffset == voffset && calls[n - 1].voffset == Wrapped(voffset + (n - 1))
  {
    var n := Delivered(answers, Min(count, BATCH));
    WalkTurn(file, voffset, index, count, pme, answers);
    var next := WalkPfn(file, voffset, index + n, count - n, pme, Rest(answers));
    FirstCall(file, voffset, index + n, count - n, pme, Rest(answers));
    hide WalkPfn;
    assert (BatchCalls(file, voffset, index, n, pme) + next.calls)[n] == next.calls[0];
  }

  lemma {:induction false} FirstCall(file: File, voffset: ULong, index: ULong, count: nat, pme: ULong, answers: seq<Read>)
    requires WalkPfn(file, voffset, index, count, pme, answers).calls != []
    ensures WalkPfn(file, voffset, index, count, pme, answers).calls[0] == Call(voffset, index, file(index), pme)
  {
    WalkTurn(file, voffset, index, count, pme, answers);
    WrappedSmall(voffset);
    assert BatchCalls(file, voffset, index, Delivered(answers, Min(count, BATCH)), pme)[0] == CallAt(file, voffset, index, 0, pme);
  }

  function PageOf(c: Call): RangeLister.Page {
    RangeLister.Page(c.voffset, c.offset, c.flags)
  }

  /** So the range lister starts a new line at the first page of a second read, even where the physical pages and
      their flags run on. */
  lemma {:induction false} SecondReadBreaksRange(file: File, voffset: ULong, index: ULong, count: nat, pme: ULong, answers: seq<Read>)
    requires !OneRead(index, count, answers)
    ensures var n := Delivered(answers, Min(count, BATCH));
      var calls := WalkPfn(file, voffset, index, count, pme, answers).calls;
      && 0 < n < |calls| && calls[n].offset == calls[n - 1].offset + 1
      && !RangeLister.Follows(PageOf(calls[n - 1]), PageOf(calls[n]))
  {
    hide OneRead;
    OneReadExactly(file, voffset, index, count, pme, answers);
    SecondBatch(file, voffset, index, count, pme, answers);
    PhysicalOrder(file, voffset, index, count, pme, answers);
  }

  // ------------------------------------------------------------ pages of a VMA

  /** pagemap_pfn: the page frame of a pagemap entry; 0 for a page that is not present. */
  function PagemapPfn(val: ULong): ULong {
    if val / 0x8000_0000_0000_0000 == 1 then val % 0x80_0000_0000_0000 else 0
  }

  /** An entry's low 55 bits, and whether its bit 63 is set as well: the page is in memory, in that frame. */
  function FrameOf(val: ULong): ULong { val % 0x80_0000_0000_0000 }
  predicate InMemory(val: ULong, frame: nat) { val >= 0x8000_0000_0000_0000 && FrameOf(val) == frame }

  /** The page with this entry is in memory, in a frame other than 0. */
  predicate HasFrame(val: ULong) { val >= 0x8000_0000_0000_0000 && FrameOf(val) != 0 }

  lemma {:induction false} PfnIsFrame(val: ULong)
    ensures PagemapPfn(val) == if val >= 0x8000_0000_0000_0000 then FrameOf(val) else 0
  {
  }

  /** Whatever the eight bits above the frame say, the frame comes out where bit 63 is set, and 0 where it is not. */
  lemma {:induction false} PfnOfFields(x: nat, frame: nat)
    requires x < 256 && frame < 0x80_0000_0000_0000
    ensures PagemapPfn(0x8000_0000_0000_0000 + x * 0x80_0000_0000_0000 + frame) == frame
    ensures PagemapPfn(x * 0x80_0000_0000_0000 + frame) == 0
  {
  }

  /** Answers for the two open files. */
  datatype Reads = Reads(pagemap: seq<Read>, kpageflags: seq<Read>)

  /** The files themselves: pagemap of the process, and kpageflags. */
  datatype Files = Files(pagemap: File, kpageflags: File)

  /** `handed` are the virtual pages for which walk_pfn was called, `calls` the add_page calls it made. */
  datatype TaskWalk = TaskWalk(handed: seq<ULong>, calls: seq<Call>, answers: Reads, ok: bool)

  /** walk_pfn for virtual page v if it has a page frame. */
  function WalkPage(f: Files, v: ULong, r: Reads): TaskWalk {
    var val := f.pagemap(v);
    if PagemapPfn(val) == 0 then TaskWalk([], [], r, true)
    else
      var w := WalkPfn(f.kpageflags, v, PagemapPfn(val), 1, val, r.kpageflags);
      TaskWalk([v], w.calls, r.(kpageflags := w.answers), w.ok)
  }

  /** The second walk is made only if the program goes on after the first. */
  function Then(w: TaskWalk, t: TaskWalk): TaskWalk {
    if w.ok then t.(handed := w.handed + t.handed, calls := w.calls + t.calls) else w
  }

  /** The inner loop of walk_vma over n pages. */
  function WalkMapped(f: Files, index: ULong, n: nat, r: Reads): TaskWalk
    requires index + n <= ULONG_MAX
    decreases n
  {
    if n == 0 then TaskWalk([], [], r, true)
    else var w := WalkPage(f, index, r); Then(w, WalkMapped(f, index + 1, n - 1, w.answers))
  }

  /** walk_vma. */
  function WalkVma(f: Files, index: ULong, count: nat, r: Reads): TaskWalk
    decreases count
  {
    if count == 0 then TaskWalk([], [], r, true)
    else if Fatal(r.pagemap, index) then TaskWalk([], [], r, false)
    else
      var n := Delivered(r.pagemap, Min(count, BATCH));
      var s := r.(pagemap := Rest(r.pagemap));
      if n == 0 then TaskWalk([], [], s, true)
      else
        var w := WalkMapped(f, index, n, s); Then(w, WalkVma(f, index + n, count - n, w.answers))
  }

  /** A call is the one walk_vma makes for virtual page v: that page is present and the frame is its own. */
  predicate CallFor(f: Files, v: ULong, c: Call) {
    c.voffset == v && c.pme == f.pagemap(v)
    && c.offset != 0 && InMemory(f.pagemap(v), c.offset) && c.flags == f.kpageflags(c.offset)
  }

  /** The calls are for distinct virtual pages of [lo, hi), in ascending order. */
  predicate Ascending(f: Files, calls: seq<Call>, lo: nat, hi: nat) {
    (forall k :: 0 <= k < |calls| ==> lo <= calls[k].voffset < hi && CallFor(f, calls[k].voffset, calls[k]))
    && (forall j, k :: 0 <= j < k < |calls| ==> calls[j].voffset < calls[k].voffset)
  }

  lemma {:induction false} AscendingJoin(f: Files, a: seq<Call>, b: seq<Call>, lo: nat, mid: nat, hi: nat)
    requires lo <= mid <= hi && Ascending(f, a, lo, mid) && Ascending(f, b, mid, hi)
    ensures Ascending(f, a + b, lo, hi)
  {
  }

  lemma {:induction false} OnePage(file: File, voffset: ULong, pfn: ULong, count: nat, pme: ULong, answers: seq<Read>)
    requires count == 1
    ensures var calls := WalkPfn(file, voffset, pfn, count, pme, answers).calls;
      calls == [] || calls == [Call(voffset, pfn, file(pfn), pme)]
  {
    PhysicalOrder(file, voffset, pfn, count, pme, answers);
    if WalkPfn(file, voffset, pfn, count, pme, answers).calls != [] {
      FirstCall(file, voffset, pfn, count, pme, answers);
    }
  }

  lemma {:induction false} PageAscending(f: Files, v: ULong, r: Reads)
    requires v < ULONG_MAX
    ensures Ascending(f, WalkPage(f, v, r).calls, v, v + 1)
  {
    hide PagemapPfn, FrameOf;
    PfnIsFrame(f.pagemap(v));
    OnePage(f.kpageflags, v, PagemapPfn(f.pagemap(v)), 1, f.pagemap(v), r.kpageflags);
  }

  lemma {:induction false} MappedAscending(f: Files, index: ULong, n: nat, r: Reads)
    requires index + n <= ULONG_MAX
    ensures Ascending(f, WalkMapped(f, index, n, r).calls, index, index + n)
    decreases n
  {
    hide Ascending, WalkPage;
    if n > 0 {
      var w := WalkPage(f, index, r);
      PageAscending(f, index, r);
      MappedAscending(f, index + 1, n - 1, w.answers);
      AscendingJoin(f, w.calls, WalkMapped(f, index + 1, n - 1, w.answers).calls, index, index + 1, index + n);
      AscendingWiden(f, w.calls, index, index + 1, index + n);
    } else {
      AscendingEmpty(f, index, index);
    }
  }

  lemma {:induction false} AscendingEmpty(f: Files, lo: nat, hi: nat)
    ensures Ascending(f, [], lo, hi)
  {
  }

  lemma {:induction false} AscendingWiden(f: Files, a: seq<Call>, lo: nat, mid: nat, hi: nat)
    requires mid <= hi && Ascending(f, a, lo, mid)
    ensures Ascending(f, a, lo, hi)
  {
  }

  /** For any pattern of short reads walk_vma makes add_page calls for ascending virtual pages, at most one each, and
      only for pages that have a frame, with that frame and that pagemap entry. */
  lemma {:induction false} VmaAscending(f: Files, index: ULong, count: nat, r: Reads)
    requires index + count <= ULONG_MAX
    ensures Ascending(f, WalkVma(f, index, count, r).calls, index, index + count)
    decreases count
  {
    hide Ascending, WalkMapped;
    var n := Delivered(r.pagemap, Min(count, BATCH));
    AscendingEmpty(f, index, index + count);
    if count > 0 && !Fatal(r.pagemap, index) && n > 0 {
      var w := WalkMapped(f, index, n, r.(pagemap := Rest(r.pagemap)));
      MappedAscending(f, index, n, r.(pagemap := Rest(r.pagemap)));
      VmaAscending(f, index + n, count - n, w.answers);
      AscendingJoin(f, w.calls, WalkVma(f, index + n, count - n, w.answers).calls, index, index + n, index + count);
      AscendingWiden(f, w.calls, index, index + n, index + count);
    }
  }

  /** The virtual pages lo .. lo + n - 1 that have a page frame, in order. */
  function Present(f: Files, lo: ULong, n: nat): seq<ULong>
    requires lo + n <= ULONG_MAX
    decreases n
  {
    if n == 0 then [] else (if HasFrame(f.pagemap(lo)) then [lo] else []) + Present(f, lo + 1, n - 1)
  }

  lemma {:induction false} PresentSplit(f: Files, lo: ULong, n: nat, m: nat)
    requires lo + n + m <= ULONG_MAX
    ensures Present(f, lo, n + m) == Present(f, lo, n) + Present(f, lo + n, m)
    decreases n
  {
    hide HasFrame;
    if n > 0 { PresentSplit(f, lo + 1, n - 1, m); }
  }

  lemma {:induction false} MappedHandsOn(f: Files, index: ULong, n: nat, r: Reads)
    requires index + n <= ULONG_MAX
    ensures var w := WalkMapped(f, index, n, r);
      (w.ok ==> w.handed == Present(f, index, n)) && w.answers.pagemap == r.pagemap
    decreases n
  {
    hide FrameOf, PagemapPfn;
    if n > 0 {
      PfnIsFrame(f.pagemap(index));
      MappedHandsOn(f, index + 1, n - 1, WalkPage(f, index, r).answers);
    }
  }

  lemma {:induction false} NonePresent(f: Files, lo: ULong)
    ensures Present(f, lo, 0) == []
  {
  }

  lemma {:induction false} DeliveredAtMost(answers: seq<Read>, count: nat)
    ensures Delivered(answers, Min(count, BATCH)) <= count
  {
  }

  /** walk_vma calls walk_pfn for exactly the present ones among the pages whose pagemap entries the reads delivered. */
  lemma {:induction false} VmaHandsOnPresentPages(f: Files, index: ULong, count: nat, r: Reads)
    requires index + count <= ULONG_MAX
    ensures var w := WalkVma(f, index, count, r); w.ok ==> w.handed == Present(f, index, Available(r.pagemap, count))
    decreases count
  {
    hide WalkMapped, Present, Min;
    var n := Delivered(r.pagemap, Min(count, BATCH));
    NonePresent(f, index);
    DeliveredAtMost(r.pagemap, count);
    if count > 0 && !Fatal(r.pagemap, index) && n > 0 {
      var s := r.(pagemap := Rest(r.pagemap));
      var w := WalkMapped(f, index, n, s);
      MappedHandsOn(f, index, n, s);
      VmaHandsOnPresentPages(f, index + n, count - n, w.answers);
      PresentSplit(f, index, n, Available(s.pagemap, count - n));
    }
  }

  // ------------------------------------------------------- the walk over a task

  /** pg_start[i] and pg_end[i]. */
  datatype Vma = Vma(start: ULong, end: ULong)

  /** add_addr_range: the size is clamped so that offset + size cannot wrap. */
  function ClampedSize(offset: ULong, size: ULong): (r: ULong)
    ensures offset + r <= ULONG_MAX && r <= size
    ensures r < size ==> offset + r == ULONG_MAX
  {
    Min(size, ULONG_MAX - offset)
  }

  /** The first VMA from i on that ends beyond index. */
  function Skip(vmas: seq<Vma>, i: nat, index: ULong): (j: nat)
    requires i <= |vmas|
    ensures i <= j <= |vmas|
    ensures forall k :: i <= k < j ==> vmas[k].end <= index
    ensures j < |vmas| ==> vmas[j].end > index
    decreases |vmas| - i
  {
    if i == |vmas| || vmas[i].end > index then i else Skip(vmas, i + 1, index)
  }

  /** One walk_vma call: the pages start .. stop - 1. */
  datatype Interval = Interval(start: ULong, stop: ULong)

  /** The walk_vma calls of walk_task from index on, with i the VMA reached so far. */
  function Intervals(vmas: seq<Vma>, i: nat, index: ULong, end: ULong): seq<Interval>
    requires i <= |vmas|
    decreases end - index
  {
    if index >= end then []
    else
      var j := Skip(vmas, i, index);
      if j == |vmas| || vmas[j].start >= end then []
      else
        var stop := Min(vmas[j].end, end);
        [Interval(Max(vmas[j].start, index), stop)] + Intervals(vmas, j, stop, end)
  }

  /** What /proc/pid/maps lists: non-empty areas, ascending, none overlapping the next. */
  predicate Sorted(vmas: seq<Vma>) {
    && (forall k :: 0 <= k < |vmas| ==> vmas[k].start < vmas[k].end)
    && (forall j, k :: 0 <= j < k < |vmas| ==> vmas[j].end <= vmas[k].start)
  }

  predicate InVma(vmas: seq<Vma>, p: nat) {
    exists k :: 0 <= k < |vmas| && vmas[k].start <= p < vmas[k].end
  }

  predicate InInterval(s: seq<Interval>, p: nat) {
    exists k :: 0 <= k < |s| && s[k].start <= p < s[k].stop
  }

  /** The intervals are non-empty, ascending, disjoint and within [lo, hi). */
  predicate Ordered(s: seq<Interval>, lo: nat, hi: nat) {
    && (forall k :: 0 <= k < |s| ==> lo <= s[k].start < s[k].stop <= hi)
    && (forall j, k :: 0 <= j < k < |s| ==> s[j].stop <= s[k].start)
  }

  lemma {:induction false} InIntervalCons(x: Interval, s: seq<Interval>, p: nat)
    ensures InInterval([x] + s, p) <==> x.start <= p < x.stop || InInterval(s, p)
  {
    if InInterval(s, p) {
      var k :| 0 <= k < |s| && s[k].start <= p < s[k].stop;
      assert ([x] + s)[k + 1] == s[k];
    }
    assert ([x] + s)[0] == x;
  }

  lemma {:induction false} OrderedCons(x: Interval, s: seq<Interval>, lo: nat, hi: nat)
    requires lo <= x.start < x.stop <= hi && Ordered(s, x.stop, hi)
    ensures Ordered([x] + s, lo, hi)
  {
  }

  /** For any non-empty VMAs, sorted or not, the walked intervals are non-empty, ascending and disjoint: the assertion
      start < index of walk_task holds in every turn. */
  lemma {:induction false} TaskIntervalsOrdered(vmas: seq<Vma>, i: nat, index: ULong, end: ULong)
    requires i <= |vmas| && forall k :: 0 <= k < |vmas| ==> vmas[k].start < vmas[k].end
    ensures Ordered(Intervals(vmas, i, index, end), index, Max(index, end))
    decreases end - index
  {
    hide Ordered;
    OrderedNone(index, Max(index, end));
    if index < end {
      var j := Skip(vmas, i, index);
      if j < |vmas| && vmas[j].start < end {
        var stop := Min(vmas[j].end, end);
        TaskIntervalsOrdered(vmas, j, stop, end);
        OrderedCons(Interval(Max(vmas[j].start, index), stop), Intervals(vmas, j, stop, end), index, end);
      }
    }
  }

  lemma {:induction false} OrderedNone(lo: nat, hi: nat)
    ensures Ordered([], lo, hi)
  {
  }

  /** For sorted VMAs the walked pages are exactly those of [index, end) that lie in a VMA. */
  lemma {:induction false} TaskIntervalsExact(vmas: seq<Vma>, i: nat, index: ULong, end: ULong, p: nat)
    requires Sorted(vmas) && i <= |vmas| && forall k :: 0 <= k < i ==> vmas[k].end <= index
    ensures InInterval(Intervals(vmas, i, index, end), p) <==> index <= p < end && InVma(vmas, p)
    decreases end - index
  {
    if index < end {
      var j := Skip(vmas, i, index);
      if j < |vmas| && vmas[j].start < end {
        var stop := Min(vmas[j].end, end);
        var x := Interval(Max(vmas[j].start, index), stop);
        InIntervalCons(x, Intervals(vmas, j, stop, end), p);
        TaskIntervalsExact(vmas, j, stop, end, p);
        FirstVma(vmas, j, index, p);
      }
    }
  }

  /** When every VMA before j ends at or before index, a page of [index, vmas[j].end) in a VMA lies in VMA j. */
  lemma {:induction false} FirstVma(vmas: seq<Vma>, j: nat, index: nat, p: nat)
    requires Sorted(vmas) && j < |vmas| && forall k :: 0 <= k < j ==> vmas[k].end <= index
    ensures index <= p < vmas[j].end && InVma(vmas, p) ==> vmas[j].start <= p
    ensures vmas[j].start <= p < vmas[j].end ==> InVma(vmas, p)
  {
  }

  /** walk_task from the top: index + count does not wrap for a range that add_addr_range has clamped, the assertion
      holds, and the pages walked are exactly the VMA pages of the range. */
  lemma {:induction false} WalkTaskExact(vmas: seq<Vma>, offset: ULong, size: ULong, p: nat)
    requires Sorted(vmas)
    ensures var end := offset + ClampedSize(offset, size);
      && end == Wrapped(end)
      && Ordered(Intervals(vmas, 0, offset, end), offset, end)
      && (InInterval(Intervals(vmas, 0, offset, end), p) <==> offset <= p < end && InVma(vmas, p))
  {
    var end := offset + ClampedSize(offset, size);
    TaskIntervalsOrdered(vmas, 0, offset, end);
    TaskIntervalsExact(vmas, 0, offset, end, p);
    WrappedSmall(end);
  }

  /** The walk_vma calls for a list of intervals. */
  function WalkIntervals(f: Files, s: seq<Interval>, r: Reads): TaskWalk
    requires forall k :: 0 <= k < |s| ==> s[k].start <= s[k].stop
  {
    if s == [] then TaskWalk([], [], r, true)
    else
      var w := WalkVma(f, s[0].start, s[0].stop - s[0].start, r);
      Then(w, WalkIntervals(f, s[1..], w.answers))
  }

  /** Over a whole task the add_page calls come in ascending virtual order, one at most for a page, each for a page
      that is present and carries its own frame and flags. */
  lemma {:induction false} IntervalsAscending(f: Files, s: seq<Interval>, r: Reads, lo: nat, hi: nat)
    requires lo <= hi <= ULONG_MAX && Ordered(s, lo, hi)
    ensures Ascending(f, WalkIntervals(f, s, r).calls, lo, hi)
    ensures forall c <- WalkIntervals(f, s, r).calls :: InInterval(s, c.voffset)
  {
    hide Ascending, WalkVma;
    AscendingEmpty(f, lo, hi);
    if s != [] {
      var x := s[0];
      var w := WalkVma(f, x.start, x.stop - x.start, r);
      var rest := WalkIntervals(f, s[1..], w.answers).calls;
      VmaAscending(f, x.start, x.stop - x.start, r);
      IntervalsAscending(f, s[1..], w.answers, x.stop, hi);
      AscendingLower(f, w.calls, lo, x.start, x.stop);
      AscendingJoin(f, w.calls, rest, lo, x.stop, hi);
      AscendingWiden(f, w.calls, lo, x.stop, hi);
      CallsInFirst(f, w.calls, x);
      assert s == [x] + s[1..];
      forall c | c in w.calls + rest ensures InInterval(s, c.voffset) {
        InIntervalCons(x, s[1..], c.voffset);
      }
    }
  }

  lemma {:induction false} AscendingLower(f: Files, a: seq<Call>, lo: nat, mid: nat, hi: nat)
    requires lo <= mid && Ascending(f, a, mid, hi)
    ensures Ascending(f, a, lo, hi)
  {
  }

  lemma {:induction false} CallsInFirst(f: Files, a: seq<Call>, x: Interval)
    requires Ascending(f, a, x.start, x.stop)
    ensures forall c <- a :: x.start <= c.voffset < x.stop
  {
  }
}
