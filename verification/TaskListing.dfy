/** What page-types lists for a task: the present pages of its VMAs that pass the filters, as far as the reads bring them,
    once each and in order; all of them when every read is complete; and of these the pages before the first one with an
    unknown flag bit come to be printed. */
module TaskListing {
  import opened Basics
  import opened PageWalk
  import AddPage
  import FlagFilter
  import RangeLister

  predicate IsPresent(f: Files, v: ULong) { HasFrame(f.pagemap(v)) }

  /** The add_page call for a present virtual page. */
  function CallOf(f: Files, v: ULong): Call {
    var frame := FrameOf(f.pagemap(v));
    Call(v, frame, f.kpageflags(frame), f.pagemap(v))
  }

  lemma {:induction false} PfnBound(val: ULong)
    ensures PagemapPfn(val) <= ULONG_MAX / 8
  {
  }

  lemma {:induction false} OneWord(file: File, voffset: ULong, pfn: ULong, pme: ULong, a: seq<Read>)
    requires pfn < ULONG_MAX && !Fatal(a, pfn) && Delivered(a, Min(1, BATCH)) == 1
    ensures WalkPfn(file, voffset, pfn, 1, pme, a) == Walk([Call(voffset, pfn, file(pfn), pme)], Rest(a), true)
  {
    hide Fatal, Delivered;
    var w := WalkPfn(file, voffset, pfn + 1, 0, pme, Rest(a));
    WrappedSmall(voffset);
    assert BatchCalls(file, voffset, pfn, 1, pme) == [CallAt(file, voffset, pfn, 0, pme)];
    assert w == Walk([], Rest(a), true);
  }

  // ------------------------------------------------------------------- any reads

  /** The reads left after a VMA of count pages. */
  function Left(a: seq<Read>, count: nat): seq<Read>
    decreases count
  {
    if count == 0 then a
    else
      var n := Delivered(a, Min(count, BATCH));
      if n == 0 then Rest(a) else Left(Rest(a), count - n)
  }

  /** The reads left after k reads. */
  function AfterReads(a: seq<Read>, k: nat): seq<Read> {
    if k == 0 then a else AfterReads(Rest(a), k - 1)
  }

  /** Of each interval the present ones among the pages whose pagemap entries were read. */
  function Handed(f: Files, s: seq<Interval>, a: seq<Read>): seq<ULong>
    requires forall x <- s :: x.start <= x.stop
  {
    if s == [] then []
    else
      var n := s[0].stop - s[0].start;
      Present(f, s[0].start, Available(a, n)) + Handed(f, s[1..], Left(a, n))
  }

  /** Of these pages the ones whose flags word was read; the k-th page takes the k-th read. */
  function Delivering(f: Files, pages: seq<ULong>, a: seq<Read>): seq<Call> {
    if pages == [] then []
    else (if Delivered(a, 1) == 1 then [CallOf(f, pages[0])] else []) + Delivering(f, pages[1..], Rest(a))
  }

  lemma {:induction false} AfterSum(a: seq<Read>, k: nat, m: nat)
    ensures AfterReads(AfterReads(a, k), m) == AfterReads(a, k + m)
  {
    if k > 0 { AfterSum(Rest(a), k - 1, m); }
  }

  lemma {:induction false} DeliveringJoin(f: Files, p: seq<ULong>, q: seq<ULong>, a: seq<Read>)
    ensures Delivering(f, p + q, a) == Delivering(f, p, a) + Delivering(f, q, AfterReads(a, |p|))
  {
    hide CallOf;
    if p == [] {
      assert p + q == q;
    } else {
      assert (p + q)[1..] == p[1..] + q;
      DeliveringJoin(f, p[1..], q, Rest(a));
    }
  }

  /** A walk that goes on has made the calls that the flags reads deliver for the pages it handed on. */
  predicate Honest(f: Files, w: TaskWalk, r: Reads) {
    w.ok ==> w.calls == Delivering(f, w.handed, r.kpageflags)
             && w.answers.kpageflags == AfterReads(r.kpageflags, |w.handed|)
  }

  lemma {:induction false} ThenHonest(f: Files, w: TaskWalk, t: TaskWalk, r: Reads)
    requires Honest(f, w, r) && Honest(f, t, w.answers)
    ensures Honest(f, Then(w, t), r)
  {
    if w.ok && t.ok {
      DeliveringJoin(f, w.handed, t.handed, r.kpageflags);
      AfterSum(r.kpageflags, |w.handed|, |t.handed|);
    }
  }

  lemma {:induction false} NothingHonest(f: Files, w: TaskWalk, r: Reads)
    requires w.handed == [] && w.calls == [] && w.answers.kpageflags == r.kpageflags
    ensures Honest(f, w, r)
  {
  }

  lemma {:induction false} PageHonest(f: Files, v: ULong, r: Reads)
    requires v < ULONG_MAX
    ensures Honest(f, WalkPage(f, v, r), r)
  {
    hide PagemapPfn, FrameOf, Fatal, Delivered;
    var val := f.pagemap(v);
    var pfn := PagemapPfn(val);
    PfnIsFrame(val);
    if pfn == 0 {
      NothingHonest(f, WalkPage(f, v, r), r);
    } else {
      PfnBound(val);
      OneWordOrNone(f.kpageflags, v, pfn, val, r.kpageflags);
      assert Delivering(f, [v][1..], Rest(r.kpageflags)) == [];
      assert AfterReads(r.kpageflags, 1) == AfterReads(Rest(r.kpageflags), 0);
    }
  }

  lemma {:induction false} OneWordOrNone(file: File, voffset: ULong, pfn: ULong, pme: ULong, a: seq<Read>)
    requires pfn < ULONG_MAX
    ensures var w := WalkPfn(file, voffset, pfn, 1, pme, a);
      w.ok ==> w.answers == Rest(a) && w.calls == if Delivered(a, 1) == 1 then [Call(voffset, pfn, file(pfn), pme)] else []
  {
    var n := Delivered(a, Min(1, BATCH));
    assert Min(1, BATCH) == 1 && n <= 1;
    if !Fatal(a, pfn) && n == 1 { OneWord(file, voffset, pfn, pme, a); }
  }

  lemma {:induction false} MappedHonest(f: Files, index: ULong, n: nat, r: Reads)
    requires index + n <= ULONG_MAX
    ensures Honest(f, WalkMapped(f, index, n, r), r)
    decreases n
  {
    hide Honest, WalkPage, Then;
    if n == 0 {
      NothingHonest(f, WalkMapped(f, index, n, r), r);
    } else {
      var w := WalkPage(f, index, r);
      PageHonest(f, index, r);
      MappedHonest(f, index + 1, n - 1, w.answers);
      ThenHonest(f, w, WalkMapped(f, index + 1, n - 1, w.answers), r);
    }
  }

  lemma {:induction false} SameReads(f: Files, w: TaskWalk, r: Reads, s: Reads)
    requires Honest(f, w, s) && r.kpageflags == s.kpageflags
    ensures Honest(f, w, r)
  {
  }

  lemma {:induction false} VmaHonest(f: Files, index: ULong, count: nat, r: Reads)
    requires index + count <= ULONG_MAX
    ensures Honest(f, WalkVma(f, index, count, r), r)
    ensures var w := WalkVma(f, index, count, r); w.ok ==> w.answers.pagemap == Left(r.pagemap, count)
    decreases count
  {
    hide Honest, WalkMapped;
    var n := Delivered(r.pagemap, Min(count, BATCH));
    if count > 0 && !Fatal(r.pagemap, index) && n > 0 {
      var s := r.(pagemap := Rest(r.pagemap));
      var w := WalkMapped(f, index, n, s);
      MappedHonest(f, index, n, s);
      MappedHandsOn(f, index, n, s);
      VmaHonest(f, index + n, count - n, w.answers);
      ThenHonest(f, w, WalkVma(f, index + n, count - n, w.answers), s);
      SameReads(f, WalkVma(f, index, count, r), r, s);
    } else {
      NothingHonest(f, WalkVma(f, index, count, r), r);
    }
  }

  /** Whatever the reads bring: a walk that no read ends has called walk_pfn for exactly the present pages among those
      read from pagemap, in order, and add_page for exactly those of them whose flags word was read. */
  lemma {:induction false} IntervalsRead(f: Files, s: seq<Interval>, r: Reads)
    requires forall x <- s :: x.start <= x.stop
    ensures var w := WalkIntervals(f, s, r); w.ok ==>
      && w.handed == Handed(f, s, r.pagemap)
      && w.calls == Delivering(f, Handed(f, s, r.pagemap), r.kpageflags)
  {
    IntervalsHonest(f, s, r);
    IntervalsHanded(f, s, r);
  }

  lemma {:induction false} IntervalsHonest(f: Files, s: seq<Interval>, r: Reads)
    requires forall x <- s :: x.start <= x.stop
    ensures Honest(f, WalkIntervals(f, s, r), r)
  {
    hide Honest, WalkVma, Then;
    if s == [] {
      NothingHonest(f, WalkIntervals(f, s, r), r);
    } else {
      var w := WalkVma(f, s[0].start, s[0].stop - s[0].start, r);
      VmaHonest(f, s[0].start, s[0].stop - s[0].start, r);
      IntervalsHonest(f, s[1..], w.answers);
      ThenHonest(f, w, WalkIntervals(f, s[1..], w.answers), r);
    }
  }

  lemma {:induction false} IntervalsHanded(f: Files, s: seq<Interval>, r: Reads)
    requires forall x <- s :: x.start <= x.stop
    ensures var w := WalkIntervals(f, s, r); w.ok ==> w.handed == Handed(f, s, r.pagemap)
  {
    hide Honest, WalkVma, Present, Available, Left;
    if s != [] {
      var n := s[0].stop - s[0].start;
      VmaHandsOnPresentPages(f, s[0].start, n, r);
      VmaHonest(f, s[0].start, n, r);
      IntervalsHanded(f, s[1..], WalkVma(f, s[0].start, n, r).answers);
    }
  }

  lemma {:induction false} DeliveringIn(f: Files, pages: seq<ULong>, a: seq<Read>, c: Call)
    ensures c in Delivering(f, pages, a)
       <==> exists k :: 0 <= k < |pages| && Delivered(AfterReads(a, k), 1) == 1 && c == CallOf(f, pages[k])
  {
    hide CallOf, Delivered;
    if pages != [] {
      DeliveringIn(f, pages[1..], Rest(a), c);
      if k :| 0 <= k < |pages[1..]| && Delivered(AfterReads(Rest(a), k), 1) == 1 && c == CallOf(f, pages[1..][k]) {
        assert AfterReads(a, k + 1) == AfterReads(Rest(a), k) && pages[1..][k] == pages[k + 1];
      }
      if k :| 0 < k < |pages| && Delivered(AfterReads(a, k), 1) == 1 && c == CallOf(f, pages[k]) {
        assert AfterReads(a, k) == AfterReads(Rest(a), k - 1) && pages[1..][k - 1] == pages[k];
      }
      assert AfterReads(a, 0) == a;
    }
  }

  /** The walk over a range of a task that no read ends, whatever the reads bring: the lister gets, strictly ascending,
      exactly the pages that were handed on, had their flags word read and pass the filters. */
  lemma {:induction false} TaskListsWhatWasRead(raw: bool, filters: seq<FlagFilter.Filter>, f: Files, vmas: seq<Vma>,
                                                 offset: ULong, size: ULong, r: Reads, p: RangeLister.Page)
    requires Sorted(vmas)
    ensures var s := Intervals(vmas, 0, offset, offset + ClampedSize(offset, size));
      && (forall x <- s :: x.start <= x.stop)
      && var w := WalkIntervals(f, s, r); var handed := Handed(f, s, r.pagemap);
      var pages := AddPage.Accepted(raw, filters, w.calls);
      && AddPage.StrictlyAscending(pages)
      && (w.ok ==> (p in pages <==> exists k :: 0 <= k < |handed| && Delivered(AfterReads(r.kpageflags, k), 1) == 1
                                      && FlagFilter.Passes(filters, AddPage.Seen(raw, CallOf(f, handed[k])))
                                      && p == AddPage.Told(raw, CallOf(f, handed[k]))))
  {
    hide AddPage.Accepted, FlagFilter.Passes, AddPage.Seen, AddPage.Told, AddPage.StrictlyAscending,
      Sorted, InVma, WalkIntervals, Intervals, PagemapPfn, Handed, Delivering, CallOf, Delivered;
    var s := Intervals(vmas, 0, offset, offset + ClampedSize(offset, size));
    TaskAscends(raw, filters, f, vmas, offset, size, r);
    IntervalsRead(f, s, r);
    var w := WalkIntervals(f, s, r);
    if w.ok { ReadAccepted(raw, filters, f, Handed(f, s, r.pagemap), r.kpageflags, p); }
  }

  lemma {:induction false} ReadAccepted(raw: bool, filters: seq<FlagFilter.Filter>, f: Files, handed: seq<ULong>,
                                        a: seq<Read>, p: RangeLister.Page)
    ensures p in AddPage.Accepted(raw, filters, Delivering(f, handed, a))
       <==> exists k :: 0 <= k < |handed| && Delivered(AfterReads(a, k), 1) == 1
              && FlagFilter.Passes(filters, AddPage.Seen(raw, CallOf(f, handed[k]))) && p == AddPage.Told(raw, CallOf(f, handed[k]))
  {
    hide AddPage.Accepted, FlagFilter.Passes, AddPage.Seen, AddPage.Told, Delivering, CallOf, Delivered, AfterReads;
    var calls := Delivering(f, handed, a);
    AddPage.AcceptedExactly(raw, filters, calls, p);
    if c :| c in calls && FlagFilter.Passes(filters, AddPage.Seen(raw, c)) && AddPage.Told(raw, c) == p {
      DeliveringIn(f, handed, a, c);
    }
    if k :| 0 <= k < |handed| && Delivered(AfterReads(a, k), 1) == 1
            && FlagFilter.Passes(filters, AddPage.Seen(raw, CallOf(f, handed[k]))) && p == AddPage.Told(raw, CallOf(f, handed[k])) {
      DeliveringIn(f, handed, a, CallOf(f, handed[k]));
    }
  }

  // ------------------------------------------------------------- complete reads

  /** At least n reads to come, each of which delivers all that is asked for. */
  predicate Plenty(a: seq<Read>, n: nat) {
    |a| >= n && forall i :: 0 <= i < |a| ==> a[i].Got? && a[i].words >= BATCH
  }

  predicate Supply(r: Reads, n: nat) { Plenty(r.pagemap, n) && Plenty(r.kpageflags, n) }

  lemma {:induction false} PlentyNext(a: seq<Read>, n: nat, index: ULong, count: nat)
    requires n > 0 && Plenty(a, n) && index <= ULONG_MAX / 8
    ensures !Fatal(a, index) && Plenty(Rest(a), n - 1)
    ensures Delivered(a, Min(count, BATCH)) == Min(count, BATCH)
  {
  }

  lemma {:induction false} PlentyLess(a: seq<Read>, n: nat, m: nat)
    requires Plenty(a, n) && m <= n
    ensures Plenty(a, m)
  {
  }

  /** The calls for the pages lo .. lo + n - 1. */
  function Expected(f: Files, lo: ULong, n: nat): seq<Call>
    requires lo + n <= ULONG_MAX
    decreases n
  {
    if n == 0 then [] else (if IsPresent(f, lo) then [CallOf(f, lo)] else []) + Expected(f, lo + 1, n - 1)
  }

  lemma {:induction false} ExpectedSplit(f: Files, lo: ULong, n: nat, m: nat)
    requires lo + n + m <= ULONG_MAX
    ensures Expected(f, lo, n + m) == Expected(f, lo, n) + Expected(f, lo + n, m)
    decreases n
  {
    hide IsPresent, CallOf;
    if n > 0 { ExpectedSplit(f, lo + 1, n - 1, m); }
  }

  lemma {:induction false} ExpectedIn(f: Files, lo: ULong, n: nat, c: Call)
    requires lo + n <= ULONG_MAX
    ensures c in Expected(f, lo, n) <==> lo <= c.voffset < lo + n && IsPresent(f, c.voffset) && c == CallOf(f, c.voffset)
    decreases n
  {
    hide IsPresent;
    if n > 0 { ExpectedIn(f, lo + 1, n - 1, c); }
  }

  /** One page with a full read of its flags word. */
  lemma {:induction false} PageDone(f: Files, v: ULong, r: Reads, m: nat)
    requires v < ULONG_MAX && Plenty(r.kpageflags, m + 1)
    ensures var w := WalkPage(f, v, r);
      && w.ok && w.calls == Expected(f, v, 1) && w.answers.pagemap == r.pagemap && Plenty(w.answers.kpageflags, m)
  {
    hide WalkPfn, PagemapPfn, FrameOf, Delivered, Fatal, Rest, Plenty;
    var pfn := PagemapPfn(f.pagemap(v));
    PfnIsFrame(f.pagemap(v));
    PfnBound(f.pagemap(v));
    PlentyNext(r.kpageflags, m + 1, pfn, 1);
    PlentyLess(r.kpageflags, m + 1, m);
    OneWord(f.kpageflags, v, pfn, f.pagemap(v), r.kpageflags);
    assert Expected(f, v + 1, 0) == [];
  }

  lemma {:induction false} MappedDone(f: Files, index: ULong, n: nat, r: Reads, m: nat)
    requires index + n <= ULONG_MAX && Plenty(r.kpageflags, n + m)
    ensures var w := WalkMapped(f, index, n, r);
      && w.ok && w.calls == Expected(f, index, n) && w.answers.pagemap == r.pagemap && Plenty(w.answers.kpageflags, m)
    decreases n
  {
    hide WalkPage, Plenty, IsPresent, CallOf;
    if n > 0 {
      PageDone(f, index, r, n - 1 + m);
      MappedDone(f, index + 1, n - 1, WalkPage(f, index, r).answers, m);
      ExpectedSplit(f, index, 1, n - 1);
    }
  }

  lemma {:induction false} VmaDone(f: Files, index: ULong, count: nat, r: Reads, m: nat)
    requires index + count <= ULONG_MAX / 8 + 1 && Supply(r, count + m)
    ensures var w := WalkVma(f, index, count, r);
      && w.ok && w.calls == Expected(f, index, count) && Supply(w.answers, m)
    decreases count
  {
    hide WalkMapped, Plenty, Delivered, Fatal, Rest, Expected;
    if count > 0 {
      var n := Min(count, BATCH);
      var s := r.(pagemap := Rest(r.pagemap));
      PlentyNext(r.pagemap, count + m, index, count);
      MappedDone(f, index, n, s, count - n + m);
      var t := WalkMapped(f, index, n, s).answers;
      PlentyLess(t.pagemap, count + m - 1, count - n + m);
      VmaDone(f, index + n, count - n, t, m);
      ExpectedSplit(f, index, n, count - n);
    } else {
      NoneExpected(f, index);
    }
  }

  lemma {:induction false} NoneExpected(f: Files, index: ULong)
    ensures Expected(f, index, 0) == []
  {
  }

  /** The number of pages in the intervals. */
  function Total(s: seq<Interval>): nat {
    if s == [] then 0 else Max(s[0].start, s[0].stop) - s[0].start + Total(s[1..])
  }

  /** With complete reads the calls over the intervals are those for their present pages, and no others. */
  lemma {:induction false} IntervalsDone(f: Files, s: seq<Interval>, r: Reads, c: Call)
    requires forall x <- s :: x.start <= x.stop <= ULONG_MAX / 8 + 1
    requires Supply(r, Total(s))
    ensures var w := WalkIntervals(f, s, r);
      w.ok && (c in w.calls <==> InInterval(s, c.voffset) && IsPresent(f, c.voffset) && c == CallOf(f, c.voffset))
  {
    hide WalkVma, Supply, Expected, IsPresent, CallOf, InInterval;
    if s == [] {
      NotInNone(c.voffset);
    } else {
      var x, n := s[0], s[0].stop - s[0].start;
      VmaDone(f, x.start, n, r, Total(s[1..]));
      IntervalsDone(f, s[1..], WalkVma(f, x.start, n, r).answers, c);
      ExpectedIn(f, x.start, n, c);
      InIntervalCons(x, s[1..], c.voffset);
      assert s == [x] + s[1..];
    }
  }

  lemma {:induction false} NotInNone(p: nat)
    ensures !InInterval([], p)
  {
  }

  lemma {:induction false} TaskBounds(vmas: seq<Vma>, index: ULong, end: ULong)
    requires Sorted(vmas) && index <= end
    ensures forall x <- Intervals(vmas, 0, index, end) :: x.start <= x.stop <= end
  {
    hide Intervals;
    TaskIntervalsOrdered(vmas, 0, index, end);
  }

  /** A page of the range is listed: it lies in a VMA, is present and passes the filters. */
  predicate Listed(raw: bool, filters: seq<FlagFilter.Filter>, f: Files, vmas: seq<Vma>, lo: nat, hi: nat, v: ULong) {
    lo <= v < hi && InVma(vmas, v) && IsPresent(f, v) && FlagFilter.Passes(filters, AddPage.Seen(raw, CallOf(f, v)))
  }

  predicate CallMade(f: Files, vmas: seq<Vma>, lo: nat, hi: nat, c: Call) {
    lo <= c.voffset < hi && InVma(vmas, c.voffset) && IsPresent(f, c.voffset) && c == CallOf(f, c.voffset)
  }

  /** What the lister gets for such calls. */
  lemma {:induction false} ListedOfCalls(raw: bool, filters: seq<FlagFilter.Filter>, f: Files, vmas: seq<Vma>, lo: nat, hi: nat,
                                          calls: seq<Call>, p: RangeLister.Page)
    requires forall c :: c in calls <==> CallMade(f, vmas, lo, hi, c)
    ensures p in AddPage.Accepted(raw, filters, calls)
       <==> Listed(raw, filters, f, vmas, lo, hi, p.voffset) && p == AddPage.Told(raw, CallOf(f, p.voffset))
  {
    hide IsPresent, InVma, AddPage.Accepted, FlagFilter.Passes, AddPage.Seen;
    AddPage.AcceptedExactly(raw, filters, calls, p);
    assert CallMade(f, vmas, lo, hi, CallOf(f, p.voffset)) ==> CallOf(f, p.voffset) in calls;
  }

  /** The calls of the walk over a range: those for the pages that lie in a VMA and are present, and no others. */
  lemma {:induction false} WalkDone(f: Files, vmas: seq<Vma>, offset: ULong, size: ULong, r: Reads, c: Call)
    requires Sorted(vmas) && offset + ClampedSize(offset, size) <= ULONG_MAX / 8 + 1
    requires Supply(r, Total(Intervals(vmas, 0, offset, offset + ClampedSize(offset, size))))
    ensures var end := offset + ClampedSize(offset, size); var s := Intervals(vmas, 0, offset, end);
      && (forall x <- s :: x.start <= x.stop)
      && WalkIntervals(f, s, r).ok
      && (c in WalkIntervals(f, s, r).calls <==> CallMade(f, vmas, offset, end, c))
  {
    var end := offset + ClampedSize(offset, size);
    TaskBounds(vmas, offset, end);
    hide Supply, IsPresent, CallOf, Sorted, InVma, InInterval, WalkIntervals, Intervals, Total, Ordered;
    IntervalsDone(f, Intervals(vmas, 0, offset, end), r, c);
    WalkTaskExact(vmas, offset, size, c.voffset);
  }

  lemma {:induction false} WalkMakes(f: Files, vmas: seq<Vma>, offset: ULong, size: ULong, r: Reads)
    requires Sorted(vmas) && offset + ClampedSize(offset, size) <= ULONG_MAX / 8 + 1
    requires Supply(r, Total(Intervals(vmas, 0, offset, offset + ClampedSize(offset, size))))
    ensures var end := offset + ClampedSize(offset, size); var s := Intervals(vmas, 0, offset, end);
      && (forall x <- s :: x.start <= x.stop)
      && WalkIntervals(f, s, r).ok
      && forall c :: c in WalkIntervals(f, s, r).calls <==> CallMade(f, vmas, offset, end, c)
  {
    hide Supply, CallMade, Sorted, WalkIntervals, Intervals, Total, ClampedSize;
    WalkDone(f, vmas, offset, size, r, Call(0, 0, 0, 0));
    var end := offset + ClampedSize(offset, size);
    var calls := WalkIntervals(f, Intervals(vmas, 0, offset, end), r).calls;
    forall c ensures c in calls <==> CallMade(f, vmas, offset, end, c) { WalkDone(f, vmas, offset, size, r, c); }
  }

  lemma {:induction false} TaskAscends(raw: bool, filters: seq<FlagFilter.Filter>, f: Files, vmas: seq<Vma>,
                                        offset: ULong, size: ULong, r: Reads)
    requires Sorted(vmas)
    ensures var s := Intervals(vmas, 0, offset, offset + ClampedSize(offset, size));
      && (forall x <- s :: x.start <= x.stop)
      && AddPage.StrictlyAscending(AddPage.Accepted(raw, filters, WalkIntervals(f, s, r).calls))
  {
    hide AddPage.Accepted, AddPage.StrictlyAscending, Sorted, InVma, WalkIntervals, Intervals, FlagFilter.Passes;
    AddPage.TaskPages(raw, filters, f, vmas, offset, size, r, RangeLister.Page(0, 0, 0));
  }

  /** The walk over a range of a task, all reads complete and no address beyond the reach of the pagemap file: no read ends
      it, and the lister gets, strictly ascending and with their own frames and words, exactly the pages of the range that
      lie in a VMA, are present and pass the filters. */
  lemma {:induction false} TaskListsExactly(raw: bool, filters: seq<FlagFilter.Filter>, f: Files, vmas: seq<Vma>,
                                            offset: ULong, size: ULong, r: Reads, p: RangeLister.Page)
    requires Sorted(vmas) && offset + ClampedSize(offset, size) <= ULONG_MAX / 8 + 1
    requires Supply(r, Total(Intervals(vmas, 0, offset, offset + ClampedSize(offset, size))))
    ensures var end := offset + ClampedSize(offset, size);
      var s := Intervals(vmas, 0, offset, end);
      && (forall x <- s :: x.start <= x.stop)
      && var w := WalkIntervals(f, s, r); var pages := AddPage.Accepted(raw, filters, w.calls);
      && w.ok && AddPage.StrictlyAscending(pages)
      && (p in pages <==> Listed(raw, filters, f, vmas, offset, end, p.voffset) && p == AddPage.Told(raw, CallOf(f, p.voffset)))
  {
    hide Supply, CallMade, Listed, AddPage.Accepted, AddPage.Told, AddPage.StrictlyAscending, CallOf, Sorted, WalkIntervals, Intervals,
      Total, ClampedSize;
    TaskAscends(raw, filters, f, vmas, offset, size, r);
    WalkMakes(f, vmas, offset, size, r);
    var end := offset + ClampedSize(offset, size);
    ListedOfCalls(raw, filters, f, vmas, offset, end, WalkIntervals(f, Intervals(vmas, 0, offset, end), r).calls, p);
  }

  // ------------------------------------------------------------- what is printed

  lemma {:induction false} FewAscending(pages: seq<RangeLister.Page>, n: nat)
    requires AddPage.StrictlyAscending(pages) && forall p <- pages :: p.voffset < n
    ensures |pages| <= n
  {
    if pages != [] {
      var before, last := pages[..|pages| - 1], pages[|pages| - 1];
      forall p | p in before ensures p.voffset < last.voffset { var i :| 0 <= i < |before| && before[i] == p; }
      FewAscending(before, last.voffset);
    }
  }

  /** Of the pages the lister gets those before the first one with an unknown flag bit are printed; the listing comes to its
      end if and only if there is none. */
  lemma {:induction false} TaskPrints(raw: bool, filters: seq<FlagFilter.Filter>, f: Files, vmas: seq<Vma>,
                                       offset: ULong, size: ULong, r: Reads)
    requires Sorted(vmas)
    ensures var s := Intervals(vmas, 0, offset, offset + ClampedSize(offset, size));
      && (forall x <- s :: x.start <= x.stop)
      && var pages := AddPage.Accepted(raw, filters, WalkIntervals(f, s, r).calls);
      && RangeLister.ExpandAll(RangeLister.Listing(AddPage.Events(pages))) == pages[..AddPage.FirstUnknown(pages)]
      && (RangeLister.Survives(RangeLister.Output(AddPage.Events(pages))) <==> AddPage.AllKnown(pages))
  {
    hide AddPage.Accepted, AddPage.StrictlyAscending, AddPage.AllKnown, AddPage.FirstUnknown, Sorted, InVma, WalkIntervals, Intervals,
      PagemapPfn, RangeLister.ExpandAll, RangeLister.Listing, RangeLister.Survives, RangeLister.Output, FlagFilter.Passes;
    var s := Intervals(vmas, 0, offset, offset + ClampedSize(offset, size));
    var end := offset + ClampedSize(offset, size);
    AddPage.TaskPages(raw, filters, f, vmas, offset, size, r, RangeLister.Page(0, 0, 0));
    var pages := AddPage.Accepted(raw, filters, WalkIntervals(f, s, r).calls);
    forall p | p in pages ensures p.voffset < end { AddPage.TaskPages(raw, filters, f, vmas, offset, size, r, p); }
    FewAscending(pages, end);
    AddPage.ListedUpToUnknown(pages);
  }

  lemma {:induction false} CallIsFor(f: Files, v: ULong)
    ensures CallOf(f, v).voffset == v
  {
  }

  /** The flags word of a listed page has an unknown bit. */
  predicate UnknownAt(raw: bool, f: Files, v: ULong) {
    RangeLister.Unknown(AddPage.Number(AddPage.Seen(raw, CallOf(f, v))))
  }

  /** The lister gets this page for a page of the range that is listed. */
  predicate TellsListed(raw: bool, filters: seq<FlagFilter.Filter>, f: Files, vmas: seq<Vma>, lo: nat, hi: nat, p: RangeLister.Page) {
    Listed(raw, filters, f, vmas, lo, hi, p.voffset) && p == AddPage.Told(raw, CallOf(f, p.voffset))
  }

  lemma {:induction false} KnownByPage(raw: bool, filters: seq<FlagFilter.Filter>, f: Files, vmas: seq<Vma>, lo: nat, hi: nat,
                                        pages: seq<RangeLister.Page>)
    requires forall p :: p in pages <==> TellsListed(raw, filters, f, vmas, lo, hi, p)
    ensures AddPage.AllKnown(pages)
       <==> forall v: ULong :: Listed(raw, filters, f, vmas, lo, hi, v) ==> !UnknownAt(raw, f, v)
  {
    hide Listed, RangeLister.Unknown, AddPage.Seen, CallOf;
    if v: ULong :| Listed(raw, filters, f, vmas, lo, hi, v) && UnknownAt(raw, f, v) {
      CallIsFor(f, v);
      assert TellsListed(raw, filters, f, vmas, lo, hi, AddPage.Told(raw, CallOf(f, v)));
    } else if i :| 0 <= i < |pages| && RangeLister.Unknown(pages[i].flags) {
      assert pages[i] in pages;
      assert TellsListed(raw, filters, f, vmas, lo, hi, pages[i]);
      assert UnknownAt(raw, f, pages[i].voffset);
    }
  }

  /** With complete reads the whole listing is printed if and only if no page of the range that lies in a VMA, is present and
      passes the filters has an unknown flag bit. */
  lemma {:induction false} TaskPrintsExactly(raw: bool, filters: seq<FlagFilter.Filter>, f: Files, vmas: seq<Vma>,
                                              offset: ULong, size: ULong, r: Reads)
    requires Sorted(vmas) && offset + ClampedSize(offset, size) <= ULONG_MAX / 8 + 1
    requires Supply(r, Total(Intervals(vmas, 0, offset, offset + ClampedSize(offset, size))))
    ensures var end := offset + ClampedSize(offset, size);
      var s := Intervals(vmas, 0, offset, end);
      && (forall x <- s :: x.start <= x.stop)
      && var pages := AddPage.Accepted(raw, filters, WalkIntervals(f, s, r).calls);
      && (RangeLister.Survives(RangeLister.Output(AddPage.Events(pages)))
          <==> forall v: ULong :: Listed(raw, filters, f, vmas, offset, end, v) ==> !UnknownAt(raw, f, v))
  {
    hide AddPage.Accepted, AddPage.StrictlyAscending, AddPage.AllKnown, AddPage.FirstUnknown, Sorted, Supply, WalkIntervals, Intervals,
      Listed, RangeLister.Survives, RangeLister.Output, RangeLister.ExpandAll, RangeLister.Listing, Total, AddPage.Told, CallOf, ClampedSize;
    var end := offset + ClampedSize(offset, size);
    var s := Intervals(vmas, 0, offset, end);
    TaskPrints(raw, filters, f, vmas, offset, size, r);
    var pages := AddPage.Accepted(raw, filters, WalkIntervals(f, s, r).calls);
    forall p ensures p in pages <==> TellsListed(raw, filters, f, vmas, offset, end, p) {
      TaskListsExactly(raw, filters, f, vmas, offset, size, r, p);
    }
    KnownByPage(raw, filters, f, vmas, offset, end, pages);
  }
}
