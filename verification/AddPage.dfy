/** add_page of page-types.c with the lister and the table it feeds: a page whose rewritten flags word passes the filters
    is listed and counted. */
module AddPage {
  import opened Basics
  import opened FlagNames
  import FlagFilter
  import FlagLetters
  import FlagRewrite
  import HashTable
  import PageWalk
  import RangeLister

  /** The flags word as a number, the way the table and the lister keep it. */
  function Number(flags: Word): ULong { flags as nat }

  function Words(pages: seq<RangeLister.Page>): (s: seq<ULong>)
    ensures |s| == |pages| && forall i :: 0 <= i < |s| ==> s[i] == pages[i].flags
  {
    seq(|pages|, i requires 0 <= i < |pages| => pages[i].flags)
  }

  function Events(pages: seq<RangeLister.Page>): (s: seq<RangeLister.Event>)
    ensures |s| == |pages| && forall i :: 0 <= i < |s| ==> s[i] == RangeLister.Listed(pages[i])
  {
    seq(|pages|, i requires 0 <= i < |pages| => RangeLister.Listed(pages[i]))
  }

  lemma {:induction false} RunSnoc(s: RangeLister.Pending, events: seq<RangeLister.Event>, e: RangeLister.Event)
    ensures var (t, out) := RangeLister.Run(s, events);
      var (u, last) := RangeLister.Step(t, e);
      RangeLister.Run(s, events + [e]) == (u, out + last)
  {
    hide RangeLister.Step;
    RangeLister.RunSplit(s, events, [e]);
    var t := RangeLister.Run(s, events).0;
    assert [e][1..] == [] && RangeLister.Step(t, e).1 + [] == RangeLister.Step(t, e).1;
  }

  lemma {:induction false} PagesOfEvents(pages: seq<RangeLister.Page>)
    ensures RangeLister.Pages(Events(pages)) == pages
  {
    if pages != [] {
      assert Events(pages)[1..] == Events(pages[1..]);
      PagesOfEvents(pages[1..]);
    }
  }

  /** All these words have named bits only. */
  predicate AllKnown(pages: seq<RangeLister.Page>) {
    forall i :: 0 <= i < |pages| ==> !RangeLister.Unknown(pages[i].flags)
  }

  /** The first page with an unknown bit; the end if there is none. */
  function FirstUnknown(pages: seq<RangeLister.Page>): (k: nat)
    ensures k <= |pages| && (k == |pages| <==> AllKnown(pages))
    ensures k < |pages| ==> RangeLister.Unknown(pages[k].flags)
    ensures forall i :: 0 <= i < k ==> !RangeLister.Unknown(pages[i].flags)
  {
    if pages == [] || RangeLister.Unknown(pages[0].flags) then 0 else 1 + FirstUnknown(pages[1..])
  }

  lemma {:induction false} SameFirst(pages: seq<RangeLister.Page>)
    ensures RangeLister.FirstBad(Events(pages)) == FirstUnknown(pages)
    ensures Events(pages)[..FirstUnknown(pages)] == Events(pages[..FirstUnknown(pages)])
  {
    hide RangeLister.Unknown, FirstUnknown, RangeLister.FirstBad;
    var i, j := RangeLister.FirstBad(Events(pages)), FirstUnknown(pages);
    assert i < |pages| ==> (RangeLister.Bad(Events(pages)[i]) <==> RangeLister.Unknown(pages[i].flags));
    assert j < |pages| ==> (RangeLister.Bad(Events(pages)[j]) <==> RangeLister.Unknown(pages[j].flags));
  }

  /** The pages that come to be printed are exactly those before the first with an unknown bit, and all of them if and only
      if there is no such page. */
  lemma {:induction false} ListedUpToUnknown(pages: seq<RangeLister.Page>)
    requires |pages| < ULONG_RANGE
    ensures RangeLister.ExpandAll(RangeLister.Listing(Events(pages))) == pages[..FirstUnknown(pages)]
    ensures RangeLister.Survives(RangeLister.Output(Events(pages))) <==> AllKnown(pages)
  {
    hide RangeLister.Unknown, RangeLister.Listing, RangeLister.ExpandAll, RangeLister.Output, RangeLister.Survives, FirstUnknown;
    SameFirst(pages);
    RangeLister.ListsUpToUnknown(Events(pages));
    PagesOfEvents(pages[..FirstUnknown(pages)]);
    KnownEvents(pages);
  }

  lemma {:induction false} KnownEvents(pages: seq<RangeLister.Page>)
    ensures AllKnown(pages) <==> forall i :: 0 <= i < |Events(pages)| ==> !RangeLister.Bad(Events(pages)[i])
  {
    hide RangeLister.Unknown;
    if AllKnown(pages) {
      forall i | 0 <= i < |Events(pages)| ensures !RangeLister.Bad(Events(pages)[i]) { assert !RangeLister.Unknown(pages[i].flags); }
    } else {
      var i :| 0 <= i < |pages| && RangeLister.Unknown(pages[i].flags);
      assert RangeLister.Bad(Events(pages)[i]);
    }
  }

  /** The two accounts agree: for any accepted pages, fewer than 2^64 of them, the lengths of the ranges that come to be
      printed add up to total_pages, which is the sum of all counters in the table; and those of the ranges in fact printed
      do if and only if no page has an unknown bit. */
  lemma {:induction false} TotalsAgree(pages: seq<RangeLister.Page>)
    requires HashTable.AddAll(Words(pages)).Some? && |pages| < ULONG_RANGE
    ensures var t := HashTable.AddAll(Words(pages)).value;
      && RangeLister.Lengths(RangeLister.Output(Events(pages))) == t.total == HashTable.Sum(t.counts)
      && (RangeLister.Lengths(RangeLister.Listing(Events(pages))) == t.total <==> AllKnown(pages))
  {
    hide RangeLister.Unknown;
    HashTable.CountersAddUp(Words(pages));
    RangeLister.Lossless(Events(pages));
    PagesOfEvents(pages);
    ListedUpToUnknown(pages);
    RangeLister.LengthsExpand(RangeLister.Listing(Events(pages)));
  }

  // ------------------------------------------------------------- the pages of a walk

  /** A word that was read, as bits. */
  function Bits(w: ULong): Word { w as Word }

  /** The flags word add_page works with. */
  function Seen(raw: bool, c: PageWalk.Call): Word {
    FlagRewrite.Rewrite(raw, Bits(c.flags), Bits(c.pme))
  }

  /** The number stands for the whole word. */
  lemma {:induction false} NumberKeepsWord(flags: Word)
    ensures Bits(Number(flags)) == flags
  {
  }

  /** What the lister is told about a call. */
  function Told(raw: bool, c: PageWalk.Call): RangeLister.Page {
    RangeLister.Page(c.voffset, c.offset, Number(Seen(raw, c)))
  }

  /** An idle page whose word has no other bit reaches the lister with its unknown bit, whatever the options. */
  lemma {:induction false} IdleReachesLister(raw: bool, voffset: ULong, offset: ULong)
    ensures RangeLister.Unknown(Told(raw, PageWalk.Call(voffset, offset, 0x200_0000, 0)).flags)
  {
    hide FlagRewrite.Expand, FlagRewrite.WellKnown, RangeLister.Unknown;
    FlagRewrite.IdleStays();
    RangeLister.UnknownIs(0x200_0000);
    FlagLetters.IdleIsUnknown();
  }

  /** The pages that pass the filters, in the order of the calls. */
  function Accepted(raw: bool, filters: seq<FlagFilter.Filter>, calls: seq<PageWalk.Call>): seq<RangeLister.Page> {
    if calls == [] then []
    else
      var last := calls[|calls| - 1];
      Accepted(raw, filters, calls[..|calls| - 1]) + if FlagFilter.Passes(filters, Seen(raw, last)) then [Told(raw, last)] else []
  }

  lemma {:induction false} AcceptedSnoc(raw: bool, filters: seq<FlagFilter.Filter>, calls: seq<PageWalk.Call>, c: PageWalk.Call)
    ensures Accepted(raw, filters, calls + [c])
         == Accepted(raw, filters, calls) + if FlagFilter.Passes(filters, Seen(raw, c)) then [Told(raw, c)] else []
  {
    assert (calls + [c])[..|calls|] == calls;
  }

  /** The accepted pages of two stretches of a walk are those of the first followed by those of the second, and a single
      call gives one page if it passes and none otherwise. */
  lemma {:induction false} AcceptedJoins(raw: bool, filters: seq<FlagFilter.Filter>, a: seq<PageWalk.Call>, b: seq<PageWalk.Call>,
                                          c: PageWalk.Call)
    ensures Accepted(raw, filters, a + b) == Accepted(raw, filters, a) + Accepted(raw, filters, b)
    ensures Accepted(raw, filters, [c]) == if FlagFilter.Passes(filters, Seen(raw, c)) then [Told(raw, c)] else []
    decreases |b|
  {
    hide FlagFilter.Passes, Seen;
    AcceptedSnoc(raw, filters, [], c);
    assert [] + [c] == [c];
    if b == [] {
      assert a + b == a;
    } else {
      var before, last := b[..|b| - 1], b[|b| - 1];
      assert b == before + [last] && a + b == (a + before) + [last];
      AcceptedJoins(raw, filters, a, before, c);
      AcceptedSnoc(raw, filters, a + before, last);
      AcceptedSnoc(raw, filters, before, last);
    }
  }

  /** Each accepted page is one of the calls, and each call that passes is accepted. */
  lemma {:induction false} AcceptedExactly(raw: bool, filters: seq<FlagFilter.Filter>, calls: seq<PageWalk.Call>,
                                            p: RangeLister.Page)
    ensures p in Accepted(raw, filters, calls) <==> exists c :: c in calls && FlagFilter.Passes(filters, Seen(raw, c)) && Told(raw, c) == p
  {
    hide FlagFilter.Passes, Told, Seen;
    if calls != [] {
      var before, last := calls[..|calls| - 1], calls[|calls| - 1];
      assert calls == before + [last];
      AcceptedExactly(raw, filters, before, p);
    }
  }

  predicate StrictlyAscending(pages: seq<RangeLister.Page>) {
    forall j, k :: 0 <= j < k < |pages| ==> pages[j].voffset < pages[k].voffset
  }

  lemma {:induction false} AcceptedAscending(raw: bool, filters: seq<FlagFilter.Filter>, calls: seq<PageWalk.Call>)
    requires forall j, k :: 0 <= j < k < |calls| ==> calls[j].voffset < calls[k].voffset
    ensures StrictlyAscending(Accepted(raw, filters, calls))
    ensures forall p <- Accepted(raw, filters, calls) :: p.voffset <= (if calls == [] then 0 else calls[|calls| - 1].voffset)
  {
    hide FlagFilter.Passes, Seen;
    if calls != [] {
      AcceptedAscending(raw, filters, calls[..|calls| - 1]);
    }
  }

  /** What the walkers promise about the calls, as the lister sees it. */
  lemma {:induction false} TaskCalls(f: PageWalk.Files, s: seq<PageWalk.Interval>, r: PageWalk.Reads, lo: nat, hi: nat)
    requires lo <= hi <= ULONG_MAX && PageWalk.Ordered(s, lo, hi)
    ensures forall x <- s :: x.start <= x.stop
    ensures var calls := PageWalk.WalkIntervals(f, s, r).calls;
      && (forall j, k :: 0 <= j < k < |calls| ==> calls[j].voffset < calls[k].voffset)
      && (forall c <- calls :: PageWalk.CallFor(f, c.voffset, c) && PageWalk.InInterval(s, c.voffset))
  {
    hide PageWalk.WalkIntervals, PageWalk.InInterval, PageWalk.CallFor;
    PageWalk.IntervalsAscending(f, s, r, lo, hi);
  }

  /** The pages a task walk over [offset, offset + size) lists come in strictly ascending virtual order, and each of them
      lies in a VMA and in the range, is present, and carries its own frame. */
  lemma {:induction false} TaskPages(raw: bool, filters: seq<FlagFilter.Filter>, f: PageWalk.Files, vmas: seq<PageWalk.Vma>,
                  offset: ULong, size: ULong, r: PageWalk.Reads, p: RangeLister.Page)
    requires PageWalk.Sorted(vmas)
    ensures var end := offset + PageWalk.ClampedSize(offset, size);
      var s := PageWalk.Intervals(vmas, 0, offset, end);
      && (forall x <- s :: x.start <= x.stop)
      && var pages := Accepted(raw, filters, PageWalk.WalkIntervals(f, s, r).calls);
      && StrictlyAscending(pages)
      && (p in pages ==> offset <= p.voffset < end && PageWalk.InVma(vmas, p.voffset)
                         && p.offset != 0 && PageWalk.InMemory(f.pagemap(p.voffset), p.offset)
                         && p.flags == Number(FlagRewrite.Rewrite(raw, Bits(f.kpageflags(p.offset)),
                                                                  Bits(f.pagemap(p.voffset)))))
  {
    hide FlagFilter.Passes, FlagRewrite.Rewrite, Bits, Number, StrictlyAscending, Accepted, PageWalk.Ordered, PageWalk.Sorted,
      PageWalk.InVma, PageWalk.InInterval, PageWalk.WalkIntervals, PageWalk.Intervals, PageWalk.InMemory;
    var end := offset + PageWalk.ClampedSize(offset, size);
    var s := PageWalk.Intervals(vmas, 0, offset, end);
    PageWalk.WalkTaskExact(vmas, offset, size, p.voffset);
    TaskCalls(f, s, r, offset, end);
    var calls := PageWalk.WalkIntervals(f, s, r).calls;
    AcceptedAscending(raw, filters, calls);
    AcceptedExactly(raw, filters, calls, p);
  }

  lemma {:induction false} NoneAccepted(raw: bool, filters: seq<FlagFilter.Filter>)
    ensures Accepted(raw, filters, []) == []
  {
  }

  /** What becomes of the program: it goes on, or ends with "hash table full" or with "unknown flag bit". */
  datatype End = GoesOn | TableFull | UnknownBit

  /** An unknown bit in the pending range comes from a page listed before. */
  lemma {:induction false} PendingUnknown(pages: seq<RangeLister.Page>)
    requires RangeLister.Unknown(RangeLister.Run(RangeLister.Start, Events(pages)).0.flags0)
    ensures !AllKnown(pages)
  {
    FlagLettersZero();
    hide RangeLister.Unknown;
    if AllKnown(pages) {
      KnownEvents(pages);
      RangeLister.KnownRun(RangeLister.Start, Events(pages));
      assert false;
    }
  }

  lemma {:induction false} FlagLettersZero()
    ensures !RangeLister.Unknown(RangeLister.Start.flags0)
  {
    RangeLister.UnknownIs(0);
    RangeLister.ZeroKnown();
  }

  /** When the pending range cannot be printed, what has been printed is all that ever is. */
  lemma {:induction false} ListingSoFar(pages: seq<RangeLister.Page>)
    requires var (s, out) := RangeLister.Run(RangeLister.Start, Events(pages));
      RangeLister.Survives(out) && s.count != 0 && RangeLister.Unknown(s.flags0)
    ensures RangeLister.Listing(Events(pages)) == RangeLister.Run(RangeLister.Start, Events(pages)).1
  {
    hide RangeLister.Unknown;
    var (s, out) := RangeLister.Run(RangeLister.Start, Events(pages));
    RangeLister.PrintableJoin(out, RangeLister.Flush(s).1);
    RangeLister.OneLine(RangeLister.AsRange(s));
    assert out + [] == out;
  }

  lemma {:induction false} FullStaysFull(words: seq<ULong>, more: seq<ULong>)
    requires HashTable.AddAll(words) == None
    ensures HashTable.AddAll(words + more) == None
    decreases |more|
  {
    if more == [] {
      assert words + more == words;
    } else {
      var before := more[..|more| - 1];
      FullStaysFull(words, before);
      assert (words + more)[..|words + more| - 1] == words + before;
    }
  }

  lemma {:induction false} ThreeStretches(raw: bool, filters: seq<FlagFilter.Filter>, pages: seq<RangeLister.Page>,
                                           done: seq<PageWalk.Call>, c: PageWalk.Call, rest: seq<PageWalk.Call>)
    ensures (pages + Accepted(raw, filters, done)) + Accepted(raw, filters, [c]) == pages + Accepted(raw, filters, done + [c])
    ensures pages + Accepted(raw, filters, (done + [c]) + rest)
         == (pages + Accepted(raw, filters, done)) + Accepted(raw, filters, [c]) + Accepted(raw, filters, rest)
  {
    hide Accepted;
    AcceptedJoins(raw, filters, done, [c], c);
    AcceptedJoins(raw, filters, done + [c], rest, c);
    var a, b, d := Accepted(raw, filters, done), Accepted(raw, filters, [c]), Accepted(raw, filters, rest);
    assert (pages + a) + b == pages + (a + b);
    assert ((pages + a) + b) + d == pages + ((a + b) + d);
  }

  lemma {:induction false} FullWalk(pages: seq<RangeLister.Page>, more: seq<RangeLister.Page>)
    requires HashTable.AddAll(Words(pages)) == None
    ensures HashTable.AddAll(Words(pages + more)) == None
  {
    FullStaysFull(Words(pages), Words(more));
    assert Words(pages + more) == Words(pages) + Words(more);
  }

  /** page-types with -l: the options, the tables and the lister's static variables. */
  class PageTypes {
    const raw: bool
    const filters: seq<FlagFilter.Filter>
    const counts: HashTable.PageCounts
    const lister: RangeLister.Lister
    ghost var pages: seq<RangeLister.Page>  // the pages that passed the filters, in order

    /** Table and lister stand where the accepted pages have brought them, and the program goes on. */
    ghost predicate Valid()
      reads this, counts, counts.page_flags, counts.nr_pages, lister
    {
      && counts.Valid()
      && HashTable.AddAll(Words(pages)) == Some(counts.Contents())
      && (lister.State(), lister.printed) == RangeLister.Run(RangeLister.Start, Events(pages))
      && RangeLister.Survives(lister.printed)
    }

    constructor (raw: bool, filters: seq<FlagFilter.Filter>)
      ensures Valid() && pages == [] && this.raw == raw && this.filters == filters
      ensures fresh(counts) && fresh(counts.page_flags) && fresh(counts.nr_pages) && fresh(lister)
    {
      this.raw, this.filters := raw, filters;
      counts := new HashTable.PageCounts();
      lister := new RangeLister.Lister();
      pages := [];
      new;
      assert Words([]) == [] && Events([]) == [];
    }

    method AddPage(c: PageWalk.Call) returns (end: End)
      requires Valid()
      modifies this, counts, counts.page_flags, counts.nr_pages, lister
      ensures end.GoesOn? ==> Valid() && pages == old(pages) + Accepted(raw, filters, [c])
      ensures end.TableFull? ==> HashTable.AddAll(Words(old(pages) + Accepted(raw, filters, [c]))) == None
      ensures end.UnknownBit? ==>
        && pages == old(pages) && !AllKnown(pages) && lister.printed == RangeLister.Listing(Events(pages))
    {
      hide FlagFilter.Passes, FlagRewrite.Rewrite, Accepted, HashTable.AddAll, Valid, Bits, Number, Words, AllKnown,
        RangeLister.Listing;
      var flags := FlagRewrite.Rewrite(raw, Bits(c.flags), Bits(c.pme));
      AcceptedSnoc(raw, filters, [], c);
      NoneAccepted(raw, filters);
      assert [] + [c] == [c];
      var accepted := FlagFilter.BitMaskOk(filters, flags);
      if !accepted {
        assert pages + [] == pages;
        return GoesOn;
      }
      assert Accepted(raw, filters, [c]) == [Told(raw, c)];
      end := ListAndCount(c.voffset, c.offset, flags);
    }

    /** show_page_range, then the counters. */
    method ListAndCount(voffset: ULong, offset: ULong, flags: Word) returns (end: End)
      requires Valid()
      modifies this, counts, counts.page_flags, counts.nr_pages, lister
      ensures var more := old(pages) + [RangeLister.Page(voffset, offset, Number(flags))];
        && (end.GoesOn? ==> Valid() && pages == more)
        && (end.TableFull? ==> HashTable.AddAll(Words(more)) == None)
      ensures end.UnknownBit? ==>
        && pages == old(pages) && !AllKnown(pages) && lister.printed == RangeLister.Listing(Events(pages))
    {
      hide HashTable.Add, HashTable.Find, Number, RangeLister.Unknown, AllKnown;
      var number := Number(flags);
      ghost var p := RangeLister.Page(voffset, offset, number);
      ghost var words := Words(pages);
      assert Words(pages + [p]) == words + [number] && (words + [number])[..|words + [number]| - 1] == words;
      var shown := Show(voffset, offset, number);
      if !shown {
        return UnknownBit;
      }
      var counted := counts.CountPage(number);
      if !counted {
        return TableFull;
      }
      pages := pages + [p];
      return GoesOn;
    }

    /** The lister takes one more page, or cannot print its pending range. */
    method Show(voffset: ULong, offset: ULong, number: ULong) returns (shown: bool)
      requires Valid()
      modifies lister
      ensures var more := pages + [RangeLister.Page(voffset, offset, number)];
        shown ==> (lister.State(), lister.printed) == RangeLister.Run(RangeLister.Start, Events(more))
                  && RangeLister.Survives(lister.printed)
      ensures !shown ==> !AllKnown(pages) && lister.printed == RangeLister.Listing(Events(pages))
    {
      hide RangeLister.Unknown, HashTable.AddAll, RangeLister.Survives, RangeLister.Listing, AllKnown;
      ghost var p := RangeLister.Page(voffset, offset, number);
      ghost var s := lister.State();
      assert Events(pages + [p]) == Events(pages) + [RangeLister.Listed(p)];
      RunSnoc(RangeLister.Start, Events(pages), RangeLister.Listed(p));
      ghost var out := RangeLister.ShowPage(s, p).1;
      RangeLister.SurvivesJoin(lister.printed, out);
      RangeLister.OneLine(RangeLister.AsRange(s));
      RangeLister.SurvivesNone();
      if RangeLister.Survives(out) { RangeLister.PrintableJoin(out, []); }
      shown := lister.ShowPageRange(voffset, offset, 1, number);
      if shown {
        assert out + [] == out && RangeLister.Printable([]) == [];
      } else {
        PendingUnknown(pages);
        ListingSoFar(pages);
      }
    }

    /** All the add_page calls of a walk; another walk may have gone before. */
    method AddPages(calls: seq<PageWalk.Call>) returns (end: End)
      requires Valid()
      modifies this, counts, counts.page_flags, counts.nr_pages, lister
      ensures end.GoesOn? ==> Valid() && pages == old(pages) + Accepted(raw, filters, calls)
      ensures end.TableFull? ==> HashTable.AddAll(Words(old(pages) + Accepted(raw, filters, calls))) == None
      ensures end.UnknownBit? ==>
        && pages <= old(pages) + Accepted(raw, filters, calls)
        && !AllKnown(pages) && lister.printed == RangeLister.Listing(Events(pages))
    {
      hide Accepted, Valid, HashTable.AddAll, AllKnown, RangeLister.Listing;
      NoneAccepted(raw, filters);
      assert pages + [] == pages;
      end := GoesOn;
      for i := 0 to |calls|
        invariant Valid() && pages == old(pages) + Accepted(raw, filters, calls[..i]) && end.GoesOn?
      {
        ghost var c, done, rest := calls[i], calls[..i], calls[i + 1..];
        assert calls[..i + 1] == done + [c] && calls == (done + [c]) + rest;
        ghost var before, more := pages, Accepted(raw, filters, rest);
        ThreeStretches(raw, filters, old(pages), done, c, rest);
        end := AddPage(calls[i]);
        if !end.GoesOn? {
          if end.TableFull? { FullWalk(before + Accepted(raw, filters, [c]), more); }
          return;
        }
      }
      assert calls[..|calls|] == calls;
    }

    /** The end of main: the last flush and the summary. The program comes through both if and only if no accepted page has
        an unknown bit; what it has listed are the pages before the first that does. */
    method Finish() returns (rows: seq<HashTable.Row>, done: bool)
      requires Valid() && |pages| < ULONG_RANGE
      modifies lister
      ensures done <==> AllKnown(pages)
      ensures lister.printed == RangeLister.Listing(Events(pages))
      ensures RangeLister.ExpandAll(lister.printed) == pages[..FirstUnknown(pages)]
      ensures done ==> rows == HashTable.Rows(counts.Contents())
    {
      hide RangeLister.Unknown, HashTable.Unknown, HashTable.AddAll, RangeLister.Survives, RangeLister.Flush, HashTable.Rows,
        RangeLister.ExpandAll, FirstUnknown;
      ghost var (s, out) := RangeLister.Run(RangeLister.Start, Events(pages));
      ListedUpToUnknown(pages);
      RangeLister.SurvivesJoin(out, RangeLister.Flush(s).1);
      RangeLister.PrintableJoin(out, RangeLister.Flush(s).1);
      SummaryKnown(pages);
      rows := [];
      done := lister.FlushPageRange();
      if done {
        rows, done := counts.ShowSummary();
        RowsKnown(rows, HashTable.Rows(counts.Contents()));
      }
    }
  }

  lemma {:induction false} SummaryKnown(pages: seq<RangeLister.Page>)
    requires HashTable.AddAll(Words(pages)).Some? && |pages| < ULONG_RANGE
    ensures (forall r <- HashTable.Rows(HashTable.AddAll(Words(pages)).value) :: !HashTable.Unknown(r.flags)) <==> AllKnown(pages)
  {
    HashTable.SummaryEndsExactly(Words(pages));
    hide HashTable.Rows, HashTable.AddAll;
    assert forall w: ULong :: HashTable.Unknown(w) <==> RangeLister.Unknown(w);
    hide RangeLister.Unknown, HashTable.Unknown;
    forall i | 0 <= i < |pages| ensures pages[i].flags in Words(pages) { assert Words(pages)[i] == pages[i].flags; }
  }

  /** A summary cut short is one that meets an unknown bit. */
  lemma {:induction false} RowsKnown(rows: seq<HashTable.Row>, all: seq<HashTable.Row>)
    requires rows <= all && forall r <- rows :: !HashTable.Unknown(r.flags)
    requires |rows| < |all| ==> HashTable.Unknown(all[|rows|].flags)
    ensures rows == all <==> forall r <- all :: !HashTable.Unknown(r.flags)
  {
    hide HashTable.Unknown;
    if |rows| < |all| { assert all[|rows|] in all; } else { assert rows == all; }
  }
}
