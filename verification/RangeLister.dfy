/** The run-length page lister of page-types.c (`show_page_range`, `flush_page_range`). */
module RangeLister {
  import opened Basics
  import FlagLetters

  /** Unsigned addition wraps around. */
  function Plus(a: ULong, b: ULong): ULong { (a + b) % ULONG_RANGE }

  /** One listed page: its virtual or file offset, its page frame and its flags word. */
  datatype Page = Page(voffset: ULong, offset: ULong, flags: ULong)

  /** One printed line: `count` pages from voff and index on, all with the same flags. */
  datatype Range = Range(voff: ULong, index: ULong, count: ULong, flags: ULong)

  /** The static variables of show_page_range. */
  datatype Pending = Pending(flags0: ULong, voff: ULong, index: ULong, count: ULong)

  const Start: Pending := Pending(0, 0, 0, 0)

  function AsRange(s: Pending): Range { Range(s.voff, s.index, s.count, s.flags0) }

  predicate Extends(s: Pending, voffset: ULong, offset: ULong, size: ULong, flags: ULong) {
    flags == s.flags0 && offset == Plus(s.index, s.count) && size != 0 && voffset == Plus(s.voff, s.count)
  }

  /** What a call prints, and the static variables after it. */
  function Show(s: Pending, voffset: ULong, offset: ULong, size: ULong, flags: ULong): (Pending, seq<Range>) {
    if Extends(s, voffset, offset, size, flags) then (s.(count := Plus(s.count, size)), [])
    else (Pending(flags, voffset, offset, size), if s.count != 0 then [AsRange(s)] else [])
  }

  function ShowPage(s: Pending, p: Page): (Pending, seq<Range>) { Show(s, p.voffset, p.offset, 1, p.flags) }

  function Flush(s: Pending): (Pending, seq<Range>) { Show(s, 0, 0, 0, 0) }

  // ------------------------------------------------------------- what is listed

  /** The pages add_page passes to the lister, and the flushes between files. */
  datatype Event = Listed(page: Page) | Flushed

  function Step(s: Pending, e: Event): (Pending, seq<Range>) {
    match e
    case Listed(p) => ShowPage(s, p)
    case Flushed => Flush(s)
  }

  function Run(s: Pending, events: seq<Event>): (Pending, seq<Range>)
    decreases |events|
  {
    if events == [] then (s, [])
    else
      var (t, out) := Step(s, events[0]);
      var (u, rest) := Run(t, events[1..]);
      (u, out + rest)
  }

  /** Everything printed for the events and the final flush. */
  function Output(events: seq<Event>): seq<Range> {
    var (s, out) := Run(Start, events);
    out + Flush(s).1
  }

  function Pages(events: seq<Event>): seq<Page> {
    if events == [] then []
    else (match events[0] case Listed(p) => [p] case Flushed => []) + Pages(events[1..])
  }

  /** The pages a range stands for. */
  function Expand(r: Range): (s: seq<Page>)
    ensures |s| == r.count
  {
    seq(r.count, k requires 0 <= k < r.count => PageOf(r, k))
  }

  function PageOf(r: Range, k: nat): Page
    requires k < r.count
  {
    Page(Plus(r.voff, k), Plus(r.index, k), r.flags)
  }

  function ExpandAll(ranges: seq<Range>): seq<Page> {
    if ranges == [] then [] else Expand(ranges[0]) + ExpandAll(ranges[1..])
  }

  function Lengths(ranges: seq<Range>): nat {
    if ranges == [] then 0 else ranges[0].count + Lengths(ranges[1..])
  }

  lemma {:induction false} ExpandAppend(a: seq<Range>, b: seq<Range>)
    ensures ExpandAll(a + b) == ExpandAll(a) + ExpandAll(b)
  {
    if a == [] {
      assert a + b == b;
    } else {
      assert (a + b)[1..] == a[1..] + b;
      ExpandAppend(a[1..], b);
    }
  }

  lemma {:induction false} ExpandOne(r: Range)
    ensures ExpandAll([r]) == Expand(r)
  {
    assert ExpandAll([r]) == Expand(r) + ExpandAll([]);
  }

  lemma {:induction false} LengthsExpand(ranges: seq<Range>)
    ensures Lengths(ranges) == |ExpandAll(ranges)|
  {
    if ranges != [] { LengthsExpand(ranges[1..]); }
  }

  // ------------------------------------------------------------------- lossless

  /** One page is appended to what is printed or pending, as long as the pending count does not wrap. */
  lemma {:induction false} StepLossless(s: Pending, e: Event)
    requires s.count + 1 < ULONG_RANGE
    ensures Expand(AsRange(s)) + Pages([e]) == ExpandAll(Step(s, e).1) + Expand(AsRange(Step(s, e).0))
    ensures Step(s, e).0.count <= s.count + 1
  {
    var (t, out) := Step(s, e);
    assert Pages([e]) == (match e case Listed(p) => [p] case Flushed => []) + Pages([]);
    if s.count != 0 { ExpandOne(AsRange(s)); }
    if e.Listed? && Extends(s, e.page.voffset, e.page.offset, 1, e.page.flags) {
      ExpandLonger(AsRange(s));
    } else {
      assert Expand(AsRange(t)) == Pages([e]);
    }
  }

  lemma {:induction false} ExpandLonger(r: Range)
    requires r.count + 1 < ULONG_RANGE
    ensures Expand(r.(count := r.count + 1)) == Expand(r) + [Page(Plus(r.voff, r.count), Plus(r.index, r.count), r.flags)]
  {
  }

  lemma {:induction false} RunLossless(s: Pending, events: seq<Event>)
    requires s.count + |events| < ULONG_RANGE
    ensures Expand(AsRange(s)) + Pages(events) == ExpandAll(Run(s, events).1) + Expand(AsRange(Run(s, events).0))
    decreases |events|
  {
    hide Step, Expand;
    if events != [] {
      var (t, out) := Step(s, events[0]);
      var (u, rest) := Run(t, events[1..]);
      StepLossless(s, events[0]);
      RunLossless(t, events[1..]);
      assert Pages(events) == Pages([events[0]]) + Pages(events[1..]);
      ExpandAppend(out, rest);
      Chain(Expand(AsRange(s)), Pages([events[0]]), Pages(events[1..]), ExpandAll(out), Expand(AsRange(t)),
            ExpandAll(rest), Expand(AsRange(u)));
    }
  }

  lemma {:induction false} Chain(a: seq<Page>, p: seq<Page>, q: seq<Page>, out: seq<Page>, b: seq<Page>, rest: seq<Page>, c: seq<Page>)
    requires a + p == out + b && b + q == rest + c
    ensures a + (p + q) == (out + rest) + c
  {
    assert a + (p + q) == (a + p) + q;
    assert (out + b) + q == out + (b + q);
    assert out + (rest + c) == (out + rest) + c;
  }

  /** The printed ranges expand back to exactly the listed pages, in order; so their lengths add up to the number of
      pages. Offsets may wrap; only the number of pages is taken to fit an unsigned long. */
  lemma {:induction false} Lossless(events: seq<Event>)
    requires |events| < ULONG_RANGE
    ensures ExpandAll(Output(events)) == Pages(events)
    ensures Lengths(Output(events)) == |Pages(events)|
  {
    var (s, out) := Run(Start, events);
    RunLossless(Start, events);
    assert Expand(AsRange(Start)) == [];
    var last := Flush(s).1;
    ExpandAppend(out, last);
    if s.count != 0 { ExpandOne(AsRange(s)); } else { assert Expand(AsRange(s)) == []; }
    LengthsExpand(Output(events));
  }

  // -------------------------------------------------------------------- minimal

  lemma {:induction false} NoEmptyRange(s: Pending, events: seq<Event>)
    ensures forall i :: 0 <= i < |Run(s, events).1| ==> Run(s, events).1[i].count != 0
    decreases |events|
  {
    if events != [] { NoEmptyRange(Step(s, events[0]).0, events[1..]); }
  }

  /** Page q continues page p in all three respects. */
  predicate Follows(p: Page, q: Page) {
    q == Page(Plus(p.voffset, 1), Plus(p.offset, 1), p.flags)
  }

  /** The number of maximal runs of pages that continue one another. */
  function RunCount(pages: seq<Page>): nat {
    if |pages| <= 1 then |pages|
    else (if Follows(pages[0], pages[1]) then 0 else 1) + RunCount(pages[1..])
  }

  lemma {:induction false} PlusOne(a: ULong, k: nat)
    ensures Plus((a + k) % ULONG_RANGE, 1) == (a + k + 1) % ULONG_RANGE
  {
  }

  lemma {:induction false} RunCountCons(p: Page, pages: seq<Page>)
    ensures RunCount([p] + pages) == if pages == [] then 1 else (if Follows(p, pages[0]) then 0 else 1) + RunCount(pages)
  {
    assert ([p] + pages)[1..] == pages;
  }

  function TailOf(r: Range): Range
    requires r.count >= 1
  {
    Range(Plus(r.voff, 1), Plus(r.index, 1), r.count - 1, r.flags)
  }

  lemma {:induction false} ExpandHead(r: Range)
    requires r.count >= 1
    ensures Expand(r) == [PageOf(r, 0)] + Expand(TailOf(r))
    ensures r.count > 1 ==> Follows(PageOf(r, 0), PageOf(TailOf(r), 0))
  {
    hide Plus;
    PlusZero(r.voff);
    PlusZero(r.index);
    PlusZero(Plus(r.voff, 1));
    PlusZero(Plus(r.index, 1));
    var tail := TailOf(r);
    forall k | 0 <= k < tail.count ensures PageOf(r, k + 1) == PageOf(tail, k) {
      PlusShift(r.voff, k);
      PlusShift(r.index, k);
    }
  }

  /** A range, whatever follows it, starts at most one run. */
  lemma {:induction false} RangeIsOneRun(r: Range, rest: seq<Page>)
    requires r.count >= 1
    ensures RunCount(Expand(r) + rest) <= 1 + RunCount(rest)
    decreases r.count
  {
    hide Plus, Follows, PageOf;
    var p, tail := PageOf(r, 0), TailOf(r);
    ExpandHead(r);
    assert Expand(r) + rest == [p] + (Expand(tail) + rest);
    RunCountCons(p, Expand(tail) + rest);
    if r.count == 1 {
      assert Expand(tail) + rest == rest;
    } else {
      RangeIsOneRun(tail, rest);
      assert (Expand(tail) + rest)[0] == PageOf(tail, 0);
    }
  }

  lemma {:induction false} PlusZero(a: ULong)
    ensures Plus(a, 0) == a
  {
  }

  lemma {:induction false} PlusShift(a: ULong, k: nat)
    requires k + 1 < ULONG_RANGE
    ensures Plus(Plus(a, 1), k) == Plus(a, k + 1)
  {
  }

  predicate NonEmpty(ranges: seq<Range>) {
    forall i :: 0 <= i < |ranges| ==> ranges[i].count >= 1
  }

  lemma {:induction false} RunsBound(ranges: seq<Range>)
    requires NonEmpty(ranges)
    ensures RunCount(ExpandAll(ranges)) <= |ranges|
  {
    if ranges != [] {
      RunsBound(ranges[1..]);
      RangeIsOneRun(ranges[0], ExpandAll(ranges[1..]));
    }
  }

  predicate FlushFree(events: seq<Event>) {
    forall i :: 0 <= i < |events| ==> events[i].Listed?
  }

  function Last(s: Pending): Page
    requires s.count >= 1
  {
    PageOf(AsRange(s), s.count - 1)
  }

  lemma {:induction false} ExtendsIsFollows(s: Pending, p: Page)
    requires s.count >= 1
    ensures Extends(s, p.voffset, p.offset, 1, p.flags) <==> Follows(Last(s), p)
  {
    PlusOne(s.voff, s.count - 1);
    PlusOne(s.index, s.count - 1);
  }

  /** What one listed page does to a pending range. */
  lemma {:induction false} ListedStep(s: Pending, p: Page)
    requires 1 <= s.count && s.count + 1 < ULONG_RANGE
    ensures var (t, out) := Step(s, Listed(p));
      && 1 <= t.count <= s.count + 1 && Last(t) == p
      && |out| == if Follows(Last(s), p) then 0 else 1
  {
    hide Plus, Follows;
    ExtendsIsFollows(s, p);
    PlusFits(s.count, 1);
    PlusZero(p.voffset);
    PlusZero(p.offset);
  }

  lemma {:induction false} PlusFits(a: ULong, b: ULong)
    requires a + b < ULONG_RANGE
    ensures Plus(a, b) == a + b
  {
  }

  /** From a pending range on, one line is printed for each run that ends. */
  lemma {:induction false} OneLinePerRun(s: Pending, events: seq<Event>)
    requires FlushFree(events) && 1 <= s.count && s.count + |events| < ULONG_RANGE
    ensures Run(s, events).0.count >= 1
    ensures |Run(s, events).1| + 1 == RunCount([Last(s)] + Pages(events))
    decreases |events|
  {
    hide Plus, Follows, PageOf, Last, Step;
    RunCountCons(Last(s), Pages(events));
    if events != [] {
      var p := events[0].page;
      ListedStep(s, p);
      OneLinePerRun(Step(s, events[0]).0, events[1..]);
      assert Pages(events) == [p] + Pages(events[1..]);
    }
  }

  /** The first listed page is pending alone, whatever the static variables held. */
  lemma {:induction false} FirstPage(p: Page)
    ensures Step(Start, Listed(p)) == (Pending(p.flags, p.voffset, p.offset, 1), [])
    ensures Last(Pending(p.flags, p.voffset, p.offset, 1)) == p
  {
  }

  /** Without flushes the number of printed ranges is the number of maximal runs. */
  lemma {:induction false} OutputCount(events: seq<Event>)
    requires FlushFree(events) && |events| < ULONG_RANGE
    ensures |Output(events)| == RunCount(Pages(events))
    ensures NonEmpty(Output(events))
  {
    hide Step, Plus, PageOf, Last, Follows;
    NoEmptyRange(Start, events);
    if events != [] {
      FirstPage(events[0].page);
      OneLinePerRun(Step(Start, events[0]).0, events[1..]);
      assert Pages(events) == [events[0].page] + Pages(events[1..]);
    }
  }

  /** The output is minimal: no list of non-empty ranges that expands to the same pages is shorter. */
  lemma {:induction false} Minimal(events: seq<Event>, ranges: seq<Range>)
    requires FlushFree(events) && |events| < ULONG_RANGE
    requires NonEmpty(ranges) && ExpandAll(ranges) == Pages(events)
    ensures |Output(events)| <= |ranges|
  {
    OutputCount(events);
    RunsBound(ranges);
  }

  lemma {:induction false} MergeExpands(r: Range, q: Range)
    requires r.count + q.count < ULONG_RANGE
    requires Mergeable(r, q)
    ensures Expand(r.(count := r.count + q.count)) == Expand(r) + Expand(q)
  {
    var m := r.(count := r.count + q.count);
    forall k | 0 <= k < q.count ensures PageOf(m, r.count + k) == PageOf(q, k) {
      PlusPlus(r.voff, r.count, k);
      PlusPlus(r.index, r.count, k);
    }
  }

  lemma {:induction false} PlusPlus(a: ULong, b: nat, k: nat)
    ensures ((a + b) % ULONG_RANGE + k) % ULONG_RANGE == (a + (b + k)) % ULONG_RANGE
  {
  }

  lemma {:induction false} Regroup(a: seq<Page>, b: seq<Page>, c: seq<Page>, d: seq<Page>)
    ensures a + (b + (c + d)) == a + (b + c) + d
  {
  }

  lemma {:induction false} TwoInTheMiddle(out: seq<Range>, i: nat)
    requires i + 1 < |out|
    ensures ExpandAll(out) == ExpandAll(out[..i]) + (Expand(out[i]) + Expand(out[i + 1])) + ExpandAll(out[i + 2..])
  {
    hide Expand;
    var r, q, rest := out[i], out[i + 1], out[i + 2..];
    assert out == out[..i] + ([r] + ([q] + rest));
    ExpandAppend(out[..i], [r] + ([q] + rest));
    ExpandAppend([r], [q] + rest);
    ExpandAppend([q], rest);
    ExpandOne(r);
    ExpandOne(q);
    Regroup(ExpandAll(out[..i]), Expand(r), Expand(q), ExpandAll(rest));
  }

  lemma {:induction false} PagesLength(events: seq<Event>)
    ensures |Pages(events)| <= |events|
  {
    if events != [] { PagesLength(events[1..]); }
  }

  predicate Mergeable(r: Range, q: Range) {
    q.flags == r.flags && q.index == Plus(r.index, r.count) && q.voff == Plus(r.voff, r.count)
  }

  /** Merging two adjacent ranges expands to the same pages. */
  lemma {:induction false} MergedExpandsAlike(out: seq<Range>, i: nat) returns (shorter: seq<Range>)
    requires i + 1 < |out| && Mergeable(out[i], out[i + 1]) && NonEmpty(out) && out[i].count + out[i + 1].count < ULONG_RANGE
    ensures |shorter| == |out| - 1 && NonEmpty(shorter) && ExpandAll(shorter) == ExpandAll(out)
  {
    hide Expand, Plus;
    var before, after := out[..i], out[i + 2..];
    var merged := out[i].(count := out[i].count + out[i + 1].count);
    shorter := before + ([merged] + after);
    MergeExpands(out[i], out[i + 1]);
    TwoInTheMiddle(out, i);
    ExpandAppend(before, [merged] + after);
    ExpandAppend([merged], after);
    ExpandOne(merged);
  }

  lemma {:induction false} LengthsOfTwo(out: seq<Range>, i: nat)
    requires i + 1 < |out|
    ensures out[i].count + out[i + 1].count <= Lengths(out)
  {
    if i > 0 { LengthsOfTwo(out[1..], i - 1); }
  }

  /** In particular no two adjacent printed ranges could have been merged. */
  lemma {:induction false} NoneMergeable(events: seq<Event>, i: nat)
    requires FlushFree(events) && |events| < ULONG_RANGE && i + 1 < |Output(events)|
    ensures !Mergeable(Output(events)[i], Output(events)[i + 1])
  {
    hide Output, Expand;
    if Mergeable(Output(events)[i], Output(events)[i + 1]) {
      Lossless(events);
      OutputCount(events);
      PagesLength(events);
      LengthsOfTwo(Output(events), i);
      var shorter := MergedExpandsAlike(Output(events), i);
      Minimal(events, shorter);
    }
  }

  // ------------------------------------------------- where the listing ends the program

  predicate Unknown(flags: ULong) { FlagLetters.Unknown(flags) }

  /** The lines that come out when these are to be printed: page_flag_name ends the program at the first with an unknown bit. */
  function Printable(out: seq<Range>): seq<Range> {
    if out == [] || Unknown(out[0].flags) then [] else [out[0]] + Printable(out[1..])
  }

  /** The program is not ended by these lines. */
  predicate Survives(out: seq<Range>) {
    forall i :: 0 <= i < |out| ==> !Unknown(out[i].flags)
  }

  /** What is in fact printed for the events and the final flush. */
  function Listing(events: seq<Event>): seq<Range> { Printable(Output(events)) }

  predicate Bad(e: Event) { e.Listed? && Unknown(e.page.flags) }

  /** The first listed page with an unknown bit; the end of the events if there is none. */
  function FirstBad(events: seq<Event>): (k: nat)
    ensures k <= |events| && (k < |events| ==> Bad(events[k]))
    ensures forall i :: 0 <= i < k ==> !Bad(events[i])
  {
    if events == [] || Bad(events[0]) then 0 else 1 + FirstBad(events[1..])
  }

  lemma {:induction false} PrintableJoin(a: seq<Range>, b: seq<Range>)
    requires Survives(a)
    ensures Printable(a + b) == a + Printable(b)
  {
    hide Unknown;
    if a == [] {
      assert a + b == b;
    } else {
      assert (a + b)[1..] == a[1..] + b;
      PrintableJoin(a[1..], b);
    }
  }

  lemma {:induction false} SurvivesJoin(a: seq<Range>, b: seq<Range>)
    ensures Survives(a + b) <==> Survives(a) && Survives(b)
  {
    hide Unknown;
    if Survives(a + b) {
      forall i | 0 <= i < |a| ensures !Unknown(a[i].flags) { assert (a + b)[i] == a[i]; }
      forall i | 0 <= i < |b| ensures !Unknown(b[i].flags) { assert (a + b)[|a| + i] == b[i]; }
    }
  }

  lemma {:induction false} KnownStep(s: Pending, e: Event)
    requires !Unknown(s.flags0) && !Bad(e)
    ensures Survives(Step(s, e).1) && !Unknown(Step(s, e).0.flags0)
  {
    FlagLetters.ZeroIsKnown();
    hide FlagLetters.Unknown;
  }

  lemma {:induction false} KnownRun(s: Pending, events: seq<Event>)
    requires !Unknown(s.flags0) && forall i :: 0 <= i < |events| ==> !Bad(events[i])
    ensures Survives(Run(s, events).1) && !Unknown(Run(s, events).0.flags0)
    decreases |events|
  {
    hide Unknown, Bad, Survives, Step;
    SurvivesNone();
    if events != [] {
      var (t, out) := Step(s, events[0]);
      KnownStep(s, events[0]);
      KnownRun(t, events[1..]);
      SurvivesJoin(out, Run(t, events[1..]).1);
    }
  }

  lemma {:induction false} SurvivesNone()
    ensures Survives([])
  {
  }

  /** A pending range is the next line to be printed, however it grows until then. */
  lemma {:induction false} PendingIsNext(s: Pending, events: seq<Event>)
    requires 1 <= s.count && s.count + |events| < ULONG_RANGE
    ensures var out := Run(s, events).1 + Flush(Run(s, events).0).1; out != [] && out[0].flags == s.flags0
    decreases |events|
  {
    if events != [] {
      var (t, out) := Step(s, events[0]);
      if out == [] { PendingIsNext(t, events[1..]); }
    }
  }

  lemma {:induction false} RunSplit(s: Pending, a: seq<Event>, b: seq<Event>)
    ensures var (t, out) := Run(s, a); var (u, rest) := Run(t, b); Run(s, a + b) == (u, out + rest)
    decreases |a|
  {
    hide Step;
    if a == [] {
      assert a + b == b;
      assert [] + Run(s, b).1 == Run(s, b).1;
    } else {
      assert (a + b)[1..] == a[1..] + b;
      var (t, out) := Step(s, a[0]);
      RunSplit(t, a[1..], b);
      var (u, more) := Run(t, a[1..]);
      assert out + (more + Run(u, b).1) == (out + more) + Run(u, b).1;
    }
  }

  /** A page whose flags differ from the pending ones prints what a flush would. */
  lemma {:induction false} OtherFlagsFlush(s: Pending, p: Page)
    requires p.flags != s.flags0
    ensures Step(s, Listed(p)) == (Pending(p.flags, p.voffset, p.offset, 1), Flush(s).1)
  {
  }

  /** Up to the first page with an unknown bit the output is what it would be without that page and all after it. */
  lemma {:induction false} OutputSplits(events: seq<Event>) returns (rest: seq<Range>)
    requires |events| < ULONG_RANGE && FirstBad(events) < |events|
    ensures Output(events) == Output(events[..FirstBad(events)]) + rest && rest != [] && Unknown(rest[0].flags)
  {
    var k := FirstBad(events);
    var pre, e, post := events[..k], events[k], events[k + 1..];
    FlagLetters.ZeroIsKnown();
    hide Unknown, FlagLetters.Unknown, Step, Flush, FirstBad;
    assert events == pre + ([e] + post) && ([e] + post)[1..] == post;
    var (s, out) := Run(Start, pre);
    assert !Unknown(Start.flags0) by { UnknownIs(0); }
    KnownRun(Start, pre);
    RunSplit(Start, pre, [e] + post);
    OtherFlagsFlush(s, e.page);
    var t := Step(s, e).0;
    PendingIsNext(t, post);
    var (u, more) := Run(t, post);
    rest := more + Flush(u).1;
    Reorder(out, Flush(s).1, more, Flush(u).1);
  }

  lemma {:induction false} ZeroKnown()
    ensures !Unknown(0)
  {
    FlagLetters.ZeroIsKnown();
  }

  lemma {:induction false} UnknownIs(flags: ULong)
    ensures Unknown(flags) == FlagLetters.Unknown(flags)
  {
  }

  lemma {:induction false} Reorder(a: seq<Range>, b: seq<Range>, c: seq<Range>, d: seq<Range>)
    ensures (a + (b + c)) + d == (a + b) + (c + d)
  {
  }

  lemma {:induction false} GoodOutput(events: seq<Event>)
    requires forall i :: 0 <= i < |events| ==> !Bad(events[i])
    ensures Survives(Output(events))
  {
    FlagLetters.ZeroIsKnown();
    assert !Unknown(Start.flags0) by { UnknownIs(0); }
    hide Unknown, FlagLetters.Unknown, Bad;
    KnownRun(Start, events);
    var s := Run(Start, events).0;
    assert Survives(Flush(s).1);
    SurvivesJoin(Run(Start, events).1, Flush(s).1);
  }

  /** The program prints exactly what it would print for the pages before the first one with an unknown bit, and it comes to
      the end of its listing if and only if there is no such page. */
  lemma {:induction false} ListsUpToUnknown(events: seq<Event>)
    requires |events| < ULONG_RANGE
    ensures Listing(events) == Output(events[..FirstBad(events)])
    ensures ExpandAll(Listing(events)) == Pages(events[..FirstBad(events)])
    ensures Survives(Output(events)) <==> forall i :: 0 <= i < |events| ==> !Bad(events[i])
    ensures FlushFree(events) ==> |Listing(events)| == RunCount(Pages(events[..FirstBad(events)]))
  {
    hide Output, Unknown, Bad, FirstBad, Survives, ExpandAll, RunCount, Printable;
    var pre := events[..FirstBad(events)];
    GoodOutput(pre);
    if FirstBad(events) < |events| {
      var rest := OutputSplits(events);
      PrintableJoin(Output(pre), rest);
      NothingPrintable(rest);
      SurvivesJoin(Output(pre), rest);
      assert Output(pre) + [] == Output(pre);
    } else {
      assert pre == events;
      PrintableJoin(Output(pre), []);
      NothingToPrint();
      assert Output(pre) + [] == Output(pre);
    }
    Lossless(pre);
    if FlushFree(events) { OutputCount(pre); }
  }

  lemma {:induction false} NothingPrintable(out: seq<Range>)
    requires out != [] && Unknown(out[0].flags)
    ensures Printable(out) == [] && !Survives(out)
  {
  }

  lemma {:induction false} NothingToPrint()
    ensures Printable([]) == []
  {
  }

  /** One idle page and nothing is listed any more, itself included. */
  lemma {:induction false} IdleEndsListing(p: Page)
    ensures var idle := p.(flags := 0x200_0000); Listing([Listed(idle)]) == [] && Output([Listed(idle)]) != []
  {
    FlagLetters.IdleIsUnknown();
    UnknownIs(0x200_0000);
    hide Unknown, FlagLetters.Unknown;
    var events := [Listed(p.(flags := 0x200_0000))];
    ListsUpToUnknown(events);
    assert Bad(events[0]);
    FirstBadIs(events);
    assert events[..0] == [];
    GoodOutput([]);
  }

  lemma {:induction false} FirstBadIs(events: seq<Event>)
    requires events != [] && Bad(events[0])
    ensures FirstBad(events) == 0
  {
  }

  // ------------------------------------------------------------ static variables

  /** show_page_range with its static variables, and the lines it has printed. */
  class Lister {
    var flags0: ULong
    var voff: ULong
    var index: ULong
    var count: ULong
    var printed: seq<Range>

    ghost function State(): Pending
      reads this
    {
      Pending(flags0, voff, index, count)
    }

    constructor ()
      ensures State() == Start && printed == []
    {
      flags0, voff, index, count, printed := 0, 0, 0, 0, [];
    }

    /** False is the fatal "unknown flag bit" of page_flag_name. */
    method ShowPageRange(voffset: ULong, offset: ULong, size: ULong, flags: ULong) returns (ok: bool)
      modifies this
      ensures var (t, out) := Show(old(State()), voffset, offset, size, flags);
        && (ok <==> Survives(out))
        && printed == old(printed) + Printable(out) && State() == if ok then t else old(State())
    {
      hide Unknown;
      if flags == flags0 && offset == (index + count) % ULONG_RANGE && size != 0 && voffset == (voff + count) % ULONG_RANGE {
        count := (count + size) % ULONG_RANGE;
        assert printed + [] == printed;
        return true;
      }
      if count != 0 {
        OneLine(Range(voff, index, count, flags0));
        var name := FlagLetters.PageFlagName(flags0);
        UnknownIs(flags0);
        if name == None {
          assert printed + [] == printed;
          return false;
        }
        printed := printed + [Range(voff, index, count, flags0)];
      }
      assert count == 0 ==> printed + [] == printed;
      flags0 := flags;
      index := offset;
      voff := voffset;
      count := size;
      return true;
    }

    method FlushPageRange() returns (ok: bool)
      modifies this
      ensures var (t, out) := Flush(old(State()));
        && (ok <==> Survives(out))
        && printed == old(printed) + Printable(out) && State() == if ok then t else old(State())
    {
      ok := ShowPageRange(0, 0, 0, 0);
    }
  }

  lemma {:induction false} OneLine(r: Range)
    ensures Printable([r]) == if Unknown(r.flags) then [] else [r]
    ensures Survives([r]) <==> !Unknown(r.flags)
  {
    assert [r][1..] == [];
    assert [r][0] == r;
  }
}
