/** The walkers of page-types.c as loops. Each is proved against its function in `PageWalk`. */
module PageWalker {
  import opened Basics
  import opened PageWalk
  import W = PageWalk

  /** The walkers with what they leave behind: the add_page calls made so far and the answers still to come. */
  class Walker {
    const f: Files
    var handed: seq<ULong>
    var calls: seq<Call>
    var answers: Reads
    var ok: bool

    ghost function State(): TaskWalk
      reads this
    {
      TaskWalk(handed, calls, answers, ok)
    }

    constructor (f: Files, answers: Reads)
      ensures State() == TaskWalk([], [], answers, true) && this.f == f
    {
      this.f, handed, calls, this.answers, ok := f, [], [], answers, true;
    }

    method WalkPfn(voffset: ULong, index: ULong, count: ULong, pme: ULong)
      requires ok
      modifies this
      ensures State() == Then(old(State()),
        AsTask(W.WalkPfn(f.kpageflags, voffset, index, count, pme, old(answers.kpageflags)), old(answers)))
    {
      hide W.WalkPfn, BatchCalls;
      ghost var s := State();
      var idx: ULong, left: ULong := index, count;
      while left != 0
        invariant ok
        invariant Then(s, AsTask(W.WalkPfn(f.kpageflags, voffset, index, count, pme, s.answers.kpageflags), s.answers))
               == Then(State(), AsTask(W.WalkPfn(f.kpageflags, voffset, idx, left, pme, answers.kpageflags), answers))
        decreases left
      {
        var batch := Min(left, BATCH);
        PfnTurn(f.kpageflags, voffset, idx, left, pme, answers);
        if Fatal(answers.kpageflags, idx) {
          ok := false;
          return;
        }
        var pages := Delivered(answers.kpageflags, batch);
        ghost var t := TaskWalk([], BatchCalls(f.kpageflags, voffset, idx, pages, pme),
                                answers.(kpageflags := Rest(answers.kpageflags)), true);
        answers := answers.(kpageflags := Rest(answers.kpageflags));
        if pages == 0 {
          return;
        }
        ThenAssoc(State(), t,
          AsTask(W.WalkPfn(f.kpageflags, voffset, idx + pages, left - pages, pme, answers.kpageflags), answers));
        AddBatch(voffset, idx, pages, pme);
        idx := idx + pages;
        left := left - pages;
      }
      PfnDone(f.kpageflags, voffset, idx, pme, answers.kpageflags);
    }

    /** The inner loop of walk_pfn. */
    method AddBatch(voffset: ULong, index: ULong, pages: nat, pme: ULong)
      requires index + pages <= ULONG_MAX
      modifies this`calls
      ensures calls == old(calls) + BatchCalls(f.kpageflags, voffset, index, pages, pme)
    {
      ghost var batch := BatchCalls(f.kpageflags, voffset, index, pages, pme);
      for i := 0 to pages
        invariant calls == old(calls) + batch[..i]
      {
        calls := calls + [CallAt(f.kpageflags, voffset, index, i, pme)];
        assert batch[..i + 1] == batch[..i] + [batch[i]];
      }
      assert batch[..pages] == batch;
    }

    /** The body of the inner loop of walk_vma. */
    method WalkPage(v: ULong)
      requires ok
      modifies this
      ensures State() == Then(old(State()), W.WalkPage(f, v, old(answers)))
    {
      var val := f.pagemap(v);
      var pfn := PagemapPfn(val);
      if pfn != 0 {
        handed := handed + [v];
        WalkPfn(v, pfn, 1, val);
      }
    }

    method WalkVma(index: ULong, count: ULong)
      requires ok && index + count <= ULONG_MAX
      modifies this
      ensures State() == Then(old(State()), W.WalkVma(f, index, count, old(answers)))
    {
      hide WalkMapped, W.WalkPage;
      ghost var s := State();
      var idx, left := index, count;
      while left != 0
        invariant 0 <= left && idx + left == index + count && ok
        invariant Then(s, W.WalkVma(f, index, count, s.answers)) == Then(State(), W.WalkVma(f, idx, left, answers))
        decreases left
      {
        var batch := Min(left, BATCH);
        if Fatal(answers.pagemap, idx) {
          ok := false;
          return;
        }
        var pages := Delivered(answers.pagemap, batch);
        answers := answers.(pagemap := Rest(answers.pagemap));
        if pages == 0 {
          break;
        }
        ghost var t, rest := State(), W.WalkVma(f, idx + pages, left - pages, WalkMapped(f, idx, pages, answers).answers);
        ThenAssoc(t, WalkMapped(f, idx, pages, answers), rest);
        WalkPages(idx, pages);
        if !ok {
          return;
        }
        idx := idx + pages;
        left := left - pages;
      }
    }

    /** The inner loop of walk_vma. */
    method WalkPages(index: ULong, pages: nat)
      requires ok && index + pages <= ULONG_MAX
      modifies this
      ensures State() == Then(old(State()), WalkMapped(f, index, pages, old(answers)))
    {
      hide W.WalkPage;
      ghost var s := State();
      var i := 0;
      while i < pages
        invariant 0 <= i <= pages && ok
        invariant Then(s, WalkMapped(f, index, pages, s.answers)) == Then(State(), WalkMapped(f, index + i, pages - i, answers))
      {
        ghost var w := W.WalkPage(f, index + i, answers);
        ThenAssoc(State(), w, WalkMapped(f, index + i + 1, pages - i - 1, w.answers));
        WalkPage(index + i);
        if !ok {
          return;
        }
        i := i + 1;
      }
    }

    /** walk_task; the assertion in the loop is the source's own. */
    method WalkTask(vmas: seq<Vma>, index: ULong, count: ULong)
      requires ok && index + count <= ULONG_MAX
      requires forall k :: 0 <= k < |vmas| ==> vmas[k].start < vmas[k].end
      modifies this
      ensures forall x <- Intervals(vmas, 0, index, index + count) :: x.start <= x.stop
      ensures State() == Then(old(State()), WalkIntervals(f, Intervals(vmas, 0, index, index + count), old(answers)))
    {
      hide W.WalkVma, Ordered, Fatal, Delivered, Available;
      var end := index + count;
      ghost var s, todo := State(), Intervals(vmas, 0, index, end);
      IntervalsForward(vmas, 0, index, end);
      var idx := index;
      var i := 0;
      while idx < end
        invariant 0 <= i <= |vmas| && idx <= end && ok
        invariant forall x <- Intervals(vmas, i, idx, end) :: x.start <= x.stop
        invariant Then(s, WalkIntervals(f, todo, s.answers))
               == Then(State(), WalkIntervals(f, Intervals(vmas, i, idx, end), answers))
        decreases end - idx
      {
        ghost var before := Intervals(vmas, i, idx, end);
        IntervalsForward(vmas, i, idx, end);
        i := SkipVmas(vmas, i, idx);
        if i >= |vmas| || vmas[i].start >= end {
          return;
        }
        var start := Max(vmas[i].start, idx);
        idx := Min(vmas[i].end, end);
        assert start < idx;
        ghost var after := Intervals(vmas, i, idx, end);
        assert before == [Interval(start, idx)] + after;
        IntervalsStep(f, start, idx, after, answers);
        ghost var w := W.WalkVma(f, start, idx - start, answers);
        ThenAssoc(State(), w, WalkIntervals(f, after, w.answers));
        WalkVma(start, idx - start);
        if !ok {
          return;
        }
      }
    }

    /** `while (pg_end[i] <= index) if (++i >= nr_vmas) return;` */
    method SkipVmas(vmas: seq<Vma>, from: nat, index: ULong) returns (i: nat)
      requires from <= |vmas|
      ensures i == Skip(vmas, from, index)
    {
      i := from;
      while i < |vmas| && vmas[i].end <= index
        invariant from <= i <= |vmas| && Skip(vmas, from, index) == Skip(vmas, i, index)
      {
        i := i + 1;
      }
    }
  }

  /** A walk_pfn as a part of a task walk. */
  function AsTask(w: Walk, r: Reads): TaskWalk {
    TaskWalk([], w.calls, r.(kpageflags := w.answers), w.ok)
  }

  lemma {:induction false} PfnDone(file: File, voffset: ULong, index: ULong, pme: ULong, answers: seq<Read>)
    ensures W.WalkPfn(file, voffset, index, 0, pme, answers) == Walk([], answers, true)
  {
  }

  /** The three ways one turn of the loop of walk_pfn can go. */
  lemma {:induction false} PfnTurn(file: File, voffset: ULong, index: ULong, count: nat, pme: ULong, r: Reads)
    requires count > 0
    ensures var n, next := Delivered(r.kpageflags, Min(count, BATCH)), r.(kpageflags := Rest(r.kpageflags));
      var w := AsTask(W.WalkPfn(file, voffset, index, count, pme, r.kpageflags), r);
      if Fatal(r.kpageflags, index) then w == TaskWalk([], [], r, false)
      else if n == 0 then w == TaskWalk([], [], next, true)
      else
        && n <= BATCH && n <= count && index + n <= ULONG_MAX
        && w == Then(TaskWalk([], BatchCalls(file, voffset, index, n, pme), next, true),
                     AsTask(W.WalkPfn(file, voffset, index + n, count - n, pme, next.kpageflags), next))
  {
    hide BatchCalls;
  }

  lemma {:induction false} IntervalsForward(vmas: seq<Vma>, i: nat, index: ULong, end: ULong)
    requires i <= |vmas| && forall k :: 0 <= k < |vmas| ==> vmas[k].start < vmas[k].end
    ensures forall x <- Intervals(vmas, i, index, end) :: x.start <= x.stop
  {
    TaskIntervalsOrdered(vmas, i, index, end);
  }

  lemma {:induction false} IntervalsStep(f: Files, start: ULong, stop: ULong, after: seq<Interval>, answers: Reads)
    requires start <= stop && forall x <- after :: x.start <= x.stop
    ensures forall x <- [Interval(start, stop)] + after :: x.start <= x.stop
    ensures var w := W.WalkVma(f, start, stop - start, answers);
      WalkIntervals(f, [Interval(start, stop)] + after, answers) == Then(w, WalkIntervals(f, after, w.answers))
  {
    hide W.WalkVma;
    assert ([Interval(start, stop)] + after)[1..] == after;
  }

  lemma {:induction false} ThenAssoc(a: TaskWalk, b: TaskWalk, c: TaskWalk)
    ensures Then(a, Then(b, c)) == Then(Then(a, b), c)
  {
    if a.ok && b.ok {
      assert a.handed + (b.handed + c.handed) == (a.handed + b.handed) + c.handed;
      assert a.calls + (b.calls + c.calls) == (a.calls + b.calls) + c.calls;
    }
  }
}
