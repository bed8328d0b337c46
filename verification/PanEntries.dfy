/** Whole runs of the scheduler and the zoo file's entries, each with its texts: from the start of main on the used lines are
    exactly the other programs' entries, pan's own, and one for each running and each orphaned group. */
module PanEntries {
  import opened Counting
  import opened PanModel
  import opened PanInvariant
  import opened PanTexts
  import Decimal
  import Orphans
  import Zoo
  import ZooSlots

  // ------------------------------------------------------------- start of main

  /** Whether the pids that main marks and clears again have no entry, nor pan's own. */
  predicate Apart(cfg: Config, foreign: Sheet) {
    cfg.pid !in foreign && forall p :: 0 <= p < cfg.keepActive ==> p !in foreign && p != cfg.pid
  }

  function Spaced(cfg: Config, n: nat, m: Sheet): Sheet {
    if n == 0 then m else Spaced(cfg, n - 1, m)[n - 1 := ZooSlots.Used(n - 1, cfg.panname, "")]
  }

  lemma {:induction false} SpacedElsewhere(cfg: Config, n: nat, m: Sheet, p: int)
    requires !(0 <= p < n)
    ensures (p in Spaced(cfg, n, m) <==> p in m) && (p in m ==> Spaced(cfg, n, m)[p] == m[p])
  {
    if n > 0 { SpacedElsewhere(cfg, n - 1, m, p); }
  }

  lemma {:induction false} SpacesIn(lo: nat, hi: nat, p: int)
    ensures p in Spaces(lo, hi) <==> lo <= p < hi
  {
    if lo < hi { SpacesIn(lo, hi - 1, p); }
  }

  lemma {:induction false} MarkSpacesTells(cfg: Config, n: nat, file: string, live: multiset<int>, m: Sheet)
    requires WellFormed(cfg) && n <= cfg.keepActive && Zoo.Holds(file, live) && Tells(file, m)
    requires forall p :: 0 <= p < n ==> p !in live
    ensures Tells(MarkSpaces(cfg, n, file), Spaced(cfg, n, m))
  {
    hide Zoo.Holds, Zoo.ApplyBytes, Tells, WellFormed, Zoo.OkOp;
    if n > 0 {
      SpaceOp(cfg, n - 1);
      MarkSpacesTells(cfg, n - 1, file, live, m);
      MarkSpacesHolds(cfg, n - 1, file, live);
      SpacesIn(0, n - 1, n - 1);
      TellsMark(MarkSpaces(cfg, n - 1, file), live + Spaces(0, n - 1), Spaced(cfg, n - 1, m), Zoo.Mark(n - 1, cfg.panname, ""));
    }
  }

  lemma {:induction false} ClearSpacesTells(cfg: Config, n: nat, file: string, m: Sheet)
    requires WellFormed(cfg) && n <= cfg.keepActive && Tells(file, m)
    ensures Tells(ClearSpaces(n, file), m)
  {
    hide Zoo.ApplyBytes, Tells, WellFormed, Zoo.OkOp;
    if n > 0 {
      SpaceOp(cfg, n - 1);
      ClearSpacesTells(cfg, n - 1, file, m);
      TellsClear(ClearSpaces(n - 1, file), m, Zoo.Clear(n - 1));
    }
  }

  lemma {:induction false} InitLive(cfg: Config, starts: int, forkInRoad: bool, file: string, others: multiset<int>)
    requires WellFormed(cfg)
    ensures Live(cfg, Init(cfg, starts, forkInRoad, file, others)) == others + multiset{cfg.pid}
  {
    hide MarkSpaces, ClearSpaces, Zoo.ApplyBytes, SpacesMissed;
    var s := Init(cfg, starts, forkInRoad, file, others);
    NoGroups(Pgrps(s.running));
    NoGroups(s.orphans);
  }

  lemma {:induction false} InitTells(cfg: Config, starts: int, forkInRoad: bool, file: string, foreign: Sheet)
    requires WellFormed(cfg) && Apart(cfg, foreign) && Zoo.Holds(file, multiset(foreign.Keys)) && Tells(file, foreign)
    ensures Tells(Init(cfg, starts, forkInRoad, file, multiset(foreign.Keys)).zoo,
                  Spaced(cfg, cfg.keepActive, foreign[cfg.pid := ZooSlots.Used(cfg.pid, cfg.panname, cfg.args)]))
  {
    var others, n := multiset(foreign.Keys), cfg.keepActive;
    var op := Zoo.Mark(cfg.pid, cfg.panname, cfg.args);
    var m := foreign[cfg.pid := ZooSlots.Used(cfg.pid, cfg.panname, cfg.args)];
    assert Zoo.OkOp(op);
    hide Zoo.Holds, Zoo.ApplyBytes, Tells, WellFormed, Zoo.OkOp, MarkSpaces, ClearSpaces, SpacesMissed, Spaced;
    var marked := Zoo.ApplyBytes(file, op);
    TellsMark(file, others, foreign, op);
    Zoo.ApplyHolds(file, others, op);
    MarkSpacesTells(cfg, n, marked, others + multiset{cfg.pid}, m);
    ClearSpacesTells(cfg, n, MarkSpaces(cfg, n, marked), Spaced(cfg, n, m));
  }

  lemma {:induction false} InitBooked(cfg: Config, starts: int, forkInRoad: bool, file: string, foreign: Sheet)
    requires WellFormed(cfg) && forall p :: p in foreign ==> foreign[p].Used? && foreign[p].pid == p
    ensures Booked(cfg, Init(cfg, starts, forkInRoad, file, multiset(foreign.Keys)), Book(map[], foreign))
  {
    hide MarkSpaces, ClearSpaces, Zoo.ApplyBytes, SpacesMissed;
  }

  lemma {:induction false} InitTexts(cfg: Config, starts: int, forkInRoad: bool, file: string, foreign: Sheet)
    requires WellFormed(cfg) && Apart(cfg, foreign) && Zoo.Holds(file, multiset(foreign.Keys)) && Tells(file, foreign)
    requires forall p :: p in foreign ==> foreign[p].Used? && foreign[p].pid == p
    ensures TextInv(cfg, Init(cfg, starts, forkInRoad, file, multiset(foreign.Keys)), Book(map[], foreign))
  {
    var s, b := Init(cfg, starts, forkInRoad, file, multiset(foreign.Keys)), Book(map[], foreign);
    var m := foreign[cfg.pid := ZooSlots.Used(cfg.pid, cfg.panname, cfg.args)];
    assert s.phase.Scheduling?;
    hide Zoo.Holds, Tells, WellFormed, Init, Booked, Inv, Live, Spaced, SheetOf;
    InitInv(cfg, starts, forkInRoad, file, multiset(foreign.Keys));
    InitLive(cfg, starts, forkInRoad, file, multiset(foreign.Keys));
    InitTells(cfg, starts, forkInRoad, file, foreign);
    InitBooked(cfg, starts, forkInRoad, file, foreign);
    forall p | p in Live(cfg, s) && p in Spaced(cfg, cfg.keepActive, m)
      ensures Spaced(cfg, cfg.keepActive, m)[p] == EntryOf(cfg, s, b, p)
    {
      SpacedElsewhere(cfg, cfg.keepActive, m, p);
    }
    Rebase(cfg, s, b, Spaced(cfg, cfg.keepActive, m));
  }

  // ------------------------------------------------------------------ whole runs

  ghost predicate FreshRun(cfg: Config, s: Pan, events: seq<Event>)
    requires Runs(cfg, s, events)
    decreases |events|
  {
    events == [] || (Fresh(cfg, s, events[0]) && FreshRun(cfg, Next(cfg, s, events[0]), events[1..]))
  }

  ghost function BookAfter(cfg: Config, s: Pan, b: Book, events: seq<Event>): Book
    requires Runs(cfg, s, events)
    decreases |events|
  {
    if events == [] then b else BookAfter(cfg, Next(cfg, s, events[0]), NextBook(cfg, s, b, events[0]), events[1..])
  }

  lemma {:induction false} RunTexts(cfg: Config, s: Pan, b: Book, events: seq<Event>)
    requires TextInv(cfg, s, b) && Runs(cfg, s, events) && FreshRun(cfg, s, events)
    ensures TextInv(cfg, After(cfg, s, events), BookAfter(cfg, s, b, events))
    decreases |events|
  {
    hide TextInv, Next, NextBook, Enabled, Fresh;
    if events != [] {
      StepTexts(cfg, s, b, events[0]);
      RunTexts(cfg, Next(cfg, s, events[0]), NextBook(cfg, s, b, events[0]), events[1..]);
    }
  }

  predicate OncePerPid(slots: seq<ZooSlots.Slot>) {
    forall i, j :: 0 <= i < j < |slots| && slots[i].Used? && slots[j].Used? ==> slots[i].pid != slots[j].pid
  }

  lemma {:induction false} TwoLive(lines: seq<string>, slots: seq<ZooSlots.Slot>, i: nat, j: nat)
    requires ZooSlots.ShowsAll(lines, slots) && Zoo.AllLines(lines)
    requires i < j < |slots| && slots[i].Used? && slots[j].Used? && slots[i].pid == slots[j].pid
    ensures Zoo.Live(lines)[slots[i].pid] >= 2
  {
    hide Zoo.IsLine, ZooSlots.Shows, Zoo.Free, Zoo.Live, Zoo.FirstOf;
    ZooSlots.ShownLines(lines, slots);
    OneFreed(lines, i);
    var pid := slots[i].pid;
    var after := lines[i := Zoo.Freed(lines[i])];
    Zoo.LiveIn(after, pid);
    assert after[j] == lines[j] && Zoo.Carries(lines[j], pid);
  }

  lemma {:induction false} OneFreed(lines: seq<string>, i: nat)
    requires Zoo.AllLines(lines) && i < |lines| && !Zoo.Free(lines[i])
    ensures var after := lines[i := Zoo.Freed(lines[i])];
      && Zoo.AllLines(after) && Zoo.Live(after) + multiset{Decimal.Atoi(lines[i])} == Zoo.Live(lines)
  {
    hide Zoo.Live;
    Zoo.LiveUpdate(lines, i, Zoo.Freed(lines[i]));
  }

  /** A used line is once for each live pid, and says what the sheet does. */
  lemma {:induction false} ExactSlots(file: string, live: multiset<int>, m: Sheet) returns (lines: seq<string>, slots: seq<ZooSlots.Slot>)
    requires Zoo.Holds(file, live) && Distinct(live) && Tells(file, m)
    requires forall p :: p in live ==> p in m
    ensures ZooSlots.ShowsAll(lines, slots) && file == Zoo.Flatten(lines) && OncePerPid(slots)
    ensures forall x: ZooSlots.Slot :: x.Used? ==> (x in slots <==> x.pid in live && x == m[x.pid])
  {
    hide ZooSlots.ShowsAll, Zoo.Flatten, Zoo.AllLines, Zoo.Live;
    lines, slots :| ZooSlots.ShowsAll(lines, slots) && file == Zoo.Flatten(lines) && OnSheet(slots, m);
    var held: seq<string> :| Zoo.AllLines(held) && file == Zoo.Flatten(held) && Zoo.Live(held) == live;
    ZooSlots.ShownLines(lines, slots);
    SameLines(held, lines);
    forall i, j | 0 <= i < j < |slots| && slots[i].Used? && slots[j].Used? ensures slots[i].pid != slots[j].pid {
      if slots[i].pid == slots[j].pid {
        TwoLive(lines, slots, i, j);
        assert false;
      }
    }
    forall x: ZooSlots.Slot | x.Used? ensures x in slots <==> x.pid in live && x == m[x.pid] {
      UsedIsLive(file, live, lines, slots, x.pid);
    }
  }

  /** The entry of another program, pan's own, that of a running slot, or that of an orphaned group. */
  predicate Entered(cfg: Config, s: Pan, b: Book, x: ZooSlots.Slot)
    requires Shape(cfg, s)
  {
    || (x.Used? && x.pid in b.foreign && x == b.foreign[x.pid])
    || (!s.phase.Over? && x == ZooSlots.Used(cfg.pid, cfg.panname, cfg.args))
    || (exists i :: 0 <= i < |s.running| && RunningEntry(cfg, s.running[i], x))
    || (exists i :: 0 <= i < |s.orphans| && OrphanEntry(cfg, b, s.orphans[i], x))
  }

  predicate RunningEntry(cfg: Config, slot: Slot, x: ZooSlots.Slot)
    requires slot.cmd < |cfg.coll|
  {
    slot.pgrp != 0 && x == ZooSlots.Used(slot.pgrp, cfg.coll[slot.cmd].name, cfg.coll[slot.cmd].cmdline)
  }

  predicate OrphanEntry(cfg: Config, b: Book, p: int, x: ZooSlots.Slot) {
    p != 0 && p in b.cmds && b.cmds[p] < |cfg.coll| && x == ZooSlots.Used(p, "panorphan", cfg.coll[b.cmds[p]].cmdline)
  }

  /** No pid is on two of the four lists. */
  lemma {:induction false} OnOneList(cfg: Config, s: Pan, b: Book, p: int)
    requires Booked(cfg, s, b) && Distinct(Live(cfg, s)) && WellFormed(cfg)
    ensures p in b.foreign ==> !(p == cfg.pid && !s.phase.Over?) && !(p != 0 && (p in Pgrps(s.running) || p in s.orphans))
    ensures p == cfg.pid && !s.phase.Over? ==> p !in Pgrps(s.running) && p !in s.orphans
    ensures p != 0 && p in Pgrps(s.running) ==> p !in s.orphans
    ensures p in Live(cfg, s) <==>
      p in b.foreign || (p == cfg.pid && !s.phase.Over?) || (p != 0 && (p in Pgrps(s.running) || p in s.orphans))
  {
    assert p in multiset(Pgrps(s.running)) <==> p in Pgrps(s.running);
    assert p in multiset(s.orphans) <==> p in s.orphans;
    assert Live(cfg, s)[p] <= 1;
  }

  lemma {:induction false} OfRunning(cfg: Config, s: Pan, b: Book, x: ZooSlots.Slot)
    requires WellFormed(cfg) && Shape(cfg, s) && Booked(cfg, s, b)
    ensures (exists i :: 0 <= i < |s.running| && RunningEntry(cfg, s.running[i], x))
       <==> x.Used? && x.pid != 0 && x.pid in Pgrps(s.running)
            && x == ZooSlots.Used(x.pid, CommandOf(cfg, b, x.pid).name, CommandOf(cfg, b, x.pid).cmdline)
  {
    hide WellFormed;
    assert forall i :: 0 <= i < |s.running| ==> Pgrps(s.running)[i] == s.running[i].pgrp;
  }

  lemma {:induction false} OfOrphan(cfg: Config, s: Pan, b: Book, x: ZooSlots.Slot)
    requires WellFormed(cfg) && Shape(cfg, s) && Booked(cfg, s, b)
    ensures (exists i :: 0 <= i < |s.orphans| && OrphanEntry(cfg, b, s.orphans[i], x))
       <==> x.Used? && x.pid != 0 && x.pid in s.orphans && x == ZooSlots.Used(x.pid, "panorphan", CommandOf(cfg, b, x.pid).cmdline)
  {
    hide WellFormed;
  }

  lemma {:induction false} EnteredIs(cfg: Config, s: Pan, b: Book, x: ZooSlots.Slot)
    requires WellFormed(cfg) && Shape(cfg, s) && Booked(cfg, s, b) && Distinct(Live(cfg, s)) && x.Used?
    ensures x.pid in Live(cfg, s) && x == EntryOf(cfg, s, b, x.pid) <==> Entered(cfg, s, b, x)
  {
    OnOneList(cfg, s, b, x.pid);
    OfRunning(cfg, s, b, x);
    OfOrphan(cfg, s, b, x);
    hide Live, Distinct, WellFormed, RunningEntry, OrphanEntry, CommandOf, Pgrps, Booked, Shape;
  }

  /** In every reachable state the zoo file is a list of free lines and of lines printed for an entry: the used ones are
      those four kinds of entries and no others, each of them once. When pan has left, only the other programs' are there. */
  lemma {:induction false} EntriesExactly(cfg: Config, starts: int, forkInRoad: bool, file: string, foreign: Sheet, events: seq<Event>)
      returns (lines: seq<string>, slots: seq<ZooSlots.Slot>)
    requires WellFormed(cfg) && Apart(cfg, foreign) && Zoo.Holds(file, multiset(foreign.Keys)) && Tells(file, foreign)
    requires forall p :: p in foreign ==> foreign[p].Used? && foreign[p].pid == p
    requires Runs(cfg, Init(cfg, starts, forkInRoad, file, multiset(foreign.Keys)), events)
    requires FreshRun(cfg, Init(cfg, starts, forkInRoad, file, multiset(foreign.Keys)), events)
    ensures var s0 := Init(cfg, starts, forkInRoad, file, multiset(foreign.Keys));
      var s, b := After(cfg, s0, events), BookAfter(cfg, s0, Book(map[], foreign), events);
      && ZooSlots.ShowsAll(lines, slots) && s.zoo == Zoo.Flatten(lines) && OncePerPid(slots) && Shape(cfg, s)
      && (forall x: ZooSlots.Slot :: x.Used? ==> (x in slots <==> Entered(cfg, s, b, x)))
      && (s.phase.Over? ==> forall x: ZooSlots.Slot :: x.Used? ==> (x in slots <==> x.pid in b.foreign && x == b.foreign[x.pid]))
  {
    var s0 := Init(cfg, starts, forkInRoad, file, multiset(foreign.Keys));
    InitTexts(cfg, starts, forkInRoad, file, foreign);
    RunTexts(cfg, s0, Book(map[], foreign), events);
    lines, slots := StateEntries(cfg, After(cfg, s0, events), BookAfter(cfg, s0, Book(map[], foreign), events));
  }

  lemma {:induction false} StateEntries(cfg: Config, s: Pan, b: Book) returns (lines: seq<string>, slots: seq<ZooSlots.Slot>)
    requires TextInv(cfg, s, b)
    ensures ZooSlots.ShowsAll(lines, slots) && s.zoo == Zoo.Flatten(lines) && OncePerPid(slots) && Shape(cfg, s)
    ensures forall x: ZooSlots.Slot :: x.Used? ==> (x in slots <==> Entered(cfg, s, b, x))
    ensures s.phase.Over? ==> forall x: ZooSlots.Slot :: x.Used? ==> (x in slots <==> x.pid in b.foreign && x == b.foreign[x.pid])
  {
    Known(cfg, s);
    lines, slots := ExactSlots(s.zoo, Live(cfg, s), SheetOf(cfg, s, b));
    forall x: ZooSlots.Slot | x.Used? ensures x in slots <==> Entered(cfg, s, b, x) { EnteredIs(cfg, s, b, x); }
    if s.phase.Over? { OnlyForeign(cfg, s, b); }
  }

  lemma {:induction false} OnlyForeign(cfg: Config, s: Pan, b: Book)
    requires Inv(cfg, s) && s.phase.Over?
    ensures forall x: ZooSlots.Slot :: x.Used? ==> (Entered(cfg, s, b, x) <==> x.pid in b.foreign && x == b.foreign[x.pid])
  {
    CountZero(s.running, InUse);
    assert forall i :: 0 <= i < |s.running| ==> !InUse(s.running[i]);
  }
}
