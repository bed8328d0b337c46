/** The zoo file under the scheduler, entry by entry: if no pid is given out that still has an entry, the used lines are
    always the other programs' entries together with pan's own, one for each running and one for each orphaned group, each
    with the texts that pan_mark, run_child and mark_orphan gave it. */
module PanTexts {
  import opened Signals
  import opened PanModel
  import opened PanInvariant
  import Decimal
  import Orphans
  import Zoo
  import ZooSlots

  /** The entry of each pid. */
  type Sheet = map<int, ZooSlots.Slot>

  // ------------------------------------------------------------- a file and a sheet

  /** Every used slot is the entry that the sheet has for its pid. */
  predicate OnSheet(slots: seq<ZooSlots.Slot>, m: Sheet) {
    forall i :: 0 <= i < |slots| && slots[i].Used? ==> slots[i].pid in m && m[slots[i].pid] == slots[i]
  }

  ghost predicate Tells(file: string, m: Sheet) {
    exists lines: seq<string>, slots: seq<ZooSlots.Slot> ::
      ZooSlots.ShowsAll(lines, slots) && file == Zoo.Flatten(lines) && OnSheet(slots, m)
  }

  lemma {:induction false} SameLines(a: seq<string>, b: seq<string>)
    requires Zoo.AllLines(a) && Zoo.AllLines(b) && Zoo.Flatten(a) == Zoo.Flatten(b)
    ensures a == b
  {
    Zoo.FlattenSize(a);
    Zoo.FlattenSize(b);
    if a != [] {
      var whole := Zoo.Flatten(a);
      assert a[0] == whole[..Zoo.LINE] == b[0];
      assert Zoo.Flatten(a[1..]) == whole[Zoo.LINE..] == Zoo.Flatten(b[1..]);
      SameLines(a[1..], b[1..]);
    }
  }

  /** The live pids of a file are those of its used slots. */
  lemma {:induction false} UsedIsLive(file: string, live: multiset<int>, lines: seq<string>, slots: seq<ZooSlots.Slot>, pid: int)
    requires Zoo.Holds(file, live) && ZooSlots.ShowsAll(lines, slots) && file == Zoo.Flatten(lines)
    ensures pid in live <==> exists i :: 0 <= i < |slots| && slots[i].Used? && slots[i].pid == pid
  {
    hide Zoo.Flatten, Zoo.IsLine, ZooSlots.Shows, Zoo.Free, Zoo.Carries;
    var held: seq<string> :| Zoo.AllLines(held) && file == Zoo.Flatten(held) && Zoo.Live(held) == live;
    ZooSlots.ShownLines(lines, slots);
    SameLines(held, lines);
    Zoo.LiveIn(lines, pid);
    ZooSlots.SameFirstOf(lines, slots, pid);
  }

  lemma {:induction false} TellsMark(file: string, live: multiset<int>, m: Sheet, op: Zoo.Op)
    requires Zoo.Holds(file, live) && Tells(file, m) && Zoo.OkOp(op) && op.Mark? && op.pid !in live
    ensures Tells(Zoo.ApplyBytes(file, op), m[op.pid := ZooSlots.Used(op.pid, op.tag, op.cmdline)])
  {
    hide Zoo.Holds, Zoo.ApplyBytes, Zoo.Flatten, ZooSlots.ShowsAll;
    var lines: seq<string>, slots: seq<ZooSlots.Slot> :|
      ZooSlots.ShowsAll(lines, slots) && file == Zoo.Flatten(lines) && OnSheet(slots, m);
    var after := ZooSlots.ApplyShows(lines, slots, op);
    UsedIsLive(file, live, lines, slots, op.pid);
  }

  lemma {:induction false} TellsClear(file: string, m: Sheet, op: Zoo.Op)
    requires Tells(file, m) && Zoo.OkOp(op) && op.Clear?
    ensures Tells(Zoo.ApplyBytes(file, op), m)
  {
    hide Zoo.ApplyBytes, Zoo.Flatten, ZooSlots.ShowsAll;
    var lines: seq<string>, slots: seq<ZooSlots.Slot> :|
      ZooSlots.ShowsAll(lines, slots) && file == Zoo.Flatten(lines) && OnSheet(slots, m);
    var after := ZooSlots.ApplyShows(lines, slots, op);
  }

  /** Only the entries of live pids matter. */
  lemma {:induction false} TellsLive(file: string, live: multiset<int>, m: Sheet, n: Sheet)
    requires Zoo.Holds(file, live) && Tells(file, m)
    requires forall p :: p in live && p in m ==> p in n && n[p] == m[p]
    ensures Tells(file, n)
  {
    hide Zoo.Holds, Zoo.Flatten, ZooSlots.ShowsAll;
    var lines: seq<string>, slots: seq<ZooSlots.Slot> :|
      ZooSlots.ShowsAll(lines, slots) && file == Zoo.Flatten(lines) && OnSheet(slots, m);
    forall i | 0 <= i < |slots| && slots[i].Used? ensures slots[i].pid in n && n[slots[i].pid] == slots[i] {
      UsedIsLive(file, live, lines, slots, slots[i].pid);
    }
  }

  // ------------------------------------------------------------- the sheet of a state

  /** What the state alone does not tell: the command that each group was started with, and what other programs wrote. */
  datatype Book = Book(cmds: map<int, nat>, foreign: Sheet)

  function NextBook(cfg: Config, s: Pan, b: Book, e: Event): Book
    requires WellFormed(cfg)
  {
    match e
    case Attempt(choice, Started(pid)) => b.(cmds := b.cmds[pid := if cfg.sequential then s.c else choice % |cfg.coll|])
    case Foreign(op) => Write(b, op)
    case _ => b
  }

  function Write(b: Book, op: Zoo.Op): Book {
    match op
    case Mark(pid, tag, cmdline) => b.(foreign := b.foreign[pid := ZooSlots.Used(pid, tag, cmdline)])
    case Clear(pid) => b.(foreign := b.foreign - {pid})
  }

  /** The pids that have an entry. */
  function Live(cfg: Config, s: Pan): multiset<int> { s.others + Own(cfg, s) }

  /** No pid is given out that still has an entry. */
  predicate Fresh(cfg: Config, s: Pan, e: Event) {
    match e
    case Attempt(_, Started(pid)) => pid !in Live(cfg, s)
    case Foreign(Mark(pid, _, _)) => pid !in Live(cfg, s)
    case _ => true
  }

  function CommandOf(cfg: Config, b: Book, p: int): Command
    requires WellFormed(cfg)
  {
    cfg.coll[if p in b.cmds && b.cmds[p] < |cfg.coll| then b.cmds[p] else 0]
  }

  /** The entry that a pid should have: that of the other program, pan's own, "name,cmdline" of the command while the group
      is running, and "panorphan,cmdline" when it is orphaned. */
  function EntryOf(cfg: Config, s: Pan, b: Book, p: int): ZooSlots.Slot
    requires WellFormed(cfg)
  {
    if p in b.foreign then b.foreign[p]
    else if p == cfg.pid && !s.phase.Over? then ZooSlots.Used(p, cfg.panname, cfg.args)
    else if p in Pgrps(s.running) then ZooSlots.Used(p, CommandOf(cfg, b, p).name, CommandOf(cfg, b, p).cmdline)
    else ZooSlots.Used(p, "panorphan", CommandOf(cfg, b, p).cmdline)
  }

  ghost function SheetOf(cfg: Config, s: Pan, b: Book): Sheet
    requires WellFormed(cfg)
  {
    map p | p in Live(cfg, s) :: EntryOf(cfg, s, b, p)
  }

  /** The book knows the other programs' entries, and the command of every group that pan tracks. */
  ghost predicate Booked(cfg: Config, s: Pan, b: Book) {
    && (forall p :: p in b.foreign <==> p in s.others)
    && (forall p :: p in b.foreign ==> b.foreign[p].Used? && b.foreign[p].pid == p)
    && (forall i :: 0 <= i < |s.running| && s.running[i].pgrp != 0 ==>
          s.running[i].pgrp in b.cmds && b.cmds[s.running[i].pgrp] == s.running[i].cmd)
    && (forall i :: 0 <= i < |s.orphans| && s.orphans[i] != 0 ==> s.orphans[i] in b.cmds && b.cmds[s.orphans[i]] < |cfg.coll|)
  }

  ghost predicate Distinct(live: multiset<int>) {
    forall p: int :: live[p] <= 1
  }

  ghost predicate TextInv(cfg: Config, s: Pan, b: Book) {
    Inv(cfg, s) && Booked(cfg, s, b) && Distinct(Live(cfg, s)) && Tells(s.zoo, SheetOf(cfg, s, b))
  }

  lemma {:induction false} OwnPositive(cfg: Config, s: Pan, p: int)
    requires WellFormed(cfg) && Shape(cfg, s) && p in Own(cfg, s)
    ensures p > 0
    ensures (p == cfg.pid && !s.phase.Over?) || p in Pgrps(s.running) || p in s.orphans
  {
    assert p in multiset(Pgrps(s.running)) <==> p in Pgrps(s.running);
    assert p in multiset(s.orphans) <==> p in s.orphans;
    if p in Pgrps(s.running) {
      var k :| 0 <= k < |s.running| && Pgrps(s.running)[k] == p;
      assert s.running[k].pgrp == p;
    }
  }

  lemma {:induction false} Known(cfg: Config, s: Pan)
    requires Inv(cfg, s)
    ensures WellFormed(cfg) && Shape(cfg, s) && Zoo.Holds(s.zoo, Live(cfg, s))
  {
  }

  lemma {:induction false} OnTheSheet(cfg: Config, s: Pan, b: Book, p: int)
    requires WellFormed(cfg)
    ensures p in SheetOf(cfg, s, b) <==> p in Live(cfg, s)
    ensures p in Live(cfg, s) ==> SheetOf(cfg, s, b)[p] == EntryOf(cfg, s, b, p)
  {
  }

  /** A file that tells a sheet also tells that of the state, if the two agree on the live pids. */
  lemma {:induction false} Rebase(cfg: Config, s: Pan, b: Book, m: Sheet)
    requires Inv(cfg, s) && Tells(s.zoo, m)
    requires forall p :: p in Live(cfg, s) && p in m ==> m[p] == EntryOf(cfg, s, b, p)
    ensures Tells(s.zoo, SheetOf(cfg, s, b))
  {
    hide Tells, EntryOf, Live, Inv;
    Known(cfg, s);
    TellsLive(s.zoo, Live(cfg, s), m, SheetOf(cfg, s, b));
  }

  lemma {:induction false} CheckZooTells(list: seq<int>, dead: set<int>, file: string, m: Sheet)
    requires Tells(file, m) && forall i :: 0 <= i < |list| ==> 0 <= list[i] < MAX_PID
    ensures Tells(Orphans.CheckZoo(list, dead, file), m)
    decreases |list|
  {
    hide Tells, Zoo.ApplyBytes;
    if list != [] {
      TellsClear(file, m, Zoo.Clear(list[0]));
      CheckZooTells(list[1..], dead, Orphans.CheckZooOne(list[0], dead, file), m);
    }
  }

  /** A step that at most gives up orphaned groups. */
  predicate GivesUp(s: Pan, t: Pan) {
    && t.others == s.others && t.phase.Over? == s.phase.Over? && |t.running| == |s.running|
    && (forall i :: 0 <= i < |s.running| ==> t.running[i].pgrp == s.running[i].pgrp && t.running[i].cmd == s.running[i].cmd)
    && |t.orphans| == |s.orphans|
    && (forall i :: 0 <= i < |s.orphans| ==> t.orphans[i] == s.orphans[i] || t.orphans[i] == 0)
  }

  lemma {:induction false} FewerGroups(a: seq<int>, b: seq<int>)
    requires |a| == |b| && forall i :: 0 <= i < |a| ==> b[i] == a[i] || b[i] == 0
    ensures Orphans.Groups(b) <= Orphans.Groups(a)
  {
    hide Orphans.Groups;
    if a == [] {
      assert b == [];
    } else {
      Orphans.GroupsHead(a);
      Orphans.GroupsHead(b);
      Orphans.GroupsOne(a[0]);
      Orphans.GroupsOne(b[0]);
      FewerGroups(a[1..], b[1..]);
    }
  }

  lemma {:induction false} FewerLive(cfg: Config, s: Pan, t: Pan)
    requires GivesUp(s, t)
    ensures Pgrps(t.running) == Pgrps(s.running) && Live(cfg, t) <= Live(cfg, s)
  {
    hide Orphans.Groups;
    FewerGroups(s.orphans, t.orphans);
  }

  lemma {:induction false} BookedStill(cfg: Config, s: Pan, t: Pan, b: Book)
    requires Booked(cfg, s, b) && GivesUp(s, t)
    ensures Booked(cfg, t, b)
  {
  }

  lemma {:induction false} StillDistinct(a: multiset<int>, b: multiset<int>)
    requires Distinct(a) && b <= a
    ensures Distinct(b)
  {
  }

  lemma {:induction false} GivingUpKeeps(cfg: Config, s: Pan, t: Pan, b: Book)
    requires TextInv(cfg, s, b) && Inv(cfg, t) && GivesUp(s, t) && Tells(t.zoo, SheetOf(cfg, s, b))
    ensures TextInv(cfg, t, b)
  {
    hide Tells, Inv, Live, Booked, Distinct;
    Known(cfg, t);
    FewerLive(cfg, s, t);
    BookedStill(cfg, s, t, b);
    StillDistinct(Live(cfg, s), Live(cfg, t));
    Rebase(cfg, t, b, SheetOf(cfg, s, b));
  }

  // ------------------------------------------------------------- the events

  lemma {:induction false} PropagateGivesUp(s: Pan, dead: set<int>)
    ensures var t := Propagate(s, dead); GivesUp(s, t) && t.phase == s.phase && t.zoo == Orphans.CheckZoo(s.orphans, dead, s.zoo)
  {
    hide Orphans.CheckZoo;
  }

  /** Nothing that the entries depend on has changed. */
  predicate SameTables(s: Pan, t: Pan) {
    && t.others == s.others && t.running == s.running && t.orphans == s.orphans && t.zoo == s.zoo
    && t.phase.Over? == s.phase.Over?
  }

  lemma {:induction false} StopKeepsTables(s: Pan, stopFile: bool)
    ensures SameTables(s, StopCheck(s, stopFile)) && SameTables(s, StopOrIdle(s))
    ensures StopCheck(s, stopFile).phase == s.phase && StopOrIdle(s).phase == s.phase
  {
  }

  lemma {:induction false} SettleGivesUp(cfg: Config, s: Pan, stopFile: bool, dead: set<int>)
    requires WellFormed(cfg) && Shape(cfg, s) && s.phase.Scheduling?
    ensures var t := Next(cfg, s, Settle(stopFile, dead));
      GivesUp(s, t) && (t.zoo == s.zoo || t.zoo == Orphans.CheckZoo(s.orphans, dead, s.zoo))
  {
    hide WaitHandler, Orphans.CheckZoo, Propagate, StopCheck, StopOrIdle, WellFormed, Shape;
    var u := StopCheck(s, stopFile);
    var v := if u.ratchet.received == SIGUSR1 then u.(forkInRoad := false) else u;
    StopKeepsTables(s, stopFile);
    StopKeepsTables(u, false);
    PropagateGivesUp(v, dead);
    StopKeepsTables(Propagate(v, dead), false);
  }

  lemma {:induction false} DrainGivesUp(cfg: Config, s: Pan, dead: set<int>)
    requires WellFormed(cfg) && Shape(cfg, s) && s.phase.Draining?
    ensures var t := Next(cfg, s, Drain(dead));
      GivesUp(s, t) && t.zoo == Orphans.CheckZoo(s.orphans, dead, s.zoo)
  {
    hide WaitHandler, Orphans.CheckZoo;
  }

  lemma {:induction false} CheckGivesUp(s: Pan, dead: set<int>)
    ensures GivesUp(s, CheckOrphans(s, dead, 0))
  {
  }

  lemma {:induction false} AfterCheckGivesUp(cfg: Config, s: Pan, err: int)
    requires s.phase.Reaping?
    ensures GivesUp(s, AfterCheck(cfg, s, err)) && AfterCheck(cfg, s, err).zoo == s.zoo
  {
    hide WaitHandler;
  }

  lemma {:induction false} InUpdate(list: seq<int>, i: nat, x: int, p: int)
    requires i < |list| && p != x && p != list[i]
    ensures p in list[i := x] <==> p in list
  {
    if p in list {
      var k :| 0 <= k < |list| && list[k] == p;
      assert list[i := x][k] == p;
    }
    if p in list[i := x] {
      var k :| 0 <= k < |list| && list[i := x][k] == p;
      assert list[k] == p;
    }
  }

  /** Slot i has been given to a child with command c. */
  predicate Starts(cfg: Config, s: Pan, t: Pan, i: nat, pid: int, c: nat) {
    && i < |s.running| && s.running[i].pgrp == 0 && c < |cfg.coll| && pid > 0
    && t.running == s.running[i := Slot(pid, false, c)]
    && t.orphans == s.orphans && t.others == s.others && t.phase == s.phase
    && t.zoo == Zoo.ApplyBytes(s.zoo, Zoo.Mark(pid, cfg.coll[c].name, cfg.coll[c].cmdline))
  }

  lemma {:induction false} StartsLive(cfg: Config, s: Pan, t: Pan, i: nat, pid: int, c: nat)
    requires Starts(cfg, s, t, i, pid, c)
    ensures Pgrps(t.running) == Pgrps(s.running)[i := pid] && Live(cfg, t) == Live(cfg, s) + multiset{pid}
  {
    hide Orphans.Groups, Zoo.ApplyBytes;
    PgrpsUpdate(s.running, i, Slot(pid, false, c));
    Orphans.GroupsUpdate(Pgrps(s.running), i, pid);
  }

  lemma {:induction false} StartsBooked(cfg: Config, s: Pan, t: Pan, b: Book, i: nat, pid: int, c: nat)
    requires Booked(cfg, s, b) && Starts(cfg, s, t, i, pid, c)
    requires pid !in Pgrps(s.running) && pid !in s.orphans
    ensures Booked(cfg, t, b.(cmds := b.cmds[pid := c]))
  {
    hide Zoo.ApplyBytes;
    assert forall k :: 0 <= k < |s.running| ==> Pgrps(s.running)[k] == s.running[k].pgrp;
  }

  lemma {:induction false} StartsEntry(cfg: Config, s: Pan, t: Pan, b: Book, i: nat, pid: int, c: nat, p: int)
    requires WellFormed(cfg) && Starts(cfg, s, t, i, pid, c) && pid !in b.foreign && (pid == cfg.pid ==> s.phase.Over?)
    requires p in b.foreign || p > 0
    ensures EntryOf(cfg, t, b.(cmds := b.cmds[pid := c]), p)
         == if p == pid then ZooSlots.Used(pid, cfg.coll[c].name, cfg.coll[c].cmdline) else EntryOf(cfg, s, b, p)
  {
    hide Zoo.ApplyBytes;
    PgrpsUpdate(s.running, i, Slot(pid, false, c));
    assert Pgrps(t.running)[i] == pid;
    if p != pid && p > 0 { InUpdate(Pgrps(s.running), i, pid, p); }
  }

  lemma {:induction false} NotLive(cfg: Config, s: Pan, b: Book, pid: int)
    requires Booked(cfg, s, b) && pid > 0 && pid !in Live(cfg, s)
    ensures pid !in b.foreign && pid !in Pgrps(s.running) && pid !in s.orphans && (pid == cfg.pid ==> s.phase.Over?)
  {
    assert pid in multiset(Pgrps(s.running)) <==> pid in Pgrps(s.running);
    assert pid in multiset(s.orphans) <==> pid in s.orphans;
  }

  lemma {:induction false} LiveEntry(cfg: Config, s: Pan, b: Book, p: int)
    requires WellFormed(cfg) && Shape(cfg, s) && Booked(cfg, s, b) && p in Live(cfg, s)
    ensures p in b.foreign || p > 0
    ensures EntryOf(cfg, s, b, p).Used? && EntryOf(cfg, s, b, p).pid == p
  {
    if p !in b.foreign { OwnPositive(cfg, s, p); }
  }

  lemma {:induction false} StartKeeps(cfg: Config, s: Pan, t: Pan, b: Book, i: nat, pid: int, c: nat)
    requires TextInv(cfg, s, b) && Inv(cfg, t) && Starts(cfg, s, t, i, pid, c) && pid < MAX_PID && pid !in Live(cfg, s)
    ensures TextInv(cfg, t, b.(cmds := b.cmds[pid := c]))
  {
    hide Tells, Inv, Booked, Own, Shape;
    Known(cfg, s);
    Known(cfg, t);
    NotLive(cfg, s, b, pid);
    StartsLive(cfg, s, t, i, pid, c);
    StartsBooked(cfg, s, t, b, i, pid, c);
    var op := Zoo.Mark(pid, cfg.coll[c].name, cfg.coll[c].cmdline);
    TellsMark(s.zoo, Live(cfg, s), SheetOf(cfg, s, b), op);
    var m := SheetOf(cfg, s, b)[pid := ZooSlots.Used(pid, op.tag, op.cmdline)];
    forall p | p in Live(cfg, t) && p in m ensures m[p] == EntryOf(cfg, t, b.(cmds := b.cmds[pid := c]), p) {
      if p != pid { LiveEntry(cfg, s, b, p); }
      StartsEntry(cfg, s, t, b, i, pid, c, p);
    }
    Rebase(cfg, t, b.(cmds := b.cmds[pid := c]), m);
  }

  /** Slot i has been given up and its entry cleared. */
  predicate Frees(s: Pan, t: Pan, i: nat) {
    && i < |s.running| && s.running[i].pgrp > 0
    && t.running == s.running[i := s.running[i].(pgrp := 0)]
    && t.orphans == s.orphans && t.others == s.others && t.phase == s.phase
    && t.zoo == Zoo.ApplyBytes(s.zoo, Zoo.Clear(s.running[i].pgrp))
  }

  lemma {:induction false} FreesLive(cfg: Config, s: Pan, t: Pan, i: nat)
    requires Frees(s, t, i)
    ensures Pgrps(t.running) == Pgrps(s.running)[i := 0]
    ensures s.running[i].pgrp in Live(cfg, s) && Live(cfg, t) == Live(cfg, s) - multiset{s.running[i].pgrp}
  {
    hide Orphans.Groups, Zoo.ApplyBytes;
    PgrpsUpdate(s.running, i, s.running[i].(pgrp := 0));
    Orphans.GroupsUpdate(Pgrps(s.running), i, 0);
  }

  lemma {:induction false} FreesBooked(cfg: Config, s: Pan, t: Pan, b: Book, i: nat)
    requires Booked(cfg, s, b) && Frees(s, t, i)
    ensures Booked(cfg, t, b)
  {
    hide Zoo.ApplyBytes;
  }

  lemma {:induction false} FreeKeeps(cfg: Config, s: Pan, t: Pan, b: Book, i: nat)
    requires TextInv(cfg, s, b) && Inv(cfg, t) && Frees(s, t, i) && s.running[i].pgrp < MAX_PID
    ensures TextInv(cfg, t, b) && s.running[i].pgrp !in Live(cfg, t)
  {
    hide Tells, Inv, Booked, Own, Shape;
    var pid := s.running[i].pgrp;
    Known(cfg, s);
    Known(cfg, t);
    FreesLive(cfg, s, t, i);
    FreesBooked(cfg, s, t, b, i);
    assert Live(cfg, s)[pid] <= 1;
    StillDistinct(Live(cfg, s), Live(cfg, t));
    TellsClear(s.zoo, SheetOf(cfg, s, b), Zoo.Clear(pid));
    forall p | p in Live(cfg, t) ensures EntryOf(cfg, s, b, p) == EntryOf(cfg, t, b, p) {
      LiveEntry(cfg, t, b, p);
      assert Pgrps(s.running)[i] == pid;
      if p != pid && p > 0 { InUpdate(Pgrps(s.running), i, 0, p); }
    }
    Rebase(cfg, t, b, SheetOf(cfg, s, b));
  }

  /** The group of a dead child lives on and has been marked as an orphan. */
  predicate Adopts(cfg: Config, s: Pan, t: Pan, pid: int, c: nat) {
    && |s.orphans| >= 1 && pid > 0 && c < |cfg.coll|
    && t.running == s.running && t.orphans == Orphans.MarkSlot(s.orphans, pid)
    && t.others == s.others && t.phase == s.phase
    && t.zoo == Zoo.ApplyBytes(s.zoo, Zoo.Mark(pid, "panorphan", cfg.coll[c].cmdline))
  }

  lemma {:induction false} AdoptsLive(cfg: Config, s: Pan, t: Pan, pid: int, c: nat)
    requires Adopts(cfg, s, t, pid, c)
    ensures Live(cfg, t) == Live(cfg, s) + multiset{pid}
  {
    hide Orphans.Groups, Zoo.ApplyBytes;
    Orphans.MarkEffect(s.orphans, pid);
  }

  lemma {:induction false} AdoptsBooked(cfg: Config, s: Pan, t: Pan, b: Book, pid: int, c: nat)
    requires Booked(cfg, s, b) && Adopts(cfg, s, t, pid, c) && pid in b.cmds && b.cmds[pid] == c
    ensures Booked(cfg, t, b)
  {
    hide Zoo.ApplyBytes;
    forall k | 0 <= k < |t.orphans| && t.orphans[k] != 0 ensures t.orphans[k] in b.cmds && b.cmds[t.orphans[k]] < |cfg.coll| {
      assert t.orphans[k] == pid || t.orphans[k] in s.orphans;
    }
  }

  lemma {:induction false} AdoptsEntry(cfg: Config, s: Pan, t: Pan, b: Book, pid: int, c: nat, p: int)
    requires WellFormed(cfg) && Adopts(cfg, s, t, pid, c) && pid in b.cmds && b.cmds[pid] == c
    requires pid !in b.foreign && pid !in Pgrps(s.running) && (pid == cfg.pid ==> s.phase.Over?)
    ensures EntryOf(cfg, t, b, p)
         == if p == pid then ZooSlots.Used(pid, "panorphan", cfg.coll[c].cmdline) else EntryOf(cfg, s, b, p)
  {
    hide Zoo.ApplyBytes, Orphans.MarkSlot;
  }

  lemma {:induction false} MoreDistinct(live: multiset<int>, p: int)
    requires Distinct(live) && p !in live
    ensures Distinct(live + multiset{p})
  {
  }

  lemma {:induction false} MarkedText(cfg: Config, s: Pan, b: Book, op: Zoo.Op)
    requires TextInv(cfg, s, b) && Zoo.OkOp(op) && op.Mark? && op.pid !in Live(cfg, s)
    ensures Tells(Zoo.ApplyBytes(s.zoo, op), SheetOf(cfg, s, b)[op.pid := ZooSlots.Used(op.pid, op.tag, op.cmdline)])
  {
    hide Tells, Inv, Booked, Live, Distinct, Shape, EntryOf, Zoo.ApplyBytes, Zoo.OkOp;
    Known(cfg, s);
    TellsMark(s.zoo, Live(cfg, s), SheetOf(cfg, s, b), op);
  }

  lemma {:induction false} OrphanOp(cfg: Config, pid: int, c: nat)
    requires WellFormed(cfg) && c < |cfg.coll| && 0 < pid < MAX_PID
    ensures Zoo.OkOp(Zoo.Mark(pid, "panorphan", cfg.coll[c].cmdline))
  {
  }

  lemma {:induction false} AdoptTells(cfg: Config, s: Pan, t: Pan, b: Book, pid: int, c: nat)
    requires TextInv(cfg, s, b) && Inv(cfg, t) && Adopts(cfg, s, t, pid, c) && pid < MAX_PID && pid !in Live(cfg, s)
    requires pid in b.cmds && b.cmds[pid] == c && Booked(cfg, s, b)
    ensures Tells(t.zoo, SheetOf(cfg, t, b))
  {
    Known(cfg, s);
    hide Tells, Inv, Booked, Live, Shape, EntryOf, Orphans.MarkSlot, Zoo.ApplyBytes, TextInv, SheetOf, WellFormed, Zoo.OkOp;
    NotLive(cfg, s, b, pid);
    OrphanOp(cfg, pid, c);
    var op := Zoo.Mark(pid, "panorphan", cfg.coll[c].cmdline);
    MarkedText(cfg, s, b, op);
    var m := SheetOf(cfg, s, b)[pid := ZooSlots.Used(pid, "panorphan", op.cmdline)];
    forall p | p in Live(cfg, t) && p in m ensures m[p] == EntryOf(cfg, t, b, p) {
      AdoptsEntry(cfg, s, t, b, pid, c, p);
      OnTheSheet(cfg, s, b, p);
    }
    Rebase(cfg, t, b, m);
  }

  lemma {:induction false} AdoptKeeps(cfg: Config, s: Pan, t: Pan, b: Book, pid: int, c: nat)
    requires TextInv(cfg, s, b) && Inv(cfg, t) && Adopts(cfg, s, t, pid, c) && pid < MAX_PID && pid !in Live(cfg, s)
    requires pid in b.cmds && b.cmds[pid] == c
    ensures TextInv(cfg, t, b)
  {
    Known(cfg, s);
    hide Tells, Inv, Booked, Live, Shape, EntryOf, Orphans.MarkSlot, Zoo.ApplyBytes, Distinct, SheetOf;
    AdoptTells(cfg, s, t, b, pid, c);
    AdoptsLive(cfg, s, t, pid, c);
    AdoptsBooked(cfg, s, t, b, pid, c);
    MoreDistinct(Live(cfg, s), pid);
  }

  lemma {:induction false} CheckPidsTexts(cfg: Config, s: Pan, b: Book, wait: Wait)
    requires TextInv(cfg, s, b) && s.phase.Reaping?
    requires wait.Child? ==> 0 < wait.pid && wait.pid in Pgrps(s.running)
    ensures TextInv(cfg, CheckPids(cfg, s, wait).0, b)
  {
    hide TextInv, Inv, Live, Booked, Zoo.ApplyBytes, Zoo.Finds, CheckPids;
    TextFacts(cfg, s, b);
    if wait.NoChild? {
      NoChildSame(cfg, s);
    } else {
      var i := ReapedSlot(s, wait.pid);
      var gone := CheckPids(cfg, s, wait.(survives := false)).0;
      CheckPidsKeeps(cfg, s, wait.(survives := false));
      CheckPidsKeeps(cfg, s, wait);
      CheckPidsSteps(cfg, s, wait, i);
      FreeKeeps(cfg, s, gone, b, i);
      if wait.survives { AdoptKeeps(cfg, gone, CheckPids(cfg, s, wait).0, b, wait.pid, s.running[i].cmd); }
    }
  }

  lemma {:induction false} NoChildSame(cfg: Config, s: Pan)
    requires |s.orphans| >= 1 && forall i :: 0 <= i < |s.running| ==> s.running[i].cmd < |cfg.coll|
    ensures CheckPids(cfg, s, NoChild).0 == s
  {
  }

  lemma {:induction false} TextFacts(cfg: Config, s: Pan, b: Book)
    requires TextInv(cfg, s, b)
    ensures Inv(cfg, s) && WellFormed(cfg) && Shape(cfg, s)
    ensures forall i :: 0 <= i < |s.running| && s.running[i].pgrp != 0 ==>
      s.running[i].pgrp in b.cmds && b.cmds[s.running[i].pgrp] == s.running[i].cmd
  {
  }

  lemma {:induction false} CheckPidsSteps(cfg: Config, s: Pan, wait: Wait, i: nat)
    requires Inv(cfg, s) && s.phase.Reaping? && wait.Child? && wait.pid > 0 && i < |s.running|
    requires i == FirstSlot(s.running, wait.pid) && s.running[i].pgrp == wait.pid
    ensures var gone := CheckPids(cfg, s, wait.(survives := false)).0;
      && Frees(s, gone, i)
      && (wait.survives ==> Adopts(cfg, gone, CheckPids(cfg, s, wait).0, wait.pid, s.running[i].cmd))
  {
    hide Zoo.ApplyBytes, Zoo.Finds, Own, Zoo.Holds, Orphans.MarkSlot, InOrder, Verdict;
    FoundPid(cfg, s, i);
  }

  lemma {:induction false} FoundPid(cfg: Config, s: Pan, i: nat)
    requires Inv(cfg, s) && i < |s.running| && s.running[i].pgrp != 0
    ensures Zoo.Finds(s.zoo, s.running[i].pgrp)
  {
    ClearLedger(cfg, s, i);
  }

  lemma {:induction false} FewerDistinct(live: multiset<int>, p: int)
    requires Distinct(live)
    ensures Distinct(live - multiset{p}) && p !in live - multiset{p}
  {
    assert live[p] <= 1;
  }

  /** Pan's own entry has been cleared. */
  predicate Leaves(cfg: Config, s: Pan, t: Pan) {
    && t.phase.Over? && !s.phase.Over?
    && t.running == s.running && t.orphans == s.orphans && t.others == s.others
    && t.zoo == Zoo.ApplyBytes(s.zoo, Zoo.Clear(cfg.pid))
  }

  lemma {:induction false} LeavesLive(cfg: Config, s: Pan, t: Pan)
    requires Leaves(cfg, s, t)
    ensures Live(cfg, t) == Live(cfg, s) - multiset{cfg.pid}
  {
    hide Zoo.ApplyBytes, Orphans.Groups;
  }

  lemma {:induction false} LeavesEntry(cfg: Config, s: Pan, t: Pan, b: Book, p: int)
    requires WellFormed(cfg) && Leaves(cfg, s, t) && p != cfg.pid
    ensures EntryOf(cfg, t, b, p) == EntryOf(cfg, s, b, p)
  {
    hide Zoo.ApplyBytes;
  }

  lemma {:induction false} LeaveKeepsTexts(cfg: Config, s: Pan, t: Pan, b: Book)
    requires TextInv(cfg, s, b) && Inv(cfg, t) && Leaves(cfg, s, t)
    ensures TextInv(cfg, t, b)
  {
    Known(cfg, s);
    OwnPid(cfg);
    LeavesLive(cfg, s, t);
    hide Tells, Inv, Booked, Live, Shape, Zoo.ApplyBytes, SheetOf, WellFormed, Distinct, EntryOf;
    FewerDistinct(Live(cfg, s), cfg.pid);
    TellsClear(s.zoo, SheetOf(cfg, s, b), Zoo.Clear(cfg.pid));
    SameBook(cfg, s, t, b);
    forall p | p in Live(cfg, t) && p in SheetOf(cfg, s, b) ensures SheetOf(cfg, s, b)[p] == EntryOf(cfg, t, b, p) {
      OnTheSheet(cfg, s, b, p);
      LeavesEntry(cfg, s, t, b, p);
    }
    Rebase(cfg, t, b, SheetOf(cfg, s, b));
  }

  lemma {:induction false} OwnPid(cfg: Config)
    requires WellFormed(cfg)
    ensures Zoo.OkOp(Zoo.Clear(cfg.pid))
  {
  }

  lemma {:induction false} SameBook(cfg: Config, s: Pan, t: Pan, b: Book)
    requires Booked(cfg, s, b) && t.others == s.others && t.running == s.running && t.orphans == s.orphans
    ensures Booked(cfg, t, b)
  {
  }

  /** Another program has marked or cleared an entry of its own. */
  predicate Writes(s: Pan, t: Pan, op: Zoo.Op) {
    && Zoo.OkOp(op) && (op.Clear? ==> op.pid in s.others)
    && t.running == s.running && t.orphans == s.orphans && t.phase == s.phase
    && t.others == Zoo.ApplyLive(s.others, op) && t.zoo == Zoo.ApplyBytes(s.zoo, op)
  }

  lemma {:induction false} WritesLive(cfg: Config, s: Pan, t: Pan, op: Zoo.Op)
    requires Writes(s, t, op)
    ensures Live(cfg, t) == Zoo.ApplyLive(Live(cfg, s), op)
  {
    hide Zoo.ApplyBytes, Own;
    SameOwn(cfg, s, t);
  }

  lemma {:induction false} WritesBooked(cfg: Config, s: Pan, t: Pan, b: Book, op: Zoo.Op)
    requires Booked(cfg, s, b) && Distinct(Live(cfg, s)) && Writes(s, t, op)
    ensures Booked(cfg, t, Write(b, op))
  {
    hide Zoo.ApplyBytes, Own, Zoo.OkOp;
    assert s.others[op.pid] <= Live(cfg, s)[op.pid] <= 1;
  }

  lemma {:induction false} WritesEntry(cfg: Config, s: Pan, t: Pan, b: Book, op: Zoo.Op, p: int)
    requires WellFormed(cfg) && Writes(s, t, op) && (op.Mark? || p != op.pid)
    ensures EntryOf(cfg, t, Write(b, op), p)
         == if p == op.pid then ZooSlots.Used(op.pid, op.tag, op.cmdline) else EntryOf(cfg, s, b, p)
  {
    hide Zoo.ApplyBytes;
  }

  lemma {:induction false} ForeignKeepsTexts(cfg: Config, s: Pan, t: Pan, b: Book, op: Zoo.Op)
    requires TextInv(cfg, s, b) && Inv(cfg, t) && Writes(s, t, op) && (op.Mark? ==> op.pid !in Live(cfg, s))
    ensures TextInv(cfg, t, Write(b, op))
  {
    Known(cfg, s);
    WritesLive(cfg, s, t, op);
    WritesBooked(cfg, s, t, b, op);
    hide Tells, Inv, Booked, Live, Shape, Zoo.ApplyBytes, SheetOf, WellFormed, Distinct, Zoo.OkOp, EntryOf;
    var m := SheetOf(cfg, s, b);
    if op.Mark? {
      MoreDistinct(Live(cfg, s), op.pid);
      MarkedText(cfg, s, b, op);
      m := m[op.pid := ZooSlots.Used(op.pid, op.tag, op.cmdline)];
    } else {
      FewerDistinct(Live(cfg, s), op.pid);
      TellsClear(s.zoo, m, op);
    }
    forall p | p in Live(cfg, t) && p in m ensures m[p] == EntryOf(cfg, t, Write(b, op), p) {
      OnTheSheet(cfg, s, b, p);
      WritesEntry(cfg, s, t, b, op, p);
    }
    Rebase(cfg, t, Write(b, op), m);
  }

  lemma {:induction false} AttemptIs(cfg: Config, s: Pan, choice: nat, outcome: Outcome)
    requires Inv(cfg, s) && WellFormed(cfg) && Shape(cfg, s) && Enabled(cfg, s, Attempt(choice, outcome))
    ensures var t := Next(cfg, s, Attempt(choice, outcome));
      match outcome
      case Failed => GivesUp(s, t) && t.zoo == s.zoo
      case Started(pid) => Starts(cfg, s, t, FirstSlot(s.running, 0), pid, if cfg.sequential then s.c else choice % |cfg.coll|)
  {
    FreeSlotExists(cfg, s);
    hide Inv, Zoo.ApplyBytes;
  }

  lemma {:induction false} AttemptTexts(cfg: Config, s: Pan, b: Book, choice: nat, outcome: Outcome)
    requires TextInv(cfg, s, b) && Enabled(cfg, s, Attempt(choice, outcome)) && Fresh(cfg, s, Attempt(choice, outcome))
    ensures TextInv(cfg, Next(cfg, s, Attempt(choice, outcome)), NextBook(cfg, s, b, Attempt(choice, outcome)))
  {
    TextFacts(cfg, s, b);
    StepInv(cfg, s, Attempt(choice, outcome));
    AttemptIs(cfg, s, choice, outcome);
    hide TextInv, Inv, Live, WellFormed, Next, Shape, Starts, GivesUp, FirstSlot;
    var t := Next(cfg, s, Attempt(choice, outcome));
    match outcome
    case Started(pid) =>
      StartKeeps(cfg, s, t, b, FirstSlot(s.running, 0), pid, if cfg.sequential then s.c else choice % |cfg.coll|);
    case Failed => SameZoo(cfg, s, t, b);
  }

  lemma {:induction false} SameZoo(cfg: Config, s: Pan, t: Pan, b: Book)
    requires TextInv(cfg, s, b) && Inv(cfg, t) && GivesUp(s, t) && t.zoo == s.zoo
    ensures TextInv(cfg, t, b)
  {
    hide Inv, Booked, Live, Tells, SheetOf;
    Known(cfg, s);
    GivingUpKeeps(cfg, s, t, b);
  }

  /** Orphaned groups have been checked. */
  lemma {:induction false} CheckedTexts(cfg: Config, s: Pan, t: Pan, b: Book, dead: set<int>)
    requires TextInv(cfg, s, b) && Inv(cfg, t) && GivesUp(s, t) && t.zoo == Orphans.CheckZoo(s.orphans, dead, s.zoo)
    ensures TextInv(cfg, t, b)
  {
    Known(cfg, s);
    hide Inv, Booked, Live, Tells, SheetOf, Orphans.CheckZoo, WellFormed;
    CheckZooTells(s.orphans, dead, s.zoo, SheetOf(cfg, s, b));
    GivingUpKeeps(cfg, s, t, b);
  }

  lemma {:induction false} ReapTexts(cfg: Config, s: Pan, b: Book, dead: set<int>, wait: Wait)
    requires TextInv(cfg, s, b) && Inv(cfg, s) && WellFormed(cfg) && Shape(cfg, s) && Enabled(cfg, s, Reap(dead, wait))
    ensures TextInv(cfg, Next(cfg, s, Reap(dead, wait)), b)
  {
    StepInv(cfg, s, Reap(dead, wait));
    CheckedInv(cfg, s, dead);
    CheckGivesUp(s, dead);
    ReapIs(cfg, s, dead, wait);
    ReapAnswer(cfg, s, dead, wait);
    var t := CheckOrphans(s, dead, 0);
    hide TextInv, Inv, Live, WellFormed, AfterCheck, CheckPids, Shape, Orphans.CheckZoo, GivesUp, CheckOrphans, Next, Enabled, Pgrps;
    CheckedTexts(cfg, s, t, b, dead);
    CheckPidsTexts(cfg, t, b, wait);
    var r := CheckPids(cfg, t, wait);
    SameZoo(cfg, r.0, AfterCheck(cfg, r.0, r.1), b);
  }

  lemma {:induction false} ReapAnswer(cfg: Config, s: Pan, dead: set<int>, wait: Wait)
    requires Enabled(cfg, s, Reap(dead, wait))
    ensures wait.Child? ==> 0 < wait.pid && wait.pid in Pgrps(CheckOrphans(s, dead, 0).running)
  {
  }

  lemma {:induction false} ReapIs(cfg: Config, s: Pan, dead: set<int>, wait: Wait)
    requires Inv(cfg, s) && WellFormed(cfg) && Shape(cfg, s) && Enabled(cfg, s, Reap(dead, wait))
    ensures var t := CheckOrphans(s, dead, 0);
      && t.zoo == Orphans.CheckZoo(s.orphans, dead, s.zoo) && Shape(cfg, t) && t.running == s.running && t.phase.Reaping?
      && var r := CheckPids(cfg, t, wait);
      && Next(cfg, s, Reap(dead, wait)) == AfterCheck(cfg, r.0, r.1)
      && GivesUp(r.0, AfterCheck(cfg, r.0, r.1)) && AfterCheck(cfg, r.0, r.1).zoo == r.0.zoo
  {
    CheckedInv(cfg, s, dead);
    var t := CheckOrphans(s, dead, 0);
    CheckPidsKeeps(cfg, t, wait);
    var r := CheckPids(cfg, t, wait);
    AfterCheckGivesUp(cfg, r.0, r.1);
    hide Inv, WellFormed, AfterCheck, CheckPids, Shape, GivesUp, Orphans.CheckZoo;
  }

  lemma {:induction false} CheckedInv(cfg: Config, s: Pan, dead: set<int>)
    requires Inv(cfg, s) && s.phase.Reaping?
    ensures Inv(cfg, CheckOrphans(s, dead, 0)) && CheckOrphans(s, dead, 0).phase.Reaping?
    ensures Shape(cfg, CheckOrphans(s, dead, 0)) && CheckOrphans(s, dead, 0).running == s.running
  {
    hide Ledger, Core, Orphans.CheckZoo;
    CoreFacts(cfg, s);
    CheckOrphansCore(cfg, s, dead);
    CheckOrphansKeeps(cfg, s, dead, 0);
  }

  /** Every event keeps each live pid at its one entry with its texts. */
  lemma {:induction false} StepTexts(cfg: Config, s: Pan, b: Book, e: Event)
    requires TextInv(cfg, s, b) && Enabled(cfg, s, e) && Fresh(cfg, s, e)
    ensures TextInv(cfg, Next(cfg, s, e), NextBook(cfg, s, b, e))
  {
    TextFacts(cfg, s, b);
    StepInv(cfg, s, e);
    hide TextInv, Inv, Booked, Live, WellFormed, GivesUp, SettleSignal, Orphans.CheckZoo, Zoo.ApplyBytes, Next, Leaves, Writes;
    match e
    case Deliver(sig) => DeliverGivesUp(cfg, s, sig); SameZoo(cfg, s, Next(cfg, s, e), b);
    case Attempt(choice, outcome) => AttemptTexts(cfg, s, b, choice, outcome);
    case Settle(stopFile, dead) =>
      SettleGivesUp(cfg, s, stopFile, dead);
      if Next(cfg, s, e).zoo == s.zoo { SameZoo(cfg, s, Next(cfg, s, e), b); }
      else { CheckedTexts(cfg, s, Next(cfg, s, e), b, dead); }
    case Reap(dead, wait) => ReapTexts(cfg, s, b, dead, wait);
    case Drain(dead) =>
      DrainGivesUp(cfg, s, dead);
      CheckedTexts(cfg, s, Next(cfg, s, e), b, dead);
    case Leave =>
      LeaveIs(cfg, s);
      LeaveKeepsTexts(cfg, s, Next(cfg, s, e), b);
    case Foreign(op) =>
      ForeignIs(cfg, s, op);
      ForeignKeepsTexts(cfg, s, Next(cfg, s, e), b, op);
  }

  lemma {:induction false} LeaveIs(cfg: Config, s: Pan)
    requires WellFormed(cfg) && Shape(cfg, s) && Enabled(cfg, s, Leave)
    ensures Leaves(cfg, s, Next(cfg, s, Leave))
  {
    hide Zoo.ApplyBytes, Zoo.Finds;
  }

  lemma {:induction false} ForeignIs(cfg: Config, s: Pan, op: Zoo.Op)
    requires WellFormed(cfg) && Shape(cfg, s) && Enabled(cfg, s, Foreign(op))
    ensures Writes(s, Next(cfg, s, Foreign(op)), op)
  {
    hide Zoo.ApplyBytes;
  }

  lemma {:induction false} DeliverGivesUp(cfg: Config, s: Pan, sig: int)
    requires WellFormed(cfg) && Shape(cfg, s)
    ensures GivesUp(s, Next(cfg, s, Deliver(sig))) && Next(cfg, s, Deliver(sig)).zoo == s.zoo
  {
    hide WaitHandler;
  }
}
