/** The zoo file under the scheduler, byte for byte: in every reachable state it is a list of lines that are free or are
    exactly what zoo_mark_cmdline prints for some process group. */
module PanZooFile {
  import opened Signals
  import opened PanModel
  import opened PanInvariant
  import Orphans
  import Zoo
  import ZooSlots

  /** The file is the printed form of a slot list. */
  ghost predicate Printed(file: string) {
    exists lines: seq<string>, slots: seq<ZooSlots.Slot> :: ZooSlots.ShowsAll(lines, slots) && file == Zoo.Flatten(lines)
  }

  lemma {:induction false} ApplyPrinted(file: string, op: Zoo.Op)
    requires Printed(file) && Zoo.OkOp(op)
    ensures Printed(Zoo.ApplyBytes(file, op))
  {
    hide Zoo.ApplyBytes, Zoo.Flatten, ZooSlots.ShowsAll, ZooSlots.Apply;
    var lines: seq<string>, slots: seq<ZooSlots.Slot> :| ZooSlots.ShowsAll(lines, slots) && file == Zoo.Flatten(lines);
    var after := ZooSlots.ApplyShows(lines, slots, op);
  }

  lemma {:induction false} MarkSpacesPrinted(cfg: Config, n: nat, file: string)
    requires WellFormed(cfg) && n <= cfg.keepActive && Printed(file)
    ensures Printed(MarkSpaces(cfg, n, file))
  {
    hide Printed, Zoo.ApplyBytes;
    if n > 0 {
      MarkSpacesPrinted(cfg, n - 1, file);
      ApplyPrinted(MarkSpaces(cfg, n - 1, file), Zoo.Mark(n - 1, cfg.panname, ""));
    }
  }

  lemma {:induction false} ClearSpacesPrinted(cfg: Config, n: nat, file: string)
    requires WellFormed(cfg) && n <= cfg.keepActive && Printed(file)
    ensures Printed(ClearSpaces(n, file))
  {
    hide Printed, Zoo.ApplyBytes;
    if n > 0 {
      ClearSpacesPrinted(cfg, n - 1, file);
      ApplyPrinted(ClearSpaces(n - 1, file), Zoo.Clear(n - 1));
    }
  }

  lemma {:induction false} InitPrinted(cfg: Config, starts: int, forkInRoad: bool, file: string, others: multiset<int>)
    requires WellFormed(cfg) && Printed(file)
    ensures Printed(Init(cfg, starts, forkInRoad, file, others).zoo)
  {
    hide Printed, Zoo.ApplyBytes, MarkSpaces, ClearSpaces;
    var marked := Zoo.ApplyBytes(file, Zoo.Mark(cfg.pid, cfg.panname, cfg.args));
    ApplyPrinted(file, Zoo.Mark(cfg.pid, cfg.panname, cfg.args));
    MarkSpacesPrinted(cfg, cfg.keepActive, marked);
    ClearSpacesPrinted(cfg, cfg.keepActive, MarkSpaces(cfg, cfg.keepActive, marked));
  }

  lemma {:induction false} CheckZooPrinted(list: seq<int>, dead: set<int>, file: string)
    requires Printed(file) && forall i :: 0 <= i < |list| ==> 0 <= list[i] < MAX_PID
    ensures Printed(Orphans.CheckZoo(list, dead, file))
    decreases |list|
  {
    hide Printed, Zoo.ApplyBytes;
    if list != [] {
      ApplyPrinted(file, Zoo.Clear(list[0]));
      CheckZooPrinted(list[1..], dead, Orphans.CheckZooOne(list[0], dead, file));
    }
  }

  lemma {:induction false} CheckPidsPrinted(cfg: Config, s: Pan, wait: Wait)
    requires WellFormed(cfg) && Shape(cfg, s) && Printed(s.zoo) && (wait.Child? ==> wait.pid in Pgrps(s.running))
    ensures Printed(CheckPids(cfg, s, wait).0.zoo)
  {
    hide Printed, Zoo.ApplyBytes, Zoo.Finds, Orphans.MarkSlot, Verdict;
    if wait.Child? {
      var i := ReapedSlot(s, wait.pid);
      ApplyPrinted(s.zoo, Zoo.Clear(wait.pid));
      ApplyPrinted(Zoo.ApplyBytes(s.zoo, Zoo.Clear(wait.pid)),
                   Zoo.Mark(wait.pid, "panorphan", cfg.coll[s.running[i].cmd].cmdline));
    }
  }

  lemma {:induction false} CheckOrphansShape(cfg: Config, s: Pan, dead: set<int>, sig: int)
    requires Shape(cfg, s)
    ensures Shape(cfg, CheckOrphans(s, dead, sig)) && CheckOrphans(s, dead, sig).running == s.running
    ensures CheckOrphans(s, dead, sig).zoo == Orphans.CheckZoo(s.orphans, dead, s.zoo)
  {
  }

  lemma {:induction false} StepPrinted(cfg: Config, s: Pan, e: Event)
    requires WellFormed(cfg) && Shape(cfg, s) && Enabled(cfg, s, e) && Printed(s.zoo)
    ensures Printed(Next(cfg, s, e).zoo)
  {
    hide Printed, Zoo.ApplyBytes, Zoo.Finds, WaitHandler, Orphans.CheckZoo, Orphans.Kills, CheckPids, FirstSlot;
    match e
    case Deliver(sig) =>
    case Attempt(choice, outcome) =>
      var c := if cfg.sequential then s.c else choice % |cfg.coll|;
      if outcome.Started? { ApplyPrinted(s.zoo, Zoo.Mark(outcome.pid, cfg.coll[c].name, cfg.coll[c].cmdline)); }
    case Settle(stopFile, dead) => CheckZooPrinted(s.orphans, dead, s.zoo);
    case Reap(dead, wait) =>
      CheckZooPrinted(s.orphans, dead, s.zoo);
      CheckOrphansShape(cfg, s, dead, 0);
      CheckPidsPrinted(cfg, CheckOrphans(s, dead, 0), wait);
    case Drain(dead) => CheckZooPrinted(s.orphans, dead, s.zoo);
    case Leave => ApplyPrinted(s.zoo, Zoo.Clear(cfg.pid));
    case Foreign(op) => ApplyPrinted(s.zoo, op);
  }

  lemma {:induction false} RunPrinted(cfg: Config, s: Pan, events: seq<Event>)
    requires Runs(cfg, s, events) && Printed(s.zoo)
    ensures Printed(After(cfg, s, events).zoo)
    decreases |events|
  {
    hide Printed, Next, Enabled;
    if events != [] {
      StepPrinted(cfg, s, events[0]);
      RunPrinted(cfg, Next(cfg, s, events[0]), events[1..]);
    }
  }

  /** If pan finds such a file when it opens the zoo, then the file is one in every reachable state. */
  lemma {:induction false} ReachableFiles(cfg: Config, starts: int, forkInRoad: bool, file: string, others: multiset<int>, events: seq<Event>)
    requires WellFormed(cfg) && Printed(file) && Runs(cfg, Init(cfg, starts, forkInRoad, file, others), events)
    ensures Printed(After(cfg, Init(cfg, starts, forkInRoad, file, others), events).zoo)
  {
    hide Printed, Init, Runs, After;
    InitPrinted(cfg, starts, forkInRoad, file, others);
    RunPrinted(cfg, Init(cfg, starts, forkInRoad, file, others), events);
  }
}
