/** The length of the orphan list under the scheduler. */
module PanOrphans {
  import opened Signals
  import opened PanModel
  import opened PanInvariant
  import Orphans
  import Zoo

  /** The largest number of orphaned groups at any moment of the run. Within an event groups are given up before one is
      added, so the moments between events are enough. */
  ghost function PeakOrphans(cfg: Config, s: Pan, events: seq<Event>): nat
    requires Runs(cfg, s, events)
    decreases |events|
  {
    if events == [] then |Orphans.Groups(s.orphans)|
    else Zoo.Max(|Orphans.Groups(s.orphans)|, PeakOrphans(cfg, Next(cfg, s, events[0]), events[1..]))
  }

  /** The list is no longer than it was, or than its groups demand. */
  predicate Tight(before: seq<int>, after: seq<int>) {
    |after| == Zoo.Max(|before|, |Orphans.Groups(after)|)
  }

  lemma {:induction false} SameIsTight(before: seq<int>, after: seq<int>)
    requires |before| == |after|
    ensures Tight(before, after)
  {
    Orphans.GroupsSize(after);
  }

  lemma {:induction false} MarkIsTight(before: seq<int>, middle: seq<int>, pgrp: int)
    requires |before| == |middle| >= 1 && pgrp != 0
    ensures Tight(before, Orphans.MarkSlot(middle, pgrp))
  {
    hide Orphans.Groups;
    Orphans.MarkEffect(middle, pgrp);
    Orphans.GroupsSize(Orphans.MarkSlot(middle, pgrp));
  }

  lemma {:induction false} ReapIsTight(cfg: Config, s: Pan, dead: set<int>, wait: Wait)
    requires WellFormed(cfg) && Shape(cfg, s) && Enabled(cfg, s, Reap(dead, wait))
    ensures Tight(s.orphans, Next(cfg, s, Reap(dead, wait)).orphans)
  {
    hide Zoo.ApplyBytes, Zoo.Finds, WaitHandler, Tight, Orphans.MarkSlot, Orphans.CheckZoo, Orphans.Kills, Orphans.Misses, Verdict;
    var t := CheckOrphans(s, dead, 0);
    SameIsTight(s.orphans, t.orphans);
    if wait.Child? { MarkIsTight(s.orphans, t.orphans, wait.pid); }
    AfterCheckOrphans(cfg, CheckPids(cfg, t, wait).0, CheckPids(cfg, t, wait).1);
  }

  lemma {:induction false} AfterCheckOrphans(cfg: Config, s: Pan, err: int)
    ensures AfterCheck(cfg, s, err).orphans == s.orphans
  {
  }

  lemma {:induction false} StepIsTight(cfg: Config, s: Pan, e: Event)
    requires WellFormed(cfg) && Shape(cfg, s) && Enabled(cfg, s, e)
    ensures Tight(s.orphans, Next(cfg, s, e).orphans)
  {
    hide Zoo.ApplyBytes, WaitHandler, Tight, Orphans.CheckZoo, Orphans.Kills, Orphans.Misses, CheckPids, AfterCheck;
    if e.Reap? { ReapIsTight(cfg, s, e.dead, e.wait); } else { SameIsTight(s.orphans, Next(cfg, s, e).orphans); }
  }

  lemma {:induction false} RunIsTight(cfg: Config, s: Pan, events: seq<Event>)
    requires Runs(cfg, s, events)
    ensures |After(cfg, s, events).orphans| == Zoo.Max(|s.orphans|, PeakOrphans(cfg, s, events))
    decreases |events|
  {
    hide Next, Orphans.Groups;
    Orphans.GroupsSize(s.orphans);
    if events != [] {
      StepIsTight(cfg, s, events[0]);
      RunIsTight(cfg, Next(cfg, s, events[0]), events[1..]);
      PeakNow(cfg, Next(cfg, s, events[0]), events[1..]);
    }
  }

  lemma {:induction false} PeakNow(cfg: Config, s: Pan, events: seq<Event>)
    requires Runs(cfg, s, events)
    ensures |Orphans.Groups(s.orphans)| <= PeakOrphans(cfg, s, events)
  {
  }

  /** In every run the list has as many nodes as there were orphaned groups at once, and one at the start. */
  lemma {:induction false} ListIsPeakSized(cfg: Config, starts: int, forkInRoad: bool, file: string, others: multiset<int>, events: seq<Event>)
    requires WellFormed(cfg) && Runs(cfg, Init(cfg, starts, forkInRoad, file, others), events)
    ensures var s := Init(cfg, starts, forkInRoad, file, others);
      |After(cfg, s, events).orphans| == Zoo.Max(1, PeakOrphans(cfg, s, events))
  {
    hide Runs, After, PeakOrphans, ClearSpaces, MarkSpaces, SpacesMissed, Zoo.ApplyBytes;
    RunIsTight(cfg, Init(cfg, starts, forkInRoad, file, others), events);
  }
}
