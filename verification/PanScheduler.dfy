/** The scheduler of ltp-pan.c in place: the table running[], the counters of main, the linked orphan list and the
    open zoo file. Each method does what `PanModel` says. */
module PanScheduler {
  import opened Signals
  import opened PanModel
  import opened PanInvariant
  import Orphans
  import Zoo

  class Scheduler {
    const cfg: Config
    const running: array<Slot>
    const orphans: Orphans.OrphanList
    const zoofile: Zoo.ZooFile
    var numActive: int
    var starts: int
    var stop: nat
    var goIdle: nat
    var forkInRoad: bool
    var recSignal: int
    var sendSignal: int
    var lastSent: int
    var c: nat
    ghost var attempts: seq<nat>
    ghost var kills: seq<Orphans.Kill>
    ghost var missed: nat
    ghost var others: multiset<int>
    ghost var phase: Phase

    ghost predicate Valid()
      reads this, running, orphans, orphans.nodes
    {
      && WellFormed(cfg) && orphans.Valid()
      && running.Length == cfg.keepActive && c < |cfg.coll|
      && (forall i :: 0 <= i < running.Length ==> 0 <= running[i].pgrp < MAX_PID && running[i].cmd < |cfg.coll|)
      && (forall i :: 0 <= i < |orphans.list| ==> 0 <= orphans.list[i] < MAX_PID)
    }

    ghost function State(): (s: Pan)
      requires Valid()
      reads this, running, orphans, orphans.nodes, zoofile
      ensures Shape(cfg, s)
    {
      Pan(phase, running[..], numActive, starts, stop, goIdle, forkInRoad, Ratchet(recSignal, sendSignal, lastSent),
          orphans.list, c, attempts, zoofile.bytes, kills, missed, others)
    }

    /** main up to its first loop: pan's own entry, then keep_active spaces marked and cleared. */
    constructor (cfg: Config, starts: int, forkInRoad: bool, zoofile: Zoo.ZooFile, ghost others: multiset<int>)
      requires WellFormed(cfg)
      modifies zoofile
      ensures Valid() && State() == Init(cfg, starts, forkInRoad, old(zoofile.bytes), others)
      ensures this.cfg == cfg && this.zoofile == zoofile
      ensures fresh(running) && fresh(orphans) && fresh(orphans.nodes)
    {
      hide Zoo.ApplyBytes, Signals.WaitHandler, Orphans.OrphanList.Valid;
      this.cfg := cfg;
      running := new Slot[cfg.keepActive](_ => Slot(0, false, 0));
      orphans := new Orphans.OrphanList();
      this.zoofile := zoofile;
      this.numActive, this.starts, this.stop, this.goIdle, this.forkInRoad := 0, starts, 0, 0, forkInRoad;
      recSignal, sendSignal, lastSent := 0, 0, 0;
      this.c := 0;
      attempts, phase, kills, this.others := [], Scheduling, [], others;
      new;
      assert running[..] == seq(cfg.keepActive, _ => Slot(0, false, 0));
      missed := OpenZoo(cfg, zoofile);
    }

    /** `missed` counts the clears that found nothing, at the first of which main gives up. */
    static method OpenZoo(cfg: Config, zoofile: Zoo.ZooFile) returns (missed: nat)
      requires WellFormed(cfg)
      modifies zoofile
      ensures zoofile.bytes == ClearSpaces(cfg.keepActive, MarkSpaces(cfg, cfg.keepActive,
        Zoo.ApplyBytes(old(zoofile.bytes), Zoo.Mark(cfg.pid, cfg.panname, cfg.args))))
      ensures missed == SpacesMissed(cfg.keepActive, MarkSpaces(cfg, cfg.keepActive,
        Zoo.ApplyBytes(old(zoofile.bytes), Zoo.Mark(cfg.pid, cfg.panname, cfg.args))))
    {
      hide Zoo.ApplyBytes, Zoo.Finds;
      missed := 0;
      zoofile.MarkCmdline(cfg.pid, cfg.panname, cfg.args);
      ghost var marked := zoofile.bytes;
      for i := 0 to cfg.keepActive
        invariant zoofile.bytes == MarkSpaces(cfg, i, marked)
      {
        zoofile.MarkCmdline(i, cfg.panname, "");
      }
      ghost var spaced := zoofile.bytes;
      for i := 0 to cfg.keepActive
        invariant zoofile.bytes == ClearSpaces(i, spaced) && missed == SpacesMissed(i, spaced)
      {
        var ret := zoofile.Clear(i);
        if ret != 0 {
          missed := missed + 1;
        }
      }
    }

    method WaitHandler(sig: int)
      requires Valid()
      modifies this`recSignal, this`sendSignal, this`lastSent
      ensures Valid() && State() == old(State()).(ratchet := Signals.WaitHandler(old(State()).ratchet, sig))
    {
      if sig == 0 {
        lastSent := 0;
      } else {
        recSignal := sig;
        if sig == SIGUSR2 {
          return;
        }
        if lastSent == 0 {
          sendSignal := sig;
        } else if lastSent == SIGUSR1 {
          sendSignal := SIGINT;
        } else if lastSent == sig {
          sendSignal := SIGTERM;
        } else if lastSent == SIGTERM {
          sendSignal := SIGHUP;
        } else if lastSent == SIGHUP {
          sendSignal := SIGKILL;
        }
        lastSent := sendSignal;
      }
    }

    /** The search for a slot of that pgrp; keep_active if there is none. */
    method FindSlot(pgrp: int) returns (i: nat)
      requires Valid()
      ensures i == FirstSlot(running[..], pgrp)
    {
      i := 0;
      while i < cfg.keepActive && running[i].pgrp != pgrp
        invariant i <= cfg.keepActive
        invariant FirstSlot(running[..], pgrp) == i + FirstSlot(running[i..], pgrp)
      {
        assert running[i..][0] == running[i] && running[i..][1..] == running[i + 1..];
        i := i + 1;
      }
    }

    /** The bookkeeping of run_child for a child that started. */
    method StartChild(i: nat, cmd: nat, pid: int)
      requires Valid() && i < cfg.keepActive && cmd < |cfg.coll| && 0 < pid < MAX_PID
      modifies running, zoofile, this`numActive
      ensures Valid() && State() == old(State()).(running := old(running[..])[i := Slot(pid, false, cmd)],
        numActive := old(numActive) + 1,
        zoo := Zoo.ApplyBytes(old(zoofile.bytes), Zoo.Mark(pid, cfg.coll[cmd].name, cfg.coll[cmd].cmdline)))
    {
      hide Zoo.ApplyBytes, Orphans.OrphanList.Valid;
      running[i] := Slot(pid, false, cmd);
      zoofile.MarkCmdline(pid, cfg.coll[cmd].name, cfg.coll[cmd].cmdline);
      numActive := numActive + 1;
    }

    /** The budget and the command index after an attempt. */
    method Spend(started: bool)
      requires Valid()
      modifies this`starts, this`c, this`attempts
      ensures Valid() && State() == old(State()).(
        starts := if (started || cfg.sequential) && old(starts) > 0 then old(starts) - 1 else old(starts),
        c := if cfg.sequential then (if old(c) + 1 >= |cfg.coll| then 0 else old(c) + 1) else old(c),
        attempts := old(attempts) + [old(c)])
    {
      hide Orphans.OrphanList.Valid;
      attempts := attempts + [c];
      if (started || cfg.sequential) && starts > 0 {
        starts := starts - 1;
      }
      if cfg.sequential {
        c := c + 1;
        if c >= |cfg.coll| {
          c := 0;
        }
      }
    }

    /** Finding a slot for command c and trying to start it. */
    method LaunchOne(outcome: Outcome)
      requires Valid() && (outcome.Started? ==> 0 < outcome.pid < MAX_PID)
      modifies this, running, zoofile
      ensures Valid() && State() == Launch(cfg, old(State()), old(c), outcome)
    {
      hide Zoo.ApplyBytes, Signals.WaitHandler, Orphans.OrphanList.Valid, FirstSlot;
      var i := FindSlot(0);
      if i == cfg.keepActive {
        WaitHandler(SIGINT);
        return;
      }
      if outcome.Started? {
        StartChild(i, c, outcome.pid);
      }
      Spend(outcome.Started?);
    }

    /** One turn of the launching loop; the outcome is what fork and exec answered in run_child. */
    method Attempt(choice: nat, outcome: Outcome)
      requires Valid() && Enabled(cfg, State(), Event.Attempt(choice, outcome))
      modifies this, running, zoofile
      ensures Valid() && State() == Next(cfg, old(State()), Event.Attempt(choice, outcome))
    {
      hide Zoo.ApplyBytes, Signals.WaitHandler, Orphans.OrphanList.Valid, FirstSlot;
      if !cfg.sequential {
        c := choice % |cfg.coll|;
      }
      LaunchOne(outcome);
    }

    /** propagate_signal: every running group is signalled and marked, then every orphaned one. */
    method PropagateSignal(dead: set<int>)
      requires Valid()
      modifies this, running, orphans, orphans.nodes, zoofile
      ensures Valid() && State() == Propagate(old(State()), dead)
      ensures orphans.nodes == old(orphans.nodes)
    {
      hide Zoo.ApplyBytes, Signals.WaitHandler, Orphans.OrphanList.Valid, Orphans.Kills;
      ghost var was := running[..];
      StopGroups();
      var sent, reports := orphans.Check(dead, sendSignal, zoofile);
      kills, missed := kills + sent, missed + reports;
      recSignal, sendSignal := 0, 0;
    }

    /** Its loop over the table: a signal and a mark for each group. */
    method StopGroups()
      requires Valid()
      modifies running, this`kills
      ensures Valid() && State() == old(State()).(running := StopSlots(old(running[..])),
        kills := old(kills) + Orphans.Kills(Pgrps(old(running[..])), sendSignal))
    {
      hide Orphans.OrphanList.Valid, Orphans.Kills;
      ghost var groups := Pgrps(running[..]);
      assert groups[0..] == groups && groups[|groups|..] == [];
      var i := 0;
      while i < cfg.keepActive
        invariant 0 <= i <= cfg.keepActive
        invariant kills + Orphans.Kills(groups[i..], sendSignal) == old(kills) + Orphans.Kills(groups, sendSignal)
        invariant Valid()
        invariant forall k :: 0 <= k < running.Length ==> running[k] == if k < i then Stopped(old(running[k])) else old(running[k])
        modifies running, this`kills
      {
        Orphans.KillsStep(groups, i, sendSignal);
        if running[i].pgrp != 0 {
          kills := kills + [Orphans.Kill(running[i].pgrp, sendSignal)];
          running[i] := running[i].(stopping := true);
        }
        i := i + 1;
      }
      assert running[..] == StopSlots(old(running[..]));
      Orphans.AtTheEnd([], {}, "", sendSignal);
    }

    method StopOrIdle()
      requires Valid()
      modifies this`stop, this`goIdle
      ensures Valid() && State() == PanModel.StopOrIdle(old(State()))
    {
      if forkInRoad {
        goIdle := goIdle + 1;
      } else {
        stop := stop + 1;
      }
    }

    /** `if (rec_signal) { ... }` of the main loop. */
    method SettleSignal(dead: set<int>)
      requires Valid()
      modifies this, running, orphans, orphans.nodes, zoofile
      ensures Valid() && State() == PanModel.SettleSignal(old(State()), dead)
      ensures orphans.nodes == old(orphans.nodes)
    {
      hide Zoo.ApplyBytes, Propagate, Orphans.OrphanList.Valid;
      if recSignal != 0 {
        if recSignal == SIGUSR2 {
          StopOrIdle();
          recSignal, sendSignal := 0, 0;
        } else {
          if recSignal == SIGUSR1 {
            forkInRoad := false;
          }
          PropagateSignal(dead);
          StopOrIdle();
        }
      }
    }

    /** From the launching loop to check_pids. */
    method Settle(stopFile: bool, dead: set<int>)
      requires Valid() && Enabled(cfg, State(), Event.Settle(stopFile, dead))
      modifies this, running, orphans, orphans.nodes, zoofile
      ensures Valid() && State() == Next(cfg, old(State()), Event.Settle(stopFile, dead))
      ensures orphans.nodes == old(orphans.nodes)
    {
      hide Zoo.ApplyBytes, PanModel.SettleSignal, Orphans.OrphanList.Valid;
      if starts == 0 {
        stop := stop + 1;
      } else if starts == -1 {
        if stopFile {
          stop := stop + 1;
        }
      }
      assert State() == StopCheck(old(State()), stopFile);
      SettleSignal(dead);
      phase := Reaping;
    }

    /** A group that outlives its leader gets an entry of its own, a place on the list and a SIGTERM. */
    method AdoptOrphan(pgrp: int, cmd: nat)
      requires Valid() && 0 <= pgrp < MAX_PID && cmd < |cfg.coll|
      modifies this`kills, orphans, orphans.nodes, zoofile
      ensures Valid() && State() == old(State()).(
        zoo := Zoo.ApplyBytes(old(zoofile.bytes), Zoo.Mark(pgrp, "panorphan", cfg.coll[cmd].cmdline)),
        orphans := Orphans.MarkSlot(old(orphans.list), pgrp), kills := old(kills) + [Orphans.Kill(pgrp, SIGTERM)])
      ensures forall k :: 0 <= k < |orphans.nodes| ==> orphans.nodes[k] in old(orphans.nodes) || fresh(orphans.nodes[k])
    {
      hide Zoo.ApplyBytes, Orphans.MarkSlot;
      zoofile.MarkCmdline(pgrp, "panorphan", cfg.coll[cmd].cmdline);
      Orphans.MarkRange(orphans.list, pgrp, MAX_PID);
      orphans.Mark(pgrp);
      kills := kills + [Orphans.Kill(pgrp, SIGTERM)];
    }

    /** What check_pids does with the slot of a dead child; 1 when zoo_clear did not find the pid. */
    method ReapSlot(i: nat, survives: bool) returns (ret: int)
      requires Valid() && i < cfg.keepActive && running[i].pgrp != 0
      modifies running, this`phase, this`kills, orphans, orphans.nodes, zoofile
      ensures Valid() && ret in {0, 1}
      ensures var slot := old(running[i]);
        var u := old(State()).(running := old(running[..])[i := slot.(pgrp := 0)],
                               zoo := Zoo.ApplyBytes(old(zoofile.bytes), Zoo.Clear(slot.pgrp)));
        State() ==
          if !Zoo.Finds(old(zoofile.bytes), slot.pgrp) then u.(phase := Aborted)
          else if survives then u.(kills := old(kills) + [Orphans.Kill(slot.pgrp, 0), Orphans.Kill(slot.pgrp, SIGTERM)],
                                   zoo := Zoo.ApplyBytes(u.zoo, Zoo.Mark(slot.pgrp, "panorphan", cfg.coll[slot.cmd].cmdline)),
                                   orphans := Orphans.MarkSlot(u.orphans, slot.pgrp))
          else u.(kills := old(kills) + [Orphans.Kill(slot.pgrp, 0)])
      ensures ret == if Zoo.Finds(old(zoofile.bytes), old(running[i].pgrp)) then 0 else 1
      ensures forall k :: 0 <= k < |orphans.nodes| ==> orphans.nodes[k] in old(orphans.nodes) || fresh(orphans.nodes[k])
    {
      hide Zoo.ApplyBytes, Zoo.Finds, Orphans.MarkSlot, Orphans.OrphanList.Valid;
      var slot := running[i];
      running[i] := slot.(pgrp := 0);
      ret := zoofile.Clear(slot.pgrp);
      if ret != 0 {
        phase := Aborted;
        return;
      }
      kills := kills + [Orphans.Kill(slot.pgrp, 0)];
      if survives {
        AdoptOrphan(slot.pgrp, slot.cmd);
        assert (old(kills) + [Orphans.Kill(slot.pgrp, 0)]) + [Orphans.Kill(slot.pgrp, SIGTERM)]
            == old(kills) + [Orphans.Kill(slot.pgrp, 0), Orphans.Kill(slot.pgrp, SIGTERM)];
      }
    }

    /** check_pids after its check_orphans; `exited` is its exit(1) after a zoo_clear that found nothing. */
    method AfterWait(wait: Wait) returns (err: int, exited: bool)
      requires Valid() && phase == Reaping && (wait.Child? ==> 0 < wait.pid)
      modifies this, running, orphans, orphans.nodes, zoofile
      ensures Valid() && (State(), err) == PanModel.CheckPids(cfg, old(State()), wait)
      ensures exited == State().phase.Aborted?
      ensures forall k :: 0 <= k < |orphans.nodes| ==> orphans.nodes[k] in old(orphans.nodes) || fresh(orphans.nodes[k])
    {
      hide Zoo.ApplyBytes, Zoo.Finds, Orphans.OrphanList.Valid, Orphans.MarkSlot, FirstSlot;
      err, exited := 0, false;
      if wait.NoChild? {
        return;
      }
      numActive := numActive - 1;
      if wait.status.Exited? && wait.status.code != 0 {
        err := err + 1;
      }
      var i := FindSlot(wait.pid);
      if i < cfg.keepActive {
        assert running[i].pgrp == wait.pid;
        err := Adjust(err, wait.status, running[i].stopping);
        var ret := ReapSlot(i, wait.survives);
        if ret != 0 {
          return 0, true;
        }
      }
    }

    /** A child that was told to stop is forgiven its exit 130; one that was not is blamed for its signal. */
    method Adjust(count: int, status: Status, stopping: bool) returns (err: int)
      requires count == if status.Exited? && status.code != 0 then 1 else 0
      ensures err == Verdict(status, stopping)
    {
      err := count;
      if status.Exited? && status.code == 130 && stopping {
        err := err - 1;
      }
      if status.Signaled? && !stopping {
        err := err + 1;
      }
    }

    method CheckPids(dead: set<int>, wait: Wait) returns (err: int, exited: bool)
      requires Valid() && Enabled(cfg, State(), Event.Reap(dead, wait))
      modifies this, running, orphans, orphans.nodes, zoofile
      ensures Valid() && (State(), err) == PanModel.CheckPids(cfg, CheckOrphans(old(State()), dead, 0), wait)
      ensures exited == State().phase.Aborted?
      ensures forall k :: 0 <= k < |orphans.nodes| ==> orphans.nodes[k] in old(orphans.nodes) || fresh(orphans.nodes[k])
    {
      hide Zoo.ApplyBytes, PanModel.CheckPids, Orphans.OrphanList.Valid;
      var sent, reports := orphans.Check(dead, 0, zoofile);
      kills, missed := kills + sent, missed + reports;
      assert State() == CheckOrphans(old(State()), dead, 0);
      err, exited := AfterWait(wait);
    }

    method Blame(err: int)
      requires Valid()
      modifies this`goIdle, this`recSignal, this`sendSignal, this`lastSent
      ensures Valid() && State() == PanModel.Blame(cfg, old(State()), err)
    {
      hide Signals.WaitHandler, Orphans.OrphanList.Valid;
      if err != 0 {
        if forkInRoad {
          goIdle := goIdle + 1;
        }
        if cfg.hasBrakes {
          WaitHandler(SIGINT);
        }
      }
    }

    /** The main loop after check_pids returned err. */
    method AfterCheck(err: int)
      requires Valid()
      modifies this
      ensures Valid() && State() == PanModel.AfterCheck(cfg, old(State()), err)
    {
      hide PanModel.Blame, Signals.WaitHandler, Orphans.OrphanList.Valid;
      Blame(err);
      if stop != 0 && numActive == 0 {
        phase := Draining;
        return;
      }
      if goIdle != 0 && numActive == 0 {
        goIdle := 0;
        WaitHandler(0);
      }
      phase := Scheduling;
    }

    /** check_pids and the rest of the main loop. */
    method Reap(dead: set<int>, wait: Wait)
      requires Valid() && Enabled(cfg, State(), Event.Reap(dead, wait))
      modifies this, running, orphans, orphans.nodes, zoofile
      ensures Valid() && State() == Next(cfg, old(State()), Event.Reap(dead, wait))
      ensures forall k :: 0 <= k < |orphans.nodes| ==> orphans.nodes[k] in old(orphans.nodes) || fresh(orphans.nodes[k])
    {
      hide Zoo.ApplyBytes, Zoo.Finds, PanModel.CheckPids, CheckOrphans, PanModel.AfterCheck, Orphans.OrphanList.Valid;
      var err, exited := CheckPids(dead, wait);
      if !exited {
        AfterCheck(err);
      }
    }

    method Deliver(sig: int)
      requires Valid() && Enabled(cfg, State(), Event.Deliver(sig))
      modifies this`recSignal, this`sendSignal, this`lastSent
      ensures Valid() && State() == Next(cfg, old(State()), Event.Deliver(sig))
    {
      WaitHandler(sig);
    }

    /** One pass of the orphan loop that found an orphan. */
    method Drain(dead: set<int>)
      requires Valid() && Enabled(cfg, State(), Event.Drain(dead))
      modifies this, running, orphans, orphans.nodes, zoofile
      ensures Valid() && State() == Next(cfg, old(State()), Event.Drain(dead))
      ensures orphans.nodes == old(orphans.nodes)
    {
      hide Zoo.ApplyBytes, Signals.WaitHandler, Orphans.OrphanList.Valid;
      if recSignal == 0 {
        WaitHandler(SIGINT);
      }
      PropagateSignal(dead);
    }

    /** Leaving the orphan loop and giving up pan's own zoo entry. */
    method Leave()
      requires Valid() && Enabled(cfg, State(), Event.Leave)
      modifies this, zoofile
      ensures Valid() && State() == Next(cfg, old(State()), Event.Leave)
    {
      hide Zoo.ApplyBytes, Signals.WaitHandler, Orphans.OrphanList.Valid;
      var ret := zoofile.Clear(cfg.pid);
      if ret != 0 {
        missed := missed + 1;
      }
      phase := Over;
    }

    /** Another program marks or clears an entry of its own. */
    method Foreign(op: Zoo.Op)
      requires Valid() && Enabled(cfg, State(), Event.Foreign(op))
      modifies zoofile, this`others
      ensures Valid() && State() == Next(cfg, old(State()), Event.Foreign(op))
    {
      hide Zoo.ApplyBytes, Zoo.Finds, Orphans.OrphanList.Valid;
      match op {
        case Mark(pid, tag, cmdline) => zoofile.MarkCmdline(pid, tag, cmdline);
        case Clear(pid) => var ret := zoofile.Clear(pid);
      }
      others := Zoo.ApplyLive(others, op);
    }

    /** What pan does until the environment has to answer again. */
    method Step(e: Event)
      requires Valid() && Enabled(cfg, State(), e)
      modifies this, running, orphans, orphans.nodes, zoofile
      ensures Valid() && State() == Next(cfg, old(State()), e)
      ensures forall k :: 0 <= k < |orphans.nodes| ==> orphans.nodes[k] in old(orphans.nodes) || fresh(orphans.nodes[k])
    {
      hide Next, Orphans.OrphanList.Valid;
      match e {
        case Deliver(sig) => Deliver(sig);
        case Attempt(choice, outcome) => Attempt(choice, outcome);
        case Settle(stopFile, dead) => Settle(stopFile, dead);
        case Reap(dead, wait) => Reap(dead, wait);
        case Drain(dead) => Drain(dead);
        case Leave => Leave();
        case Foreign(op) => Foreign(op);
      }
    }

    /** A whole run, driven by the answers of the environment. */
    method Run(events: seq<Event>)
      requires Valid() && Runs(cfg, State(), events)
      modifies this, running, orphans, orphans.nodes, zoofile
      ensures Valid() && State() == After(cfg, old(State()), events)
    {
      hide Next, Enabled, Valid, State;
      assert events[0..] == events;
      for i := 0 to |events|
        invariant Valid() && Runs(cfg, State(), events[i..])
        invariant After(cfg, State(), events[i..]) == After(cfg, old(State()), events)
        invariant forall k :: 0 <= k < |orphans.nodes| ==> orphans.nodes[k] in old(orphans.nodes) || fresh(orphans.nodes[k])
      {
        assert events[i..][0] == events[i] && events[i..][1..] == events[i + 1..];
        Step(events[i]);
      }
    }
  }
}
