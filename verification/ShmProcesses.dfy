/** The shared-memory children of page-poisoning.c in place: the semaphores and the shared struct ipc, changed step by
    step by whichever process moves. Each step is the one `ShmProtocol` speaks of. */
module ShmProcesses {
  import opened Basics
  import opened ShmProtocol
  import SetupIpc

  class Ipc {
    const pc: array<Pc>
    const shmptr: array<Option<nat>>
    const semReady: array<nat>  // the two semaphores of semid_ready
    var ready: bool
    var id: Option<nat>
    var segments: nat
    var stamp: Option<nat>
    var done: bool
    ghost var log: seq<Event>

    ghost predicate Valid()
      reads this
    {
      pc.Length == shmptr.Length && semReady.Length == 2
    }

    ghost function State(): State
      requires Valid()
      reads this, pc, shmptr, semReady
    {
      ShmProtocol.State(pc[..], semReady[0], semReady[1], ready, id, segments, shmptr[..], stamp, done, log)
    }

    /** setup_ipc, and the n children that run_test sends into shm_test. A semaphore starts at zero; the barrier is set
        only to a value other than zero, and setting it to a negative one fails. */
    constructor (childNum: int, testTypes: int, tShm: int, n: nat)
      requires testTypes > 0
      ensures Valid() && fresh(pc) && fresh(shmptr) && fresh(semReady)
      ensures var value := SetupIpc.ShmChildNum(childNum, testTypes, tShm);
        State() == Init(n, if value > 0 then value else 0)
    {
      pc := new Pc[n](_ => Lock1);
      shmptr := new Option<nat>[n](_ => None);
      semReady := new nat[2](_ => 0);
      ready, id, segments, stamp, done, log := false, None, 0, None, false, [];
      new;
      semReady[0] := 1;
      var shmChildNum := SetupIpc.ShmChildNum(childNum, testTypes, tShm);
      if shmChildNum > 0 {
        semReady[1] := shmChildNum;
      }
      assert pc[..] == seq(n, _ => Lock1) && shmptr[..] == seq(n, _ => None);
    }

    /** semop with sem_op -1; it returns once the semaphore is positive. */
    method Decrement(num: nat)
      requires Valid() && num < 2 && semReady[num] > 0
      modifies semReady
      ensures semReady[..] == old(semReady[..])[num := old(semReady[num]) - 1]
    {
      semReady[num] := semReady[num] - 1;
    }

    method Increment(num: nat)
      requires Valid() && num < 2
      modifies semReady
      ensures semReady[..] == old(semReady[..])[num := old(semReady[num]) + 1]
    {
      semReady[num] := semReady[num] + 1;
    }

    /** The action process p stands before. */
    method Perform(p: nat)
      requires Valid() && p < pc.Length && Enabled(State(), p)
      modifies this, shmptr, semReady
      ensures State() == Act(old(State()), p).(log := old(log) + News(old(State()), p))
    {
      log := log + News(State(), p);
      match pc[p] {
        case Lock1 => Decrement(0);
        case TestReady =>
        case Create =>
          id := Some(segments);
          segments := segments + 1;
        case SetReady => ready := true;
        case Attach => shmptr[p] := id;
        case Stamp => stamp := Some(p);
        case Unlock1 => Increment(0);
        case Arrive => Decrement(1);
        case Await =>
        case Lock2 => Decrement(0);
        case TestDone =>
        case SetDone => done := true;
        case Poison =>
        case Rewrite =>
        case Reread =>
        case Unlock2 => Increment(0);
      }
    }

    /** One process makes one step. */
    method Step(p: nat)
      requires Valid() && Enabled(State(), p)
      modifies this, pc, shmptr, semReady
      ensures State() == Next(old(State()), p)
    {
      hide Act, News, Enabled;
      StepsInside(State(), p);
      ghost var s := State();
      var next := Where(p);
      Perform(p);
      pc[p] := next;
    }

    /** Where process p goes, by the flags it tests. */
    method Where(p: nat) returns (next: Pc)
      requires Valid() && p < pc.Length && Enabled(State(), p)
      ensures next == NextPc(State(), p)
    {
      match pc[p] {
        case Lock1 => next := TestReady;
        case TestReady => next := if ready then Attach else Create;
        case Create => next := SetReady;
        case SetReady => next := Attach;
        case Attach => next := Stamp;
        case Stamp => next := Unlock1;
        case Unlock1 => next := Arrive;
        case Arrive => next := Await;
        case Await => next := Lock2;
        case Lock2 => next := TestDone;
        case TestDone => next := if done then Reread else SetDone;
        case SetDone => next := Poison;
        case Poison => next := Rewrite;
        case Rewrite => next := Unlock2;
        case Reread => next := Unlock2;
        case Unlock2 => next := Finished;
      }
    }

    /** A whole run, in the order the schedule names. */
    method Run(schedule: seq<nat>)
      requires Valid() && Runs(State(), schedule)
      modifies this, pc, shmptr, semReady
      ensures State() == After(old(State()), schedule)
    {
      hide Next, Enabled;
      assert schedule[0..] == schedule;
      for i := 0 to |schedule|
        invariant Runs(State(), schedule[i..])
        invariant After(State(), schedule[i..]) == After(old(State()), schedule)
      {
        assert schedule[i..][0] == schedule[i] && schedule[i..][1..] == schedule[i + 1..];
        Step(schedule[i]);
      }
    }
  }

  lemma {:induction false} StepsInside(s: State, p: nat)
    requires Enabled(s, p)
    ensures p < |s.pc|
  {
  }

  /** The test as it is set up, from command line to end: with the barrier that setup_ipc loads and the children that
      run_test forks, every run is finite, keeps the safety properties, and ends only with every child finished. */
  lemma {:induction false} SetupRuns(childNum: int, testTypes: int, tShm: int, schedule: seq<nat>)
    requires childNum > tShm && 0 <= tShm < testTypes
    requires var n := |SetupIpc.InstancesOf(childNum, testTypes, tShm)|;
      var value := SetupIpc.ShmChildNum(childNum, testTypes, tShm);
      Runs(Init(n, if value > 0 then value else 0), schedule)
    ensures var n := |SetupIpc.InstancesOf(childNum, testTypes, tShm)|;
      && n >= 1 && SetupIpc.ShmChildNum(childNum, testTypes, tShm) == n && |schedule| <= 16 * n
      && ((forall p :: !Enabled(After(Init(n, n), schedule), p)) ==> AllFinished(After(Init(n, n), schedule)))
  {
    hide Init, Runs, After, AllFinished, Enabled;
    SetupIpc.SetupOpensBarrier(childNum, testTypes, tShm);
    EveryRunCompletes(|SetupIpc.InstancesOf(childNum, testTypes, tShm)|, schedule);
  }
}
