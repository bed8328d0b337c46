/** The shared-memory test of page-poisoning.c as a step relation over n processes.

    Every atomic action of `shm_test` on shared state is one step, so the interleavings of
    n copies of `shm_test` are exactly the schedules of this machine. Semaphore 0 is the
    mutex, semaphore 1 the start barrier. */
module ShmProtocol {
  import opened Basics
  import opened Counting

  /** Where a process stands; the constructor names the action it performs next. */
  datatype Pc =
    | Lock1       // request_sem(semid_ready, 0)
    | TestReady   // if (!ipc->shm.ready)
    | Create      // ipc->shm.id = shmget(...)
    | SetReady    // ipc->shm.ready = 1
    | Attach      // shmptr = shmat(ipc->shm.id, ...)
    | Stamp       // *shmptr = mypid
    | Unlock1     // release_sem(semid_ready, 0)
    | Arrive      // waiton_sem: sem_op = -1 on semaphore 1
    | Await       // waiton_sem: sem_op = 0 on semaphore 1
    | Lock2       // request_sem(semid_ready, 0)
    | TestDone    // if (!ipc->shm.done)
    | SetDone     // ipc->shm.done = 1
    | Poison      // testmem: poison(...)
    | Rewrite     // testmem: recover(..., MWRITE)
    | Reread      // recover(..., MREAD)
    | Unlock2     // release_sem(semid_ready, 0)
    | Finished

  /** What an outside observer of a run sees. */
  datatype Event =
    | Created(id: nat)
    | Attached(p: nat, id: nat)
    | Passed(p: nat)
    | Poisoned(p: nat)
    | Rewrote(p: nat)
    | ReRead(p: nat)

  datatype State = State(
    pc: seq<Pc>,                 // one program counter per shared-memory child
    mutex: nat,
    barrier: nat,
    ready: bool,
    id: Option<nat>,             // ipc->shm.id, None for -1
    segments: nat,               // shmget calls so far; the next call returns this number
    shmptr: seq<Option<nat>>,    // the segment each process has attached
    stamp: Option<nat>,          // the last process that wrote its pid into the segment
    done: bool,
    log: seq<Event>)

  /** The state after `setup_ipc`, with `value` loaded into the barrier, and n children forked. */
  function Init(n: nat, value: nat): State {
    State(seq(n, _ => Lock1), 1, value, false, None, 0, seq(n, _ => None), None, false, [])
  }

  /** A semaphore operation is the only action that can block. */
  predicate Enabled(s: State, p: nat)
  {
    p < |s.pc| &&
    match s.pc[p]
    case Lock1 | Lock2 => s.mutex > 0
    case Arrive => s.barrier > 0
    case Await => s.barrier == 0
    case Attach => p < |s.shmptr| && s.id.Some?
    case Stamp => p < |s.shmptr| && s.shmptr[p].Some?
    case Finished => false
    case _ => true
  }

  /** Where process p stands after its step. */
  function NextPc(s: State, p: nat): Pc
    requires Enabled(s, p)
  {
    match s.pc[p]
    case Lock1 => TestReady
    case TestReady => if s.ready then Attach else Create
    case Create => SetReady
    case SetReady => Attach
    case Attach => Stamp
    case Stamp => Unlock1
    case Unlock1 => Arrive
    case Arrive => Await
    case Await => Lock2
    case Lock2 => TestDone
    case TestDone => if s.done then Reread else SetDone
    case SetDone => Poison
    case Poison => Rewrite
    case Rewrite => Unlock2
    case Reread => Unlock2
    case Unlock2 => Finished
  }

  /** The event, if any, that the step of process p shows to an observer. */
  function News(s: State, p: nat): (news: seq<Event>)
    requires Enabled(s, p)
    ensures |news| <= 1
  {
    match s.pc[p]
    case Create => [Created(s.segments)]
    case Attach => [Attached(p, s.id.value)]
    case Await => [Passed(p)]
    case Poison => [Poisoned(p)]
    case Rewrite => [Rewrote(p)]
    case Reread => [ReRead(p)]
    case _ => []
  }

  /** What the step of process p does to the semaphores and the shared memory. */
  function Act(s: State, p: nat): State
    requires Enabled(s, p)
  {
    match s.pc[p]
    case Lock1 | Lock2 => s.(mutex := s.mutex - 1)
    case Create => s.(id := Some(s.segments), segments := s.segments + 1)
    case SetReady => s.(ready := true)
    case Attach => s.(shmptr := s.shmptr[p := s.id])
    case Stamp => s.(stamp := Some(p))
    case Unlock1 | Unlock2 => s.(mutex := s.mutex + 1)
    case Arrive => s.(barrier := s.barrier - 1)
    case SetDone => s.(done := true)
    case _ => s
  }

  function Next(s: State, p: nat): State
    requires Enabled(s, p)
  {
    Act(s, p).(pc := s.pc[p := NextPc(s, p)], log := s.log + News(s, p))
  }

  /** A schedule names the process that moves at each step. */
  ghost predicate Runs(s: State, schedule: seq<nat>)
    decreases |schedule|
  {
    schedule == [] || (Enabled(s, schedule[0]) && Runs(Next(s, schedule[0]), schedule[1..]))
  }

  ghost function After(s: State, schedule: seq<nat>): State
    requires Runs(s, schedule)
    decreases |schedule|
  {
    if schedule == [] then s else After(Next(s, schedule[0]), schedule[1..])
  }

  // ---------------------------------------------------------------- invariant

  function Rank(c: Pc): nat {
    match c
    case Lock1 => 0
    case TestReady => 1
    case Create => 2
    case SetReady => 3
    case Attach => 4
    case Stamp => 5
    case Unlock1 => 6
    case Arrive => 7
    case Await => 8
    case Lock2 => 9
    case TestDone => 10
    case SetDone => 11
    case Poison => 12
    case Rewrite => 13
    case Reread => 14
    case Unlock2 => 15
    case Finished => 16
  }

  /** Between request_sem and release_sem of the mutex. */
  predicate Holds(c: Pc) {
    !(c.Lock1? || c.Arrive? || c.Await? || c.Lock2? || c.Finished?)
  }

  predicate Arrived(c: Pc) {
    c.Await? || c.Lock2? || c.TestDone? || c.SetDone? || c.Poison? || c.Rewrite? || c.Reread? || c.Unlock2? || c.Finished?
  }

  predicate AtSetReady(c: Pc) { c.SetReady? }
  predicate AtPoison(c: Pc) { c.Poison? }
  predicate AtTestmem(c: Pc) { c.Poison? || c.Rewrite? }
  predicate Tested(c: Pc) { c.Unlock2? || c.Finished? }

  predicate IsCreated(e: Event) { e.Created? }
  predicate IsPoisoned(e: Event) { e.Poisoned? }
  predicate IsRewrote(e: Event) { e.Rewrote? }
  predicate IsReRead(e: Event) { e.ReRead? }

  function Bit(b: bool): nat { if b then 1 else 0 }

  /** What the flags, the segment and the log say about one process. */
  ghost predicate ProcessInv(s: State, p: nat)
    requires p < |s.pc| == |s.shmptr|
  {
    var r := Rank(s.pc[p]);
    && (s.shmptr[p] == if r > 4 then Some(0) else None)
    && (r > 4 ==> Attached(p, 0) in s.log)
    && (s.pc[p] in {Create, SetReady} ==> !s.ready)
    && (r >= 4 ==> s.ready)
    && (r > 8 ==> s.barrier == 0)
    && (s.pc[p] == SetDone ==> !s.done)
    && (r > 11 ==> s.done)
  }

  /** Order of events: with a barrier of at least n nobody passes before all n have attached, every
      attachment is to segment 0, and no reread happens before the one poisoner is through. */
  ghost predicate Ordered(log: seq<Event>, n: nat, value: nat)
  {
    && (value >= n ==> forall k, q :: 0 <= k < |log| && log[k].Passed? && 0 <= q < n ==> Attached(q, 0) in log[..k])
    && (forall k :: 0 <= k < |log| && log[k].Attached? ==> log[k].id == 0)
    && (forall k :: 0 <= k < |log| && log[k].Rewrote? ==> Count(log[..k], IsPoisoned) == 1)
    && (forall k :: 0 <= k < |log| && log[k].ReRead? ==> Count(log[..k], IsPoisoned) == 1 && Count(log[..k], IsRewrote) == 1)
  }

  /** How many processes stand where, and how many events of each kind have happened. */
  datatype Totals = Totals(holds: nat, arrived: nat, atSetReady: nat, atPoison: nat, atTestmem: nat, tested: nat,
                           created: nat, poisoned: nat, rewrote: nat, reread: nat)

  function TotalsOf(pc: seq<Pc>, log: seq<Event>): Totals {
    Totals(Count(pc, Holds), Count(pc, Arrived), Count(pc, AtSetReady), Count(pc, AtPoison), Count(pc, AtTestmem),
           Count(pc, Tested), Count(log, IsCreated), Count(log, IsPoisoned), Count(log, IsRewrote), Count(log, IsReRead))
  }

  /** Semaphores and flags against the totals. */
  predicate TotalsInv(s: State, k: Totals, value: nat)
  {
    && s.mutex + k.holds == 1
    && s.barrier + k.arrived == value
    && s.segments == Bit(s.ready) + k.atSetReady == k.created
    && s.segments <= 1
    && s.id == (if s.segments == 0 then None else Some(0))
    && k.poisoned + k.atPoison == Bit(s.done)
    && k.rewrote + k.atTestmem == Bit(s.done)
    && k.rewrote + k.reread == k.tested
  }

  ghost predicate Inv(s: State, n: nat, value: nat)
  {
    && |s.pc| == |s.shmptr| == n
    && TotalsInv(s, TotalsOf(s.pc, s.log), value)
    && (forall p :: 0 <= p < n ==> ProcessInv(s, p))
    && Ordered(s.log, n, value)
  }

  /** One process moves from c to d and `news` is appended to the log. */
  predicate TotalsMove(k: Totals, c: Pc, d: Pc, news: seq<Event>, l: Totals)
    requires |news| <= 1
  {
    && l.holds + Bit(Holds(c)) == k.holds + Bit(Holds(d))
    && l.arrived + Bit(Arrived(c)) == k.arrived + Bit(Arrived(d))
    && l.atSetReady + Bit(AtSetReady(c)) == k.atSetReady + Bit(AtSetReady(d))
    && l.atPoison + Bit(AtPoison(c)) == k.atPoison + Bit(AtPoison(d))
    && l.atTestmem + Bit(AtTestmem(c)) == k.atTestmem + Bit(AtTestmem(d))
    && l.tested + Bit(Tested(c)) == k.tested + Bit(Tested(d))
    && l.created == k.created + Bit(news != [] && IsCreated(news[0]))
    && l.poisoned == k.poisoned + Bit(news != [] && IsPoisoned(news[0]))
    && l.rewrote == k.rewrote + Bit(news != [] && IsRewrote(news[0]))
    && l.reread == k.reread + Bit(news != [] && IsReRead(news[0]))
  }

  lemma {:induction false} MoveCounts(pc: seq<Pc>, p: nat, d: Pc)
    requires p < |pc|
    ensures Count(pc[p := d], Holds) + Bit(Holds(pc[p])) == Count(pc, Holds) + Bit(Holds(d))
    ensures Count(pc[p := d], Arrived) + Bit(Arrived(pc[p])) == Count(pc, Arrived) + Bit(Arrived(d))
    ensures Count(pc[p := d], AtSetReady) + Bit(AtSetReady(pc[p])) == Count(pc, AtSetReady) + Bit(AtSetReady(d))
    ensures Count(pc[p := d], AtPoison) + Bit(AtPoison(pc[p])) == Count(pc, AtPoison) + Bit(AtPoison(d))
    ensures Count(pc[p := d], AtTestmem) + Bit(AtTestmem(pc[p])) == Count(pc, AtTestmem) + Bit(AtTestmem(d))
    ensures Count(pc[p := d], Tested) + Bit(Tested(pc[p])) == Count(pc, Tested) + Bit(Tested(d))
  {
    CountUpdate(pc, p, d, Holds);
    CountUpdate(pc, p, d, Arrived);
    CountUpdate(pc, p, d, AtSetReady);
    CountUpdate(pc, p, d, AtPoison);
    CountUpdate(pc, p, d, AtTestmem);
    CountUpdate(pc, p, d, Tested);
  }

  lemma {:induction false} LogCounts(log: seq<Event>, news: seq<Event>)
    requires |news| <= 1
    ensures Count(log + news, IsCreated) == Count(log, IsCreated) + Bit(news != [] && IsCreated(news[0]))
    ensures Count(log + news, IsPoisoned) == Count(log, IsPoisoned) + Bit(news != [] && IsPoisoned(news[0]))
    ensures Count(log + news, IsRewrote) == Count(log, IsRewrote) + Bit(news != [] && IsRewrote(news[0]))
    ensures Count(log + news, IsReRead) == Count(log, IsReRead) + Bit(news != [] && IsReRead(news[0]))
  {
    if news == [] {
      assert log + news == log;
    } else {
      assert news == [news[0]];
      CountSnoc(log, news[0], IsCreated);
      CountSnoc(log, news[0], IsPoisoned);
      CountSnoc(log, news[0], IsRewrote);
      CountSnoc(log, news[0], IsReRead);
    }
  }

  lemma {:induction false} MoveTotals(pc: seq<Pc>, p: nat, d: Pc, log: seq<Event>, news: seq<Event>)
    requires p < |pc| && |news| <= 1
    ensures TotalsMove(TotalsOf(pc, log), pc[p], d, news, TotalsOf(pc[p := d], log + news))
  {
    MoveCounts(pc, p, d);
    LogCounts(log, news);
  }

  /** Mutual exclusion: a process that holds the mutex is the only one between request and release. */
  lemma {:induction false} MutualExclusion(s: State, n: nat, value: nat, p: nat, q: nat)
    requires Inv(s, n, value) && p < n && q < n && Holds(s.pc[p])
    ensures s.mutex == 0
    ensures p != q ==> !Holds(s.pc[q])
  {
    CountZero(s.pc, Holds);
    if p != q && Holds(s.pc[q]) {
      CountTwo(s.pc, p, q, Holds);
    }
  }

  lemma {:induction false} InitInv(n: nat, value: nat)
    ensures Inv(Init(n, value), n, value)
  {
    var s := Init(n, value);
    CountZero(s.pc, Holds);
    CountZero(s.pc, Arrived);
    CountZero(s.pc, AtSetReady);
    CountZero(s.pc, AtPoison);
    CountZero(s.pc, AtTestmem);
    CountZero(s.pc, Tested);
  }

  /** No process is between creating and announcing the segment while another is about to create it. */
  lemma {:induction false} CreateAlone(s: State, n: nat, value: nat, p: nat)
    requires Inv(s, n, value) && p < n && s.pc[p] == Create
    ensures Count(s.pc, AtSetReady) == 0
  {
    forall q | 0 <= q < n ensures !AtSetReady(s.pc[q]) { MutualExclusion(s, n, value, p, q); }
    CountZero(s.pc, AtSetReady);
  }

  lemma {:induction false} StepTotals(s: State, p: nat, k: Totals, l: Totals, value: nat)
    requires |s.pc| == |s.shmptr| && Enabled(s, p)
    requires TotalsInv(s, k, value) && ProcessInv(s, p)
    requires s.pc[p] == Create ==> k.atSetReady == 0
    requires TotalsMove(k, s.pc[p], NextPc(s, p), News(s, p), l)
    ensures TotalsInv(Next(s, p), l, value)
  {
  }

  lemma {:induction false} StepSelf(s: State, p: nat, n: nat, value: nat)
    requires Inv(s, n, value) && Enabled(s, p)
    ensures |Next(s, p).pc| == |Next(s, p).shmptr| == n
    ensures ProcessInv(Next(s, p), p)
  {
    hide Ordered, TotalsOf, Next, TotalsInv;
    assert ProcessInv(s, p);
    SelfKeeps(s, p, TotalsOf(s.pc, s.log), value);
  }

  lemma {:induction false} SelfKeeps(s: State, p: nat, k: Totals, value: nat)
    requires |s.pc| == |s.shmptr| && Enabled(s, p) && TotalsInv(s, k, value) && ProcessInv(s, p)
    ensures |Next(s, p).pc| == |Next(s, p).shmptr| == |s.pc|
    ensures ProcessInv(Next(s, p), p)
  {
  }

  lemma {:induction false} StepOther(s: State, p: nat, n: nat, value: nat, q: nat)
    requires Inv(s, n, value) && Enabled(s, p) && q < n && q != p
    ensures |Next(s, p).pc| == |Next(s, p).shmptr| == n
    ensures ProcessInv(Next(s, p), q)
  {
    assert ProcessInv(s, q);
    if Holds(s.pc[p]) { MutualExclusion(s, n, value, p, q); }
  }

  /** At the moment a process passes a barrier of at least n, every process has attached. */
  lemma {:induction false} PassMeansAllAttached(s: State, n: nat, value: nat, q: nat)
    requires Inv(s, n, value) && s.barrier == 0 && value >= n && q < n
    ensures value == n && Arrived(s.pc[q]) && Attached(q, 0) in s.log
  {
    CountAll(s.pc, Arrived);
    assert ProcessInv(s, q);
  }

  /** While one process rereads, the poisoner has poisoned once and written back once. */
  lemma {:induction false} RereadMeansPoisoned(s: State, n: nat, value: nat, p: nat)
    requires Inv(s, n, value) && p < n && s.pc[p] == Reread
    ensures Count(s.log, IsPoisoned) == 1 && Count(s.log, IsRewrote) == 1
  {
    forall q | 0 <= q < n ensures !AtTestmem(s.pc[q]) { MutualExclusion(s, n, value, p, q); }
    CountZero(s.pc, AtPoison);
    CountZero(s.pc, AtTestmem);
    assert ProcessInv(s, p);
  }

  /** And it writes back only what it has poisoned. */
  lemma {:induction false} RewriteMeansPoisoned(s: State, n: nat, value: nat, p: nat)
    requires Inv(s, n, value) && p < n && s.pc[p] == Rewrite
    ensures Count(s.log, IsPoisoned) == 1
  {
    forall q | 0 <= q < n ensures !AtPoison(s.pc[q]) { MutualExclusion(s, n, value, p, q); }
    CountZero(s.pc, AtPoison);
    assert ProcessInv(s, p);
  }

  lemma {:induction false} OrderedSnoc(log: seq<Event>, e: Event, n: nat, value: nat)
    requires Ordered(log, n, value)
    requires e.Passed? && value >= n ==> forall q :: 0 <= q < n ==> Attached(q, 0) in log
    requires e.Attached? ==> e.id == 0
    requires e.Rewrote? ==> Count(log, IsPoisoned) == 1
    requires e.ReRead? ==> Count(log, IsPoisoned) == 1 && Count(log, IsRewrote) == 1
    ensures Ordered(log + [e], n, value)
  {
    var t := log + [e];
    forall k | 0 <= k < |t| ensures t[..k] == log[..k] { }
    assert log[..|log|] == log;
  }

  lemma {:induction false} StepOrdered(s: State, p: nat, n: nat, value: nat)
    requires Inv(s, n, value) && Enabled(s, p)
    ensures Ordered(Next(s, p).log, n, value)
  {
    var news := News(s, p);
    if news == [] {
      assert s.log + news == s.log;
    } else {
      assert news == [news[0]] && ProcessInv(s, p);
      if s.pc[p] == Await && value >= n {
        forall q | 0 <= q < n ensures Attached(q, 0) in s.log { PassMeansAllAttached(s, n, value, q); }
      } else if s.pc[p] == Reread {
        RereadMeansPoisoned(s, n, value, p);
      } else if s.pc[p] == Rewrite {
        RewriteMeansPoisoned(s, n, value, p);
      }
      OrderedSnoc(s.log, news[0], n, value);
    }
  }

  lemma {:induction false} StepInv(s: State, p: nat, n: nat, value: nat)
    requires Inv(s, n, value) && Enabled(s, p)
    ensures Inv(Next(s, p), n, value)
  {
    var t := Next(s, p);
    forall q | 0 <= q < n ensures |t.pc| == |t.shmptr| == n && ProcessInv(t, q) {
      if q == p { StepSelf(s, p, n, value); } else { StepOther(s, p, n, value, q); }
    }
    StepOrdered(s, p, n, value);
    MoveTotals(s.pc, p, NextPc(s, p), s.log, News(s, p));
    if s.pc[p] == Create { CreateAlone(s, n, value, p); }
    assert ProcessInv(s, p);
    StepTotals(s, p, TotalsOf(s.pc, s.log), TotalsOf(t.pc, t.log), value);
  }

  lemma {:induction false} RunInv(s: State, schedule: seq<nat>, n: nat, value: nat)
    requires Inv(s, n, value) && Runs(s, schedule)
    ensures Inv(After(s, schedule), n, value)
    decreases |schedule|
  {
    if schedule != [] {
      StepInv(s, schedule[0], n, value);
      RunInv(Next(s, schedule[0]), schedule[1..], n, value);
    }
  }

  // ---------------------------------------------------------------- progress

  ghost predicate AllFinished(s: State) {
    forall p :: 0 <= p < |s.pc| ==> s.pc[p] == Finished
  }

  /** Steps the processes still have before them, at most. */
  ghost function Left(pc: seq<Pc>): nat {
    if pc == [] then 0 else 16 - Rank(pc[0]) + Left(pc[1..])
  }

  lemma {:induction false} LeftUpdate(pc: seq<Pc>, p: nat, c: Pc)
    requires p < |pc| && Rank(pc[p]) < Rank(c)
    ensures Left(pc[p := c]) < Left(pc)
  {
    if p > 0 {
      assert pc[p := c][1..] == pc[1..][p - 1 := c];
      LeftUpdate(pc[1..], p - 1, c);
    }
  }

  /** Every step of every process decreases the measure. */
  lemma {:induction false} StepDecreases(s: State, p: nat)
    requires Enabled(s, p)
    ensures Left(Next(s, p).pc) < Left(s.pc)
  {
    LeftUpdate(s.pc, p, NextPc(s, p));
  }

  lemma {:induction false} LeftBound(pc: seq<Pc>)
    ensures Left(pc) <= 16 * |pc|
  {
    if pc != [] { LeftBound(pc[1..]); }
  }

  lemma {:induction false} RunLength(s: State, schedule: seq<nat>)
    requires Runs(s, schedule)
    ensures |schedule| + Left(After(s, schedule).pc) <= Left(s.pc)
    decreases |schedule|
  {
    if schedule != [] {
      StepDecreases(s, schedule[0]);
      RunLength(Next(s, schedule[0]), schedule[1..]);
    }
  }

  /** With the barrier set to the number of processes no unfinished state is deadlocked. */
  lemma {:induction false} NoDeadlock(s: State, n: nat) returns (p: nat)
    requires Inv(s, n, n) && !AllFinished(s)
    ensures Enabled(s, p)
  {
    var u :| 0 <= u < n && s.pc[u] != Finished;
    if q :| 0 <= q < n && Holds(s.pc[q]) {
      assert ProcessInv(s, q);
      p := q;
    } else {
      CountZero(s.pc, Holds);
      CountAll(s.pc, Arrived);
      if q :| 0 <= q < n && !Arrived(s.pc[q]) {
        p := q;
      } else {
        p := u;
      }
    }
  }

  lemma {:induction false} Completes(s: State, n: nat) returns (schedule: seq<nat>)
    requires Inv(s, n, n)
    ensures Runs(s, schedule) && AllFinished(After(s, schedule))
    decreases Left(s.pc)
  {
    schedule := [];
    if !AllFinished(s) {
      var p := NoDeadlock(s, n);
      StepInv(s, p, n, n);
      StepDecreases(s, p);
      var rest := Completes(Next(s, p), n);
      schedule := [p] + rest;
      assert schedule[1..] == rest;
    }
  }

  ghost predicate CanComplete(n: nat, value: nat) {
    exists schedule: seq<nat> :: Runs(Init(n, value), schedule) && AllFinished(After(Init(n, value), schedule))
  }

  /** The test can run to completion exactly when the barrier was loaded with the number of processes:
      a smaller value leaves a process at the decrement, a larger one leaves all at the wait for zero. */
  lemma {:induction false} BarrierValueExact(n: nat, value: nat)
    requires n >= 1
    ensures CanComplete(n, value) <==> value == n
  {
    var s := Init(n, value);
    InitInv(n, value);
    if value == n {
      var schedule := Completes(s, n);
    }
    if CanComplete(n, value) {
      var schedule: seq<nat> :| Runs(s, schedule) && AllFinished(After(s, schedule));
      RunInv(s, schedule, n, value);
      FinishedBarrier(After(s, schedule), n, value);
    }
  }

  lemma {:induction false} FinishedBarrier(t: State, n: nat, value: nat)
    requires n >= 1 && Inv(t, n, value) && AllFinished(t)
    ensures t.barrier == 0 && value == n
  {
    CountAll(t.pc, Arrived);
    assert forall p :: 0 <= p < n ==> t.pc[p] == Finished;
    assert ProcessInv(t, 0) && t.pc[0] == Finished;
  }

  /** Every run of n processes is at most 16n steps long and can stop only with all of them finished,
      after one segment was created and attached by all, one process poisoned it, the n - 1 others reread it
      afterwards, and both semaphores are back at rest. */
  lemma {:induction false} EveryRunCompletes(n: nat, schedule: seq<nat>)
    requires n >= 1 && Runs(Init(n, n), schedule)
    ensures |schedule| <= 16 * n
    ensures var t := After(Init(n, n), schedule);
      (forall p :: !Enabled(t, p)) ==>
        && AllFinished(t)
        && Count(t.log, IsCreated) == 1 && t.shmptr == seq(n, _ => Some(0))
        && Count(t.log, IsPoisoned) == Count(t.log, IsRewrote) == 1
        && Count(t.log, IsReRead) == n - 1
        && t.mutex == 1 && t.barrier == 0
  {
    var t := After(Init(n, n), schedule);
    InitInv(n, n);
    RunInv(Init(n, n), schedule, n, n);
    RunLength(Init(n, n), schedule);
    LeftBound(Init(n, n).pc);
    if forall p :: !Enabled(t, p) {
      if !AllFinished(t) { var p := NoDeadlock(t, n); }
      FinishedTotals(t, n);
    }
  }

  lemma {:induction false} FinishedTotals(t: State, n: nat)
    requires n >= 1 && Inv(t, n, n) && AllFinished(t)
    ensures Count(t.log, IsCreated) == 1 && t.shmptr == seq(n, _ => Some(0))
    ensures Count(t.log, IsPoisoned) == Count(t.log, IsRewrote) == 1 && Count(t.log, IsReRead) == n - 1
    ensures t.mutex == 1 && t.barrier == 0
  {
    assert forall p :: 0 <= p < n ==> t.pc[p] == Finished;
    forall p | 0 <= p < n ensures t.shmptr[p] == Some(0) { assert ProcessInv(t, p); }
    assert ProcessInv(t, 0) && t.pc[0] == Finished;
    CountZero(t.pc, Holds);
    CountAll(t.pc, Arrived);
    CountAll(t.pc, Tested);
    CountZero(t.pc, AtSetReady);
    CountZero(t.pc, AtPoison);
    CountZero(t.pc, AtTestmem);
  }

  /** Safety over whole runs: in every reachable state at most one process is between request and release of the
      mutex; no process has passed the barrier before all n attached the one segment; at most one process has
      poisoned it, and every reread comes after that poisoning and its write-back. */
  lemma {:induction false} Safety(n: nat, schedule: seq<nat>)
    requires Runs(Init(n, n), schedule)
    ensures var t := After(Init(n, n), schedule);
      && t.mutex + Count(t.pc, Holds) == 1
      && Count(t.log, IsCreated) <= 1 && Count(t.log, IsPoisoned) <= 1
      && (forall p, id :: Attached(p, id) in t.log ==> id == 0)
      && (forall k, q :: 0 <= k < |t.log| && t.log[k].Passed? && 0 <= q < n ==> Attached(q, 0) in t.log[..k])
      && (forall k :: 0 <= k < |t.log| && t.log[k].Rewrote? ==> Count(t.log[..k], IsPoisoned) == 1)
      && (forall k :: 0 <= k < |t.log| && t.log[k].ReRead? ==>
            Count(t.log[..k], IsPoisoned) == 1 && Count(t.log[..k], IsRewrote) == 1)
  {
    InitInv(n, n);
    RunInv(Init(n, n), schedule, n, n);
  }

  // ------------------------------------------------------------------ the stamp

  /** A process that leaves the first critical section leaves its own number in the segment; and once somebody has, some
      process's number is there. */
  ghost predicate Stamps(s: State) {
    && (forall p :: 0 <= p < |s.pc| && s.pc[p].Unlock1? ==> s.stamp == Some(p))
    && (forall p :: 0 <= p < |s.pc| && Rank(s.pc[p]) > 5 ==> s.stamp.Some?)
    && (s.stamp.Some? ==> s.stamp.value < |s.pc|)
  }

  lemma {:induction false} StampStep(s: State, p: nat, n: nat, value: nat)
    requires Inv(s, n, value) && Enabled(s, p) && Stamps(s)
    ensures Stamps(Next(s, p))
  {
    var t := Next(s, p);
    forall q | 0 <= q < |t.pc| && t.pc[q].Unlock1? ensures t.stamp == Some(q) {
      if q != p && s.pc[p].Stamp? { MutualExclusion(s, n, value, p, q); }
    }
  }

  lemma {:induction false} StampRun(s: State, schedule: seq<nat>, n: nat, value: nat)
    requires Inv(s, n, value) && Runs(s, schedule) && Stamps(s)
    ensures Stamps(After(s, schedule))
    decreases |schedule|
  {
    hide Stamps, Inv, Next, Enabled;
    if schedule != [] {
      StepInv(s, schedule[0], n, value);
      StampStep(s, schedule[0], n, value);
      StampRun(Next(s, schedule[0]), schedule[1..], n, value);
    }
  }

  /** In every run from set-up: the segment holds a process's own number while that process leaves the critical section, and
      at the end the number of one of the processes. */
  lemma {:induction false} StampIsOwn(n: nat, value: nat, schedule: seq<nat>)
    requires Runs(Init(n, value), schedule)
    ensures var t := After(Init(n, value), schedule);
      && (forall p :: 0 <= p < |t.pc| && t.pc[p].Unlock1? ==> t.stamp == Some(p))
      && (n >= 1 && AllFinished(t) ==> t.stamp.Some? && t.stamp.value < n)
  {
    InitInv(n, value);
    StampRun(Init(n, value), schedule, n, value);
    RunInv(Init(n, value), schedule, n, value);
    var t := After(Init(n, value), schedule);
    if n >= 1 && AllFinished(t) { assert t.pc[0] == Finished; }
  }
}
