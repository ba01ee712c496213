/**
 What holds in every state that the process system can reach.
 */
module ProcTheorems {
  import opened Proc
  import opened ProcInv
  import opened ProcWait
  import opened ProcIrq
  import opened ProcKids

  /** After userinit: the first process is runnable, every other slot is free, all CPUs are in their schedulers. */
  ghost predicate Start(s: Sys) {
    && Shape(s) && s.owner == map[]
    && (forall c :: 0 <= c < |s.cpu| ==> s.cpu[c] == Idle && s.irq[c] == Calm)
    && (forall p :: 0 <= p < |s.st| ==> s.at[p] == -1 && s.parent[p] == -1 && s.chan[p] == -1)
    && (forall p :: 0 <= p < |s.st| && p != INIT ==> s.st[p] == UNUSED && s.pc[p] == Dead)
    && s.st[INIT] == RUNNABLE && s.pc[INIT] == Fresh
  }

  ghost predicate Good(s: Sys) { Inv(s) && Family(s) && Handlers(s) && Kids(s) }

  lemma StartInv(s: Sys)
    requires Start(s)
    ensures Inv(s)
  {
    forall p | 0 <= p < |s.st| ensures ProcOk(s, p) && CreateOk(s, p) {
    }
    forall p, q | 0 <= p < |s.st| && 0 <= q < |s.st| ensures CreateApart(s, p, q) {
    }
    forall c, l | 0 <= c < |s.cpu| ensures LockOk(s, c, l) {
    }
  }

  lemma StartGood(s: Sys)
    requires Start(s)
    ensures Good(s)
  {
    hide Inv;
    StartInv(s);
    forall q | 0 <= q < |s.st| ensures Duty(s, q) && ZombieOk(s, q) && KidsAt(s.parent, q, s.pc[q]) {
    }
  }

  ghost predicate IsRun(run: seq<Sys>, who: seq<(int, int)>) {
    && |run| == |who| + 1 && Start(run[0])
    && forall k :: 0 <= k < |who| ==> Step(run[k], run[k + 1], who[k].0, who[k].1)
  }

  /** Every state of every interleaving is good. */
  lemma {:induction false} RunsAreGood(run: seq<Sys>, who: seq<(int, int)>, k: nat)
    requires IsRun(run, who) && k < |run|
    ensures Good(run[k])
  {
    hide Inv, Family, Handlers, Kids, ProcessStep, SchedulerStep, HandlerStep, Start;
    if k == 0 {
      StartGood(run[0]);
    } else {
      RunsAreGood(run, who, k - 1);
      StepKeeps(run[k - 1], run[k], who[k - 1].0, who[k - 1].1);
      StepFamily(run[k - 1], run[k], who[k - 1].0, who[k - 1].1);
      StepKids(run[k - 1], run[k], who[k - 1].0, who[k - 1].1);
      if HandlerStep(run[k - 1], run[k], who[k - 1].0) {
        HandlerDuty(run[k - 1], run[k], who[k - 1].0);
      } else {
        StepHandlers(run[k - 1], run[k], who[k - 1].0, who[k - 1].1);
      }
    }
  }

  // ---------------------------------------------------------------- locks and hand-over

  /** The CPU's proc field names p. */
  predicate HasProc(s: Sys, c: int, p: int)
    requires 0 <= c < |s.cpu|
  {
    s.cpu[c] == Running(p) || s.cpu[c] == Back(p)
  }

  /** At most one CPU has p as its process. */
  lemma OneCpu(s: Sys, p: int, c: int, c2: int)
    requires Good(s) && 0 <= c < |s.cpu| && 0 <= c2 < |s.cpu| && HasProc(s, c, p) && HasProc(s, c2, p)
    ensures c == c2
  {
    hide Family, Creators;
    assert CpuOk(s, c) && CpuOk(s, c2);
  }

  /** Lock hand-off: while p->lock is free, p is RUNNING exactly when a CPU has it as its process, and that CPU is
      executing p, or a handler over it. */
  lemma HandOff(s: Sys, p: int)
    requires Good(s) && 0 <= p < |s.st| && Owner(s, P(p)) == -1
    ensures s.st[p] == RUNNING <==> exists c :: 0 <= c < |s.cpu| && HasProc(s, c, p)
    ensures forall c :: 0 <= c < |s.cpu| && HasProc(s, c, p) ==> s.cpu[c] == Running(p)
  {
    hide Family, Creators;
    assert ProcOk(s, p);
    if s.st[p] == RUNNING {
      assert HasProc(s, s.at[p], p);
    }
    forall c | 0 <= c < |s.cpu| && HasProc(s, c, p) ensures s.cpu[c] == Running(p) && s.st[p] == RUNNING {
      assert CpuOk(s, c);
      UnlockedRuns(s, p, c);
    }
  }

  lemma UnlockedRuns(s: Sys, p: int, c: int)
    requires Inv(s) && 0 <= p < |s.st| && Owner(s, P(p)) == -1 && 0 <= c < |s.cpu| && HasProc(s, c, p)
    ensures s.cpu[c] == Running(p) && s.st[p] == RUNNING
  {
    hide Creators;
    assert LockOk(s, c, P(p)) && CpuOk(s, c) && ProcOk(s, p);
  }

  /** The panics of release and acquire are out of reach: a lock about to be released is held by this CPU, and a lock
      about to be acquired is not. */
  lemma LocksAreUsedWell(s: Sys, c: int, p: int, b: bool)
    requires Good(s) && Runs(s, c, p)
    ensures Rel(p, s.pc[p], b).Some? ==> Owner(s, Rel(p, s.pc[p], b).v.0) == c
    ensures Acq(p, |s.pc|, s.pc[p]).Some? ==> Owner(s, Acq(p, |s.pc|, s.pc[p]).v.0) != c
  {
    hide Family, Creators, HeldAt;
    RunsFits(s, c, p);
    if Rel(p, s.pc[p], b).Some? {
      RelFits(p, s.st[p], s.chan[p], s.pc[p], b);
      RelHolds(p, s.pc[p], b, W);
      assert LockOk(s, c, Rel(p, s.pc[p], b).v.0);
    }
    if Acq(p, |s.pc|, s.pc[p]).Some? {
      AcqFits(p, |s.pc|, s.st[p], s.chan[p], s.pc[p]);
      AcqHolds(p, |s.pc|, s.pc[p], W);
      assert LockOk(s, c, Acq(p, |s.pc|, s.pc[p]).v.0);
    }
  }

  /** The panics of sched are out of reach: at swtch the CPU holds p->lock and no other lock, and p is not RUNNING. */
  lemma SchedIsSafe(s: Sys, s': Sys, c: int, p: int, l: Lk)
    requires Good(s) && SwitchStep(s, s', c, p)
    ensures Owner(s, l) == c <==> l == P(p)
    ensures s.st[p] != RUNNING
  {
    hide Family, Creators, HeldAt;
    RunsFits(s, c, p);
    SwitchHolds(p, s.pc[p], l);
    assert LockOk(s, c, l);
  }

  // ---------------------------------------------------------------- the states of a process

  /** Process i or a handler on CPU c is in a wakeup of q's channel, or process i is killing q. */
  predicate Wakes(s: Sys, c: int, i: int, q: int)
    requires Shape(s) && 0 <= q < |s.st| && 0 <= c < |s.cpu|
  {
    || (0 <= i < |s.pc| && s.pc[i].Wake? && s.pc[i].j == q && s.pc[i].ch == s.chan[q])
    || (0 <= i < |s.pc| && s.pc[i] == KillDo(q))
    || (s.irq[c].IrqWake? && s.irq[c].j == q && s.irq[c].ch == s.chan[q])
  }

  /** Who may change the state of process q, and to what. */
  predicate MayBecome(s: Sys, s': Sys, c: int, i: int, q: int)
    requires Shape(s) && Shape(s') && |s'.st| == |s.st| && |s'.cpu| == |s.cpu| && 0 <= q < |s.st| && 0 <= c < |s.cpu|
  {
    match s.st[q]
    case UNUSED => s'.st[q] == USED && 0 <= i < |s.pc| && Creating(s'.pc[i]) == Some(q)
    case USED => s'.st[q] == RUNNABLE && 0 <= i < |s.pc| && Creating(s.pc[i]) == Some(q) && s.parent[q] == i
    case RUNNABLE => s'.st[q] == RUNNING && s'.cpu[c] == Running(q) && s'.at[q] == c
    case RUNNING => (s'.st[q] == SLEEPING || s'.st[q] == RUNNABLE || s'.st[q] == ZOMBIE) && Runs(s, c, q) && q == i
    case SLEEPING => s'.st[q] == RUNNABLE && Wakes(s, c, i, q)
    case ZOMBIE => s'.st[q] == UNUSED && 0 <= i < |s.pc| && s.parent[q] == i
  }

  /** Every change of a process's state is one of these: a slot is taken by its creator, who is its parent by the time
      it may run; a scheduler runs what is RUNNABLE and nothing else; a process puts itself to sleep, aside or to an
      end; a sleeper is woken on its own channel or killed; the parent reaps. */
  lemma StateChanges(s: Sys, s': Sys, c: int, i: int, q: int)
    requires Good(s) && Step(s, s', c, i) && Shape(s') && |s'.st| == |s.st| && |s'.cpu| == |s.cpu|
    requires 0 <= q < |s.st| && 0 <= c < |s.cpu| && s'.st[q] != s.st[q]
    ensures MayBecome(s, s', c, i, q)
  {
    hide Handlers, HeldAt, Duty, ZombieOk, Acq, Rel, Jump, Preemptible, Inv, Kids, MayBecome, ProcessStep, HandlerStep,
      SchedulerStep;
    if HandlerStep(s, s', c) {
      HandlerChanges(s, s', c, i, q);
    } else if SchedulerStep(s, s', c, i) {
      SchedulerChanges(s, s', c, i, q);
    } else {
      ProcessChanges(s, s', c, i, q);
    }
  }

  lemma HandlerChanges(s: Sys, s': Sys, c: int, i: int, q: int)
    requires Inv(s) && HandlerStep(s, s', c) && Shape(s') && |s'.st| == |s.st| && |s'.cpu| == |s.cpu|
    requires 0 <= q < |s.st| && 0 <= c < |s.cpu| && s'.st[q] != s.st[q]
    ensures MayBecome(s, s', c, i, q)
  {
    hide HeldAt, Creators, Fits, Preemptible;
  }

  lemma SchedulerChanges(s: Sys, s': Sys, c: int, i: int, q: int)
    requires Inv(s) && SchedulerStep(s, s', c, i) && Shape(s') && |s'.st| == |s.st| && |s'.cpu| == |s.cpu|
    requires 0 <= q < |s.st| && 0 <= c < |s.cpu| && s'.st[q] != s.st[q]
    ensures MayBecome(s, s', c, i, q)
  {
    hide HeldAt, Creators, Fits;
  }

  lemma ProcessChanges(s: Sys, s': Sys, c: int, i: int, q: int)
    requires Inv(s) && Kids(s) && ProcessStep(s, s', c, i) && Shape(s') && |s'.st| == |s.st| && |s'.cpu| == |s.cpu|
    requires 0 <= q < |s.st| && 0 <= c < |s.cpu| && s'.st[q] != s.st[q]
    ensures MayBecome(s, s', c, i, q)
  {
    hide HeldAt, Creators, Acq, Rel, Jump, Preemptible, Fits, MayBecome, ReapStep, ForkStep, OwnStateStep, WakeStep;
    if OwnStateStep(s, s', c, i) {
      OwnChanges(s, s', c, i, q);
    } else if WakeStep(s, s', c, i) {
      WakeChanges(s, s', c, i, q);
    } else {
      FamilyChanges(s, s', c, i, q);
    }
  }

  lemma OwnChanges(s: Sys, s': Sys, c: int, i: int, q: int)
    requires Inv(s) && OwnStateStep(s, s', c, i) && Shape(s') && |s'.st| == |s.st| && |s'.cpu| == |s.cpu|
    requires 0 <= q < |s.st| && 0 <= c < |s.cpu| && s'.st[q] != s.st[q]
    ensures MayBecome(s, s', c, i, q)
  {
    hide HeldAt, Creators;
    RunsFits(s, c, i);
  }

  lemma WakeChanges(s: Sys, s': Sys, c: int, i: int, q: int)
    requires Inv(s) && WakeStep(s, s', c, i) && Shape(s') && |s'.st| == |s.st| && |s'.cpu| == |s.cpu|
    requires 0 <= q < |s.st| && 0 <= c < |s.cpu| && s'.st[q] != s.st[q]
    ensures MayBecome(s, s', c, i, q)
  {
    hide HeldAt, Creators, Fits;
  }

  lemma FamilyChanges(s: Sys, s': Sys, c: int, i: int, q: int)
    requires Inv(s) && Kids(s) && (ReapStep(s, s', c, i) || ForkStep(s, s', c, i))
    requires Shape(s') && |s'.st| == |s.st| && |s'.cpu| == |s.cpu|
    requires 0 <= q < |s.st| && 0 <= c < |s.cpu| && s'.st[q] != s.st[q]
    ensures MayBecome(s, s', c, i, q)
  {
    hide HeldAt, Creators, Fits;
    RunsUsed(s, c, i);
    CreatorIs(s, i);
    assert KidsAt(s.parent, i, s.pc[i]) && ForksAt(s.parent, i, s.pc[i]);
  }

  // ---------------------------------------------------------------- sleep and wakeup

  /** No lost wakeup: when wakeup(ch) returns to a caller that held lk throughout, no process is left waiting in
      sleep(ch, lk). */
  lemma NoLostWakeup(s: Sys, w: int, q: int)
    requires Good(s) && 0 <= w < |s.st| && 0 <= q < |s.st|
    requires s.pc[w].Wake? && s.pc[w].w == WAcq && s.pc[w].j == |s.st| && s.pc[w].ret != ToRun
    ensures !Waiting(s, q, s.pc[w].ch, RetLock(s.pc[w].ret))
  {
    hide Creators, ChildlessOk, ExitOk, ScanOk;
    assert Duty(s, w);
  }

  /** Nor in an interrupt handler, on an idle CPU or over any process: when its wakeup(ch) is through, no process is
      left waiting in sleep(ch, lk) for the lock that the handler holds. */
  lemma NoLostWakeupInHandler(s: Sys, c: int, q: int)
    requires Good(s) && 0 <= c < |s.cpu| == |s.irq| && 0 <= q < |s.st|
    requires s.irq[c].IrqWake? && s.irq[c].w == WAcq && s.irq[c].j == |s.st|
    ensures !Waiting(s, q, s.irq[c].ch, O(s.irq[c].k))
  {
    hide Creators, Fits, HeldBy, Family;
    assert IrqDuty(s, c) && CpuOk(s, c);
    if s.cpu[c] == Running(q) {
      RestingIsAwake(s.pc[q]);
    }
  }

  lemma RestingIsAwake(pc: Pc)
    requires Preemptible(pc)
    ensures pc.Sleep? ==> pc.s == SReacq
  {
  }

  /** A handler acquires no lock that its CPU holds, and releases only what it holds. */
  lemma HandlerLocksAreUsedWell(s: Sys, c: int)
    requires Good(s) && 0 <= c < |s.cpu| == |s.irq|
    ensures s.irq[c].IrqAcq? ==> Owner(s, O(s.irq[c].k)) != c
    ensures s.irq[c].IrqHold? || s.irq[c].IrqWake? ==> Owner(s, O(s.irq[c].k)) == c
    ensures s.irq[c].IrqWake? ==> (Owner(s, P(s.irq[c].j)) == c <==> s.irq[c].w != WAcq)
  {
    hide Creators, Fits, Family, HeldAt, Preemptible;
    assert CpuOk(s, c);
    if s.irq[c] != Calm {
      AtRestHolds(s, c, O(s.irq[c].k));
      assert LockOk(s, c, O(s.irq[c].k));
    }
    if s.irq[c].IrqWake? {
      AtRestHolds(s, c, P(s.irq[c].j));
      assert LockOk(s, c, P(s.irq[c].j));
    }
  }

  /** A process that has gone to sleep is recorded as such until it is woken. */
  lemma SleepersWait(s: Sys, q: int)
    requires Good(s) && 0 <= q < |s.st| && s.st[q] == SLEEPING
    ensures s.pc[q].Sleep? && s.pc[q].ch == s.chan[q] && Waiting(s, q, s.chan[q], s.pc[q].lk)
  {
    hide Family, Creators;
    assert ProcOk(s, q);
  }

  /** A process that does not sleep, and is not about to, is on no channel. */
  lemma AwakeOnNoChannel(s: Sys, q: int)
    requires Good(s) && 0 <= q < |s.st| && !s.pc[q].Sleep?
    ensures s.chan[q] == -1
  {
    hide Family, Creators, Handlers, Fits, HeldAt;
    assert ChanAt(s.chan[q], s.pc[q]);
  }

  // ---------------------------------------------------------------- wait and exit

  /** While wait_lock is free, no process asleep in kwait has a zombie child. */
  lemma NobodyMissesAZombie(s: Sys, q: int, ch: int, i: int)
    requires Good(s) && Owner(s, W) == -1 && 0 <= q < |s.st| && 0 <= i < |s.st|
    requires Waiting(s, q, ch, W) && s.parent[i] == q
    ensures s.st[i] != ZOMBIE
  {
    hide Creators, ChildlessOk, ExitOk, WakeOk;
    assert ZombieOk(s, i) && Duty(s, q);
  }

  /** kwait ends its scan with nothing to wait for exactly if no process has the caller as its parent. */
  lemma ChildlessDoNotWait(s: Sys, s': Sys, c: int, p: int)
    requires Good(s) && JumpStep(s, s', c, p) && s.pc[p].WaitScan? && s.pc[p].i >= |s.st|
    ensures s'.pc[p] == WaitDone <==> forall i :: 0 <= i < |s.st| ==> s.parent[i] != p
    ensures s'.pc[p] == WaitKillAcq <==> exists i :: 0 <= i < |s.st| && s.parent[i] == p
  {
    hide Family, Creators, Handlers, Fits, HeldAt;
    assert KidsAt(s.parent, p, s.pc[p]);
  }

  /** A process going to sleep in kwait, or asleep there, has a child to wake it. */
  lemma SleepersHaveChildren(s: Sys, q: int)
    requires Good(s) && 0 <= q < |s.st| && s.pc[q].Sleep? && s.pc[q].lk == W && s.pc[q].s != SReacq
    ensures exists i :: 0 <= i < |s.st| && s.parent[i] == q
  {
    hide Family, Creators, Handlers, Fits, HeldAt;
    assert KidsAt(s.parent, q, s.pc[q]);
  }

  /** A process gets its creator as its parent; it loses a parent only by a step of that parent, which gives it to
      init when it exits, and frees its slot when it finds it dead. */
  lemma ParentsChange(s: Sys, s': Sys, c: int, p: int, i: int)
    requires Good(s) && Step(s, s', c, p) && 0 <= i < |s.st| == |s.parent| == |s'.st| == |s'.parent| == |s.pc|
    requires s'.parent[i] != s.parent[i]
    ensures 0 <= p < |s.pc| && (s.parent[i] == -1 || s.parent[i] == p)
    ensures s.parent[i] == -1 ==> Creating(s.pc[p]) == Some(i) && s'.parent[i] == p
    ensures s.parent[i] == p && Exiting(s.pc[p]) ==> s'.parent[i] == INIT
    ensures s.parent[i] == p && !Exiting(s.pc[p]) ==>
              s.st[i] == ZOMBIE && s'.st[i] == UNUSED && s'.parent[i] == -1
  {
    hide Creators, Handlers, Fits, HeldAt, Duty, ZombieOk, Step;
    ParentSteps(s, s', c, p);
    assert KidsAt(s.parent, p, s.pc[p]) && ForksAt(s.parent, p, s.pc[p]);
  }

  lemma ParentSteps(s: Sys, s': Sys, c: int, p: int)
    requires Good(s) && Step(s, s', c, p) && s'.parent != s.parent
    ensures ReapStep(s, s', c, p) || ForkStep(s, s', c, p) || ReparentStep(s, s', c, p)
  {
    hide Creators, Fits, HeldAt, Duty, ZombieOk, Jump, Acq, Rel, Preemptible, Handlers, Kids, ReapStep, ForkStep,
      ReparentStep, HandlerStep;
    if HandlerStep(s, s', c) {
      HandlerQuiet(s, s', c);
    }
  }

  /** No process has a zombie, or a free slot, as its parent. */
  lemma NoOrphans(s: Sys, e: int, i: int)
    requires Good(s) && 0 <= e < |s.st| && 0 <= i < |s.st|
    requires (s.st[e] == ZOMBIE || s.st[e] == UNUSED || s.st[e] == USED)
    ensures s.parent[i] != e
  {
    hide Creators, ExitOk, WakeOk, ScanOk;
    assert Duty(s, e) && ProcOk(s, e);
  }

  /** kwait frees a slot only when its process is off every CPU. */
  lemma ReapedIsOff(s: Sys, s': Sys, c: int, p: int)
    requires Good(s) && ReapStep(s, s', c, p) && s.st[s.pc[p].i] == ZOMBIE
    ensures s.at[s.pc[p].i] == -1
  {
    hide Family, Creators;
    NotAsleep(s, c, p);
    AsleepIsOff(s, c, p, s.pc[p].i);
    assert ProcOk(s, s.pc[p].i);
  }
}
