/**
 Locks and the hand-over of CPUs in every interleaving.
 */
module ProcInv {
  import opened Proc

  // ---------------------------------------------------------------- one process

  datatype Where = Off | OnBack | OnRunning

  /** Where a process is: on no CPU, on one that has switched away from it, or running. */
  function Place(s: Sys, p: int): Where
    requires 0 <= p < |s.at|
  {
    var c := s.at[p];
    if !(0 <= c < |s.cpu|) then Off else if s.cpu[c] == Running(p) then OnRunning else OnBack
  }

  /** Where a process waits in swtch. */
  predicate Parked(pc: Pc) {
    match pc
    case Sleep(at, _, _) => at == SWoken
    case Yield(at, back) => at == YUnlock && Preemptible(back)
    case Fresh => true
    case _ => false
  }

  /** The state of a process fits its code position and its place. */
  predicate Fits(st: PState, chan: int, pc: Pc, at: Where) {
    if at == OnRunning then
      match pc
      case Sleep(step, ch, lk) =>
        && !lk.P?
        && st == (if step == SSwitch then SLEEPING else RUNNING)
        && (step == SState || step == SSwitch ==> chan == ch)
      case Yield(step, back) => Preemptible(back) && st == if step == YSwitch then RUNNABLE else RUNNING
      case ExitRel => st == ZOMBIE
      case ExitSwitch => st == ZOMBIE
      case Dead => false
      case _ => st == RUNNING
    else
      match st
      case UNUSED => at == Off && pc == Dead
      case USED => at == Off && pc == Fresh
      case SLEEPING => pc.Sleep? && pc.s == SWoken && pc.ch == chan && !pc.lk.P?
      case RUNNABLE => Parked(pc) && (pc.Sleep? ==> !pc.lk.P?)
      case RUNNING => false
      case ZOMBIE => pc == Dead
  }

  /** The child that a process is creating, between taking its slot and letting it run. */
  function Creating(pc: Pc): Option<int> {
    match pc
    case ForkMade(i) => Some(i)
    case ForkWait(i) => Some(i)
    case ForkParent(i) => Some(i)
    case ForkWaitRel(i) => Some(i)
    case ForkLock(i) => Some(i)
    case ForkState(i) => Some(i)
    case Yield(_, back) => if back.ForkWait? || back.ForkLock? then Some(back.i) else None
    case _ => None
  }

  predicate Shape(s: Sys) {
    |s.st| == |s.chan| == |s.parent| == |s.pc| == |s.at| && 0 < |s.st| && |s.cpu| == |s.irq|
  }

  predicate CpuOk(s: Sys, c: int)
    requires 0 <= c < |s.cpu| && Shape(s)
  {
    && IrqOk(s, c)
    && match s.cpu[c]
       case Idle => true
       case Looking(i, ran) => 0 <= i < |s.st|
       case Back(i) => 0 <= i < |s.st| && s.at[i] == c
       case Running(i) => 0 <= i < |s.st| && s.at[i] == c
  }

  /** A handler runs only where no lock is held, and never looks at the process it has interrupted. */
  predicate IrqOk(s: Sys, c: int)
    requires 0 <= c < |s.cpu| && Shape(s)
  {
    && (s.irq[c] == Calm || AtRest(s, c))
    && (s.irq[c].IrqWake? ==> s.irq[c].j <= |s.st|)
    && (s.irq[c].IrqWake? && s.irq[c].w != WAcq ==> s.irq[c].j < |s.st| && s.cpu[c] != Running(s.irq[c].j))
  }

  predicate ProcOk(s: Sys, p: int)
    requires 0 <= p < |s.st| && Shape(s)
  {
    && -1 <= s.at[p] < |s.cpu|
    && (s.at[p] >= 0 ==> s.cpu[s.at[p]] == Running(p) || s.cpu[s.at[p]] == Back(p))
    && Fits(s.st[p], s.chan[p], s.pc[p], Place(s, p))
  }

  predicate LockOk(s: Sys, c: int, l: Lk)
    requires 0 <= c < |s.cpu| == |s.irq|
  {
    HeldBy(s, c, l) <==> Owner(s, l) == c
  }

  /** A child being created waits for its creator, and has only one. */
  predicate CreateOk(s: Sys, q: int)
    requires 0 <= q < |s.st| && Shape(s)
  {
    var m := Creating(s.pc[q]);
    m.Some? ==> 0 <= m.v < |s.st| && s.st[m.v] == USED
  }

  predicate CreateApart(s: Sys, q: int, q': int)
    requires 0 <= q < |s.pc| && 0 <= q' < |s.pc|
  {
    q != q' && Creating(s.pc[q]).Some? ==> Creating(s.pc[q']) != Creating(s.pc[q])
  }

  ghost predicate Creators(s: Sys)
    requires Shape(s)
  {
    && (forall q :: 0 <= q < |s.st| ==> CreateOk(s, q))
    && (forall q, q' :: 0 <= q < |s.st| && 0 <= q' < |s.st| ==> CreateApart(s, q, q'))
  }

  ghost predicate Inv(s: Sys) {
    && Shape(s)
    && (forall c :: 0 <= c < |s.cpu| ==> CpuOk(s, c))
    && (forall p :: 0 <= p < |s.st| ==> ProcOk(s, p))
    && (forall c, l :: 0 <= c < |s.cpu| ==> LockOk(s, c, l))
    && (forall l :: -1 <= Owner(s, l) < |s.cpu|)
    && Creators(s)
  }

  // ---------------------------------------------------------------- locks

  lemma AcqHolds(p: int, n: int, pc: Pc, l: Lk)
    requires Acq(p, n, pc).Some? && (pc.Sleep? ==> !pc.lk.P?)
    ensures HeldAt(p, Acq(p, n, pc).v.1, l) <==> HeldAt(p, pc, l) || l == Acq(p, n, pc).v.0
    ensures !HeldAt(p, pc, Acq(p, n, pc).v.0)
  {
  }

  lemma RelHolds(p: int, pc: Pc, b: bool, l: Lk)
    requires Rel(p, pc, b).Some? && (pc.Sleep? ==> !pc.lk.P?) && (pc.Yield? ==> Preemptible(pc.back))
    ensures HeldAt(p, Rel(p, pc, b).v.1, l) <==> HeldAt(p, pc, l) && l != Rel(p, pc, b).v.0
    ensures HeldAt(p, pc, Rel(p, pc, b).v.0)
  {
  }

  lemma JumpHolds(s: Sys, p: int, pc: Pc, pc': Pc, l: Lk)
    requires Jump(s, p, pc, pc')
    ensures HeldAt(p, pc', l) <==> HeldAt(p, pc, l)
  {
  }

  lemma PreemptHolds(p: int, pc: Pc, l: Lk)
    requires Preemptible(pc)
    ensures !HeldAt(p, pc, l)
  {
  }

  /** Positions of running processes other than p are as before. */
  predicate OthersSame(s: Sys, s': Sys, p: int) {
    && Shape(s) && Shape(s') && |s'.st| == |s.st| && s'.cpu == s.cpu && s'.irq == s.irq && s'.at == s.at
    && forall q :: 0 <= q < |s.pc| && q != p && s.at[q] >= 0 ==> s'.pc[q] == s.pc[q]
  }

  lemma OthersHold(s: Sys, s': Sys, c: int, p: int, c2: int, l: Lk)
    requires Inv(s) && Runs(s, c, p) && OthersSame(s, s', p) && 0 <= c2 < |s.cpu| && c2 != c
    ensures HeldBy(s', c2, l) == HeldBy(s, c2, l)
  {
    assert CpuOk(s, c2) && CpuOk(s, c);
  }

  lemma LocksKept(s: Sys, s': Sys, c: int, p: int)
    requires Inv(s) && Runs(s, c, p) && OthersSame(s, s', p) && s'.owner == s.owner
    requires forall l :: HeldAt(p, s'.pc[p], l) <==> HeldAt(p, s.pc[p], l)
    ensures forall c2, l :: 0 <= c2 < |s'.cpu| ==> LockOk(s', c2, l)
    ensures forall l :: -1 <= Owner(s', l) < |s'.cpu|
  {
    forall c2, l | 0 <= c2 < |s'.cpu| ensures LockOk(s', c2, l) {
      assert LockOk(s, c2, l);
      if c2 != c {
        OthersHold(s, s', c, p, c2, l);
      }
    }
    forall l ensures -1 <= Owner(s', l) < |s'.cpu| {
      assert -1 <= Owner(s, l) < |s.cpu|;
    }
  }

  lemma LockTaken(s: Sys, s': Sys, c: int, p: int, l0: Lk)
    requires Inv(s) && Runs(s, c, p) && OthersSame(s, s', p) && s'.owner == s.owner[l0 := c] && Owner(s, l0) == -1
    requires forall l :: HeldAt(p, s'.pc[p], l) <==> HeldAt(p, s.pc[p], l) || l == l0
    ensures forall c2, l :: 0 <= c2 < |s'.cpu| ==> LockOk(s', c2, l)
    ensures forall l :: -1 <= Owner(s', l) < |s'.cpu|
  {
    forall c2, l | 0 <= c2 < |s'.cpu| ensures LockOk(s', c2, l) {
      assert LockOk(s, c2, l);
      if c2 != c {
        OthersHold(s, s', c, p, c2, l);
      }
    }
    forall l ensures -1 <= Owner(s', l) < |s'.cpu| {
      assert -1 <= Owner(s, l) < |s.cpu|;
    }
  }

  lemma LockGiven(s: Sys, s': Sys, c: int, p: int, l0: Lk)
    requires Inv(s) && Runs(s, c, p) && OthersSame(s, s', p) && s'.owner == s.owner[l0 := -1] && HeldAt(p, s.pc[p], l0)
    requires forall l :: HeldAt(p, s'.pc[p], l) <==> HeldAt(p, s.pc[p], l) && l != l0
    ensures forall c2, l :: 0 <= c2 < |s'.cpu| ==> LockOk(s', c2, l)
    ensures forall l :: -1 <= Owner(s', l) < |s'.cpu|
  {
    assert LockOk(s, c, l0);
    forall c2, l | 0 <= c2 < |s'.cpu| ensures LockOk(s', c2, l) {
      assert LockOk(s, c2, l);
      if c2 != c {
        OthersHold(s, s', c, p, c2, l);
      }
    }
    forall l ensures -1 <= Owner(s', l) < |s'.cpu| {
      assert -1 <= Owner(s, l) < |s.cpu|;
    }
  }

  // ---------------------------------------------------------------- children being created

  /** Nobody starts creating a child, and no child leaves the state USED. */
  lemma CreatorsKept(s: Sys, s': Sys, p: int)
    requires Inv(s) && Shape(s') && |s'.st| == |s.st| && 0 <= p < |s.st|
    requires forall q :: 0 <= q < |s.st| && q != p ==> s'.pc[q] == s.pc[q]
    requires Creating(s'.pc[p]) == Creating(s.pc[p]) || Creating(s'.pc[p]) == None
    requires forall i :: 0 <= i < |s.st| && s.st[i] == USED ==> s'.st[i] == USED
    ensures Creators(s')
  {
    forall q | 0 <= q < |s'.st| ensures CreateOk(s', q) {
      assert CreateOk(s, q);
    }
    forall q, q' | 0 <= q < |s'.st| && 0 <= q' < |s'.st| ensures CreateApart(s', q, q') {
      assert CreateApart(s, q, q');
    }
  }

  lemma AcqCreates(p: int, n: int, pc: Pc)
    requires Acq(p, n, pc).Some?
    ensures Creating(Acq(p, n, pc).v.1) == Creating(pc)
  {
  }

  lemma RelCreates(p: int, pc: Pc, b: bool)
    requires Rel(p, pc, b).Some? && (pc.Yield? ==> Preemptible(pc.back))
    ensures Creating(Rel(p, pc, b).v.1) == Creating(pc)
  {
  }

  lemma JumpCreates(s: Sys, p: int, pc: Pc, pc': Pc)
    requires Jump(s, p, pc, pc')
    ensures Creating(pc') == Creating(pc)
  {
  }

  lemma PreemptCreates(pc: Pc)
    requires Preemptible(pc)
    ensures Creating(Yield(YAcq, pc)) == Creating(pc)
  {
  }

  // ---------------------------------------------------------------- processes

  /** The process has not moved on while a handler runs on its CPU. */
  predicate Undisturbed(s: Sys, s': Sys, p: int)
    requires Shape(s) && Shape(s') && |s'.st| == |s.st| && 0 <= p < |s.st|
  {
    s'.pc[p] == s.pc[p] || (0 <= s.at[p] < |s.irq| ==> s.irq[s.at[p]] == Calm)
  }

  /** Only the fields of processes p and i have changed, and both still fit. */
  lemma ProcsKept(s: Sys, s': Sys, p: int, i: int)
    requires Inv(s) && Shape(s') && |s'.st| == |s.st| && s'.cpu == s.cpu && s'.irq == s.irq && s'.at == s.at
    requires 0 <= p < |s.st| && 0 <= i < |s.st| && Undisturbed(s, s', p) && Undisturbed(s, s', i)
    requires forall q :: 0 <= q < |s.st| && q != p && q != i ==>
               s'.st[q] == s.st[q] && s'.chan[q] == s.chan[q] && s'.pc[q] == s.pc[q]
    requires Fits(s'.st[p], s'.chan[p], s'.pc[p], Place(s, p)) && Fits(s'.st[i], s'.chan[i], s'.pc[i], Place(s, i))
    ensures forall q :: 0 <= q < |s'.st| ==> ProcOk(s', q)
    ensures forall c :: 0 <= c < |s'.cpu| ==> CpuOk(s', c)
  {
    hide Fits;
    forall q | 0 <= q < |s'.st| ensures ProcOk(s', q) {
      assert ProcOk(s, q);
      assert Place(s', q) == Place(s, q);
    }
    forall c | 0 <= c < |s'.cpu| ensures CpuOk(s', c) {
      assert CpuOk(s, c);
    }
  }

  lemma RunsFits(s: Sys, c: int, p: int)
    requires Inv(s) && Runs(s, c, p)
    ensures s.at[p] == c && s.irq[c] == Calm && Place(s, p) == OnRunning
    ensures Fits(s.st[p], s.chan[p], s.pc[p], OnRunning)
  {
    assert CpuOk(s, c) && ProcOk(s, p);
  }

  lemma AcqFits(p: int, n: int, st: PState, chan: int, pc: Pc)
    requires Acq(p, n, pc).Some? && Fits(st, chan, pc, OnRunning)
    ensures Fits(st, chan, Acq(p, n, pc).v.1, OnRunning) && (pc.Sleep? ==> !pc.lk.P?)
  {
  }

  lemma RelFits(p: int, st: PState, chan: int, pc: Pc, b: bool)
    requires Rel(p, pc, b).Some? && Fits(st, chan, pc, OnRunning)
    ensures Fits(st, chan, Rel(p, pc, b).v.1, OnRunning)
    ensures (pc.Sleep? ==> !pc.lk.P?) && (pc.Yield? ==> Preemptible(pc.back))
  {
  }

  lemma JumpFits(s: Sys, p: int, st: PState, chan: int, pc: Pc, pc': Pc)
    requires Jump(s, p, pc, pc') && Fits(st, chan, pc, OnRunning)
    ensures Fits(st, chan, pc', OnRunning)
  {
  }

  lemma PreemptFits(st: PState, chan: int, pc: Pc)
    requires Preemptible(pc) && Fits(st, chan, pc, OnRunning)
    ensures Fits(st, chan, Yield(YAcq, pc), OnRunning)
  {
  }

  lemma AcquireKeeps(s: Sys, s': Sys, c: int, p: int)
    requires Inv(s) && AcquireStep(s, s', c, p)
    ensures Inv(s')
  {
    hide Fits, HeldAt, Acq, Creating, Creators;
    RunsFits(s, c, p);
    AcqFits(p, |s.pc|, s.st[p], s.chan[p], s.pc[p]);
    forall l ensures HeldAt(p, s'.pc[p], l) <==> HeldAt(p, s.pc[p], l) || l == Acq(p, |s.pc|, s.pc[p]).v.0 {
      AcqHolds(p, |s.pc|, s.pc[p], l);
    }
    LockTaken(s, s', c, p, Acq(p, |s.pc|, s.pc[p]).v.0);
    ProcsKept(s, s', p, p);
    AcqCreates(p, |s.pc|, s.pc[p]);
    CreatorsKept(s, s', p);
  }

  lemma ReleaseKeeps(s: Sys, s': Sys, c: int, p: int, b: bool)
    requires Inv(s) && ReleaseStep(s, s', c, p, b)
    ensures Inv(s')
  {
    hide Fits, HeldAt, Rel, Creating, Creators;
    RunsFits(s, c, p);
    RelFits(p, s.st[p], s.chan[p], s.pc[p], b);
    forall l ensures HeldAt(p, s'.pc[p], l) <==> HeldAt(p, s.pc[p], l) && l != Rel(p, s.pc[p], b).v.0 {
      RelHolds(p, s.pc[p], b, l);
    }
    RelHolds(p, s.pc[p], b, W);
    LockGiven(s, s', c, p, Rel(p, s.pc[p], b).v.0);
    ProcsKept(s, s', p, p);
    RelCreates(p, s.pc[p], b);
    CreatorsKept(s, s', p);
  }

  lemma JumpKeeps(s: Sys, s': Sys, c: int, p: int)
    requires Inv(s) && JumpStep(s, s', c, p)
    ensures Inv(s')
  {
    hide Fits, HeldAt, Jump, Preemptible, Creating, Creators;
    RunsFits(s, c, p);
    if Jump(s, p, s.pc[p], s'.pc[p]) {
      JumpFits(s, p, s.st[p], s.chan[p], s.pc[p], s'.pc[p]);
      JumpCreates(s, p, s.pc[p], s'.pc[p]);
    } else {
      PreemptFits(s.st[p], s.chan[p], s.pc[p]);
      PreemptCreates(s.pc[p]);
    }
    forall l ensures HeldAt(p, s'.pc[p], l) <==> HeldAt(p, s.pc[p], l) {
      if Jump(s, p, s.pc[p], s'.pc[p]) {
        JumpHolds(s, p, s.pc[p], s'.pc[p], l);
      } else {
        PreemptHolds(p, s.pc[p], l);
        YieldHolds(p, s.pc[p], l);
      }
    }
    LocksKept(s, s', c, p);
    ProcsKept(s, s', p, p);
    CreatorsKept(s, s', p);
  }

  lemma YieldHolds(p: int, pc: Pc, l: Lk)
    ensures !HeldAt(p, Yield(YAcq, pc), l)
  {
  }

  lemma ChanKeeps(s: Sys, s': Sys, c: int, p: int)
    requires Inv(s) && ChanStep(s, s', c, p)
    ensures Inv(s')
  {
    hide Creators;
    RunsFits(s, c, p);
    LocksKept(s, s', c, p);
    ProcsKept(s, s', p, p);
    CreatorsKept(s, s', p);
  }

  lemma OwnStateKeeps(s: Sys, s': Sys, c: int, p: int)
    requires Inv(s) && OwnStateStep(s, s', c, p)
    ensures Inv(s')
  {
    hide Creators;
    RunsFits(s, c, p);
    LocksKept(s, s', c, p);
    ProcsKept(s, s', p, p);
    CreatorsKept(s, s', p);
  }

  /** Mutual exclusion: no other CPU's code is at a position that holds the lock. */
  lemma OneHolder(s: Sys, c: int, l: Lk, c2: int)
    requires Inv(s) && 0 <= c < |s.cpu| && HeldBy(s, c, l) && 0 <= c2 < |s.cpu|
    ensures HeldBy(s, c2, l) ==> c2 == c
  {
    assert LockOk(s, c, l) && LockOk(s, c2, l);
  }

  /** A process whose lock another CPU holds is not on its way to or from a scheduler. */
  lemma LockedByCpu(s: Sys, c: int, i: int)
    requires Inv(s) && 0 <= c < |s.cpu| && HeldBy(s, c, P(i)) && 0 <= i < |s.st| && s.at[i] != c
    ensures Place(s, i) != OnBack
    ensures Place(s, i) == OnRunning ==> !HeldAt(i, s.pc[i], P(i))
  {
    hide Fits, Creators, IrqHolds, AtRest;
    assert ProcOk(s, i);
    if s.at[i] >= 0 {
      OneHolder(s, c, P(i), s.at[i]);
    }
  }

  /** A process whose lock another process's code holds is not running. */
  lemma LockedElsewhere(s: Sys, c: int, p: int, i: int)
    requires Inv(s) && Runs(s, c, p) && HeldAt(p, s.pc[p], P(i)) && 0 <= i < |s.st| && i != p
    ensures Place(s, i) != OnBack
    ensures Place(s, i) == OnRunning ==> !HeldAt(i, s.pc[i], P(i))
  {
    hide Fits, Creators, IrqHolds, AtRest;
    assert ProcOk(s, i);
    LockedByCpu(s, c, i);
  }

  /** A process that is asleep while another holds its lock has been switched away from for good. */
  lemma AsleepIsOff(s: Sys, c: int, p: int, i: int)
    requires Inv(s) && Runs(s, c, p) && HeldAt(p, s.pc[p], P(i)) && 0 <= i < |s.st| && i != p
    requires s.st[i] == SLEEPING || s.st[i] == ZOMBIE
    ensures Place(s, i) == Off && i != p
  {
    hide Creators;
    LockedElsewhere(s, c, p, i);
    assert ProcOk(s, i);
  }

  /** A process at one of these positions is itself running. */
  lemma NotAsleep(s: Sys, c: int, p: int)
    requires Inv(s) && Runs(s, c, p) && (s.pc[p].Wake? || s.pc[p].KillDo? || s.pc[p].WaitChild?)
    ensures s.st[p] == RUNNING && Place(s, p) == OnRunning && s.at[p] == c && s.irq[c] == Calm
  {
    hide Creators;
    RunsFits(s, c, p);
  }

  lemma WakeLocks(s: Sys, s': Sys, c: int, p: int)
    requires Inv(s) && WakeStep(s, s', c, p)
    ensures forall l :: HeldAt(p, s'.pc[p], l) <==> HeldAt(p, s.pc[p], l)
    ensures Creating(s'.pc[p]) == Creating(s.pc[p]) && s'.pc[p] != Dead && !s'.pc[p].Sleep? && !s'.pc[p].Yield?
    ensures s'.pc[p] != ExitRel && s'.pc[p] != ExitSwitch
  {
  }

  lemma WakeKeeps(s: Sys, s': Sys, c: int, p: int)
    requires Inv(s) && WakeStep(s, s', c, p)
    ensures Inv(s')
  {
    hide Creators, HeldAt, Creating, IrqOk, HeldBy, Fits;
    NotAsleep(s, c, p);
    WakeLocks(s, s', c, p);
    var i := if s.pc[p].Wake? then s.pc[p].j else s.pc[p].i;
    LocksKept(s, s', c, p);
    WokenFits(s, s', c, p, i);
    ProcsKept(s, s', p, i);
    CreatorsKept(s, s', p);
  }

  lemma WokenFits(s: Sys, s': Sys, c: int, p: int, i: int)
    requires Inv(s) && WakeStep(s, s', c, p) && i == if s.pc[p].Wake? then s.pc[p].j else s.pc[p].i
    ensures Fits(s'.st[p], s'.chan[p], s'.pc[p], OnRunning) && Fits(s'.st[i], s'.chan[i], s'.pc[i], Place(s, i))
  {
    hide Creators;
    NotAsleep(s, c, p);
    assert ProcOk(s, i);
    if s.st[i] == SLEEPING {
      AsleepIsOff(s, c, p, i);
    }
  }

  lemma ReapKeeps(s: Sys, s': Sys, c: int, p: int)
    requires Inv(s) && ReapStep(s, s', c, p)
    ensures Inv(s')
  {
    hide Creators, Creating, IrqOk, HeldBy, Fits;
    NotAsleep(s, c, p);
    LocksKept(s, s', c, p);
    ReapedFits(s, s', c, p);
    ProcsKept(s, s', p, s.pc[p].i);
    ReapCreates(s, s', c, p);
    CreatorsKept(s, s', p);
  }

  lemma ReapCreates(s: Sys, s': Sys, c: int, p: int)
    requires ReapStep(s, s', c, p)
    ensures Creating(s'.pc[p]) == Creating(s.pc[p])
  {
  }

  lemma ReapedFits(s: Sys, s': Sys, c: int, p: int)
    requires Inv(s) && ReapStep(s, s', c, p)
    ensures var i := s.pc[p].i;
            Fits(s'.st[p], s'.chan[p], s'.pc[p], OnRunning) && Fits(s'.st[i], s'.chan[i], s'.pc[i], Place(s, i))
  {
    hide Creators;
    NotAsleep(s, c, p);
    var i := s.pc[p].i;
    assert ProcOk(s, i);
    if s.st[i] == ZOMBIE {
      AsleepIsOff(s, c, p, i);
    }
  }

  lemma ReparentKeeps(s: Sys, s': Sys, c: int, p: int)
    requires Inv(s) && ReparentStep(s, s', c, p)
    ensures Inv(s')
  {
    hide Creators;
    RunsFits(s, c, p);
    LocksKept(s, s', c, p);
    ProcsKept(s, s', p, p);
    CreatorsKept(s, s', p);
  }

  // ---------------------------------------------------------------- switching

  lemma SwitchHolds(p: int, pc: Pc, l: Lk)
    requires (pc.Sleep? && pc.s == SSwitch) || (pc.Yield? && pc.y == YSwitch) || pc == ExitSwitch || Parked(pc)
    ensures HeldAt(p, pc, l) <==> l == P(p)
  {
  }

  /** Only what CPU c does has changed, and it holds the same locks. */
  lemma CpuLocks(s: Sys, s': Sys, c: int, p: int)
    requires Inv(s) && Shape(s') && |s'.st| == |s.st| && |s'.cpu| == |s.cpu| && 0 <= c < |s.cpu| && s'.owner == s.owner
    requires s'.irq == s.irq
    requires forall c2 :: 0 <= c2 < |s.cpu| && c2 != c ==> s'.cpu[c2] == s.cpu[c2] && s'.cpu[c2] != Running(p)
    requires forall q :: 0 <= q < |s.pc| && q != p ==> s'.pc[q] == s.pc[q]
    requires forall l :: HeldBy(s', c, l) <==> HeldBy(s, c, l)
    ensures forall c2, l :: 0 <= c2 < |s'.cpu| ==> LockOk(s', c2, l)
    ensures forall l :: -1 <= Owner(s', l) < |s'.cpu|
  {
    forall c2, l | 0 <= c2 < |s'.cpu| ensures LockOk(s', c2, l) {
      assert LockOk(s, c2, l);
    }
    forall l ensures -1 <= Owner(s', l) < |s'.cpu| {
      assert -1 <= Owner(s, l) < |s.cpu|;
    }
  }

  lemma SwitchKeeps(s: Sys, s': Sys, c: int, p: int)
    requires Inv(s) && SwitchStep(s, s', c, p)
    ensures Inv(s')
  {
    hide Creators;
    RunsFits(s, c, p);
    forall c2 | 0 <= c2 < |s'.cpu| ensures CpuOk(s', c2) && (c2 != c ==> s.cpu[c2] != Running(p)) {
      assert CpuOk(s, c2);
    }
    forall q | 0 <= q < |s'.st| ensures ProcOk(s', q) {
      assert ProcOk(s, q);
      assert q != p ==> Place(s', q) == Place(s, q);
    }
    forall l ensures HeldBy(s', c, l) <==> HeldBy(s, c, l) {
      SwitchHolds(p, s.pc[p], l);
    }
    CpuLocks(s, s', c, p);
    CreatorsKept(s, s', p);
  }

  lemma UnusedIsOff(s: Sys, i: int)
    requires Inv(s) && 0 <= i < |s.st| && (s.st[i] == UNUSED || s.st[i] == USED)
    ensures s.at[i] == -1 && Place(s, i) == Off
  {
    assert ProcOk(s, i);
  }

  /** Taking a free slot. */
  lemma MadeKeeps(s: Sys, s': Sys, c: int, p: int)
    requires Inv(s) && Runs(s, c, p) && s.pc[p].ForkLook?
    requires var i := s.pc[p].i;
             0 <= i < |s.st| && s.st[i] == UNUSED
             && s' == s.(pc := s.pc[p := ForkMade(i)][i := Fresh], st := s.st[i := USED])
    ensures Inv(s')
  {
    hide Creators;
    var i := s.pc[p].i;
    RunsFits(s, c, p);
    UnusedIsOff(s, i);
    LocksKept(s, s', c, p);
    ProcsKept(s, s', p, i);
    MadeCreators(s, s', c, p);
  }

  lemma MadeCreators(s: Sys, s': Sys, c: int, p: int)
    requires Inv(s) && Runs(s, c, p) && s.pc[p].ForkLook?
    requires var i := s.pc[p].i;
             0 <= i < |s.st| && s.st[i] == UNUSED && i != p
             && s' == s.(pc := s.pc[p := ForkMade(i)][i := Fresh], st := s.st[i := USED])
    ensures Creators(s')
  {
    forall q | 0 <= q < |s'.st| ensures CreateOk(s', q) {
      assert CreateOk(s, q);
    }
    forall q, q' | 0 <= q < |s'.st| && 0 <= q' < |s'.st| ensures CreateApart(s', q, q') {
      assert CreateApart(s, q, q') && CreateOk(s, q) && CreateOk(s, q');
    }
  }

  /** Letting the child run. */
  lemma BornKeeps(s: Sys, s': Sys, c: int, p: int)
    requires Inv(s) && Runs(s, c, p) && s.pc[p].ForkState?
    requires var i := s.pc[p].i;
             0 <= i < |s.st| && s' == s.(pc := s.pc[p := ForkEnd(i)], st := s.st[i := RUNNABLE])
    ensures Inv(s')
  {
    hide Creators;
    var i := s.pc[p].i;
    RunsFits(s, c, p);
    BornCreators(s, s', c, p);
    UnusedIsOff(s, i);
    assert ProcOk(s, i);
    LocksKept(s, s', c, p);
    ProcsKept(s, s', p, i);
  }

  lemma BornCreators(s: Sys, s': Sys, c: int, p: int)
    requires Inv(s) && Runs(s, c, p) && s.pc[p].ForkState?
    requires var i := s.pc[p].i;
             0 <= i < |s.st| && s' == s.(pc := s.pc[p := ForkEnd(i)], st := s.st[i := RUNNABLE])
    ensures s.st[s.pc[p].i] == USED && Creators(s')
  {
    assert CreateOk(s, p);
    forall q | 0 <= q < |s'.st| ensures CreateOk(s', q) {
      assert CreateOk(s, q) && CreateApart(s, p, q);
    }
    forall q, q' | 0 <= q < |s'.st| && 0 <= q' < |s'.st| ensures CreateApart(s', q, q') {
      assert CreateApart(s, q, q');
    }
  }

  lemma ForkKeeps(s: Sys, s': Sys, c: int, p: int)
    requires Inv(s) && ForkStep(s, s', c, p)
    ensures Inv(s')
  {
    hide Creators, Inv;
    var pc := s.pc[p];
    if pc.ForkState? {
      BornKeeps(s, s', c, p);
    } else if pc.ForkLook? && s'.st != s.st {
      MadeKeeps(s, s', c, p);
    } else {
      ForkMoves(s, s', c, p);
    }
  }

  lemma ForkMoves(s: Sys, s': Sys, c: int, p: int)
    requires Inv(s) && Runs(s, c, p) && (s.pc[p].ForkLook? || s.pc[p].ForkParent?)
    requires var i := s.pc[p].i;
             || (s.pc[p].ForkLook? && s' == s.(pc := s.pc[p := ForkFail(i)]))
             || (s.pc[p].ForkLook? && s' == s.(pc := s.pc[p := ForkSkip(i)]))
             || (s.pc[p].ForkParent? && 0 <= i < |s.parent|
                 && s' == s.(pc := s.pc[p := ForkWaitRel(i)], parent := s.parent[i := p]))
    ensures Inv(s')
  {
    hide Creators;
    RunsFits(s, c, p);
    LocksKept(s, s', c, p);
    ProcsKept(s, s', p, p);
    CreatorsKept(s, s', p);
  }

  // ---------------------------------------------------------------- the scheduler

  lemma SchedulerLocks(s: Sys, s': Sys, c: int, i: int)
    requires Inv(s) && SchedulerStep(s, s', c, i)
    ensures forall c2, l :: 0 <= c2 < |s'.cpu| ==> LockOk(s', c2, l)
    ensures forall l :: -1 <= Owner(s', l) < |s'.cpu|
  {
    hide Fits, HeldAt, Creators;
    assert ProcOk(s, i) && CpuOk(s, c);
    forall l ensures s.st[i] == RUNNABLE && s.cpu[c] == Looking(i, false) ==> (HeldAt(i, s.pc[i], l) <==> l == P(i)) {
      if s.st[i] == RUNNABLE && s.cpu[c] == Looking(i, false) {
        RunnableParked(s, c, i);
        SwitchHolds(i, s.pc[i], l);
      }
    }
    assert LockOk(s, c, P(i));
    forall c2, l | 0 <= c2 < |s'.cpu| ensures LockOk(s', c2, l) {
      assert LockOk(s, c2, l);
    }
    forall l ensures -1 <= Owner(s', l) < |s'.cpu| {
      assert -1 <= Owner(s, l) < |s.cpu|;
    }
  }

  /** A runnable process whose lock the scheduler has taken is on no CPU. */
  lemma RunnableParked(s: Sys, c: int, i: int)
    requires Inv(s) && 0 <= c < |s.cpu| && s.cpu[c].Looking?
    requires s.cpu[c].i == i && 0 <= i < |s.st| && s.st[i] == RUNNABLE
    ensures s.at[i] == -1 && Parked(s.pc[i])
  {
    hide Creators;
    assert ProcOk(s, i);
    if s.at[i] >= 0 {
      OneHolder(s, c, P(i), s.at[i]);
    }
  }

  lemma SchedulerProcs(s: Sys, s': Sys, c: int, i: int)
    requires Inv(s) && SchedulerStep(s, s', c, i)
    ensures forall q :: 0 <= q < |s'.st| ==> ProcOk(s', q)
    ensures forall c2 :: 0 <= c2 < |s'.cpu| ==> CpuOk(s', c2)
  {
    hide Creators, HeldAt;
    assert ProcOk(s, i) && CpuOk(s, c);
    forall q | 0 <= q < |s'.st| ensures ProcOk(s', q) {
      SchedulerProc(s, s', c, i, q);
    }
    forall c2 | 0 <= c2 < |s'.cpu| ensures CpuOk(s', c2) {
      SchedulerCpu(s, s', c, i, c2);
    }
  }

  lemma SchedulerProc(s: Sys, s': Sys, c: int, i: int, q: int)
    requires Inv(s) && SchedulerStep(s, s', c, i) && 0 <= q < |s.st|
    ensures ProcOk(s', q)
  {
    hide Creators, HeldAt;
    assert ProcOk(s, q) && CpuOk(s, c);
    if s.cpu[c] == Looking(i, false) && s.st[i] == RUNNABLE {
      RunnableParked(s, c, i);
    }
  }

  lemma SchedulerCpu(s: Sys, s': Sys, c: int, i: int, c2: int)
    requires Inv(s) && SchedulerStep(s, s', c, i) && 0 <= c2 < |s.cpu|
    ensures CpuOk(s', c2)
  {
    hide Creators, Fits, HeldAt;
    assert CpuOk(s, c2) && CpuOk(s, c);
    if s.cpu[c] == Looking(i, false) && s.st[i] == RUNNABLE {
      RunnableParked(s, c, i);
    }
  }

  lemma SchedulerKeeps(s: Sys, s': Sys, c: int, i: int)
    requires Inv(s) && SchedulerStep(s, s', c, i)
    ensures Inv(s')
  {
    SchedulerLocks(s, s', c, i);
    SchedulerProcs(s, s', c, i);
    CreatorsKept(s, s', i);
  }

  // ---------------------------------------------------------------- interrupt handlers

  lemma AtRestHolds(s: Sys, c: int, l: Lk)
    requires Inv(s) && 0 <= c < |s.cpu| && AtRest(s, c)
    ensures !CodeHolds(s, c, l)
  {
    hide Creators, HeldAt, Fits;
    if s.cpu[c].Running? {
      PreemptHolds(s.cpu[c].i, s.pc[s.cpu[c].i], l);
    }
  }

  lemma HandlerRests(s: Sys, s': Sys, c: int)
    requires Inv(s) && HandlerStep(s, s', c)
    ensures Shape(s) && AtRest(s, c) && Shape(s') && |s'.st| == |s.st| && s'.cpu == s.cpu && s'.pc == s.pc
    ensures s'.at == s.at && s'.chan == s.chan && s'.parent == s.parent
    ensures forall c2 :: 0 <= c2 < |s.cpu| && c2 != c ==> s'.irq[c2] == s.irq[c2]
  {
    hide Creators, HeldAt, Fits, Preemptible;
    assert CpuOk(s, c);
  }

  lemma HandlerLock(s: Sys, s': Sys, c: int, l: Lk)
    requires Inv(s) && HandlerStep(s, s', c)
    ensures Shape(s') && |s'.cpu| == |s.cpu| && LockOk(s', c, l) && -1 <= Owner(s', l) < |s'.cpu|
  {
    hide Creators, HeldAt, Fits, Preemptible, CodeHolds;
    HandlerRests(s, s', c);
    AtRestHolds(s, c, l);
    SameCode(s, s', c, l);
    assert LockOk(s, c, l) && -1 <= Owner(s, l) < |s.cpu|;
  }

  lemma SameCode(s: Sys, s': Sys, c: int, l: Lk)
    requires s'.cpu == s.cpu && s'.pc == s.pc && 0 <= c < |s.cpu|
    ensures CodeHolds(s', c, l) == CodeHolds(s, c, l)
  {
  }

  lemma HandlerOther(s: Sys, s': Sys, c: int, c2: int, l: Lk)
    requires Inv(s) && HandlerStep(s, s', c) && 0 <= c2 < |s.cpu| && c2 != c
    ensures Shape(s') && |s'.cpu| == |s.cpu| && LockOk(s', c2, l)
  {
    hide Creators, HeldAt, Fits, Preemptible, CodeHolds, IrqHolds;
    HandlerRests(s, s', c);
    SameCode(s, s', c2, l);
    assert LockOk(s, c2, l);
    HandlerGives(s, s', c, l);
  }

  /** A handler changes only the owner of a lock that it holds or that is free. */
  lemma HandlerGives(s: Sys, s': Sys, c: int, l: Lk)
    requires Inv(s) && HandlerStep(s, s', c)
    ensures Owner(s', l) == Owner(s, l) || Owner(s, l) == c || (Owner(s, l) == -1 && Owner(s', l) == c)
    ensures Owner(s', l) == Owner(s, l) || Owner(s', l) == c || Owner(s', l) == -1
  {
    hide Creators, HeldAt, Fits, Preemptible, CodeHolds;
    assert LockOk(s, c, l);
  }

  /** A process that a handler finds asleep is off every CPU. */
  lemma HandlerFits(s: Sys, s': Sys, c: int, q: int)
    requires Inv(s) && HandlerStep(s, s', c) && 0 <= q < |s.st|
    ensures |s'.st| == |s.st| && (s'.st[q] == s.st[q] || (s'.st[q] == RUNNABLE && s.st[q] == SLEEPING))
    ensures Fits(s'.st[q], s.chan[q], s.pc[q], Place(s, q))
  {
    hide Creators, Preemptible, CodeHolds;
    assert ProcOk(s, q) && CpuOk(s, c);
    if s'.st[q] != s.st[q] {
      assert s.irq[c].IrqWake? && s.irq[c].j == q && HeldBy(s, c, P(q));
      LockedByCpu(s, c, q);
    }
  }

  lemma HandlerCpu(s: Sys, s': Sys, c: int, c2: int)
    requires Inv(s) && HandlerStep(s, s', c) && 0 <= c2 < |s.cpu|
    ensures Shape(s') && |s'.cpu| == |s.cpu| && CpuOk(s', c2)
  {
    hide Creators, HeldAt, Fits, Preemptible, CodeHolds, IrqHolds;
    HandlerRests(s, s', c);
    assert CpuOk(s, c2);
  }

  lemma HandlerKeeps(s: Sys, s': Sys, c: int)
    requires Inv(s) && HandlerStep(s, s', c)
    ensures Inv(s')
  {
    hide HandlerStep, HeldBy, Creators, Fits, IrqOk, Creating, Owner;
    HandlerRests(s, s', c);
    forall c2, l | 0 <= c2 < |s'.cpu| ensures LockOk(s', c2, l) {
      if c2 == c {
        HandlerLock(s, s', c, l);
      } else {
        HandlerOther(s, s', c, c2, l);
      }
    }
    forall l ensures -1 <= Owner(s', l) < |s'.cpu| {
      HandlerLock(s, s', c, l);
    }
    forall c2 | 0 <= c2 < |s'.cpu| ensures CpuOk(s', c2) {
      HandlerCpu(s, s', c, c2);
    }
    forall q | 0 <= q < |s'.st| ensures ProcOk(s', q) && (s.st[q] == USED ==> s'.st[q] == USED) {
      assert ProcOk(s, q);
      HandlerFits(s, s', c, q);
      assert Place(s', q) == Place(s, q);
    }
    CreatorsKept(s, s', 0);
  }

  lemma StepKeeps(s: Sys, s': Sys, c: int, i: int)
    requires Inv(s) && Step(s, s', c, i)
    ensures Inv(s')
  {
    hide Inv, AcquireStep, ReleaseStep, JumpStep, ChanStep, OwnStateStep, WakeStep, ReapStep, ForkStep, ReparentStep,
      SwitchStep, SchedulerStep, HandlerStep;
    if HandlerStep(s, s', c) {
      HandlerKeeps(s, s', c);
    } else if SchedulerStep(s, s', c, i) {
      SchedulerKeeps(s, s', c, i);
    } else if AcquireStep(s, s', c, i) {
      AcquireKeeps(s, s', c, i);
    } else if ReleaseStep(s, s', c, i, true) {
      ReleaseKeeps(s, s', c, i, true);
    } else if ReleaseStep(s, s', c, i, false) {
      ReleaseKeeps(s, s', c, i, false);
    } else if JumpStep(s, s', c, i) {
      JumpKeeps(s, s', c, i);
    } else if ChanStep(s, s', c, i) {
      ChanKeeps(s, s', c, i);
    } else if OwnStateStep(s, s', c, i) {
      OwnStateKeeps(s, s', c, i);
    } else if WakeStep(s, s', c, i) {
      WakeKeeps(s, s', c, i);
    } else if ReapStep(s, s', c, i) {
      ReapKeeps(s, s', c, i);
    } else if ForkStep(s, s', c, i) {
      ForkKeeps(s, s', c, i);
    } else if ReparentStep(s, s', c, i) {
      ReparentKeeps(s, s', c, i);
    } else {
      SwitchKeeps(s, s', c, i);
    }
  }
}
