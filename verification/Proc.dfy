/**
 Processes, the scheduler, sleep and wakeup, fork, exit and wait as an
 interleaved transition system. One step is one lock operation, one access to
 a shared field, or one context switch, by whatever a CPU is executing.

 Interrupts may preempt a process wherever it holds no spinlock, and a device
 or clock interrupt may run its handler there or in a scheduler that holds none:
 a critical section of some lock, with any number of wakeups. The killed flag
 and the outcome of copying to user memory are left open: both ways are allowed
 wherever the code tests them.
 */
module Proc {

  datatype PState = UNUSED | USED | SLEEPING | RUNNABLE | RUNNING | ZOMBIE

  /** wait_lock, the lock of a process, or a lock of some other part of the kernel. */
  datatype Lk = W | P(i: int) | O(k: int)

  datatype SleepAt = SAcq | SRel | SChan | SState | SSwitch | SWoken | SUnlock | SReacq
  datatype WakeAt = WAcq | WCheck | WRel
  datatype YieldAt = YAcq | YState | YSwitch | YUnlock

  /** Where wakeup returns to: lock-free code, a critical section of lock k, reparent's loop, or exit. */
  datatype Ret = ToRun | ToClient(k: int) | ToReparent(i: nat) | ToExit

  /** What a process does next. */
  datatype Pc =
    | Run
    | ClientAcq(k: int) | Client(k: int)
    | Sleep(s: SleepAt, ch: int, lk: Lk)
    | Wake(w: WakeAt, j: nat, ch: int, ret: Ret)
    | Yield(y: YieldAt, back: Pc)
    | WaitAcq | WaitScan(i: nat, kids: bool) | WaitLock(i: nat, kids: bool) | WaitChild(i: nat) | WaitNext(i: nat)
    | WaitReaped(i: nat) | WaitKillAcq | WaitKillRel | WaitDone
    | ExitAcq | ExitScan(i: nat) | ExitLock | ExitState | ExitRel | ExitSwitch | Dead
    | ForkAcq(i: nat) | ForkLook(i: nat) | ForkSkip(i: nat) | ForkMade(i: nat) | ForkFail(i: nat)
    | ForkWait(i: nat) | ForkParent(i: nat) | ForkWaitRel(i: nat)
    | ForkLock(i: nat) | ForkState(i: nat) | ForkEnd(i: nat)
    | KillAcq(i: nat) | KillDo(i: nat) | KillRel(i: nat)
    | Fresh

  /** What a CPU does: its scheduler holds no lock, holds the lock of process i (having run it or not), has just
      come back from running process i, or the CPU runs process i. `proc` is set in the last two. */
  datatype Cpu = Idle | Looking(i: int, ran: bool) | Back(i: int) | Running(i: int)

  /** What an interrupt handler on a CPU does, while the process or scheduler there stands still: nothing, wait for
      lock k, hold it, or be in a wakeup loop under it. */
  datatype Irq = Calm | IrqAcq(k: int) | IrqHold(k: int) | IrqWake(w: WakeAt, j: nat, ch: int, k: int)

  /** `at` is the CPU whose `proc` field names the process, or -1: an auxiliary component, tied to `cpu` below. */
  datatype Sys = Sys(st: seq<PState>, chan: seq<int>, parent: seq<int>, pc: seq<Pc>, at: seq<int>,
                     cpu: seq<Cpu>, irq: seq<Irq>, owner: map<Lk, int>)

  const INIT: int := 0

  function Owner(s: Sys, l: Lk): int { if l in s.owner then s.owner[l] else -1 }

  // ---------------------------------------------------------------- locks and code positions

  predicate RetHolds(r: Ret, l: Lk) {
    match r
    case ToRun => false
    case ToClient(k) => l == O(k)
    case ToReparent(_) => l == W
    case ToExit => l == W
  }

  /** The locks that process p holds at a code position. */
  predicate HeldAt(p: int, pc: Pc, l: Lk) {
    match pc
    case Client(k) => l == O(k)
    case Sleep(at, _, lk) =>
      (match at
       case SAcq => l == lk
       case SRel => l == lk || l == P(p)
       case SReacq => false
       case _ => l == P(p))
    case Wake(at, j, _, r) => RetHolds(r, l) || (at != WAcq && l == P(j))
    case Yield(at, _) => at != YAcq && l == P(p)
    case WaitScan(_, _) => l == W
    case WaitLock(_, _) => l == W
    case WaitChild(i) => l == W || l == P(i)
    case WaitNext(i) => l == W || l == P(i)
    case WaitReaped(i) => l == W || l == P(i)
    case WaitKillAcq => l == W
    case WaitKillRel => l == W || l == P(p)
    case WaitDone => l == W
    case ExitScan(_) => l == W
    case ExitLock => l == W
    case ExitState => l == W || l == P(p)
    case ExitRel => l == W || l == P(p)
    case ExitSwitch => l == P(p)
    case ForkLook(i) => l == P(i)
    case ForkSkip(i) => l == P(i)
    case ForkMade(i) => l == P(i)
    case ForkFail(i) => l == P(i)
    case ForkParent(_) => l == W
    case ForkWaitRel(_) => l == W
    case ForkState(i) => l == P(i)
    case ForkEnd(i) => l == P(i)
    case KillDo(i) => l == P(i)
    case KillRel(i) => l == P(i)
    case Fresh => l == P(p)
    case _ => false
  }

  predicate IrqHolds(x: Irq, l: Lk) {
    match x
    case Calm => false
    case IrqAcq(_) => false
    case IrqHold(k) => l == O(k)
    case IrqWake(at, j, _, k) => l == O(k) || (at != WAcq && l == P(j))
  }

  /** The locks that a CPU holds, read off what it is doing. */
  predicate HeldBy(s: Sys, c: int, l: Lk)
    requires 0 <= c < |s.cpu| == |s.irq|
  {
    CodeHolds(s, c, l) || IrqHolds(s.irq[c], l)
  }

  /** Those of its process or scheduler. */
  predicate CodeHolds(s: Sys, c: int, l: Lk)
    requires 0 <= c < |s.cpu|
  {
    match s.cpu[c]
    case Idle => false
    case Looking(i, _) => l == P(i)
    case Back(i) => l == P(i)
    case Running(p) => 0 <= p < |s.pc| && HeldAt(p, s.pc[p], l)
  }

  datatype Option<T> = None | Some(v: T)

  /** The lock that the code acquires at a position, and where that leads. */
  function Acq(p: int, n: int, pc: Pc): Option<(Lk, Pc)> {
    match pc
    case ClientAcq(k) => Some((O(k), Client(k)))
    case Sleep(SAcq, ch, lk) => Some((P(p), Sleep(SRel, ch, lk)))
    case Sleep(SReacq, ch, lk) => Some((lk, AfterSleep(lk)))
    case Wake(WAcq, j, ch, r) => if 0 <= j < n && j != p then Some((P(j), Wake(WCheck, j, ch, r))) else None
    case Yield(YAcq, back) => Some((P(p), Yield(YState, back)))
    case WaitAcq => Some((W, WaitScan(0, false)))
    case WaitLock(i, _) => Some((P(i), WaitChild(i)))
    case WaitKillAcq => Some((P(p), WaitKillRel))
    case ExitAcq => Some((W, ExitScan(0)))
    case ExitLock => Some((P(p), ExitState))
    case ForkAcq(i) => if 0 <= i < n then Some((P(i), ForkLook(i))) else None
    case ForkWait(i) => Some((W, ForkParent(i)))
    case ForkLock(i) => Some((P(i), ForkState(i)))
    case KillAcq(i) => if 0 <= i < n then Some((P(i), KillDo(i))) else None
    case _ => None
  }

  /** kwait starts its scan again after sleeping; other callers go on in their critical section. */
  function AfterSleep(lk: Lk): Pc {
    match lk
    case W => WaitScan(0, false)
    case O(k) => Client(k)
    case P(i) => Run
  }

  /** The lock that the code releases at a position, and where that leads. `b` picks a branch where both are
      possible. */
  function Rel(p: int, pc: Pc, b: bool): Option<(Lk, Pc)> {
    match pc
    case Client(k) => Some((O(k), Run))
    case Sleep(SRel, ch, lk) => Some((lk, Sleep(SChan, ch, lk)))
    case Sleep(SUnlock, ch, lk) => Some((P(p), Sleep(SReacq, ch, lk)))
    case Wake(WRel, j, ch, r) => Some((P(j), Wake(WAcq, j + 1, ch, r)))
    case Yield(YUnlock, back) => Some((P(p), back))
    case WaitNext(i) => Some((P(i), WaitScan(i + 1, true)))
    case WaitReaped(i) => Some((P(i), WaitDone))
    case WaitKillRel => Some((P(p), if b then WaitDone else Sleep(SAcq, p, W)))
    case WaitDone => Some((W, Run))
    case ExitRel => Some((W, ExitSwitch))
    case ForkSkip(i) => Some((P(i), ForkAcq(i + 1)))
    case ForkMade(i) => Some((P(i), ForkWait(i)))
    case ForkFail(i) => Some((P(i), Run))
    case ForkWaitRel(i) => Some((W, ForkLock(i)))
    case ForkEnd(i) => Some((P(i), Run))
    case KillRel(i) => Some((P(i), if b then Run else KillAcq(i + 1)))
    case Fresh => Some((P(p), Run))
    case _ => None
  }

  function AfterWake(r: Ret): Pc {
    match r
    case ToRun => Run
    case ToClient(k) => Client(k)
    case ToReparent(i) => ExitScan(i + 1)
    case ToExit => ExitLock
  }

  /** Steps that only move on in the code. */
  predicate Jump(s: Sys, p: int, pc: Pc, pc': Pc) {
    var n := |s.parent|;
    match pc
    case Run =>
      || (pc'.ClientAcq? || pc' == WaitAcq || pc' == ForkAcq(0) || pc' == KillAcq(0))
      || (pc' == ExitAcq && p != INIT)
      || (pc'.Wake? && pc' == Wake(WAcq, 0, pc'.ch, ToRun))
    case Client(k) =>
      || (pc'.Sleep? && pc' == Sleep(SAcq, pc'.ch, O(k)))
      || (pc'.Wake? && pc' == Wake(WAcq, 0, pc'.ch, ToClient(k)))
    case Wake(WAcq, j, ch, r) =>
      (j == p && pc' == Wake(WAcq, j + 1, ch, r)) || (j == n && pc' == AfterWake(r))
    case WaitScan(i, kids) =>
      if 0 <= i < n then pc' == if s.parent[i] == p then WaitLock(i, kids) else WaitScan(i + 1, kids)
      else pc' == if kids then WaitKillAcq else WaitDone
    case ExitScan(i) =>
      if 0 <= i < n then s.parent[i] != p && pc' == ExitScan(i + 1)
      else 0 <= p < n && pc' == Wake(WAcq, 0, s.parent[p], ToExit)
    case ForkAcq(i) => i == n && pc' == Run
    case KillAcq(i) => i == n && pc' == Run
    case _ => false
  }

  /** Code positions outside every critical section, where a timer interrupt can call yield. */
  predicate Preemptible(pc: Pc) {
    match pc
    case Run => true
    case ClientAcq(_) => true
    case Sleep(at, _, lk) => at == SReacq && !lk.P?
    case Wake(at, _, _, r) => at == WAcq && r == ToRun
    case WaitAcq => true
    case ExitAcq => true
    case ForkAcq(_) => true
    case ForkWait(_) => true
    case ForkLock(_) => true
    case KillAcq(_) => true
    case _ => false
  }

  // ---------------------------------------------------------------- the steps

  predicate Runs(s: Sys, c: int, p: int) {
    0 <= c < |s.cpu| == |s.irq| && 0 <= p < |s.pc| && s.cpu[c] == Running(p) && s.irq[c] == Calm
  }

  predicate AcquireStep(s: Sys, s': Sys, c: int, p: int) {
    && Runs(s, c, p)
    && var a := Acq(p, |s.pc|, s.pc[p]);
       a.Some? && Owner(s, a.v.0) == -1
       && s' == s.(pc := s.pc[p := a.v.1], owner := s.owner[a.v.0 := c])
  }

  predicate ReleaseStep(s: Sys, s': Sys, c: int, p: int, b: bool) {
    && Runs(s, c, p)
    && var a := Rel(p, s.pc[p], b);
       a.Some? && s' == s.(pc := s.pc[p := a.v.1], owner := s.owner[a.v.0 := -1])
  }

  predicate JumpStep(s: Sys, s': Sys, c: int, p: int) {
    && Runs(s, c, p) && |s'.pc| == |s.pc|
    && (Jump(s, p, s.pc[p], s'.pc[p]) || (Preemptible(s.pc[p]) && s'.pc[p] == Yield(YAcq, s.pc[p])))
    && s' == s.(pc := s.pc[p := s'.pc[p]])
  }

  /** p->chan is set before sleeping and cleared after. */
  predicate ChanStep(s: Sys, s': Sys, c: int, p: int) {
    && Runs(s, c, p) && |s.chan| == |s.pc| && s.pc[p].Sleep?
    && var pc := s.pc[p];
       || (pc.s == SChan && s' == s.(pc := s.pc[p := pc.(s := SState)], chan := s.chan[p := pc.ch]))
       || (pc.s == SWoken && s' == s.(pc := s.pc[p := pc.(s := SUnlock)], chan := s.chan[p := -1]))
  }

  /** A process changes its own state just before it gives up the CPU. */
  predicate OwnStateStep(s: Sys, s': Sys, c: int, p: int) {
    && Runs(s, c, p) && |s.st| == |s.pc|
    && var pc := s.pc[p];
       || (pc.Sleep? && pc.s == SState && s' == s.(pc := s.pc[p := pc.(s := SSwitch)], st := s.st[p := SLEEPING]))
       || (pc.Yield? && pc.y == YState && s' == s.(pc := s.pc[p := pc.(y := YSwitch)], st := s.st[p := RUNNABLE]))
       || (pc == ExitState && s' == s.(pc := s.pc[p := ExitRel], st := s.st[p := ZOMBIE]))
  }

  /** A sleeping process is made runnable: by wakeup if it sleeps on the channel, by kill in any case. */
  predicate WakeStep(s: Sys, s': Sys, c: int, p: int) {
    && Runs(s, c, p) && |s.st| == |s.chan| == |s.pc|
    && var pc := s.pc[p];
       || (pc.Wake? && pc.w == WCheck && 0 <= pc.j < |s.st|
           && s' == s.(pc := s.pc[p := pc.(w := WRel)],
                       st := if s.st[pc.j] == SLEEPING && s.chan[pc.j] == pc.ch then s.st[pc.j := RUNNABLE] else s.st))
       || (pc.KillDo? && 0 <= pc.i < |s.st|
           && (s' == s.(pc := s.pc[p := KillRel(pc.i)])
               || (s.st[pc.i] == SLEEPING && s' == s.(pc := s.pc[p := KillRel(pc.i)], st := s.st[pc.i := RUNNABLE]))))
  }

  /** kwait at a child: reap a zombie, or give up when its status cannot be copied out, or go on. */
  predicate ReapStep(s: Sys, s': Sys, c: int, p: int) {
    && Runs(s, c, p) && |s.st| == |s.parent| == |s.pc| && s.pc[p].WaitChild?
    && var i := s.pc[p].i;
       0 <= i < |s.st|
       && if s.st[i] == ZOMBIE then
            || s' == s.(pc := s.pc[p := WaitReaped(i)], st := s.st[i := UNUSED], parent := s.parent[i := -1])
            || s' == s.(pc := s.pc[p := WaitReaped(i)])
          else s' == s.(pc := s.pc[p := WaitNext(i)])
  }

  /** fork: taking a slot (or failing for want of memory), naming the parent, letting the child run. */
  predicate ForkStep(s: Sys, s': Sys, c: int, p: int) {
    && Runs(s, c, p) && |s.st| == |s.parent| == |s.pc|
    && var pc := s.pc[p];
       || (pc.ForkLook? && 0 <= pc.i < |s.st| && s.st[pc.i] == UNUSED
           && s' == s.(pc := s.pc[p := ForkMade(pc.i)][pc.i := Fresh], st := s.st[pc.i := USED]))
       || (pc.ForkLook? && 0 <= pc.i < |s.st| && s.st[pc.i] == UNUSED && s' == s.(pc := s.pc[p := ForkFail(pc.i)]))
       || (pc.ForkLook? && 0 <= pc.i < |s.st| && s.st[pc.i] != UNUSED && s' == s.(pc := s.pc[p := ForkSkip(pc.i)]))
       || (pc.ForkParent? && 0 <= pc.i < |s.st|
           && s' == s.(pc := s.pc[p := ForkWaitRel(pc.i)], parent := s.parent[pc.i := p]))
       || (pc.ForkState? && 0 <= pc.i < |s.st|
           && s' == s.(pc := s.pc[p := ForkEnd(pc.i)], st := s.st[pc.i := RUNNABLE]))
  }

  /** reparent hands a child to init and wakes init. */
  predicate ReparentStep(s: Sys, s': Sys, c: int, p: int) {
    && Runs(s, c, p) && s.pc[p].ExitScan?
    && var i := s.pc[p].i;
       0 <= i < |s.parent| && s.parent[i] == p
       && s' == s.(pc := s.pc[p := Wake(WAcq, 0, INIT, ToReparent(i))], parent := s.parent[i := INIT])
  }

  /** swtch from a process to its CPU's scheduler. */
  predicate SwitchStep(s: Sys, s': Sys, c: int, p: int) {
    && Runs(s, c, p)
    && var pc := s.pc[p];
       || (pc.Sleep? && pc.s == SSwitch && s' == s.(pc := s.pc[p := pc.(s := SWoken)], cpu := s.cpu[c := Back(p)]))
       || (pc.Yield? && pc.y == YSwitch && s' == s.(pc := s.pc[p := pc.(y := YUnlock)], cpu := s.cpu[c := Back(p)]))
       || (pc == ExitSwitch && s' == s.(pc := s.pc[p := Dead], cpu := s.cpu[c := Back(p)]))
  }

  /** The scheduler on CPU c. */
  predicate SchedulerStep(s: Sys, s': Sys, c: int, i: int) {
    && 0 <= c < |s.cpu| == |s.irq| && 0 <= i < |s.st| && |s.at| == |s.st| && s.irq[c] == Calm
    && (|| (s.cpu[c] == Idle && Owner(s, P(i)) == -1
            && s' == s.(cpu := s.cpu[c := Looking(i, false)], owner := s.owner[P(i) := c]))
        || (s.cpu[c] == Looking(i, false) && s.st[i] == RUNNABLE
            && s' == s.(cpu := s.cpu[c := Running(i)], st := s.st[i := RUNNING], at := s.at[i := c]))
        || (s.cpu[c] == Back(i) && s' == s.(cpu := s.cpu[c := Looking(i, true)], at := s.at[i := -1]))
        || (s.cpu[c].Looking? && s.cpu[c].i == i && (s.cpu[c].ran || s.st[i] != RUNNABLE)
            && s' == s.(cpu := s.cpu[c := Idle], owner := s.owner[P(i) := -1])))
  }

  predicate ProcessStep(s: Sys, s': Sys, c: int, p: int) {
    || AcquireStep(s, s', c, p) || ReleaseStep(s, s', c, p, true) || ReleaseStep(s, s', c, p, false)
    || JumpStep(s, s', c, p) || ChanStep(s, s', c, p) || OwnStateStep(s, s', c, p) || WakeStep(s, s', c, p)
    || ReapStep(s, s', c, p) || ForkStep(s, s', c, p) || ReparentStep(s, s', c, p) || SwitchStep(s, s', c, p)
  }

  /** Where an interrupt can come: no lock is held. */
  predicate AtRest(s: Sys, c: int)
    requires 0 <= c < |s.cpu|
  {
    s.cpu[c] == Idle || (s.cpu[c].Running? && 0 <= s.cpu[c].i < |s.pc| && Preemptible(s.pc[s.cpu[c].i]))
  }

  /** A handler on CPU c starts, enters and leaves its critical section. */
  predicate IrqStep(s: Sys, s': Sys, c: int) {
    && 0 <= c < |s.cpu| == |s.irq| == |s'.irq|
    && var x, x' := s.irq[c], s'.irq[c];
       || (x == Calm && AtRest(s, c) && x'.IrqAcq? && s' == s.(irq := s.irq[c := x']))
       || (x.IrqAcq? && Owner(s, O(x.k)) == -1
           && s' == s.(irq := s.irq[c := IrqHold(x.k)], owner := s.owner[O(x.k) := c]))
       || (x.IrqHold? && x'.IrqWake? && x' == IrqWake(WAcq, 0, x'.ch, x.k) && s' == s.(irq := s.irq[c := x']))
       || (x.IrqHold? && s' == s.(irq := s.irq[c := Calm], owner := s.owner[O(x.k) := -1]))
  }

  /** wakeup in a handler on CPU c. */
  predicate IrqWakeStep(s: Sys, s': Sys, c: int) {
    && 0 <= c < |s.cpu| == |s.irq| && s.irq[c].IrqWake? && |s.st| == |s.chan|
    && var x := s.irq[c];
       || (x.w == WAcq && s.cpu[c] == Running(x.j) && s' == s.(irq := s.irq[c := x.(j := x.j + 1)]))
       || (x.w == WAcq && s.cpu[c] != Running(x.j) && x.j < |s.st| && Owner(s, P(x.j)) == -1
           && s' == s.(irq := s.irq[c := x.(w := WCheck)], owner := s.owner[P(x.j) := c]))
       || (x.w == WAcq && x.j == |s.st| && s' == s.(irq := s.irq[c := IrqHold(x.k)]))
       || (x.w == WCheck && x.j < |s.st|
           && s' == s.(irq := s.irq[c := x.(w := WRel)],
                       st := if s.st[x.j] == SLEEPING && s.chan[x.j] == x.ch then s.st[x.j := RUNNABLE] else s.st))
       || (x.w == WRel
           && s' == s.(irq := s.irq[c := x.(w := WAcq, j := x.j + 1)], owner := s.owner[P(x.j) := -1]))
  }

  predicate HandlerStep(s: Sys, s': Sys, c: int) {
    IrqStep(s, s', c) || IrqWakeStep(s, s', c)
  }

  predicate Step(s: Sys, s': Sys, c: int, i: int) {
    ProcessStep(s, s', c, i) || SchedulerStep(s, s', c, i) || HandlerStep(s, s', c)
  }
}
