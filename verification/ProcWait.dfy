/**
 No lost wakeup, and what it means for wait and exit.
 */
module ProcWait {
  import opened Proc
  import opened ProcInv

  /** Process q has released lk in sleep(ch, lk) and nobody has woken it since. */
  predicate Waiting(s: Sys, q: int, ch: int, lk: Lk)
    requires Shape(s) && 0 <= q < |s.st|
  {
    var pc := s.pc[q];
    pc.Sleep? && pc.ch == ch && pc.lk == lk
    && (pc.s == SChan || pc.s == SState || pc.s == SSwitch || (pc.s == SWoken && s.st[q] == SLEEPING))
  }

  /** The lock that wakeup's caller holds throughout. */
  function RetLock(r: Ret): Lk {
    match r
    case ToClient(k) => O(k)
    case _ => W
  }

  // ---------------------------------------------------------------- what holds at a code position

  /** How many processes wakeup has dealt with. */
  function WokenUpTo(pc: Pc): int {
    match pc
    case Wake(at, j, _, _) => if at == WRel then j + 1 else j
    case _ => 0
  }

  predicate WakeOk(s: Sys, w: int)
    requires Shape(s) && 0 <= w < |s.st|
  {
    var pc := s.pc[w];
    pc.Wake? && pc.ret != ToRun ==>
      forall q :: 0 <= q < |s.st| && q != w && q < WokenUpTo(pc) ==> !Waiting(s, q, pc.ch, RetLock(pc.ret))
  }

  /** How many slots are known to hold no child of a process in this state at this position. */
  function ChildlessUpTo(st: PState, pc: Pc, n: int): int {
    if st == USED then n
    else
      match pc
      case ExitScan(k) => k
      case Wake(_, _, _, ToReparent(k)) => k + 1
      case Wake(_, _, _, ToExit) => n
      case ExitLock => n
      case ExitState => n
      case ExitRel => n
      case ExitSwitch => n
      case Dead => n
      case _ => 0
  }

  predicate ChildlessOk(s: Sys, e: int)
    requires Shape(s) && 0 <= e < |s.st|
  {
    forall i :: 0 <= i < |s.st| && i < ChildlessUpTo(s.st[e], s.pc[e], |s.st|) ==> s.parent[i] != e
  }

  /** An exiting process has woken its parent. */
  predicate ExitOk(s: Sys, e: int)
    requires Shape(s) && 0 <= e < |s.st|
  {
    var pc := s.pc[e];
    && (pc.Wake? && pc.ret == ToExit ==> pc.ch == s.parent[e])
    && (pc.Wake? && pc.ret.ToReparent? ==> pc.ch == INIT)
    && ((pc == ExitLock || pc == ExitState) && 0 <= s.parent[e] < |s.st| ==> !Waiting(s, s.parent[e], s.parent[e], W))
  }

  /** How many slots kwait has found to hold no zombie child. */
  function ScannedUpTo(pc: Pc, n: int): int {
    match pc
    case WaitScan(k, _) => k
    case WaitLock(k, _) => k
    case WaitChild(k) => k
    case WaitNext(k) => k + 1
    case WaitKillAcq => n
    case WaitKillRel => n
    case Sleep(SAcq, _, W) => n
    case Sleep(SRel, _, W) => n
    case _ => 0
  }

  predicate ScanOk(s: Sys, q: int)
    requires Shape(s) && 0 <= q < |s.st|
  {
    && (forall i :: 0 <= i < |s.st| && i < ScannedUpTo(s.pc[q], |s.st|) && s.parent[i] == q ==> s.st[i] != ZOMBIE)
    && (s.pc[q].Sleep? && s.pc[q].lk == W && s.pc[q].s != SUnlock && s.pc[q].s != SReacq ==> s.pc[q].ch == q)
  }

  predicate Duty(s: Sys, q: int)
    requires Shape(s) && 0 <= q < |s.st|
  {
    WakeOk(s, q) && ChildlessOk(s, q) && ExitOk(s, q) && ScanOk(s, q)
  }

  predicate Exiting(pc: Pc) {
    match pc
    case ExitAcq => true
    case ExitScan(_) => true
    case ExitLock => true
    case ExitState => true
    case ExitRel => true
    case ExitSwitch => true
    case Dead => true
    case Wake(_, _, _, r) => r.ToReparent? || r == ToExit
    case Yield(_, back) => back == ExitAcq
    case _ => false
  }

  /** The first process never exits. */
  predicate InitOk(s: Sys)
    requires Shape(s)
  {
    !Exiting(s.pc[INIT]) && s.st[INIT] != UNUSED && s.st[INIT] != USED && s.st[INIT] != ZOMBIE
  }

  /** Some process has given init a child and is on its way to wake it, holding wait_lock. */
  predicate Reparenting(s: Sys)
    requires Shape(s)
  {
    var c := Owner(s, W);
    0 <= c < |s.cpu| && s.cpu[c].Running? && 0 <= s.cpu[c].i < |s.st|
    && s.pc[s.cpu[c].i].Wake? && s.pc[s.cpu[c].i].ret.ToReparent?
  }

  /** A zombie's parent is not waiting for it, except that init may still have to be woken. */
  predicate ZombieOk(s: Sys, i: int)
    requires Shape(s) && 0 <= i < |s.st|
  {
    var q := s.parent[i];
    s.st[i] == ZOMBIE && 0 <= q < |s.st| && Waiting(s, q, q, W) ==> q == INIT && Reparenting(s)
  }

  ghost predicate Family(s: Sys)
    requires Shape(s)
  {
    && (forall q :: 0 <= q < |s.st| ==> Duty(s, q))
    && InitOk(s)
    && (forall i :: 0 <= i < |s.st| ==> ZombieOk(s, i))
  }

  // ---------------------------------------------------------------- steps that disturb nobody

  /** No process starts to wait, none becomes a zombie, none gets a child. */
  ghost predicate Quiet(s: Sys, s': Sys)
    requires Shape(s)
  {
    && Shape(s') && |s'.st| == |s.st|
    && (forall q, ch, lk :: 0 <= q < |s.st| && Waiting(s', q, ch, lk) ==> Waiting(s, q, ch, lk))
    && (forall i :: 0 <= i < |s.st| && s'.st[i] == ZOMBIE ==> s.st[i] == ZOMBIE)
    && (forall i :: 0 <= i < |s.st| ==> s'.parent[i] == s.parent[i] || s'.parent[i] == -1)
  }

  /** The duties of a process that has not moved. */
  lemma QuietDuty(s: Sys, s': Sys, q: int)
    requires Shape(s) && Quiet(s, s') && 0 <= q < |s.st| && Duty(s, q) && s'.pc[q] == s.pc[q]
    requires s'.parent[q] == s.parent[q] || !s.pc[q].Wake?
    requires s'.st[q] == USED ==> s.st[q] == USED
    ensures Duty(s', q)
  {
  }

  /** Only process p has moved, quietly. */
  lemma QuietFamily(s: Sys, s': Sys, p: int)
    requires Shape(s) && Family(s) && Quiet(s, s') && 0 <= p < |s.st|
    requires forall q :: 0 <= q < |s.st| && q != p ==> s'.pc[q] == s.pc[q]
    requires forall q :: 0 <= q < |s.st| && q != p ==> s'.parent[q] == s.parent[q] || !s.pc[q].Wake?
    requires forall q :: 0 <= q < |s.st| && q != p ==> s'.st[q] == USED ==> s.st[q] == USED
    requires Duty(s', p) && InitOk(s') && (Reparenting(s) ==> Reparenting(s'))
    ensures Family(s')
  {
    hide Duty, Reparenting;
    forall q | 0 <= q < |s'.st| ensures Duty(s', q) {
      if q != p {
        QuietDuty(s, s', q);
      }
    }
    forall i | 0 <= i < |s'.st| ensures ZombieOk(s', i) {
      assert ZombieOk(s, i);
    }
  }

  /** The one who is reparenting goes on doing so while others move. */
  lemma StillReparenting(s: Sys, s': Sys, c: int, p: int)
    requires Inv(s) && Runs(s, c, p) && OthersSame(s, s', p) && (Owner(s', W) == Owner(s, W) || Owner(s, W) == -1)
    requires s.pc[p].Wake? && s.pc[p].ret.ToReparent? ==> s'.pc[p].Wake? && s'.pc[p].ret.ToReparent?
    ensures Reparenting(s) ==> Reparenting(s')
  {
    if Reparenting(s) && Owner(s, W) != c {
      assert CpuOk(s, Owner(s, W)) && CpuOk(s, c);
    }
  }

  // ---------------------------------------------------------------- moving on in the code

  /** What must hold at pc' is no more than what must hold at pc. */
  predicate NoMore(p: int, st: PState, pc: Pc, pc': Pc, n: int) {
    && ScannedUpTo(pc', n) <= ScannedUpTo(pc, n)
    && ChildlessUpTo(st, pc', n) <= ChildlessUpTo(st, pc, n)
    && NoMoreCalls(p, pc, pc')
    && (Exiting(pc') ==> Exiting(pc))
  }

  predicate NoMoreCalls(p: int, pc: Pc, pc': Pc) {
    && (pc'.Wake? && pc'.ret != ToRun ==>
          if pc.Wake? then pc.ret == pc'.ret && pc.ch == pc'.ch && WokenUpTo(pc') <= WokenUpTo(pc)
          else pc'.ret.ToClient? && WokenUpTo(pc') == 0)
    && (pc' == ExitLock || pc' == ExitState ==> pc == ExitLock || pc == ExitState)
    && (pc'.Sleep? && pc'.lk == W && pc'.s != SUnlock && pc'.s != SReacq ==>
          pc'.ch == p || (pc.Sleep? && pc.lk == W && pc.s != SUnlock && pc.s != SReacq && pc.ch == pc'.ch))
    && (pc.Wake? && pc.ret.ToReparent? ==> pc'.Wake? && pc'.ret.ToReparent?)
  }

  lemma NoMoreDuty(s: Sys, s': Sys, p: int)
    requires Shape(s) && 0 <= p < |s.st| && Duty(s, p) && Quiet(s, s')
    requires s'.parent[p] == s.parent[p] && (s'.st[p] == USED ==> s.st[p] == USED)
    requires NoMore(p, s.st[p], s.pc[p], s'.pc[p], |s.st|) && s.st[p] != USED
    ensures Duty(s', p)
  {
    hide ScannedUpTo, ChildlessUpTo, WokenUpTo, Waiting;
    UsedOnly(s.st[p], s'.st[p], s'.pc[p], |s.st|);
  }

  lemma UsedOnly(st: PState, st': PState, pc: Pc, n: int)
    requires st != USED && st' != USED
    ensures ChildlessUpTo(st', pc, n) == ChildlessUpTo(st, pc, n)
  {
  }

  lemma AcqNoMore(p: int, n: int, st: PState, pc: Pc)
    requires Acq(p, n, pc).Some? && 0 <= n
    ensures NoMore(p, st, pc, Acq(p, n, pc).v.1, n)
  {
    hide NoMoreCalls;
    AcqNoMoreCalls(p, n, pc);
    AcqNoMoreScan(p, n, pc);
  }

  lemma AcqNoMoreScan(p: int, n: int, pc: Pc)
    requires Acq(p, n, pc).Some? && 0 <= n
    ensures ScannedUpTo(Acq(p, n, pc).v.1, n) <= ScannedUpTo(pc, n)
  {
  }

  lemma AcqNoMoreCalls(p: int, n: int, pc: Pc)
    requires Acq(p, n, pc).Some?
    ensures NoMoreCalls(p, pc, Acq(p, n, pc).v.1)
  {
  }

  lemma RelNoMore(p: int, n: int, st: PState, pc: Pc, b: bool)
    requires Rel(p, pc, b).Some? && (pc.Yield? ==> Preemptible(pc.back)) && 0 <= n
    ensures NoMore(p, st, pc, Rel(p, pc, b).v.1, n)
  {
    hide NoMoreCalls;
    RelNoMoreCalls(p, pc, b);
    RelNoMoreScan(p, n, pc, b);
  }

  lemma RelNoMoreScan(p: int, n: int, pc: Pc, b: bool)
    requires Rel(p, pc, b).Some? && (pc.Yield? ==> Preemptible(pc.back)) && 0 <= n
    ensures ScannedUpTo(Rel(p, pc, b).v.1, n) <= ScannedUpTo(pc, n)
  {
  }

  lemma RelNoMoreCalls(p: int, pc: Pc, b: bool)
    requires Rel(p, pc, b).Some? && (pc.Yield? ==> Preemptible(pc.back))
    ensures NoMoreCalls(p, pc, Rel(p, pc, b).v.1)
  {
  }

  lemma PreemptNoMore(p: int, n: int, st: PState, pc: Pc)
    requires Preemptible(pc)
    ensures NoMore(p, st, pc, Yield(YAcq, pc), n)
  {
  }

  /** A running process is not one that is still being created. */
  lemma RunsUsed(s: Sys, c: int, p: int)
    requires Inv(s) && Runs(s, c, p)
    ensures s.st[p] != USED && s.st[p] != UNUSED
  {
    hide Creators;
    RunsFits(s, c, p);
  }

  /** A step in which p only moves on, with no new duties. */
  lemma EasyStep(s: Sys, s': Sys, c: int, p: int)
    requires Inv(s) && Family(s) && Runs(s, c, p) && Quiet(s, s') && OthersSame(s, s', p)
    requires forall q :: 0 <= q < |s.st| && q != p ==> s'.pc[q] == s.pc[q] && (s'.st[q] == USED ==> s.st[q] == USED)
    requires forall q :: 0 <= q < |s.st| && (q == p || s.pc[q].Wake?) ==> s'.parent[q] == s.parent[q]
    requires NoMore(p, s.st[p], s.pc[p], s'.pc[p], |s.st|) && s'.st[p] != USED
    requires s'.st[INIT] == s.st[INIT] || s'.st[INIT] == RUNNABLE || s'.st[INIT] == SLEEPING
    requires Owner(s', W) == Owner(s, W) || Owner(s, W) == -1 || (Owner(s, W) == c && !s.pc[p].Wake?)
    ensures Family(s')
  {
    hide Duty, Reparenting, Creators, ScannedUpTo, ChildlessUpTo, WokenUpTo, HeldAt, Fits;
    RunsUsed(s, c, p);
    NoMoreDuty(s, s', p);
    InitMoves(s, s', p);
    NotReparenting(s, c, p);
    if Owner(s', W) == Owner(s, W) || Owner(s, W) == -1 {
      StillReparenting(s, s', c, p);
    }
    QuietFamily(s, s', p);
  }

  lemma NotReparenting(s: Sys, c: int, p: int)
    requires Shape(s) && Runs(s, c, p)
    ensures Owner(s, W) == c && !s.pc[p].Wake? ==> !Reparenting(s)
  {
  }

  lemma InitMoves(s: Sys, s': Sys, p: int)
    requires Shape(s) && Shape(s') && |s'.st| == |s.st| && 0 <= p < |s.st| && InitOk(s)
    requires forall q :: 0 <= q < |s.st| && q != p ==> s'.pc[q] == s.pc[q]
    requires NoMore(p, s.st[p], s.pc[p], s'.pc[p], |s.st|)
    requires s'.st[INIT] == s.st[INIT] || s'.st[INIT] == RUNNABLE || s'.st[INIT] == SLEEPING
    ensures InitOk(s')
  {
  }

  lemma AcquireFamily(s: Sys, s': Sys, c: int, p: int)
    requires Inv(s) && Family(s) && AcquireStep(s, s', c, p)
    ensures Shape(s') && Family(s')
  {
    hide NoMore, Creators, HeldAt, Fits, Acq, Family, Inv;
    AcqQuiet(s, s', c, p);
    AcqNoMore(p, |s.pc|, s.st[p], s.pc[p]);
    StepShape(s, c, p);
    EasyStep(s, s', c, p);
  }

  lemma StepShape(s: Sys, c: int, p: int)
    requires Inv(s) && Runs(s, c, p)
    ensures Shape(s) && 0 <= p < |s.st| && s.st[p] != USED && s.at[p] == c
  {
    RunsUsed(s, c, p);
    RunsFits(s, c, p);
  }

  lemma AcqQuiet(s: Sys, s': Sys, c: int, p: int)
    requires Inv(s) && AcquireStep(s, s', c, p)
    ensures Quiet(s, s')
  {
    hide Creators, Fits, HeldAt;
  }

  lemma ReleaseFamily(s: Sys, s': Sys, c: int, p: int, b: bool)
    requires Inv(s) && Family(s) && ReleaseStep(s, s', c, p, b)
    ensures Shape(s') && Family(s')
  {
    hide NoMore, Creators, HeldAt, Fits, Rel, Family, Inv;
    StepShape(s, c, p);
    if s.pc[p].Sleep? && s.pc[p].s == SRel {
      SleepFamily(s, s', c, p, b);
    } else {
      RelQuiet(s, s', c, p, b);
      RelNoMore(p, |s.pc|, s.st[p], s.pc[p], b);
      EasyStep(s, s', c, p);
    }
  }

  lemma RelQuiet(s: Sys, s': Sys, c: int, p: int, b: bool)
    requires Inv(s) && ReleaseStep(s, s', c, p, b) && !(s.pc[p].Sleep? && s.pc[p].s == SRel)
    ensures Quiet(s, s') && (s.pc[p].Yield? ==> Preemptible(s.pc[p].back))
    ensures Owner(s', W) == Owner(s, W) || (Owner(s, W) == c && !s.pc[p].Wake?)
  {
    hide Creators;
    RunsFits(s, c, p);
    if Rel(p, s.pc[p], b).v.0 == W {
      assert LockOk(s, c, W);
    }
  }

  // ---------------------------------------------------------------- going to sleep

  /** Another process with duties under a lock that p holds would hold it too. */
  lemma DutyNeedsLock(s: Sys, c: int, p: int, lk: Lk, w: int)
    requires Inv(s) && Runs(s, c, p) && HeldAt(p, s.pc[p], lk) && 0 <= w < |s.st| && w != p
    ensures s.pc[w].Wake? && s.pc[w].ret != ToRun ==> RetLock(s.pc[w].ret) != lk
    ensures lk == W ==> s.pc[w] != ExitLock && s.pc[w] != ExitState && ScannedUpTo(s.pc[w], |s.st|) <= 0
  {
    hide Creators;
    assert ProcOk(s, w);
    if s.at[w] >= 0 {
      OneHolder(s, c, lk, s.at[w]);
      assert CpuOk(s, c);
    }
  }

  lemma SleepFamily(s: Sys, s': Sys, c: int, p: int, b: bool)
    requires Inv(s) && Family(s) && ReleaseStep(s, s', c, p, b) && s.pc[p].Sleep? && s.pc[p].s == SRel
    ensures Shape(s') && Family(s')
  {
    hide Creators, Fits, Duty;
    RunsFits(s, c, p);
    forall q | 0 <= q < |s'.st| ensures Duty(s', q) {
      SleepDuty(s, s', c, p, b, q);
    }
    forall i | 0 <= i < |s'.st| ensures ZombieOk(s', i) {
      SleepZombie(s, s', c, p, b, i);
    }
  }

  lemma SleepWaits(s: Sys, s': Sys, c: int, p: int, b: bool)
    requires Inv(s) && ReleaseStep(s, s', c, p, b) && s.pc[p].Sleep? && s.pc[p].s == SRel
    ensures Shape(s') && |s'.st| == |s.st| && s'.pc[p] == s.pc[p].(s := SChan)
    ensures forall x, ch, lk :: 0 <= x < |s.st| && Waiting(s', x, ch, lk) ==>
              Waiting(s, x, ch, lk) || (x == p && lk == s.pc[p].lk && ch == s.pc[p].ch)
  {
    hide Creators, Fits, HeldAt;
  }

  lemma SleepDuty(s: Sys, s': Sys, c: int, p: int, b: bool, q: int)
    requires Inv(s) && Family(s) && ReleaseStep(s, s', c, p, b)
    requires s.pc[p].Sleep? && s.pc[p].s == SRel && 0 <= q < |s.st|
    ensures Duty(s', q)
  {
    hide Creators, Fits, Waiting;
    assert Duty(s, q);
    SleepWaits(s, s', c, p, b);
    if q != p {
      DutyNeedsLock(s, c, p, s.pc[p].lk, q);
    }
  }

  lemma SleepZombie(s: Sys, s': Sys, c: int, p: int, b: bool, i: int)
    requires Inv(s) && Family(s) && ReleaseStep(s, s', c, p, b)
    requires s.pc[p].Sleep? && s.pc[p].s == SRel && 0 <= i < |s.st|
    ensures ZombieOk(s', i)
  {
    hide Creators, Fits, Waiting, Reparenting;
    assert ZombieOk(s, i) && Duty(s, p);
    SleepWaits(s, s', c, p, b);
    if s.pc[p].lk == W {
      assert LockOk(s, c, W);
      NotReparenting(s, c, p);
    } else {
      StillReparenting(s, s', c, p);
    }
  }

  // ---------------------------------------------------------------- jumps

  lemma MovesOnly(s: Sys, s': Sys, c: int, p: int)
    requires Inv(s) && JumpStep(s, s', c, p)
    ensures Quiet(s, s') && OthersSame(s, s', p)
  {
    hide Creators, Fits, HeldAt;
  }

  lemma JumpDuty(s: Sys, s': Sys, c: int, p: int)
    requires Inv(s) && Family(s) && JumpStep(s, s', c, p) && Jump(s, p, s.pc[p], s'.pc[p])
    ensures Duty(s', p)
  {
    hide *;
    JumpWake(s, s', c, p);
    JumpExit(s, s', c, p);
    JumpScan(s, s', c, p);
    JumpChildless(s, s', c, p);
    DutyIs(s', p);
  }

  lemma DutyIs(s: Sys, q: int)
    requires Shape(s) && 0 <= q < |s.st| && WakeOk(s, q) && ChildlessOk(s, q) && ExitOk(s, q) && ScanOk(s, q)
    ensures Duty(s, q)
  {
  }

  lemma JumpScan(s: Sys, s': Sys, c: int, p: int)
    requires Inv(s) && Family(s) && JumpStep(s, s', c, p) && Jump(s, p, s.pc[p], s'.pc[p])
    ensures Shape(s') && p < |s'.st| && ScanOk(s', p)
  {
    hide Creators, Fits, HeldAt, Waiting;
    assert Duty(s, p);
  }

  lemma JumpChildless(s: Sys, s': Sys, c: int, p: int)
    requires Inv(s) && Family(s) && JumpStep(s, s', c, p) && Jump(s, p, s.pc[p], s'.pc[p])
    ensures Shape(s') && 0 <= p < |s'.st| && ChildlessOk(s', p)
  {
    hide Creators, Fits, HeldAt, Waiting;
    assert Duty(s, p);
    RunsUsed(s, c, p);
  }

  lemma JumpWake(s: Sys, s': Sys, c: int, p: int)
    requires Inv(s) && Family(s) && JumpStep(s, s', c, p) && Jump(s, p, s.pc[p], s'.pc[p])
    ensures WakeOk(s', p)
  {
    hide Creators, Fits, HeldAt, Waiting;
    assert Duty(s, p);
    MovesOnly(s, s', c, p);
  }

  lemma JumpExit(s: Sys, s': Sys, c: int, p: int)
    requires Inv(s) && Family(s) && JumpStep(s, s', c, p) && Jump(s, p, s.pc[p], s'.pc[p])
    ensures ExitOk(s', p)
  {
    hide Creators, Fits, HeldAt;
    assert Duty(s, p);
    MovesOnly(s, s', c, p);
    if s.pc[p].Wake? && s'.pc[p] == ExitLock && 0 <= s.parent[p] < |s.st| {
      assert RetLock(s.pc[p].ret) == W && s.pc[p].ch == s.parent[p];
      assert s.parent[p] != p ==> !Waiting(s, s.parent[p], s.parent[p], W);
    }
  }

  lemma JumpInit(s: Sys, s': Sys, c: int, p: int)
    requires Inv(s) && Family(s) && JumpStep(s, s', c, p)
    ensures InitOk(s')
  {
    hide Creators, Fits, HeldAt;
  }

  /** When wakeup(init) returns into reparent, init is not waiting. */
  lemma InitWoken(s: Sys, s': Sys, c: int, p: int)
    requires Inv(s) && Family(s) && JumpStep(s, s', c, p) && s.pc[p].Wake? && s.pc[p].ret.ToReparent? && !s'.pc[p].Wake?
    ensures !Waiting(s, INIT, INIT, W)
  {
    hide Creators, Fits, HeldAt;
    assert Duty(s, p);
    assert RetLock(s.pc[p].ret) == W && s.pc[p].ch == INIT && p != INIT;
  }

  lemma JumpFamily(s: Sys, s': Sys, c: int, p: int)
    requires Inv(s) && Family(s) && JumpStep(s, s', c, p)
    ensures Shape(s') && Family(s')
  {
    hide Creators, Fits, HeldAt, Duty, InitOk, Waiting, Reparenting, Jump, NoMore;
    MovesOnly(s, s', c, p);
    JumpInit(s, s', c, p);
    if Jump(s, p, s.pc[p], s'.pc[p]) {
      JumpDuty(s, s', c, p);
      if s.pc[p].Wake? && s.pc[p].ret.ToReparent? && !s'.pc[p].Wake? {
        InitWoken(s, s', c, p);
        WokenFamily(s, s', c, p);
      } else {
        if s.pc[p].Wake? && s.pc[p].ret.ToReparent? {
          JumpReparents(s, p, s.pc[p], s'.pc[p]);
        }
        StillReparenting(s, s', c, p);
        QuietFamily(s, s', p);
      }
    } else {
      PreemptNoMore(p, |s.st|, s.st[p], s.pc[p]);
      RunsUsed(s, c, p);
      NoMoreDuty(s, s', p);
      PreemptWake(s.pc[p]);
      StillReparenting(s, s', c, p);
      QuietFamily(s, s', p);
    }
  }

  lemma PreemptWake(pc: Pc)
    requires Preemptible(pc)
    ensures !(pc.Wake? && pc.ret.ToReparent?)
  {
  }

  lemma JumpReparents(s: Sys, p: int, pc: Pc, pc': Pc)
    requires Jump(s, p, pc, pc') && pc.Wake? && pc.ret.ToReparent? && pc'.Wake?
    ensures pc'.ret.ToReparent?
  {
  }

  lemma WokenFamily(s: Sys, s': Sys, c: int, p: int)
    requires Inv(s) && Family(s) && Runs(s, c, p) && Quiet(s, s') && 0 <= p < |s.st|
    requires forall q :: 0 <= q < |s.st| && q != p ==> s'.pc[q] == s.pc[q]
    requires s'.parent == s.parent && s'.st == s.st && Duty(s', p) && InitOk(s') && !Waiting(s, INIT, INIT, W)
    ensures Family(s')
  {
    hide Creators, Fits, HeldAt, Duty, InitOk, Waiting, Reparenting;
    forall q | 0 <= q < |s'.st| ensures Duty(s', q) {
      if q != p {
        QuietDuty(s, s', q);
      }
    }
    forall i | 0 <= i < |s'.st| ensures ZombieOk(s', i) {
      assert ZombieOk(s, i);
    }
  }

  // ---------------------------------------------------------------- sleeping, yielding, waking

  lemma ChanFamily(s: Sys, s': Sys, c: int, p: int)
    requires Inv(s) && Family(s) && ChanStep(s, s', c, p)
    ensures Shape(s') && Family(s')
  {
    hide Creators, HeldAt, Family;
    RunsFits(s, c, p);
    ChanNoMore(p, s.st[p], s.pc[p], s'.pc[p], |s.st|);
    ChanQuiet(s, s', c, p);
    EasyStep(s, s', c, p);
  }

  lemma ChanNoMore(p: int, st: PState, pc: Pc, pc': Pc, n: int)
    requires pc.Sleep? && (pc.s == SChan || pc.s == SState || pc.s == SSwitch || pc.s == SWoken) && 0 <= n
    requires pc' == pc.(s := SState) || pc' == pc.(s := SUnlock) || pc' == pc.(s := SSwitch) || pc' == pc.(s := SWoken)
    ensures NoMore(p, st, pc, pc', n)
  {
  }

  lemma ChanQuiet(s: Sys, s': Sys, c: int, p: int)
    requires Inv(s) && ChanStep(s, s', c, p)
    ensures Quiet(s, s') && OthersSame(s, s', p)
  {
    hide Creators, HeldAt, Fits;
  }

  lemma YieldNoMore(p: int, st: PState, pc: Pc, pc': Pc, n: int)
    requires pc.Yield? && pc'.Yield? && pc.back == pc'.back && 0 <= n
    ensures NoMore(p, st, pc, pc', n)
  {
  }

  lemma OwnStateQuiet(s: Sys, s': Sys, c: int, p: int)
    requires Inv(s) && OwnStateStep(s, s', c, p) && s.pc[p] != ExitState
    ensures Quiet(s, s') && OthersSame(s, s', p)
  {
    hide Creators, HeldAt, Fits;
  }

  lemma OwnStateFamily(s: Sys, s': Sys, c: int, p: int)
    requires Inv(s) && Family(s) && OwnStateStep(s, s', c, p)
    ensures Shape(s') && Family(s')
  {
    hide Creators, HeldAt, Family, Fits;
    RunsFits(s, c, p);
    if s.pc[p] == ExitState {
      ZombieFamily(s, s', c, p);
    } else {
      if s.pc[p].Sleep? {
        ChanNoMore(p, s.st[p], s.pc[p], s'.pc[p], |s.st|);
      } else {
        YieldNoMore(p, s.st[p], s.pc[p], s'.pc[p], |s.st|);
      }
      OwnStateQuiet(s, s', c, p);
      EasyStep(s, s', c, p);
    }
  }

  // ---------------------------------------------------------------- becoming a zombie

  ghost predicate Dies(s: Sys, s': Sys, c: int, p: int) {
    Inv(s) && Family(s) && Runs(s, c, p) && s.pc[p] == ExitState
      && s' == s.(pc := s.pc[p := ExitRel], st := s.st[p := ZOMBIE])
  }

  lemma DiesWaits(s: Sys, s': Sys, c: int, p: int)
    requires Dies(s, s', c, p)
    ensures Shape(s') && |s'.st| == |s.st| && HeldAt(p, s.pc[p], W) && s.st[p] == RUNNING
    ensures forall x, ch, lk :: 0 <= x < |s.st| && Waiting(s', x, ch, lk) ==> Waiting(s, x, ch, lk)
  {
    hide Creators, Family;
    RunsFits(s, c, p);
  }

  lemma DiesDuty(s: Sys, s': Sys, c: int, p: int, q: int)
    requires Dies(s, s', c, p) && 0 <= q < |s.st|
    ensures Shape(s') && q < |s'.st| && Duty(s', q)
  {
    hide Creators, Fits, Waiting, HeldAt;
    DiesWaits(s, s', c, p);
    assert Duty(s, q) && Duty(s, p);
    if q != p {
      DutyNeedsLock(s, c, p, W, q);
    }
  }

  lemma DiesZombie(s: Sys, s': Sys, c: int, p: int, i: int)
    requires Dies(s, s', c, p) && 0 <= i < |s.st|
    ensures Shape(s') && i < |s'.st| && ZombieOk(s', i)
  {
    hide Creators, Fits, Waiting, HeldAt, Reparenting;
    DiesWaits(s, s', c, p);
    assert ZombieOk(s, i) && Duty(s, p);
    StillReparenting(s, s', c, p);
  }

  lemma ZombieFamily(s: Sys, s': Sys, c: int, p: int)
    requires Dies(s, s', c, p)
    ensures Shape(s') && Family(s')
  {
    hide Creators, Fits, HeldAt, Duty, ZombieOk, Inv;
    DiesWaits(s, s', c, p);
    forall q | 0 <= q < |s'.st| ensures Duty(s', q) {
      DiesDuty(s, s', c, p, q);
    }
    forall i | 0 <= i < |s'.st| ensures ZombieOk(s', i) {
      DiesZombie(s, s', c, p, i);
    }
  }

  // ---------------------------------------------------------------- waking up

  lemma WakeQuiet(s: Sys, s': Sys, c: int, p: int)
    requires Inv(s) && WakeStep(s, s', c, p)
    ensures Quiet(s, s') && OthersSame(s, s', p)
    ensures s'.st[INIT] == s.st[INIT] || s'.st[INIT] == RUNNABLE
    ensures forall q :: 0 <= q < |s.st| ==> s'.st[q] == s.st[q] || s'.st[q] == RUNNABLE
  {
    hide Creators, Fits, HeldAt;
  }

  /** The process that wakeup looks at, with its lock held, does not wait any more afterwards. */
  lemma Woken(s: Sys, s': Sys, c: int, p: int, lk: Lk)
    requires Inv(s) && WakeStep(s, s', c, p) && s.pc[p].Wake? && s.pc[p].j != p
    ensures !Waiting(s', s.pc[p].j, s.pc[p].ch, lk)
  {
    hide Creators;
    var j := s.pc[p].j;
    assert ProcOk(s, j);
    LockedElsewhere(s, c, p, j);
  }

  lemma WakeDuty(s: Sys, s': Sys, c: int, p: int)
    requires Inv(s) && Family(s) && WakeStep(s, s', c, p) && s.pc[p].Wake?
    ensures Duty(s', p)
  {
    hide Creators, Fits, HeldAt, Waiting;
    assert Duty(s, p);
    WakeQuiet(s, s', c, p);
    if s.pc[p].j != p {
      Woken(s, s', c, p, RetLock(s.pc[p].ret));
    }
    RunsUsed(s, c, p);
    NotAsleepHere(s, c, p);
  }

  lemma NotAsleepHere(s: Sys, c: int, p: int)
    requires Inv(s) && Runs(s, c, p) && s.pc[p].Wake?
    ensures s.st[p] == RUNNING
  {
    NotAsleep(s, c, p);
  }

  lemma WakeInit(s: Sys, s': Sys, c: int, p: int)
    requires Inv(s) && Family(s) && WakeStep(s, s', c, p)
    ensures InitOk(s')
  {
    hide Creators, Fits, HeldAt;
  }

  lemma KillNoMore(p: int, st: PState, i: nat, n: int)
    requires 0 <= n
    ensures NoMore(p, st, KillDo(i), KillRel(i), n)
  {
  }

  lemma WakeFamily(s: Sys, s': Sys, c: int, p: int)
    requires Inv(s) && Family(s) && WakeStep(s, s', c, p)
    ensures Shape(s') && Family(s')
  {
    hide Creators, Fits, HeldAt, Duty, InitOk, Waiting, Reparenting, NoMore, Quiet;
    WakeQuiet(s, s', c, p);
    WakeInit(s, s', c, p);
    RunsUsed(s, c, p);
    StillReparenting(s, s', c, p);
    if s.pc[p].Wake? {
      WakeDuty(s, s', c, p);
    } else {
      KillNoMore(p, s.st[p], s.pc[p].i, |s.st|);
      NoMoreDuty(s, s', p);
    }
    QuietFamily(s, s', p);
  }

  // ---------------------------------------------------------------- reaping

  lemma ReapQuiet(s: Sys, s': Sys, c: int, p: int)
    requires Inv(s) && Family(s) && ReapStep(s, s', c, p)
    ensures Quiet(s, s') && OthersSame(s, s', p) && s'.st[p] == s.st[p] && s'.parent[p] == s.parent[p]
    ensures forall q :: 0 <= q < |s.st| && s'.parent[q] != s.parent[q] ==> s.st[q] == ZOMBIE
    ensures forall q :: 0 <= q < |s.st| ==> s'.st[q] == s.st[q] || (s.st[q] == ZOMBIE && s'.st[q] == UNUSED)
  {
    hide Creators, HeldAt;
    RunsFits(s, c, p);
  }

  /** A zombie is in no loop of wakeup. */
  lemma ZombieIdle(s: Sys, q: int)
    requires Inv(s) && 0 <= q < |s.st| && s.st[q] == ZOMBIE
    ensures !s.pc[q].Wake?
  {
    hide Creators;
    assert ProcOk(s, q);
  }

  lemma ReapDuty(s: Sys, s': Sys, c: int, p: int)
    requires Inv(s) && Family(s) && ReapStep(s, s', c, p)
    ensures Duty(s', p)
  {
    hide Creators, Fits, HeldAt;
    assert Duty(s, p);
    ReapQuiet(s, s', c, p);
    RunsUsed(s, c, p);
  }

  lemma ReapFamily(s: Sys, s': Sys, c: int, p: int)
    requires Inv(s) && Family(s) && ReapStep(s, s', c, p)
    ensures Shape(s') && Family(s')
  {
    hide Creators, Fits, HeldAt, Duty, Waiting, Reparenting, Quiet;
    ReapQuiet(s, s', c, p);
    ReapDuty(s, s', c, p);
    StillReparenting(s, s', c, p);
    forall q | 0 <= q < |s.st| && q != p ensures s'.parent[q] == s.parent[q] || !s.pc[q].Wake? {
      if s'.parent[q] != s.parent[q] {
        ZombieIdle(s, q);
      }
    }
    QuietFamily(s, s', p);
  }

  // ---------------------------------------------------------------- forking

  lemma ForkNoMore(p: int, st: PState, pc: Pc, pc': Pc, n: int)
    requires pc.ForkLook? || pc.ForkState? || pc.ForkParent?
    requires pc'.ForkMade? || pc'.ForkFail? || pc'.ForkSkip? || pc'.ForkEnd? || pc'.ForkWaitRel?
    requires 0 <= n
    ensures NoMore(p, st, pc, pc', n)
  {
  }

  /** The new child's slot: nobody's parent, and not waiting. */
  lemma MadeFamily(s: Sys, s': Sys, c: int, p: int)
    requires Inv(s) && Family(s) && Runs(s, c, p) && s.pc[p].ForkLook?
    requires var i := s.pc[p].i;
             0 <= i < |s.st| && s.st[i] == UNUSED
             && s' == s.(pc := s.pc[p := ForkMade(i)][i := Fresh], st := s.st[i := USED])
    ensures Shape(s') && Family(s')
  {
    hide Creators, Fits, HeldAt, Duty, Waiting, Reparenting;
    var i := s.pc[p].i;
    RunsUsed(s, c, p);
    UnusedIsOff(s, i);
    RunsAt(s, c, p);
    MadeQuiet(s, s', c, p);
    StillReparenting(s, s', c, p);
    ForkNoMore(p, s.st[p], s.pc[p], s'.pc[p], |s.st|);
    assert Duty(s, p) && Duty(s, i);
    NoMoreDuty(s, s', p);
    FreshDuty(s, s', i);
    forall q | 0 <= q < |s'.st| ensures Duty(s', q) {
      assert Duty(s, q);
      if q != p && q != i {
        QuietDuty(s, s', q);
      }
    }
    forall q | 0 <= q < |s'.st| ensures ZombieOk(s', q) {
      assert ZombieOk(s, q);
    }
  }

  lemma RunsAt(s: Sys, c: int, p: int)
    requires Inv(s) && Runs(s, c, p)
    ensures s.at[p] == c
  {
    RunsFits(s, c, p);
  }

  lemma MadeQuiet(s: Sys, s': Sys, c: int, p: int)
    requires Inv(s) && Runs(s, c, p) && s.pc[p].ForkLook?
    requires var i := s.pc[p].i;
             0 <= i < |s.st| && s.st[i] == UNUSED && s.at[i] == -1
             && s' == s.(pc := s.pc[p := ForkMade(i)][i := Fresh], st := s.st[i := USED])
    ensures Quiet(s, s') && OthersSame(s, s', p)
  {
    hide Creators, Fits, HeldAt;
  }

  lemma FreshDuty(s: Sys, s': Sys, i: int)
    requires Inv(s) && 0 <= i < |s.st| && Duty(s, i) && s.st[i] == UNUSED
    requires Shape(s') && |s'.st| == |s.st| && s'.pc[i] == Fresh && s'.parent == s.parent
    ensures Duty(s', i)
  {
    hide Creators, Waiting;
    assert ProcOk(s, i);
  }

  lemma ForkQuiet(s: Sys, s': Sys, c: int, p: int)
    requires Inv(s) && Runs(s, c, p) && (s.pc[p].ForkLook? || s.pc[p].ForkState?) && |s'.pc| == |s.pc|
    requires var i := s.pc[p].i;
             0 <= i < |s.st| && (s'.pc[p].ForkFail? || s'.pc[p].ForkSkip? || s'.pc[p].ForkEnd?)
             && (s' == s.(pc := s.pc[p := s'.pc[p]]) || s' == s.(pc := s.pc[p := s'.pc[p]], st := s.st[i := RUNNABLE]))
    ensures Quiet(s, s') && OthersSame(s, s', p)
    ensures s'.st[INIT] == s.st[INIT] || s'.st[INIT] == RUNNABLE
  {
    hide Creators, Fits, HeldAt;
  }

  lemma ForkFamily(s: Sys, s': Sys, c: int, p: int)
    requires Inv(s) && Family(s) && ForkStep(s, s', c, p)
    ensures Shape(s') && Family(s')
  {
    hide Creators, Fits, HeldAt, Family, NoMore, Quiet;
    RunsUsed(s, c, p);
    RunsAt(s, c, p);
    if s.pc[p].ForkParent? {
      AdoptFamily(s, s', c, p);
    } else if s.pc[p].ForkLook? && s'.st != s.st {
      MadeFamily(s, s', c, p);
    } else {
      ForkQuiet(s, s', c, p);
      ForkNoMore(p, s.st[p], s.pc[p], s'.pc[p], |s.st|);
      EasyStep(s, s', c, p);
    }
  }

  // ---------------------------------------------------------------- getting a parent

  /** A step that gives process i the parent q, under wait_lock. */
  ghost predicate Adopts(s: Sys, s': Sys, c: int, p: int, i: int, q: int) {
    && Inv(s) && Family(s) && Runs(s, c, p) && HeldAt(p, s.pc[p], W) && 0 <= i < |s.st| && 0 <= q < |s.st|
    && |s'.pc| == |s.pc| && s' == s.(pc := s.pc[p := s'.pc[p]], parent := s.parent[i := q])
    && !s.pc[p].Sleep? && !s'.pc[p].Sleep?
    && ChildlessUpTo(s.st[q], s.pc[q], |s.st|) <= 0
  }

  lemma AdoptWaits(s: Sys, s': Sys, c: int, p: int, i: int, q: int)
    requires Adopts(s, s', c, p, i, q)
    ensures Shape(s') && |s'.st| == |s.st| && OthersSame(s, s', p)
    ensures forall x, ch, lk :: 0 <= x < |s.st| && Waiting(s', x, ch, lk) ==> Waiting(s, x, ch, lk)
  {
    hide Creators, Family, Fits, HeldAt;
  }

  lemma AdoptDuty(s: Sys, s': Sys, c: int, p: int, i: int, q: int, x: int)
    requires Adopts(s, s', c, p, i, q) && 0 <= x < |s.st| && x != p
    ensures Shape(s') && x < |s'.st| && Duty(s', x)
  {
    hide Creators, Fits, Waiting, HeldAt;
    AdoptWaits(s, s', c, p, i, q);
    assert Duty(s, x);
    DutyNeedsLock(s, c, p, W, x);
  }

  lemma AdoptFamily(s: Sys, s': Sys, c: int, p: int)
    requires Inv(s) && Family(s) && ForkStep(s, s', c, p) && s.pc[p].ForkParent?
    ensures Shape(s') && Family(s')
  {
    hide Creators, Fits, Duty, Reparenting, Waiting;
    var i := s.pc[p].i;
    RunsUsed(s, c, p);
    assert CreateOk(s, p) by { CreatorIs(s, p); }
    AdoptWaits(s, s', c, p, i, p);
    StillReparenting(s, s', c, p);
    forall x | 0 <= x < |s'.st| ensures Duty(s', x) {
      if x == p {
        AdoptSelf(s, s', c, p);
      } else {
        AdoptDuty(s, s', c, p, i, p, x);
      }
    }
    forall x | 0 <= x < |s'.st| ensures ZombieOk(s', x) {
      assert ZombieOk(s, x);
    }
  }

  lemma CreatorIs(s: Sys, p: int)
    requires Inv(s) && 0 <= p < |s.st|
    ensures CreateOk(s, p)
  {
  }

  lemma AdoptSelf(s: Sys, s': Sys, c: int, p: int)
    requires Inv(s) && Family(s) && ForkStep(s, s', c, p) && s.pc[p].ForkParent?
    ensures Shape(s') && Duty(s', p)
  {
    hide Creators, Fits, HeldAt;
    RunsUsed(s, c, p);
  }

  lemma ReparentSelf(s: Sys, s': Sys, c: int, p: int)
    requires Inv(s) && Family(s) && ReparentStep(s, s', c, p)
    ensures Shape(s') && Duty(s', p) && p != INIT
  {
    hide Creators, Fits, HeldAt;
    assert Duty(s, p);
    RunsUsed(s, c, p);
  }

  lemma ReparentZombie(s: Sys, s': Sys, c: int, p: int, x: int)
    requires Inv(s) && Family(s) && ReparentStep(s, s', c, p) && 0 <= x < |s.st|
    ensures Shape(s') && ZombieOk(s', x)
  {
    hide Creators, Fits;
    assert ZombieOk(s, x);
    assert LockOk(s, c, W);
    InitChildless(s);
    AdoptWaits(s, s', c, p, s.pc[p].i, INIT);
  }

  lemma InitChildless(s: Sys)
    requires Shape(s) && InitOk(s)
    ensures ChildlessUpTo(s.st[INIT], s.pc[INIT], |s.st|) <= 0
  {
  }

  lemma ReparentFamily(s: Sys, s': Sys, c: int, p: int)
    requires Inv(s) && Family(s) && ReparentStep(s, s', c, p)
    ensures Shape(s') && Family(s')
  {
    hide Creators, Fits, Duty, Reparenting, Waiting, ZombieOk;
    ReparentSelf(s, s', c, p);
    InitChildless(s);
    forall x | 0 <= x < |s'.st| ensures Duty(s', x) {
      if x != p {
        AdoptDuty(s, s', c, p, s.pc[p].i, INIT, x);
      }
    }
    forall x | 0 <= x < |s'.st| ensures ZombieOk(s', x) {
      ReparentZombie(s, s', c, p, x);
    }
  }

  // ---------------------------------------------------------------- switching

  lemma SwitchQuiet(s: Sys, s': Sys, c: int, p: int)
    requires Inv(s) && SwitchStep(s, s', c, p)
    ensures Quiet(s, s') && NoMore(p, s.st[p], s.pc[p], s'.pc[p], |s.st|)
  {
    hide Creators, HeldAt;
    RunsFits(s, c, p);
  }

  /** A CPU in its scheduler, or about to enter it, does not hold wait_lock. */
  lemma SwitchReparenting(s: Sys, s': Sys, c: int, p: int)
    requires Inv(s) && 0 <= c < |s.cpu| && !HeldBy(s, c, W) && 0 <= p < |s.st|
    requires Shape(s') && |s'.st| == |s.st| && |s'.cpu| == |s.cpu| && Owner(s', W) == Owner(s, W)
    requires forall c2 :: 0 <= c2 < |s.cpu| && c2 != c ==> s'.cpu[c2] == s.cpu[c2]
    requires forall q :: 0 <= q < |s.st| && q != p ==> s'.pc[q] == s.pc[q]
    requires s'.pc[p] == s.pc[p] || s.cpu[c] == Running(p)
    ensures Reparenting(s) ==> Reparenting(s')
  {
    hide Creators, HeldAt, Fits;
    assert LockOk(s, c, W);
    var o := Owner(s, W);
    if 0 <= o < |s.cpu| {
      assert CpuOk(s, o) && CpuOk(s, c);
    }
  }

  lemma SwitchFamily(s: Sys, s': Sys, c: int, p: int)
    requires Inv(s) && Family(s) && SwitchStep(s, s', c, p)
    ensures Shape(s') && Family(s')
  {
    hide Creators, Fits, Duty, Reparenting, Waiting, NoMore, Quiet;
    SwitchQuiet(s, s', c, p);
    RunsUsed(s, c, p);
    NoMoreDuty(s, s', p);
    InitMoves(s, s', p);
    SwitchReparenting(s, s', c, p);
    QuietFamily(s, s', p);
  }

  lemma SchedulerQuiet(s: Sys, s': Sys, c: int, i: int)
    requires Inv(s) && Family(s) && SchedulerStep(s, s', c, i)
    ensures Quiet(s, s') && InitOk(s') && s'.pc == s.pc && s'.parent == s.parent
    ensures forall q :: 0 <= q < |s.st| ==> s'.st[q] == s.st[q] || s'.st[q] == RUNNING
    ensures !HeldBy(s, c, W) && Owner(s', W) == Owner(s, W)
  {
    hide Creators, HeldAt, Fits;
  }

  lemma SchedulerFamily(s: Sys, s': Sys, c: int, i: int)
    requires Inv(s) && Family(s) && SchedulerStep(s, s', c, i)
    ensures Shape(s') && Family(s')
  {
    hide Creators, Fits, Duty, Reparenting, Waiting, NoMore, Quiet, InitOk;
    SchedulerQuiet(s, s', c, i);
    SchedulerShape(s, s');
    assert Duty(s, i);
    SwitchReparenting(s, s', c, i);
    QuietDuty(s, s', i);
    QuietFamily(s, s', i);
  }

  lemma SchedulerShape(s: Sys, s': Sys)
    requires Shape(s) && Quiet(s, s')
    ensures Shape(s') && |s'.st| == |s.st|
  {
  }

  // ---------------------------------------------------------------- interrupt handlers

  lemma HandlerQuiet(s: Sys, s': Sys, c: int)
    requires Inv(s) && Family(s) && HandlerStep(s, s', c)
    ensures Quiet(s, s') && InitOk(s') && s'.pc == s.pc && s'.parent == s.parent && s'.cpu == s.cpu
    ensures forall q :: 0 <= q < |s.st| ==> s'.st[q] == s.st[q] || s'.st[q] == RUNNABLE
    ensures Owner(s', W) == Owner(s, W)
  {
    hide Creators, HeldAt, Fits, Preemptible, HeldBy, Duty, ZombieOk;
    HandlerRests(s, s', c);
  }

  lemma HandlerFamily(s: Sys, s': Sys, c: int)
    requires Inv(s) && Family(s) && HandlerStep(s, s', c)
    ensures Shape(s') && Family(s')
  {
    hide HandlerStep, Creators, Fits, Duty, Waiting, Quiet, InitOk, Inv;
    HandlerQuiet(s, s', c);
    HandlerRests(s, s', c);
    assert Duty(s, 0);
    QuietDuty(s, s', 0);
    QuietFamily(s, s', 0);
  }

  lemma StepFamily(s: Sys, s': Sys, c: int, i: int)
    requires Inv(s) && Family(s) && Step(s, s', c, i)
    ensures Shape(s') && Family(s')
  {
    hide Inv, Family, AcquireStep, ReleaseStep, JumpStep, ChanStep, OwnStateStep, WakeStep, ReapStep, ForkStep,
      ReparentStep,
      SwitchStep, SchedulerStep, HandlerStep;
    if HandlerStep(s, s', c) {
      HandlerFamily(s, s', c);
    } else if SchedulerStep(s, s', c, i) {
      SchedulerFamily(s, s', c, i);
    } else if AcquireStep(s, s', c, i) {
      AcquireFamily(s, s', c, i);
    } else if ReleaseStep(s, s', c, i, true) {
      ReleaseFamily(s, s', c, i, true);
    } else if ReleaseStep(s, s', c, i, false) {
      ReleaseFamily(s, s', c, i, false);
    } else if JumpStep(s, s', c, i) {
      JumpFamily(s, s', c, i);
    } else if ChanStep(s, s', c, i) {
      ChanFamily(s, s', c, i);
    } else if OwnStateStep(s, s', c, i) {
      OwnStateFamily(s, s', c, i);
    } else if WakeStep(s, s', c, i) {
      WakeFamily(s, s', c, i);
    } else if ReapStep(s, s', c, i) {
      ReapFamily(s, s', c, i);
    } else if ForkStep(s, s', c, i) {
      ForkFamily(s, s', c, i);
    } else if ReparentStep(s, s', c, i) {
      ReparentFamily(s, s', c, i);
    } else {
      SwitchFamily(s, s', c, i);
    }
  }
}
