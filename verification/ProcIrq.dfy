/**
 Wakeups from interrupt handlers: none is lost either.
 */
module ProcIrq {
  import opened Proc
  import opened ProcInv
  import opened ProcWait

  /** How many processes a handler's wakeup has dealt with. */
  function IrqWokenUpTo(x: Irq): int {
    match x
    case IrqWake(at, j, _, _) => if at == WRel then j + 1 else j
    case _ => 0
  }

  predicate IrqDuty(s: Sys, c: int)
    requires Shape(s) && 0 <= c < |s.cpu|
  {
    var x := s.irq[c];
    x.IrqWake? ==>
      forall q :: 0 <= q < |s.st| && q < IrqWokenUpTo(x) && s.cpu[c] != Running(q) ==> !Waiting(s, q, x.ch, O(x.k))
  }

  ghost predicate Handlers(s: Sys)
    requires Shape(s)
  {
    forall c :: 0 <= c < |s.cpu| ==> IrqDuty(s, c)
  }

  /** A process starts to wait in sleep(ch, lk) only if CPU c held lk; no other CPU and no handler moves. */
  ghost predicate OnlySleeps(s: Sys, s': Sys, c: int)
    requires Shape(s)
  {
    && Shape(s') && |s'.st| == |s.st| && s'.irq == s.irq && 0 <= c < |s.cpu| && s.irq[c] == Calm
    && (forall c2 :: 0 <= c2 < |s.cpu| && c2 != c ==> s'.cpu[c2] == s.cpu[c2])
    && forall q, ch, lk :: 0 <= q < |s.st| && Waiting(s', q, ch, lk) ==> Waiting(s, q, ch, lk) || HeldBy(s, c, lk)
  }

  /** A handler's duty survives: it holds its lock, so nobody else goes to sleep under it. */
  lemma DutyKept(s: Sys, s': Sys, c: int)
    requires Inv(s) && Handlers(s) && OnlySleeps(s, s', c)
    ensures Handlers(s')
  {
    hide Waiting, Creators, Fits, IrqWokenUpTo;
    forall c2 | 0 <= c2 < |s'.cpu| ensures IrqDuty(s', c2) {
      assert IrqDuty(s, c2);
      if s.irq[c2].IrqWake? {
        OneHolder(s, c2, O(s.irq[c2].k), c);
      }
    }
  }

  lemma QuietSleeps(s: Sys, s': Sys, c: int, p: int)
    requires Shape(s) && Quiet(s, s') && Runs(s, c, p) && s'.irq == s.irq && |s'.cpu| == |s.cpu|
    requires forall c2 :: 0 <= c2 < |s.cpu| && c2 != c ==> s'.cpu[c2] == s.cpu[c2]
    ensures OnlySleeps(s, s', c)
  {
    hide Waiting, HeldBy;
  }

  lemma ReleaseSleeps(s: Sys, s': Sys, c: int, p: int, b: bool)
    requires Inv(s) && ReleaseStep(s, s', c, p, b)
    ensures OnlySleeps(s, s', c)
  {
    hide Waiting, Creators, Fits;
    if s.pc[p].Sleep? && s.pc[p].s == SRel {
      SleepWaits(s, s', c, p, b);
    } else {
      RelQuiet(s, s', c, p, b);
    }
  }

  /** Steps that give a process a slot or a parent. */
  lemma ForkSleeps(s: Sys, s': Sys, c: int, p: int)
    requires Inv(s) && (ForkStep(s, s', c, p) || ReparentStep(s, s', c, p) || OwnStateStep(s, s', c, p))
    ensures OnlySleeps(s, s', c)
  {
    hide Creators, Fits, HeldBy, HeldAt;
  }

  lemma StepHandlers(s: Sys, s': Sys, c: int, i: int)
    requires Inv(s) && Family(s) && Handlers(s) && (ProcessStep(s, s', c, i) || SchedulerStep(s, s', c, i))
    ensures Shape(s') && Handlers(s')
  {
    hide Inv, Family, Handlers, Quiet, HeldBy, ReleaseStep, ForkStep, ReparentStep, OwnStateStep;
    StepSleeps(s, s', c, i);
    DutyKept(s, s', c);
  }

  lemma StepSleeps(s: Sys, s': Sys, c: int, i: int)
    requires Inv(s) && Family(s) && (ProcessStep(s, s', c, i) || SchedulerStep(s, s', c, i))
    ensures Shape(s) && OnlySleeps(s, s', c)
  {
    hide Inv, Family, Quiet, OnlySleeps, ReleaseStep, ForkStep, ReparentStep, OwnStateStep, Jump, Acq, Preemptible,
      HeldBy;
    InvShape(s);
    if SchedulerStep(s, s', c, i) {
      SchedulerQuiet(s, s', c, i);
      SchedulerSleeps(s, s', c, i);
    } else if ReleaseStep(s, s', c, i, true) {
      ReleaseSleeps(s, s', c, i, true);
    } else if ReleaseStep(s, s', c, i, false) {
      ReleaseSleeps(s, s', c, i, false);
    } else if ForkStep(s, s', c, i) || ReparentStep(s, s', c, i) || OwnStateStep(s, s', c, i) {
      ForkSleeps(s, s', c, i);
    } else {
      if AcquireStep(s, s', c, i) {
        AcqQuiet(s, s', c, i);
      } else if JumpStep(s, s', c, i) {
        MovesOnly(s, s', c, i);
      } else if ChanStep(s, s', c, i) {
        ChanQuiet(s, s', c, i);
      } else if WakeStep(s, s', c, i) {
        WakeQuiet(s, s', c, i);
      } else if ReapStep(s, s', c, i) {
        ReapQuiet(s, s', c, i);
      } else {
        SwitchQuiet(s, s', c, i);
      }
      QuietSleeps(s, s', c, i);
    }
  }

  lemma InvShape(s: Sys)
    requires Inv(s)
    ensures Shape(s)
  {
  }

  lemma SchedulerSleeps(s: Sys, s': Sys, c: int, i: int)
    requires Inv(s) && SchedulerStep(s, s', c, i) && Quiet(s, s')
    ensures OnlySleeps(s, s', c)
  {
    hide Waiting, HeldBy, Creators, Fits;
  }

  // ---------------------------------------------------------------- the handler itself

  /** The process that a handler has looked at, with its lock held, does not wait any more. */
  lemma IrqWoken(s: Sys, s': Sys, c: int, lk: Lk)
    requires Inv(s) && IrqWakeStep(s, s', c) && s.irq[c].w == WCheck
    ensures var j := s.irq[c].j;
            Shape(s') && j < |s'.st| && !Waiting(s', j, s.irq[c].ch, lk)
  {
    hide Creators, Preemptible;
    var j := s.irq[c].j;
    assert CpuOk(s, c) && ProcOk(s, j);
    assert HeldBy(s, c, P(j));
    LockedByCpu(s, c, j);
  }

  lemma HandlerDuty(s: Sys, s': Sys, c: int)
    requires Inv(s) && Family(s) && Handlers(s) && HandlerStep(s, s', c)
    ensures Shape(s') && Handlers(s')
  {
    hide Waiting, Creators, Fits, Family, HeldBy, Preemptible;
    HandlerQuiet(s, s', c);
    HandlerRests(s, s', c);
    forall c2 | 0 <= c2 < |s'.cpu| ensures IrqDuty(s', c2) {
      assert IrqDuty(s, c2);
      if c2 == c && s.irq[c].IrqWake? && s.irq[c].w == WCheck {
        IrqWoken(s, s', c, O(s.irq[c].k));
      }
    }
  }
}
