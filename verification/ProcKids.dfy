/**
 What kwait knows of its caller's children, and how parents change.
 */
module ProcKids {
  import opened Proc
  import opened ProcInv
  import opened ProcWait

  /** Some process below slot i has q as its parent. */
  ghost predicate KidBelow(parent: seq<int>, q: int, i: int) {
    exists j :: 0 <= j < i && j < |parent| && parent[j] == q
  }

  ghost predicate HasKid(parent: seq<int>, q: int) { KidBelow(parent, q, |parent|) }

  predicate IsKid(parent: seq<int>, q: int, i: int) { 0 <= i < |parent| && parent[i] == q }

  /** kwait's flag says whether it has come by a child, it locks only children, and it goes to sleep, and stays
      asleep, only with a child. */
  ghost predicate KidsAt(parent: seq<int>, q: int, pc: Pc) {
    match pc
    case WaitScan(i, kids) => kids <==> KidBelow(parent, q, i)
    case WaitLock(i, kids) => (kids <==> KidBelow(parent, q, i)) && IsKid(parent, q, i)
    case WaitChild(i) => IsKid(parent, q, i)
    case WaitNext(i) => IsKid(parent, q, i)
    case WaitKillAcq => HasKid(parent, q)
    case WaitKillRel => HasKid(parent, q)
    case Sleep(at, _, lk) => lk == W && at != SReacq ==> HasKid(parent, q)
    case _ => true
  }

  /** The slot that a process has taken and not yet given a parent. */
  function Bare(pc: Pc): Option<int> {
    match pc
    case ForkMade(i) => Some(i)
    case ForkWait(i) => Some(i)
    case ForkParent(i) => Some(i)
    case Yield(_, back) => if back.ForkWait? then Some(back.i) else None
    case _ => None
  }

  /** The slot that it has given itself as the parent, and not yet let run. */
  function Named(pc: Pc): Option<int> {
    match pc
    case ForkWaitRel(i) => Some(i)
    case ForkLock(i) => Some(i)
    case ForkState(i) => Some(i)
    case Yield(_, back) => if back.ForkLock? then Some(back.i) else None
    case _ => None
  }

  predicate ForksAt(parent: seq<int>, q: int, pc: Pc) {
    && (Bare(pc).Some? ==> 0 <= Bare(pc).v < |parent| && parent[Bare(pc).v] == -1)
    && (Named(pc).Some? ==> 0 <= Named(pc).v < |parent| && parent[Named(pc).v] == q)
  }

  /** The channel is set only from before the process sleeps until it has been woken. */
  predicate ChanAt(chan: int, pc: Pc) {
    chan == -1 || (pc.Sleep? && (pc.s == SState || pc.s == SSwitch || pc.s == SWoken))
  }

  ghost predicate Kids(s: Sys)
    requires Shape(s)
  {
    && (forall q :: 0 <= q < |s.st| ==> KidsAt(s.parent, q, s.pc[q]))
    && (forall q :: 0 <= q < |s.st| ==> ForksAt(s.parent, q, s.pc[q]))
    && (forall q :: 0 <= q < |s.st| ==> ChanAt(s.chan[q], s.pc[q]))
    && (forall i :: 0 <= i < |s.st| && s.st[i] == UNUSED ==> s.parent[i] == -1)
  }

  // ---------------------------------------------------------------- moving on in the code

  lemma AcqKids(parent: seq<int>, chan: int, p: int, n: int, pc: Pc)
    requires Acq(p, n, pc).Some? && ChanAt(chan, pc) && KidsAt(parent, p, pc) && ForksAt(parent, p, pc)
    ensures KidsAt(parent, p, Acq(p, n, pc).v.1) && ForksAt(parent, p, Acq(p, n, pc).v.1)
    ensures ChanAt(chan, Acq(p, n, pc).v.1)
  {
  }

  lemma RelKids(parent: seq<int>, chan: int, p: int, pc: Pc, b: bool)
    requires Rel(p, pc, b).Some? && ChanAt(chan, pc) && KidsAt(parent, p, pc) && ForksAt(parent, p, pc)
    requires pc.Yield? ==> Preemptible(pc.back)
    ensures KidsAt(parent, p, Rel(p, pc, b).v.1) && ForksAt(parent, p, Rel(p, pc, b).v.1)
    ensures ChanAt(chan, Rel(p, pc, b).v.1)
  {
  }

  lemma JumpKids(s: Sys, chan: int, p: int, pc: Pc, pc': Pc)
    requires Jump(s, p, pc, pc') && ChanAt(chan, pc) && KidsAt(s.parent, p, pc)
    ensures KidsAt(s.parent, p, pc') && ForksAt(s.parent, p, pc') && ChanAt(chan, pc')
  {
  }

  /** No parent changes, p moves, and another process may start anew. */
  lemma KidsMove(s: Sys, s': Sys, p: int)
    requires Shape(s) && Kids(s) && Shape(s') && s'.parent == s.parent && 0 <= p < |s.st|
    requires forall q :: 0 <= q < |s.st| && q != p ==>
               s'.chan[q] == s.chan[q] && (s'.pc[q] == s.pc[q] || (s.pc[q] == Dead && s'.pc[q] == Fresh))
    requires KidsAt(s.parent, p, s'.pc[p]) && ForksAt(s.parent, p, s'.pc[p]) && ChanAt(s'.chan[p], s'.pc[p])
    requires forall i :: 0 <= i < |s.st| && s'.st[i] == UNUSED ==> s.st[i] == UNUSED
    ensures Kids(s')
  {
    hide Bare, Named;
    forall q | 0 <= q < |s'.st|
      ensures KidsAt(s'.parent, q, s'.pc[q]) && ForksAt(s'.parent, q, s'.pc[q]) && ChanAt(s'.chan[q], s'.pc[q])
    {
      assert KidsAt(s.parent, q, s.pc[q]) && ForksAt(s.parent, q, s.pc[q]) && ChanAt(s.chan[q], s.pc[q]);
      FreshKids(s.parent, q);
    }
  }

  lemma FreshKids(parent: seq<int>, q: int)
    ensures KidsAt(parent, q, Fresh) && ForksAt(parent, q, Fresh)
  {
  }

  lemma AcquireKids(s: Sys, s': Sys, c: int, p: int)
    requires Inv(s) && Kids(s) && AcquireStep(s, s', c, p)
    ensures Shape(s') && Kids(s')
  {
    hide Creators, Fits, HeldAt, KidsAt, ForksAt, Acq;
    AcqKids(s.parent, s.chan[p], p, |s.pc|, s.pc[p]);
    KidsMove(s, s', p);
  }

  lemma ReleaseKids(s: Sys, s': Sys, c: int, p: int, b: bool)
    requires Inv(s) && Kids(s) && ReleaseStep(s, s', c, p, b)
    ensures Shape(s') && Kids(s')
  {
    hide Creators, Fits, HeldAt, KidsAt, ForksAt, Rel;
    RunsFits(s, c, p);
    RelFits(p, s.st[p], s.chan[p], s.pc[p], b);
    RelKids(s.parent, s.chan[p], p, s.pc[p], b);
    KidsMove(s, s', p);
  }

  lemma JumpsKids(s: Sys, s': Sys, c: int, p: int)
    requires Inv(s) && Kids(s) && JumpStep(s, s', c, p)
    ensures Shape(s') && Kids(s')
  {
    hide Creators, Fits, HeldAt, KidsAt, ForksAt, Jump;
    assert KidsAt(s.parent, p, s.pc[p]) && ForksAt(s.parent, p, s.pc[p]) && ChanAt(s.chan[p], s.pc[p]);
    if Jump(s, p, s.pc[p], s'.pc[p]) {
      JumpKids(s, s.chan[p], p, s.pc[p], s'.pc[p]);
    } else {
      YieldKids(s.parent, s.chan[p], p, s.pc[p]);
    }
    KidsMove(s, s', p);
  }

  lemma YieldKids(parent: seq<int>, chan: int, p: int, pc: Pc)
    requires Preemptible(pc) && ForksAt(parent, p, pc) && ChanAt(chan, pc)
    ensures ChanAt(chan, Yield(YAcq, pc))
    ensures KidsAt(parent, p, Yield(YAcq, pc)) && ForksAt(parent, p, Yield(YAcq, pc))
  {
  }

  /** Steps at the CPU's hand-over, and in wakeup and kill. */
  lemma OwnKids(s: Sys, s': Sys, c: int, p: int)
    requires Inv(s) && Kids(s) && (ChanStep(s, s', c, p) || OwnStateStep(s, s', c, p) || SwitchStep(s, s', c, p))
    ensures Shape(s') && Kids(s')
  {
    hide Creators, Fits, HeldAt;
    assert KidsAt(s.parent, p, s.pc[p]) && ForksAt(s.parent, p, s.pc[p]) && ChanAt(s.chan[p], s.pc[p]);
    KidsMove(s, s', p);
  }

  lemma WakeKids(s: Sys, s': Sys, c: int, p: int)
    requires Inv(s) && Kids(s) && WakeStep(s, s', c, p)
    ensures Shape(s') && Kids(s')
  {
    hide Creators, Fits, HeldAt;
    KidsMove(s, s', p);
  }

  // ---------------------------------------------------------------- parents that change

  /** Slot i changes its parent from a to b; nobody else's children change. */
  lemma OtherKids(parent: seq<int>, i: int, b: int, q: int, pc: Pc)
    requires 0 <= i < |parent| && parent[i] != q && b != q && KidsAt(parent, q, pc)
    ensures KidsAt(parent[i := b], q, pc)
  {
    SameKids(parent, i, b, q);
  }

  lemma SameKids(parent: seq<int>, i: int, b: int, q: int)
    requires 0 <= i < |parent| && parent[i] != q && b != q
    ensures forall k :: KidBelow(parent[i := b], q, k) <==> KidBelow(parent, q, k)
    ensures forall k :: IsKid(parent[i := b], q, k) <==> IsKid(parent, q, k)
  {
    var parent' := parent[i := b];
    assert forall j :: 0 <= j < |parent| ==> (parent'[j] == q <==> parent[j] == q);
  }

  /** A process that has not scanned anything yet may be given a child. */
  lemma MoreKids(parent: seq<int>, i: int, q: int, pc: Pc, n: int)
    requires 0 <= i < |parent| == n && KidsAt(parent, q, pc) && ScannedUpTo(pc, n) <= 0
    ensures KidsAt(parent[i := q], q, pc)
  {
    var parent' := parent[i := q];
    assert parent'[i] == q;
    assert forall k :: IsKid(parent, q, k) ==> IsKid(parent', q, k);
  }

  lemma ReapKids(s: Sys, s': Sys, c: int, p: int)
    requires Inv(s) && Kids(s) && ReapStep(s, s', c, p)
    ensures Shape(s') && Kids(s')
  {
    hide Creators, Fits, HeldAt;
    var i := s.pc[p].i;
    assert KidsAt(s.parent, p, s.pc[p]);
    if s'.parent == s.parent {
      KidsMove(s, s', p);
    } else {
      forall q | 0 <= q < |s'.st| ensures KidsAt(s'.parent, q, s'.pc[q]) && ForksAt(s'.parent, q, s'.pc[q]) {
        assert ForksAt(s.parent, q, s.pc[q]);
        if q != p {
          OtherKids(s.parent, i, -1, q, s.pc[q]);
        }
      }
    }
  }

  lemma ForkKids(s: Sys, s': Sys, c: int, p: int)
    requires Inv(s) && Kids(s) && ForkStep(s, s', c, p)
    ensures Shape(s') && Kids(s')
  {
    hide Creators, Fits, HeldAt, KidsAt, ForksAt, ChanAt;
    if s.pc[p].ForkParent? {
      ForkParentKids(s, s', c, p);
    } else {
      if s.pc[p].ForkLook? && 0 <= s.pc[p].i < |s.st| && s.st[s.pc[p].i] == UNUSED {
        FreeIsDead(s, s.pc[p].i);
      }
      ForkerKids(s, s', c, p);
      KidsMove(s, s', p);
    }
  }

  lemma ForkerKids(s: Sys, s': Sys, c: int, p: int)
    requires Inv(s) && Kids(s) && ForkStep(s, s', c, p) && !s.pc[p].ForkParent?
    ensures |s'.pc| == |s.pc| == |s'.chan|
    ensures KidsAt(s.parent, p, s'.pc[p]) && ForksAt(s.parent, p, s'.pc[p]) && ChanAt(s'.chan[p], s'.pc[p])
  {
    hide Creators, Fits, HeldAt;
    assert ForksAt(s.parent, p, s.pc[p]) && ChanAt(s.chan[p], s.pc[p]);
  }

  lemma FreeIsDead(s: Sys, i: int)
    requires Inv(s) && 0 <= i < |s.st| && s.st[i] == UNUSED
    ensures s.pc[i] == Dead
  {
    hide Creators, HeldAt;
    assert ProcOk(s, i);
  }

  lemma ForkParentKids(s: Sys, s': Sys, c: int, p: int)
    requires Inv(s) && Kids(s) && ForkStep(s, s', c, p) && s.pc[p].ForkParent?
    ensures Shape(s') && Kids(s')
  {
    hide Creators, Fits, HeldAt, KidsAt;
    var i := s.pc[p].i;
    assert ForksAt(s.parent, p, s.pc[p]) && CreateOk(s, p) by { CreatorIs(s, p); }
    forall q | 0 <= q < |s'.st| ensures KidsAt(s'.parent, q, s'.pc[q]) && ForksAt(s'.parent, q, s'.pc[q]) {
      if q != p {
        assert KidsAt(s.parent, q, s.pc[q]) && ForksAt(s.parent, q, s.pc[q]);
        OtherKids(s.parent, i, p, q, s.pc[q]);
        CreatorsApart(s, p, q);
      } else {
        ForkedKids(s'.parent, p, i);
      }
    }
  }

  lemma ForkedKids(parent: seq<int>, p: int, i: nat)
    requires i < |parent| && parent[i] == p
    ensures KidsAt(parent, p, ForkWaitRel(i)) && ForksAt(parent, p, ForkWaitRel(i))
  {
  }

  /** Two processes do not create the same child. */
  lemma CreatorsApart(s: Sys, p: int, q: int)
    requires Inv(s) && 0 <= p < |s.st| && 0 <= q < |s.st| && p != q && Bare(s.pc[p]).Some?
    ensures Bare(s.pc[q]) != Bare(s.pc[p])
  {
    assert CreateApart(s, p, q);
  }

  lemma ReparentKids(s: Sys, s': Sys, c: int, p: int)
    requires Inv(s) && Family(s) && Kids(s) && ReparentStep(s, s', c, p)
    ensures Shape(s') && Kids(s')
  {
    hide Creators, Fits, KidsAt, Duty, ScannedUpTo;
    var i := s.pc[p].i;
    ReparentSelf(s, s', c, p);
    forall q | 0 <= q < |s'.st| ensures KidsAt(s'.parent, q, s'.pc[q]) && ForksAt(s'.parent, q, s'.pc[q]) {
      assert KidsAt(s.parent, q, s.pc[q]) && ForksAt(s.parent, q, s.pc[q]);
      if q == p {
        WakingKids(s'.parent, p, i);
      } else if q == INIT {
        DutyNeedsLock(s, c, p, W, INIT);
        MoreKids(s.parent, i, INIT, s.pc[INIT], |s.st|);
      } else {
        OtherKids(s.parent, i, INIT, q, s.pc[q]);
      }
    }
  }

  lemma WakingKids(parent: seq<int>, p: int, i: nat)
    ensures KidsAt(parent, p, Wake(WAcq, 0, INIT, ToReparent(i)))
    ensures ForksAt(parent, p, Wake(WAcq, 0, INIT, ToReparent(i)))
  {
  }

  // ---------------------------------------------------------------- every step

  lemma SchedulerKids(s: Sys, s': Sys, c: int, i: int)
    requires Inv(s) && Kids(s) && SchedulerStep(s, s', c, i)
    ensures Shape(s') && Kids(s')
  {
    hide Creators, Fits, HeldAt, KidsAt, ForksAt;
    assert KidsAt(s.parent, i, s.pc[i]) && ForksAt(s.parent, i, s.pc[i]) && ChanAt(s.chan[i], s.pc[i]);
    KidsMove(s, s', i);
  }

  lemma HandlerChans(s: Sys, s': Sys, c: int)
    requires HandlerStep(s, s', c)
    ensures s'.chan == s.chan
  {
  }

  lemma HandlerKids(s: Sys, s': Sys, c: int)
    requires Inv(s) && Family(s) && Kids(s) && HandlerStep(s, s', c)
    ensures Shape(s') && Kids(s')
  {
    hide HandlerStep, Creators, Fits, HeldAt, KidsAt, ForksAt, Duty;
    HandlerQuiet(s, s', c);
    HandlerChans(s, s', c);
    assert KidsAt(s.parent, 0, s.pc[0]) && ForksAt(s.parent, 0, s.pc[0]) && ChanAt(s.chan[0], s.pc[0]);
    KidsMove(s, s', 0);
  }

  lemma StepKids(s: Sys, s': Sys, c: int, i: int)
    requires Inv(s) && Family(s) && Kids(s) && Step(s, s', c, i)
    ensures Shape(s') && Kids(s')
  {
    hide Inv, Family, Kids, AcquireStep, ReleaseStep, JumpStep, ChanStep, OwnStateStep, WakeStep, ReapStep, ForkStep,
      ReparentStep, SwitchStep, SchedulerStep, HandlerStep;
    if HandlerStep(s, s', c) {
      HandlerKids(s, s', c);
    } else if SchedulerStep(s, s', c, i) {
      SchedulerKids(s, s', c, i);
    } else if AcquireStep(s, s', c, i) {
      AcquireKids(s, s', c, i);
    } else if ReleaseStep(s, s', c, i, true) {
      ReleaseKids(s, s', c, i, true);
    } else if ReleaseStep(s, s', c, i, false) {
      ReleaseKids(s, s', c, i, false);
    } else if JumpStep(s, s', c, i) {
      JumpsKids(s, s', c, i);
    } else if WakeStep(s, s', c, i) {
      WakeKids(s, s', c, i);
    } else if ReapStep(s, s', c, i) {
      ReapKids(s, s', c, i);
    } else if ForkStep(s, s', c, i) {
      ForkKids(s, s', c, i);
    } else if ReparentStep(s, s', c, i) {
      ReparentKids(s, s', c, i);
    } else {
      OwnKids(s, s', c, i);
    }
  }
}
