/**
 Spinlocks below the level of whole acquire and release calls: the atomic swap,
 the two fields of the lock, and the nesting of interrupt disabling.
 */
module Spinlock {

  /** Where a CPU is inside acquire, release, push_off or pop_off. */
  datatype At =
    | Calm
    | Pushing(was: bool, lock: int)
    | Trying(lock: int)
    | Got(lock: int)
    | Dropping(lock: int)
    | Popping

  /** `intr` says whether interrupts are on. `held`, `pushes` and `before` are auxiliary: the locks this CPU has won,
      its push_offs that belong to no lock, and the interrupt state to return to: the one before the outermost push_off
      or, after a switch of threads, the one that came with the thread resumed. */
  datatype Core = Core(intr: bool, noff: int, intena: bool, at: At, held: set<int>, pushes: int, before: bool)

  /** A lock of -1 in the cpu field means none. */
  datatype Lock = Lock(locked: bool, cpu: int)

  datatype Locks = Locks(lock: seq<Lock>, core: seq<Core>)

  const NONE: int := -1

  // ---------------------------------------------------------------- steps of CPU c

  predicate Moves(s: Locks, s': Locks, c: int, k: Core) {
    0 <= c < |s.core| && s' == s.(core := s.core[c := k])
  }

  /** The first half of push_off: note the interrupt state and switch interrupts off. A lock of NONE is a bare
      push_off. */
  predicate Push1(s: Locks, s': Locks, c: int, l: int) {
    && 0 <= c < |s.core| && s.core[c].at == Calm && (l == NONE || (0 <= l < |s.lock| && l !in s.core[c].held))
    && var k := s.core[c];
       Moves(s, s', c, k.(intr := false, at := Pushing(k.intr, l), before := if k.noff == 0 then k.intr else k.before))
  }

  /** The second half: count, and remember the interrupt state if this is the outermost. */
  predicate Push2(s: Locks, s': Locks, c: int) {
    && 0 <= c < |s.core| && s.core[c].at.Pushing?
    && var k := s.core[c];
       Moves(s, s', c, k.(intena := if k.noff == 0 then k.at.was else k.intena, noff := k.noff + 1,
                          at := if k.at.lock == NONE then Calm else Trying(k.at.lock),
                          pushes := if k.at.lock == NONE then k.pushes + 1 else k.pushes))
  }

  /** The atomic swap that finds the lock free. One that finds it taken changes nothing and is tried again. */
  predicate Swap(s: Locks, s': Locks, c: int) {
    && 0 <= c < |s.core| && s.core[c].at.Trying?
    && var k, l := s.core[c], s.core[c].at.lock;
       0 <= l < |s.lock| && !s.lock[l].locked
       && s' == s.(lock := s.lock[l := s.lock[l].(locked := true)],
                   core := s.core[c := k.(at := Got(l), held := k.held + {l})])
  }

  predicate Record(s: Locks, s': Locks, c: int) {
    && 0 <= c < |s.core| && s.core[c].at.Got?
    && var k, l := s.core[c], s.core[c].at.lock;
       0 <= l < |s.lock|
       && s' == s.(lock := s.lock[l := s.lock[l].(cpu := c)], core := s.core[c := k.(at := Calm)])
  }

  /** release: clear the cpu field, then the locked field, then pop_off. */
  predicate Drop1(s: Locks, s': Locks, c: int, l: int) {
    && 0 <= c < |s.core| && s.core[c].at == Calm && 0 <= l < |s.lock| && l in s.core[c].held
    && s' == s.(lock := s.lock[l := s.lock[l].(cpu := NONE)], core := s.core[c := s.core[c].(at := Dropping(l))])
  }

  predicate Drop2(s: Locks, s': Locks, c: int) {
    && 0 <= c < |s.core| && s.core[c].at.Dropping?
    && var k, l := s.core[c], s.core[c].at.lock;
       0 <= l < |s.lock|
       && s' == s.(lock := s.lock[l := s.lock[l].(locked := false)],
                   core := s.core[c := k.(at := Popping, held := k.held - {l})])
  }

  function Popped(k: Core): Core {
    k.(noff := k.noff - 1, intr := k.intr || (k.noff == 1 && k.intena), at := Calm)
  }

  /** pop_off, at the end of release or on its own. */
  predicate Pop(s: Locks, s': Locks, c: int) {
    && 0 <= c < |s.core|
    && var k := s.core[c];
       || (k.at == Popping && Moves(s, s', c, Popped(k)))
       || (k.at == Calm && k.pushes > 0 && Moves(s, s', c, Popped(k).(pushes := k.pushes - 1)))
  }

  /** With no push_off outstanding, the code or a trap return may switch interrupts either way. */
  predicate Toggle(s: Locks, s': Locks, c: int) {
    && 0 <= c < |s.core| && s.core[c].at == Calm && s.core[c].noff == 0
    && Moves(s, s', c, s.core[c].(intr := !s.core[c].intr))
  }

  /** sched and scheduler switch threads with one lock held, which passes to the thread resumed. A thread resumed in
      sched puts back the intena it had saved; the scheduler goes on with the one it finds. */
  predicate Switch(s: Locks, s': Locks, c: int, intena: bool) {
    && 0 <= c < |s.core| && s.core[c].at == Calm && s.core[c].noff == 1 && s.core[c].pushes == 0
    && Moves(s, s', c, s.core[c].(intena := intena, before := intena))
  }

  predicate Step(s: Locks, s': Locks, c: int, l: int) {
    || Push1(s, s', c, l) || Push2(s, s', c) || Swap(s, s', c) || Record(s, s', c) || Drop1(s, s', c, l)
    || Drop2(s, s', c) || Pop(s, s', c) || Toggle(s, s', c) || Switch(s, s', c, true) || Switch(s, s', c, false)
  }

  // ---------------------------------------------------------------- the invariant

  function Pending(at: At): int { if at == Popping || at.Trying? then 1 else 0 }

  predicate CoreOk(k: Core) {
    && k.noff == |k.held| + k.pushes + Pending(k.at) && 0 <= k.pushes
    && (k.noff > 0 || k.at.Pushing? ==> !k.intr)
    && (k.noff > 0 ==> k.intena == k.before)
    && (k.at.Pushing? && k.noff == 0 ==> k.at.was == k.before)
    && (k.at.Got? || k.at.Dropping? ==> k.at.lock in k.held)
    && (k.at.Trying? || (k.at.Pushing? && k.at.lock != NONE) ==> k.at.lock !in k.held)
  }

  /** The lock's fields, seen from one CPU. */
  predicate LockOk(s: Locks, c: int, l: int)
    requires 0 <= c < |s.core| && 0 <= l < |s.lock|
  {
    var k := s.core[c];
    && (l in k.held ==> s.lock[l].locked)
    && (s.lock[l].cpu == c ==> l in k.held && k.at != Dropping(l))
    && (l in k.held && k.at != Got(l) && k.at != Dropping(l) ==> s.lock[l].cpu == c)
  }

  /** No two CPUs have won the same lock. */
  predicate Apart(s: Locks, c: int, d: int, l: int)
    requires 0 <= c < |s.core| && 0 <= d < |s.core|
  {
    c != d && l in s.core[c].held ==> l !in s.core[d].held
  }

  /** A lock that is taken has been won by some CPU. */
  ghost predicate Won(s: Locks, l: int)
    requires 0 <= l < |s.lock|
  {
    s.lock[l].locked ==> exists c :: 0 <= c < |s.core| && l in s.core[c].held
  }

  ghost predicate Inv(s: Locks) {
    && (forall c :: 0 <= c < |s.core| ==> CoreOk(s.core[c]))
    && (forall c, l :: 0 <= c < |s.core| && 0 <= l < |s.lock| ==> LockOk(s, c, l))
    && (forall c, d, l :: 0 <= c < |s.core| && 0 <= d < |s.core| ==> Apart(s, c, d, l))
    && (forall l :: 0 <= l < |s.lock| ==> Won(s, l))
  }

  lemma CoreKept(s: Locks, s': Locks, c: int, l: int)
    requires Inv(s) && Step(s, s', c, l)
    ensures CoreOk(s'.core[c]) && |s'.core| == |s.core| && |s'.lock| == |s.lock|
    ensures forall d :: 0 <= d < |s.core| && d != c ==> s'.core[d] == s.core[d]
  {
    assert CoreOk(s.core[c]);
    if Drop2(s, s', c) {
      assert |s.core[c].held| == |s'.core[c].held| + 1;
    }
  }

  lemma LockKept(s: Locks, s': Locks, c: int, l: int, d: int, m: int)
    requires Inv(s) && Step(s, s', c, l) && 0 <= d < |s.core| && 0 <= m < |s.lock|
    ensures |s'.core| == |s.core| && |s'.lock| == |s.lock| && LockOk(s', d, m)
  {
    assert LockOk(s, d, m) && LockOk(s, c, m) && Apart(s, c, d, m) && CoreOk(s.core[c]);
  }

  lemma ApartKept(s: Locks, s': Locks, c: int, l: int, d: int, e: int, m: int)
    requires Inv(s) && Step(s, s', c, l) && 0 <= d < |s.core| && 0 <= e < |s.core|
    ensures |s'.core| == |s.core| && Apart(s', d, e, m)
  {
    assert Apart(s, d, e, m);
    if 0 <= m < |s.lock| {
      assert LockOk(s, d, m) && LockOk(s, e, m);
    }
  }

  lemma WonKept(s: Locks, s': Locks, c: int, l: int, m: int)
    requires Inv(s) && Step(s, s', c, l) && 0 <= m < |s.lock|
    ensures |s'.lock| == |s.lock| && Won(s', m)
  {
    CoreKept(s, s', c, l);
    assert Won(s, m);
    if s'.lock[m].locked {
      if s.lock[m].locked {
        var d :| 0 <= d < |s.core| && m in s.core[d].held;
        assert m in s'.core[d].held;
      } else {
        assert m in s'.core[c].held;
      }
    }
  }

  lemma StepKeeps(s: Locks, s': Locks, c: int, l: int)
    requires Inv(s) && Step(s, s', c, l)
    ensures Inv(s')
  {
    hide CoreOk, LockOk, Apart, Won, Step;
    CoreKept(s, s', c, l);
    forall d, m | 0 <= d < |s'.core| && 0 <= m < |s'.lock| ensures LockOk(s', d, m) {
      LockKept(s, s', c, l, d, m);
    }
    forall d, e, m | 0 <= d < |s'.core| && 0 <= e < |s'.core| ensures Apart(s', d, e, m) {
      ApartKept(s, s', c, l, d, e, m);
    }
    forall m | 0 <= m < |s'.lock| ensures Won(s', m) {
      WonKept(s, s', c, l, m);
    }
  }

  ghost predicate Start(s: Locks) {
    && (forall l :: 0 <= l < |s.lock| ==> s.lock[l] == Lock(false, NONE))
    && (forall c :: 0 <= c < |s.core| ==>
          s.core[c].noff == 0 && s.core[c].at == Calm && s.core[c].held == {} && s.core[c].pushes == 0)
  }

  ghost predicate IsRun(run: seq<Locks>, who: seq<(int, int)>) {
    && |run| == |who| + 1 && Start(run[0])
    && forall i :: 0 <= i < |who| ==> Step(run[i], run[i + 1], who[i].0, who[i].1)
  }

  lemma {:induction false} RunsAreSafe(run: seq<Locks>, who: seq<(int, int)>, i: nat)
    requires IsRun(run, who) && i < |run|
    ensures Inv(run[i])
  {
    if i > 0 {
      RunsAreSafe(run, who, i - 1);
      StepKeeps(run[i - 1], run[i], who[i - 1].0, who[i - 1].1);
    }
  }

  // ---------------------------------------------------------------- what callers rely on

  /** holding, whose two reads need not happen at once: each read alone is never wrong in the direction that matters. */
  predicate Holding(s: Locks, later: Locks, c: int, l: int)
    requires 0 <= l < |s.lock| && 0 <= l < |later.lock|
  {
    s.lock[l].locked && later.lock[l].cpu == c
  }

  /** holding is exact for the CPU that asks, even if other CPUs move between its two reads. */
  lemma HoldingIsExact(s: Locks, later: Locks, c: int, l: int)
    requires Inv(s) && Inv(later) && 0 <= c < |s.core| && 0 <= c < |later.core| && later.core[c] == s.core[c]
    requires 0 <= l < |s.lock| && 0 <= l < |later.lock| && s.core[c].at != Got(l) && s.core[c].at != Dropping(l)
    ensures Holding(s, later, c, l) <==> l in s.core[c].held
  {
    assert LockOk(s, c, l) && LockOk(later, c, l);
  }

  /** Mutual exclusion, and interrupts are off on a CPU that holds a lock. */
  lemma MutualExclusion(s: Locks, c: int, d: int, l: int)
    requires Inv(s) && 0 <= c < |s.core| && 0 <= d < |s.core| && l in s.core[c].held
    ensures l in s.core[d].held ==> c == d
    ensures !s.core[c].intr && s.core[c].noff > 0
  {
    assert Apart(s, c, d, l) && CoreOk(s.core[c]);
    assert s.core[c].held != {};
  }

  /** A lock is marked as taken exactly while some CPU has won it. */
  lemma TakenIsWon(s: Locks, l: int)
    requires Inv(s) && 0 <= l < |s.lock|
    ensures s.lock[l].locked <==> exists c :: 0 <= c < |s.core| && l in s.core[c].held
  {
    assert Won(s, l);
    forall c | 0 <= c < |s.core| && l in s.core[c].held ensures s.lock[l].locked {
      assert LockOk(s, c, l);
    }
  }

  /** So a CPU that tries for a lock can win it as soon as no CPU has it: after release has cleared `locked`. */
  lemma FreeCanBeWon(s: Locks, c: int)
    requires Inv(s) && 0 <= c < |s.core| && s.core[c].at.Trying? && 0 <= s.core[c].at.lock < |s.lock|
    ensures (exists s' :: Swap(s, s', c)) <==> forall d :: 0 <= d < |s.core| ==> s.core[c].at.lock !in s.core[d].held
  {
    var k, l := s.core[c], s.core[c].at.lock;
    TakenIsWon(s, l);
    if !s.lock[l].locked {
      assert Swap(s, s.(lock := s.lock[l := s.lock[l].(locked := true)],
                        core := s.core[c := k.(at := Got(l), held := k.held + {l})]), c);
    }
  }

  /** The panics of pop_off are out of reach, and the last pop_off returns to the interrupt state noted first, or
      brought by the thread that was switched to. */
  lemma PopIsSafe(s: Locks, s': Locks, c: int)
    requires Inv(s) && Pop(s, s', c)
    ensures s.core[c].noff >= 1 && !s.core[c].intr
    ensures s'.core[c].noff == 0 ==> s'.core[c].intr == s.core[c].before
  {
    assert CoreOk(s.core[c]);
  }
}
