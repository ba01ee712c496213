/**
 All processes' memory at once. A process is named by its page table. Every
 operation keeps the books of the whole physical memory, and leaves what every
 other process sees alone.
 */
module Processes {
  import opened PageTable
  import opened PhysMem
  import opened Vm
  import opened VmFree
  import opened UserMemory
  import opened AddressSpace
  import opened ExecImage
  import opened ExecArgs
  import opened Exec

  datatype Proc = Proc(sz: int, tf: int)

  /** The frame is some process's trapframe page. */
  ghost predicate IsTrapframe(procs: map<int, Proc>, g: int) {
    exists r :: r in procs && procs[r].tf == g
  }

  /** Every address space belongs to a process and lies within its size; every frame of the allocator's
      range that the kernel holds is a trapframe page or held by another part of the kernel. */
  ghost predicate Consistent(p: Phys, procs: map<int, Proc>, lo: int, held: set<int>) {
    && (forall r :: r in procs <==> IsRoot(p, r))
    && (forall r :: r in procs ==> Space(p, r, procs[r].sz))
    && KernelBooks(p, procs, lo, held)
  }

  ghost predicate KernelBooks(p: Phys, procs: map<int, Proc>, lo: int, held: set<int>) {
    && (forall r :: r in procs ==> TrapframePage(p, lo, held, procs[r].tf))
    && (forall r, s :: r in procs && s in procs && r != s ==> procs[r].tf != procs[s].tf)
    && (forall g :: lo <= g && Owned(M(p), g, Kernel) ==> g in held || IsTrapframe(procs, g))
    && (forall g :: g in held ==> Owned(M(p), g, Kernel))
  }

  ghost predicate TrapframePage(p: Phys, lo: int, held: set<int>, g: int) {
    lo <= g && Owned(M(p), g, Kernel) && g !in held
  }

  /** The kernel's frames are the same, so the books still balance when the processes are. */
  lemma SameKernelFrames(p: Phys, p': Phys, procs: map<int, Proc>, procs': map<int, Proc>, lo: int, held: set<int>)
    requires KernelBooks(p, procs, lo, held)
    requires procs'.Keys == procs.Keys && forall q :: q in procs ==> procs'[q].tf == procs[q].tf
    requires forall g :: Owned(M(p'), g, Kernel) <==> Owned(M(p), g, Kernel)
    ensures KernelBooks(p', procs', lo, held)
  {
    forall q | q in procs' ensures TrapframePage(p', lo, held, procs'[q].tf) {
      assert TrapframePage(p, lo, held, procs[q].tf);
    }
    forall g | lo <= g && Owned(M(p'), g, Kernel) ensures g in held || IsTrapframe(procs', g) {
      assert Owned(M(p), g, Kernel);
      if g !in held {
        var r :| r in procs && procs[r].tf == g;
        assert r in procs' && procs'[r].tf == g;
      }
    }
  }

  /** When the last process is gone, every frame that no other part of the kernel holds is free. */
  lemma NoLeak(p: Phys, lo: int, held: set<int>, g: int)
    requires GoodPhys(p) && Consistent(p, map[], lo, held) && 0 <= lo <= g < |p.own|
    ensures p.own[g] == if g in held then Kernel else Free
  {
    assert FrameOk(M(p), g);
    var r := if p.own[g].Root? then g
             else if p.own[g].Mid? || p.own[g].Low? || p.own[g].User? then p.own[g].root else 0;
    assert !IsRoot(p, r);
    assert g in held ==> Owned(M(p), g, Kernel);
    assert Owned(M(p), g, Kernel) ==> g in held;
  }

  // ---------------------------------------------------------------- what stays

  /** An address space whose leaves, and whose frames' contents, are as before looks as before. */
  lemma KeepsView(p: Phys, p': Phys, q: int, sz: int)
    requires GoodPhys(p) && GoodPhys(p') && IsRoot(p, q) && |p'.own| == |p.own|
    requires forall w :: 0 <= w < PAGES ==> Lookup(p'.tab, q, w) == Lookup(p.tab, q, w)
    requires forall g :: 0 <= g < |p.own| && p.own[g].User? && p.own[g].root == q ==> p'.data[g] == p.data[g]
    ensures SameView(p, p', q, sz)
  {
    forall a ensures View(p', q, sz, a) == View(p, q, sz, a) {
      if 0 <= a / PGSIZE < PAGES {
        UserFrame(p, q, a / PGSIZE);
      }
    }
  }

  datatype World = World(p: Phys, procs: map<int, Proc>, tramp: int)

  /** A step on behalf of process r: the others keep their size, their trapframe page and what they see. */
  ghost predicate OthersKept(w: World, w': World, r: int) {
    forall q :: q in w.procs && q != r ==>
      q in w'.procs && w'.procs[q] == w.procs[q] && SameView(w.p, w'.p, q, w.procs[q].sz)
  }

  lemma NewProcessSameView(p: Phys, p': Phys, r: int, tf: int, q: int, sz: int)
    requires GoodPhys(p) && GoodPhys(p') && NewProcess(p, p', r, tf) && IsRoot(p, q)
    ensures SameView(p, p', q, sz)
  {
    forall g | 0 <= g < |p.own| && p.own[g].User? && p.own[g].root == q ensures p'.data[g] == p.data[g] {
      assert BuildingFrame(p, p', r, g);
    }
    KeepsView(p, p', q, sz);
  }

  lemma GoneSameView(p: Phys, p': Phys, r: int, tf: int, q: int, sz: int)
    requires GoodPhys(p) && GoodPhys(p') && ProcessGone(p, p', r, tf)
    requires IsRoot(p, q) && q != r && Owned(M(p), tf, Kernel)
    ensures SameView(p, p', q, sz)
  {
    KeepsView(p, p', q, sz);
  }

  lemma SwappedSameView(p: Phys, p': Phys, r: int, r': int, q: int, sz: int)
    requires GoodPhys(p) && GoodPhys(p') && Swapped(p, p', r, r') && IsRoot(p, q) && q != r
    ensures SameView(p, p', q, sz)
  {
    forall g | 0 <= g < |p.own| && p.own[g].User? && p.own[g].root == q ensures p'.data[g] == p.data[g] {
      assert SwappedFrame(p, p', r, r', g);
    }
    KeepsView(p, p', q, sz);
  }

  lemma RestoredSameView(p: Phys, p': Phys, q: int, sz: int)
    requires GoodPhys(p) && GoodPhys(p') && Restored(p, p') && IsRoot(p, q)
    ensures SameView(p, p', q, sz)
  {
    KeepsView(p, p', q, sz);
  }

  // ---------------------------------------------------------------- the books, step by step

  /** One process changes its pages and perhaps its size. */
  lemma WithinConsistent(p: Phys, p': Phys, procs: map<int, Proc>, lo: int, held: set<int>, r: int, sz': int)
    requires GoodPhys(p) && Consistent(p, procs, lo, held) && r in procs
    requires Within(p, p', r, 0, TRAPFRAME) && Space(p', r, sz')
    ensures Consistent(p', procs[r := procs[r].(sz := sz')], lo, held)
  {
    var procs' := procs[r := procs[r].(sz := sz')];
    forall q ensures q in procs' <==> IsRoot(p', q) {
      if 0 <= q < |p.own| {
        assert FrameStep(p, p', r, 0, TRAPFRAME, q);
      }
    }
    forall q | q in procs' ensures Space(p', q, procs'[q].sz) {
      assert q != r ==> Space(p, q, procs[q].sz);
    }
    forall g ensures Owned(M(p'), g, Kernel) <==> Owned(M(p), g, Kernel) {
      if 0 <= g < |p.own| {
        assert FrameStep(p, p', r, 0, TRAPFRAME, g);
      }
    }
    SameKernelFrames(p, p', procs, procs', lo, held);
  }

  lemma RestoredConsistent(p: Phys, p': Phys, procs: map<int, Proc>, lo: int, held: set<int>)
    requires Consistent(p, procs, lo, held) && Restored(p, p')
    ensures Consistent(p', procs, lo, held)
  {
    forall q | q in procs ensures Space(p', q, procs[q].sz) {
      assert Space(p, q, procs[q].sz);
    }
    forall q ensures q in procs <==> IsRoot(p', q) {
      assert IsRoot(p', q) <==> IsRoot(p, q);
    }
    SameKernelFrames(p, p', procs, procs, lo, held);
  }

  lemma NewConsistent(p: Phys, p': Phys, procs: map<int, Proc>, lo: int, held: set<int>, r: int, sz: int, tf: int)
    requires Consistent(p, procs, lo, held) && NewProcess(p, p', r, tf) && Space(p', r, sz) && lo <= tf
    ensures r !in procs && Consistent(p', procs[r := Proc(sz, tf)], lo, held)
  {
    var procs' := procs[r := Proc(sz, tf)];
    assert !IsRoot(p, r);
    forall q ensures q in procs' <==> IsRoot(p', q) {
      if 0 <= q < |p.own| && q != tf {
        assert BuildingFrame(p, p', r, q);
      }
    }
    forall q | q in procs' ensures Space(p', q, procs'[q].sz) {
      if q != r {
        assert Space(p, q, procs[q].sz);
      }
    }
    NewTrapframes(p, p', procs, lo, held, r, sz, tf);
  }

  lemma NewTrapframes(p: Phys, p': Phys, procs: map<int, Proc>, lo: int, held: set<int>, r: int, sz: int, tf: int)
    requires KernelBooks(p, procs, lo, held) && NewProcess(p, p', r, tf) && lo <= tf && r !in procs
    ensures KernelBooks(p', procs[r := Proc(sz, tf)], lo, held)
  {
    var procs' := procs[r := Proc(sz, tf)];
    forall g ensures Owned(M(p'), g, Kernel) <==> g == tf || Owned(M(p), g, Kernel) {
      if 0 <= g < |p.own| && g != tf {
        assert BuildingFrame(p, p', r, g);
      }
    }
    forall q | q in procs' ensures TrapframePage(p', lo, held, procs'[q].tf) {
      assert q != r ==> TrapframePage(p, lo, held, procs[q].tf);
      assert !Owned(M(p), tf, Kernel);
    }
    forall q | q in procs ensures procs[q].tf != tf {
      assert TrapframePage(p, lo, held, procs[q].tf);
    }
    forall g | lo <= g && Owned(M(p'), g, Kernel) ensures g in held || IsTrapframe(procs', g) {
      if g == tf {
        assert r in procs' && procs'[r].tf == g;
      } else {
        KeptTrapframe(procs, procs', r, g);
      }
    }
  }

  lemma KeptTrapframe(procs: map<int, Proc>, procs': map<int, Proc>, r: int, g: int)
    requires forall q :: q in procs && q != r ==> q in procs' && procs'[q] == procs[q]
    requires r in procs ==> procs[r].tf != g
    ensures IsTrapframe(procs, g) ==> IsTrapframe(procs', g)
  {
  }

  lemma GoneConsistent(p: Phys, p': Phys, procs: map<int, Proc>, lo: int, held: set<int>, r: int)
    requires GoodPhys(p) && Consistent(p, procs, lo, held) && r in procs && ProcessGone(p, p', r, procs[r].tf)
    ensures Consistent(p', procs - {r}, lo, held)
  {
    var procs' := procs - {r};
    forall q ensures q in procs' <==> IsRoot(p', q) {
      assert q in procs <==> IsRoot(p, q);
    }
    forall q | q in procs' ensures Space(p', q, procs'[q].sz) {
      assert Space(p, q, procs[q].sz);
    }
    GoneTrapframes(p, p', procs, lo, held, r);
  }

  lemma GoneTrapframes(p: Phys, p': Phys, procs: map<int, Proc>, lo: int, held: set<int>, r: int)
    requires KernelBooks(p, procs, lo, held) && r in procs && ProcessGone(p, p', r, procs[r].tf)
    ensures KernelBooks(p', procs - {r}, lo, held)
  {
    var procs' := procs - {r};
    assert TrapframePage(p, lo, held, procs[r].tf);
    forall g ensures Owned(M(p'), g, Kernel) <==> g != procs[r].tf && Owned(M(p), g, Kernel) {
    }
    forall q | q in procs' ensures TrapframePage(p', lo, held, procs'[q].tf) {
      assert TrapframePage(p, lo, held, procs[q].tf);
    }
    forall g | lo <= g && Owned(M(p'), g, Kernel) ensures g in held || IsTrapframe(procs', g) {
      KeptTrapframe(procs, procs', r, g);
    }
  }

  lemma SwappedConsistent(p: Phys, p': Phys, procs: map<int, Proc>, lo: int, held: set<int>, r: int, r': int, sz: int)
    requires GoodPhys(p) && Consistent(p, procs, lo, held) && r in procs
    requires r != r' && Swapped(p, p', r, r') && Space(p', r', sz)
    ensures r' !in procs && Consistent(p', (procs - {r})[r' := Proc(sz, procs[r].tf)], lo, held)
  {
    var procs' := (procs - {r})[r' := Proc(sz, procs[r].tf)];
    assert !IsRoot(p, r');
    forall q ensures q in procs' <==> IsRoot(p', q) {
      if 0 <= q < |p.own| {
        assert SwappedFrame(p, p', r, r', q);
      }
    }
    forall q | q in procs' ensures Space(p', q, procs'[q].sz) {
      if q != r' {
        assert Space(p, q, procs[q].sz);
      }
    }
    SwappedTrapframes(p, p', procs, lo, held, r, r', sz);
  }

  lemma SwappedTrapframes(p: Phys, p': Phys, procs: map<int, Proc>, lo: int, held: set<int>, r: int, r': int, sz: int)
    requires KernelBooks(p, procs, lo, held) && r in procs && r != r' && Swapped(p, p', r, r') && r' !in procs
    ensures KernelBooks(p', (procs - {r})[r' := Proc(sz, procs[r].tf)], lo, held)
  {
    var procs' := (procs - {r})[r' := Proc(sz, procs[r].tf)];
    forall g ensures Owned(M(p'), g, Kernel) <==> Owned(M(p), g, Kernel) {
      if 0 <= g < |p.own| {
        assert SwappedFrame(p, p', r, r', g);
      }
    }
    forall q | q in procs' ensures TrapframePage(p', lo, held, procs'[q].tf) {
      assert TrapframePage(p, lo, held, procs[if q == r' then r else q].tf);
    }
    forall g | lo <= g && Owned(M(p'), g, Kernel) ensures g in held || IsTrapframe(procs', g) {
      assert Owned(M(p), g, Kernel);
      if g == procs[r].tf {
        assert r' in procs' && procs'[r'].tf == g;
      } else {
        KeptTrapframe(procs, procs', r, g);
      }
    }
  }

  // ---------------------------------------------------------------- the special pages

  /** Every address space has the trampoline page and its own process's trapframe page in their places. */
  ghost predicate AllSpecial(tab: seq<PageTable.Table>, procs: map<int, Proc>, tramp: int) {
    forall q :: q in procs ==> SpecialPages(tab, q, tramp, procs[q].tf)
  }

  /** Address spaces other than r look up their special pages as before, and r as well if it has them. */
  lemma SpecialKeep(tab: seq<PageTable.Table>, tab': seq<PageTable.Table>, procs: map<int, Proc>,
                    procs': map<int, Proc>, tramp: int, r: int)
    requires AllSpecial(tab, procs, tramp) && (r in procs' ==> SpecialPages(tab', r, tramp, procs'[r].tf))
    requires forall q :: q in procs' && q != r ==> q in procs && procs'[q].tf == procs[q].tf
    requires forall q :: q in procs' && q != r ==>
               && PageTable.Lookup(tab', q, TRAMPOLINE) == PageTable.Lookup(tab, q, TRAMPOLINE)
               && PageTable.Lookup(tab', q, TRAPFRAME) == PageTable.Lookup(tab, q, TRAPFRAME)
    ensures AllSpecial(tab', procs', tramp)
  {
    hide PageTable.Lookup;
    forall q | q in procs' ensures SpecialPages(tab', q, tramp, procs'[q].tf) {
      assert q != r ==> SpecialPages(tab, q, tramp, procs[q].tf);
    }
  }

  // ---------------------------------------------------------------- steps

  /** What the processes do. A failed request of any of them changes no use of any frame. */
  datatype Act =
    | Failed
    | Spawned(r: int)
    | Forked(r: int, s: int)
    | Grew(r: int)
    | Faulted(r: int)
    | Stored(r: int, dst: int, bytes: seq<int>)
    | Executed(r: int, r': int, segs: seq<Seg>, argv: seq<seq<int>>, sp: int)
    | Freed(r: int)

  /** A new process r of size sz, named by its page table. */
  ghost predicate IsAdded(w: World, w': World, lo: int, r: int, sz: int) {
    && r in w'.procs && w'.procs == w.procs[r := Proc(sz, w'.procs[r].tf)]
    && NewProcess(w.p, w'.p, r, w'.procs[r].tf) && lo <= w'.procs[r].tf && Space(w'.p, r, sz)
    && SpecialPages(w'.p.tab, r, w.tramp, w'.procs[r].tf)
  }

  /** Process r works on its own pages and perhaps changes its size. */
  ghost predicate IsChanged(w: World, w': World, r: int) {
    && r in w.procs && r in w'.procs && w'.procs == w.procs[r := Proc(w'.procs[r].sz, w.procs[r].tf)]
    && Within(w.p, w'.p, r, 0, TRAPFRAME) && Space(w'.p, r, w'.procs[r].sz)
  }

  ghost predicate IsFork(w: World, w': World, lo: int, r: int, s: int) {
    && r in w.procs && IsAdded(w, w', lo, s, w.procs[r].sz)
    && forall a :: View(w'.p, s, w.procs[r].sz, a) == View(w.p, r, w.procs[r].sz, a)
  }

  ghost predicate IsGrowth(w: World, w': World, r: int) {
    IsChanged(w, w', r) && Resized(w.p, w'.p, r, w.procs[r].sz, w'.procs[r].sz)
  }

  ghost predicate IsFault(w: World, w': World, r: int) {
    IsChanged(w, w', r) && w'.procs == w.procs && SameView(w.p, w'.p, r, w.procs[r].sz)
  }

  ghost predicate IsStore(w: World, w': World, r: int, dst: int, bytes: seq<int>) {
    IsChanged(w, w', r) && w'.procs == w.procs && Wrote(w.p, w'.p, r, w.procs[r].sz, dst, bytes)
  }

  ghost predicate IsExec(w: World, w': World, r: int, r': int, segs: seq<Seg>, argv: seq<seq<int>>, sp: int) {
    && r in w.procs && r != r' && r' in w'.procs
    && w'.procs == (w.procs - {r})[r' := Proc(w'.procs[r'].sz, w.procs[r].tf)]
    && Swapped(w.p, w'.p, r, r') && Space(w'.p, r', w'.procs[r'].sz)
    && NewImage(w'.p, r', w'.procs[r'].sz, segs) && ArgvAt(w'.p, r', w'.procs[r'].sz, argv, sp)
    && ImagePerms(w'.p.tab, r', w'.procs[r'].sz, segs) && SpecialPages(w'.p.tab, r', w.tramp, w.procs[r].tf)
  }

  ghost predicate IsEnd(w: World, w': World, r: int) {
    r in w.procs && w'.procs == w.procs - {r} && ProcessGone(w.p, w'.p, r, w.procs[r].tf)
  }

  /** One act, done by single updates of memory. */
  ghost predicate Step(w: World, w': World, lo: int, act: Act) {
    && Reached(w.p, w'.p) && w'.tramp == w.tramp
    && match act
       case Failed => Restored(w.p, w'.p) && w'.procs == w.procs
       case Spawned(r) => IsAdded(w, w', lo, r, 0)
       case Forked(r, s) => IsFork(w, w', lo, r, s)
       case Grew(r) => IsGrowth(w, w', r)
       case Faulted(r) => IsFault(w, w', r)
       case Stored(r, dst, bytes) => IsStore(w, w', r, dst, bytes)
       case Executed(r, r', segs, argv, sp) => IsExec(w, w', r, r', segs, argv, sp)
       case Freed(r) => IsEnd(w, w', r)
  }

  /** The process whose memory the act is about, or nobody's. */
  function Who(act: Act): int {
    match act
    case Failed => -1
    case Forked(r, s) => s
    case _ => act.r
  }

  ghost predicate Good(w: World, lo: int, held: set<int>) {
    GoodPhys(w.p) && 0 <= lo && Consistent(w.p, w.procs, lo, held) && AllSpecial(w.p.tab, w.procs, w.tramp)
  }

  /** Every act keeps the books of all frames, and what every process sees that it is not about. */
  lemma StepKeeps(w: World, w': World, lo: int, held: set<int>, act: Act)
    requires Good(w, lo, held) && Step(w, w', lo, act)
    ensures Good(w', lo, held) && OthersKept(w, w', Who(act)) && |w'.p.own| == |w.p.own|
  {
    hide GoodPhys, Reached, Consistent, OthersKept, Space, SameView, Resized, Wrote, NewImage, ArgvAt, ImagePerms, View;
    ReachedKeeps(w.p, w'.p);
    match act {
      case Failed => Unchanged(w.p, w'.p, w.procs, lo, held, -1, w.tramp);
      case Spawned(r) => AddedKeeps(w, w', lo, held, r, 0);
      case Forked(r, s) => AddedKeeps(w, w', lo, held, s, w.procs[r].sz);
      case Grew(r) => ChangedKeeps(w, w', lo, held, r);
      case Faulted(r) => ChangedKeeps(w, w', lo, held, r);
      case Stored(r, dst, bytes) => ChangedKeeps(w, w', lo, held, r);
      case Executed(r, r', segs, argv, sp) =>
        Replaced(w.p, w'.p, w.procs, lo, held, r, r', w'.procs[r'].sz, w.tramp);
      case Freed(r) => Removed(w.p, w'.p, w.procs, lo, held, r, w.tramp);
    }
  }

  lemma AddedKeeps(w: World, w': World, lo: int, held: set<int>, r: int, sz: int)
    requires Good(w, lo, held) && GoodPhys(w'.p) && IsAdded(w, w', lo, r, sz) && w'.tramp == w.tramp
    ensures Good(w', lo, held) && OthersKept(w, w', r) && |w'.p.own| == |w.p.own|
  {
    hide GoodPhys, Consistent, OthersKept, LeavesBelow;
    Added(w.p, w'.p, w.procs, lo, held, r, sz, w'.procs[r].tf, w.tramp);
  }

  lemma ChangedKeeps(w: World, w': World, lo: int, held: set<int>, r: int)
    requires Good(w, lo, held) && GoodPhys(w'.p) && IsChanged(w, w', r) && w'.tramp == w.tramp
    ensures Good(w', lo, held) && OthersKept(w, w', r) && |w'.p.own| == |w.p.own|
  {
    hide GoodPhys, Consistent, OthersKept, LeavesBelow;
    Changed(w.p, w'.p, w.procs, lo, held, r, w'.procs[r].sz, w.tramp);
  }

  // ---------------------------------------------------------------- whole runs

  ghost predicate IsRun(run: seq<World>, acts: seq<Act>, lo: int) {
    |run| == |acts| + 1 && forall i :: 0 <= i < |acts| ==> Step(run[i], run[i + 1], lo, acts[i])
  }

  lemma {:induction false} RunsAreGood(run: seq<World>, acts: seq<Act>, lo: int, held: set<int>, n: nat)
    requires IsRun(run, acts, lo) && Good(run[0], lo, held) && n < |run|
    ensures Good(run[n], lo, held) && |run[n].p.own| == |run[0].p.own|
  {
    hide Step, Good;
    if n > 0 {
      RunsAreGood(run, acts, lo, held, n - 1);
      assert Step(run[n - 1], run[n - 1 + 1], lo, acts[n - 1]);
      StepKeeps(run[n - 1], run[n], lo, held, acts[n - 1]);
    }
  }

  /** Isolation: over a whole run with no act about q, q keeps its size and sees the same bytes. */
  lemma {:induction false} IsolationOverRuns(run: seq<World>, acts: seq<Act>, lo: int, held: set<int>, q: int, n: nat)
    requires IsRun(run, acts, lo) && Good(run[0], lo, held) && q in run[0].procs && n < |run|
    requires forall i :: 0 <= i < n ==> Who(acts[i]) != q
    ensures q in run[n].procs && run[n].procs[q] == run[0].procs[q]
    ensures SameView(run[0].p, run[n].p, q, run[0].procs[q].sz)
  {
    hide Step, Good, View;
    if n > 0 {
      IsolationOverRuns(run, acts, lo, held, q, n - 1);
      RunsAreGood(run, acts, lo, held, n - 1);
      assert Step(run[n - 1], run[n - 1 + 1], lo, acts[n - 1]);
      StepKeeps(run[n - 1], run[n], lo, held, acts[n - 1]);
    }
  }

  /** The frame is accounted for: free, held elsewhere in the kernel, or a frame of a process, in one place of
      one process. */
  ghost predicate Accounted(w: World, held: set<int>, g: int)
    requires 0 <= g < |w.p.own|
  {
    match w.p.own[g]
    case Free => true
    case Kernel => g in held <==> !IsTrapframe(w.procs, g)
    case Root => g in w.procs
    case Mid(r, i) => r in w.procs && Entry(w.p.tab, r, i) == TablePte(g)
    case Low(r, k) => r in w.procs && LowPte(w.p.tab, r, k) == TablePte(g)
    case User(r, v) =>
      && r in w.procs && 0 <= v < PagesFor(w.procs[r].sz)
      && Lookup(w.p.tab, r, v).valid && Lookup(w.p.tab, r, v).frame == g
  }

  lemma GoodAccounts(w: World, lo: int, held: set<int>, g: int)
    requires Good(w, lo, held) && lo <= g < |w.p.own|
    ensures Accounted(w, held, g)
  {
    assert FrameOk(M(w.p), g);
    match w.p.own[g] {
      case Free =>
      case Kernel =>
        assert Owned(M(w.p), g, Kernel);
        forall r | r in w.procs && w.procs[r].tf == g ensures g !in held {
          assert TrapframePage(w.p, lo, held, w.procs[r].tf);
        }
      case Root =>
        assert IsRoot(w.p, g);
      case Mid(r, i) =>
        assert IsRoot(w.p, r);
      case Low(r, k) =>
        assert IsRoot(w.p, r);
      case User(r, v) =>
        assert IsRoot(w.p, r);
        assert Space(w.p, r, w.procs[r].sz);
    }
  }

  /** Conservation: in every state of every run every frame of the allocator's range is accounted for, and
      every process lies within its size, below the trapframe page. */
  lemma FramesAreConserved(run: seq<World>, acts: seq<Act>, lo: int, held: set<int>, n: nat)
    requires IsRun(run, acts, lo) && Good(run[0], lo, held) && n < |run|
    ensures forall g :: lo <= g < |run[n].p.own| ==> 0 <= g && Accounted(run[n], held, g)
    ensures forall r :: r in run[n].procs ==>
              && Space(run[n].p, r, run[n].procs[r].sz)
              && SpecialPages(run[n].p.tab, r, run[n].tramp, run[n].procs[r].tf)
  {
    hide IsRun, Accounted;
    RunsAreGood(run, acts, lo, held, n);
    forall g | lo <= g < |run[n].p.own| ensures 0 <= g && Accounted(run[n], held, g) {
      GoodAccounts(run[n], lo, held, g);
    }
  }

  /** A run from no processes to no processes gives every frame back. */
  lemma FramesComeBack(run: seq<World>, acts: seq<Act>, lo: int, held: set<int>, n: nat, g: int)
    requires IsRun(run, acts, lo) && Good(run[0], lo, held) && n < |run| && lo <= g < |run[0].p.own|
    requires run[0].procs == map[] && run[n].procs == map[]
    ensures |run[n].p.own| == |run[0].p.own| && 0 <= g && run[n].p.own[g] == run[0].p.own[g]
  {
    hide IsRun, Consistent;
    RunsAreGood(run, acts, lo, held, n);
    NoLeak(run[0].p, lo, held, g);
    NoLeak(run[n].p, lo, held, g);
  }

  // ---------------------------------------------------------------- the operations

  class Table {
    const mem: Frames
    const tramp: int
    ghost const held: set<int>
    var procs: map<int, Proc>

    ghost predicate Valid()
      reads this, mem
    {
      && mem.Valid() && 0 <= tramp < mem.hi && Consistent(mem.P(), procs, mem.lo, held)
      && AllSpecial(mem.tab, procs, tramp)
    }

    ghost function W(): World
      reads this, mem
    {
      World(mem.P(), procs, tramp)
    }

    /** After boot: no processes; the kernel holds some frames. */
    constructor (mem: Frames, tramp: int, ghost held: set<int>)
      requires mem.Valid() && 0 <= tramp < mem.hi
      requires forall f :: 0 <= f < mem.hi ==> !mem.own[f].Root?
      requires forall f :: mem.lo <= f < mem.hi && mem.own[f] == Kernel ==> f in held
      requires forall f :: f in held ==> mem.lo <= f < mem.hi && mem.own[f] == Kernel
      ensures Valid() && procs == map[] && this.mem == mem
    {
      this.mem, this.tramp, this.held, procs := mem, tramp, held, map[];
    }

    /** A first process, or a failure that takes nothing. */
    method Spawn() returns (r: int)
      requires Valid()
      modifies this, mem
      ensures Valid() && OthersKept(old(W()), W(), r)
      ensures r == 0 ==> procs == old(procs) && mem.own == old(mem.own)
      ensures r != 0 ==> r !in old(procs) && r in procs && procs == old(procs)[r := Proc(0, procs[r].tf)]
      ensures r == 0 ==> |old(mem.free)| < 6
      ensures Step(old(W()), W(), mem.lo, if r == 0 then Failed else Spawned(r))
    {
      hide GoodPhys, Reached, OnList, FreeExactly, KernelBelow, Consistent, NewProcess, Restored, OnlySpecial,
        LeavesBelow, SameView, AllSpecial, SpecialPages;
      ghost var w := W();
      mem.Restart();
      var tf;
      r, tf := Allocproc(mem, tramp);
      if r == 0 {
        Unchanged(w.p, mem.P(), procs, mem.lo, held, r, tramp);
      } else {
        NewProcessSelf(w.p, mem.P(), mem.lo, r, tf);
        Added(w.p, mem.P(), procs, mem.lo, held, r, 0, tf, tramp);
        procs := procs[r := Proc(0, tf)];
      }
    }

    /** fork: the child sees what the parent sees. */
    method Fork(r: int) returns (s: int)
      requires Valid() && r in procs
      modifies this, mem
      ensures Valid() && OthersKept(old(W()), W(), s)
      ensures s == 0 ==> procs == old(procs) && mem.own == old(mem.own)
      ensures s != 0 ==> s !in old(procs) && s in procs && procs == old(procs)[s := Proc(procs[r].sz, procs[s].tf)]
      ensures s != 0 ==> forall a :: View(mem.P(), s, procs[s].sz, a) == View(mem.P(), r, procs[r].sz, a)
      ensures s == 0 ==> |old(mem.free)| < 6 + 3 * PagesFor(procs[r].sz)
      ensures Step(old(W()), W(), mem.lo, if s == 0 then Failed else Forked(r, s))
    {
      hide GoodPhys, Reached, OnList, FreeExactly, KernelBelow, Consistent, NewProcess, Restored, LeavesBelow,
        SameView, AllSpecial, SpecialPages, View, IsFork;
      ghost var w := W();
      mem.Restart();
      InProcs(w.p, procs, mem.lo, held, r);
      var tf;
      s, tf := Kfork(mem, r, procs[r].sz, tramp);
      if s == 0 {
        Unchanged(w.p, mem.P(), procs, mem.lo, held, s, tramp);
      } else {
        NewProcessSelf(w.p, mem.P(), mem.lo, s, tf);
        Added(w.p, mem.P(), procs, mem.lo, held, s, procs[r].sz, tf, tramp);
        procs := procs[s := Proc(procs[r].sz, tf)];
        ForkIs(w, W(), mem.lo, r, s);
      }
    }

    /** sbrk. */
    method Grow(r: int, n: int, eager: bool) returns (addr: int)
      requires Valid() && r in procs && -0x8000_0000 <= n < 0x8000_0000
      modifies this, mem
      ensures Valid() && OthersKept(old(W()), W(), r)
      ensures r in procs && procs == old(procs)[r := Proc(procs[r].sz, old(procs)[r].tf)]
      ensures addr == old(procs)[r].sz || (addr == -1 && procs == old(procs))
      ensures Resized(old(mem.P()), mem.P(), r, old(procs)[r].sz, procs[r].sz)
      ensures addr == -1 ==>
                var sz := old(procs)[r].sz;
                sz + n > TRAPFRAME * PGSIZE || (eager && |old(mem.free)| < 3 * (PagesFor(sz + n) - PagesFor(sz)))
      ensures Step(old(W()), W(), mem.lo, Grew(r))
    {
      hide GoodPhys, Reached, OnList, FreeExactly, KernelBelow, Consistent, Within, LeavesBelow, SameView, AllSpecial,
        SpecialPages, OthersSame, Resized;
      ghost var w := W();
      mem.Restart();
      InProcs(w.p, procs, mem.lo, held, r);
      var sz;
      addr, sz := Sbrk(mem, r, procs[r].sz, n, eager);
      Changed(w.p, mem.P(), procs, mem.lo, held, r, sz, tramp);
      procs := procs[r := procs[r].(sz := sz)];
    }

    /** A page fault of process r at address va; it cannot be seen by anybody. */
    method Fault(r: int, va: int) returns (f: int)
      requires Valid() && r in procs && 0 <= va
      modifies this, mem
      ensures Valid() && procs == old(procs) && OthersKept(old(W()), W(), r)
      ensures SameView(old(mem.P()), mem.P(), r, procs[r].sz)
      ensures Step(old(W()), W(), mem.lo, Faulted(r))
    {
      hide GoodPhys, Reached, OnList, FreeExactly, KernelBelow, Consistent, LeavesBelow, SameView, AllSpecial,
        SpecialPages, OthersSame, Confined, Lookup;
      ghost var w := W();
      mem.Restart();
      InProcs(w.p, procs, mem.lo, held, r);
      f := Vmfault(mem, r, procs[r].sz, va);
      ConfinedSpace(w.p, mem.P(), r, procs[r].sz);
      Changed(w.p, mem.P(), procs, mem.lo, held, r, procs[r].sz, tramp);
      assert procs[r := procs[r].(sz := procs[r].sz)] == procs;
    }

    /** The kernel stores bytes into the memory of process r. */
    method Store(r: int, dst: int, src: seq<int>) returns (ok: bool, ghost done: int)
      requires Valid() && r in procs && 0 <= dst
      modifies this, mem
      ensures Valid() && procs == old(procs) && OthersKept(old(W()), W(), r)
      ensures 0 <= done <= |src| && (ok <==> done == |src|)
      ensures Wrote(old(mem.P()), mem.P(), r, procs[r].sz, dst, src[..done])
      ensures Step(old(W()), W(), mem.lo, Stored(r, dst, src[..done]))
    {
      hide GoodPhys, Reached, OnList, FreeExactly, KernelBelow, Consistent, LeavesBelow, SameView, AllSpecial,
        SpecialPages, Confined, Wrote, View;
      ghost var w := W();
      mem.Restart();
      InProcs(w.p, procs, mem.lo, held, r);
      ok, done := Copyout(mem, r, procs[r].sz, dst, src);
      ConfinedSpace(w.p, mem.P(), r, procs[r].sz);
      Changed(w.p, mem.P(), procs, mem.lo, held, r, procs[r].sz, tramp);
      assert procs[r := procs[r].(sz := procs[r].sz)] == procs;
    }

    /** exec: on success the process has a new page table and keeps its trapframe page. */
    method Execute(r: int, segs: seq<Seg>, argv: seq<seq<int>>) returns (ok: bool, r': int, sp: int)
      requires Valid() && r in procs && GoodArgs(argv) && forall i :: 0 <= i < |segs| ==> Header(segs[i])
      modifies this, mem
      ensures Valid() && OthersKept(old(W()), W(), r)
      ensures !ok ==> procs == old(procs) && mem.own == old(mem.own)
      ensures ok ==>
          r' !in old(procs) && r' in procs && procs == (old(procs) - {r})[r' := Proc(procs[r'].sz, old(procs)[r].tf)]
      ensures ok ==> NewImage(mem.P(), r', procs[r'].sz, segs) && ArgvAt(mem.P(), r', procs[r'].sz, argv, sp)
      ensures ok ==> forall i :: 0 <= i < |segs| ==> Loadable(segs[i]) && Fits(segs[i])
      ensures ok ==> ImagePerms(mem.tab, r', procs[r'].sz, segs)
      ensures ok ==> procs[r'].sz == StackTop(segs) && !Refused(segs) && ArgsFit(argv, StackTop(segs))
      ensures !ok ==> Refused(segs) || !ArgsFit(argv, StackTop(segs)) || |old(mem.free)| < 5 + ImageFrames(segs)
      ensures Step(old(W()), W(), mem.lo, if ok then Executed(r, r', segs, argv, sp) else Failed)
    {
      hide GoodPhys, Reached, OnList, FreeExactly, KernelBelow, Consistent, Restored, Swapped, LeavesBelow, SameView,
        AllSpecial, SpecialPages, NewImage, ArgvAt, ImagePerms;
      ghost var w := W();
      mem.Restart();
      InProcs(w.p, procs, mem.lo, held, r);
      var sz;
      ok, r', sz, sp := Kexec(mem, r, procs[r].sz, tramp, procs[r].tf, segs, argv);
      if ok {
        Replaced(w.p, mem.P(), procs, mem.lo, held, r, r', sz, tramp);
        procs := (procs - {r})[r' := Proc(sz, procs[r].tf)];
      } else {
        Unchanged(w.p, mem.P(), procs, mem.lo, held, r, tramp);
      }
    }

    /** freeproc of a dead process: exactly its frames become free. */
    method Free(r: int)
      requires Valid() && r in procs
      modifies this, mem
      ensures Valid() && OthersKept(old(W()), W(), r) && procs == old(procs) - {r}
      ensures ProcessGone(old(mem.P()), mem.P(), r, old(procs)[r].tf)
      ensures Step(old(W()), W(), mem.lo, Freed(r))
    {
      hide GoodPhys, Reached, OnList, FreeExactly, KernelBelow, Consistent, ProcessGone, LeavesBelow, SameView,
        AllSpecial, SpecialPages;
      ghost var w := W();
      mem.Restart();
      InProcs(w.p, procs, mem.lo, held, r);
      Freeproc(mem, r, procs[r].sz, procs[r].tf);
      Removed(w.p, mem.P(), procs, mem.lo, held, r, tramp);
      procs := procs - {r};
    }
  }

  lemma ForkIs(w: World, w': World, lo: int, r: int, s: int)
    requires r in w.procs && r != s && IsAdded(w, w', lo, s, w.procs[r].sz) && OthersKept(w, w', s)
    requires forall a :: View(w'.p, s, w'.procs[s].sz, a) == View(w'.p, r, w'.procs[r].sz, a)
    ensures IsFork(w, w', lo, r, s)
  {
    hide View;
    forall a ensures View(w'.p, s, w.procs[r].sz, a) == View(w.p, r, w.procs[r].sz, a) {
      assert View(w'.p, s, w'.procs[s].sz, a) == View(w'.p, r, w'.procs[r].sz, a);
    }
  }

  lemma InProcs(p: Phys, procs: map<int, Proc>, lo: int, held: set<int>, r: int)
    requires Consistent(p, procs, lo, held) && r in procs
    ensures Space(p, r, procs[r].sz) && lo <= procs[r].tf && Owned(M(p), procs[r].tf, Kernel)
  {
    assert TrapframePage(p, lo, held, procs[r].tf);
  }

  lemma Unchanged(p: Phys, p': Phys, procs: map<int, Proc>, lo: int, held: set<int>, r: int, tramp: int)
    requires GoodPhys(p) && GoodPhys(p') && Consistent(p, procs, lo, held) && Restored(p, p')
    requires AllSpecial(p.tab, procs, tramp)
    ensures Consistent(p', procs, lo, held) && p'.own == p.own && AllSpecial(p'.tab, procs, tramp)
    ensures OthersKept(World(p, procs, tramp), World(p', procs, tramp), r)
  {
    RestoredConsistent(p, p', procs, lo, held);
    SpecialKeep(p.tab, p'.tab, procs, procs, tramp, -1);
    forall q | q in procs ensures SameView(p, p', q, procs[q].sz) {
      RestoredSameView(p, p', q, procs[q].sz);
    }
  }

  lemma Added(p: Phys, p': Phys, procs: map<int, Proc>, lo: int, held: set<int>, r: int, sz: int, tf: int, tramp: int)
    requires GoodPhys(p) && GoodPhys(p') && Consistent(p, procs, lo, held) && NewProcess(p, p', r, tf) && lo <= tf
    requires IsRoot(p', r) && 0 <= sz <= TRAPFRAME * PGSIZE && LeavesBelow(p', r, sz)
    requires AllSpecial(p.tab, procs, tramp) && SpecialPages(p'.tab, r, tramp, tf)
    ensures var procs' := procs[r := Proc(sz, tf)];
            && r !in procs && Consistent(p', procs', lo, held) && AllSpecial(p'.tab, procs', tramp)
            && OthersKept(World(p, procs, tramp), World(p', procs', tramp), r)
  {
    NewConsistent(p, p', procs, lo, held, r, sz, tf);
    SpecialKeep(p.tab, p'.tab, procs, procs[r := Proc(sz, tf)], tramp, r);
    forall q | q in procs ensures SameView(p, p', q, procs[q].sz) {
      NewProcessSameView(p, p', r, tf, q, procs[q].sz);
    }
  }

  lemma Changed(p: Phys, p': Phys, procs: map<int, Proc>, lo: int, held: set<int>, r: int, sz: int, tramp: int)
    requires GoodPhys(p) && GoodPhys(p') && Consistent(p, procs, lo, held) && r in procs
    requires Within(p, p', r, 0, TRAPFRAME) && Space(p', r, sz) && AllSpecial(p.tab, procs, tramp)
    ensures var procs' := procs[r := procs[r].(sz := sz)];
            && Consistent(p', procs', lo, held) && AllSpecial(p'.tab, procs', tramp)
            && OthersKept(World(p, procs, tramp), World(p', procs', tramp), r)
  {
    WithinConsistent(p, p', procs, lo, held, r, sz);
    WithinOthersSame(p, p', r, 0, TRAPFRAME);
    SpecialKeep(p.tab, p'.tab, procs, procs[r := procs[r].(sz := sz)], tramp, -1);
    forall q | q in procs && q != r ensures SameView(p, p', q, procs[q].sz) {
      assert LooksSame(p, p', q);
    }
  }

  lemma Replaced(p: Phys, p': Phys, procs: map<int, Proc>, lo: int, held: set<int>, r: int, r': int, sz: int,
                 tramp: int)
    requires GoodPhys(p) && GoodPhys(p') && Consistent(p, procs, lo, held) && r in procs && r != r'
    requires Swapped(p, p', r, r') && Space(p', r', sz)
    requires AllSpecial(p.tab, procs, tramp) && SpecialPages(p'.tab, r', tramp, procs[r].tf)
    ensures var procs' := (procs - {r})[r' := Proc(sz, procs[r].tf)];
            && r' !in procs && Consistent(p', procs', lo, held) && AllSpecial(p'.tab, procs', tramp)
            && OthersKept(World(p, procs, tramp), World(p', procs', tramp), r)
  {
    SwappedConsistent(p, p', procs, lo, held, r, r', sz);
    SpecialKeep(p.tab, p'.tab, procs, (procs - {r})[r' := Proc(sz, procs[r].tf)], tramp, r');
    forall q | q in procs && q != r ensures SameView(p, p', q, procs[q].sz) {
      SwappedSameView(p, p', r, r', q, procs[q].sz);
    }
  }

  lemma Removed(p: Phys, p': Phys, procs: map<int, Proc>, lo: int, held: set<int>, r: int, tramp: int)
    requires GoodPhys(p) && GoodPhys(p') && Consistent(p, procs, lo, held)
    requires r in procs && ProcessGone(p, p', r, procs[r].tf) && AllSpecial(p.tab, procs, tramp)
    requires 0 <= lo
    ensures Consistent(p', procs - {r}, lo, held) && AllSpecial(p'.tab, procs - {r}, tramp)
    ensures OthersKept(World(p, procs, tramp), World(p', procs - {r}, tramp), r)
  {
    GoneConsistent(p, p', procs, lo, held, r);
    SpecialKeep(p.tab, p'.tab, procs, procs - {r}, tramp, r);
    forall q | q in procs && q != r ensures SameView(p, p', q, procs[q].sz) {
      GoneSameView(p, p', r, procs[r].tf, q, procs[q].sz);
    }
  }
}
