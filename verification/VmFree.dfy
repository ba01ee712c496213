/**
 Creating and freeing address spaces. freewalk works on a tree whose tables no
 longer count as tables: they are handed to the kernel first, all at once, and
 then given back to the allocator one by one.
 */
module VmFree {
  import opened PageTable
  import opened PhysMem
  import opened Vm

  // ---------------------------------------------------------------- uvmcreate

  /** A new address space without pages; every other one is as before. */
  ghost predicate Created(p: Phys, p': Phys, r: int) {
    && |p'.own| == |p.own| == |p.data| == |p'.data|
    && 0 <= r < |p.own| && p.own[r] == Free && p'.own == p.own[r := Root]
    && (forall g :: 0 <= g < |p.own| && g != r ==> p'.data[g] == p.data[g])
    && (forall q, w :: IsRoot(p, q) && 0 <= w < PAGES ==> Lookup(p'.tab, q, w) == Lookup(p.tab, q, w))
    && forall w :: 0 <= w < PAGES ==> Lookup(p'.tab, r, w) == ZERO_PTE
  }

  lemma CreatedRoot(p: Phys, p1: Phys, p2: Phys, p3: Phys, r: int)
    requires GoodPhys(p) && 0 <= r < |p.own| && p.own[r] == Free
    requires p1 == Phys(p.tab[r := JunkTable(5)], p.own[r := Kernel], p.data[r := Bytes(5)])
    requires p2 == Phys(p1.tab[r := ZeroTable()], p1.own, p1.data[r := Bytes(0)]) && GoodPhys(p2)
    requires p3 == p2.(own := p2.own[r := Root])
    ensures GoodPhys(p3) && Created(p, p3, r)
  {
    assert p2.tab == p.tab[r := ZeroTable()];
    LooseFrame(M(p), r, ZeroTable(), Kernel);
    NewRoot(M(p2), r);
  }

  method Uvmcreate(mem: Frames) returns (r: int)
    requires mem.Valid()
    modifies mem
    ensures mem.Valid() && mem.base == old(mem.base)
    ensures r == 0 <==> old(mem.free) == []
    ensures r == 0 ==> mem.P() == old(mem.P())
    ensures r != 0 ==> IsRoot(mem.P(), r) && Created(old(mem.P()), mem.P(), r)
    ensures r != 0 ==> |mem.free| == |old(mem.free)| - 1
  {
    hide GoodPhys, Reached, OnList, FreeExactly, KernelBelow, Created;
    ghost var p := mem.P();
    GoodShape(p);
    r := mem.Kalloc();
    if r == 0 {
      return;
    }
    ghost var p1 := mem.P();
    mem.Zero(r);
    ghost var p2 := mem.P();
    FreeExactlyUse(mem.own, mem.free, r, Root);
    KernelBelowUse(mem.own, mem.lo, r, Root);
    mem.own := mem.own[r := Root];
    RootReached(mem.base, p2, r);
    CreatedRoot(p, p1, p2, mem.P(), r);
  }

  lemma RootReached(p0: Phys, p: Phys, r: int)
    requires GoodPhys(p) && Reached(p0, p) && Owned(M(p), r, Kernel) && Empty(p.tab[r])
    ensures Reached(p0, p.(own := p.own[r := Root]))
  {
    hide Reached;
    ReachedMore(p0, p, p.(own := p.own[r := Root]), BeginRoot(r));
  }

  lemma KernelBelowUse(own: seq<Use>, lo: int, f: int, u: Use)
    requires KernelBelow(own, lo) && lo <= f < |own|
    ensures 0 <= f ==> KernelBelow(own[f := u], lo)
  {
  }

  // ---------------------------------------------------------------- freewalk

  /** The use of the table at a level with a given position in the tree of r. */
  function UseAt(r: int, level: int, idx: int): Use {
    if level == 2 then Root else if level == 1 then Mid(r, idx) else Low(r, idx)
  }

  /** Frame g, of use x, is the table at this position or hangs below it. */
  predicate Under(r: int, level: int, idx: int, x: Use, g: int) {
    if level == 2 then (x == Root && g == r) || (x.Mid? && x.root == r) || (x.Low? && x.root == r)
    else if level == 1 then x == Mid(r, idx) || (x.Low? && x.root == r && x.k / PTES == idx)
    else x == Low(r, idx)
  }

  /** Frame g hangs below one of the first n entries of the table at this position. */
  predicate UnderFirst(r: int, level: int, idx: int, n: int, x: Use) {
    if level == 2 then (x.Mid? && x.root == r && x.i < n) || (x.Low? && x.root == r && x.k / PTES < n)
    else if level == 1 then x.Low? && x.root == r && x.k / PTES == idx && x.k % PTES < n
    else false
  }

  function Child(level: int, idx: int, i: int): int { if level == 2 then i else idx * PTES + i }

  lemma UnderFirstStep(r: int, level: int, idx: int, i: int, x: Use, g: int)
    requires 1 <= level <= 2 && 0 <= i < PTES && 0 <= idx
    requires x.Low? ==> 0 <= x.k
    ensures UnderFirst(r, level, idx, i + 1, x) <==>
            UnderFirst(r, level, idx, i, x) || Under(r, level - 1, Child(level, idx, i), x, g)
  {
    if x.Low? {
      Recompose(x.k);
      Digits(idx, i);
    }
  }

  /** The tree of r, without leaves, before it was taken out of use. */
  ghost predicate Bare(m: Mem, r: int) {
    Inv(m) && Owned(m, r, Root) && forall v :: 0 <= v < PAGES ==> !Lookup(m.tab, r, v).valid
  }

  /** A position of the tree that table t fills. */
  ghost predicate At(m: Mem, r: int, level: int, idx: int, t: int) {
    && 0 <= level <= 2 && Owned(m, t, UseAt(r, level, idx)) && (level == 2 ==> t == r && idx == 0)
  }

  /** What an entry of a table in a bare tree can be. */
  lemma BareEntry(m: Mem, r: int, level: int, idx: int, t: int, i: int)
    requires Bare(m, r) && At(m, r, level, idx, t) && 0 <= i < PTES
    ensures 0 <= t < |m.tab| && |m.tab[t]| == PTES && !IsLeaf(m.tab[t][i]) && 0 <= idx
    ensures level == 0 ==> !m.tab[t][i].valid
    ensures m.tab[t][i].valid ==> At(m, r, level - 1, Child(level, idx, i), m.tab[t][i].frame)
  {
    assert FrameOk(m, t);
    if level == 2 {
      assert PointsTo(m, Entry(m.tab, t, i), Mid(r, i));
    } else if level == 1 {
      assert PointsTo(m, Entry(m.tab, t, i), Low(r, idx * PTES + i));
    } else {
      Digits(idx, i);
      LookupIsEntry(m, r, idx * PTES + i, t);
    }
  }

  /** Nothing hangs below an invalid entry. */
  lemma NothingBelow(m: Mem, r: int, level: int, idx: int, t: int, i: int, g: int)
    requires Bare(m, r) && At(m, r, level, idx, t) && level > 0 && 0 <= i < PTES
    requires 0 <= t < |m.tab| && |m.tab[t]| == PTES && !m.tab[t][i].valid && 0 <= g < |m.own|
    ensures !Under(r, level - 1, Child(level, idx, i), m.own[g], g)
  {
    assert FrameOk(m, g) && FrameOk(m, t);
    Digits(idx, i);
  }

  /** While freewalk is at work below position (level, idx) and has finished the first n entries. */
  ghost predicate Freeing(m: Mem, p0: Phys, p: Phys, r: int, level: int, idx: int, n: int, t: int) {
    && |p.own| == |p.tab| == |p.data| == |p0.own| == |p0.tab| == |p0.data| == |m.own| == |m.tab|
    && forall g :: 0 <= g < |m.own| ==> FreeingFrame(m, p0, p, r, level, idx, n, t, g)
  }

  ghost predicate FreeingFrame(m: Mem, p0: Phys, p: Phys, r: int, level: int, idx: int, n: int, t: int, g: int)
    requires 0 <= g < |p.own| == |p.tab| == |p.data| == |p0.own| == |p0.tab| == |p0.data| == |m.own| == |m.tab|
  {
    if UnderFirst(r, level, idx, n, m.own[g]) then p.own[g] == Free
    else
      && p.own[g] == p0.own[g]
      && if g == t then |p.tab[g]| == |m.tab[g]| && forall j :: 0 <= n <= j < |m.tab[g]| ==> p.tab[g][j] == m.tab[g][j]
         else p.tab[g] == p0.tab[g] && p.data[g] == p0.data[g]
  }

  /** The tables below a position are untouched kernel pages. */
  ghost predicate Ready(m: Mem, p: Phys, lo: int, r: int, level: int, idx: int) {
    && |p.own| == |p.tab| == |p.data| == |m.own| == |m.tab|
    && forall g :: 0 <= g < |m.own| && Under(r, level, idx, m.own[g], g) ==>
         lo <= g && p.own[g] == Kernel && p.tab[g] == m.tab[g]
  }

  /** The tables below a position are free, and nothing else has changed. */
  ghost predicate Freed(m: Mem, p: Phys, p': Phys, r: int, level: int, idx: int) {
    && |p.own| == |p.tab| == |p.data| == |p'.own| == |p'.tab| == |p'.data| == |m.own| == |m.tab|
    && forall g :: 0 <= g < |m.own| ==> FreedFrame(m, p, p', r, level, idx, g)
  }

  ghost predicate FreedFrame(m: Mem, p: Phys, p': Phys, r: int, level: int, idx: int, g: int)
    requires 0 <= g < |p.own| == |p.tab| == |p.data| == |p'.own| == |p'.tab| == |p'.data| == |m.own|
  {
    if Under(r, level, idx, m.own[g], g) then p'.own[g] == Free
    else p'.own[g] == p.own[g] && p'.tab[g] == p.tab[g] && p'.data[g] == p.data[g]
  }

  lemma FreeingStart(m: Mem, p: Phys, lo: int, r: int, level: int, idx: int, t: int)
    requires Bare(m, r) && At(m, r, level, idx, t) && Ready(m, p, lo, r, level, idx)
    ensures Freeing(m, p, p, r, level, idx, 0, t)
  {
    forall g | 0 <= g < |m.own| ensures FreeingFrame(m, p, p, r, level, idx, 0, t, g) {
      assert FrameOk(m, g);
    }
  }

  lemma FreeingSkip(m: Mem, p0: Phys, p: Phys, r: int, level: int, idx: int, i: int, t: int)
    requires Bare(m, r) && At(m, r, level, idx, t) && 0 <= i < PTES
    requires 0 <= t < |m.tab| && |m.tab[t]| == PTES && !m.tab[t][i].valid
    requires Freeing(m, p0, p, r, level, idx, i, t)
    ensures Freeing(m, p0, p, r, level, idx, i + 1, t)
  {
    var more := i + 1;
    assert FrameOk(m, t);
    forall g | 0 <= g < |m.own| ensures FreeingFrame(m, p0, p, r, level, idx, more, t, g) {
      assert FreeingFrame(m, p0, p, r, level, idx, i, t, g);
      if level > 0 {
        assert FrameOk(m, g);
        NothingBelow(m, r, level, idx, t, i, g);
        UnderFirstStep(r, level, idx, i, m.own[g], g);
      }
    }
  }

  /** The subtree of entry i is as it was. */
  lemma ChildReady(m: Mem, p0: Phys, p: Phys, lo: int, r: int, level: int, idx: int, i: int, t: int)
    requires Bare(m, r) && At(m, r, level, idx, t) && 1 <= level && 0 <= i < PTES && 0 <= idx
    requires Ready(m, p0, lo, r, level, idx) && Freeing(m, p0, p, r, level, idx, i, t)
    ensures Ready(m, p, lo, r, level - 1, Child(level, idx, i))
  {
    var c := Child(level, idx, i);
    forall g | 0 <= g < |m.own| && Under(r, level - 1, c, m.own[g], g)
      ensures lo <= g && p.own[g] == Kernel && p.tab[g] == m.tab[g]
    {
      ChildIsUnder(m, r, level, idx, i, t, g);
      assert FreeingFrame(m, p0, p, r, level, idx, i, t, g);
    }
  }

  lemma ChildIsUnder(m: Mem, r: int, level: int, idx: int, i: int, t: int, g: int)
    requires Bare(m, r) && At(m, r, level, idx, t) && 1 <= level && 0 <= i < PTES && 0 <= idx
    requires 0 <= g < |m.own| && Under(r, level - 1, Child(level, idx, i), m.own[g], g)
    ensures Under(r, level, idx, m.own[g], g) && !UnderFirst(r, level, idx, i, m.own[g]) && g != t
  {
    assert FrameOk(m, g);
    Digits(idx, i);
  }

  /** Freeing the subtree of entry i and clearing the entry. */
  lemma FreeingStep(m: Mem, p0: Phys, p: Phys, p1: Phys, p2: Phys, r: int, level: int, idx: int, i: int, t: int)
    requires Bare(m, r) && At(m, r, level, idx, t) && 1 <= level && 0 <= i < PTES && 0 <= idx
    requires Freeing(m, p0, p, r, level, idx, i, t)
    requires Freed(m, p, p1, r, level - 1, Child(level, idx, i))
    requires 0 <= t < |p1.tab| && i < |p1.tab[t]| && p2 == p1.(tab := Put(p1.tab, t, i, ZERO_PTE))
    ensures Freeing(m, p0, p2, r, level, idx, i + 1, t)
  {
    var c, more := Child(level, idx, i), i + 1;
    forall g | 0 <= g < |m.own| ensures FreeingFrame(m, p0, p2, r, level, idx, more, t, g) {
      FreeingStepFrame(m, p0, p, p1, p2, r, level, idx, i, t, g);
    }
  }

  lemma FreeingStepFrame(m: Mem, p0: Phys, p: Phys, p1: Phys, p2: Phys, r: int, level: int, idx: int, i: int, t: int,
                         g: int)
    requires Bare(m, r) && At(m, r, level, idx, t) && 1 <= level && 0 <= i < PTES && 0 <= idx
    requires Freeing(m, p0, p, r, level, idx, i, t)
    requires Freed(m, p, p1, r, level - 1, Child(level, idx, i))
    requires 0 <= t < |p1.tab| && i < |p1.tab[t]| && p2 == p1.(tab := Put(p1.tab, t, i, ZERO_PTE))
    requires 0 <= g < |m.own|
    ensures FreeingFrame(m, p0, p2, r, level, idx, i + 1, t, g)
  {
    var c := Child(level, idx, i);
    assert FreeingFrame(m, p0, p, r, level, idx, i, t, g);
    assert FreedFrame(m, p, p1, r, level - 1, c, g);
    assert FrameOk(m, g);
    UnderFirstStep(r, level, idx, i, m.own[g], g);
    if Under(r, level - 1, c, m.own[g], g) {
      ChildIsUnder(m, r, level, idx, i, t, g);
    }
  }

  /** The last step frees the table itself. */
  lemma FreeingEnd(m: Mem, p0: Phys, p: Phys, p1: Phys, r: int, level: int, idx: int, t: int)
    requires Bare(m, r) && At(m, r, level, idx, t)
    requires Freeing(m, p0, p, r, level, idx, PTES, t) && 0 <= t < |p.own|
    requires p1 == Phys(p.tab[t := JunkTable(1)], p.own[t := Free], p.data[t := Bytes(1)])
    ensures Freed(m, p0, p1, r, level, idx)
  {
    forall g | 0 <= g < |m.own| ensures FreedFrame(m, p0, p1, r, level, idx, g) {
      assert FreeingFrame(m, p0, p, r, level, idx, PTES, t, g);
      UnderIsFirstOrSelf(m, r, level, idx, t, g);
    }
  }

  lemma UnderIsFirstOrSelf(m: Mem, r: int, level: int, idx: int, t: int, g: int)
    requires Bare(m, r) && At(m, r, level, idx, t) && 0 <= g < |m.own|
    ensures Under(r, level, idx, m.own[g], g) <==> g == t || UnderFirst(r, level, idx, PTES, m.own[g])
  {
    assert FrameOk(m, g) && FrameOk(m, t);
  }

  /** freewalk. `m` is the memory before the tree was taken out of use, (level, idx) the position of t in it. */
  method Freewalk(mem: Frames, t: int, ghost m: Mem, ghost r: int, ghost level: int, ghost idx: int)
    requires mem.Valid() && Bare(m, r) && At(m, r, level, idx, t) && Ready(m, mem.P(), mem.lo, r, level, idx)
    modifies mem
    ensures mem.Valid() && mem.base == old(mem.base) && Freed(m, old(mem.P()), mem.P(), r, level, idx)
    decreases level
  {
    hide GoodPhys, Reached, OnList, FreeExactly, KernelBelow, Bare, Freeing, Freed, Ready, At, Inv, Under, UnderFirst,
      Child;
    ghost var p0 := mem.P();
    FreeingStart(m, p0, mem.lo, r, level, idx, t);
    var i := 0;
    while i < PTES
      invariant 0 <= i <= PTES && mem.Valid() && mem.base == old(mem.base)
      invariant Freeing(m, p0, mem.P(), r, level, idx, i, t)
    {
      ghost var p := mem.P();
      BareEntry(m, r, level, idx, t, i);
      FreeingEntry(m, p0, p, mem.lo, r, level, idx, i, t);
      var pte := mem.tab[t][i];
      if pte.valid && !IsLeaf(pte) {
        ghost var c := Child(level, idx, i);
        ChildReady(m, p0, p, mem.lo, r, level, idx, i, t);
        Freewalk(mem, pte.frame, m, r, level - 1, c);
        ghost var p1 := mem.P();
        StillKernel(m, p0, p, p1, mem.lo, r, level, idx, i, t);
        mem.tab := Put(mem.tab, t, i, ZERO_PTE);
        ClearKernelEntry(p1, t, i);
        EntryReached(mem.base, p1, t, i);
        FreeingStep(m, p0, p, p1, mem.P(), r, level, idx, i, t);
      } else {
        FreeingSkip(m, p0, p, r, level, idx, i, t);
      }
      i := i + 1;
    }
    ghost var p := mem.P();
    FreeingSelf(m, p0, p, mem.lo, r, level, idx, t);
    var ok := mem.Kfree(t);
    FreeingEnd(m, p0, p, mem.P(), r, level, idx, t);
  }

  lemma EntryReached(p0: Phys, p: Phys, t: int, i: int)
    requires GoodPhys(p) && Reached(p0, p) && Owned(M(p), t, Kernel) && 0 <= i < PTES && |p.tab[t]| == PTES
    ensures Reached(p0, p.(tab := Put(p.tab, t, i, ZERO_PTE)))
  {
    hide Reached;
    var table := p.tab[t][i := ZERO_PTE];
    assert p.own[t := Kernel] == p.own && p.data[t := p.data[t]] == p.data;
    Reused(p0, p, t, table, Kernel, p.data[t]);
  }

  lemma FreeingEntry(m: Mem, p0: Phys, p: Phys, lo: int, r: int, level: int, idx: int, i: int, t: int)
    requires Bare(m, r) && At(m, r, level, idx, t) && 0 <= i < PTES
    requires Freeing(m, p0, p, r, level, idx, i, t)
    ensures 0 <= t < |p.tab| && |p.tab[t]| == PTES == |m.tab[t]| && p.tab[t][i] == m.tab[t][i]
  {
    assert FreeingFrame(m, p0, p, r, level, idx, i, t, t);
    TableNotFirst(m, r, level, idx, i, t);
  }

  lemma TableNotFirst(m: Mem, r: int, level: int, idx: int, i: int, t: int)
    requires Bare(m, r) && At(m, r, level, idx, t)
    ensures !UnderFirst(r, level, idx, i, m.own[t]) && |m.tab[t]| == PTES
  {
  }

  lemma StillKernel(m: Mem, p0: Phys, p: Phys, p1: Phys, lo: int, r: int, level: int, idx: int, i: int, t: int)
    requires Bare(m, r) && At(m, r, level, idx, t) && 1 <= level && 0 <= i < PTES && 0 <= idx
    requires Ready(m, p0, lo, r, level, idx) && Freeing(m, p0, p, r, level, idx, i, t)
    requires Freed(m, p, p1, r, level - 1, Child(level, idx, i))
    ensures Owned(M(p1), t, Kernel) && t < |p1.tab| && |p1.tab[t]| == PTES
  {
    assert FreeingFrame(m, p0, p, r, level, idx, i, t, t);
    assert FreedFrame(m, p, p1, r, level - 1, Child(level, idx, i), t);
    TableNotFirst(m, r, level, idx, i, t);
    if Under(r, level - 1, Child(level, idx, i), m.own[t], t) {
      ChildIsUnder(m, r, level, idx, i, t, t);
    }
  }

  lemma FreeingSelf(m: Mem, p0: Phys, p: Phys, lo: int, r: int, level: int, idx: int, t: int)
    requires Bare(m, r) && At(m, r, level, idx, t)
    requires Ready(m, p0, lo, r, level, idx) && Freeing(m, p0, p, r, level, idx, PTES, t)
    ensures Owned(M(p), t, Kernel) && lo <= t
  {
    assert FreeingFrame(m, p0, p, r, level, idx, PTES, t, t);
    TableNotFirst(m, r, level, idx, PTES, t);
  }

  lemma ClearKernelEntry(p: Phys, t: int, i: int)
    requires GoodPhys(p) && Owned(M(p), t, Kernel) && t < |p.tab| && 0 <= i < |p.tab[t]|
    ensures GoodPhys(p.(tab := Put(p.tab, t, i, ZERO_PTE)))
  {
    LooseFrame(M(p), t, p.tab[t][i := ZERO_PTE], Kernel);
    assert p.own[t := Kernel] == p.own;
  }

  // ---------------------------------------------------------------- uvmfree

  /** A frame of address space r: one of its tables or one of its pages. */
  predicate Belongs(u: Use, r: int, g: int) {
    match u
    case Root => g == r
    case Mid(q, _) => q == r
    case Low(q, _) => q == r
    case User(q, _) => q == r
    case _ => false
  }

  /** All frames of r are free again; every other frame and every other address space is as before. */
  ghost predicate Released(p: Phys, p': Phys, r: int) {
    && |p'.own| == |p.own| == |p.data| == |p'.data|
    && (forall g :: 0 <= g < |p.own| ==> ReleasedFrame(p, p', r, g))
    && forall q, w :: IsRoot(p, q) && q != r && 0 <= w < PAGES ==> Lookup(p'.tab, q, w) == Lookup(p.tab, q, w)
  }

  ghost predicate ReleasedFrame(p: Phys, p': Phys, r: int, g: int)
    requires 0 <= g < |p'.own| == |p.own| == |p.data| == |p'.data|
  {
    if Belongs(p.own[g], r, g) then p'.own[g] == Free
    else p'.own[g] == p.own[g] && p'.data[g] == p.data[g]
  }

  /** An address space is read only through its own tables. */
  lemma ReadThroughOwnTables(m: Mem, tab: seq<Table>, r: int, q: int, w: int)
    requires Inv(m) && Owned(m, q, Root) && q != r && 0 <= w < PAGES && |tab| == |m.tab|
    requires forall g :: 0 <= g < |m.own| && !TableOf(m, r, g) ==> tab[g] == m.tab[g]
    ensures Lookup(tab, q, w) == Lookup(m.tab, q, w)
  {
    assert !TableOf(m, r, q);
    if Entry(m.tab, q, w / PTES / PTES).valid {
      MidTable(m, q, w / PTES / PTES);
      assert !TableOf(m, r, Entry(m.tab, q, w / PTES / PTES).frame);
      if LowPte(m.tab, q, w / PTES).valid {
        LowTable(m, q, w / PTES);
        assert !TableOf(m, r, LowPte(m.tab, q, w / PTES).frame);
      }
    }
  }

  /** An address space without leaves has no page frames. */
  lemma NoPageFrames(m: Mem, r: int, g: int)
    requires Bare(m, r) && 0 <= g < |m.own|
    ensures !(m.own[g].User? && m.own[g].root == r)
  {
    assert FrameOk(m, g);
  }

  ghost function Detaching(p: Phys, r: int): Phys { p.(own := Detached(M(p), r).own) }

  lemma DetachReady(p: Phys, lo: int, r: int, free: seq<int>)
    requires GoodPhys(p) && Bare(M(p), r) && KernelBelow(p.own, lo) && FreeExactly(p.own, free)
    ensures var p1 := Detaching(p, r);
            GoodPhys(p1) && Ready(M(p), p1, lo, r, 2, 0) && KernelBelow(p1.own, lo) && FreeExactly(p1.own, free)
  {
    forall g | 0 <= g < |p.own| ensures !(p.own[g].User? && p.own[g].root == r) {
      NoPageFrames(M(p), r, g);
    }
    Detach(M(p), r);
  }

  lemma FreedReleased(p: Phys, p': Phys, r: int)
    requires GoodPhys(p) && Bare(M(p), r) && Freed(M(p), Detaching(p, r), p', r, 2, 0)
    ensures Released(p, p', r)
  {
    var p1 := Detaching(p, r);
    forall g | 0 <= g < |p.own| ensures ReleasedFrame(p, p', r, g) {
      assert FreedFrame(M(p), p1, p', r, 2, 0, g);
      NoPageFrames(M(p), r, g);
    }
    forall q, w | IsRoot(p, q) && q != r && 0 <= w < PAGES ensures Lookup(p'.tab, q, w) == Lookup(p.tab, q, w) {
      forall g | 0 <= g < |p.own| && !TableOf(M(p), r, g) ensures p'.tab[g] == p.tab[g] {
        assert FreedFrame(M(p), p1, p', r, 2, 0, g);
      }
      ReadThroughOwnTables(M(p), p'.tab, r, q, w);
    }
  }

  /** freewalk from the root: the tables of a tree without leaves become free, each exactly once. */
  method FreeTables(mem: Frames, r: int)
    requires mem.Valid() && Bare(M(mem.P()), r)
    modifies mem
    ensures mem.Valid() && mem.base == old(mem.base) && Released(old(mem.P()), mem.P(), r)
  {
    hide GoodPhys, Reached, OnList, FreeExactly, KernelBelow, Bare, Freed, Ready, Released;
    ghost var p := mem.P();
    DetachReady(p, mem.lo, r, mem.free);
    DetachReached(mem.base, p, r);
    mem.own := Detaching(p, r).own;
    BareAt(M(p), r);
    Freewalk(mem, r, M(p), r, 2, 0);
    FreedReleased(p, mem.P(), r);
  }

  lemma DetachReached(p0: Phys, p: Phys, r: int)
    requires GoodPhys(p) && Reached(p0, p) && Bare(M(p), r)
    ensures Reached(p0, Detaching(p, r))
  {
    hide Reached;
    forall g | 0 <= g < |p.own| ensures !(p.own[g].User? && p.own[g].root == r) {
      NoPageFrames(M(p), r, g);
    }
    ReachedMore(p0, p, Detaching(p, r), EndRoot(r));
  }

  lemma BareAt(m: Mem, r: int)
    requires Bare(m, r)
    ensures At(m, r, 2, 0, r)
  {
  }

  /** No page of r from n on is mapped. */
  ghost predicate EmptyFrom(p: Phys, r: int, n: int) {
    forall v :: 0 <= v < PAGES && n <= v ==> !Lookup(p.tab, r, v).valid
  }

  lemma UnmappedBare(p: Phys, p': Phys, r: int, n: int)
    requires Unmapped(p, p', r, 0, n) && IsRoot(p, r) && EmptyFrom(p, r, n) && GoodPhys(p') && 0 <= n
    ensures Bare(M(p'), r)
  {
    UnmapRoot(p, p', r, 0, n, r);
  }

  lemma UnmappedReleased(p: Phys, p1: Phys, p2: Phys, r: int, n: int)
    requires GoodPhys(p) && Unmapped(p, p1, r, 0, n) && Released(p1, p2, r) && IsRoot(p, r) && EmptyFrom(p, r, n)
    ensures Released(p, p2, r)
  {
    forall g | 0 <= g < |p.own| ensures ReleasedFrame(p, p2, r, g) {
      assert Unmapping(p, p1, r, 0, n, g) && ReleasedFrame(p1, p2, r, g);
      assert FrameOk(M(p), g);
    }
    forall q, w | IsRoot(p, q) && q != r && 0 <= w < PAGES ensures Lookup(p2.tab, q, w) == Lookup(p.tab, q, w) {
      UnmapRoot(p, p1, r, 0, n, q);
    }
  }

  /** uvmfree: pages first, then tables. All leaves must lie below sz. */
  method Uvmfree(mem: Frames, r: int, sz: int)
    requires mem.Valid() && IsRoot(mem.P(), r) && 0 <= sz <= TRAPFRAME * PGSIZE && EmptyFrom(mem.P(), r, PagesFor(sz))
    modifies mem
    ensures mem.Valid() && mem.base == old(mem.base) && Released(old(mem.P()), mem.P(), r)
  {
    hide GoodPhys, Reached, OnList, FreeExactly, KernelBelow, Unmapped, Released, Bare, EmptyFrom;
    ghost var p := mem.P();
    PagesForMonotone(sz, TRAPFRAME * PGSIZE);
    UnmapNone(p, r, 0);
    if sz > 0 {
      Uvmunmap(mem, r, 0, PagesFor(sz), true);
    }
    ghost var p1 := mem.P();
    UnmappedBare(p, p1, r, PagesFor(sz));
    FreeTables(mem, r);
    UnmappedReleased(p, p1, mem.P(), r, PagesFor(sz));
  }
}
