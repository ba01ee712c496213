/**
 The memory of processes: building, growing, copying and freeing a process's
 address space, with the error paths that give everything back.
 */
module AddressSpace {
  import opened PageTable
  import opened PhysMem
  import opened Vm
  import opened VmFree
  import opened UserMemory

  /** An address space of a process of size sz. */
  ghost predicate Space(p: Phys, r: int, sz: int) {
    IsRoot(p, r) && 0 <= sz <= TRAPFRAME * PGSIZE && LeavesBelow(p, r, sz)
  }

  // ---------------------------------------------------------------- while an address space is being built

  /** Since p, some free frames have become frames of the new address space r; nothing else has changed. */
  ghost predicate Building(p: Phys, p': Phys, r: int) {
    && |p'.own| == |p.own| == |p.data| == |p'.data|
    && 0 <= r < |p.own| && p.own[r] == Free && IsRoot(p', r)
    && (forall g :: 0 <= g < |p.own| ==> BuildingFrame(p, p', r, g))
    && forall q, w :: IsRoot(p, q) && 0 <= w < PAGES ==> Lookup(p'.tab, q, w) == Lookup(p.tab, q, w)
  }

  ghost predicate BuildingFrame(p: Phys, p': Phys, r: int, g: int)
    requires 0 <= g < |p'.own| == |p.own| == |p.data| == |p'.data|
  {
    if p.own[g] == Free then p'.own[g] == Free || Belongs(p'.own[g], r, g)
    else p'.own[g] == p.own[g] && p'.data[g] == p.data[g]
  }

  /** Every frame is used as before, and every address space maps what it did. */
  ghost predicate Restored(p: Phys, p': Phys) {
    && |p'.own| == |p.own| == |p.data| == |p'.data|
    && p'.own == p.own
    && (forall g :: 0 <= g < |p.own| && p.own[g] != Free ==> p'.data[g] == p.data[g])
    && forall q, w :: IsRoot(p, q) && 0 <= w < PAGES ==> Lookup(p'.tab, q, w) == Lookup(p.tab, q, w)
  }

  lemma CreatedBuilding(p: Phys, p': Phys, r: int)
    requires Created(p, p', r)
    ensures Building(p, p', r)
  {
  }

  lemma BuildingWithin(p: Phys, p1: Phys, p2: Phys, r: int, a: int, b: int)
    requires GoodPhys(p) && Building(p, p1, r) && Within(p1, p2, r, a, b)
    ensures Building(p, p2, r)
  {
    WithinRoot(p1, p2, r, a, b, r);
    forall g | 0 <= g < |p.own| ensures BuildingFrame(p, p2, r, g) {
      NothingBelongsYet(p, r, g);
      assert BuildingFrame(p, p1, r, g) && FrameStep(p1, p2, r, a, b, g);
    }
    forall q, w | IsRoot(p, q) && 0 <= w < PAGES ensures Lookup(p2.tab, q, w) == Lookup(p.tab, q, w) {
      assert BuildingFrame(p, p1, r, q);
    }
  }

  /** Mapping a special page only adds tables. */
  lemma BuildingSpecial(p: Phys, p1: Phys, p2: Phys, r: int, v: int, f: int, perm: Perm, n: int)
    requires Building(p, p1, r) && Mapped(p1, p2, r, v, f, perm, n) && Special(v) && 0 <= n <= 1
    ensures Building(p, p2, r)
  {
    RootStays(p1, p2, r, v, f, perm, n, r);
    forall g | 0 <= g < |p.own| ensures BuildingFrame(p, p2, r, g) {
      assert BuildingFrame(p, p1, r, g) && MapGrowth(p1, p2, r, v, f, n, g);
    }
    forall q, w | IsRoot(p, q) && 0 <= w < PAGES ensures Lookup(p2.tab, q, w) == Lookup(p.tab, q, w) {
      assert BuildingFrame(p, p1, r, q);
    }
  }

  lemma BuildingUnmapped(p: Phys, p1: Phys, p2: Phys, r: int, v: int, n: int)
    requires GoodPhys(p) && Building(p, p1, r) && Unmapped(p1, p2, r, v, n)
    ensures Building(p, p2, r)
  {
    UnmappedWithin(p1, p2, r, v, n);
    BuildingWithin(p, p1, p2, r, v, v + n);
  }

  /** Before it is built, no frame belongs to an address space. */
  lemma NothingBelongsYet(p: Phys, r: int, g: int)
    requires GoodPhys(p) && 0 <= r < |p.own| && p.own[r] == Free && 0 <= g < |p.own|
    ensures !Belongs(p.own[g], r, g)
  {
    assert FrameOk(M(p), g);
  }

  /** Freeing a half-built address space undoes the building. */
  lemma BuildingReleased(p: Phys, p1: Phys, p2: Phys, r: int)
    requires GoodPhys(p) && Building(p, p1, r) && Released(p1, p2, r)
    ensures Restored(p, p2)
  {
    forall g | 0 <= g < |p.own| ensures p2.own[g] == p.own[g] && (p.own[g] != Free ==> p2.data[g] == p.data[g]) {
      assert BuildingFrame(p, p1, r, g) && ReleasedFrame(p1, p2, r, g);
      NothingBelongsYet(p, r, g);
    }
    forall q, w | IsRoot(p, q) && 0 <= w < PAGES ensures Lookup(p2.tab, q, w) == Lookup(p.tab, q, w) {
      assert BuildingFrame(p, p1, r, q);
    }
  }

  // ---------------------------------------------------------------- proc_pagetable

  const TRAMPOLINE_PERM := Perm(true, false, true, false)
  const TRAPFRAME_PERM := Perm(true, true, false, false)

  /** Only the two special pages are mapped. */
  ghost predicate OnlySpecial(p: Phys, r: int, tramp: int, tf: int) {
    && (forall v :: 0 <= v < TRAPFRAME ==> !Lookup(p.tab, r, v).valid)
    && Lookup(p.tab, r, TRAMPOLINE) == Pte(true, tramp, TRAMPOLINE_PERM)
    && Lookup(p.tab, r, TRAPFRAME) == Pte(true, tf, TRAPFRAME_PERM)
  }

  /** The trampoline page can be executed and the trapframe page written, both by the kernel only. */
  ghost predicate SpecialPages(tab: seq<Table>, r: int, tramp: int, tf: int) {
    var t, f := Lookup(tab, r, TRAMPOLINE), Lookup(tab, r, TRAPFRAME);
    && t.valid && t.frame == tramp && t.perm.r && t.perm.x && !t.perm.w && !t.perm.u
    && f.valid && f.frame == tf && f.perm.r && f.perm.w && !f.perm.x && !f.perm.u
  }

  lemma SpecialOnly(p: Phys, r: int, tramp: int, tf: int)
    requires OnlySpecial(p, r, tramp, tf)
    ensures SpecialPages(p.tab, r, tramp, tf)
  {
  }

  /** They stay while only ordinary pages change. */
  lemma SpecialStays(p: Phys, p': Phys, r: int, a: int, b: int, q: int, tramp: int, tf: int)
    requires Within(p, p', r, a, b) && b <= TRAPFRAME && IsRoot(p, q) && SpecialPages(p.tab, q, tramp, tf)
    ensures SpecialPages(p'.tab, q, tramp, tf)
  {
  }

  lemma CreatedEmpty(p: Phys, p': Phys, r: int)
    requires Created(p, p', r)
    ensures EmptyFrom(p', r, 0)
  {
  }

  lemma MappedFailedEmpty(p: Phys, p': Phys, r: int, v: int, f: int, perm: Perm)
    requires IsRoot(p, r) && EmptyFrom(p, r, 0) && Mapped(p, p', r, v, f, perm, 0)
    ensures EmptyFrom(p', r, 0)
  {
  }

  lemma FirstMapped(p: Phys, p': Phys, r: int, tramp: int)
    requires IsRoot(p, r) && EmptyFrom(p, r, 0) && Mapped(p, p', r, TRAMPOLINE, tramp, TRAMPOLINE_PERM, 1)
    ensures forall v :: 0 <= v < TRAMPOLINE ==> !Lookup(p'.tab, r, v).valid
    ensures Lookup(p'.tab, r, TRAMPOLINE) == Pte(true, tramp, TRAMPOLINE_PERM)
  {
  }

  lemma SecondMapped(p: Phys, p': Phys, r: int, tramp: int, tf: int)
    requires IsRoot(p, r) && forall v :: 0 <= v < TRAMPOLINE ==> !Lookup(p.tab, r, v).valid
    requires Lookup(p.tab, r, TRAMPOLINE) == Pte(true, tramp, TRAMPOLINE_PERM)
    requires Mapped(p, p', r, TRAPFRAME, tf, TRAPFRAME_PERM, 1)
    ensures OnlySpecial(p', r, tramp, tf)
  {
  }

  lemma SecondFailed(p: Phys, p1: Phys, p2: Phys, r: int, tf: int)
    requires IsRoot(p, r) && forall v :: 0 <= v < TRAMPOLINE ==> !Lookup(p.tab, r, v).valid
    requires Mapped(p, p1, r, TRAPFRAME, tf, TRAPFRAME_PERM, 0) && Unmapped(p1, p2, r, TRAMPOLINE, 1)
    ensures EmptyFrom(p2, r, 0)
  {
    RootStays(p, p1, r, TRAPFRAME, tf, TRAPFRAME_PERM, 0, r);
  }

  /** proc_pagetable: an address space with the two special pages, or 0 with every frame given back. */
  method ProcPagetable(mem: Frames, tramp: int, tf: int) returns (r: int)
    requires mem.Valid() && 0 <= tramp < mem.hi && 0 <= tf < mem.hi
    modifies mem
    ensures mem.Valid() && mem.base == old(mem.base)
    ensures r == 0 ==> Restored(old(mem.P()), mem.P())
    ensures r != 0 ==>
        Building(old(mem.P()), mem.P(), r) && OnlySpecial(mem.P(), r, tramp, tf) && LeavesBelow(mem.P(), r, 0)
    ensures r != 0 ==> SpecialPages(mem.tab, r, tramp, tf)
    ensures if r == 0 then |old(mem.free)| < 5 else |mem.free| >= |old(mem.free)| - 5
  {
    hide GoodPhys, Reached, OnList, FreeExactly, KernelBelow, Created, Mapped, Unmapped, Released, EmptyFrom,
      Restored, Building, Lookup, OnlySpecial, SpecialPages, LeavesBelow;
    ghost var p0 := mem.P();
    r := Uvmcreate(mem);
    if r == 0 {
      RestoredSelf(p0);
      return;
    }
    ghost var p1 := mem.P();
    CreatedBuilding(p0, p1, r);
    CreatedEmpty(p0, p1, r);
    EmptyMeans(p1, r);
    var ok;
    ghost var done;
    InHandSpecial(p1, mem.lo, TRAMPOLINE, tramp, TRAMPOLINE_PERM);
    ok, done := Mappages(mem, r, TRAMPOLINE, 1, tramp, TRAMPOLINE_PERM);
    ghost var p2 := mem.P();
    BuildingSpecial(p0, p1, p2, r, TRAMPOLINE, tramp, TRAMPOLINE_PERM, done);
    if !ok {
      MappedFailedEmpty(p1, p2, r, TRAMPOLINE, tramp, TRAMPOLINE_PERM);
      Uvmfree(mem, r, 0);
      BuildingReleased(p0, p2, mem.P(), r);
      return 0;
    }
    FirstMapped(p1, p2, r, tramp);
    InHandSpecial(p2, mem.lo, TRAPFRAME, tf, TRAPFRAME_PERM);
    ok, done := Mappages(mem, r, TRAPFRAME, 1, tf, TRAPFRAME_PERM);
    ghost var p3 := mem.P();
    BuildingSpecial(p0, p2, p3, r, TRAPFRAME, tf, TRAPFRAME_PERM, done);
    if !ok {
      Uvmunmap(mem, r, TRAMPOLINE, 1, false);
      ghost var p4 := mem.P();
      SecondFailed(p2, p3, p4, r, tf);
      BuildingUnmapped(p0, p3, p4, r, TRAMPOLINE, 1);
      Uvmfree(mem, r, 0);
      BuildingReleased(p0, p4, mem.P(), r);
      return 0;
    }
    SecondMapped(p2, p3, r, tramp, tf);
    OnlySpecialLeaves(p3, r, tramp, tf);
    SpecialOnly(p3, r, tramp, tf);
  }

  lemma RestoredSelf(p: Phys)
    requires GoodPhys(p)
    ensures Restored(p, p)
  {
  }

  lemma EmptyMeans(p: Phys, r: int)
    requires EmptyFrom(p, r, 0)
    ensures forall w :: 0 <= w < PAGES ==> !Lookup(p.tab, r, w).valid
  {
  }

  lemma OnlySpecialLeaves(p: Phys, r: int, tramp: int, tf: int)
    requires OnlySpecial(p, r, tramp, tf)
    ensures LeavesBelow(p, r, 0)
  {
  }

  // ---------------------------------------------------------------- proc_freepagetable

  /** Unmapping a special page frees nothing. */
  lemma SpecialUnmappedReleased(p: Phys, p1: Phys, p2: Phys, r: int, v: int)
    requires GoodPhys(p) && Special(v) && Unmapped(p, p1, r, v, 1) && Released(p1, p2, r)
    ensures Released(p, p2, r)
  {
    forall g | 0 <= g < |p.own| ensures ReleasedFrame(p, p2, r, g) {
      assert FrameOk(M(p), g);
      assert Unmapping(p, p1, r, v, 1, g) && ReleasedFrame(p1, p2, r, g);
    }
    forall q, w | IsRoot(p, q) && q != r && 0 <= w < PAGES ensures Lookup(p2.tab, q, w) == Lookup(p.tab, q, w) {
      UnmapRoot(p, p1, r, v, 1, q);
    }
  }

  lemma SpecialGone(p: Phys, p1: Phys, p2: Phys, r: int, sz: int)
    requires IsRoot(p, r) && 0 <= sz && LeavesBelow(p, r, sz)
    requires Unmapped(p, p1, r, TRAMPOLINE, 1) && Unmapped(p1, p2, r, TRAPFRAME, 1)
    ensures EmptyFrom(p2, r, PagesFor(sz))
  {
    UnmapRoot(p, p1, r, TRAMPOLINE, 1, r);
  }

  /** proc_freepagetable: every frame of the address space becomes free, and no other. */
  method ProcFreepagetable(mem: Frames, r: int, sz: int)
    requires mem.Valid() && Space(mem.P(), r, sz)
    modifies mem
    ensures mem.Valid() && mem.base == old(mem.base) && Released(old(mem.P()), mem.P(), r)
  {
    hide GoodPhys, Reached, OnList, FreeExactly, KernelBelow, Unmapped, Released, EmptyFrom, LeavesBelow, Lookup;
    ghost var p0 := mem.P();
    Uvmunmap(mem, r, TRAMPOLINE, 1, false);
    ghost var p1 := mem.P();
    Uvmunmap(mem, r, TRAPFRAME, 1, false);
    ghost var p2 := mem.P();
    SpecialGone(p0, p1, p2, r, sz);
    Uvmfree(mem, r, sz);
    SpecialUnmappedReleased(p1, p2, mem.P(), r, TRAPFRAME);
    SpecialUnmappedReleased(p0, p1, mem.P(), r, TRAMPOLINE);
  }

  // ---------------------------------------------------------------- growproc and sbrk

  /** What user code sees after its size went from sz to sz': pages below both sizes are kept, pages
      between them read as zeros after growing and are out of reach after shrinking. */
  ghost predicate Resized(p: Phys, p': Phys, r: int, sz: int, sz': int) {
    forall a :: View(p', r, sz', a) == ResizedCell(p, r, sz, sz', a)
  }

  ghost function ResizedCell(p: Phys, r: int, sz: int, sz': int, a: int): Cell {
    var v := a / PGSIZE;
    if v < PagesFor(sz) && v < PagesFor(sz') then View(p, r, sz, a)
    else if 0 <= a && v < PagesFor(sz') then Byte(0, true, false) else Denied
  }

  lemma CanGrow(p: Phys, r: int, sz: int, sz': int)
    requires Space(p, r, sz) && sz <= sz' <= TRAPFRAME * PGSIZE
    ensures forall v :: PagesFor(sz) <= v < PagesFor(sz') ==> !Lookup(p.tab, r, v).valid
  {
    PagesForMonotone(sz', TRAPFRAME * PGSIZE);
  }

  lemma GrownLeaves(p: Phys, p': Phys, r: int, sz: int, sz': int)
    requires Space(p, r, sz) && sz <= sz' <= TRAPFRAME * PGSIZE && Within(p, p', r, PagesFor(sz), PagesFor(sz'))
    ensures Space(p', r, sz')
  {
    PagesForMonotone(sz, sz');
    WithinRoot(p, p', r, PagesFor(sz), PagesFor(sz'), r);
  }

  lemma GrownCell(p: Phys, p': Phys, r: int, sz: int, sz': int, a: int)
    requires GoodPhys(p) && GoodPhys(p') && Space(p, r, sz) && Space(p', r, sz') && sz <= sz'
    requires Within(p, p', r, PagesFor(sz), PagesFor(sz'))
    requires Filling(p', r, PagesFor(sz), PagesFor(sz'), PagesFor(sz'), ZERO_PAGE_PERM)
    ensures View(p', r, sz', a) == ResizedCell(p, r, sz, sz', a)
  {
    var v := a / PGSIZE;
    PagesForMonotone(sz, sz');
    PagesForMonotone(sz', TRAPFRAME * PGSIZE);
    if v < PagesFor(sz) {
      ViewOutside(p, p', r, PagesFor(sz), PagesFor(sz'), r, sz', a);
    } else if v < PagesFor(sz') {
      assert FreshPage(p', r, v, ZERO_PAGE_PERM, Bytes(0));
    } else {
      AboveIsDenied(p', r, sz', a);
    }
  }

  lemma NotGrown(p: Phys, p': Phys, r: int, sz: int, sz': int)
    requires GoodPhys(p) && GoodPhys(p') && Space(p, r, sz) && sz <= sz' <= TRAPFRAME * PGSIZE
    requires Within(p, p', r, PagesFor(sz), PagesFor(sz'))
    requires Filling(p', r, PagesFor(sz), PagesFor(sz), PagesFor(sz'), ZERO_PAGE_PERM)
    ensures Space(p', r, sz) && Resized(p, p', r, sz, sz)
  {
    PagesForMonotone(sz, sz');
    WithinRoot(p, p', r, PagesFor(sz), PagesFor(sz'), r);
    forall a ensures View(p', r, sz, a) == ResizedCell(p, r, sz, sz, a) {
      NotGrownCell(p, p', r, sz, sz', a);
    }
  }

  lemma NotGrownCell(p: Phys, p': Phys, r: int, sz: int, sz': int, a: int)
    requires GoodPhys(p) && GoodPhys(p') && Space(p, r, sz) && Space(p', r, sz) && sz <= sz' <= TRAPFRAME * PGSIZE
    requires Within(p, p', r, PagesFor(sz), PagesFor(sz'))
    ensures View(p', r, sz, a) == ResizedCell(p, r, sz, sz, a)
  {
    if a / PGSIZE < PagesFor(sz) {
      ViewOutside(p, p', r, PagesFor(sz), PagesFor(sz'), r, sz, a);
    } else {
      AboveIsDenied(p', r, sz, a);
    }
  }

  lemma Grown(p: Phys, p': Phys, r: int, sz: int, sz': int)
    requires GoodPhys(p) && GoodPhys(p') && Space(p, r, sz) && sz <= sz' <= TRAPFRAME * PGSIZE
    requires Within(p, p', r, PagesFor(sz), PagesFor(sz'))
    requires Filling(p', r, PagesFor(sz), PagesFor(sz'), PagesFor(sz'), ZERO_PAGE_PERM)
    ensures Space(p', r, sz') && Resized(p, p', r, sz, sz')
  {
    GrownLeaves(p, p', r, sz, sz');
    forall a ensures View(p', r, sz', a) == ResizedCell(p, r, sz, sz', a) {
      GrownCell(p, p', r, sz, sz', a);
    }
  }

  lemma Shrunk(p: Phys, p': Phys, r: int, sz: int, sz': int)
    requires GoodPhys(p) && GoodPhys(p') && Space(p, r, sz) && 0 <= sz' <= sz
    requires Unmapped(p, p', r, PagesFor(sz'), PagesFor(sz) - PagesFor(sz'))
    ensures Space(p', r, sz') && Resized(p, p', r, sz, sz')
  {
    PagesForMonotone(sz', sz);
    UnmapRoot(p, p', r, PagesFor(sz'), PagesFor(sz) - PagesFor(sz'), r);
    UnmappedWithin(p, p', r, PagesFor(sz'), PagesFor(sz) - PagesFor(sz'));
    forall a ensures View(p', r, sz', a) == ResizedCell(p, r, sz, sz', a) {
      if a / PGSIZE < PagesFor(sz') {
        ViewOutside(p, p', r, PagesFor(sz'), PagesFor(sz), r, sz', a);
      } else {
        AboveIsDenied(p', r, sz', a);
      }
    }
  }

  /** Changing the size and nothing else. */
  lemma LazyResized(p: Phys, r: int, sz: int, sz': int)
    requires GoodPhys(p) && Space(p, r, sz) && sz <= sz' <= TRAPFRAME * PGSIZE
    ensures Space(p, r, sz') && Resized(p, p, r, sz, sz')
  {
    PagesForMonotone(sz, sz');
    forall a ensures View(p, r, sz', a) == ResizedCell(p, r, sz, sz', a) {
      LazyCell(p, r, sz, sz', a);
    }
  }

  lemma LazyCell(p: Phys, r: int, sz: int, sz': int, a: int)
    requires GoodPhys(p) && Space(p, r, sz) && sz <= sz' <= TRAPFRAME * PGSIZE
    ensures View(p, r, sz', a) == ResizedCell(p, r, sz, sz', a)
  {
    var v := a / PGSIZE;
    PagesForMonotone(sz, sz');
    PagesForMonotone(sz', TRAPFRAME * PGSIZE);
    if v >= PagesFor(sz') {
      AboveIsDenied(p, r, sz', a);
    }
  }

  lemma WithinAnywhere(p: Phys, p': Phys, r: int, sz: int, sz': int)
    requires 0 <= sz <= sz' <= TRAPFRAME * PGSIZE && Within(p, p', r, PagesFor(sz), PagesFor(sz'))
    ensures Within(p, p', r, 0, TRAPFRAME)
  {
    PagesForMonotone(sz, sz');
    PagesForMonotone(sz', TRAPFRAME * PGSIZE);
    WithinWider(p, p', r, PagesFor(sz), PagesFor(sz'), 0, TRAPFRAME);
  }

  /** Unsigned 64-bit addition of a signed increment. */
  function Wrap64(x: int): int { x % 0x1_0000_0000_0000_0000 }

  /** growproc. A shrink below zero wraps round and leaves the size as it is. */
  method Growproc(mem: Frames, r: int, sz: int, n: int) returns (ok: bool, sz': int)
    requires mem.Valid() && Space(mem.P(), r, sz) && -0x8000_0000 <= n < 0x8000_0000
    modifies mem
    ensures mem.Valid() && mem.base == old(mem.base) && Space(mem.P(), r, sz') && OthersSame(old(mem.P()), mem.P(), r)
    ensures Resized(old(mem.P()), mem.P(), r, sz, sz') && Within(old(mem.P()), mem.P(), r, 0, TRAPFRAME)
    ensures sz' == if ok && sz + n >= 0 then sz + n else sz
    ensures !ok ==> n > 0
    ensures !ok ==> sz + n > TRAPFRAME * PGSIZE || |old(mem.free)| < 3 * (PagesFor(sz + n) - PagesFor(sz))
    ensures ok ==> sz + n <= TRAPFRAME * PGSIZE
  {
    hide GoodPhys, Reached, OnList, FreeExactly, KernelBelow, Unmapped, LeavesBelow, Lookup, Within, Filling, Resized,
      OthersSame, IsRoot;
    ghost var p := mem.P();
    LazyResized(p, r, sz, sz);
    WithinReflexive(p, r, 0, TRAPFRAME);
    WithinOthersSame(p, p, r, 0, TRAPFRAME);
    sz' := sz;
    if n > 0 {
      if sz + n > TRAPFRAME * PGSIZE {
        return false, sz;
      }
      CanGrow(p, r, sz, sz + n);
      ghost var done;
      sz', done := Uvmalloc(mem, r, sz, sz + n, true, false);
      WithinOthersSame(p, mem.P(), r, PagesFor(sz), PagesFor(sz + n));
      WithinAnywhere(p, mem.P(), r, sz, sz + n);
      if sz' == 0 {
        NotGrown(p, mem.P(), r, sz, sz + n);
        return false, sz;
      }
      Grown(p, mem.P(), r, sz, sz + n);
    } else if n < 0 {
      sz' := Uvmdealloc(mem, r, sz, Wrap64(sz + n));
      if sz + n >= 0 {
        Shrunk(p, mem.P(), r, sz, sz + n);
        UnmappedWithin(p, mem.P(), r, PagesFor(sz + n), PagesFor(sz) - PagesFor(sz + n));
        WithinOthersSame(p, mem.P(), r, PagesFor(sz + n), PagesFor(sz));
        WithinAnywhere(p, mem.P(), r, sz + n, sz);
      }
    }
    return true, sz';
  }

  /** sys_sbrk: the old size or -1. A lazy request that fits only moves the size. */
  method Sbrk(mem: Frames, r: int, sz: int, n: int, eager: bool) returns (addr: int, sz': int)
    requires mem.Valid() && Space(mem.P(), r, sz) && -0x8000_0000 <= n < 0x8000_0000
    modifies mem
    ensures mem.Valid() && mem.base == old(mem.base) && Space(mem.P(), r, sz') && OthersSame(old(mem.P()), mem.P(), r)
    ensures Resized(old(mem.P()), mem.P(), r, sz, sz') && Within(old(mem.P()), mem.P(), r, 0, TRAPFRAME)
    ensures addr == sz || (addr == -1 && sz' == sz && n > 0)
    ensures addr == sz ==> sz' == if sz + n >= 0 then sz + n else sz
    ensures !eager && n >= 0 ==> mem.P() == old(mem.P()) && (addr == sz <==> sz + n <= TRAPFRAME * PGSIZE)
    ensures addr == -1 ==>
              sz + n > TRAPFRAME * PGSIZE || (eager && |old(mem.free)| < 3 * (PagesFor(sz + n) - PagesFor(sz)))
  {
    hide GoodPhys, Reached, OnList, FreeExactly, KernelBelow, LeavesBelow, Lookup, Within, Resized, OthersSame, IsRoot;
    ghost var p := mem.P();
    if eager || n < 0 {
      var ok;
      ok, sz' := Growproc(mem, r, sz, n);
      return if ok then sz else -1, sz';
    }
    WithinReflexive(p, r, 0, TRAPFRAME);
    WithinOthersSame(p, p, r, 0, TRAPFRAME);
    LazyResized(p, r, sz, sz);
    if Wrap64(sz + n) < sz || Wrap64(sz + n) > TRAPFRAME * PGSIZE {
      return -1, sz;
    }
    LazyResized(p, r, sz, sz + n);
    return sz, sz + n;
  }

  // ---------------------------------------------------------------- allocproc, freeproc and kfork

  /** A process's memory: a trapframe page and an address space, both fresh. */
  ghost predicate NewProcess(p: Phys, p': Phys, r: int, tf: int) {
    && |p'.own| == |p.own| == |p.data| == |p'.data|
    && 0 <= r < |p.own| && p.own[r] == Free && IsRoot(p', r)
    && 0 <= tf < |p.own| && p.own[tf] == Free && p'.own[tf] == Kernel
    && (forall g :: 0 <= g < |p.own| && g != tf ==> BuildingFrame(p, p', r, g))
    && forall q, w :: IsRoot(p, q) && 0 <= w < PAGES ==> Lookup(p'.tab, q, w) == Lookup(p.tab, q, w)
  }

  lemma TrapframeThenBuilding(p: Phys, p1: Phys, p2: Phys, r: int, tf: int)
    requires GoodPhys(p) && 0 <= tf < |p.own| && p.own[tf] == Free
    requires p1 == Phys(p.tab[tf := JunkTable(5)], p.own[tf := Kernel], p.data[tf := Bytes(5)]) && Building(p1, p2, r)
    ensures NewProcess(p, p2, r, tf)
  {
    LooseFrame(M(p), tf, JunkTable(5), Kernel);
    assert BuildingFrame(p1, p2, r, tf);
    forall g | 0 <= g < |p.own| && g != tf ensures BuildingFrame(p, p2, r, g) {
      assert BuildingFrame(p1, p2, r, g);
    }
    forall q, w | IsRoot(p, q) && 0 <= w < PAGES ensures Lookup(p2.tab, q, w) == Lookup(p.tab, q, w) {
      assert IsRoot(p1, q);
    }
  }

  lemma TrapframeThenRestored(p: Phys, p1: Phys, p2: Phys, p3: Phys, tf: int)
    requires GoodPhys(p) && 0 <= tf < |p.own| && p.own[tf] == Free
    requires p1 == Phys(p.tab[tf := JunkTable(5)], p.own[tf := Kernel], p.data[tf := Bytes(5)]) && Restored(p1, p2)
    requires GoodPhys(p2) && p3 == Phys(p2.tab[tf := JunkTable(1)], p2.own[tf := Free], p2.data[tf := Bytes(1)])
    ensures Restored(p, p3)
  {
    LooseFrame(M(p), tf, JunkTable(5), Kernel);
    LooseFrame(M(p2), tf, JunkTable(1), Free);
    forall q, w | IsRoot(p, q) && 0 <= w < PAGES ensures Lookup(p3.tab, q, w) == Lookup(p.tab, q, w) {
      assert IsRoot(p1, q) && IsRoot(p2, q);
    }
  }

  /** The memory part of allocproc: r is 0 if memory ran out, and then nothing has been taken. */
  method Allocproc(mem: Frames, tramp: int) returns (r: int, tf: int)
    requires mem.Valid() && 0 <= tramp < mem.hi
    modifies mem
    ensures mem.Valid() && mem.base == old(mem.base)
    ensures r == 0 ==> Restored(old(mem.P()), mem.P())
    ensures r != 0 ==>
        NewProcess(old(mem.P()), mem.P(), r, tf) && OnlySpecial(mem.P(), r, tramp, tf) && LeavesBelow(mem.P(), r, 0)
    ensures r != 0 ==> SpecialPages(mem.tab, r, tramp, tf)
    ensures if r == 0 then |old(mem.free)| < 6 else |mem.free| >= |old(mem.free)| - 6
  {
    hide GoodPhys, Reached, OnList, FreeExactly, KernelBelow, Restored, Building, NewProcess, OnlySpecial,
      SpecialPages, LeavesBelow;
    ghost var p := mem.P();
    GoodShape(p);
    tf := mem.Kalloc();
    if tf == 0 {
      RestoredSelf(p);
      return 0, 0;
    }
    ghost var p1 := mem.P();
    r := ProcPagetable(mem, tramp, tf);
    ghost var p2 := mem.P();
    if r == 0 {
      GoodShape(p2);
      RestoredUse(p1, p2, tf);
      var ok := mem.Kfree(tf);
      TrapframeThenRestored(p, p1, p2, mem.P(), tf);
      return;
    }
    TrapframeThenBuilding(p, p1, p2, r, tf);
  }

  lemma RestoredUse(p: Phys, p': Phys, g: int)
    requires Restored(p, p')
    ensures p'.own == p.own
  {
  }

  /** A process's frames: those of its address space, and its trapframe page. */
  ghost predicate ProcessGone(p: Phys, p': Phys, r: int, tf: int) {
    && |p'.own| == |p.own| == |p.data| == |p'.data|
    && (forall g :: 0 <= g < |p.own| ==>
          if g == tf || Belongs(p.own[g], r, g) then p'.own[g] == Free
          else p'.own[g] == p.own[g] && p'.data[g] == p.data[g])
    && forall q, w :: IsRoot(p, q) && q != r && 0 <= w < PAGES ==> Lookup(p'.tab, q, w) == Lookup(p.tab, q, w)
  }

  lemma TrapframeFreed(p: Phys, p1: Phys, r: int, sz: int, tf: int)
    requires GoodPhys(p) && Space(p, r, sz) && Owned(M(p), tf, Kernel)
    requires p1 == Phys(p.tab[tf := JunkTable(1)], p.own[tf := Free], p.data[tf := Bytes(1)])
    ensures Space(p1, r, sz) && SameMaps(M(p), M(p1))
  {
    LooseFrame(M(p), tf, JunkTable(1), Free);
  }

  lemma FreedProcessGone(p: Phys, p1: Phys, p2: Phys, r: int, tf: int)
    requires GoodPhys(p) && Owned(M(p), tf, Kernel) && SameMaps(M(p), M(p1)) && Released(p1, p2, r)
    requires p1 == Phys(p.tab[tf := JunkTable(1)], p.own[tf := Free], p.data[tf := Bytes(1)])
    ensures ProcessGone(p, p2, r, tf)
  {
    forall g | 0 <= g < |p.own|
      ensures if g == tf || Belongs(p.own[g], r, g) then p2.own[g] == Free
              else p2.own[g] == p.own[g] && p2.data[g] == p.data[g]
    {
      assert ReleasedFrame(p1, p2, r, g);
    }
    forall q, w | IsRoot(p, q) && q != r && 0 <= w < PAGES ensures Lookup(p2.tab, q, w) == Lookup(p.tab, q, w) {
      assert IsRoot(p1, q);
    }
  }

  /** The memory part of freeproc. */
  method Freeproc(mem: Frames, r: int, sz: int, tf: int)
    requires mem.Valid() && Space(mem.P(), r, sz) && mem.lo <= tf < mem.hi && mem.own[tf] == Kernel
    modifies mem
    ensures mem.Valid() && mem.base == old(mem.base) && ProcessGone(old(mem.P()), mem.P(), r, tf)
  {
    hide GoodPhys, Reached, OnList, FreeExactly, KernelBelow, Released, LeavesBelow, ProcessGone, SameMaps, Lookup;
    ghost var p := mem.P();
    GoodShape(p);
    var ok := mem.Kfree(tf);
    ghost var p1 := mem.P();
    TrapframeFreed(p, p1, r, sz, tf);
    ProcFreepagetable(mem, r, sz);
    FreedProcessGone(p, p1, mem.P(), r, tf);
  }

  lemma NewProcessWithin(p: Phys, p1: Phys, p2: Phys, r: int, tf: int, a: int, b: int)
    requires GoodPhys(p) && NewProcess(p, p1, r, tf) && Within(p1, p2, r, a, b)
    ensures NewProcess(p, p2, r, tf)
  {
    WithinRoot(p1, p2, r, a, b, r);
    assert FrameStep(p1, p2, r, a, b, tf);
    forall g | 0 <= g < |p.own| && g != tf ensures BuildingFrame(p, p2, r, g) {
      NothingBelongsYet(p, r, g);
      assert BuildingFrame(p, p1, r, g) && FrameStep(p1, p2, r, a, b, g);
    }
    forall q, w | IsRoot(p, q) && 0 <= w < PAGES ensures Lookup(p2.tab, q, w) == Lookup(p.tab, q, w) {
      assert q != tf ==> BuildingFrame(p, p1, r, q);
    }
  }

  /** A process given back right after it was made leaves no trace. */
  lemma NewProcessGone(p: Phys, p1: Phys, p2: Phys, r: int, tf: int)
    requires GoodPhys(p) && NewProcess(p, p1, r, tf) && ProcessGone(p1, p2, r, tf)
    ensures Restored(p, p2)
  {
    forall g | 0 <= g < |p.own| ensures p2.own[g] == p.own[g] && (p.own[g] != Free ==> p2.data[g] == p.data[g]) {
      NothingBelongsYet(p, r, g);
      assert g != tf ==> BuildingFrame(p, p1, r, g);
    }
    forall q, w | IsRoot(p, q) && 0 <= w < PAGES ensures Lookup(p2.tab, q, w) == Lookup(p.tab, q, w) {
      assert q != tf ==> BuildingFrame(p, p1, r, q);
    }
  }

  lemma NewProcessRoot(p: Phys, p': Phys, r: int, tf: int, q: int)
    requires NewProcess(p, p', r, tf) && IsRoot(p, q)
    ensures IsRoot(p', q) && q != r
  {
    assert q != tf ==> BuildingFrame(p, p', r, q);
  }

  lemma OnlySpecialEmpty(p: Phys, r: int, tramp: int, tf: int, sz: int)
    requires OnlySpecial(p, r, tramp, tf) && 0 <= sz <= TRAPFRAME * PGSIZE
    ensures forall v :: 0 <= v < PagesFor(sz) ==> !Lookup(p.tab, r, v).valid
  {
    PagesForMonotone(sz, TRAPFRAME * PGSIZE);
  }

  /** The parent's leaves, and after a failed copy the child's, are where they were. */
  lemma LeavesAfterCopy(p: Phys, p': Phys, r: int, s: int, sz: int)
    requires IsRoot(p, r) && IsRoot(p, s) && r != s && 0 <= sz && Within(p, p', s, 0, PagesFor(sz))
    requires LeavesBelow(p, r, sz) && LeavesBelow(p, s, 0)
    ensures LeavesBelow(p', r, sz) && LeavesBelow(p', s, sz)
    ensures Copying(p', r, s, 0, PagesFor(sz)) ==> LeavesBelow(p', s, 0)
  {
  }

  lemma NewProcessLeaves(p: Phys, p': Phys, r: int, tf: int, q: int, sz: int)
    requires NewProcess(p, p', r, tf) && IsRoot(p, q) && LeavesBelow(p, q, sz)
    ensures LeavesBelow(p', q, sz)
  {
  }

  /** The memory part of kfork: a child that sees the same bytes in frames of its own, or 0 with every
      frame given back, page tables included. */
  method Kfork(mem: Frames, r: int, sz: int, tramp: int) returns (s: int, tf: int)
    requires mem.Valid() && Space(mem.P(), r, sz) && 0 <= tramp < mem.hi
    modifies mem
    ensures mem.Valid() && mem.base == old(mem.base)
    ensures s == 0 ==> Restored(old(mem.P()), mem.P())
    ensures s != 0 ==> NewProcess(old(mem.P()), mem.P(), s, tf) && Space(mem.P(), s, sz) && Space(mem.P(), r, sz)
    ensures s != 0 ==> s != r && forall a :: View(mem.P(), s, sz, a) == View(mem.P(), r, sz, a)
    ensures s != 0 ==> SpecialPages(mem.tab, s, tramp, tf)
    ensures s == 0 ==> |old(mem.free)| < 6 + 3 * PagesFor(sz)
  {
    hide GoodPhys, Reached, OnList, FreeExactly, KernelBelow, Restored, NewProcess, ProcessGone, OnlySpecial,
      LeavesBelow, Lookup, Within, Copying, IsRoot;
    ghost var p := mem.P();
    s, tf := Allocproc(mem, tramp);
    if s == 0 {
      return;
    }
    ghost var p1 := mem.P();
    NewProcessRoot(p, p1, s, tf, r);
    NewProcessSelf(p, p1, mem.lo, s, tf);
    NewProcessLeaves(p, p1, s, tf, r, sz);
    OnlySpecialEmpty(p1, s, tramp, tf, sz);
    var ok := Uvmcopy(mem, r, s, sz);
    ghost var p2 := mem.P();
    NewProcessWithin(p, p1, p2, s, tf, 0, PagesFor(sz));
    LeavesAfterCopy(p1, p2, r, s, sz);
    PagesForMonotone(sz, TRAPFRAME * PGSIZE);
    SpecialStays(p1, p2, s, 0, PagesFor(sz), s, tramp, tf);
    if !ok {
      NewProcessSelf(p, p2, mem.lo, s, tf);
      Freeproc(mem, s, 0, tf);
      NewProcessGone(p, p2, mem.P(), s, tf);
      return 0, 0;
    }
    forall a ensures View(p2, s, sz, a) == View(p2, r, sz, a) {
      CopySeesTheSame(p2, r, s, sz, a);
    }
  }

  lemma NewProcessSelf(p: Phys, p': Phys, lo: int, r: int, tf: int)
    requires NewProcess(p, p', r, tf) && KernelBelow(p.own, lo)
    ensures IsRoot(p', r) && lo <= tf < |p'.own| && p'.own[tf] == Kernel
  {
  }
}
