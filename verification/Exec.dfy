/**
 exec: a new image, a guarded stack and the argument vector, built in a fresh
 address space that replaces the old one or is given back whole.
 */
module Exec {
  import opened PageTable
  import opened PhysMem
  import opened Vm
  import opened VmFree
  import opened UserMemory
  import opened AddressSpace
  import opened ExecImage
  import opened ExecArgs

  /** Image, guard page and stack page, from address 0 up to sz. */
  ghost predicate NewImage(p: Phys, r: int, sz: int, segs: seq<Seg>) {
    && sz % PGSIZE == 0 && 2 * PGSIZE <= sz
    && (forall a :: 0 <= a < sz - 2 * PGSIZE ==> ByteIs(p, r, sz, a, Image(segs, |segs|, a)))
    && forall a :: sz - 2 * PGSIZE <= a < sz - PGSIZE ==> View(p, r, sz, a) == Denied
  }

  /** Image pages as their segments' flags say, a guard page that user code cannot use, and a stack page that it can
      read and write but not execute. */
  ghost predicate ImagePerms(tab: seq<Table>, r: int, sz: int, segs: seq<Seg>) {
    && PermsAre(tab, r, segs, |segs|)
    && var guard, stack := Lookup(tab, r, sz / PGSIZE - 2), Lookup(tab, r, sz / PGSIZE - 1);
       && guard.valid && !guard.perm.u
       && stack.valid && stack.perm.r && stack.perm.w && !stack.perm.x && stack.perm.u
  }

  lemma StackPerms(p: Phys, p1: Phys, p2: Phys, r: int, n: int, segs: seq<Seg>)
    requires 0 <= n <= TRAPFRAME - 2 && IsRoot(p, r) && IsRoot(p1, r) && n == PagesFor(Top(segs, |segs|))
    requires Within(p, p1, r, n, n + 2) && Filling(p1, r, n, n + 2, n + 2, ZERO_PAGE_PERM)
    requires ClosedPage(p1, p2, r, n) && PermsAre(p.tab, r, segs, |segs|)
    ensures ImagePerms(p2.tab, r, (n + 2) * PGSIZE, segs)
  {
    hide Lookup;
    assert FreshPage(p1, r, n, ZERO_PAGE_PERM, Bytes(0)) && FreshPage(p1, r, n + 1, ZERO_PAGE_PERM, Bytes(0));
    forall k: nat, v | k < |segs| && MadeFor(segs, k, v) ensures PermIs(p2.tab, r, v, segs[k].flags) {
      TopGrows(segs, k + 1, |segs|);
      assert PermIs(p.tab, r, v, segs[k].flags);
    }
  }

  lemma PermsStay(p: Phys, p': Phys, r: int, q: int, sz: int, segs: seq<Seg>)
    requires Released(p, p', r) && IsRoot(p, q) && q != r && ImagePerms(p.tab, q, sz, segs)
    requires Space(p, q, sz) && 2 * PGSIZE <= sz && PagesFor(Top(segs, |segs|)) <= sz / PGSIZE
    ensures ImagePerms(p'.tab, q, sz, segs)
  {
    hide Lookup;
    forall k: nat, v | k < |segs| && MadeFor(segs, k, v) ensures PermIs(p'.tab, q, v, segs[k].flags) {
      TopGrows(segs, k + 1, |segs|);
      assert PermIs(p.tab, q, v, segs[k].flags);
    }
  }

  lemma WholePages(n: int)
    requires 0 <= n
    ensures PagesFor(n * PGSIZE) == n && PagesFor(n * PGSIZE + 2 * PGSIZE) == n + 2
  {
  }

  lemma RoundedUp(p: Phys, r: int, sz: int)
    requires Space(p, r, sz) && sz <= (TRAPFRAME - 2) * PGSIZE
    ensures Space(p, r, PagesFor(sz) * PGSIZE) && PagesFor(sz) <= TRAPFRAME - 2
    ensures forall a :: View(p, r, PagesFor(sz) * PGSIZE, a) == View(p, r, sz, a)
  {
    PagesForBounds(sz);
    PagesForMonotone(sz, (TRAPFRAME - 2) * PGSIZE);
    WholePages(PagesFor(sz));
  }

  /** A byte after the two new pages have been added and the lower one closed. */
  lemma StackCell(p: Phys, p1: Phys, p2: Phys, r: int, n: int, a: int)
    requires GoodPhys(p) && GoodPhys(p1) && GoodPhys(p2) && 0 <= n <= TRAPFRAME - 2 && Space(p, r, n * PGSIZE)
    requires Within(p, p1, r, n, n + 2) && Filling(p1, r, n, n + 2, n + 2, ZERO_PAGE_PERM) && IsRoot(p1, r)
    requires ClosedPage(p1, p2, r, n) && 0 <= a < (n + 2) * PGSIZE
    ensures View(p2, r, (n + 2) * PGSIZE, a) ==
            if a < n * PGSIZE then View(p, r, n * PGSIZE, a)
            else if a < (n + 1) * PGSIZE then Denied else Byte(0, true, false)
  {
    WholePages(n);
    GrownCellOf(p, p1, r, n * PGSIZE, (n + 2) * PGSIZE, ZERO_PAGE_PERM, a);
    if a / PGSIZE == n {
      assert FreshPage(p1, r, n, ZERO_PAGE_PERM, Bytes(0));
    }
  }

  lemma StackMade(p: Phys, p1: Phys, p2: Phys, r: int, sz: int, segs: seq<Seg>)
    requires GoodPhys(p) && GoodPhys(p1) && GoodPhys(p2) && Loading(p, r, sz, segs, |segs|) && IsRoot(p1, r)
    requires var n := PagesFor(sz);
             Within(p, p1, r, n, n + 2) && Filling(p1, r, n, n + 2, n + 2, ZERO_PAGE_PERM) && ClosedPage(p1, p2, r, n)
    ensures var sz' := (PagesFor(sz) + 2) * PGSIZE;
            NewImage(p2, r, sz', segs) && StackOpen(p2, r, sz')
  {
    RoundedUp(p, r, sz);
    PagesForBounds(sz);
    var n := PagesFor(sz);
    var sz' := (n + 2) * PGSIZE;
    forall a | 0 <= a < sz'
      ensures View(p2, r, sz', a) ==
        if a < n * PGSIZE then View(p, r, sz, a) else if a < (n + 1) * PGSIZE then Denied else Byte(0, true, false)
    {
      StackCell(p, p1, p2, r, n, a);
    }
    forall a | 0 <= a < sz' - 2 * PGSIZE ensures ByteIs(p2, r, sz', a, Image(segs, |segs|, a)) {
      assert ByteIs(p, r, sz, a, Image(segs, |segs|, a));
    }
    StackPage(p1, p2, r, n);
  }

  lemma StackPage(p1: Phys, p2: Phys, r: int, n: int)
    requires 0 <= n <= TRAPFRAME - 2 && IsRoot(p1, r) && Filling(p1, r, n, n + 2, n + 2, ZERO_PAGE_PERM)
    requires ClosedPage(p1, p2, r, n)
    ensures OpenPage(p2.tab, r, (n + 2) * PGSIZE / PGSIZE - 1)
  {
    assert FreshPage(p1, r, n + 1, ZERO_PAGE_PERM, Bytes(0));
  }

  lemma StackSpace(p: Phys, p1: Phys, p2: Phys, r: int, n: int)
    requires Space(p, r, n * PGSIZE) && 0 <= n <= TRAPFRAME - 2
    requires Within(p, p1, r, n, n + 2) && ClosedPage(p1, p2, r, n)
    requires GoodPhys(p1) && IsRoot(p1, r) && Filling(p1, r, n, n + 2, n + 2, ZERO_PAGE_PERM)
    ensures Space(p2, r, (n + 2) * PGSIZE) && Within(p, p2, r, 0, TRAPFRAME)
  {
    WholePages(n);
    assert FreshPage(p1, r, n, ZERO_PAGE_PERM, Bytes(0));
    ClosedWithin(p1, p2, r, n);
    WithinRoot(p1, p2, r, n, n + 1, r);
    WithinWider(p1, p2, r, n, n + 1, 0, TRAPFRAME);
    WithinWider(p, p1, r, n, n + 2, 0, TRAPFRAME);
    WithinTransitive(p, p1, p2, r, 0, TRAPFRAME);
  }

  lemma FirstFilled(p: Phys, r: int, n: int)
    requires Filling(p, r, n, n + 2, n + 2, ZERO_PAGE_PERM)
    ensures Lookup(p.tab, r, n).valid
  {
    assert FreshPage(p, r, n, ZERO_PAGE_PERM, Bytes(0));
  }

  /** Two pages on top of the image, the lower one closed as a guard. */
  method MakeStack(mem: Frames, r: int, sz: int, ghost segs: seq<Seg>) returns (ok: bool, sz': int)
    requires mem.Valid() && Loading(mem.P(), r, sz, segs, |segs|)
    modifies mem
    ensures mem.Valid() && mem.base == old(mem.base)
    ensures Within(old(mem.P()), mem.P(), r, 0, TRAPFRAME) && Space(mem.P(), r, sz')
    ensures ok ==> NewImage(mem.P(), r, sz', segs) && StackOpen(mem.P(), r, sz') && 2 * PGSIZE <= sz'
    ensures ok ==> sz' == (PagesFor(sz) + 2) * PGSIZE
    ensures ok && PermsAre(old(mem.tab), r, segs, |segs|) && sz == Top(segs, |segs|) ==>
              ImagePerms(mem.tab, r, sz', segs)
    ensures !ok ==> |old(mem.free)| < 6
  {
    hide GoodPhys, Reached, OnList, FreeExactly, KernelBelow, Within, Filling, Loading, Lookup, LeavesBelow, IsRoot,
      NewImage, StackOpen, ClosedPage, FreshPage, PermsAre, ImagePerms;
    ghost var p := mem.P();
    LoadingMeans(p, r, sz, segs, |segs|);
    RoundedUp(p, r, sz);
    PagesForBounds(sz);
    var n := PagesFor(sz);
    WholePages(n);
    CanGrow(p, r, n * PGSIZE, n * PGSIZE + 2 * PGSIZE);
    ghost var done;
    sz', done := Uvmalloc(mem, r, n * PGSIZE, n * PGSIZE + 2 * PGSIZE, true, false);
    ghost var p1 := mem.P();
    if sz' == 0 {
      NotGrownSpace(p, p1, r, n * PGSIZE, n * PGSIZE + 2 * PGSIZE, ZERO_PAGE_PERM);
      WithinAnywhere(p, p1, r, n * PGSIZE, n * PGSIZE + 2 * PGSIZE);
      return false, n * PGSIZE;
    }
    FirstFilled(p1, r, n);
    Uvmclear(mem, r, n);
    StackMade(p, p1, mem.P(), r, sz, segs);
    StackSpace(p, p1, mem.P(), r, n);
    if PermsAre(p.tab, r, segs, |segs|) && sz == Top(segs, |segs|) {
      StackPerms(p, p1, mem.P(), r, n, segs);
    }
    ok := true;
  }

  // ---------------------------------------------------------------- swapping address spaces

  /** The frames of r are free and some free frames have gone to r'; nothing else has changed. */
  ghost predicate Swapped(p: Phys, p': Phys, r: int, r': int) {
    && |p'.own| == |p.own| == |p.data| == |p'.data|
    && 0 <= r' < |p.own| && p.own[r'] == Free && IsRoot(p', r')
    && (forall g :: 0 <= g < |p.own| ==> SwappedFrame(p, p', r, r', g))
    && forall q, w :: IsRoot(p, q) && q != r && 0 <= w < PAGES ==> Lookup(p'.tab, q, w) == Lookup(p.tab, q, w)
  }

  ghost predicate SwappedFrame(p: Phys, p': Phys, r: int, r': int, g: int)
    requires 0 <= g < |p'.own| == |p.own| == |p.data| == |p'.data|
  {
    if Belongs(p.own[g], r, g) then p'.own[g] == Free else BuildingFrame(p, p', r', g)
  }

  lemma BuildThenSwap(p: Phys, p1: Phys, p2: Phys, r: int, r': int)
    requires IsRoot(p, r) && Building(p, p1, r') && Released(p1, p2, r)
    ensures Swapped(p, p2, r, r') && r != r'
  {
    assert ReleasedFrame(p1, p2, r, r');
    forall g | 0 <= g < |p.own| ensures SwappedFrame(p, p2, r, r', g) {
      assert BuildingFrame(p, p1, r', g) && ReleasedFrame(p1, p2, r, g);
    }
    forall q, w | IsRoot(p, q) && q != r && 0 <= w < PAGES ensures Lookup(p2.tab, q, w) == Lookup(p.tab, q, w) {
      assert BuildingFrame(p, p1, r', q);
    }
  }

  lemma BuildingKeepsSpace(p: Phys, p': Phys, r': int, q: int, sz: int)
    requires Building(p, p', r') && Space(p, q, sz)
    ensures Space(p', q, sz)
  {
    assert BuildingFrame(p, p', r', q);
  }

  /** Freeing another address space cannot be seen. */
  lemma ReleasedSameView(p: Phys, p': Phys, r: int, q: int, sz: int)
    requires GoodPhys(p) && GoodPhys(p') && IsRoot(p, q) && q != r && Released(p, p', r)
    ensures IsRoot(p', q) && SameView(p, p', q, sz)
  {
    assert ReleasedFrame(p, p', r, q);
    forall a ensures View(p', q, sz, a) == View(p, q, sz, a) {
      if 0 <= a / PGSIZE < PAGES {
        UserFrame(p, q, a / PGSIZE);
        var e := Lookup(p.tab, q, a / PGSIZE);
        assert e.valid && e.perm.u ==> ReleasedFrame(p, p', r, e.frame);
      }
    }
  }

  lemma SameViewSameImage(p: Phys, p': Phys, r: int, sz: int, segs: seq<Seg>, argv: seq<seq<int>>, sp: int)
    requires SameView(p, p', r, sz) && NewImage(p, r, sz, segs) && ArgvAt(p, r, sz, argv, sp)
    ensures NewImage(p', r, sz, segs) && ArgvAt(p', r, sz, argv, sp)
  {
    forall a | 0 <= a < sz - 2 * PGSIZE ensures ByteIs(p', r, sz, a, Image(segs, |segs|, a)) {
      assert ByteIs(p, r, sz, a, Image(segs, |segs|, a));
    }
    forall j | 0 <= j < |argv| ensures ArgAt(p', r, sz, argv, j) {
      assert ArgAt(p, r, sz, argv, j);
    }
  }

  /** Pushing arguments touches only the stack page. */
  lemma ArgsKeepImage(p: Phys, p': Phys, r: int, sz: int, segs: seq<Seg>)
    requires NewImage(p, r, sz, segs) && OnlyStack(p, p', r, sz)
    ensures NewImage(p', r, sz, segs)
  {
    forall a | 0 <= a < sz - 2 * PGSIZE ensures ByteIs(p', r, sz, a, Image(segs, |segs|, a)) {
      assert ByteIs(p, r, sz, a, Image(segs, |segs|, a));
    }
  }

  lemma ReleasedKeepsSpace(p: Phys, p': Phys, r: int, q: int, sz: int)
    requires Released(p, p', r) && Space(p, q, sz) && q != r
    ensures Space(p', q, sz)
  {
    assert ReleasedFrame(p, p', r, q);
  }

  /** The size of the image with its stack, and frames that are enough for it: three for every page. */
  function StackTop(segs: seq<Seg>): int { (PagesFor(Top(segs, |segs|)) + 2) * PGSIZE }

  function ImageFrames(segs: seq<Seg>): int { 3 * (PagesFor(Top(segs, |segs|)) + 2) }

  /** Strings and pointers fit into the stack page. */
  predicate ArgsFit(argv: seq<seq<int>>, sz: int) { ArrayAt(argv, sz) >= sz - PGSIZE }

  /** The new image complete, up to the point where exec commits to it. */
  method BuildImage(mem: Frames, r: int, segs: seq<Seg>, argv: seq<seq<int>>) returns (ok: bool, sz: int, sp: int)
    requires mem.Valid() && Space(mem.P(), r, 0) && GoodArgs(argv) && forall i :: 0 <= i < |segs| ==> Header(segs[i])
    modifies mem
    ensures mem.Valid() && mem.base == old(mem.base)
    ensures Within(old(mem.P()), mem.P(), r, 0, TRAPFRAME) && Space(mem.P(), r, sz)
    ensures ok ==> NewImage(mem.P(), r, sz, segs) && ArgvAt(mem.P(), r, sz, argv, sp)
    ensures ok ==> ImagePerms(mem.tab, r, sz, segs)
    ensures ok ==> forall i :: 0 <= i < |segs| ==> Loadable(segs[i]) && Fits(segs[i])
    ensures ok ==> sz == StackTop(segs) && !Refused(segs) && ArgsFit(argv, sz)
    ensures !ok ==> Refused(segs) || !ArgsFit(argv, StackTop(segs)) || |old(mem.free)| < ImageFrames(segs)
  {
    hide GoodPhys, Reached, OnList, FreeExactly, KernelBelow, Within, Loading, LeavesBelow, IsRoot, NewImage, StackOpen,
      OnlyStack, ArgvAt, Refused, ArrayAt, PagesFor, PermsAre, ImagePerms;
    ghost var p0 := mem.P();
    sp := 0;
    ok, sz := LoadImage(mem, r, segs);
    if !ok {
      return;
    }
    ghost var p1 := mem.P();
    ok, sz := MakeStack(mem, r, sz, segs);
    ghost var p2 := mem.P();
    WithinTransitive(p0, p1, p2, r, 0, TRAPFRAME);
    if !ok {
      return;
    }
    ok, sp := PushArgs(mem, r, sz, argv);
    WithinTransitive(p0, p2, mem.P(), r, 0, TRAPFRAME);
    if ok {
      ArgsKeepImage(p2, mem.P(), r, sz, segs);
    }
  }

  /** kexec, from the point where the program has been opened: either the process runs the new image and
      every frame of the old one is free, or nothing has changed. */
  method Kexec(mem: Frames, r: int, oldsz: int, tramp: int, tf: int, segs: seq<Seg>, argv: seq<seq<int>>)
    returns (ok: bool, r': int, sz: int, sp: int)
    requires mem.Valid() && Space(mem.P(), r, oldsz) && 0 <= tramp < mem.hi && 0 <= tf < mem.hi
    requires GoodArgs(argv) && forall i :: 0 <= i < |segs| ==> Header(segs[i])
    modifies mem
    ensures mem.Valid() && mem.base == old(mem.base)
    ensures !ok ==> Restored(old(mem.P()), mem.P())
    ensures ok ==> r' != r && Swapped(old(mem.P()), mem.P(), r, r') && Space(mem.P(), r', sz)
    ensures ok ==> NewImage(mem.P(), r', sz, segs) && ArgvAt(mem.P(), r', sz, argv, sp)
    ensures ok ==> ImagePerms(mem.tab, r', sz, segs) && SpecialPages(mem.tab, r', tramp, tf)
    ensures ok ==> forall i :: 0 <= i < |segs| ==> Loadable(segs[i]) && Fits(segs[i])
    ensures ok ==> sz == StackTop(segs) && !Refused(segs) && ArgsFit(argv, sz)
    ensures !ok ==> Refused(segs) || !ArgsFit(argv, StackTop(segs)) || |old(mem.free)| < 5 + ImageFrames(segs)
  {
    hide GoodPhys, Reached, OnList, FreeExactly, KernelBelow, Within, Building, Restored, Released, Swapped,
      LeavesBelow, NewImage, ArgvAt, OnlySpecial, SameView, Refused, ArgsFit, PagesFor, ImagePerms, SpecialPages;
    TopPages(segs);
    ghost var p0 := mem.P();
    sz, sp := 0, 0;
    r' := ProcPagetable(mem, tramp, tf);
    if r' == 0 {
      return false, 0, 0, 0;
    }
    ghost var p1 := mem.P();
    BuildingRoot(p0, p1, r');
    ok, sz, sp := BuildImage(mem, r', segs, argv);
    ghost var p2 := mem.P();
    BuildingWithin(p0, p1, p2, r', 0, TRAPFRAME);
    SpecialStays(p1, p2, r', 0, TRAPFRAME, r', tramp, tf);
    if !ok {
      ProcFreepagetable(mem, r', sz);
      BuildingReleased(p0, p2, mem.P(), r');
      return false, 0, 0, 0;
    }
    BuildingKeepsSpace(p0, p2, r', r, oldsz);
    ProcFreepagetable(mem, r, oldsz);
    BuildThenSwap(p0, p2, mem.P(), r, r');
    ReleasedSameView(p2, mem.P(), r, r', sz);
    ReleasedKeepsSpace(p2, mem.P(), r, r', sz);
    SameViewSameImage(p2, mem.P(), r', sz, segs, argv, sp);
    PermsStay(p2, mem.P(), r, r', sz, segs);
    SpecialKept(p2, mem.P(), r, r', tramp, tf);
  }

  lemma SpecialKept(p: Phys, p': Phys, r: int, q: int, tramp: int, tf: int)
    requires Released(p, p', r) && IsRoot(p, q) && q != r && SpecialPages(p.tab, q, tramp, tf)
    ensures SpecialPages(p'.tab, q, tramp, tf)
  {
  }

  lemma TopPages(segs: seq<Seg>)
    requires forall i :: 0 <= i < |segs| ==> Header(segs[i])
    ensures 0 <= PagesFor(Top(segs, |segs|))
  {
    TopNat(segs, |segs|);
  }

  lemma {:induction false} TopNat(segs: seq<Seg>, n: nat)
    requires n <= |segs| && forall i :: 0 <= i < |segs| ==> Header(segs[i])
    ensures 0 <= Top(segs, n)
  {
    if n > 0 {
      TopNat(segs, n - 1);
    }
  }

  lemma BuildingRoot(p: Phys, p': Phys, r: int)
    requires Building(p, p', r)
    ensures IsRoot(p', r)
  {
  }
}
