/**
 The page-table code of the kernel: walking, mapping, unmapping, growing,
 shrinking, copying and freeing address spaces, and moving bytes between the
 kernel and user memory.

 An address space is named by the frame of its root table. A panic of the
 source is a precondition here, and the callers below show that it is met.
 */
module Vm {
  import opened PageTable
  import opened Counting
  import opened PhysMem

  ghost function M(p: Phys): Mem { Mem(p.tab, p.own) }

  ghost predicate IsRoot(p: Phys, r: int) { Owned(M(p), r, Root) }

  // ---------------------------------------------------------------- walk

  /** The table index that a page number selects at a level. */
  function Px(level: int, v: int): int
    requires 0 <= level <= 2 && 0 <= v
  {
    if level == 2 then v / PTES / PTES % PTES else if level == 1 then v / PTES % PTES else v % PTES
  }

  /** The table that walking page v of r has reached at a level. */
  ghost predicate AtLevel(p: Phys, r: int, v: int, level: int, t: int) {
    && 0 <= level <= 2
    && Owned(M(p), t, if level == 2 then Root else if level == 1 then Mid(r, v / PTES / PTES) else Low(r, v / PTES))
    && (level == 2 ==> t == r)
  }

  /** No page has changed in any address space; free frames may have become tables of r. */
  ghost predicate OnlyTables(p: Phys, p': Phys, r: int) {
    && |p'.own| == |p.own| == |p.data| == |p'.data|
    && SameMaps(M(p), M(p'))
    && forall g :: 0 <= g < |p.own| ==> TableGrowth(p, p', r, g)
  }

  ghost predicate TableGrowth(p: Phys, p': Phys, r: int, g: int)
    requires 0 <= g < |p'.own| == |p.own| == |p.data| == |p'.data|
  {
    if p.own[g] == Free then p'.own[g] == Free || (TableOf(M(p'), r, g) && p'.own[g] != Root)
    else p'.own[g] == p.own[g] && p'.data[g] == p.data[g]
  }

  lemma OnlyTablesTransitive(p: Phys, p1: Phys, p2: Phys, r: int)
    requires OnlyTables(p, p1, r) && OnlyTables(p1, p2, r)
    ensures OnlyTables(p, p2, r)
  {
    forall q, v | Owned(M(p), q, Root) && 0 <= v < PAGES ensures Lookup(p2.tab, q, v) == Lookup(p.tab, q, v) {
      assert TableGrowth(p, p1, r, q);
      assert Owned(M(p1), q, Root);
    }
    forall g | 0 <= g < |p.own| ensures TableGrowth(p, p2, r, g) {
      assert TableGrowth(p, p1, r, g) && TableGrowth(p1, p2, r, g);
    }
  }

  /** The walk's next table, when the entry is valid. */
  lemma Descend(p: Phys, r: int, v: int, level: int, t: int)
    requires GoodPhys(p) && AtLevel(p, r, v, level, t) && level > 0 && 0 <= v < PAGES
    ensures 0 <= t < |p.tab| && |p.tab[t]| == PTES && IsRoot(p, r)
    ensures var e := p.tab[t][Px(level, v)];
            e.valid ==> AtLevel(p, r, v, level - 1, e.frame)
    ensures level == 1 ==> LowPte(p.tab, r, v / PTES) == p.tab[t][Px(1, v)]
    ensures level == 2 ==> Entry(p.tab, r, v / PTES / PTES) == p.tab[t][Px(2, v)]
  {
    assert FrameOk(M(p), t);
    if p.tab[t][Px(level, v)].valid {
      if level == 2 {
        MidTable(M(p), r, v / PTES / PTES);
      } else {
        LowTable(M(p), r, v / PTES);
      }
    }
  }

  /** A fresh zeroed frame hung into the tree where the walk found nothing. */
  lemma Hang(p: Phys, r: int, v: int, level: int, t: int, f: int)
    requires GoodPhys(p) && AtLevel(p, r, v, level, t) && level > 0 && 0 <= v < PAGES
    requires Owned(M(p), f, Kernel) && Empty(p.tab[f]) && |p.tab[t]| == PTES && !p.tab[t][Px(level, v)].valid
    ensures var u := if level == 2 then Mid(r, v / PTES / PTES) else Low(r, v / PTES);
            var m' := Filled(M(p), t, Px(level, v), TablePte(f), f, u);
            var p' := Phys(m'.tab, m'.own, p.data);
            GoodPhys(p') && SameMaps(M(p), m') && AtLevel(p', r, v, level - 1, f)
  {
    assert FrameOk(M(p), t);
    if level == 2 {
      AddMid(M(p), r, v / PTES / PTES, f);
      AddMidSameMaps(M(p), r, v / PTES / PTES, f);
    } else {
      AddLow(M(p), r, v / PTES, t, f);
      AddLowSameMaps(M(p), r, v / PTES, t, f);
    }
  }

  /** One kalloc, zeroing and hanging, seen as a whole. */
  lemma HangGrows(p: Phys, p1: Phys, p2: Phys, p3: Phys, r: int, v: int, level: int, t: int, f: int)
    requires GoodPhys(p) && AtLevel(p, r, v, level, t) && level > 0 && 0 <= v < PAGES
    requires 0 <= f < |p.own| && p.own[f] == Free && 0 <= t < |p.tab|
    requires |p.tab[t]| == PTES && !p.tab[t][Px(level, v)].valid
    requires p1 == Phys(p.tab[f := JunkTable(5)], p.own[f := Kernel], p.data[f := Bytes(5)])
    requires p2 == Phys(p1.tab[f := ZeroTable()], p1.own, p1.data[f := Bytes(0)]) && GoodPhys(p2)
    requires p3 == Phys(Put(p2.tab, t, Px(level, v), TablePte(f)),
                        p2.own[f := if level == 2 then Mid(r, v / PTES / PTES) else Low(r, v / PTES)], p2.data)
    ensures GoodPhys(p3) && OnlyTables(p, p3, r) && AtLevel(p3, r, v, level - 1, f)
  {
    assert p2.tab == p.tab[f := ZeroTable()];
    LooseFrame(M(p), f, ZeroTable(), Kernel);
    assert SameMaps(M(p), M(p2));
    Hang(p2, r, v, level, t, f);
    SameMapsTransitive(p, p2, p3);
    forall g | 0 <= g < |p.own| ensures TableGrowth(p, p3, r, g) {
    }
  }

  lemma HangReached(p0: Phys, p: Phys, p': Phys, r: int, v: int, level: int, t: int, f: int)
    requires GoodPhys(p) && Reached(p0, p) && AtLevel(p, r, v, level, t) && level > 0 && 0 <= v < PAGES
    requires Owned(M(p), f, Kernel) && Empty(p.tab[f]) && |p.tab[t]| == PTES && !p.tab[t][Px(level, v)].valid
    requires p' == Phys(Put(p.tab, t, Px(level, v), TablePte(f)),
                        p.own[f := if level == 2 then Mid(r, v / PTES / PTES) else Low(r, v / PTES)], p.data)
    ensures Reached(p0, p')
  {
    hide Reached;
    if level == 2 {
      ReachedMore(p0, p, p', HangMid(r, v / PTES / PTES, f));
    } else {
      ReachedMore(p0, p, p', HangLow(r, v / PTES, t, f));
    }
  }

  lemma SameMapsTransitive(p: Phys, p1: Phys, p2: Phys)
    requires SameMaps(M(p), M(p1)) && SameMaps(M(p1), M(p2))
    requires forall q :: Owned(M(p), q, Root) ==> Owned(M(p1), q, Root)
    ensures SameMaps(M(p), M(p2))
  {
  }

  lemma OnlyTablesReflexive(p: Phys, r: int)
    requires GoodPhys(p)
    ensures OnlyTables(p, p, r)
  {
  }

  lemma GoodShape(p: Phys)
    requires GoodPhys(p)
    ensures |p.tab| == |p.own| == |p.data|
    ensures forall f :: 0 <= f < |p.tab| ==> |p.tab[f]| == PTES
    ensures forall f :: 0 <= f < |p.data| ==> |p.data[f]| == PGSIZE
  {
  }

  /** walk: the low table of page v, creating missing tables when asked to, or 0. */
  method Walk(mem: Frames, r: int, v: int, alloc: bool) returns (t: int)
    requires mem.Valid() && IsRoot(mem.P(), r) && 0 <= v < PAGES
    modifies mem
    ensures mem.Valid() && mem.base == old(mem.base) && OnlyTables(old(mem.P()), mem.P(), r)
    ensures t != 0 ==> AtLevel(mem.P(), r, v, 0, t)
    ensures t == 0 && alloc ==> mem.free == [] && |old(mem.free)| <= 1
    ensures |old(mem.free)| - 2 <= |mem.free| <= |old(mem.free)|
    ensures !alloc ==> mem.P() == old(mem.P()) && mem.free == old(mem.free)
    ensures !alloc && t == 0 ==> !LowPte(mem.tab, r, v / PTES).valid
  {
    hide GoodPhys, Reached, OnList, OnlyTables, FreeExactly, LowPte;
    ghost var p0 := mem.P();
    OnlyTablesReflexive(p0, r);
    t := r;
    var level := 2;
    while level > 0
      invariant 0 <= level <= 2 && mem.Valid() && mem.base == old(mem.base) && AtLevel(mem.P(), r, v, level, t)
      invariant OnlyTables(p0, mem.P(), r) && |old(mem.free)| - (2 - level) <= |mem.free| <= |old(mem.free)|
      invariant !alloc ==> mem.P() == p0 && mem.free == old(mem.free)
      invariant !alloc && level == 1 ==> Entry(mem.tab, r, v / PTES / PTES).valid
    {
      ghost var p := mem.P();
      Descend(p, r, v, level, t);
      GoodShape(p);
      var pte := mem.tab[t][Px(level, v)];
      if pte.valid {
        t := pte.frame;
      } else {
        if !alloc {
          NoLowTable(mem.tab, r, v / PTES);
          return 0;
        }
        var f := mem.Kalloc();
        if f == 0 {
          return 0;
        }
        ghost var p1 := mem.P();
        mem.Zero(f);
        ghost var p2 := mem.P();
        GoodShape(p2);
        FreeExactlyUse(mem.own, mem.free, f, if level == 2 then Mid(r, v / PTES / PTES) else Low(r, v / PTES));
        mem.tab := Put(mem.tab, t, Px(level, v), TablePte(f));
        mem.own := mem.own[f := if level == 2 then Mid(r, v / PTES / PTES) else Low(r, v / PTES)];
        HangGrows(p, p1, p2, mem.P(), r, v, level, t, f);
        HangReached(mem.base, p2, mem.P(), r, v, level, t, f);
        OnlyTablesTransitive(p0, p, mem.P(), r);
        t := f;
      }
      level := level - 1;
    }
    assert t >= mem.lo;
  }

  lemma NoLowTable(tab: seq<Table>, r: int, k: int)
    requires !Entry(tab, r, k / PTES).valid || !LowPte(tab, r, k).valid
    ensures !LowPte(tab, r, k).valid
  {
  }

  lemma FreeExactlyUse(own: seq<Use>, free: seq<int>, f: int, u: Use)
    requires FreeExactly(own, free) && 0 <= f < |own| && own[f] != Free && u != Free
    ensures FreeExactly(own[f := u], free)
  {
  }

  // ---------------------------------------------------------------- mappages

  /** After n pages from v on have been mapped to the frames from f on. */
  ghost predicate Mapped(p: Phys, p': Phys, r: int, v: int, f: int, perm: Perm, n: int) {
    && |p'.own| == |p.own| == |p.data| == |p'.data|
    && (forall q, w :: IsRoot(p, q) && 0 <= w < PAGES ==>
          Lookup(p'.tab, q, w) ==
            if q == r && v <= w < v + n then Pte(true, f + (w - v), perm) else Lookup(p.tab, q, w))
    && forall g :: 0 <= g < |p.own| ==> MapGrowth(p, p', r, v, f, n, g)
  }

  /** A mapped frame now belongs to its page, with its contents; any other frame at most became a table. */
  ghost predicate MapGrowth(p: Phys, p': Phys, r: int, v: int, f: int, n: int, g: int)
    requires 0 <= g < |p'.own| == |p.own| == |p.data| == |p'.data|
  {
    if f <= g < f + n && !Special(v + (g - f)) then
      p.own[g] == Kernel && p'.own[g] == User(r, v + (g - f)) && p'.data[g] == p.data[g]
    else TableGrowth(p, p', r, g)
  }

  lemma MapNone(p: Phys, r: int, v: int, f: int, perm: Perm)
    requires GoodPhys(p)
    ensures Mapped(p, p, r, v, f, perm, 0)
  {
  }

  /** Walking in between changes no page. */
  lemma MapThenWalk(p: Phys, p1: Phys, p2: Phys, r: int, v: int, f: int, perm: Perm, n: int)
    requires Mapped(p, p1, r, v, f, perm, n) && OnlyTables(p1, p2, r)
    ensures Mapped(p, p2, r, v, f, perm, n)
  {
    forall q, w | IsRoot(p, q) && 0 <= w < PAGES ensures Lookup(p2.tab, q, w) == Lookup(p1.tab, q, w) {
      RootStays(p, p1, r, v, f, perm, n, q);
    }
    forall g | 0 <= g < |p.own| ensures MapGrowth(p, p2, r, v, f, n, g) {
      assert MapGrowth(p, p1, r, v, f, n, g) && TableGrowth(p1, p2, r, g);
    }
  }

  lemma RootStays(p: Phys, p': Phys, r: int, v: int, f: int, perm: Perm, n: int, q: int)
    requires Mapped(p, p', r, v, f, perm, n) && IsRoot(p, q)
    ensures IsRoot(p', q)
  {
    assert MapGrowth(p, p', r, v, f, n, q);
  }

  /** The frames to map are in the kernel's hands, except under the two shared pages, which are not for user code. */
  ghost predicate InHand(p: Phys, lo: int, v: int, f: int, n: int, perm: Perm) {
    && 0 <= f && f + n <= |p.own|
    && forall g :: f <= g < f + n ==> InHandAt(p, lo, v, f, g, perm)
  }

  predicate InHandAt(p: Phys, lo: int, v: int, f: int, g: int, perm: Perm) {
    0 <= g < |p.own| && if Special(v + (g - f)) then !perm.u else lo <= g && p.own[g] == Kernel
  }

  lemma InHandPrefix(p: Phys, lo: int, v: int, f: int, n: int, m: int, perm: Perm)
    requires InHand(p, lo, v, f, n, perm) && 0 <= m <= n
    ensures InHand(p, lo, v, f, m, perm)
  {
  }

  /** A special page needs nothing in hand. */
  lemma InHandSpecial(p: Phys, lo: int, v: int, f: int, perm: Perm)
    requires Special(v) && 0 <= f < |p.own| && !perm.u
    ensures InHand(p, lo, v, f, 1, perm)
  {
  }

  lemma InHandOne(p: Phys, lo: int, v: int, f: int, perm: Perm)
    requires !Special(v) && 0 <= f < |p.own| && lo <= f && p.own[f] == Kernel
    ensures InHand(p, lo, v, f, 1, perm)
  {
  }

  /** A frame about to be mapped keeps the allocator's books right. */
  lemma UseKeepsBooks(p: Phys, p1: Phys, lo: int, r: int, v: int, f: int, perm: Perm, n: int, free: seq<int>)
    requires Mapped(p, p1, r, v, f, perm, n) && 0 <= n && InHand(p, lo, v, f, n + 1, perm)
    requires FreeExactly(p1.own, free) && KernelBelow(p1.own, lo)
    ensures var own' := p1.own[f + n := MappedUse(M(p1), r, v + n, f + n)];
            FreeExactly(own', free) && KernelBelow(own', lo)
  {
    assert InHandAt(p, lo, v, f, f + n, perm);
    assert MapGrowth(p, p1, r, v, f, n, f + n);
  }

  /** Setting one leaf maps one more page. */
  lemma MapStep(p: Phys, p1: Phys, p2: Phys, lo: int, r: int, v: int, f: int, perm: Perm, n: int, t: int)
    requires Mapped(p, p1, r, v, f, perm, n) && GoodPhys(p1) && IsRoot(p, r)
    requires 0 <= n && 0 <= v && v + n < PAGES && InHand(p, lo, v, f, n + 1, perm) && IsLeaf(Pte(true, f, perm))
    requires AtLevel(p1, r, v + n, 0, t) && !Lookup(p.tab, r, v + n).valid
    requires |p1.tab[t]| == PTES
    requires p2 == Phys(Put(p1.tab, t, (v + n) % PTES, Pte(true, f + n, perm)),
                        p1.own[f + n := MappedUse(M(p1), r, v + n, f + n)], p1.data)
    ensures GoodPhys(p2) && Mapped(p, p2, r, v, f, perm, n + 1)
    ensures !p1.tab[t][(v + n) % PTES].valid
  {
    var w0, g0 := v + n, f + n;
    LookupIsEntry(M(p1), r, w0, t);
    assert InHandAt(p, lo, v, f, g0, perm);
    assert MapGrowth(p, p1, r, v, f, n, g0);
    SetLeaf(M(p1), r, w0, t, g0, perm);
    forall q, w | IsRoot(p, q) && 0 <= w < PAGES
      ensures Lookup(p2.tab, q, w) ==
              if q == r && v <= w < v + (n + 1) then Pte(true, f + (w - v), perm) else Lookup(p.tab, q, w)
    {
      RootStays(p, p1, r, v, f, perm, n, q);
      LookupOfPut(M(p1), r, w0, t, Pte(true, g0, perm), q, w);
    }
    var more := n + 1;
    forall g | 0 <= g < |p.own| ensures MapGrowth(p, p2, r, v, f, more, g) {
      assert MapGrowth(p, p1, r, v, f, n, g);
    }
  }

  lemma MapReached(p0: Phys, p: Phys, p1: Phys, lo: int, r: int, v: int, f: int, perm: Perm, n: int, t: int)
    requires Mapped(p, p1, r, v, f, perm, n) && GoodPhys(p1) && Reached(p0, p1)
    requires 0 <= n && 0 <= v && v + n < PAGES && InHand(p, lo, v, f, n + 1, perm) && IsLeaf(Pte(true, f, perm))
    requires AtLevel(p1, r, v + n, 0, t) && |p1.tab[t]| == PTES && !p1.tab[t][(v + n) % PTES].valid
    ensures 0 <= f + n < |p1.own|
    ensures Reached(p0, Phys(Put(p1.tab, t, (v + n) % PTES, Pte(true, f + n, perm)),
                             p1.own[f + n := MappedUse(M(p1), r, v + n, f + n)], p1.data))
  {
    hide Reached;
    var w0, g0 := v + n, f + n;
    assert InHandAt(p, lo, v, f, g0, perm);
    assert MapGrowth(p, p1, r, v, f, n, g0);
    ReachedMore(p0, p1, Phys(Put(p1.tab, t, w0 % PTES, Pte(true, g0, perm)),
                             p1.own[g0 := MappedUse(M(p1), r, w0, g0)], p1.data), MapLeaf(r, w0, t, g0, perm));
  }

  /** mappages: n pages from v on to the frames from f on. It stops where walk finds no memory for a table. */
  method Mappages(mem: Frames, r: int, v: int, n: int, f: int, perm: Perm) returns (ok: bool, ghost done: int)
    requires mem.Valid() && IsRoot(mem.P(), r)
    requires 0 < n && 0 <= v && v + n <= PAGES && InHand(mem.P(), mem.lo, v, f, n, perm) && IsLeaf(Pte(true, f, perm))
    requires forall w :: v <= w < v + n ==> !Lookup(mem.tab, r, w).valid
    modifies mem
    ensures mem.Valid() && mem.base == old(mem.base) && IsRoot(mem.P(), r)
    ensures 0 <= done <= n && (ok <==> done == n) && (!ok ==> mem.free == [])
    ensures |old(mem.free)| - 2 * n <= |mem.free| <= |old(mem.free)| && (!ok ==> |old(mem.free)| < 2 * n)
    ensures Mapped(old(mem.P()), mem.P(), r, v, f, perm, done)
  {
    hide GoodPhys, Reached, OnList, FreeExactly, KernelBelow, Mapped, Lookup, OnlyTables, InHand, MappedUse;
    ghost var p0 := mem.P();
    MapNone(p0, r, v, f, perm);
    var i := 0;
    while true
      invariant 0 <= i < n && mem.Valid() && mem.base == old(mem.base) && Mapped(p0, mem.P(), r, v, f, perm, i)
      invariant |old(mem.free)| - 2 * i <= |mem.free| <= |old(mem.free)|
      decreases n - i
    {
      ghost var p := mem.P();
      RootStays(p0, p, r, v, f, perm, i, r);
      var t := Walk(mem, r, v + i, true);
      ghost var p1 := mem.P();
      MapThenWalk(p0, p, p1, r, v, f, perm, i);
      RootStays(p0, p1, r, v, f, perm, i, r);
      if t == 0 {
        return false, i;
      }
      GoodShape(p1);
      InHandPrefix(p0, mem.lo, v, f, n, i + 1, perm);
      MapStep(p0, p1, Phys(Put(p1.tab, t, (v + i) % PTES, Pte(true, f + i, perm)),
                           p1.own[f + i := MappedUse(M(p1), r, v + i, f + i)], p1.data), mem.lo, r, v, f, perm, i, t);
      UseKeepsBooks(p0, p1, mem.lo, r, v, f, perm, i, mem.free);
      MapReached(mem.base, p0, p1, mem.lo, r, v, f, perm, i, t);
      mem.own := mem.own[f + i := MappedUse(M(p1), r, v + i, f + i)];
      mem.tab := Put(mem.tab, t, (v + i) % PTES, Pte(true, f + i, perm));
      if i == n - 1 {
        break;
      }
      i := i + 1;
    }
    RootStays(p0, mem.P(), r, v, f, perm, n, r);
    return true, n;
  }

  // ---------------------------------------------------------------- looking up

  /** walkaddr: the frame of a page that user code may access, or 0. */
  method Walkaddr(mem: Frames, r: int, v: int) returns (f: int)
    requires mem.Valid() && IsRoot(mem.P(), r) && 0 <= v
    ensures v >= PAGES ==> f == 0
    ensures v < PAGES ==> var e := Lookup(mem.tab, r, v);
              f == if e.valid && e.perm.u then e.frame else 0
  {
    hide GoodPhys, Reached, OnList, FreeExactly, KernelBelow;
    if v >= PAGES {
      return 0;
    }
    var t := Find(mem, r, v);
    if t == 0 {
      return 0;
    }
    FoundEntry(mem.P(), r, v, t);
    var pte := mem.tab[t][v % PTES];
    if !pte.valid || !pte.perm.u {
      return 0;
    }
    f := pte.frame;
  }

  /** walk without creating tables only reads. */
  method Find(mem: Frames, r: int, v: int) returns (t: int)
    requires mem.Valid() && IsRoot(mem.P(), r) && 0 <= v < PAGES
    ensures t != 0 ==> AtLevel(mem.P(), r, v, 0, t)
    ensures t == 0 ==> !LowPte(mem.tab, r, v / PTES).valid
  {
    hide GoodPhys, Reached, OnList, FreeExactly, LowPte;
    t := r;
    var level := 2;
    while level > 0
      invariant 0 <= level <= 2 && AtLevel(mem.P(), r, v, level, t)
      invariant level == 1 ==> Entry(mem.tab, r, v / PTES / PTES).valid
    {
      Descend(mem.P(), r, v, level, t);
      var pte := mem.tab[t][Px(level, v)];
      if !pte.valid {
        NoLowTable(mem.tab, r, v / PTES);
        return 0;
      }
      t := pte.frame;
      level := level - 1;
    }
    assert t >= mem.lo;
  }

  lemma FoundEntry(p: Phys, r: int, v: int, t: int)
    requires GoodPhys(p) && AtLevel(p, r, v, 0, t) && 0 <= v < PAGES
    ensures 0 <= t < |p.tab| && |p.tab[t]| == PTES && Lookup(p.tab, r, v) == p.tab[t][v % PTES]
  {
    LookupIsEntry(M(p), r, v, t);
  }

  /** ismapped. */
  method Ismapped(mem: Frames, r: int, v: int) returns (b: bool)
    requires mem.Valid() && IsRoot(mem.P(), r) && 0 <= v < PAGES
    ensures b <==> Lookup(mem.tab, r, v).valid
  {
    hide GoodPhys, Reached, OnList, FreeExactly, KernelBelow;
    var t := Find(mem, r, v);
    if t == 0 {
      return false;
    }
    FoundEntry(mem.P(), r, v, t);
    b := mem.tab[t][v % PTES].valid;
  }

  // ---------------------------------------------------------------- uvmunmap

  /** After n pages from v on have been unmapped. */
  ghost predicate Unmapped(p: Phys, p': Phys, r: int, v: int, n: int) {
    && |p'.own| == |p.own| == |p.data| == |p'.data|
    && (forall q, w :: IsRoot(p, q) && 0 <= w < PAGES ==>
          if q == r && v <= w < v + n then !Lookup(p'.tab, q, w).valid else Lookup(p'.tab, q, w) == Lookup(p.tab, q, w))
    && forall g :: 0 <= g < |p.own| ==> Unmapping(p, p', r, v, n, g)
  }

  /** The frames of the unmapped pages are free; every other frame keeps its use and contents. */
  ghost predicate Unmapping(p: Phys, p': Phys, r: int, v: int, n: int, g: int)
    requires 0 <= g < |p'.own| == |p.own| == |p.data| == |p'.data|
  {
    if p.own[g].User? && p.own[g].root == r && v <= p.own[g].page < v + n then p'.own[g] == Free
    else p'.own[g] == p.own[g] && p'.data[g] == p.data[g]
  }

  lemma UnmapNone(p: Phys, r: int, v: int)
    requires GoodPhys(p)
    ensures Unmapped(p, p, r, v, 0)
  {
  }

  /** A page with no valid entry needs nothing. */
  lemma UnmapSkip(p: Phys, p1: Phys, r: int, v: int, n: int)
    requires Unmapped(p, p1, r, v, n) && GoodPhys(p) && GoodPhys(p1)
    requires 0 <= n && IsRoot(p, r) && 0 <= v && v + n < PAGES
    requires !Lookup(p1.tab, r, v + n).valid
    ensures Unmapped(p, p1, r, v, n + 1)
  {
    var more := n + 1;
    forall g | 0 <= g < |p.own| ensures Unmapping(p, p1, r, v, more, g) {
      assert Unmapping(p, p1, r, v, n, g);
      if p.own[g] == User(r, v + n) {
        assert FrameOk(M(p), g);
      }
    }
  }

  lemma UnmapRoot(p: Phys, p': Phys, r: int, v: int, n: int, q: int)
    requires Unmapped(p, p', r, v, n) && IsRoot(p, q)
    ensures IsRoot(p', q)
  {
    assert Unmapping(p, p', r, v, n, q);
  }

  /** Clearing the entry, and freeing the frame of an ordinary page, unmaps one more page. */
  lemma UnmapStep(p: Phys, p1: Phys, p2: Phys, p3: Phys, r: int, v: int, n: int, t: int)
    requires Unmapped(p, p1, r, v, n) && GoodPhys(p) && GoodPhys(p1)
    requires 0 <= n && IsRoot(p, r) && 0 <= v && v + n < PAGES
    requires AtLevel(p1, r, v + n, 0, t) && 0 <= t < |p1.tab| && |p1.tab[t]| == PTES && p1.tab[t][(v + n) % PTES].valid
    requires Special(v + n) || 0 <= p1.tab[t][(v + n) % PTES].frame < |p1.own|
    requires M(p2) == Cleared(M(p1), v + n, t) && p2.data == p1.data
    requires if Special(v + n) then p3 == p2 else
               var f := p1.tab[t][(v + n) % PTES].frame;
               p3 == Phys(p2.tab[f := JunkTable(1)], p2.own[f := Free], p2.data[f := Bytes(1)])
    requires GoodPhys(p2) && SameMaps(M(p2), M(p3))
    ensures Unmapped(p, p3, r, v, n + 1)
  {
    var w0, more := v + n, n + 1;
    LookupIsEntry(M(p1), r, w0, t);
    UserLeaf(M(p1), r, w0);
    forall q, w | IsRoot(p, q) && 0 <= w < PAGES
      ensures if q == r && v <= w < v + more then !Lookup(p3.tab, q, w).valid
              else Lookup(p3.tab, q, w) == Lookup(p.tab, q, w)
    {
      UnmapRoot(p, p1, r, v, n, q);
      LookupOfPut(M(p1), r, w0, t, ZERO_PTE, q, w);
      assert Owned(M(p2), q, Root);
    }
    forall g | 0 <= g < |p.own| ensures Unmapping(p, p3, r, v, more, g) {
      assert Unmapping(p, p1, r, v, n, g);
      UnmapOwner(p1, r, w0, g);
    }
  }

  lemma UnmapOwner(p: Phys, r: int, w: int, g: int)
    requires GoodPhys(p) && IsRoot(p, r) && 0 <= w < PAGES && 0 <= g < |p.own|
    ensures p.own[g] == User(r, w) ==> Lookup(p.tab, r, w).valid && Lookup(p.tab, r, w).frame == g && !Special(w)
  {
    assert FrameOk(M(p), g);
  }

  /** uvmunmap. Ordinary pages are unmapped with their frames freed, the two shared pages without.
      The entry is cleared just before its frame is freed rather than just after. */
  method Uvmunmap(mem: Frames, r: int, v: int, n: int, doFree: bool)
    requires mem.Valid() && IsRoot(mem.P(), r) && 0 <= n && 0 <= v && v + n <= PAGES
    requires forall w :: v <= w < v + n ==> (Special(w) <==> !doFree)
    modifies mem
    ensures mem.Valid() && mem.base == old(mem.base) && IsRoot(mem.P(), r) && Unmapped(old(mem.P()), mem.P(), r, v, n)
  {
    hide GoodPhys, Reached, OnList, FreeExactly, KernelBelow, Unmapped, Lookup, LowPte;
    ghost var p0 := mem.P();
    UnmapNone(p0, r, v);
    var i := 0;
    while i < n
      invariant 0 <= i <= n && mem.Valid() && mem.base == old(mem.base) && Unmapped(p0, mem.P(), r, v, i)
    {
      ghost var p1 := mem.P();
      UnmapRoot(p0, p1, r, v, i, r);
      var t := Find(mem, r, v + i);
      if t == 0 {
        NoLeaf(p1.tab, r, v + i);
        UnmapSkip(p0, p1, r, v, i);
        i := i + 1;
        continue;
      }
      FoundEntry(p1, r, v + i, t);
      var pte := mem.tab[t][(v + i) % PTES];
      if !pte.valid {
        UnmapSkip(p0, p1, r, v, i);
        i := i + 1;
        continue;
      }
      ClearOne(mem, r, v + i, t, doFree);
      UnmapMore(p0, p1, mem.P(), r, v, i, t);
      i := i + 1;
    }
    UnmapRoot(p0, mem.P(), r, v, n, r);
  }

  lemma NoLeaf(tab: seq<Table>, r: int, v: int)
    requires !LowPte(tab, r, v / PTES).valid
    ensures !Lookup(tab, r, v).valid
  {
  }

  /** The memory after clearing the leaf of page v, and freeing its frame if the page is ordinary. */
  ghost predicate ClearedOne(p: Phys, p': Phys, v: int, t: int) {
    && 0 <= t < |p.tab| && |p.tab[t]| == PTES
    && var f := p.tab[t][v % PTES].frame;
       (Special(v) || 0 <= f < |p.own| == |p.tab| == |p.data|) &&
       var m := Cleared(M(p), v, t);
       p' == if Special(v) then Phys(m.tab, m.own, p.data)
             else Phys(m.tab[f := JunkTable(1)], m.own[f := Free], p.data[f := Bytes(1)])
  }

  method ClearOne(mem: Frames, r: int, v: int, t: int, doFree: bool)
    requires mem.Valid() && 0 <= v < PAGES && AtLevel(mem.P(), r, v, 0, t)
    requires 0 <= t < |mem.tab| && |mem.tab[t]| == PTES && mem.tab[t][v % PTES].valid && (Special(v) <==> !doFree)
    modifies mem
    ensures mem.Valid() && mem.base == old(mem.base) && ClearedOne(old(mem.P()), mem.P(), v, t)
  {
    hide OnList, Inv, Reached;
    ghost var p := mem.P();
    var f := mem.tab[t][v % PTES].frame;
    ClearLeaf(M(p), r, v, t);
    ClearReached(mem.base, p, r, v, t);
    KernelBelowUser(mem.own, mem.lo, f);
    mem.tab := Put(mem.tab, t, v % PTES, ZERO_PTE);
    if doFree {
      mem.own := mem.own[f := Kernel];
      var ok := mem.Kfree(f);
    }
  }

  lemma ClearReached(p0: Phys, p: Phys, r: int, v: int, t: int)
    requires GoodPhys(p) && Reached(p0, p) && 0 <= v < PAGES && AtLevel(p, r, v, 0, t) && p.tab[t][v % PTES].valid
    requires Special(v) || Owned(M(p), p.tab[t][v % PTES].frame, User(r, v))
    ensures Reached(p0, Phys(Cleared(M(p), v, t).tab, Cleared(M(p), v, t).own, p.data))
  {
    hide Reached;
    var m' := Cleared(M(p), v, t);
    ReachedMore(p0, p, Phys(m'.tab, m'.own, p.data), UnmapLeaf(r, v, t));
  }

  lemma KernelBelowUser(own: seq<Use>, lo: int, f: int)
    requires KernelBelow(own, lo)
    ensures 0 <= f < |own| && own[f] != Kernel ==> lo <= f
  {
  }

  lemma UnmapMore(p: Phys, p1: Phys, p3: Phys, r: int, v: int, n: int, t: int)
    requires Unmapped(p, p1, r, v, n) && GoodPhys(p) && GoodPhys(p1)
    requires 0 <= n && IsRoot(p, r) && 0 <= v && v + n < PAGES
    requires AtLevel(p1, r, v + n, 0, t) && ClearedOne(p1, p3, v + n, t) && p1.tab[t][(v + n) % PTES].valid
    ensures Unmapped(p, p3, r, v, n + 1)
  {
    hide Unmapped, Inv;
    var m := Cleared(M(p1), v + n, t);
    var p2 := Phys(m.tab, m.own, p1.data);
    ClearLeaf(M(p1), r, v + n, t);
    if !Special(v + n) {
      LooseFrame(m, p1.tab[t][(v + n) % PTES].frame, JunkTable(1), Free);
    }
    UnmapStep(p, p1, p2, p3, r, v, n, t);
  }

  // ---------------------------------------------------------------- growing and shrinking

  /** The use of a frame that an operation on the pages [a, b) of r may take or give back. */
  predicate Usable(u: Use, r: int, a: int, b: int) {
    u == Free || (u.User? && u.root == r && a <= u.page < b)
  }

  /** What an operation on the pages [a, b) of r may do to one frame: use free frames and the frames of
      these pages for these pages and for tables of r. Every other frame keeps its use and contents. */
  ghost predicate FrameStep(p: Phys, p': Phys, r: int, a: int, b: int, g: int)
    requires 0 <= g < |p'.own| == |p.own| == |p.data| == |p'.data|
  {
    if Usable(p.own[g], r, a, b) then
      Usable(p'.own[g], r, a, b) || (TableOf(M(p'), r, g) && p'.own[g] != Root)
    else
      p'.own[g] == p.own[g] && p'.data[g] == p.data[g]
  }

  /** Only the pages [a, b) of r may have changed. */
  ghost predicate Within(p: Phys, p': Phys, r: int, a: int, b: int) {
    && |p'.own| == |p.own| == |p.data| == |p'.data|
    && (forall q, w :: IsRoot(p, q) && 0 <= w < PAGES && !(q == r && a <= w < b) ==>
          Lookup(p'.tab, q, w) == Lookup(p.tab, q, w))
    && forall g :: 0 <= g < |p.own| ==> FrameStep(p, p', r, a, b, g)
  }

  lemma WithinRoot(p: Phys, p': Phys, r: int, a: int, b: int, q: int)
    requires Within(p, p', r, a, b) && IsRoot(p, q)
    ensures IsRoot(p', q)
  {
    assert FrameStep(p, p', r, a, b, q);
  }

  lemma WithinReflexive(p: Phys, r: int, a: int, b: int)
    requires GoodPhys(p)
    ensures Within(p, p, r, a, b)
  {
  }

  lemma WithinTransitive(p: Phys, p1: Phys, p2: Phys, r: int, a: int, b: int)
    requires Within(p, p1, r, a, b) && Within(p1, p2, r, a, b)
    ensures Within(p, p2, r, a, b)
  {
    forall q, w | IsRoot(p, q) && 0 <= w < PAGES && !(q == r && a <= w < b)
      ensures Lookup(p2.tab, q, w) == Lookup(p.tab, q, w)
    {
      WithinRoot(p, p1, r, a, b, q);
    }
    forall g | 0 <= g < |p.own| ensures FrameStep(p, p2, r, a, b, g) {
      assert FrameStep(p, p1, r, a, b, g) && FrameStep(p1, p2, r, a, b, g);
    }
  }

  lemma WithinWider(p: Phys, p': Phys, r: int, a: int, b: int, a': int, b': int)
    requires Within(p, p', r, a, b) && (a >= b || a' <= a <= b <= b')
    ensures Within(p, p', r, a', b')
  {
    forall g | 0 <= g < |p.own| ensures FrameStep(p, p', r, a', b', g) {
      assert FrameStep(p, p', r, a, b, g);
    }
  }

  lemma UnmappedWithin(p: Phys, p': Phys, r: int, v: int, n: int)
    requires Unmapped(p, p', r, v, n)
    ensures Within(p, p', r, v, v + n)
  {
    var b := v + n;
    forall g | 0 <= g < |p.own| ensures FrameStep(p, p', r, v, b, g) {
      assert Unmapping(p, p', r, v, n, g);
    }
  }

  /** A frame taken from the free list and filled. */
  ghost predicate Taken(p: Phys, p': Phys, f: int, content: Page) {
    && 0 <= f < |p.own| == |p.tab| == |p.data| && p.own[f] == Free
    && p' == Phys(p.tab[f := JunkTable(0)], p.own[f := Kernel], p.data[f := content])
  }

  lemma TakenSameMaps(p: Phys, p': Phys, f: int, content: Page)
    requires GoodPhys(p) && Taken(p, p', f, content)
    ensures SameMaps(M(p), M(p')) && forall q :: IsRoot(p, q) ==> IsRoot(p', q)
  {
    LooseFrame(M(p), f, JunkTable(0), Kernel);
  }

  /** A page mapped to a frame fresh from the free list. */
  lemma FreshPageWithin(p: Phys, p1: Phys, p2: Phys, r: int, v: int, f: int, perm: Perm, content: Page)
    requires GoodPhys(p) && IsRoot(p, r) && 0 <= v < PAGES && !Special(v)
    requires Taken(p, p1, f, content) && Mapped(p1, p2, r, v, f, perm, 1)
    ensures Within(p, p2, r, v, v + 1)
    ensures Lookup(p2.tab, r, v) == Pte(true, f, perm) && p2.own[f] == User(r, v) && p2.data[f] == content
  {
    TakenSameMaps(p, p1, f, content);
    assert IsRoot(p1, r);
    assert MapGrowth(p1, p2, r, v, f, 1, f);
    var b := v + 1;
    forall g | 0 <= g < |p.own| ensures FrameStep(p, p2, r, v, b, g) {
      assert MapGrowth(p1, p2, r, v, f, 1, g);
    }
  }

  /** A frame taken, not mapped for want of a table, and given back. */
  lemma NoPageWithin(p: Phys, p1: Phys, p2: Phys, p3: Phys, r: int, v: int, f: int, perm: Perm, content: Page)
    requires GoodPhys(p) && GoodPhys(p2) && IsRoot(p, r) && 0 <= v < PAGES && !Special(v)
    requires Taken(p, p1, f, content) && Mapped(p1, p2, r, v, f, perm, 0)
    requires |p2.tab| == |p2.own| && p3 == Phys(p2.tab[f := JunkTable(1)], p2.own[f := Free], p2.data[f := Bytes(1)])
    ensures Within(p, p3, r, v, v)
  {
    TakenSameMaps(p, p1, f, content);
    assert MapGrowth(p1, p2, r, v, f, 0, f);
    LooseFrame(M(p2), f, JunkTable(1), Free);
    forall q, w | IsRoot(p, q) && 0 <= w < PAGES ensures Lookup(p3.tab, q, w) == Lookup(p.tab, q, w) {
      assert IsRoot(p1, q);
      RootStays(p1, p2, r, v, f, perm, 0, q);
    }
    forall g | 0 <= g < |p.own| ensures FrameStep(p, p3, r, v, v, g) {
      assert MapGrowth(p1, p2, r, v, f, 0, g);
    }
  }

  /** kalloc, fill, mappages of one page, and kfree if that fails: the body shared by uvmalloc, uvmcopy
      and vmfault. */
  method MapFresh(mem: Frames, r: int, v: int, perm: Perm, content: Page) returns (ok: bool, f: int)
    requires mem.Valid() && IsRoot(mem.P(), r) && 0 <= v < PAGES && !Special(v)
    requires |content| == PGSIZE && IsLeaf(Pte(true, 0, perm)) && !Lookup(mem.tab, r, v).valid
    modifies mem
    ensures mem.Valid() && mem.base == old(mem.base)
    ensures ok ==> Within(old(mem.P()), mem.P(), r, v, v + 1) && 0 < f < |mem.own| == |mem.data|
    ensures ok ==> Lookup(mem.tab, r, v) == Pte(true, f, perm) && mem.own[f] == User(r, v) && mem.data[f] == content
    ensures !ok ==> Within(old(mem.P()), mem.P(), r, v, v) && |mem.free| <= 1 && |old(mem.free)| < 3
    ensures ok ==> |mem.free| >= |old(mem.free)| - 3
  {
    hide GoodPhys, Reached, OnList, FreeExactly, KernelBelow, Within, Mapped, Lookup;
    ghost var p := mem.P();
    GoodShape(p);
    f := mem.Kalloc();
    if f == 0 {
      WithinReflexive(p, r, v, v);
      return false, 0;
    }
    mem.Fill(f, content);
    ghost var p1 := mem.P();
    assert Taken(p, p1, f, content);
    TakenSameMaps(p, p1, f, content);
    ghost var done;
    InHandOne(p1, mem.lo, v, f, perm);
    ok, done := Mappages(mem, r, v, 1, f, perm);
    ghost var p2 := mem.P();
    if ok {
      FreshPageWithin(p, p1, p2, r, v, f, perm, content);
      GoodShape(p2);
    } else {
      GoodShape(p2);
      StillInHand(p1, p2, r, v, f, perm);
      var freed := mem.Kfree(f);
      NoPageWithin(p, p1, p2, mem.P(), r, v, f, perm, content);
    }
  }

  lemma StillInHand(p: Phys, p': Phys, r: int, v: int, f: int, perm: Perm)
    requires Mapped(p, p', r, v, f, perm, 0) && Owned(M(p), f, Kernel)
    ensures Owned(M(p'), f, Kernel)
  {
    assert MapGrowth(p, p', r, v, f, 0, f);
  }

  /** PGROUNDUP, as a number of pages. */
  function PagesFor(sz: int): int { (sz + PGSIZE - 1) / PGSIZE }

  lemma PagesForBounds(sz: int)
    requires 0 <= sz
    ensures 0 <= PagesFor(sz) && (PagesFor(sz) - 1) * PGSIZE < sz <= PagesFor(sz) * PGSIZE
  {
  }

  lemma PagesForMonotone(a: int, b: int)
    requires 0 <= a <= b
    ensures PagesFor(a) <= PagesFor(b)
  {
  }

  /** uvmdealloc. */
  method Uvmdealloc(mem: Frames, r: int, oldsz: int, newsz: int) returns (sz: int)
    requires mem.Valid() && IsRoot(mem.P(), r) && 0 <= oldsz <= TRAPFRAME * PGSIZE && 0 <= newsz
    modifies mem
    ensures mem.Valid() && mem.base == old(mem.base) && IsRoot(mem.P(), r)
    ensures sz == if newsz >= oldsz then oldsz else newsz
    ensures newsz >= oldsz ==> mem.P() == old(mem.P())
    ensures newsz < oldsz ==>
              Unmapped(old(mem.P()), mem.P(), r, PagesFor(newsz), PagesFor(oldsz) - PagesFor(newsz))
  {
    hide GoodPhys, Reached, OnList, FreeExactly, KernelBelow, Unmapped;
    if newsz >= oldsz {
      return oldsz;
    }
    PagesForMonotone(newsz, oldsz);
    PagesForMonotone(oldsz, TRAPFRAME * PGSIZE);
    if PagesFor(newsz) < PagesFor(oldsz) {
      Uvmunmap(mem, r, PagesFor(newsz), PagesFor(oldsz) - PagesFor(newsz), true);
    } else {
      UnmapNone(mem.P(), r, PagesFor(newsz));
    }
    return newsz;
  }

  /** A page that uvmalloc has just mapped: zeroed, its own frame, readable by user code. */
  ghost predicate FreshPage(p: Phys, r: int, v: int, perm: Perm, content: Page) {
    var e := Lookup(p.tab, r, v);
    e.valid && e.perm == perm && 0 < e.frame < |p.own| == |p.data|
    && p.own[e.frame] == User(r, v) && p.data[e.frame] == content
  }

  lemma FreshPageStays(p: Phys, p': Phys, r: int, a: int, b: int, v: int, perm: Perm, content: Page)
    requires Within(p, p', r, a, b) && IsRoot(p, r) && FreshPage(p, r, v, perm, content)
    requires 0 <= v < PAGES && !(a <= v < b)
    ensures FreshPage(p', r, v, perm, content)
  {
    assert FrameStep(p, p', r, a, b, Lookup(p.tab, r, v).frame);
  }

  /** The pages [a, i) are freshly mapped, the pages [i, b) are not mapped. */
  ghost predicate Filling(p: Phys, r: int, a: int, i: int, b: int, perm: Perm) {
    && (forall v :: a <= v < i ==> FreshPage(p, r, v, perm, Bytes(0)))
    && (forall v :: i <= v < b ==> !Lookup(p.tab, r, v).valid)
  }

  lemma FillingStep(p: Phys, p1: Phys, p2: Phys, r: int, a: int, i: int, b: int, perm: Perm)
    requires GoodPhys(p1) && IsRoot(p1, r) && 0 <= a <= i < b <= PAGES
    requires Within(p, p1, r, a, b) && Filling(p1, r, a, i, b, perm)
    requires Within(p1, p2, r, i, i + 1) && FreshPage(p2, r, i, perm, Bytes(0))
    ensures Within(p, p2, r, a, b) && Filling(p2, r, a, i + 1, b, perm)
  {
    WithinWider(p1, p2, r, i, i + 1, a, b);
    WithinTransitive(p, p1, p2, r, a, b);
    forall v | a <= v < i ensures FreshPage(p2, r, v, perm, Bytes(0)) {
      FreshPageStays(p1, p2, r, i, i + 1, v, perm, Bytes(0));
    }
  }

  /** Every page below n is mapped. */
  ghost predicate Dense(tab: seq<Table>, r: int, n: int) {
    forall v :: 0 <= v < n ==> Lookup(tab, r, v).valid
  }

  ghost function FramesOf(tab: seq<Table>, r: int, n: nat): seq<int> {
    seq(n, v => Lookup(tab, r, v).frame)
  }

  /** Pages have frames of their own, so there are no more mapped pages than frames. */
  lemma DenseBound(p: Phys, r: int, n: nat)
    requires GoodPhys(p) && IsRoot(p, r) && n <= TRAPFRAME && Dense(p.tab, r, n)
    ensures n <= |p.own|
  {
    var fs := FramesOf(p.tab, r, n);
    hide Lookup, Inv;
    forall v | 0 <= v < n ensures Owned(M(p), fs[v], User(r, v)) {
      UserLeaf(M(p), r, v);
    }
    ElementsSize(fs);
    RangeSize(|p.own|);
    SubsetSize(Elements(fs), Range(|p.own|));
  }

  /** The part of a size that pages of a process can have. */
  function Clip(sz: int): int { if sz <= TRAPFRAME * PGSIZE then sz else TRAPFRAME * PGSIZE }

  /** While a growth of pages that are all mapped goes on, the next page is below the two special ones. */
  lemma RoomBelow(p0: Phys, p: Phys, r: int, a: int, i: int, c: int, perm: Perm)
    requires GoodPhys(p) && IsRoot(p, r) && |p.own| <= PHYSTOP && IsRoot(p0, r) && 0 <= a <= i <= c <= TRAPFRAME
    requires Dense(p0.tab, r, a) && Within(p0, p, r, a, c) && Filling(p, r, a, i, c, perm)
    ensures i <= PHYSTOP
  {
    assert Dense(p.tab, r, i) by {
      forall v | 0 <= v < i ensures Lookup(p.tab, r, v).valid {
        assert v >= a ==> FreshPage(p, r, v, perm, Bytes(0));
      }
    }
    DenseBound(p, r, i);
  }

  /** uvmalloc: 0 when memory ran out, and then the pages are as before. A process without holes can ask for
      any size: memory runs out before its pages reach the special ones. */
  method Uvmalloc(mem: Frames, r: int, oldsz: int, newsz: int, w: bool, x: bool) returns (sz: int, ghost ok: bool)
    requires mem.Valid() && IsRoot(mem.P(), r) && 0 <= oldsz <= TRAPFRAME * PGSIZE && 0 <= newsz
    requires newsz <= TRAPFRAME * PGSIZE || Dense(mem.tab, r, PagesFor(oldsz))
    requires forall v :: PagesFor(oldsz) <= v < PagesFor(Clip(newsz)) ==> !Lookup(mem.tab, r, v).valid
    modifies mem
    ensures mem.Valid() && mem.base == old(mem.base) && IsRoot(mem.P(), r)
    ensures newsz < oldsz ==> sz == oldsz && mem.P() == old(mem.P())
    ensures newsz >= oldsz ==> sz == if ok then newsz else 0
    ensures newsz > TRAPFRAME * PGSIZE ==> !ok
    ensures ok ==> |mem.free| >= |old(mem.free)| - 3 * (PagesFor(newsz) - PagesFor(oldsz)) || newsz < oldsz
    ensures ok && newsz < oldsz ==> mem.free == old(mem.free)
    ensures !ok ==> |old(mem.free)| < 3 * (PagesFor(newsz) - PagesFor(oldsz))
    ensures newsz >= oldsz ==> Within(old(mem.P()), mem.P(), r, PagesFor(oldsz), PagesFor(Clip(newsz)))
    ensures newsz >= oldsz ==>
              Filling(mem.P(), r, PagesFor(oldsz), if ok then PagesFor(newsz) else PagesFor(oldsz),
                      PagesFor(Clip(newsz)), Perm(true, w, x, true))
  {
    hide GoodPhys, Reached, OnList, FreeExactly, KernelBelow, Unmapped, Within, FreshPage, Lookup, IsRoot, Dense;
    ok := true;
    if newsz < oldsz {
      return oldsz, true;
    }
    ghost var p0 := mem.P();
    var a := PagesFor(oldsz);
    ghost var c := PagesFor(Clip(newsz));
    PagesForMonotone(oldsz, Clip(newsz));
    PagesForMonotone(Clip(newsz), TRAPFRAME * PGSIZE);
    PagesForBounds(Clip(newsz));
    PagesForMonotone(Clip(newsz), newsz);
    WithinReflexive(p0, r, a, c);
    var i := a;
    while i * PGSIZE < newsz
      invariant a <= i <= c && mem.Valid() && mem.base == old(mem.base) && IsRoot(mem.P(), r)
      invariant Within(p0, mem.P(), r, a, c) && Filling(mem.P(), r, a, i, c, Perm(true, w, x, true))
      invariant |mem.free| >= |old(mem.free)| - 3 * (i - a)
      decreases c - i
    {
      ghost var p1 := mem.P();
      if newsz > TRAPFRAME * PGSIZE {
        RoomBelow(p0, p1, r, a, i, c, Perm(true, w, x, true));
      }
      var mapped, f := MapFresh(mem, r, i, Perm(true, w, x, true), Bytes(0));
      if !mapped {
        ok := false;
        UvmallocFailed(p0, p1, mem.P(), r, a, i, c, Perm(true, w, x, true));
        ghost var p2 := mem.P();
        var back := Uvmdealloc(mem, r, i * PGSIZE, a * PGSIZE);
        UvmallocUndone(p0, p2, mem.P(), r, a, i, c, Perm(true, w, x, true));
        return 0, false;
      }
      WithinRoot(p1, mem.P(), r, i, i + 1, r);
      FreshPageIs(mem.P(), r, i, Perm(true, w, x, true), f, Bytes(0));
      FillingStep(p0, p1, mem.P(), r, a, i, c, Perm(true, w, x, true));
      i := i + 1;
    }
    return newsz, true;
  }

  lemma FreshPageIs(p: Phys, r: int, v: int, perm: Perm, f: int, content: Page)
    requires Lookup(p.tab, r, v) == Pte(true, f, perm) && 0 < f < |p.own| == |p.data|
    requires p.own[f] == User(r, v) && p.data[f] == content
    ensures FreshPage(p, r, v, perm, content)
  {
  }

  lemma UvmallocFailed(p: Phys, p1: Phys, p2: Phys, r: int, a: int, i: int, b: int, perm: Perm)
    requires Within(p, p1, r, a, b) && IsRoot(p1, r) && Filling(p1, r, a, i, b, perm) && 0 <= a <= i < b <= PAGES
    requires Within(p1, p2, r, i, i)
    ensures Within(p, p2, r, a, b) && Filling(p2, r, a, i, b, perm) && IsRoot(p2, r)
  {
    WithinRoot(p1, p2, r, i, i, r);
    WithinWider(p1, p2, r, i, i, a, b);
    WithinTransitive(p, p1, p2, r, a, b);
    forall v | a <= v < i ensures FreshPage(p2, r, v, perm, Bytes(0)) {
      FreshPageStays(p1, p2, r, i, i, v, perm, Bytes(0));
    }
  }

  lemma UvmallocUndone(p: Phys, p2: Phys, p3: Phys, r: int, a: int, i: int, b: int, perm: Perm)
    requires Within(p, p2, r, a, b) && IsRoot(p2, r) && Filling(p2, r, a, i, b, perm) && 0 <= a <= i < b <= PAGES
    requires if a < i then Unmapped(p2, p3, r, a, i - a) else p3 == p2
    ensures Within(p, p3, r, a, b) && Filling(p3, r, a, a, b, perm)
  {
    if a < i {
      UnmappedWithin(p2, p3, r, a, i - a);
      WithinWider(p2, p3, r, a, i, a, b);
      WithinTransitive(p, p2, p3, r, a, b);
    }
  }
}
