/**
 The first half of exec: loading a program's segments into a new address space.
 */
module ExecImage {
  import opened PageTable
  import opened PhysMem
  import opened Vm
  import opened VmFree
  import opened UserMemory
  import opened AddressSpace

  // ---------------------------------------------------------------- uvmclear

  /** The leaf of page v, closed to user code. */
  function Closed(e: Pte): Pte { e.(perm := e.perm.(u := false)) }

  /** Closing a leaf is clearing it and mapping the same frame again. */
  lemma CloseKeepsInv(m: Mem, r: int, v: int, t: int)
    requires Inv(m) && 0 <= v < TRAPFRAME && Owned(m, t, Low(r, v / PTES)) && m.tab[t][v % PTES].valid
    ensures Inv(m.(tab := Put(m.tab, t, v % PTES, Closed(m.tab[t][v % PTES]))))
  {
    hide Inv;
    var i := v % PTES;
    var e := CloseLeaf(m, r, v, t);
    var m1 := Cleared(m, v, t);
    PutTwice(m.tab, t, i, ZERO_PTE, Closed(e));
    assert m1.own[e.frame := User(r, v)] == m.own;
    SetLeaf(m1, r, v, t, e.frame, Closed(e).perm);
  }

  lemma PutTwice(tab: seq<Table>, t: int, i: int, e: Pte, e': Pte)
    requires 0 <= t < |tab| && 0 <= i < |tab[t]|
    ensures Put(Put(tab, t, i, e), t, i, e') == Put(tab, t, i, e')
  {
    assert tab[t][i := e][i := e'] == tab[t][i := e'];
  }

  lemma CloseLeaf(m: Mem, r: int, v: int, t: int) returns (e: Pte)
    requires Inv(m) && 0 <= v < TRAPFRAME && Owned(m, t, Low(r, v / PTES)) && m.tab[t][v % PTES].valid
    ensures e == m.tab[t][v % PTES] && |m.tab[t]| == PTES && |m.tab| == |m.own|
    ensures IsLeaf(e) && Owned(m, e.frame, User(r, v)) && Inv(Cleared(m, v, t))
  {
    e := m.tab[t][v % PTES];
    ClearLeaf(m, r, v, t);
    LookupIsEntry(m, r, v, t);
    UserLeaf(m, r, v);
  }

  /** Page v of r is out of its user's reach; nothing else has changed. */
  ghost predicate ClosedPage(p: Phys, p': Phys, r: int, v: int) {
    && p'.own == p.own && p'.data == p.data
    && forall q, w :: IsRoot(p, q) && 0 <= w < PAGES ==>
         Lookup(p'.tab, q, w) == if q == r && w == v then Closed(Lookup(p.tab, r, v)) else Lookup(p.tab, q, w)
  }

  /** Closing a leaf is clearing it and setting it again. */
  lemma CloseReached(p0: Phys, p: Phys, r: int, v: int, t: int)
    requires GoodPhys(p) && Reached(p0, p) && 0 <= v < TRAPFRAME && Owned(M(p), t, Low(r, v / PTES))
    requires p.tab[t][v % PTES].valid
    ensures Reached(p0, p.(tab := Put(p.tab, t, v % PTES, Closed(p.tab[t][v % PTES]))))
  {
    hide Reached, Inv;
    GoodShape(p);
    var i := v % PTES;
    var e := CloseLeaf(M(p), r, v, t);
    ClearLeaf(M(p), r, v, t);
    var m1 := Cleared(M(p), v, t);
    var p1 := Phys(m1.tab, m1.own, p.data);
    PutTwice(p.tab, t, i, ZERO_PTE, Closed(e));
    assert m1.own[e.frame := User(r, v)] == p.own;
    ReachedMore(p0, p, p1, UnmapLeaf(r, v, t));
    ReachedMore(p0, p1, p.(tab := Put(p.tab, t, i, Closed(e))), MapLeaf(r, v, t, e.frame, Closed(e).perm));
  }

  /** uvmclear of a mapped page. */
  method Uvmclear(mem: Frames, r: int, v: int)
    requires mem.Valid() && IsRoot(mem.P(), r) && 0 <= v < TRAPFRAME && Lookup(mem.tab, r, v).valid
    modifies mem`tab
    ensures mem.Valid() && IsRoot(mem.P(), r) && ClosedPage(old(mem.P()), mem.P(), r, v)
  {
    hide OnList, FreeExactly, KernelBelow, Lookup, Inv, Reached;
    ghost var p := mem.P();
    var t := Find(mem, r, v);
    FoundLeaf(p, r, v, t);
    FoundAt(p, r, v, t);
    CloseKeepsInv(M(p), r, v, t);
    CloseReached(mem.base, p, r, v, t);
    var pte := mem.tab[t][v % PTES];
    mem.tab := Put(mem.tab, t, v % PTES, Closed(pte));
    forall q, w | IsRoot(p, q) && 0 <= w < PAGES
      ensures Lookup(mem.tab, q, w) == if q == r && w == v then Closed(Lookup(p.tab, r, v)) else Lookup(p.tab, q, w)
    {
      LookupOfPut(M(p), r, v, t, Closed(pte), q, w);
    }
  }

  lemma FoundAt(p: Phys, r: int, v: int, t: int)
    requires Lookup(p.tab, r, v).valid
    requires t != 0 ==> AtLevel(p, r, v, 0, t)
    requires t == 0 ==> !LowPte(p.tab, r, v / PTES).valid
    ensures Owned(M(p), t, Low(r, v / PTES))
  {
  }

  lemma ClosedWithin(p: Phys, p': Phys, r: int, v: int)
    requires GoodPhys(p) && ClosedPage(p, p', r, v) && IsRoot(p, r)
    ensures Within(p, p', r, v, v + 1)
  {
  }

  // ---------------------------------------------------------------- the image

  /** A loadable program header; data is what the file holds from the segment's offset on. */
  datatype Seg = Seg(vaddr: int, memsz: int, filesz: int, flags: int, data: seq<int>)

  /** The bits PF_X and PF_W of the flags. */
  predicate Executable(flags: int) { flags % 2 == 1 }
  predicate Writable(flags: int) { flags / 2 % 2 == 1 }

  /** flags2perm, with what uvmalloc adds: every page can be read, by user code too. */
  function Flags2Perm(flags: int): Perm { Perm(true, Writable(flags), Executable(flags), true) }

  const U64: int := 0x1_0000_0000_0000_0000

  /** loadseg takes the size as a 32-bit number. */
  function LoadSize(s: Seg): int { s.filesz % 0x1_0000_0000 }

  /** The fields are 64-bit and 32-bit numbers, whatever the file says. */
  predicate Header(s: Seg) {
    0 <= s.vaddr < U64 && 0 <= s.memsz < U64 && 0 <= s.filesz < U64 && 0 <= s.flags < 0x1_0000_0000
  }

  /** The byte of the image at address a: from the last segment whose file part covers it, else zero. */
  function Image(segs: seq<Seg>, n: nat, a: int): int
    requires n <= |segs|
  {
    if n == 0 then 0
    else if 0 <= a - segs[n - 1].vaddr < LoadSize(segs[n - 1]) && a - segs[n - 1].vaddr < |segs[n - 1].data|
    then segs[n - 1].data[a - segs[n - 1].vaddr]
    else Image(segs, n - 1, a)
  }

  /** The first n segments lie below sz and have all their bytes. */
  ghost predicate Loaded(segs: seq<Seg>, n: nat, sz: int)
    requires n <= |segs|
  {
    forall i :: 0 <= i < n ==> LoadSize(segs[i]) <= |segs[i].data| && segs[i].vaddr + LoadSize(segs[i]) <= sz
  }

  lemma {:induction false} ImageAbove(segs: seq<Seg>, n: nat, sz: int, a: int)
    requires n <= |segs| && Loaded(segs, n, sz) && a >= sz
    ensures Image(segs, n, a) == 0
  {
    if n > 0 {
      ImageAbove(segs, n - 1, sz, a);
    }
  }

  ghost predicate ByteIs(p: Phys, r: int, sz: int, a: int, b: int) {
    View(p, r, sz, a).Byte? && View(p, r, sz, a).b == b
  }

  ghost predicate ImageIs(p: Phys, r: int, sz: int, segs: seq<Seg>, n: nat)
    requires n <= |segs|
  {
    forall a :: 0 <= a < PagesFor(sz) * PGSIZE ==> ByteIs(p, r, sz, a, Image(segs, n, a))
  }

  /** Every page below sz is mapped and open to user code. */
  ghost predicate AllMapped(tab: seq<Table>, r: int, sz: int) {
    forall v :: 0 <= v < PagesFor(sz) ==> Lookup(tab, r, v).valid && Lookup(tab, r, v).perm.u
  }

  /** While segments are being loaded. */
  ghost predicate Loading(p: Phys, r: int, sz: int, segs: seq<Seg>, n: nat)
    requires n <= |segs|
  {
    Space(p, r, sz) && sz <= (TRAPFRAME - 2) * PGSIZE && AllMapped(p.tab, r, sz)
      && Loaded(segs, n, sz) && ImageIs(p, r, sz, segs, n)
  }

  /** An image without holes has fewer pages than there are frames, which keeps it away from the special pages. */
  lemma ImageFits(p: Phys, r: int, sz: int)
    requires GoodPhys(p) && |p.own| <= PHYSTOP && Space(p, r, sz) && AllMapped(p.tab, r, sz)
    ensures sz <= (TRAPFRAME - 2) * PGSIZE
  {
    PagesForBounds(sz);
    PagesForMonotone(sz, TRAPFRAME * PGSIZE);
    DenseBound(p, r, PagesFor(sz));
  }

  lemma ImageIsDense(tab: seq<Table>, r: int, sz: int)
    requires AllMapped(tab, r, sz)
    ensures Dense(tab, r, PagesFor(sz))
  {
  }

  /** uvmalloc on top of the image so far. */
  lemma GrownCellOf(p: Phys, p': Phys, r: int, sz: int, sz': int, perm: Perm, a: int)
    requires GoodPhys(p) && GoodPhys(p') && Space(p, r, sz) && sz <= sz' <= TRAPFRAME * PGSIZE && perm.u
    requires Within(p, p', r, PagesFor(sz), PagesFor(sz')) && 0 <= a < PagesFor(sz') * PGSIZE
    requires Filling(p', r, PagesFor(sz), PagesFor(sz'), PagesFor(sz'), perm)
    ensures View(p', r, sz', a) == if a < PagesFor(sz) * PGSIZE then View(p, r, sz, a) else Byte(0, perm.w, perm.x)
  {
    var v := a / PGSIZE;
    PagesForMonotone(sz, sz');
    PagesForMonotone(sz', TRAPFRAME * PGSIZE);
    if v < PagesFor(sz) {
      ViewOutside(p, p', r, PagesFor(sz), PagesFor(sz'), r, sz', a);
    } else {
      assert FreshPage(p', r, v, perm, Bytes(0));
    }
  }

  lemma GrownMapped(p: Phys, p': Phys, r: int, sz: int, sz': int, perm: Perm)
    requires Space(p, r, sz) && sz <= sz' <= TRAPFRAME * PGSIZE && AllMapped(p.tab, r, sz) && perm.u
    requires Within(p, p', r, PagesFor(sz), PagesFor(sz'))
    requires Filling(p', r, PagesFor(sz), PagesFor(sz'), PagesFor(sz'), perm)
    ensures AllMapped(p'.tab, r, sz')
  {
    PagesForMonotone(sz, sz');
    PagesForMonotone(sz', TRAPFRAME * PGSIZE);
    forall v | 0 <= v < PagesFor(sz') ensures Lookup(p'.tab, r, v).valid && Lookup(p'.tab, r, v).perm.u {
      assert v >= PagesFor(sz) ==> FreshPage(p', r, v, perm, Bytes(0));
    }
  }

  /** The pages [0, a) are as before, and the pages [a, b) can be written and executed as the flags say. */
  ghost predicate NewPages(tab: seq<Table>, tab': seq<Table>, r: int, a: int, b: int, flags: int) {
    && (forall v :: 0 <= v < a ==> Lookup(tab', r, v) == Lookup(tab, r, v))
    && forall v :: a <= v < b ==> PermIs(tab', r, v, flags)
  }

  /** User code can read the page, write it if PF_W is set, and execute it if PF_X is. */
  ghost predicate PermIs(tab: seq<Table>, r: int, v: int, flags: int) {
    var e := Lookup(tab, r, v);
    e.valid && e.perm.r && e.perm.u && (e.perm.w <==> flags / 2 % 2 == 1) && (e.perm.x <==> flags % 2 == 1)
  }

  lemma SamePages(tab: seq<Table>, r: int, a: int, flags: int)
    ensures NewPages(tab, tab, r, a, a, flags)
  {
  }

  lemma GrownPages(p: Phys, p': Phys, r: int, sz: int, sz': int, flags: int)
    requires Space(p, r, sz) && sz <= sz' <= TRAPFRAME * PGSIZE && Within(p, p', r, PagesFor(sz), PagesFor(sz'))
    requires Filling(p', r, PagesFor(sz), PagesFor(sz'), PagesFor(sz'), Flags2Perm(flags))
    ensures NewPages(p.tab, p'.tab, r, PagesFor(sz), PagesFor(sz'), flags)
  {
    PagesForMonotone(sz, TRAPFRAME * PGSIZE);
    forall v | PagesFor(sz) <= v < PagesFor(sz') ensures PermIs(p'.tab, r, v, flags) {
      assert FreshPage(p', r, v, Flags2Perm(flags), Bytes(0));
    }
  }

  /** Page v was made for segment k: it lies above the end of the segments before it. */
  predicate MadeFor(segs: seq<Seg>, k: nat, v: int)
    requires k < |segs|
  {
    0 <= v && PagesFor(Top(segs, k)) <= v < PagesFor(Top(segs, k + 1))
  }

  /** Every page has the permissions of the segment that it was made for. */
  ghost predicate PermsAre(tab: seq<Table>, r: int, segs: seq<Seg>, n: nat)
    requires n <= |segs|
  {
    forall k: nat, v :: k < n && MadeFor(segs, k, v) ==> PermIs(tab, r, v, segs[k].flags)
  }

  /** Every page below the end of the image was made for exactly one segment. */
  lemma {:induction false} EveryPageMadeFor(segs: seq<Seg>, n: nat, v: int) returns (k: nat)
    requires n <= |segs| && 0 <= v < PagesFor(Top(segs, n))
    ensures k < n && MadeFor(segs, k, v) && forall j: nat :: j < n && MadeFor(segs, j, v) ==> j == k
  {
    hide PagesFor;
    NoPages();
    if PagesFor(Top(segs, n - 1)) <= v {
      k := n - 1;
    } else {
      k := EveryPageMadeFor(segs, n - 1, v);
    }
    forall j: nat | j < n && MadeFor(segs, j, v) ensures j == k {
      if j < k {
        TopGrows(segs, j + 1, k);
      } else if k < j {
        TopGrows(segs, k + 1, j);
      }
    }
  }

  lemma {:induction false} TopGrows(segs: seq<Seg>, m: nat, n: nat)
    requires m <= n <= |segs|
    ensures Top(segs, m) <= Top(segs, n) && PagesFor(Top(segs, m)) <= PagesFor(Top(segs, n))
    decreases n
  {
    if m < n {
      TopGrows(segs, m, n - 1);
    }
  }

  lemma MorePerms(tab: seq<Table>, tab': seq<Table>, r: int, segs: seq<Seg>, n: nat)
    requires n < |segs| && PermsAre(tab, r, segs, n)
    requires NewPages(tab, tab', r, PagesFor(Top(segs, n)), PagesFor(Top(segs, n + 1)), segs[n].flags)
    ensures PermsAre(tab', r, segs, n + 1)
  {
    hide PagesFor, Lookup;
    forall k: nat, v | k < n + 1 && MadeFor(segs, k, v) ensures PermIs(tab', r, v, segs[k].flags) {
      if k < n {
        TopGrows(segs, k + 1, n);
        assert PermIs(tab, r, v, segs[k].flags);
      }
    }
  }

  lemma NoPerms(tab: seq<Table>, r: int, segs: seq<Seg>)
    ensures PermsAre(tab, r, segs, 0)
  {
  }

  lemma GrownLoading(p: Phys, p': Phys, r: int, sz: int, sz': int, perm: Perm, segs: seq<Seg>, n: nat)
    requires n <= |segs| && GoodPhys(p) && GoodPhys(p') && |p'.own| <= PHYSTOP && Loading(p, r, sz, segs, n) && perm.u
    requires sz <= sz' <= TRAPFRAME * PGSIZE && Within(p, p', r, PagesFor(sz), PagesFor(sz'))
    requires Filling(p', r, PagesFor(sz), PagesFor(sz'), PagesFor(sz'), perm)
    ensures Loading(p', r, sz', segs, n)
  {
    GrownLeaves(p, p', r, sz, sz');
    GrownMapped(p, p', r, sz, sz', perm);
    ImageFits(p', r, sz');
    PagesForBounds(sz);
    forall a | 0 <= a < PagesFor(sz') * PGSIZE ensures ByteIs(p', r, sz', a, Image(segs, n, a)) {
      GrownCellOf(p, p', r, sz, sz', perm, a);
      if a < PagesFor(sz) * PGSIZE {
        assert ByteIs(p, r, sz, a, Image(segs, n, a));
      } else {
        ImageAbove(segs, n, sz, a);
      }
    }
  }

  /** Failing to grow leaves the pages below sz as they are. */
  lemma NotGrownSpace(p: Phys, p': Phys, r: int, sz: int, sz': int, perm: Perm)
    requires Space(p, r, sz) && sz <= sz' <= TRAPFRAME * PGSIZE && Within(p, p', r, PagesFor(sz), PagesFor(sz'))
    requires Filling(p', r, PagesFor(sz), PagesFor(sz), PagesFor(sz'), perm)
    ensures Space(p', r, sz)
  {
    PagesForMonotone(sz, sz');
    WithinRoot(p, p', r, PagesFor(sz), PagesFor(sz'), r);
  }

  /** One more segment's bytes. */
  lemma LoadedOne(p: Phys, p': Phys, r: int, sz: int, segs: seq<Seg>, n: nat)
    requires n < |segs| && Loading(p, r, sz, segs, n) && p'.tab == p.tab && p'.own == p.own
    requires LoadSize(segs[n]) <= |segs[n].data| && segs[n].vaddr + LoadSize(segs[n]) <= sz && 0 <= segs[n].vaddr
    requires Overwrote(p, p', r, sz, segs[n].vaddr, segs[n].data[..LoadSize(segs[n])])
    ensures Loading(p', r, sz, segs, n + 1)
  {
    var more := n + 1;
    forall a | 0 <= a < PagesFor(sz) * PGSIZE ensures ByteIs(p', r, sz, a, Image(segs, more, a)) {
      assert ByteIs(p, r, sz, a, Image(segs, n, a));
    }
  }

  lemma OverwroteNothing(p: Phys, r: int, sz: int, dst: int)
    ensures Overwrote(p, p, r, sz, dst, [])
  {
  }

  /** loadseg. The pages exist, so it never reaches its panic. */
  method Loadseg(mem: Frames, r: int, va: int, data: seq<int>, size: int, ghost sz: int) returns (ok: bool)
    requires mem.Valid() && Space(mem.P(), r, sz) && AllMapped(mem.tab, r, sz)
    requires 0 <= va && va % PGSIZE == 0 && 0 <= size && va + size <= sz
    modifies mem`data
    ensures mem.Valid() && Within(old(mem.P()), mem.P(), r, 0, TRAPFRAME)
    ensures ok <==> size <= |data|
    ensures ok ==> Overwrote(old(mem.P()), mem.P(), r, sz, va, data[..size])
  {
    hide GoodPhys, Reached, OnList, FreeExactly, KernelBelow, Lookup, Overwrote, Wrote, Within, Unseen, AllMapped;
    ghost var p0 := mem.P();
    WithinReflexive(p0, r, 0, TRAPFRAME);
    OverwroteNothing(p0, r, sz, va);
    assert data[..0] == [];
    var i := 0;
    while i < size
      invariant 0 <= i && i % PGSIZE == 0 && mem.Valid() && Within(p0, mem.P(), r, 0, TRAPFRAME)
      invariant i > 0 ==> |data| >= if i < size then i else size
      invariant Overwrote(p0, mem.P(), r, sz, va, data[..if i < size then i else size])
    {
      ghost var p := mem.P();
      var v := (va + i) / PGSIZE;
      PagesForBounds(sz);
      MappedFrame(p, mem.lo, r, sz, v);
      var f := Walkaddr(mem, r, v);
      assert f != 0;
      var n := if size - i < PGSIZE then size - i else PGSIZE;
      if |data| < i + n {
        return false;
      }
      Store(mem, r, sz, f, va + i, data[i..i + n]);
      StoreInSequence(p0, p, mem.P(), r, sz, va, data, i, n);
      i := i + PGSIZE;
    }
    if |data| < size {
      return false;
    }
    return true;
  }

  lemma MappedFrame(p: Phys, lo: int, r: int, sz: int, v: int)
    requires GoodPhys(p) && KernelBelow(p.own, lo) && 0 < lo && Space(p, r, sz)
    requires AllMapped(p.tab, r, sz) && 0 <= v < PagesFor(sz)
    ensures v < TRAPFRAME && Lookup(p.tab, r, v).valid && Lookup(p.tab, r, v).perm.u && Lookup(p.tab, r, v).frame != 0
  {
    PagesForMonotone(sz, TRAPFRAME * PGSIZE);
    UserLeaf(M(p), r, v);
  }

  lemma StoreInSequence(p0: Phys, p: Phys, p1: Phys, r: int, sz: int, va: int, data: seq<int>, i: int, n: int)
    requires 0 <= i && 0 <= n && i + n <= |data| && Within(p0, p, r, 0, TRAPFRAME) && Confined(p, p1, r, sz)
    requires Overwrote(p0, p, r, sz, va, data[..i]) && Overwrote(p, p1, r, sz, va + i, data[i..i + n])
    ensures Overwrote(p0, p1, r, sz, va, data[..i + n]) && Within(p0, p1, r, 0, TRAPFRAME)
  {
    hide Overwrote, Within;
    UnseenReflexive(p, r, sz);
    OverwroteMore(p0, p, p, p1, r, sz, va, data[..i], data[i..i + n]);
    assert data[..i] + data[i..i + n] == data[..i + n];
    ConfinedMeans(p, p1, r, sz);
    WithinTransitive(p0, p, p1, r, 0, TRAPFRAME);
  }

  lemma ConfinedMeans(p: Phys, p': Phys, r: int, sz: int)
    requires Confined(p, p', r, sz)
    ensures Within(p, p', r, 0, TRAPFRAME)
  {
  }

  /** The header checks of exec. */
  predicate Loadable(s: Seg) {
    s.filesz <= s.memsz && s.vaddr + s.memsz < U64 && s.vaddr % PGSIZE == 0
  }

  /** The file has the bytes that loadseg asks for. */
  predicate HasBytes(s: Seg) { LoadSize(s) <= |s.data| }

  function End(s: Seg): int { s.vaddr + s.memsz }

  function Larger(a: int, b: int): int { if a < b then b else a }

  /** The end of the first n segments. */
  function Top(segs: seq<Seg>, n: nat): int
    requires n <= |segs|
  {
    if n == 0 then 0 else Larger(Top(segs, n - 1), End(segs[n - 1]))
  }

  lemma {:induction false} TopIs(segs: seq<Seg>, n: nat, i: nat)
    requires i < n <= |segs|
    ensures End(segs[i]) <= Top(segs, n)
    decreases n
  {
    if i < n - 1 {
      TopIs(segs, n - 1, i);
    }
  }

  /** What exec refuses however much memory there is: a header that fails its checks, a file that is too short, and a
      first segment of no size at address 0, whose new size reads as a failure of uvmalloc. */
  ghost predicate Refused(segs: seq<Seg>) {
    || (exists i :: 0 <= i < |segs| && !(Loadable(segs[i]) && HasBytes(segs[i])))
    || (|segs| > 0 && End(segs[0]) == 0)
  }

  /** The segment leaves room for the stack below the special pages, which nothing in exec checks. */
  predicate Fits(s: Seg) { s.vaddr + s.memsz <= (TRAPFRAME - 2) * PGSIZE }

  lemma NothingLoaded(p: Phys, r: int, segs: seq<Seg>)
    requires Space(p, r, 0)
    ensures Loading(p, r, 0, segs, 0)
  {
  }

  lemma LoadingMeans(p: Phys, r: int, sz: int, segs: seq<Seg>, n: nat)
    requires n <= |segs| && Loading(p, r, sz, segs, n)
    ensures Space(p, r, sz) && sz <= (TRAPFRAME - 2) * PGSIZE && AllMapped(p.tab, r, sz)
  {
  }

  /** One program header: uvmalloc up to the end of the segment, then loadseg. */
  method LoadOne(mem: Frames, r: int, sz: int, ghost segs: seq<Seg>, ghost n: nat, s: Seg) returns (ok: bool, sz': int)
    requires mem.Valid() && n < |segs| && s == segs[n] && Header(s) && Loading(mem.P(), r, sz, segs, n)
    modifies mem
    ensures mem.Valid() && mem.base == old(mem.base)
    ensures Within(old(mem.P()), mem.P(), r, 0, TRAPFRAME) && Space(mem.P(), r, sz')
    ensures ok ==> Loadable(s) && Fits(s) && Loading(mem.P(), r, sz', segs, n + 1)
    ensures ok ==> 0 < sz' == Larger(sz, End(s)) && HasBytes(s)
    ensures ok ==> NewPages(old(mem.tab), mem.tab, r, PagesFor(sz), PagesFor(sz'), s.flags)
    ensures ok ==> |mem.free| >= |old(mem.free)| - 3 * (PagesFor(sz') - PagesFor(sz))
    ensures !ok ==>
              !Loadable(s) || !HasBytes(s) || sz == End(s) == 0 ||
              |old(mem.free)| < 3 * (PagesFor(End(s)) - PagesFor(sz))
  {
    hide GoodPhys, Reached, OnList, FreeExactly, KernelBelow, Within, Filling, Loading, Lookup, Overwrote, AllMapped,
      LeavesBelow, IsRoot, PagesFor, NewPages;
    ghost var p := mem.P();
    SamePages(p.tab, r, PagesFor(sz), s.flags);
    LoadingMeans(p, r, sz, segs, n);
    WithinReflexive(p, r, 0, TRAPFRAME);
    if s.memsz < s.filesz || (s.vaddr + s.memsz) % U64 < s.vaddr || s.vaddr % PGSIZE != 0 {
      return false, sz;
    }
    ghost var done;
    if sz <= s.vaddr + s.memsz {
      CanGrow(p, r, sz, Clip(s.vaddr + s.memsz));
    } else {
      PagesForMonotone(s.vaddr + s.memsz, sz);
    }
    ImageIsDense(p.tab, r, sz);
    sz', done := Uvmalloc(mem, r, sz, s.vaddr + s.memsz, Writable(s.flags), Executable(s.flags));
    ghost var p1 := mem.P();
    if sz' == 0 {
      GrowthUndone(p, p1, r, sz, s, done);
      return false, sz;
    }
    ghost var perm := Flags2Perm(s.flags);
    if s.vaddr + s.memsz >= sz {
      GrownLoading(p, p1, r, sz, sz', perm, segs, n);
      GrownPages(p, p1, r, sz, sz', s.flags);
      WithinAnywhere(p, p1, r, sz, sz');
    }
    LoadingMeans(p1, r, sz', segs, n);
    ok := Loadseg(mem, r, s.vaddr, s.data, LoadSize(s), sz');
    WithinTransitive(p, p1, mem.P(), r, 0, TRAPFRAME);
    SpaceStays(p1, mem.P(), r, sz');
    if ok {
      LoadedOne(p1, mem.P(), r, sz', segs, n);
    }
  }

  lemma SpaceStays(p: Phys, p': Phys, r: int, sz: int)
    requires Space(p, r, sz) && p'.tab == p.tab && p'.own == p.own
    ensures Space(p', r, sz)
  {
  }

  lemma GrowthUndone(p: Phys, p': Phys, r: int, sz: int, s: Seg, done: bool)
    requires Space(p, r, sz) && GoodPhys(p) && 0 <= s.vaddr + s.memsz
    requires s.vaddr + s.memsz < sz ==> p' == p
    requires s.vaddr + s.memsz >= sz ==>
               Within(p, p', r, PagesFor(sz), PagesFor(Clip(s.vaddr + s.memsz))) &&
               Filling(p', r, PagesFor(sz), if done then PagesFor(s.vaddr + s.memsz) else PagesFor(sz),
                       PagesFor(Clip(s.vaddr + s.memsz)), Flags2Perm(s.flags))
    requires !done || (s.vaddr + s.memsz == 0 && sz == 0)
    ensures Space(p', r, sz) && Within(p, p', r, 0, TRAPFRAME)
  {
    if s.vaddr + s.memsz < sz {
      WithinReflexive(p, r, 0, TRAPFRAME);
    } else {
      NotGrownSpace(p, p', r, sz, Clip(s.vaddr + s.memsz), Flags2Perm(s.flags));
      WithinAnywhere(p, p', r, sz, Clip(s.vaddr + s.memsz));
    }
  }

  lemma NoPages()
    ensures PagesFor(0) == 0
  {
  }

  /** The loading loop of exec. */
  method LoadImage(mem: Frames, r: int, segs: seq<Seg>) returns (ok: bool, sz: int)
    requires mem.Valid() && Space(mem.P(), r, 0) && forall i :: 0 <= i < |segs| ==> Header(segs[i])
    modifies mem
    ensures mem.Valid() && mem.base == old(mem.base)
    ensures Within(old(mem.P()), mem.P(), r, 0, TRAPFRAME) && Space(mem.P(), r, sz)
    ensures ok ==> Loading(mem.P(), r, sz, segs, |segs|) && PermsAre(mem.tab, r, segs, |segs|)
    ensures ok ==> forall i :: 0 <= i < |segs| ==> Loadable(segs[i]) && Fits(segs[i])
    ensures ok ==> sz == Top(segs, |segs|) && !Refused(segs) && |mem.free| >= |old(mem.free)| - 3 * PagesFor(sz)
    ensures !ok ==> Refused(segs) || |old(mem.free)| < 3 * PagesFor(Top(segs, |segs|))
  {
    hide GoodPhys, Reached, OnList, FreeExactly, KernelBelow, Within, Loading, LeavesBelow, IsRoot, PagesFor, NewPages,
      PermsAre;
    NoPages();
    NoPerms(mem.tab, r, segs);
    ghost var p0 := mem.P();
    NothingLoaded(p0, r, segs);
    WithinReflexive(p0, r, 0, TRAPFRAME);
    ok, sz := true, 0;
    var i := 0;
    while i < |segs|
      invariant 0 <= i <= |segs| && mem.Valid() && mem.base == old(mem.base) && Within(p0, mem.P(), r, 0, TRAPFRAME)
      invariant Loading(mem.P(), r, sz, segs, i) && Space(mem.P(), r, sz) && PermsAre(mem.tab, r, segs, i)
      invariant forall j :: 0 <= j < i ==> Loadable(segs[j]) && Fits(segs[j]) && HasBytes(segs[j])
      invariant sz == Top(segs, i) && (i > 0 ==> sz > 0 && End(segs[0]) != 0)
      invariant |mem.free| >= |old(mem.free)| - 3 * PagesFor(sz)
    {
      ghost var p := mem.P();
      ghost var sz0 := sz;
      ok, sz := LoadOne(mem, r, sz, segs, i, segs[i]);
      WithinTransitive(p0, p, mem.P(), r, 0, TRAPFRAME);
      if !ok {
        TopIs(segs, |segs|, i);
        PagesForMonotone(End(segs[i]), Top(segs, |segs|));
        return;
      }
      MorePerms(p.tab, mem.tab, r, segs, i);
      i := i + 1;
    }
    ok := true;
  }
}
