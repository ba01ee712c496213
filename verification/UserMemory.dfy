/**
 What user code sees of its memory, and the operations that are defined by it:
 page faults on lazily allocated memory, copying between the kernel and user
 memory, and copying a whole address space.
 */
module UserMemory {
  import opened PageTable
  import opened PhysMem
  import opened Vm

  /** One byte of an address space as its user sees it. */
  datatype Cell = Denied | Byte(b: int, writable: bool, executable: bool)

  /** The cell with another byte in it. */
  function Over(c: Cell, b: int): Cell
    requires c.Byte?
  {
    Byte(b, c.writable, c.executable)
  }

  /** A page of a process of size sz that is not mapped yet reads as zeros and can be written, not executed. */
  ghost function View(p: Phys, r: int, sz: int, a: int): Cell {
    var v := a / PGSIZE;
    if a < 0 || v >= PAGES then Denied
    else
      var e := Lookup(p.tab, r, v);
      if e.valid then
        if e.perm.u && 0 <= e.frame < |p.data| && |p.data[e.frame]| == PGSIZE
        then Byte(p.data[e.frame][a % PGSIZE], e.perm.w, e.perm.x) else Denied
      else if v < PagesFor(sz) then Byte(0, true, false) else Denied
  }

  ghost predicate SameView(p: Phys, p': Phys, q: int, sz: int) {
    forall a :: View(p', q, sz, a) == View(p, q, sz, a)
  }

  /** The operation has not changed what the other address spaces see, whatever their sizes. */
  ghost predicate OthersSame(p: Phys, p': Phys, r: int) {
    forall q :: IsRoot(p, q) && q != r ==> LooksSame(p, p', q)
  }

  ghost predicate LooksSame(p: Phys, p': Phys, q: int) {
    IsRoot(p', q) && forall sz :: SameView(p, p', q, sz)
  }

  lemma OthersSameTransitive(p: Phys, p1: Phys, p2: Phys, r: int)
    requires OthersSame(p, p1, r) && OthersSame(p1, p2, r)
    ensures OthersSame(p, p2, r)
  {
    forall q | IsRoot(p, q) && q != r ensures LooksSame(p, p2, q) {
      assert LooksSame(p, p1, q) && LooksSame(p1, p2, q);
      forall sz ensures SameView(p, p2, q, sz) {
        assert SameView(p, p1, q, sz) && SameView(p1, p2, q, sz);
      }
    }
  }

  lemma SameViewTransitive(p: Phys, p1: Phys, p2: Phys, q: int, sz: int)
    requires SameView(p, p1, q, sz) && SameView(p1, p2, q, sz)
    ensures SameView(p, p2, q, sz)
  {
  }

  /** A page that user code can reach has a frame of its own. */
  lemma UserFrame(p: Phys, q: int, v: int)
    requires GoodPhys(p) && IsRoot(p, q) && 0 <= v < PAGES
    ensures var e := Lookup(p.tab, q, v);
            e.valid && e.perm.u ==>
              Owned(M(p), e.frame, User(q, v)) && e.frame < |p.data| && |p.data[e.frame]| == PGSIZE
  {
    if Lookup(p.tab, q, v).valid {
      UserLeaf(M(p), q, v);
    }
  }

  /** A byte outside the pages that an operation may change. */
  lemma ViewOutside(p: Phys, p': Phys, r: int, a: int, b: int, q: int, sz: int, x: int)
    requires GoodPhys(p) && Within(p, p', r, a, b) && IsRoot(p, q) && !(q == r && a <= x / PGSIZE < b)
    requires GoodPhys(p')
    ensures View(p', q, sz, x) == View(p, q, sz, x)
  {
    var v := x / PGSIZE;
    if 0 <= v < PAGES {
      var e := Lookup(p.tab, q, v);
      UserFrame(p, q, v);
      if e.valid && e.perm.u {
        assert FrameStep(p, p', r, a, b, e.frame);
      }
    }
  }

  lemma WithinOthersSame(p: Phys, p': Phys, r: int, a: int, b: int)
    requires GoodPhys(p) && GoodPhys(p') && Within(p, p', r, a, b)
    ensures OthersSame(p, p', r)
  {
    forall q | IsRoot(p, q) && q != r ensures LooksSame(p, p', q) {
      WithinRoot(p, p', r, a, b, q);
      forall sz ensures SameView(p, p', q, sz) {
        forall x ensures View(p', q, sz, x) == View(p, q, sz, x) {
          ViewOutside(p, p', r, a, b, q, sz, x);
        }
      }
    }
  }

  /** An operation that changes no page at all. */
  lemma NoPagesSameView(p: Phys, p': Phys, r: int, a: int, sz: int)
    requires GoodPhys(p) && GoodPhys(p') && IsRoot(p, r) && Within(p, p', r, a, a)
    ensures SameView(p, p', r, sz)
  {
    forall x ensures View(p', r, sz, x) == View(p, r, sz, x) {
      ViewOutside(p, p', r, a, a, r, sz, x);
    }
  }

  // ---------------------------------------------------------------- vmfault

  const ZERO_PAGE_PERM := Perm(true, true, false, true)

  /** Filling in a lazily allocated page cannot be seen. */
  lemma FaultSameView(p: Phys, p': Phys, r: int, v: int, sz: int)
    requires GoodPhys(p) && GoodPhys(p') && IsRoot(p, r) && 0 <= v < PAGES && v < PagesFor(sz)
    requires !Lookup(p.tab, r, v).valid && Within(p, p', r, v, v + 1)
    requires FreshPage(p', r, v, ZERO_PAGE_PERM, Bytes(0))
    ensures SameView(p, p', r, sz)
  {
    forall x ensures View(p', r, sz, x) == View(p, r, sz, x) {
      if x / PGSIZE != v {
        ViewOutside(p, p', r, v, v + 1, r, sz, x);
      }
    }
  }

  /** No address space's view has changed; r has size sz. */
  ghost predicate Unseen(p: Phys, p': Phys, r: int, sz: int) {
    SameView(p, p', r, sz) && OthersSame(p, p', r)
  }

  lemma UnseenTransitive(p: Phys, p1: Phys, p2: Phys, r: int, sz: int)
    requires Unseen(p, p1, r, sz) && Unseen(p1, p2, r, sz)
    ensures Unseen(p, p2, r, sz)
  {
    OthersSameTransitive(p, p1, p2, r);
    SameViewTransitive(p, p1, p2, r, sz);
  }

  lemma UnseenReflexive(p: Phys, r: int, sz: int)
    ensures Unseen(p, p, r, sz)
  {
  }

  /** Only pages of r may have changed, and none at or above sz. */
  ghost predicate Confined(p: Phys, p': Phys, r: int, sz: int) {
    && Within(p, p', r, 0, TRAPFRAME)
    && forall w :: 0 <= w < PAGES && PagesFor(sz) <= w ==> Lookup(p'.tab, r, w) == Lookup(p.tab, r, w)
  }

  lemma ConfinedTransitive(p: Phys, p1: Phys, p2: Phys, r: int, sz: int)
    requires Confined(p, p1, r, sz) && Confined(p1, p2, r, sz)
    ensures Confined(p, p2, r, sz)
  {
    WithinTransitive(p, p1, p2, r, 0, TRAPFRAME);
  }

  /** vmfault at address va: maps a zeroed frame if va lies in the process and its page is not mapped. */
  method Vmfault(mem: Frames, r: int, sz: int, va: int) returns (f: int)
    requires mem.Valid() && IsRoot(mem.P(), r) && 0 <= sz <= TRAPFRAME * PGSIZE && 0 <= va
    modifies mem
    ensures mem.Valid() && mem.base == old(mem.base) && IsRoot(mem.P(), r)
    ensures Unseen(old(mem.P()), mem.P(), r, sz) && Confined(old(mem.P()), mem.P(), r, sz)
    ensures f != 0 ==> va < sz && va / PGSIZE < PAGES && !Lookup(old(mem.tab), r, va / PGSIZE).valid
    ensures f != 0 ==> Lookup(mem.tab, r, va / PGSIZE) == Pte(true, f, ZERO_PAGE_PERM)
    ensures f == 0 ==>
      va >= sz || (va / PGSIZE < PAGES && Lookup(old(mem.tab), r, va / PGSIZE).valid) || |mem.free| <= 1
  {
    hide GoodPhys, Reached, OnList, FreeExactly, KernelBelow, Unseen, Lookup, Within, FreshPage, Confined;
    ghost var p := mem.P();
    UnseenReflexive(p, r, sz);
    ConfinedSelf(p, r, sz);
    PagesForMonotone(sz, TRAPFRAME * PGSIZE);
    if va >= sz {
      return 0;
    }
    var v := va / PGSIZE;
    PageInSize(va, sz);
    var mapped := Ismapped(mem, r, v);
    if mapped {
      return 0;
    }
    var ok;
    ok, f := MapFresh(mem, r, v, ZERO_PAGE_PERM, Bytes(0));
    ghost var p' := mem.P();
    if ok {
      FreshPageIs(p', r, v, ZERO_PAGE_PERM, f, Bytes(0));
      FaultUnseen(p, p', r, v, sz);
    } else {
      NoFaultUnseen(p, p', r, v, sz);
      f := 0;
    }
  }

  lemma PageInSize(a: int, sz: int)
    requires 0 <= a && 0 <= sz
    ensures a < sz ==> a / PGSIZE < PagesFor(sz)
    ensures a % PGSIZE == 0 && a >= sz ==> a / PGSIZE >= PagesFor(sz)
  {
  }

  lemma ConfinedSelf(p: Phys, r: int, sz: int)
    requires GoodPhys(p)
    ensures Confined(p, p, r, sz)
  {
  }

  lemma FaultUnseen(p: Phys, p': Phys, r: int, v: int, sz: int)
    requires GoodPhys(p) && GoodPhys(p') && IsRoot(p, r) && 0 <= v < TRAPFRAME && v < PagesFor(sz)
    requires !Lookup(p.tab, r, v).valid && Within(p, p', r, v, v + 1)
    requires FreshPage(p', r, v, ZERO_PAGE_PERM, Bytes(0))
    ensures Unseen(p, p', r, sz) && IsRoot(p', r) && Confined(p, p', r, sz)
  {
    FaultSameView(p, p', r, v, sz);
    WithinOthersSame(p, p', r, v, v + 1);
    WithinRoot(p, p', r, v, v + 1, r);
    WithinWider(p, p', r, v, v + 1, 0, TRAPFRAME);
  }

  lemma NoFaultUnseen(p: Phys, p': Phys, r: int, v: int, sz: int)
    requires GoodPhys(p) && GoodPhys(p') && IsRoot(p, r) && Within(p, p', r, v, v)
    ensures Unseen(p, p', r, sz) && IsRoot(p', r) && Confined(p, p', r, sz)
  {
    NoPagesSameView(p, p', r, v, sz);
    WithinOthersSame(p, p', r, v, v);
    WithinRoot(p, p', r, v, v, r);
    WithinWider(p, p', r, v, v, 0, TRAPFRAME);
  }

  // ---------------------------------------------------------------- reaching one page

  /** The start of copyin's and copyout's loop bodies: the frame of a page, faulting it in if needed, or 0. */
  method Reach(mem: Frames, r: int, sz: int, v: int) returns (f: int)
    requires mem.Valid() && IsRoot(mem.P(), r) && 0 <= sz <= TRAPFRAME * PGSIZE && 0 <= v
    modifies mem
    ensures mem.Valid() && mem.base == old(mem.base) && IsRoot(mem.P(), r)
    ensures Unseen(old(mem.P()), mem.P(), r, sz) && Confined(old(mem.P()), mem.P(), r, sz)
    ensures f != 0 ==> v < PAGES && var e := Lookup(mem.tab, r, v); e.valid && e.perm.u && e.frame == f
    ensures f == 0 ==> |mem.free| <= 1 || forall x :: x / PGSIZE == v ==> View(old(mem.P()), r, sz, x) == Denied
    ensures OpenPage(old(mem.tab), r, v) ==> f != 0 && mem.P() == old(mem.P())
  {
    hide GoodPhys, Reached, OnList, FreeExactly, KernelBelow, Unseen, Lookup, Confined;
    ghost var p := mem.P();
    UnseenReflexive(p, r, sz);
    ConfinedSelf(p, r, sz);
    f := Walkaddr(mem, r, v);
    OpenFrame(p, mem.lo, r, v);
    if f == 0 {
      NotReached(p, mem.lo, r, sz, v);
      PageInSize(v * PGSIZE, sz);
      f := Vmfault(mem, r, sz, v * PGSIZE);
    }
  }

  /** A mapped page that user code can reach; copying to or from it takes no fault. */
  ghost predicate OpenPage(tab: seq<Table>, r: int, v: int) {
    0 <= v < PAGES && Lookup(tab, r, v).valid && Lookup(tab, r, v).perm.u
  }

  ghost predicate OpenRange(tab: seq<Table>, r: int, a: int, n: int) {
    forall x :: a <= x < a + n ==> OpenAt(tab, r, x)
  }

  ghost predicate OpenAt(tab: seq<Table>, r: int, x: int) { OpenPage(tab, r, x / PGSIZE) }

  lemma OpenFrame(p: Phys, lo: int, r: int, v: int)
    requires GoodPhys(p) && KernelBelow(p.own, lo) && 0 < lo && IsRoot(p, r)
    ensures OpenPage(p.tab, r, v) ==> Lookup(p.tab, r, v).frame != 0
  {
    if OpenPage(p.tab, r, v) {
      UserFrame(p, r, v);
    }
  }

  lemma NotReached(p: Phys, lo: int, r: int, sz: int, v: int)
    requires GoodPhys(p) && KernelBelow(p.own, lo) && 0 < lo && IsRoot(p, r) && 0 <= v
    requires v < PAGES ==> var e := Lookup(p.tab, r, v); !(e.valid && e.perm.u && e.frame != 0)
    ensures v >= PAGES || v >= PagesFor(sz) || Lookup(p.tab, r, v).valid ==>
              forall x :: x / PGSIZE == v ==> View(p, r, sz, x) == Denied
  {
    if v < PAGES {
      UserFrame(p, r, v);
    }
  }

  // ---------------------------------------------------------------- copyin

  ghost predicate Reads(p: Phys, r: int, sz: int, src: int, dst: seq<int>) {
    forall x :: src <= x < src + |dst| ==> View(p, r, sz, x).Byte? && View(p, r, sz, x).b == dst[x - src]
  }

  /** The bytes of one page. */
  lemma ReadsPage(p: Phys, r: int, sz: int, a: int, n: int)
    requires GoodPhys(p) && IsRoot(p, r) && 0 <= a && 0 <= n && a % PGSIZE + n <= PGSIZE && a / PGSIZE < PAGES
    requires var e := Lookup(p.tab, r, a / PGSIZE); e.valid && e.perm.u
    ensures var f := Lookup(p.tab, r, a / PGSIZE).frame;
            0 <= f < |p.data| && |p.data[f]| == PGSIZE && Reads(p, r, sz, a, p.data[f][a % PGSIZE..a % PGSIZE + n])
  {
    UserFrame(p, r, a / PGSIZE);
    var f := Lookup(p.tab, r, a / PGSIZE).frame;
    var part := p.data[f][a % PGSIZE..a % PGSIZE + n];
    forall x | a <= x < a + |part| ensures View(p, r, sz, x).Byte? && View(p, r, sz, x).b == part[x - a] {
      SamePage(a, x - a);
    }
  }

  lemma SamePage(a: int, j: int)
    requires 0 <= a && 0 <= j && a % PGSIZE + j < PGSIZE
    ensures (a + j) / PGSIZE == a / PGSIZE && (a + j) % PGSIZE == a % PGSIZE + j
  {
  }

  lemma ReadsMore(p0: Phys, p: Phys, r: int, sz: int, src: int, dst: seq<int>, part: seq<int>)
    requires Unseen(p0, p, r, sz) && Reads(p0, r, sz, src, dst) && Reads(p, r, sz, src + |dst|, part)
    ensures Reads(p0, r, sz, src, dst + part)
  {
    forall x | src <= x < src + |dst + part|
      ensures View(p0, r, sz, x).Byte? && View(p0, r, sz, x).b == (dst + part)[x - src]
    {
      if x >= src + |dst| {
        assert View(p, r, sz, x) == View(p0, r, sz, x);
      }
    }
  }

  /** copyin: the bytes that user code sees, or a failure at the first byte it does not see. */
  method Copyin(mem: Frames, r: int, sz: int, src: int, len: int) returns (ok: bool, dst: seq<int>)
    requires mem.Valid() && IsRoot(mem.P(), r) && 0 <= sz <= TRAPFRAME * PGSIZE && 0 <= src && 0 <= len
    modifies mem
    ensures mem.Valid() && mem.base == old(mem.base) && IsRoot(mem.P(), r)
    ensures Unseen(old(mem.P()), mem.P(), r, sz) && Confined(old(mem.P()), mem.P(), r, sz)
    ensures |dst| <= len && (ok <==> |dst| == len) && Reads(old(mem.P()), r, sz, src, dst)
    ensures !ok ==> |mem.free| <= 1 || View(old(mem.P()), r, sz, src + |dst|) == Denied
    ensures !ok ==> |dst| == 0 || (src + |dst|) % PGSIZE == 0
  {
    hide GoodPhys, Reached, OnList, FreeExactly, KernelBelow, Unseen, Lookup, Reads, Confined, View;
    ghost var p0 := mem.P();
    UnseenReflexive(p0, r, sz);
    ConfinedSelf(p0, r, sz);
    dst := [];
    ReadsNothing(p0, r, sz, src);
    var a := src;
    while |dst| < len
      invariant mem.Valid() && mem.base == old(mem.base) && IsRoot(mem.P(), r) && a == src + |dst| && |dst| <= len
      invariant |dst| == 0 || |dst| == len || a % PGSIZE == 0
      invariant Unseen(p0, mem.P(), r, sz) && Confined(p0, mem.P(), r, sz) && Reads(p0, r, sz, src, dst)
      decreases len - |dst|
    {
      ghost var p := mem.P();
      var v := a / PGSIZE;
      var f := Reach(mem, r, sz, v);
      ghost var p1 := mem.P();
      UnseenTransitive(p0, p, p1, r, sz);
      ConfinedTransitive(p0, p, p1, r, sz);
      if f == 0 {
        UnseenAt(p0, p, r, sz, a);
        return false, dst;
      }
      var n := PGSIZE - a % PGSIZE;
      if n > len - |dst| {
        n := len - |dst|;
      }
      ReadsPage(p1, r, sz, a, n);
      var part := mem.data[f][a % PGSIZE..a % PGSIZE + n];
      ReadsMore(p0, p1, r, sz, src, dst, part);
      dst := dst + part;
      a := a + n;
    }
    return true, dst;
  }

  lemma ReadsNothing(p: Phys, r: int, sz: int, src: int)
    ensures Reads(p, r, sz, src, [])
  {
  }

  lemma UnseenAt(p: Phys, p': Phys, r: int, sz: int, a: int)
    requires Unseen(p, p', r, sz)
    ensures View(p', r, sz, a) == View(p, r, sz, a)
  {
  }

  // ---------------------------------------------------------------- copyout

  /** The view of r after the bytes from dst on, all in its reach, have been replaced. */
  ghost predicate Overwrote(p: Phys, p': Phys, r: int, sz: int, dst: int, bytes: seq<int>) {
    && OthersSame(p, p', r)
    && (forall x :: dst <= x < dst + |bytes| ==> View(p, r, sz, x).Byte?)
    && forall a :: View(p', r, sz, a) ==
         if dst <= a < dst + |bytes| then Over(View(p, r, sz, a), bytes[a - dst]) else View(p, r, sz, a)
  }

  /** The same, where r itself may write. */
  ghost predicate Wrote(p: Phys, p': Phys, r: int, sz: int, dst: int, bytes: seq<int>) {
    && Overwrote(p, p', r, sz, dst, bytes)
    && forall x :: dst <= x < dst + |bytes| ==> View(p, r, sz, x).writable
  }

  function Spliced(page: Page, off: int, bytes: seq<int>): Page
    requires 0 <= off && off + |bytes| <= |page|
  {
    page[..off] + bytes + page[off + |bytes|..]
  }

  lemma SplicedAt(page: Page, off: int, bytes: seq<int>, i: int)
    requires 0 <= off && off + |bytes| <= |page| && 0 <= i < |page|
    ensures |Spliced(page, off, bytes)| == |page|
    ensures Spliced(page, off, bytes)[i] == if off <= i < off + |bytes| then bytes[i - off] else page[i]
  {
  }

  /** Writing part of one user frame. */
  ghost predicate Stored(p: Phys, p': Phys, r: int, a: int, bytes: seq<int>) {
    && 0 <= a && a / PGSIZE < PAGES && a % PGSIZE + |bytes| <= PGSIZE
    && var f := Lookup(p.tab, r, a / PGSIZE).frame;
       0 <= f < |p.data| && |p.data[f]| == PGSIZE
       && p' == p.(data := p.data[f := Spliced(p.data[f], a % PGSIZE, bytes)])
  }

  /** Only the page of r that was written to changes. */
  lemma StoredElsewhere(p: Phys, p': Phys, r: int, a: int, bytes: seq<int>, q: int, sz: int, x: int)
    requires GoodPhys(p) && IsRoot(p, r) && IsRoot(p, q) && Stored(p, p', r, a, bytes)
    requires var e := Lookup(p.tab, r, a / PGSIZE); e.valid && e.perm.u
    requires q != r || x / PGSIZE != a / PGSIZE
    ensures View(p', q, sz, x) == View(p, q, sz, x)
  {
    UserFrame(p, r, a / PGSIZE);
    if 0 <= x / PGSIZE < PAGES {
      UserFrame(p, q, x / PGSIZE);
    }
    SplicedAt(p.data[Lookup(p.tab, r, a / PGSIZE).frame], a % PGSIZE, bytes, 0);
  }

  lemma StoredHere(p: Phys, p': Phys, r: int, a: int, bytes: seq<int>, sz: int, x: int)
    requires GoodPhys(p) && IsRoot(p, r) && Stored(p, p', r, a, bytes)
    requires var e := Lookup(p.tab, r, a / PGSIZE); e.valid && e.perm.u
    requires x / PGSIZE == a / PGSIZE
    ensures View(p, r, sz, x).Byte? && View(p, r, sz, x).writable == Lookup(p.tab, r, a / PGSIZE).perm.w
    ensures View(p', r, sz, x) ==
            if a <= x < a + |bytes| then Over(View(p, r, sz, x), bytes[x - a]) else View(p, r, sz, x)
  {
    SplicedAt(p.data[Lookup(p.tab, r, a / PGSIZE).frame], a % PGSIZE, bytes, x % PGSIZE);
    Offsets(a, x);
  }

  lemma Offsets(a: int, x: int)
    requires x / PGSIZE == a / PGSIZE
    ensures x - a == x % PGSIZE - a % PGSIZE
  {
  }

  lemma StoredOverwrote(p: Phys, p': Phys, r: int, a: int, bytes: seq<int>, sz: int)
    requires GoodPhys(p) && IsRoot(p, r) && Stored(p, p', r, a, bytes)
    requires var e := Lookup(p.tab, r, a / PGSIZE); e.valid && e.perm.u
    ensures GoodPhys(p') && IsRoot(p', r) && Overwrote(p, p', r, sz, a, bytes)
    ensures Lookup(p.tab, r, a / PGSIZE).perm.w ==> Wrote(p, p', r, sz, a, bytes)
  {
    hide Lookup, Stored;
    StoredGood(p, p', r, a, bytes);
    StoredOthersSame(p, p', r, a, bytes);
    StoredBounds(p, p', r, a, bytes);
    forall x | a <= x < a + |bytes|
      ensures View(p, r, sz, x).Byte? && View(p, r, sz, x).writable == Lookup(p.tab, r, a / PGSIZE).perm.w
    {
      SamePage(a, x - a);
      StoredHere(p, p', r, a, bytes, sz, x);
    }
    forall x ensures View(p', r, sz, x) ==
      if a <= x < a + |bytes| then Over(View(p, r, sz, x), bytes[x - a]) else View(p, r, sz, x)
    {
      if x / PGSIZE == a / PGSIZE {
        StoredHere(p, p', r, a, bytes, sz, x);
      } else {
        StoredElsewhere(p, p', r, a, bytes, r, sz, x);
        if a <= x < a + |bytes| {
          SamePage(a, x - a);
        }
      }
    }
  }

  lemma StoredConfined(p: Phys, p': Phys, r: int, a: int, bytes: seq<int>, sz: int)
    requires GoodPhys(p) && IsRoot(p, r) && Stored(p, p', r, a, bytes)
    requires var e := Lookup(p.tab, r, a / PGSIZE); e.valid && e.perm.u
    ensures Confined(p, p', r, sz)
  {
    UserFrame(p, r, a / PGSIZE);
    UserLeaf(M(p), r, a / PGSIZE);
    forall g | 0 <= g < |p.own| ensures FrameStep(p, p', r, 0, TRAPFRAME, g) {
    }
  }

  lemma StoredOthersSame(p: Phys, p': Phys, r: int, a: int, bytes: seq<int>)
    requires GoodPhys(p) && IsRoot(p, r) && Stored(p, p', r, a, bytes)
    requires var e := Lookup(p.tab, r, a / PGSIZE); e.valid && e.perm.u
    ensures OthersSame(p, p', r)
  {
    StoredGood(p, p', r, a, bytes);
    forall q | IsRoot(p, q) && q != r ensures LooksSame(p, p', q) {
      forall s ensures SameView(p, p', q, s) {
        forall x ensures View(p', q, s, x) == View(p, q, s, x) {
          StoredElsewhere(p, p', r, a, bytes, q, s, x);
        }
      }
    }
  }

  lemma StoredBounds(p: Phys, p': Phys, r: int, a: int, bytes: seq<int>)
    requires Stored(p, p', r, a, bytes)
    ensures 0 <= a && a % PGSIZE + |bytes| <= PGSIZE
  {
  }

  lemma StoredGood(p: Phys, p': Phys, r: int, a: int, bytes: seq<int>)
    requires GoodPhys(p) && Stored(p, p', r, a, bytes)
    ensures GoodPhys(p') && p'.own == p.own && p'.tab == p.tab
  {
    SplicedAt(p.data[Lookup(p.tab, r, a / PGSIZE).frame], a % PGSIZE, bytes, 0);
  }

  lemma OverwroteMore(p0: Phys, p: Phys, p1: Phys, p2: Phys, r: int, sz: int, dst: int, done: seq<int>, part: seq<int>)
    requires Overwrote(p0, p, r, sz, dst, done) && Unseen(p, p1, r, sz) && Overwrote(p1, p2, r, sz, dst + |done|, part)
    ensures Overwrote(p0, p2, r, sz, dst, done + part)
  {
    OthersSameTransitive(p0, p, p1, r);
    OthersSameTransitive(p0, p1, p2, r);
    var all := done + part;
    forall a ensures View(p1, r, sz, a) == View(p, r, sz, a) {
      UnseenAt(p, p1, r, sz, a);
    }
    forall x | dst <= x < dst + |all| ensures View(p0, r, sz, x).Byte? {
      if x >= dst + |done| {
        assert View(p, r, sz, x) == View(p0, r, sz, x);
        assert View(p1, r, sz, x).Byte?;
      }
    }
    forall a ensures View(p2, r, sz, a) ==
      if dst <= a < dst + |all| then Over(View(p0, r, sz, a), all[a - dst]) else View(p0, r, sz, a)
    {
    }
  }

  lemma WroteMore(p0: Phys, p: Phys, p1: Phys, p2: Phys, r: int, sz: int, dst: int, done: seq<int>, part: seq<int>)
    requires Wrote(p0, p, r, sz, dst, done) && Unseen(p, p1, r, sz) && Wrote(p1, p2, r, sz, dst + |done|, part)
    ensures Wrote(p0, p2, r, sz, dst, done + part)
  {
    OverwroteMore(p0, p, p1, p2, r, sz, dst, done, part);
    var all := done + part;
    forall x | dst <= x < dst + |all| ensures View(p0, r, sz, x).writable {
      if x >= dst + |done| {
        assert View(p, r, sz, x) == View(p0, r, sz, x);
        UnseenAt(p, p1, r, sz, x);
      }
    }
  }

  lemma WroteNothing(p: Phys, r: int, sz: int, dst: int)
    ensures Wrote(p, p, r, sz, dst, [])
  {
  }

  /** One memmove into a user page. */
  method Store(mem: Frames, r: int, ghost sz: int, f: int, a: int, bytes: seq<int>)
    requires mem.Valid() && IsRoot(mem.P(), r) && 0 <= a && a / PGSIZE < PAGES && a % PGSIZE + |bytes| <= PGSIZE
    requires var e := Lookup(mem.tab, r, a / PGSIZE); e.valid && e.perm.u && e.frame == f
    modifies mem`data
    ensures mem.Valid() && IsRoot(mem.P(), r) && Confined(old(mem.P()), mem.P(), r, sz)
    ensures Overwrote(old(mem.P()), mem.P(), r, sz, a, bytes)
    ensures Lookup(mem.tab, r, a / PGSIZE).perm.w ==> Wrote(old(mem.P()), mem.P(), r, sz, a, bytes)
  {
    hide GoodPhys, Reached, OnList, FreeExactly, KernelBelow, Wrote, Overwrote, Lookup, Confined;
    ghost var p := mem.P();
    UserFrame(p, r, a / PGSIZE);
    mem.data := mem.data[f := Spliced(mem.data[f], a % PGSIZE, bytes)];
    StoredOverwrote(p, mem.P(), r, a, bytes, sz);
    StoredConfined(p, mem.P(), r, a, bytes, sz);
    StoreReached(mem.base, p, f, mem.data[f]);
  }

  lemma StoreReached(p0: Phys, p: Phys, f: int, page: Page)
    requires GoodPhys(p) && Reached(p0, p) && 0 <= f < |p.data| && |page| == PGSIZE
    ensures Reached(p0, p.(data := p.data[f := page]))
  {
    hide Reached;
    ReachedMore(p0, p, p.(data := p.data[f := page]), WritePage(f));
  }

  /** copyout: `done` bytes are written, all of them unless the next one cannot be. */
  method Copyout(mem: Frames, r: int, sz: int, dst: int, src: seq<int>) returns (ok: bool, ghost done: int)
    requires mem.Valid() && IsRoot(mem.P(), r) && 0 <= sz <= TRAPFRAME * PGSIZE && 0 <= dst
    modifies mem
    ensures mem.Valid() && mem.base == old(mem.base) && IsRoot(mem.P(), r) && Confined(old(mem.P()), mem.P(), r, sz)
    ensures 0 <= done <= |src| && (ok <==> done == |src|) && Wrote(old(mem.P()), mem.P(), r, sz, dst, src[..done])
    ensures !ok ==> |mem.free| <= 1 || View(old(mem.P()), r, sz, dst + done) == Denied
                    || !View(old(mem.P()), r, sz, dst + done).writable
    ensures !ok ==> done == 0 || (dst + done) % PGSIZE == 0
    ensures OpenRange(old(mem.tab), r, dst, |src|) ==> mem.tab == old(mem.tab) && mem.own == old(mem.own)
    ensures OpenRange(old(mem.tab), r, dst, |src|) && !ok ==>
              View(old(mem.P()), r, sz, dst + done).Byte? ==> !View(old(mem.P()), r, sz, dst + done).writable
  {
    hide GoodPhys, Reached, OnList, FreeExactly, KernelBelow, Unseen, Lookup, Wrote, Confined, View, OpenPage,
      OpenRange, LowPte;
    ghost var p0 := mem.P();
    WroteNothing(p0, r, sz, dst);
    ConfinedSelf(p0, r, sz);
    var i := 0;
    assert src[..0] == [];
    while i < |src|
      invariant mem.Valid() && mem.base == old(mem.base) && IsRoot(mem.P(), r) && 0 <= i <= |src|
      invariant i == 0 || i == |src| || (dst + i) % PGSIZE == 0
      invariant Confined(p0, mem.P(), r, sz) && Wrote(p0, mem.P(), r, sz, dst, src[..i])
      invariant OpenRange(p0.tab, r, dst, |src|) ==> mem.tab == p0.tab && mem.own == p0.own
      decreases |src| - i
    {
      ghost var p := mem.P();
      var a := dst + i;
      var v := a / PGSIZE;
      if v >= PAGES {
        BeyondDenied(p, r, sz, a);
        WroteOutside(p0, p, r, sz, dst, src[..i], a);
        return false, i;
      }
      OpenThere(p0.tab, r, dst, |src|, a);
      var f := Reach(mem, r, sz, v);
      ghost var p1 := mem.P();
      ConfinedTransitive(p0, p, p1, r, sz);
      if f == 0 {
        WroteOutside(p0, p, r, sz, dst, src[..i], a);
        WroteUnseen(p0, p, p1, r, sz, dst, src[..i]);
        return false, i;
      }
      var t := Find(mem, r, v);
      FoundLeaf(p1, r, v, t);
      if !mem.tab[t][v % PTES].perm.w {
        ReadOnlyCell(p1, r, sz, a);
        UnseenAt(p, p1, r, sz, a);
        WroteOutside(p0, p, r, sz, dst, src[..i], a);
        WroteUnseen(p0, p, p1, r, sz, dst, src[..i]);
        return false, i;
      }
      var n := PGSIZE - a % PGSIZE;
      if n > |src| - i {
        n := |src| - i;
      }
      Store(mem, r, sz, f, a, src[i..i + n]);
      ConfinedTransitive(p0, p1, mem.P(), r, sz);
      WroteMore(p0, p, p1, mem.P(), r, sz, dst, src[..i], src[i..i + n]);
      assert src[..i] + src[i..i + n] == src[..i + n];
      i := i + n;
    }
    return true, |src|;
  }

  lemma OpenThere(tab: seq<Table>, r: int, dst: int, n: int, a: int)
    requires dst <= a < dst + n
    ensures OpenRange(tab, r, dst, n) ==> OpenAt(tab, r, a)
  {
  }

  lemma FoundLeaf(p: Phys, r: int, v: int, t: int)
    requires GoodPhys(p) && IsRoot(p, r) && 0 <= v < PAGES && Lookup(p.tab, r, v).valid
    requires t != 0 ==> AtLevel(p, r, v, 0, t)
    requires t == 0 ==> !LowPte(p.tab, r, v / PTES).valid
    ensures 0 <= t < |p.tab| && |p.tab[t]| == PTES && p.tab[t][v % PTES] == Lookup(p.tab, r, v)
  {
    if t != 0 {
      FoundEntry(p, r, v, t);
    }
  }

  lemma BeyondDenied(p: Phys, r: int, sz: int, a: int)
    requires a / PGSIZE >= PAGES
    ensures View(p, r, sz, a) == Denied
  {
  }

  lemma ReadOnlyCell(p: Phys, r: int, sz: int, a: int)
    requires GoodPhys(p) && IsRoot(p, r) && 0 <= a && a / PGSIZE < PAGES
    requires var e := Lookup(p.tab, r, a / PGSIZE); e.valid && e.perm.u && !e.perm.w
    ensures View(p, r, sz, a).Byte? && !View(p, r, sz, a).writable
  {
    UserFrame(p, r, a / PGSIZE);
  }

  lemma WroteOutside(p: Phys, p': Phys, r: int, sz: int, dst: int, bytes: seq<int>, a: int)
    requires Wrote(p, p', r, sz, dst, bytes) && a == dst + |bytes|
    ensures View(p', r, sz, a) == View(p, r, sz, a)
  {
  }

  lemma WroteUnseen(p0: Phys, p: Phys, p1: Phys, r: int, sz: int, dst: int, bytes: seq<int>)
    requires Wrote(p0, p, r, sz, dst, bytes) && Unseen(p, p1, r, sz)
    ensures Wrote(p0, p1, r, sz, dst, bytes)
  {
    OthersSameTransitive(p0, p, p1, r);
    forall a ensures View(p1, r, sz, a) == View(p, r, sz, a) {
      UnseenAt(p, p1, r, sz, a);
    }
  }

  // ---------------------------------------------------------------- uvmcopy

  /** Page v of s is a copy of page v of r, in a frame of its own. */
  ghost predicate CopiedPage(p: Phys, r: int, s: int, v: int) {
    var e, e' := Lookup(p.tab, r, v), Lookup(p.tab, s, v);
    e'.valid == e.valid &&
    (e.valid ==>
       && e'.perm == e.perm && e'.frame != e.frame
       && 0 <= e.frame < |p.data| && 0 <= e'.frame < |p.data| && p.data[e'.frame] == p.data[e.frame])
  }

  /** The pages [0, i) are copied, the pages [i, n) not yet. */
  ghost predicate Copying(p: Phys, r: int, s: int, i: int, n: int) {
    && (forall v :: 0 <= v < i ==> CopiedPage(p, r, s, v))
    && (forall v :: i <= v < n ==> !Lookup(p.tab, s, v).valid)
  }

  /** A copied page stays one while other pages of s change. */
  lemma CopiedStays(p: Phys, p': Phys, r: int, s: int, a: int, b: int, v: int)
    requires GoodPhys(p) && IsRoot(p, r) && IsRoot(p, s) && r != s && Within(p, p', s, a, b)
    requires 0 <= v < TRAPFRAME && !(a <= v < b) && CopiedPage(p, r, s, v)
    ensures CopiedPage(p', r, s, v)
  {
    if Lookup(p.tab, r, v).valid {
      UserLeaf(M(p), r, v);
      UserLeaf(M(p), s, v);
      assert FrameStep(p, p', s, a, b, Lookup(p.tab, r, v).frame);
      assert FrameStep(p, p', s, a, b, Lookup(p.tab, s, v).frame);
    }
  }

  lemma CopyingStep(p: Phys, p': Phys, r: int, s: int, i: int, n: int)
    requires GoodPhys(p) && IsRoot(p, r) && IsRoot(p, s) && r != s && Within(p, p', s, i, i + 1)
    requires 0 <= i < n <= TRAPFRAME && Copying(p, r, s, i, n) && Lookup(p.tab, r, i).valid
    requires var e := Lookup(p.tab, r, i);
             0 <= e.frame < |p.data| && FreshPage(p', s, i, e.perm, p.data[e.frame])
    ensures Copying(p', r, s, i + 1, n)
  {
    var e := Lookup(p.tab, r, i);
    UserLeaf(M(p), r, i);
    assert FrameStep(p, p', s, i, i + 1, e.frame);
    forall v | 0 <= v < i ensures CopiedPage(p', r, s, v) {
      CopiedStays(p, p', r, s, i, i + 1, v);
    }
  }

  lemma CopyingStays(p: Phys, p': Phys, r: int, s: int, i: int, n: int)
    requires GoodPhys(p) && IsRoot(p, r) && IsRoot(p, s) && r != s && Within(p, p', s, i, i)
    requires 0 <= i < n <= TRAPFRAME && Copying(p, r, s, i, n)
    ensures Copying(p', r, s, i, n)
  {
    forall v | 0 <= v < i ensures CopiedPage(p', r, s, v) {
      CopiedStays(p, p', r, s, i, i, v);
    }
  }

  /** Undoing a copy that ran out of memory. */
  lemma CopyUndone(p: Phys, p1: Phys, p2: Phys, r: int, s: int, i: int, n: int)
    requires Within(p, p1, s, 0, n) && IsRoot(p1, s) && 0 <= i < n <= TRAPFRAME && Copying(p1, r, s, i, n)
    requires Unmapped(p1, p2, s, 0, i)
    ensures Within(p, p2, s, 0, n) && Copying(p2, r, s, 0, n)
  {
    UnmappedWithin(p1, p2, s, 0, i);
    WithinWider(p1, p2, s, 0, i, 0, n);
    WithinTransitive(p, p1, p2, s, 0, n);
  }

  /** The frame behind a page of r, ready to be copied. */
  lemma PageToCopy(p: Phys, r: int, v: int)
    requires GoodPhys(p) && IsRoot(p, r) && 0 <= v < TRAPFRAME && Lookup(p.tab, r, v).valid
    ensures var e := Lookup(p.tab, r, v);
            0 <= e.frame < |p.data| && |p.data[e.frame]| == PGSIZE && IsLeaf(Pte(true, 0, e.perm))
  {
    UserLeaf(M(p), r, v);
  }

  lemma StepWithin(p: Phys, p1: Phys, p2: Phys, s: int, a: int, b: int, n: int)
    requires Within(p, p1, s, 0, n) && Within(p1, p2, s, a, b) && 0 <= a <= b <= n
    ensures Within(p, p2, s, 0, n)
  {
    WithinWider(p1, p2, s, a, b, 0, n);
    WithinTransitive(p, p1, p2, s, 0, n);
  }

  /** uvmcopy: the pages of r below sz, with their contents and permissions, into the empty address space s.
      On failure s has no pages left. */
  method Uvmcopy(mem: Frames, r: int, s: int, sz: int) returns (ok: bool)
    requires mem.Valid() && IsRoot(mem.P(), r) && IsRoot(mem.P(), s) && r != s && 0 <= sz <= TRAPFRAME * PGSIZE
    requires forall v :: 0 <= v < PagesFor(sz) ==> !Lookup(mem.tab, s, v).valid
    modifies mem
    ensures mem.Valid() && mem.base == old(mem.base) && IsRoot(mem.P(), r) && IsRoot(mem.P(), s)
    ensures Within(old(mem.P()), mem.P(), s, 0, PagesFor(sz))
    ensures Copying(mem.P(), r, s, if ok then PagesFor(sz) else 0, PagesFor(sz))
    ensures !ok ==> |old(mem.free)| < 3 * PagesFor(sz)
  {
    hide GoodPhys, Reached, OnList, FreeExactly, KernelBelow, Within, Copying, Lookup, IsRoot, FreshPage, Unmapped;
    ghost var p0 := mem.P();
    ghost var n := PagesFor(sz);
    PagesForMonotone(sz, TRAPFRAME * PGSIZE);
    PagesForBounds(sz);
    WithinReflexive(p0, s, 0, n);
    CopyingNone(p0, r, s, n);
    var i := 0;
    while i * PGSIZE < sz
      invariant 0 <= i <= n && mem.Valid() && mem.base == old(mem.base) && IsRoot(mem.P(), r) && IsRoot(mem.P(), s)
      invariant Within(p0, mem.P(), s, 0, n) && Copying(mem.P(), r, s, i, n)
      invariant |mem.free| >= |old(mem.free)| - 3 * i
      decreases n - i
    {
      ghost var p := mem.P();
      var t := Find(mem, r, i);
      var mapped := false;
      if t != 0 {
        FoundEntry(p, r, i, t);
        mapped := mem.tab[t][i % PTES].valid;
      } else {
        NoLeaf(p.tab, r, i);
      }
      if !mapped {
        CopyingSkip(p, r, s, i, n);
        i := i + 1;
        continue;
      }
      var pte := mem.tab[t][i % PTES];
      PageToCopy(p, r, i);
      CopyingNext(p, r, s, i, n);
      var done, f := MapFresh(mem, s, i, pte.perm, mem.data[pte.frame]);
      ghost var p1 := mem.P();
      if !done {
        StepWithin(p0, p, p1, s, i, i, n);
        WithinRoot(p, p1, s, i, i, r);
        WithinRoot(p, p1, s, i, i, s);
        CopyingStays(p, p1, r, s, i, n);
        Uvmunmap(mem, s, 0, i, true);
        UnmapRoot(p1, mem.P(), s, 0, i, r);
        CopyUndone(p0, p1, mem.P(), r, s, i, n);
        return false;
      }
      StepWithin(p0, p, p1, s, i, i + 1, n);
      WithinRoot(p, p1, s, i, i + 1, r);
      WithinRoot(p, p1, s, i, i + 1, s);
      FreshPageIs(p1, s, i, pte.perm, f, p.data[pte.frame]);
      CopyingStep(p, p1, r, s, i, n);
      i := i + 1;
    }
    return true;
  }

  lemma CopyingNone(p: Phys, r: int, s: int, n: int)
    requires forall v :: 0 <= v < n ==> !Lookup(p.tab, s, v).valid
    ensures Copying(p, r, s, 0, n)
  {
  }

  lemma CopyingSkip(p: Phys, r: int, s: int, i: int, n: int)
    requires Copying(p, r, s, i, n) && 0 <= i < n && !Lookup(p.tab, r, i).valid
    ensures Copying(p, r, s, i + 1, n)
  {
  }

  lemma CopyingNext(p: Phys, r: int, s: int, i: int, n: int)
    requires Copying(p, r, s, i, n) && 0 <= i < n
    ensures !Lookup(p.tab, s, i).valid
  {
  }

  /** The leaves of an address space of size sz lie below sz, apart from the two special ones. */
  ghost predicate LeavesBelow(p: Phys, r: int, sz: int) {
    forall v :: 0 <= v < PAGES && PagesFor(sz) <= v && Lookup(p.tab, r, v).valid ==> Special(v)
  }

  /** A copied address space looks like the original, byte for byte. */
  lemma CopySeesTheSame(p: Phys, r: int, s: int, sz: int, a: int)
    requires GoodPhys(p) && IsRoot(p, r) && IsRoot(p, s) && 0 <= sz <= TRAPFRAME * PGSIZE
    requires LeavesBelow(p, r, sz) && LeavesBelow(p, s, sz) && Copying(p, r, s, PagesFor(sz), PagesFor(sz))
    ensures View(p, s, sz, a) == View(p, r, sz, a)
  {
    var v := a / PGSIZE;
    if 0 <= v < PAGES {
      UserFrame(p, r, v);
      UserFrame(p, s, v);
      if v < PagesFor(sz) {
        assert CopiedPage(p, r, s, v);
      } else {
        AboveIsDenied(p, r, sz, a);
        AboveIsDenied(p, s, sz, a);
      }
    }
  }

  lemma AboveIsDenied(p: Phys, r: int, sz: int, a: int)
    requires GoodPhys(p) && IsRoot(p, r) && 0 <= sz && LeavesBelow(p, r, sz)
    requires 0 <= a / PGSIZE && PagesFor(sz) <= a / PGSIZE
    ensures View(p, r, sz, a) == Denied
  {
    var v := a / PGSIZE;
    if v < PAGES && Lookup(p.tab, r, v).valid {
      UserLeaf(M(p), r, v);
    }
  }
}
