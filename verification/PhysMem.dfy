/**
 Physical frames and their allocator. The free list is intrusive: a head and,
 in every free frame, a link to the next one.

 A frame has a table view and a byte view; code that uses a frame as one never
 reads it as the other. `own` is the use of every frame, `free` the free list
 spelled out.
 */
module PhysMem {
  import opened PageTable

  const PGSIZE: int := 4096

  /** The end of memory, 128 MB above 0x80000000, as a frame number. */
  const PHYSTOP: int := 0x8_8000

  type Page = seq<int>

  function Bytes(b: int): Page { seq(PGSIZE, _ => b) }

  /** What a table view shows where memset wrote 0, and where it wrote the allocator's fill bytes
      (whose lowest bit makes every entry look valid). */
  function ZeroTable(): (t: Table)
    ensures |t| == PTES && Empty(t)
  {
    seq(PTES, _ => ZERO_PTE)
  }

  function JunkTable(b: int): (t: Table)
    ensures |t| == PTES
  {
    seq(PTES, _ => Pte(true, b, NO_PERM))
  }

  /** The free frame after the i-th, or 0. */
  function Following(free: seq<int>, i: int): int {
    if 0 <= i + 1 < |free| then free[i + 1] else 0
  }

  ghost predicate OnList(link: seq<int>, head: int, free: seq<int>, lo: int, hi: int) {
    && |link| == hi && 0 < lo <= hi
    && head == (if free == [] then 0 else free[0])
    && (forall i :: 0 <= i < |free| ==> lo <= free[i] < hi)
    && (forall i :: 0 <= i < |free| ==> link[free[i]] == Following(free, i))
    && (forall i, j :: 0 <= i < j < |free| ==> free[i] != free[j])
  }

  ghost predicate FreeExactly(own: seq<Use>, free: seq<int>) {
    forall f :: 0 <= f < |own| ==> (own[f] == Free <==> f in free)
  }

  /** The kernel's own image, below the allocator's range, is never put to another use. */
  ghost predicate KernelBelow(own: seq<Use>, lo: int) {
    forall f :: 0 <= f < |own| && f < lo ==> own[f] == Kernel
  }

  /** The whole physical memory as a value. */
  datatype Phys = Phys(tab: seq<Table>, own: seq<Use>, data: seq<Page>)

  ghost predicate GoodPhys(p: Phys) {
    && Inv(Mem(p.tab, p.own))
    && |p.data| == |p.own|
    && forall f :: 0 <= f < |p.data| ==> |p.data[f]| == PGSIZE
  }

  // ---------------------------------------------------------------- single updates of memory

  /** What the kernel does to physical memory at one place: a frame that is free or the kernel's gets other contents or
      changes hands, a page is written, a table is hung, a leaf is set or cleared, a root begins or ends. */
  datatype Edit =
    | ReuseFrame(f: int)
    | WritePage(f: int)
    | HangMid(r: int, i: int, f: int)
    | HangLow(r: int, k: int, t: int, f: int)
    | MapLeaf(r: int, v: int, t: int, f: int, perm: Perm)
    | UnmapLeaf(r: int, v: int, t: int)
    | BeginRoot(r: int)
    | EndRoot(r: int)

  ghost predicate Edits(p: Phys, p': Phys, e: Edit) {
    && |p.tab| == |p.own| == |p.data| == |p'.tab| == |p'.own| == |p'.data|
    && (forall f :: 0 <= f < |p.tab| ==> |p.tab[f]| == PTES)
    && var m, m' := Mem(p.tab, p.own), Mem(p'.tab, p'.own);
       match e
       case ReuseFrame(f) =>
         && 0 <= f < |p.own| && Loose(p.own[f]) && Loose(p'.own[f]) && |p'.tab[f]| == PTES && |p'.data[f]| == PGSIZE
         && p' == Phys(p.tab[f := p'.tab[f]], p.own[f := p'.own[f]], p.data[f := p'.data[f]])
       case WritePage(f) =>
         0 <= f < |p.own| && |p'.data[f]| == PGSIZE && p' == p.(data := p.data[f := p'.data[f]])
       case HangMid(r, i, f) =>
         && Owned(m, r, Root) && 0 <= i < PTES && !m.tab[r][i].valid && Owned(m, f, Kernel) && Empty(m.tab[f])
         && p'.data == p.data && m' == Filled(m, r, i, TablePte(f), f, Mid(r, i))
       case HangLow(r, k, t, f) =>
         && 0 <= k < LOWS && Owned(m, t, Mid(r, k / PTES)) && !m.tab[t][k % PTES].valid
         && Owned(m, f, Kernel) && Empty(m.tab[f])
         && p'.data == p.data && m' == Filled(m, t, k % PTES, TablePte(f), f, Low(r, k))
       case MapLeaf(r, v, t, f, perm) =>
         && 0 <= v < PAGES && Owned(m, t, Low(r, v / PTES)) && !m.tab[t][v % PTES].valid && 0 <= f < |m.own|
         && (if Special(v) then !perm.u else m.own[f] == Kernel) && IsLeaf(Pte(true, f, perm))
         && p'.data == p.data && m' == Filled(m, t, v % PTES, Pte(true, f, perm), f, MappedUse(m, r, v, f))
       case UnmapLeaf(r, v, t) =>
         && 0 <= v < PAGES && Owned(m, t, Low(r, v / PTES)) && m.tab[t][v % PTES].valid
         && (Special(v) || 0 <= m.tab[t][v % PTES].frame < |m.own|)
         && p'.data == p.data && m' == Cleared(m, v, t)
       case BeginRoot(r) =>
         Owned(m, r, Kernel) && Empty(m.tab[r]) && p'.data == p.data && m' == m.(own := m.own[r := Root])
       case EndRoot(r) =>
         && Owned(m, r, Root) && (forall f :: 0 <= f < |m.own| ==> !(m.own[f].User? && m.own[f].root == r))
         && p'.data == p.data && m' == Detached(m, r)
  }

  ghost predicate IsPath(run: seq<Phys>, edits: seq<Edit>) {
    |run| == |edits| + 1 && forall i :: 0 <= i < |edits| ==> Edits(run[i], run[i + 1], edits[i])
  }

  /** One memory comes from another by single updates. */
  ghost predicate Reached(p: Phys, p': Phys) {
    exists run, edits :: IsPath(run, edits) && run[0] == p && run[|edits|] == p'
  }

  lemma ReachedSelf(p: Phys)
    ensures Reached(p, p)
  {
    assert IsPath([p], []) && [p][0] == p;
  }

  lemma ReachedMore(p0: Phys, p: Phys, p': Phys, e: Edit)
    requires Reached(p0, p) && Edits(p, p', e)
    ensures Reached(p0, p')
  {
    hide Edits;
    var run, edits :| IsPath(run, edits) && run[0] == p0 && run[|edits|] == p;
    var run', edits' := run + [p'], edits + [e];
    forall i | 0 <= i < |edits'| ensures Edits(run'[i], run'[i + 1], edits'[i]) {
      if i < |edits| {
        assert Edits(run[i], run[i + 1], edits[i]);
      }
    }
    assert IsPath(run', edits') && run'[0] == p0 && run'[|edits'|] == p';
  }

  /** Every single update keeps the uses of all frames in order. */
  lemma EditKeeps(p: Phys, p': Phys, e: Edit)
    requires GoodPhys(p) && Edits(p, p', e)
    ensures GoodPhys(p')
  {
    hide Inv;
    var m := Mem(p.tab, p.own);
    match e {
      case ReuseFrame(f) => LooseFrame(m, f, p'.tab[f], p'.own[f]);
      case WritePage(f) =>
      case HangMid(r, i, f) => AddMid(m, r, i, f);
      case HangLow(r, k, t, f) => AddLow(m, r, k, t, f);
      case MapLeaf(r, v, t, f, perm) => SetLeaf(m, r, v, t, f, perm);
      case UnmapLeaf(r, v, t) => ClearLeaf(m, r, v, t);
      case BeginRoot(r) => NewRoot(m, r);
      case EndRoot(r) => Detach(m, r);
    }
  }

  lemma {:induction false} PathKeeps(run: seq<Phys>, edits: seq<Edit>, n: nat)
    requires IsPath(run, edits) && GoodPhys(run[0]) && n < |run|
    ensures GoodPhys(run[n])
  {
    hide Edits, GoodPhys;
    if n > 0 {
      PathKeeps(run, edits, n - 1);
      assert Edits(run[n - 1], run[n - 1 + 1], edits[n - 1]);
      EditKeeps(run[n - 1], run[n], edits[n - 1]);
    }
  }

  /** So whatever is reached from a memory in order is in order. */
  lemma ReachedKeeps(p: Phys, p': Phys)
    requires GoodPhys(p) && Reached(p, p')
    ensures GoodPhys(p')
  {
    hide GoodPhys, Edits;
    var run, edits :| IsPath(run, edits) && run[0] == p && run[|edits|] == p';
    PathKeeps(run, edits, |edits|);
  }

  lemma Reused(p0: Phys, p: Phys, f: int, t: Table, u: Use, page: Page)
    requires GoodPhys(p) && Reached(p0, p) && 0 <= f < |p.own| && Loose(p.own[f]) && Loose(u)
    requires |t| == PTES && |page| == PGSIZE
    ensures Reached(p0, Phys(p.tab[f := t], p.own[f := u], p.data[f := page]))
  {
    hide Reached;
    ReachedMore(p0, p, Phys(p.tab[f := t], p.own[f := u], p.data[f := page]), ReuseFrame(f));
  }

  // ---------------------------------------------------------------- the free list

  lemma PopKeepsList(link: seq<int>, head: int, free: seq<int>, lo: int, hi: int)
    requires OnList(link, head, free, lo, hi) && free != []
    ensures OnList(link, link[head], free[1..], lo, hi)
  {
    assert link[free[0]] == Following(free, 0);
    forall i | 0 <= i < |free[1..]| ensures link[free[1..][i]] == Following(free[1..], i) {
      assert link[free[i + 1]] == Following(free, i + 1);
    }
  }

  lemma PushKeepsList(link: seq<int>, head: int, free: seq<int>, lo: int, hi: int, f: int)
    requires OnList(link, head, free, lo, hi) && lo <= f < hi && f !in free
    ensures OnList(link[f := head], f, [f] + free, lo, hi)
  {
    var more := [f] + free;
    forall i | 0 <= i < |more| ensures link[f := head][more[i]] == Following(more, i) {
      if i > 0 {
        assert link[free[i - 1]] == Following(free, i - 1);
      }
    }
  }

  class Frames {
    const lo: int
    const hi: int
    var freelist: int
    var link: seq<int>
    var tab: seq<Table>
    var data: seq<Page>
    ghost var own: seq<Use>
    ghost var free: seq<int>
    ghost var base: Phys

    ghost function P(): Phys
      reads this
    {
      Phys(tab, own, data)
    }

    ghost predicate Valid()
      reads this
    {
      && GoodPhys(P()) && |own| == hi && 0 < lo <= hi <= PHYSTOP
      && OnList(link, freelist, free, lo, hi) && FreeExactly(own, free)
      && KernelBelow(own, lo) && Reached(base, P())
    }

    /** Before kinit every frame is the kernel's. */
    constructor (lo: int, hi: int)
      requires 0 < lo <= hi <= PHYSTOP
      ensures Valid() && this.lo == lo && this.hi == hi && free == []
      ensures forall f :: 0 <= f < hi ==> own[f] == Kernel
    {
      this.lo, this.hi := lo, hi;
      freelist, link, free := 0, seq(hi, _ => 0), [];
      tab, data := seq(hi, _ => ZeroTable()), seq(hi, _ => Bytes(0));
      own := seq(hi, _ => Kernel);
      base := Phys(seq(hi, _ => ZeroTable()), seq(hi, _ => Kernel), seq(hi, _ => Bytes(0)));
      ReachedSelf(Phys(seq(hi, _ => ZeroTable()), seq(hi, _ => Kernel), seq(hi, _ => Bytes(0))));
    }

    /** Forgetting how the memory came to be what it is. */
    ghost method Restart()
      requires Valid()
      modifies `base
      ensures Valid() && base == P()
    {
      base := P();
      ReachedSelf(P());
    }

    /** kinit: freerange frees every frame of the allocator's range. */
    method Freerange()
      requires Valid() && free == [] && forall f :: lo <= f < hi ==> own[f] == Kernel
      modifies this
      ensures Valid() && base == old(base)
      ensures forall f :: 0 <= f < hi ==> own[f] == if lo <= f then Free else old(own[f])
      ensures |free| == hi - lo
    {
      hide GoodPhys, OnList, FreeExactly, Reached;
      var p := lo;
      while p + 1 <= hi
        invariant lo <= p <= hi && Valid() && base == old(base) && |free| == p - lo
        invariant forall f :: 0 <= f < hi ==> own[f] == if lo <= f < p then Free else old(own[f])
      {
        var ok := Kfree(p);
        p := p + 1;
      }
    }

    /** kalloc: the first free frame, filled with junk, or 0. */
    method Kalloc() returns (f: int)
      requires Valid()
      modifies `freelist, `tab, `data, `own, `free
      ensures Valid()
      ensures f == 0 <==> old(free) == []
      ensures f == 0 ==> P() == old(P()) && free == old(free)
      ensures f != 0 ==> lo <= f < hi && old(own[f]) == Free && free == old(free[1..])
      ensures f != 0 ==> P() == Phys(old(tab)[f := JunkTable(5)], old(own)[f := Kernel], old(data)[f := Bytes(5)])
    {
      hide Reached;
      f := freelist;
      if f != 0 {
        Reused(base, P(), f, JunkTable(5), Kernel, Bytes(5));
        PopKeepsList(link, freelist, free, lo, hi);
        LooseFrame(Mem(tab, own), f, JunkTable(5), Kernel);
        freelist := link[f];
        tab := tab[f := JunkTable(5)];
        data := data[f := Bytes(5)];
        own := own[f := Kernel];
        free := free[1..];
      }
    }

    /** kfree of a frame the kernel holds. A frame outside the allocator's range is the panic. */
    method Kfree(f: int) returns (ok: bool)
      requires Valid() && 0 <= f < hi && own[f] == Kernel
      modifies `freelist, `link, `tab, `data, `own, `free
      ensures Valid()
      ensures ok <==> lo <= f
      ensures !ok ==> P() == old(P()) && free == old(free)
      ensures ok ==> free == [f] + old(free)
      ensures ok ==> P() == Phys(old(tab)[f := JunkTable(1)], old(own)[f := Free], old(data)[f := Bytes(1)])
    {
      hide Reached;
      ok := lo <= f < hi;
      if ok {
        Reused(base, P(), f, JunkTable(1), Free, Bytes(1));
        PushKeepsList(link, freelist, free, lo, hi, f);
        LooseFrame(Mem(tab, own), f, JunkTable(1), Free);
        tab := tab[f := JunkTable(1)];
        data := data[f := Bytes(1)];
        own := own[f := Free];
        link := link[f := freelist];
        freelist := f;
        free := [f] + free;
      }
    }

    /** memset of a whole kernel frame to 0. */
    method Zero(f: int)
      requires Valid() && 0 <= f < hi && own[f] == Kernel
      modifies `tab, `data
      ensures Valid() && P() == Phys(old(tab)[f := ZeroTable()], own, old(data)[f := Bytes(0)])
    {
      hide Reached;
      Reused(base, P(), f, ZeroTable(), Kernel, Bytes(0));
      LooseFrame(Mem(tab, own), f, ZeroTable(), Kernel);
      tab := tab[f := ZeroTable()];
      data := data[f := Bytes(0)];
      assert own[f := Kernel] == own;
    }

    /** memset or memmove over the bytes of a whole kernel frame. */
    method Fill(f: int, content: Page)
      requires Valid() && 0 <= f < hi && own[f] == Kernel && |content| == PGSIZE
      modifies `tab, `data
      ensures Valid() && P() == Phys(old(tab)[f := JunkTable(0)], own, old(data)[f := content])
    {
      hide Reached;
      Reused(base, P(), f, JunkTable(0), Kernel, content);
      LooseFrame(Mem(tab, own), f, JunkTable(0), Kernel);
      tab := tab[f := JunkTable(0)];
      data := data[f := content];
      assert own[f := Kernel] == own;
    }
  }
}
