/**
 Three-level page tables in a flat physical memory, as a value, and who owns
 each frame.

 A page number below PAGES is split in base 512: its three digits index the
 root, a middle and a low table. `own` gives every frame exactly one use, and a
 table or user frame's use says where in which address space it hangs, so two
 places of the trees can never share a frame.
 */
module PageTable {

  const PTES: int := 512
  /** Pages below MAXVA = 2^38, one bit less than Sv39 allows. */
  const PAGES: int := 0x400_0000
  /** The low tables that these pages can need. */
  const LOWS: int := PAGES / PTES
  const TRAMPOLINE: int := PAGES - 1
  const TRAPFRAME: int := PAGES - 2

  datatype Perm = Perm(r: bool, w: bool, x: bool, u: bool)
  datatype Pte = Pte(valid: bool, frame: int, perm: Perm)

  const NO_PERM := Perm(false, false, false, false)
  const ZERO_PTE := Pte(false, 0, NO_PERM)

  type Table = seq<Pte>

  /** A valid entry with any of R, W, X is a leaf; one with none points to a lower table. */
  predicate IsLeaf(p: Pte) { p.valid && (p.perm.r || p.perm.w || p.perm.x) }

  function TablePte(f: int): Pte { Pte(true, f, NO_PERM) }

  predicate Special(v: int) { v == TRAMPOLINE || v == TRAPFRAME }

  /** The uses of a frame. `Kernel` is any use by the kernel itself, also between
      kalloc and the moment the frame is put into a page table. */
  datatype Use = Free | Kernel | Root | Mid(root: int, i: int) | Low(root: int, k: int) | User(root: int, page: int)

  datatype Mem = Mem(tab: seq<Table>, own: seq<Use>)

  function Entry(tab: seq<Table>, f: int, i: int): Pte {
    if 0 <= f < |tab| && 0 <= i < |tab[f]| then tab[f][i] else ZERO_PTE
  }

  /** The low table's entry for the page, found by two table look-ups. */
  function LowPte(tab: seq<Table>, r: int, k: int): Pte {
    var p := Entry(tab, r, k / PTES);
    if p.valid then Entry(tab, p.frame, k % PTES) else ZERO_PTE
  }

  /** The leaf entry of a page, or the zero entry if its low table does not exist. */
  function Lookup(tab: seq<Table>, r: int, v: int): Pte {
    var p := LowPte(tab, r, v / PTES);
    if p.valid then Entry(tab, p.frame, v % PTES) else ZERO_PTE
  }

  // ---------------------------------------------------------------- the ownership invariant

  predicate Owned(m: Mem, f: int, u: Use) { 0 <= f < |m.own| && m.own[f] == u }

  predicate PointsTo(m: Mem, p: Pte, u: Use) {
    p.valid ==> p.perm == NO_PERM && Owned(m, p.frame, u)
  }

  /** A leaf maps a frame that this page owns; the two special pages are shared, and closed to user code. */
  predicate LeafOk(m: Mem, p: Pte, r: int, v: int) {
    p.valid ==> IsLeaf(p) && if Special(v) then !p.perm.u else Owned(m, p.frame, User(r, v))
  }

  /** The frame is used as `own` says, seen from the frame itself and from where it hangs. */
  predicate FrameOk(m: Mem, f: int)
    requires 0 <= f < |m.own|
  {
    match m.own[f]
    case Free => true
    case Kernel => true
    case Root =>
      forall i :: 0 <= i < PTES ==> PointsTo(m, Entry(m.tab, f, i), Mid(f, i))
    case Mid(r, i) =>
      && Owned(m, r, Root) && 0 <= i < PTES && Entry(m.tab, r, i) == TablePte(f)
      && forall j :: 0 <= j < PTES ==> PointsTo(m, Entry(m.tab, f, j), Low(r, i * PTES + j))
    case Low(r, k) =>
      && Owned(m, r, Root) && 0 <= k < LOWS && LowPte(m.tab, r, k) == TablePte(f)
      && forall j :: 0 <= j < PTES ==> LeafOk(m, Entry(m.tab, f, j), r, k * PTES + j)
    case User(r, v) =>
      && Owned(m, r, Root) && 0 <= v < PAGES && !Special(v)
      && Lookup(m.tab, r, v).valid && Lookup(m.tab, r, v).frame == f
  }

  ghost predicate Inv(m: Mem) {
    && |m.tab| == |m.own|
    && (forall f :: 0 <= f < |m.tab| ==> |m.tab[f]| == PTES)
    && (forall f :: 0 <= f < |m.own| ==> FrameOk(m, f))
  }

  /** Every leaf of every address space is as before. */
  ghost predicate SameMaps(m: Mem, m': Mem) {
    forall q, v :: Owned(m, q, Root) && 0 <= v < PAGES ==> Lookup(m'.tab, q, v) == Lookup(m.tab, q, v)
  }

  // ---------------------------------------------------------------- base 512

  lemma Digits(k: int, j: int)
    requires 0 <= j < PTES && 0 <= k
    ensures (k * PTES + j) / PTES == k && (k * PTES + j) % PTES == j
  {
  }

  lemma Recompose(v: int)
    requires 0 <= v
    ensures v == v / PTES * PTES + v % PTES && 0 <= v % PTES < PTES && v / PTES >= 0
  {
  }

  // ---------------------------------------------------------------- what the walk meets

  /** The middle table of a page, when the root entry is valid. */
  lemma MidTable(m: Mem, r: int, i: int)
    requires Inv(m) && Owned(m, r, Root) && 0 <= i < PTES && Entry(m.tab, r, i).valid
    ensures var p := Entry(m.tab, r, i); p == TablePte(p.frame) && Owned(m, p.frame, Mid(r, i))
  {
    assert FrameOk(m, r);
    assert PointsTo(m, Entry(m.tab, r, i), Mid(r, i));
  }

  lemma LowTable(m: Mem, r: int, k: int)
    requires Inv(m) && Owned(m, r, Root) && 0 <= k < LOWS && LowPte(m.tab, r, k).valid
    ensures var p := LowPte(m.tab, r, k); p == TablePte(p.frame) && Owned(m, p.frame, Low(r, k))
  {
    var i, j := k / PTES, k % PTES;
    MidTable(m, r, i);
    var mid := Entry(m.tab, r, i).frame;
    assert FrameOk(m, mid);
    assert PointsTo(m, Entry(m.tab, mid, j), Low(r, i * PTES + j));
    Recompose(k);
  }

  lemma UserLeaf(m: Mem, r: int, v: int)
    requires Inv(m) && Owned(m, r, Root) && 0 <= v < PAGES && Lookup(m.tab, r, v).valid
    ensures var p := Lookup(m.tab, r, v); IsLeaf(p) && if Special(v) then !p.perm.u else Owned(m, p.frame, User(r, v))
  {
    var k, j := v / PTES, v % PTES;
    LowTable(m, r, k);
    var low := LowPte(m.tab, r, k).frame;
    assert FrameOk(m, low);
    assert LeafOk(m, Entry(m.tab, low, j), r, k * PTES + j);
    Recompose(v);
  }

  // ---------------------------------------------------------------- writing one entry

  function Put(tab: seq<Table>, t: int, i: int, p: Pte): seq<Table>
    requires 0 <= t < |tab| && 0 <= i < |tab[t]|
  {
    tab[t := tab[t][i := p]]
  }

  lemma EntryOfPut(tab: seq<Table>, t: int, i: int, p: Pte, g: int, j: int)
    requires 0 <= t < |tab| && 0 <= i < |tab[t]|
    ensures Entry(Put(tab, t, i, p), g, j) == if g == t && j == i then p else Entry(tab, g, j)
  {
  }

  /** Filling an invalid entry changes no look-up that succeeded. */
  lemma FillKeepsValid(tab: seq<Table>, t: int, i: int, p: Pte, r: int, k: int)
    requires 0 <= t < |tab| && 0 <= i < |tab[t]| && !tab[t][i].valid
    ensures LowPte(tab, r, k).valid ==> LowPte(Put(tab, t, i, p), r, k) == LowPte(tab, r, k)
  {
    EntryOfPut(tab, t, i, p, r, k / PTES);
    var mid := Entry(tab, r, k / PTES).frame;
    EntryOfPut(tab, t, i, p, mid, k % PTES);
  }

  lemma FillKeepsLeaf(tab: seq<Table>, t: int, i: int, p: Pte, r: int, v: int)
    requires 0 <= t < |tab| && 0 <= i < |tab[t]| && !tab[t][i].valid
    ensures Lookup(tab, r, v).valid ==> Lookup(Put(tab, t, i, p), r, v) == Lookup(tab, r, v)
  {
    hide LowPte;
    FillKeepsValid(tab, t, i, p, r, v / PTES);
    var low := LowPte(tab, r, v / PTES).frame;
    EntryOfPut(tab, t, i, p, low, v % PTES);
  }

  /** A table as memset leaves it. */
  ghost predicate Empty(t: Table) { forall i :: 0 <= i < |t| ==> t[i] == ZERO_PTE }

  /** At most frame f has changed its use, and it was a kernel frame. */
  ghost predicate KernelFrameOnly(m: Mem, m': Mem, f: int) {
    && |m'.own| == |m.own|
    && forall h :: 0 <= h < |m.own| && m'.own[h] != m.own[h] ==> h == f && m.own[h] == Kernel
  }

  /** Filling an invalid entry and giving a kernel frame the use that belongs there keeps every other
      frame as it should be. */
  lemma FillKeepsFrame(m: Mem, m': Mem, t: int, i: int, p: Pte, f: int, g: int)
    requires Inv(m) && 0 <= t < |m.tab| && 0 <= i < PTES && !m.tab[t][i].valid
    requires 0 <= g < |m.own| && g != t
    requires m'.tab == Put(m.tab, t, i, p) && KernelFrameOnly(m, m', f) && m'.own[g] == m.own[g]
    ensures FrameOk(m', g)
  {
    assert FrameOk(m, g);
    match m.own[g] {
      case Free =>
      case Kernel =>
      case Root =>
        forall j | 0 <= j < PTES ensures PointsTo(m', Entry(m'.tab, g, j), Mid(g, j)) {
          EntryOfPut(m.tab, t, i, p, g, j);
          assert PointsTo(m, Entry(m.tab, g, j), Mid(g, j));
        }
      case Mid(r, k) =>
        EntryOfPut(m.tab, t, i, p, r, k);
        forall j | 0 <= j < PTES ensures PointsTo(m', Entry(m'.tab, g, j), Low(r, k * PTES + j)) {
          EntryOfPut(m.tab, t, i, p, g, j);
          assert PointsTo(m, Entry(m.tab, g, j), Low(r, k * PTES + j));
        }
      case Low(r, k) =>
        FillKeepsValid(m.tab, t, i, p, r, k);
        forall j | 0 <= j < PTES ensures LeafOk(m', Entry(m'.tab, g, j), r, k * PTES + j) {
          EntryOfPut(m.tab, t, i, p, g, j);
          assert LeafOk(m, Entry(m.tab, g, j), r, k * PTES + j);
        }
      case User(r, v) =>
        FillKeepsLeaf(m.tab, t, i, p, r, v);
    }
  }

  /** What filling entry i of table t with a lower table or a leaf on frame f makes of the memory. */
  function Filled(m: Mem, t: int, i: int, p: Pte, f: int, u: Use): Mem
    requires 0 <= t < |m.tab| && 0 <= i < |m.tab[t]| && 0 <= f < |m.own|
  {
    Mem(Put(m.tab, t, i, p), m.own[f := u])
  }

  lemma AddMid(m: Mem, r: int, i: int, f: int)
    requires Inv(m) && Owned(m, r, Root) && 0 <= i < PTES && !m.tab[r][i].valid
    requires Owned(m, f, Kernel) && Empty(m.tab[f])
    ensures Inv(Filled(m, r, i, TablePte(f), f, Mid(r, i)))
  {
    var m' := Filled(m, r, i, TablePte(f), f, Mid(r, i));
    forall g | 0 <= g < |m.own| ensures FrameOk(m', g) {
      if g != f && g != r {
        FillKeepsFrame(m, m', r, i, TablePte(f), f, g);
      } else if g == r {
        forall j | 0 <= j < PTES ensures PointsTo(m', Entry(m'.tab, r, j), Mid(r, j)) {
          assert FrameOk(m, r);
          assert PointsTo(m, Entry(m.tab, r, j), Mid(r, j));
        }
      } else {
        assert forall j :: 0 <= j < PTES ==> !Entry(m'.tab, f, j).valid;
      }
    }
  }

  lemma AddLow(m: Mem, r: int, k: int, t: int, f: int)
    requires Inv(m) && 0 <= k < LOWS && Owned(m, t, Mid(r, k / PTES)) && !m.tab[t][k % PTES].valid
    requires Owned(m, f, Kernel) && Empty(m.tab[f])
    ensures Inv(Filled(m, t, k % PTES, TablePte(f), f, Low(r, k)))
  {
    var i := k % PTES;
    var m' := Filled(m, t, i, TablePte(f), f, Low(r, k));
    assert FrameOk(m, t);
    Recompose(k);
    forall g | 0 <= g < |m.own| ensures FrameOk(m', g) {
      if g != f && g != t {
        FillKeepsFrame(m, m', t, i, TablePte(f), f, g);
      } else if g == t {
        AddLowParent(m, m', r, k, t, f);
      } else {
        assert forall j :: 0 <= j < PTES ==> !Entry(m'.tab, f, j).valid;
        EntryOfPut(m.tab, t, i, TablePte(f), r, k / PTES);
        EntryOfPut(m.tab, t, i, TablePte(f), t, i);
      }
    }
  }

  lemma AddLowParent(m: Mem, m': Mem, r: int, k: int, t: int, f: int)
    requires Inv(m) && 0 <= k < LOWS && Owned(m, t, Mid(r, k / PTES)) && Owned(m, f, Kernel)
    requires m' == Filled(m, t, k % PTES, TablePte(f), f, Low(r, k))
    ensures FrameOk(m', t)
  {
    assert FrameOk(m, t);
    var i := k / PTES;
    Recompose(k);
    EntryOfPut(m.tab, t, k % PTES, TablePte(f), r, i);
    forall j | 0 <= j < PTES ensures PointsTo(m', Entry(m'.tab, t, j), Low(r, i * PTES + j)) {
      EntryOfPut(m.tab, t, k % PTES, TablePte(f), t, j);
      assert PointsTo(m, Entry(m.tab, t, j), Low(r, i * PTES + j));
    }
  }

  /** The use a frame has once page v of address space r maps it. */
  function MappedUse(m: Mem, r: int, v: int, f: int): Use
    requires 0 <= f < |m.own|
  {
    if Special(v) then m.own[f] else User(r, v)
  }

  lemma SetLeaf(m: Mem, r: int, v: int, t: int, f: int, perm: Perm)
    requires Inv(m) && 0 <= v < PAGES && Owned(m, t, Low(r, v / PTES)) && !m.tab[t][v % PTES].valid
    requires 0 <= f < |m.own| && (if Special(v) then !perm.u else m.own[f] == Kernel) && IsLeaf(Pte(true, f, perm))
    ensures Inv(Filled(m, t, v % PTES, Pte(true, f, perm), f, MappedUse(m, r, v, f)))
  {
    var i, p := v % PTES, Pte(true, f, perm);
    var m' := Filled(m, t, i, p, f, MappedUse(m, r, v, f));
    assert FrameOk(m, t);
    Recompose(v);
    forall g | 0 <= g < |m.own| ensures FrameOk(m', g) {
      if g == t {
        SetLeafParent(m, m', r, v, t, f, perm);
      } else if m'.own[g] == m.own[g] {
        FillKeepsFrame(m, m', t, i, p, f, g);
      } else {
        FillKeepsValid(m.tab, t, i, p, r, v / PTES);
        EntryOfPut(m.tab, t, i, p, t, i);
      }
    }
  }

  lemma SetLeafParent(m: Mem, m': Mem, r: int, v: int, t: int, f: int, perm: Perm)
    requires Inv(m) && 0 <= v < PAGES && Owned(m, t, Low(r, v / PTES)) && !m.tab[t][v % PTES].valid
    requires 0 <= f < |m.own| && (if Special(v) then !perm.u else m.own[f] == Kernel) && IsLeaf(Pte(true, f, perm))
    requires m' == Filled(m, t, v % PTES, Pte(true, f, perm), f, MappedUse(m, r, v, f))
    ensures FrameOk(m', t)
  {
    assert FrameOk(m, t);
    var k, p := v / PTES, Pte(true, f, perm);
    Recompose(v);
    FillKeepsValid(m.tab, t, v % PTES, p, r, k);
    forall j | 0 <= j < PTES ensures LeafOk(m', Entry(m'.tab, t, j), r, k * PTES + j) {
      EntryOfPut(m.tab, t, v % PTES, p, t, j);
      assert LeafOk(m, Entry(m.tab, t, j), r, k * PTES + j);
    }
  }

  // ---------------------------------------------------------------- what the writes do to the maps

  /** Writing into a low table leaves the path to every low table alone. */
  lemma LowPteOfPut(m: Mem, r: int, k: int, t: int, i: int, p: Pte, q: int, k': int)
    requires Inv(m) && Owned(m, t, Low(r, k)) && 0 <= i < PTES
    requires Owned(m, q, Root) && 0 <= k' < LOWS
    ensures LowPte(Put(m.tab, t, i, p), q, k') == LowPte(m.tab, q, k')
  {
    EntryOfPut(m.tab, t, i, p, q, k' / PTES);
    if Entry(m.tab, q, k' / PTES).valid {
      MidTable(m, q, k' / PTES);
      EntryOfPut(m.tab, t, i, p, Entry(m.tab, q, k' / PTES).frame, k' % PTES);
    }
  }

  /** Writing a leaf entry changes the map of that page of that address space, and nothing else. */
  lemma LookupOfPut(m: Mem, r: int, v: int, t: int, p: Pte, q: int, w: int)
    requires Inv(m) && 0 <= v < PAGES && Owned(m, t, Low(r, v / PTES))
    requires Owned(m, q, Root) && 0 <= w < PAGES
    ensures Lookup(Put(m.tab, t, v % PTES, p), q, w) == if q == r && w == v then p else Lookup(m.tab, q, w)
  {
    hide LowPte;
    LowPteOfPut(m, r, v / PTES, t, v % PTES, p, q, w / PTES);
    if LowPte(m.tab, q, w / PTES).valid {
      LowTable(m, q, w / PTES);
      EntryOfPut(m.tab, t, v % PTES, p, LowPte(m.tab, q, w / PTES).frame, w % PTES);
      Recompose(v);
      Recompose(w);
    }
    if q == r && w == v {
      assert FrameOk(m, t);
    }
  }

  lemma AddMidSameMaps(m: Mem, r: int, i: int, f: int)
    requires Inv(m) && Owned(m, r, Root) && 0 <= i < PTES && !m.tab[r][i].valid
    requires Owned(m, f, Kernel) && Empty(m.tab[f])
    ensures SameMaps(m, Filled(m, r, i, TablePte(f), f, Mid(r, i)))
  {
    var m' := Filled(m, r, i, TablePte(f), f, Mid(r, i));
    forall q, v | Owned(m, q, Root) && 0 <= v < PAGES ensures Lookup(m'.tab, q, v) == Lookup(m.tab, q, v) {
      AddMidSameLow(m, r, i, f, q, v / PTES);
      if LowPte(m.tab, q, v / PTES).valid {
        LowTable(m, q, v / PTES);
        EntryOfPut(m.tab, r, i, TablePte(f), LowPte(m.tab, q, v / PTES).frame, v % PTES);
      }
    }
  }

  lemma AddMidSameLow(m: Mem, r: int, i: int, f: int, q: int, k: int)
    requires Inv(m) && Owned(m, r, Root) && 0 <= i < PTES && !m.tab[r][i].valid
    requires Owned(m, f, Kernel) && Empty(m.tab[f]) && Owned(m, q, Root) && 0 <= k < LOWS
    ensures LowPte(Put(m.tab, r, i, TablePte(f)), q, k).valid == LowPte(m.tab, q, k).valid
    ensures LowPte(m.tab, q, k).valid ==> LowPte(Put(m.tab, r, i, TablePte(f)), q, k) == LowPte(m.tab, q, k)
  {
    EntryOfPut(m.tab, r, i, TablePte(f), q, k / PTES);
    if Entry(m.tab, q, k / PTES).valid {
      MidTable(m, q, k / PTES);
      EntryOfPut(m.tab, r, i, TablePte(f), Entry(m.tab, q, k / PTES).frame, k % PTES);
    } else {
      EntryOfPut(m.tab, r, i, TablePte(f), f, k % PTES);
    }
  }

  lemma AddLowSameMaps(m: Mem, r: int, k: int, t: int, f: int)
    requires Inv(m) && 0 <= k < LOWS && Owned(m, t, Mid(r, k / PTES)) && !m.tab[t][k % PTES].valid
    requires Owned(m, f, Kernel) && Empty(m.tab[f])
    ensures SameMaps(m, Filled(m, t, k % PTES, TablePte(f), f, Low(r, k)))
  {
    var m' := Filled(m, t, k % PTES, TablePte(f), f, Low(r, k));
    forall q, v | Owned(m, q, Root) && 0 <= v < PAGES ensures Lookup(m'.tab, q, v) == Lookup(m.tab, q, v) {
      AddLowSameLookup(m, r, k, t, f, q, v);
    }
  }

  lemma AddLowSameLookup(m: Mem, r: int, k: int, t: int, f: int, q: int, v: int)
    requires Inv(m) && 0 <= k < LOWS && Owned(m, t, Mid(r, k / PTES)) && !m.tab[t][k % PTES].valid
    requires Owned(m, f, Kernel) && Empty(m.tab[f]) && Owned(m, q, Root) && 0 <= v < PAGES
    ensures Lookup(Put(m.tab, t, k % PTES, TablePte(f)), q, v) == Lookup(m.tab, q, v)
  {
    var i, p := k % PTES, TablePte(f);
    EntryOfPut(m.tab, t, i, p, q, v / PTES / PTES);
    var top := Entry(m.tab, q, v / PTES / PTES);
    if top.valid {
      MidTable(m, q, v / PTES / PTES);
      EntryOfPut(m.tab, t, i, p, top.frame, v / PTES % PTES);
      var low := Entry(m.tab, top.frame, v / PTES % PTES);
      if low.valid {
        LowTable(m, q, v / PTES);
        EntryOfPut(m.tab, t, i, p, low.frame, v % PTES);
      } else {
        EntryOfPut(m.tab, t, i, p, f, v % PTES);
      }
    }
  }

  // ---------------------------------------------------------------- clearing a leaf

  /** The memory once page v of r is unmapped: its frame, unless shared, is back in the kernel's hands. */
  function Cleared(m: Mem, v: int, t: int): Mem
    requires 0 <= t < |m.tab| && 0 <= v % PTES < |m.tab[t]|
    requires Special(v) || 0 <= m.tab[t][v % PTES].frame < |m.own|
  {
    Mem(Put(m.tab, t, v % PTES, ZERO_PTE), if Special(v) then m.own else m.own[m.tab[t][v % PTES].frame := Kernel])
  }

  lemma ClearLeaf(m: Mem, r: int, v: int, t: int)
    requires Inv(m) && 0 <= v < PAGES && Owned(m, t, Low(r, v / PTES)) && m.tab[t][v % PTES].valid
    ensures Special(v) || Owned(m, m.tab[t][v % PTES].frame, User(r, v))
    ensures Inv(Cleared(m, v, t))
  {
    assert FrameOk(m, t);
    Recompose(v);
    assert LeafOk(m, Entry(m.tab, t, v % PTES), r, v / PTES * PTES + v % PTES);
    var m' := Cleared(m, v, t);
    forall g | 0 <= g < |m.own| ensures FrameOk(m', g) {
      ClearKeepsFrame(m, r, v, t, g);
    }
  }

  lemma ClearKeepsFrame(m: Mem, r: int, v: int, t: int, g: int)
    requires Inv(m) && 0 <= v < PAGES && Owned(m, t, Low(r, v / PTES)) && m.tab[t][v % PTES].valid
    requires Special(v) || Owned(m, m.tab[t][v % PTES].frame, User(r, v))
    requires 0 <= g < |m.own|
    ensures FrameOk(Cleared(m, v, t), g)
  {
    var m', i := Cleared(m, v, t), v % PTES;
    assert FrameOk(m, g);
    match m.own[g] {
      case Free =>
      case Kernel =>
      case Root =>
        forall j | 0 <= j < PTES ensures PointsTo(m', Entry(m'.tab, g, j), Mid(g, j)) {
          EntryOfPut(m.tab, t, i, ZERO_PTE, g, j);
          assert PointsTo(m, Entry(m.tab, g, j), Mid(g, j));
        }
      case Mid(q, k) =>
        EntryOfPut(m.tab, t, i, ZERO_PTE, q, k);
        forall j | 0 <= j < PTES ensures PointsTo(m', Entry(m'.tab, g, j), Low(q, k * PTES + j)) {
          EntryOfPut(m.tab, t, i, ZERO_PTE, g, j);
          assert PointsTo(m, Entry(m.tab, g, j), Low(q, k * PTES + j));
        }
      case Low(q, k) =>
        LowPteOfPut(m, r, v / PTES, t, i, ZERO_PTE, q, k);
        forall j | 0 <= j < PTES ensures LeafOk(m', Entry(m'.tab, g, j), q, k * PTES + j) {
          ClearKeepsLeaf(m, r, v, t, g, q, k, j);
        }
      case User(q, w) =>
        LookupOfPut(m, r, v, t, ZERO_PTE, q, w);
        LookupIsEntry(m, r, v, t);
    }
  }

  lemma LookupIsEntry(m: Mem, r: int, v: int, t: int)
    requires Inv(m) && 0 <= v < PAGES && Owned(m, t, Low(r, v / PTES))
    ensures Lookup(m.tab, r, v) == m.tab[t][v % PTES] && Owned(m, r, Root)
  {
    assert FrameOk(m, t);
  }

  lemma ClearKeepsLeaf(m: Mem, r: int, v: int, t: int, g: int, q: int, k: int, j: int)
    requires Inv(m) && 0 <= v < PAGES && Owned(m, t, Low(r, v / PTES)) && m.tab[t][v % PTES].valid
    requires Special(v) || Owned(m, m.tab[t][v % PTES].frame, User(r, v))
    requires Owned(m, g, Low(q, k)) && 0 <= j < PTES
    ensures LeafOk(Cleared(m, v, t), Entry(Cleared(m, v, t).tab, g, j), q, k * PTES + j)
  {
    EntryOfPut(m.tab, t, v % PTES, ZERO_PTE, g, j);
    assert FrameOk(m, g) && FrameOk(m, t);
    assert LeafOk(m, Entry(m.tab, g, j), q, k * PTES + j);
    Recompose(v);
    Digits(k, j);
  }

  // ---------------------------------------------------------------- frames outside the trees

  predicate Loose(u: Use) { u == Free || u == Kernel }

  /** No walk reads the contents of a frame that is not a table. */
  lemma LooseNotRead(m: Mem, f: int, t: Table, q: int, v: int)
    requires Inv(m) && 0 <= f < |m.own| && (Loose(m.own[f]) || m.own[f].User?)
    requires Owned(m, q, Root) && 0 <= v < PAGES
    ensures Lookup(m.tab[f := t], q, v) == Lookup(m.tab, q, v)
  {
    LooseLowNotRead(m, f, t, q, v / PTES);
    if LowPte(m.tab, q, v / PTES).valid {
      LowTable(m, q, v / PTES);
    }
  }

  lemma LooseLowNotRead(m: Mem, f: int, t: Table, q: int, k: int)
    requires Inv(m) && 0 <= f < |m.own| && (Loose(m.own[f]) || m.own[f].User?)
    requires Owned(m, q, Root) && 0 <= k < LOWS
    ensures LowPte(m.tab[f := t], q, k) == LowPte(m.tab, q, k)
  {
    if Entry(m.tab, q, k / PTES).valid {
      MidTable(m, q, k / PTES);
    }
  }

  /** A frame that hangs in no tree may change its contents, and move between free and kernel use. */
  lemma LooseFrame(m: Mem, f: int, t: Table, u: Use)
    requires Inv(m) && 0 <= f < |m.own| && Loose(m.own[f]) && Loose(u) && |t| == PTES
    ensures Inv(Mem(m.tab[f := t], m.own[f := u])) && SameMaps(m, Mem(m.tab[f := t], m.own[f := u]))
  {
    var m' := Mem(m.tab[f := t], m.own[f := u]);
    forall g | 0 <= g < |m.own| ensures FrameOk(m', g) {
      LooseKeepsFrame(m, f, t, u, g);
    }
    forall q, v | Owned(m, q, Root) && 0 <= v < PAGES ensures Lookup(m'.tab, q, v) == Lookup(m.tab, q, v) {
      LooseNotRead(m, f, t, q, v);
    }
  }

  lemma LooseKeepsFrame(m: Mem, f: int, t: Table, u: Use, g: int)
    requires Inv(m) && 0 <= f < |m.own| && Loose(m.own[f]) && Loose(u) && |t| == PTES && 0 <= g < |m.own|
    ensures FrameOk(Mem(m.tab[f := t], m.own[f := u]), g)
  {
    var m' := Mem(m.tab[f := t], m.own[f := u]);
    assert FrameOk(m, g);
    if g != f {
      match m.own[g] {
        case Free =>
        case Kernel =>
        case Root =>
          forall j | 0 <= j < PTES ensures PointsTo(m', Entry(m'.tab, g, j), Mid(g, j)) {
            assert PointsTo(m, Entry(m.tab, g, j), Mid(g, j));
          }
        case Mid(q, k) =>
          forall j | 0 <= j < PTES ensures PointsTo(m', Entry(m'.tab, g, j), Low(q, k * PTES + j)) {
            assert PointsTo(m, Entry(m.tab, g, j), Low(q, k * PTES + j));
          }
        case Low(q, k) =>
          LooseLowNotRead(m, f, t, q, k);
          forall j | 0 <= j < PTES ensures LeafOk(m', Entry(m'.tab, g, j), q, k * PTES + j) {
            assert LeafOk(m, Entry(m.tab, g, j), q, k * PTES + j);
          }
        case User(q, w) =>
          LooseNotRead(m, f, t, q, w);
      }
    }
  }

  /** An empty kernel page becomes the root of a new, empty address space. */
  lemma NewRoot(m: Mem, r: int)
    requires Inv(m) && Owned(m, r, Kernel) && Empty(m.tab[r])
    ensures Inv(m.(own := m.own[r := Root]))
    ensures forall v :: 0 <= v < PAGES ==> Lookup(m.tab, r, v) == ZERO_PTE
  {
    var m' := m.(own := m.own[r := Root]);
    forall g | 0 <= g < |m.own| ensures FrameOk(m', g) {
      NewRootKeepsFrame(m, r, g);
    }
  }

  lemma NewRootKeepsFrame(m: Mem, r: int, g: int)
    requires Inv(m) && Owned(m, r, Kernel) && Empty(m.tab[r]) && 0 <= g < |m.own|
    ensures FrameOk(m.(own := m.own[r := Root]), g)
  {
    var m' := m.(own := m.own[r := Root]);
    assert FrameOk(m, g);
    match m.own[g] {
      case Free =>
      case Kernel =>
      case Root =>
        forall j | 0 <= j < PTES ensures PointsTo(m', Entry(m.tab, g, j), Mid(g, j)) {
          assert PointsTo(m, Entry(m.tab, g, j), Mid(g, j));
        }
      case Mid(q, k) =>
        forall j | 0 <= j < PTES ensures PointsTo(m', Entry(m.tab, g, j), Low(q, k * PTES + j)) {
          assert PointsTo(m, Entry(m.tab, g, j), Low(q, k * PTES + j));
        }
      case Low(q, k) =>
        forall j | 0 <= j < PTES ensures LeafOk(m', Entry(m.tab, g, j), q, k * PTES + j) {
          assert LeafOk(m, Entry(m.tab, g, j), q, k * PTES + j);
        }
      case User(q, w) =>
    }
  }

  // ---------------------------------------------------------------- taking a whole tree out of use

  /** The frame is one of the tables of address space r. */
  predicate TableOf(m: Mem, r: int, f: int) {
    && 0 <= f < |m.own|
    && match m.own[f]
       case Root => f == r
       case Mid(q, _) => q == r
       case Low(q, _) => q == r
       case _ => false
  }

  /** All tables of r handed back to the kernel. */
  function Detached(m: Mem, r: int): Mem {
    m.(own := seq(|m.own|, f requires 0 <= f < |m.own| => if TableOf(m, r, f) then Kernel else m.own[f]))
  }

  /** An address space without leaves can be taken out of use: nothing else refers to its tables. */
  lemma Detach(m: Mem, r: int)
    requires Inv(m) && Owned(m, r, Root)
    requires forall f :: 0 <= f < |m.own| ==> !(m.own[f].User? && m.own[f].root == r)
    ensures Inv(Detached(m, r))
  {
    var m' := Detached(m, r);
    forall g | 0 <= g < |m.own| ensures FrameOk(m', g) {
      DetachKeepsFrame(m, r, g);
    }
  }

  lemma DetachKeepsFrame(m: Mem, r: int, g: int)
    requires Inv(m) && Owned(m, r, Root) && 0 <= g < |m.own|
    requires forall f :: 0 <= f < |m.own| ==> !(m.own[f].User? && m.own[f].root == r)
    ensures FrameOk(Detached(m, r), g)
  {
    var m' := Detached(m, r);
    assert FrameOk(m, g);
    if !TableOf(m, r, g) {
      match m.own[g] {
        case Free =>
        case Kernel =>
        case Root =>
          forall j | 0 <= j < PTES ensures PointsTo(m', Entry(m.tab, g, j), Mid(g, j)) {
            assert PointsTo(m, Entry(m.tab, g, j), Mid(g, j));
          }
        case Mid(q, k) =>
          forall j | 0 <= j < PTES ensures PointsTo(m', Entry(m.tab, g, j), Low(q, k * PTES + j)) {
            assert PointsTo(m, Entry(m.tab, g, j), Low(q, k * PTES + j));
          }
        case Low(q, k) =>
          forall j | 0 <= j < PTES ensures LeafOk(m', Entry(m.tab, g, j), q, k * PTES + j) {
            assert LeafOk(m, Entry(m.tab, g, j), q, k * PTES + j);
          }
        case User(q, w) =>
      }
    }
  }
}
