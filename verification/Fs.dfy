/**
 The block allocator and the block map of the file system: balloc, bfree,
 bmap, itrunc, readi and writei, over blocks that the buffer cache and the log
 present as plain memory.

 A copy to or from the caller fails at the first page that cannot be used, and
 what was copied before it stays. An inode stays in memory while it is in use.
 */
module Fs {
  import opened FsBlocks
  import FileIo
  import PhysMem
  import Counting
  import Crash

  const BPB: int := 8192

  /** What filewrite passes to one writei. */
  const MAX_CHUNK: int := (Crash.MAXOPBLOCKS - 1 - 1 - 2) / 2 * BSIZE

  // ---------------------------------------------------------------- the bitmap

  /** 1 << k for a bit of a byte. */
  function Mask(k: int): bv8 {
    if k == 0 then 1 else if k == 1 then 2 else if k == 2 then 4 else if k == 3 then 8
    else if k == 4 then 16 else if k == 5 then 32 else if k == 6 then 64 else 128
  }

  predicate Test(x: bv8, k: int) { x & Mask(k) != 0 }

  function Marked(x: bv8, k: int): bv8 { x | Mask(k) }
  function Unmarked(x: bv8, k: int): bv8 { x & !Mask(k) }

  lemma MaskBits(x: bv8, k: int, j: int)
    requires 0 <= k < 8 && 0 <= j < 8
    ensures Test(Marked(x, k), j) <==> k == j || Test(x, j)
    ensures Test(Unmarked(x, k), j) <==> k != j && Test(x, j)
  {
  }

  /** The bitmap block, the byte in it and the bit in that byte for a block number. */
  function Blk(b: int): int { b / BPB }
  function Byt(b: int): int { b % BPB / 8 }
  function Off(b: int): int { b % 8 }

  lemma Places(b: int, c: int)
    requires 0 <= b && 0 <= c
    ensures 0 <= Blk(b) && 0 <= Byt(b) < BSIZE && 0 <= Off(b) < 8
    ensures Blk(b) == Blk(c) && Byt(b) == Byt(c) && Off(b) == Off(c) ==> b == c
    ensures b <= c ==> Blk(b) <= Blk(c)
  {
    SplitBlock(b);
    SplitBlock(c);
  }

  lemma SplitBlock(b: int)
    requires 0 <= b
    ensures b == b / BPB * BPB + b % BPB / 8 * 8 + b % 8 && b % BPB / 8 < BSIZE
  {
    assert b % BPB % 8 == b % 8;
  }

  function ByteOf(bits: seq<seq<bv8>>, k: int, j: int): bv8 {
    if 0 <= k < |bits| && 0 <= j < |bits[k]| then bits[k][j] else 0
  }

  predicate Bit(bits: seq<seq<bv8>>, b: int) { Test(ByteOf(bits, Blk(b), Byt(b)), Off(b)) }

  predicate BitmapShape(bits: seq<seq<bv8>>, size: int) {
    && 0 < size && Blk(size - 1) < |bits|
    && forall k :: 0 <= k < |bits| ==> |bits[k]| == BSIZE
  }

  /** A block is marked exactly when it is in use. */
  ghost predicate BitsOk(bits: seq<seq<bv8>>, own: seq<Use>) {
    BitmapShape(bits, |own|) && forall b :: 0 <= b < |own| ==> (Bit(bits, b) <==> own[b] != Free)
  }

  function WithByte(bits: seq<seq<bv8>>, k: int, j: int, x: bv8): seq<seq<bv8>>
    requires 0 <= k < |bits| && 0 <= j < |bits[k]|
  {
    bits[k := bits[k][j := x]]
  }

  lemma InBitmap(bits: seq<seq<bv8>>, size: int, b: int)
    requires BitmapShape(bits, size) && 0 <= b < size
    ensures 0 <= Blk(b) < |bits| && 0 <= Byt(b) < |bits[Blk(b)]|
  {
    hide Blk, Byt;
    Places(b, size - 1);
  }

  lemma BitOfChange(bits: seq<seq<bv8>>, size: int, b: int, c: int, x: bv8)
    requires BitmapShape(bits, size) && 0 <= b < size && 0 <= c < size
    requires 0 <= Blk(b) < |bits| && 0 <= Byt(b) < |bits[Blk(b)]|
    ensures Bit(WithByte(bits, Blk(b), Byt(b), x), c) ==
            if Blk(b) == Blk(c) && Byt(b) == Byt(c) then Test(x, Off(c)) else Bit(bits, c)
  {
    hide Blk, Byt, Off, Test;
  }

  lemma SetBit(bits: seq<seq<bv8>>, own: seq<Use>, b: int, u: Use)
    requires BitsOk(bits, own) && 0 <= b < |own| && u != Free
    ensures 0 <= Blk(b) < |bits| && 0 <= Byt(b) < |bits[Blk(b)]|
    ensures BitsOk(WithByte(bits, Blk(b), Byt(b), Marked(ByteOf(bits, Blk(b), Byt(b)), Off(b))), own[b := u])
  {
    hide Blk, Byt, Off, Test, Marked, Unmarked, ByteOf;
    InBitmap(bits, |own|, b);
    var x := ByteOf(bits, Blk(b), Byt(b));
    var bits' := WithByte(bits, Blk(b), Byt(b), Marked(x, Off(b)));
    forall c | 0 <= c < |own| ensures Bit(bits', c) <==> own[b := u][c] != Free {
      BitOfChange(bits, |own|, b, c, Marked(x, Off(b)));
      Places(b, c);
      Places(c, b);
      MaskBits(x, Off(b), Off(c));
      assert Bit(bits, c) <==> own[c] != Free;
    }
  }

  lemma ClearBit(bits: seq<seq<bv8>>, own: seq<Use>, b: int)
    requires BitsOk(bits, own) && 0 <= b < |own|
    ensures 0 <= Blk(b) < |bits| && 0 <= Byt(b) < |bits[Blk(b)]|
    ensures BitsOk(WithByte(bits, Blk(b), Byt(b), Unmarked(ByteOf(bits, Blk(b), Byt(b)), Off(b))), own[b := Free])
  {
    hide Blk, Byt, Off, Test, Marked, Unmarked, ByteOf;
    InBitmap(bits, |own|, b);
    var x := ByteOf(bits, Blk(b), Byt(b));
    var bits' := WithByte(bits, Blk(b), Byt(b), Unmarked(x, Off(b)));
    forall c | 0 <= c < |own| ensures Bit(bits', c) <==> own[b := Free][c] != Free {
      BitOfChange(bits, |own|, b, c, Unmarked(x, Off(b)));
      Places(b, c);
      Places(c, b);
      MaskBits(x, Off(b), Off(c));
      assert Bit(bits, c) <==> own[c] != Free;
    }
  }

  /** Where balloc's two loop variables point. */
  lemma LoopBlock(b: int, bi: int)
    requires 0 <= b && b % BPB == 0 && 0 <= bi < BPB
    ensures Blk(b + bi) == b / BPB && Byt(b + bi) == bi / 8 && Off(b + bi) == bi % 8
  {
    var k := b / BPB;
    DivBpb(b + bi, k, bi);
    Mod8(b + bi, k * 1024 + bi / 8, bi % 8);
  }

  lemma DivBpb(a: int, q: int, r: int)
    requires a == BPB * q + r && 0 <= r < BPB
    ensures a / BPB == q && a % BPB == r
  {
  }

  lemma Mod8(a: int, q: int, r: int)
    requires a == 8 * q + r && 0 <= r < 8
    ensures a % 8 == r
  {
  }

  // ---------------------------------------------------------------- what files look like

  /** Every file has the same bytes and the same size. */
  ghost predicate SameFiles(d: Disk, d': Disk) {
    && |d'.inodes| == |d.inodes|
    && (forall i, o :: 0 <= i < |d.inodes| && 0 <= o < MAXFILE * BSIZE ==> ByteAt(d', i, o) == ByteAt(d, i, o))
    && forall i :: 0 <= i < |d.inodes| ==> d'.inodes[i].size == d.inodes[i].size
  }

  lemma SameFilesTransitive(d: Disk, d1: Disk, d2: Disk)
    requires SameFiles(d, d1) && SameFiles(d1, d2)
    ensures SameFiles(d, d2)
  {
  }

  /** Blocks in use keep their use; a free block may have become a block of file i. */
  ghost predicate OnlyGrows(d: Disk, d': Disk, i: int) {
    && |d'.own| == |d.own|
    && forall b :: 0 <= b < |d.own| ==>
         || d'.own[b] == d.own[b]
         || (d.own[b] == Free && (d'.own[b] == Table(i) || (d'.own[b].Data? && d'.own[b].ino == i)))
  }

  /** Blocks in use keep their place; only file i gets new ones. */
  lemma SlotsStay(d: Disk, d': Disk, i: int, q: int, bn: int)
    requires DiskOk(d) && DiskOk(d') && OnlyGrows(d, d', i) && |d'.inodes| == |d.inodes|
    requires 0 <= q < |d.inodes| && 0 <= bn < MAXFILE
    ensures Slot(d, q, bn) != 0 ==> Slot(d', q, bn) == Slot(d, q, bn)
    ensures q != i ==> Slot(d', q, bn) == Slot(d, q, bn)
  {
    assert SlotOk(d, q, bn) && SlotOk(d', q, bn);
    var b, b' := Slot(d, q, bn), Slot(d', q, bn);
    if b != 0 {
      assert UseOk(d', b);
    }
    if b' != 0 && q != i {
      assert UseOk(d, b');
    }
  }

  lemma OthersDense(d: Disk, d': Disk, i: int)
    requires DiskOk(d) && DiskOk(d') && OnlyGrows(d, d', i) && |d'.inodes| == |d.inodes| && NoneHasHoles(d)
    requires forall q :: 0 <= q < |d.inodes| && q != i ==> d'.inodes[q].size == d.inodes[q].size <= MAXFILE * BSIZE
    requires NoHoles(d', i)
    ensures NoneHasHoles(d')
  {
    hide DiskOk, Slot, OnlyGrows;
    forall q | 0 <= q < |d.inodes| && q != i ensures NoHoles(d', q) {
      assert NoHoles(d, q);
      forall bn | 0 <= bn < Blocks(d'.inodes[q].size) ensures Slot(d', q, bn) != 0 {
        SlotsStay(d, d', i, q, bn);
      }
    }
  }

  lemma OnlyGrowsTransitive(d: Disk, d1: Disk, d2: Disk, i: int)
    requires OnlyGrows(d, d1, i) && OnlyGrows(d1, d2, i)
    ensures OnlyGrows(d, d2, i)
  {
  }

  predicate Full(own: seq<Use>) { forall b :: 0 <= b < |own| ==> own[b] != Free }

  /** A block taken and made block bn of file i. */
  lemma SlotAdded(d: Disk, i: int, bn: int, b: int)
    requires DiskOk(d) && 0 <= i < |d.inodes| && 0 <= bn < MAXFILE && Slot(d, i, bn) == 0
    requires Owned(d, b, Free) && (bn >= NDIRECT ==> TableOf(d, i) != 0)
    ensures var d1 := Loosened(d, b, Zeros(BSIZE), Zeros(NINDIRECT), Held);
            && DiskOk(d1) && (bn >= NDIRECT ==> 0 <= TableOf(d1, i) < |d1.ptrs|)
            && var d2 := WithSlot(d1, i, bn, b);
               DiskOk(d2) && SameFiles(d, d2) && OnlyGrows(d, d2, i) && Slot(d2, i, bn) == b
  {
    hide DiskOk;
    DiskShape(d);
    var d1 := Loosened(d, b, Zeros(BSIZE), Zeros(NINDIRECT), Held);
    LooseKeeps(d, b, Zeros(BSIZE), Zeros(NINDIRECT), Held);
    LooseSlot(d, b, Zeros(BSIZE), Zeros(NINDIRECT), Held, i, bn);
    WithSlotKeeps(d1, i, bn, b);
    SlotOfWithSlot(d1, i, bn, b, i, bn);
    var d2 := WithSlot(d1, i, bn, b);
    forall i', o | 0 <= i' < |d.inodes| && 0 <= o < MAXFILE * BSIZE ensures ByteAt(d2, i', o) == ByteAt(d, i', o) {
      WithSlotBytes(d1, i, bn, b, i', o);
    }
  }

  lemma TableAdded(d: Disk, i: int, b: int)
    requires DiskOk(d) && 0 <= i < |d.inodes| && TableOf(d, i) == 0 && Owned(d, b, Free)
    ensures var d1 := Loosened(d, b, Zeros(BSIZE), Zeros(NINDIRECT), Held);
            DiskOk(d1) && var d2 := WithTable(d1, i, b);
            DiskOk(d2) && SameFiles(d, d2) && OnlyGrows(d, d2, i) && TableOf(d2, i) == b
            && forall bn :: 0 <= bn < MAXFILE ==> Slot(d2, i, bn) == Slot(d, i, bn)
  {
    hide DiskOk;
    DiskShape(d);
    var d1 := Loosened(d, b, Zeros(BSIZE), Zeros(NINDIRECT), Held);
    LooseKeeps(d, b, Zeros(BSIZE), Zeros(NINDIRECT), Held);
    WithTableKeeps(d1, i, b);
    forall bn | 0 <= bn < MAXFILE ensures Slot(WithTable(d1, i, b), i, bn) == Slot(d, i, bn) {
      LooseSlot(d, b, Zeros(BSIZE), Zeros(NINDIRECT), Held, i, bn);
      SlotOfWithTable(d1, i, b, i, bn);
    }
    SlotOfWithTable(d1, i, b, i, 0);
  }

  // ---------------------------------------------------------------- what an operation logs

  /** A block that log_write is called for: one of the bitmap, one of a file, or the one that holds an inode. */
  datatype Logged = Bitmap(k: int) | Block(b: int) | Node(ino: int)

  /** What the blocks hold, cached or not: bitmap, data, tables and inodes. */
  datatype OnDisk = OnDisk(bits: seq<seq<bv8>>, data: seq<seq<int>>, ptrs: seq<seq<int>>, nodes: seq<Inode>)

  /** Everything that differs has been logged, except for the data in some blocks. */
  ghost predicate Logs(k: OnDisk, k': OnDisk, logged: set<Logged>, but: set<int>) {
    && |k'.bits| == |k.bits| && |k'.data| == |k.data| && |k'.ptrs| == |k.ptrs| && |k'.nodes| == |k.nodes|
    && (forall m :: 0 <= m < |k.bits| && k'.bits[m] != k.bits[m] ==> Bitmap(m) in logged)
    && (forall b :: 0 <= b < |k.data| && k'.data[b] != k.data[b] && b !in but ==> Block(b) in logged)
    && (forall b :: 0 <= b < |k.ptrs| && k'.ptrs[b] != k.ptrs[b] ==> Block(b) in logged)
    && forall q :: 0 <= q < |k.nodes| && k'.nodes[q] != k.nodes[q] ==> Node(q) in logged
  }

  lemma LogsSelf(k: OnDisk, logged: set<Logged>)
    ensures Logs(k, k, logged, {})
  {
  }

  lemma LogsMore(k: OnDisk, k1: OnDisk, k2: OnDisk, l1: set<Logged>, l2: set<Logged>, but: set<int>)
    requires Logs(k, k1, l1, {}) && l1 <= l2 && Logs(k1, k2, l2, but)
    ensures Logs(k, k2, l2, but)
  {
  }

  /** Of the blocks of files only these are logged anew: free ones, the table of file i, and blocks [lo, hi) of it. */
  ghost predicate LogsOnly(logged: set<Logged>, logged': set<Logged>, own: seq<Use>, i: int, lo: int, hi: int) {
    forall b :: Block(b) in logged' && Block(b) !in logged ==> 0 <= b < |own| && ForFile(own[b], i, lo, hi)
  }

  predicate ForFile(u: Use, i: int, lo: int, hi: int) {
    u == Free || u == Table(i) || (u.Data? && u.ino == i && lo <= u.bn < hi)
  }

  lemma LogsOnlyMore(l: set<Logged>, l1: set<Logged>, l2: set<Logged>, d: Disk, d1: Disk, i: int, lo: int, hi: int,
                     hi': int)
    requires LogsOnly(l, l1, d.own, i, lo, hi) && LogsOnly(l1, l2, d1.own, i, lo, hi') && OnlyGrows(d, d1, i)
    requires hi <= hi'
    ensures LogsOnly(l, l2, d.own, i, lo, hi')
  {
    forall b | Block(b) in l2 && Block(b) !in l ensures 0 <= b < |d.own| && ForFile(d.own[b], i, lo, hi') {
      if Block(b) in l1 {
        assert ForFile(d.own[b], i, lo, hi);
      } else {
        assert ForFile(d1.own[b], i, lo, hi');
      }
    }
  }

  /** Mapping blocks of file i logs all it changes, and of the blocks of files only new ones and the table. */
  ghost predicate Mapped(c: OnDisk, c': OnDisk, d: Disk, i: int, l: set<Logged>, l': set<Logged>) {
    Logs(c, c', l', {}) && c'.nodes == c.nodes && l <= l' && LogsOnly(l, l', d.own, i, 0, 0)
  }

  lemma MappedNone(c: OnDisk, d: Disk, i: int, l: set<Logged>)
    ensures Mapped(c, c, d, i, l, l)
  {
  }

  lemma MappedMore(c: OnDisk, c1: OnDisk, c2: OnDisk, d: Disk, d1: Disk, i: int, l: set<Logged>, l1: set<Logged>,
                   l2: set<Logged>)
    requires Mapped(c, c1, d, i, l, l1) && Mapped(c1, c2, d1, i, l1, l2) && OnlyGrows(d, d1, i)
    ensures Mapped(c, c2, d, i, l, l2)
  {
    hide Logs, LogsOnly, OnlyGrows;
    LogsMore(c, c1, c2, l1, l2, {});
    LogsOnlyMore(l, l1, l2, d, d1, i, 0, 0, 0);
  }

  lemma MappedNew(c: OnDisk, c': OnDisk, d: Disk, i: int, l: set<Logged>, l': set<Logged>, b: int)
    requires Logs(c, c', l', {}) && c'.nodes == c.nodes && DiskOk(d) && 0 <= i < |d.inodes| && Owned(d, b, Free)
    requires l <= l' <= l + Bitmaps(|c'.bits|) + {Block(b)} + TablePart(d, i)
    ensures Mapped(c, c', d, i, l, l')
  {
    hide Logs;
    assert TableOk(d, i);
  }

  /** The blocks [a, b) of file i have been logged. */
  ghost predicate PartsLogged(d: Disk, i: int, a: int, b: int, logged: set<Logged>) {
    forall bn :: a <= bn < b ==> Block(Slot(d, i, bn)) in logged
  }

  lemma PartsLoggedStay(d: Disk, d': Disk, i: int, a: int, b: int, logged: set<Logged>, logged': set<Logged>)
    requires DiskOk(d) && DiskOk(d') && OnlyGrows(d, d', i) && |d'.inodes| == |d.inodes| && 0 <= i < |d.inodes|
    requires PartsLogged(d, i, a, b, logged) && logged <= logged' && 0 <= a && b <= MAXFILE
    requires forall bn :: a <= bn < b ==> Slot(d, i, bn) != 0
    ensures PartsLogged(d', i, a, b, logged')
  {
    hide DiskOk, Slot, OnlyGrows;
    forall bn | a <= bn < b ensures Block(Slot(d', i, bn)) in logged' {
      SlotsStay(d, d', i, i, bn);
    }
  }

  /** How far the blocks of the first n bytes from off on reach. */
  function Upto(off: int, n: int): int { if n == 0 then off / BSIZE else Blocks(off + n) }

  lemma LogsAfter(k: OnDisk, k1: OnDisk, k2: OnDisk, l1: set<Logged>, l2: set<Logged>, but: set<int>)
    requires Logs(k, k1, l1, but) && l1 <= l2 && Logs(k1, k2, l2, {})
    ensures Logs(k, k2, l2, but)
  {
  }

  lemma LogsOnlyNodes(l: set<Logged>, l1: set<Logged>, own: seq<Use>, i: int, lo: int, hi: int)
    requires LogsOnly(l, l1, own, i, lo, hi)
    ensures LogsOnly(l, l1 + {Node(i)}, own, i, lo, hi)
  {
  }

  /** A block that a copy into it failed for, and that was there before, has not been logged for it. */
  lemma FailedNotLogged(d: Disk, i: int, bn: int, lo: int, hi: int, logged: set<Logged>, logged': set<Logged>)
    requires DiskOk(d) && 0 <= i < |d.inodes| && 0 <= bn < MAXFILE && Slot(d, i, bn) != 0 && !(lo <= bn < hi)
    requires LogsOnly(logged, logged', d.own, i, lo, hi) && Block(Slot(d, i, bn)) !in logged
    ensures Block(Slot(d, i, bn)) !in logged'
  {
    assert SlotOk(d, i, bn);
  }

  // ---------------------------------------------------------------- how much it logs

  function Bitmaps(n: int): set<Logged> { set k | 0 <= k < n :: Bitmap(k) }

  function Parts(d: Disk, i: int, a: int, b: int): set<Logged> {
    set bn | a <= bn < b && Slot(d, i, bn) != 0 :: Block(Slot(d, i, bn))
  }

  function TablePart(d: Disk, i: int): set<Logged> {
    if TableOf(d, i) == 0 then {} else {Block(TableOf(d, i))}
  }

  /** What making block bn of file i may log, with the bitmap in nmap blocks. */
  function MapSet(d: Disk, i: int, bn: int, nmap: int): set<Logged> {
    Bitmaps(nmap) + Parts(d, i, bn, bn + 1) + TablePart(d, i)
  }

  /** What writing n bytes at off may log. */
  function WriteSet(d: Disk, i: int, off: int, n: int, nmap: int): set<Logged> {
    Bitmaps(nmap) + Parts(d, i, off / BSIZE, Blocks(off + n)) + TablePart(d, i) + {Node(i)}
  }

  lemma LogsTaken(c: OnDisk, k: int, j: int, x: bv8, b: int, l: set<Logged>)
    requires 0 <= k < |c.bits| && 0 <= j < |c.bits[k]| && 0 <= b < |c.data| == |c.ptrs|
    ensures var data, ptrs := c.data[b := Zeros(BSIZE)], c.ptrs[b := Zeros(NINDIRECT)];
            Logs(c, OnDisk(WithByte(c.bits, k, j, x), data, ptrs, c.nodes), l + {Bitmap(k), Block(b)}, {})
    ensures Bitmap(k) in Bitmaps(|c.bits|) && |WithByte(c.bits, k, j, x)| == |c.bits|
  {
  }

  lemma {:induction false} BitmapsSize(n: int)
    requires 0 <= n
    ensures |Bitmaps(n)| == n
  {
    if n == 0 {
      assert Bitmaps(0) == {};
    } else {
      BitmapsSize(n - 1);
      assert Bitmaps(n) == Bitmaps(n - 1) + {Bitmap(n - 1)};
    }
  }

  lemma {:induction false} PartsSize(d: Disk, i: int, a: int, b: int)
    requires a <= b
    ensures |Parts(d, i, a, b)| <= b - a
    decreases b - a
  {
    hide Slot;
    if a == b {
      assert Parts(d, i, a, b) == {};
    } else {
      PartsSize(d, i, a, b - 1);
      var last := Slot(d, i, b - 1);
      assert Parts(d, i, a, b) == Parts(d, i, a, b - 1) + if last == 0 then {} else {Block(last)};
    }
  }

  /** One write call of filewrite stays within the log space that its operation has reserved, if the bitmap takes no
      more than four blocks. */
  lemma WriteFitsBudget(d: Disk, i: int, off: int, n: int, nmap: int, logged: set<Logged>)
    requires 0 <= off && 0 <= n <= MAX_CHUNK && 0 <= nmap && logged <= WriteSet(d, i, off, n, nmap)
    ensures |logged| <= nmap + 6
    ensures nmap <= 4 ==> |logged| <= Crash.MAXOPBLOCKS
  {
    hide Slot, TableOf, Parts, Bitmaps;
    var a, b := off / BSIZE, Blocks(off + n);
    BitmapsSize(nmap);
    PartsSize(d, i, a, b);
    assert |Bitmaps(nmap) + Parts(d, i, a, b)| <= nmap + 4;
    assert |TablePart(d, i) + {Node(i)}| <= 2;
    assert WriteSet(d, i, off, n, nmap) == Bitmaps(nmap) + Parts(d, i, a, b) + (TablePart(d, i) + {Node(i)});
    Counting.SubsetSize(logged, WriteSet(d, i, off, n, nmap));
  }

  lemma InWriteSet(d: Disk, i: int, off: int, n: int, nmap: int, at: int)
    requires 0 <= off <= at < off + n
    ensures MapSet(d, i, at / BSIZE, nmap) <= WriteSet(d, i, off, n, nmap)
    ensures Slot(d, i, at / BSIZE) != 0 ==> Block(Slot(d, i, at / BSIZE)) in WriteSet(d, i, off, n, nmap)
  {
    hide Slot, TableOf;
    BlockInSize(at, off + n);
  }

  lemma TableStays(d: Disk, d': Disk, i: int)
    requires DiskOk(d) && DiskOk(d') && OnlyGrows(d, d', i) && |d'.inodes| == |d.inodes| && 0 <= i < |d.inodes|
    ensures TableOf(d, i) != 0 ==> TableOf(d', i) == TableOf(d, i)
  {
    assert TableOk(d, i);
    if TableOf(d, i) != 0 {
      assert UseOk(d', TableOf(d, i));
    }
  }

  lemma WriteSetStays(d: Disk, d': Disk, i: int, off: int, n: int, nmap: int)
    requires DiskOk(d) && DiskOk(d') && OnlyGrows(d, d', i) && |d'.inodes| == |d.inodes| && 0 <= i < |d.inodes|
    requires 0 <= off && 0 <= n && off + n <= MAXFILE * BSIZE
    ensures WriteSet(d, i, off, n, nmap) <= WriteSet(d', i, off, n, nmap)
  {
    hide DiskOk, Slot, TableOf, OnlyGrows, Bitmaps;
    TableStays(d, d', i);
    var a, b := off / BSIZE, Blocks(off + n);
    forall x | x in Parts(d, i, a, b) ensures x in Parts(d', i, a, b) {
      var bn :| a <= bn < b && Slot(d, i, bn) != 0 && x == Block(Slot(d, i, bn));
      SlotsStay(d, d', i, i, bn);
    }
  }

  /** Contents and sizes have no part in it. */
  lemma WriteSetSame(d: Disk, d': Disk, i: int, off: int, n: int, nmap: int)
    requires TableOf(d', i) == TableOf(d, i) && forall bn :: Slot(d', i, bn) == Slot(d, i, bn)
    ensures WriteSet(d', i, off, n, nmap) == WriteSet(d, i, off, n, nmap)
  {
    hide Slot, TableOf, Bitmaps;
    assert Parts(d', i, off / BSIZE, Blocks(off + n)) == Parts(d, i, off / BSIZE, Blocks(off + n));
  }

  lemma SizeNotLogged(d: Disk, d': Disk, i: int, off: int, n: int, nmap: int, l: set<Logged>, l': set<Logged>, tot: int)
    requires TableOf(d', i) == TableOf(d, i) && forall bn :: Slot(d', i, bn) == Slot(d, i, bn)
    requires l' == l + {Node(i)} && PartsLogged(d, i, off / BSIZE, Upto(off, tot), l)
    ensures WriteSet(d', i, off, n, nmap) == WriteSet(d, i, off, n, nmap) && Node(i) in WriteSet(d, i, off, n, nmap)
    ensures PartsLogged(d', i, off / BSIZE, Upto(off, tot), l')
  {
    hide Slot, TableOf;
    WriteSetSame(d, d', i, off, n, nmap);
  }

  lemma WriteSetStored(d: Disk, x: int, block: seq<int>, i: int, off: int, n: int, nmap: int)
    requires 0 <= x < |d.data|
    ensures WriteSet(Stored(d, x, block), i, off, n, nmap) == WriteSet(d, i, off, n, nmap)
  {
    assert forall bn :: Slot(Stored(d, x, block), i, bn) == Slot(d, i, bn);
    WriteSetSame(d, Stored(d, x, block), i, off, n, nmap);
  }

  // ---------------------------------------------------------------- the file system

  class FileSystem {
    var bits: seq<seq<bv8>>
    var data: seq<seq<int>>
    var ptrs: seq<seq<int>>
    /** The inodes in memory, and what their blocks hold. */
    var inodes: seq<Inode>
    var nodes: seq<Inode>
    ghost var own: seq<Use>
    ghost var logged: set<Logged>

    ghost function D(): Disk
      reads this
    {
      Disk(data, ptrs, inodes, own)
    }

    ghost predicate Valid()
      reads this
    {
      DiskOk(D()) && BitsOk(bits, own) && |nodes| == |inodes|
    }

    ghost function K(): OnDisk
      reads this
    {
      OnDisk(bits, data, ptrs, nodes)
    }

    /** Mounting a disk whose bitmap tells the truth. */
    constructor (bits: seq<seq<bv8>>, data: seq<seq<int>>, ptrs: seq<seq<int>>, inodes: seq<Inode>, ghost own: seq<Use>)
      requires DiskOk(Disk(data, ptrs, inodes, own)) && BitsOk(bits, own)
      ensures Valid() && D() == Disk(data, ptrs, inodes, own) && nodes == inodes && logged == {}
    {
      this.bits, this.data, this.ptrs, this.inodes, this.own := bits, data, ptrs, inodes, own;
      nodes, logged := inodes, {};
    }

    /** iupdate: the inode in memory goes into its block. */
    method Iupdate(i: int)
      requires Valid() && 0 <= i < |inodes|
      modifies `nodes, `logged
      ensures Valid() && nodes == old(nodes)[i := inodes[i]] && logged == old(logged) + {Node(i)}
      ensures Logs(old(K()), K(), logged, {})
    {
      nodes := nodes[i := inodes[i]];
      logged := logged + {Node(i)};
    }

    /** balloc: the lowest free block, zeroed, or 0 if there is none. */
    method Balloc() returns (r: int)
      requires Valid()
      modifies `bits, `data, `ptrs, `own, `logged
      ensures Valid() && |own| == |old(own)| && Logs(old(K()), K(), logged, {})
      ensures old(logged) <= logged <= old(logged) + Bitmaps(|bits|) + if r == 0 then {} else {Block(r)}
      ensures nodes == old(nodes) && |bits| == |old(bits)| && (r != 0 ==> Block(r) in logged)
      ensures r == 0 <==> forall b :: 0 <= b < |old(own)| ==> old(own)[b] != Free
      ensures r == 0 ==> D() == old(D()) && K() == old(K()) && logged == old(logged)
      ensures r != 0 ==>
          0 < r < |old(own)| == |old(data)| == |old(ptrs)| && old(own)[r] == Free
            && (forall b :: 0 <= b < r ==> old(own)[b] != Free)
      ensures r != 0 ==> D() == Loosened(old(D()), r, Zeros(BSIZE), Zeros(NINDIRECT), Held)
    {
      hide DiskOk, Bit, Test, Marked, Blk, Byt, Off, ByteOf, BitsOk, ByteAt, Logs, Bitmaps;
      DiskShape(D());
      LogsSelf(K(), logged);
      var size := |data|;
      var b := 0;
      while b < size
        invariant 0 <= b && b % BPB == 0
        invariant forall c :: 0 <= c < b && c < |own| ==> own[c] != Free
        invariant bits == old(bits) && D() == old(D()) && logged == old(logged)
      {
        var bi := 0;
        while bi < BPB && b + bi < size
          invariant 0 <= bi <= BPB
          invariant forall c :: 0 <= c < b + bi && c < |own| ==> own[c] != Free
          invariant bits == old(bits) && D() == old(D()) && logged == old(logged)
        {
          LoopBlock(b, bi);
          MarkIs(bits, own, b + bi);
          if !Test(bits[b / BPB][bi / 8], bi % 8) {
            SetBit(bits, own, b + bi, Held);
            LooseKeeps(D(), b + bi, Zeros(BSIZE), Zeros(NINDIRECT), Held);
            LogsTaken(K(), b / BPB, bi / 8, Marked(bits[b / BPB][bi / 8], bi % 8), b + bi, logged);
            bits := WithByte(bits, b / BPB, bi / 8, Marked(bits[b / BPB][bi / 8], bi % 8));
            own := own[b + bi := Held];
            data := data[b + bi := Zeros(BSIZE)];
            ptrs := ptrs[b + bi := Zeros(NINDIRECT)];
            logged := logged + {Bitmap(b / BPB), Block(b + bi)};
            return b + bi;
          }
          bi := bi + 1;
        }
        b := b + BPB;
      }
      return 0;
    }

    /** bfree of an allocated block that nothing refers to; its panic is out of reach. */
    method Bfree(b: int)
      requires Valid() && 0 <= b < |own| && own[b] == Held
      modifies `bits, `own, `logged
      ensures Valid() && D() == old(D()).(own := old(own)[b := Free])
      ensures nodes == old(nodes) && |bits| == |old(bits)| && Logs(old(K()), K(), logged, {})
      ensures old(logged) <= logged <= old(logged) + Bitmaps(|bits|)
    {
      hide DiskOk, Bit, Test, Unmarked, ByteOf, BitsOk, ByteAt, Blk, Byt, Off;
      DiskShape(D());
      MarkIs(bits, own, b);
      var bi := b % BPB;
      LoopBlock(b - bi, bi);
      assert Test(bits[b / BPB][bi / 8], bi % 8);
      ClearBit(bits, own, b);
      LooseKeeps(D(), b, data[b], ptrs[b], Free);
      assert Loosened(D(), b, data[b], ptrs[b], Free) == D().(own := own[b := Free]);
      bits := WithByte(bits, b / BPB, bi / 8, Unmarked(bits[b / BPB][bi / 8], bi % 8));
      own := own[b := Free];
      logged := logged + {Bitmap(b / BPB)};
    }

    /** balloc for block bn of file i. */
    method AllocSlot(i: int, bn: int) returns (addr: int)
      requires Valid() && 0 <= i < |inodes| && 0 <= bn < MAXFILE && Slot(D(), i, bn) == 0
      requires bn >= NDIRECT ==> TableOf(D(), i) != 0
      modifies this
      ensures Valid() && SameFiles(old(D()), D()) && OnlyGrows(old(D()), D(), i) && Slot(D(), i, bn) == addr
      ensures addr == 0 ==> Full(own) && D() == old(D())
      ensures Mapped(old(K()), K(), old(D()), i, old(logged), logged)
      ensures |bits| == |old(bits)| && logged <= old(logged) + MapSet(D(), i, bn, |bits|)
    {
      hide DiskOk, BitsOk, SameFiles, OnlyGrows, ByteAt, Bitmaps, Mapped;
      ghost var d, c := D(), K();
      MappedNone(c, d, i, logged);
      Unchanged(d, i);
      TableIs(d, i);
      addr := Balloc();
      if addr == 0 {
        return;
      }
      SlotAdded(d, i, bn, addr);
      UseKeepsBits(bits, own, addr, Data(i, bn));
      if bn < NDIRECT {
        inodes := inodes[i := inodes[i].(addrs := inodes[i].addrs[bn := addr])];
      } else {
        var t := inodes[i].addrs[NDIRECT];
        ptrs := ptrs[t := ptrs[t][bn - NDIRECT := addr]];
        logged := logged + {Block(t)};
      }
      own := own[addr := Data(i, bn)];
      MappedNew(c, K(), d, i, old(logged), logged, addr);
    }

    method AllocTable(i: int) returns (addr: int)
      requires Valid() && 0 <= i < |inodes| && TableOf(D(), i) == 0
      modifies this
      ensures Valid() && SameFiles(old(D()), D()) && OnlyGrows(old(D()), D(), i) && TableOf(D(), i) == addr
      ensures addr == 0 ==> Full(own) && D() == old(D())
      ensures forall bn :: 0 <= bn < MAXFILE ==> Slot(D(), i, bn) == Slot(old(D()), i, bn)
      ensures Mapped(old(K()), K(), old(D()), i, old(logged), logged)
      ensures |bits| == |old(bits)| && logged <= old(logged) + Bitmaps(|bits|) + TablePart(D(), i)
    {
      hide DiskOk, BitsOk, SameFiles, OnlyGrows, ByteAt, Slot, Bitmaps, Mapped;
      ghost var d, c := D(), K();
      MappedNone(c, d, i, logged);
      Unchanged(d, i);
      TableIs(d, i);
      addr := Balloc();
      if addr == 0 {
        return;
      }
      TableAdded(d, i, addr);
      UseKeepsBits(bits, own, addr, Table(i));
      inodes := inodes[i := inodes[i].(addrs := inodes[i].addrs[NDIRECT := addr])];
      own := own[addr := Table(i)];
      MappedNew(c, K(), d, i, old(logged), logged, addr);
    }

    /** bmap: the block for block bn of file i, allocating what is missing; 0 if the disk is full. No file changes. */
    method Bmap(i: int, bn: int) returns (addr: int)
      requires Valid() && 0 <= i < |inodes| && 0 <= bn < MAXFILE
      modifies this
      ensures Valid() && SameFiles(old(D()), D()) && OnlyGrows(old(D()), D(), i) && Slot(D(), i, bn) == addr
      ensures addr == 0 ==> Full(own)
      ensures Slot(old(D()), i, bn) != 0 ==> D() == old(D()) && logged == old(logged)
      ensures Mapped(old(K()), K(), old(D()), i, old(logged), logged)
      ensures |bits| == |old(bits)| && logged <= old(logged) + MapSet(D(), i, bn, |bits|)
    {
      hide DiskOk, BitsOk, SameFiles, OnlyGrows, ByteAt, Slot, Full, Bitmaps, Mapped;
      ghost var d, c := D(), K();
      MappedNone(c, d, i, logged);
      Unchanged(d, i);
      TableIs(d, i);
      if bn < NDIRECT {
        addr := inodes[i].addrs[bn];
        if addr == 0 {
          addr := AllocSlot(i, bn);
        }
        return;
      }
      var t := inodes[i].addrs[NDIRECT];
      if t == 0 {
        NoTableNoSlot(d, i, bn);
        t := AllocTable(i);
        if t == 0 {
          return 0;
        }
      }
      ghost var d1, c1, l1 := D(), K(), logged;
      TableIs(d1, i);
      assert Slot(d1, i, NDIRECT + (bn - NDIRECT)) == ptrs[t][bn - NDIRECT];
      addr := ptrs[t][bn - NDIRECT];
      if addr == 0 {
        addr := AllocSlot(i, bn);
        SameFilesTransitive(d, d1, D());
        OnlyGrowsTransitive(d, d1, D(), i);
        SameInodes(d1, D());
        TableStays(d1, D(), i);
        MappedMore(c, c1, K(), d, d1, i, old(logged), l1, logged);
      }
    }

    /** readi to the caller's address `dst`: as many bytes of the file as there are, stopping early only in a hole on a
        full disk, or with -1 at page `wall`, the first one from dst on that cannot be written. By then the caller has
        received `bytes`. */
    method Readi(i: int, dst: int, off: int, n: int, wall: int) returns (tot: int, bytes: seq<int>)
      requires Valid() && 0 <= i < |inodes| && 0 <= off < U32 && 0 <= n < U32 && 0 <= inodes[i].size <= MAXFILE * BSIZE
      modifies this
      ensures Valid() && SameFiles(old(D()), D()) && OnlyGrows(old(D()), D(), i)
      ensures |bytes| <= ReadLength(off, n, old(inodes)[i].size) && IsRead(old(D()), i, off, bytes)
      ensures tot == -1 || tot == |bytes|
      ensures tot == -1 ==> |bytes| == Reach(dst, wall) < ReadLength(off, n, old(inodes)[i].size)
      ensures tot != -1 ==> tot <= Reach(dst, wall)
      ensures tot != -1 && tot < ReadLength(off, n, old(inodes)[i].size) ==>
                Full(own) && Slot(D(), i, (off + tot) / BSIZE) == 0
      ensures NoHoles(old(D()), i) ==> D() == old(D())
      ensures Mapped(old(K()), K(), old(D()), i, old(logged), logged)
      ensures NoHoles(old(D()), i) && tot != -1 ==> tot == ReadLength(off, n, old(inodes)[i].size)
    {
      hide DiskOk, BitsOk, SameFiles, OnlyGrows, ByteAt, Slot, Full, IsRead, Mapped;
      ghost var d, c := D(), K();
      Unchanged(d, i);
      MappedNone(c, d, i, logged);
      tot, bytes := 0, [];
      ReadNothing(d, i, off);
      if off > inodes[i].size || (off + n) % U32 < off {
        return;
      }
      var len := n;
      if off + n > inodes[i].size {
        len := inodes[i].size - off;
      }
      while |bytes| < len
        invariant |bytes| <= len && Valid() && SameFiles(d, D()) && OnlyGrows(d, D(), i) && IsRead(d, i, off, bytes)
        invariant (NoHoles(d, i) ==> D() == d) && tot == |bytes| <= Reach(dst, wall)
        invariant Mapped(c, K(), d, i, old(logged), logged)
        decreases len - |bytes|
      {
        var at := off + |bytes|;
        ghost var d1, c1, l1 := D(), K(), logged;
        SameInodes(d, d1);
        BlockInSize(at, d.inodes[i].size);
        var addr := Bmap(i, at / BSIZE);
        MappedMore(c, c1, K(), d, d1, i, old(logged), l1, logged);
        SameFilesTransitive(d, d1, D());
        OnlyGrowsTransitive(d, d1, D(), i);
        if addr == 0 {
          return;
        }
        BlockIs(D(), i, at / BSIZE);
        var m := FileIo.Min(len - |bytes|, BSIZE - at % BSIZE);
        var k := CopiedBefore(dst + tot, m, wall);
        if k < m {
          ReadPart(d, D(), i, off, bytes, k);
          return -1, bytes + data[addr][at % BSIZE..at % BSIZE + k];
        }
        ReadPart(d, D(), i, off, bytes, m);
        bytes := bytes + data[addr][at % BSIZE..at % BSIZE + m];
        tot := tot + m;
      }
    }

    /** writei from the caller's address `addr`: -1, or the number of bytes written, which is all of them unless the
        disk is full or a chunk runs into page `wall`, the first one from addr on that cannot be read. Such a chunk is
        not counted, but its first `k` bytes, those before that page, are in the file's block all the same. Everything
        else that changes is logged: the blocks written, the bitmap and the table where blocks were added, and the
        inode. The block of a failed copy is not, unless it is new. `logged` grows by no more than these. */
    method Writei(i: int, addr: int, off: int, src: seq<int>, wall: int) returns (tot: int, ghost k: int)
      requires Valid() && 0 <= i < |inodes| && 0 <= off < U32 && |src| < U32 && 0 <= inodes[i].size <= MAXFILE * BSIZE
      modifies this
      ensures Valid() && (tot == -1 <==> off > old(inodes)[i].size || off + |src| > MAXFILE * BSIZE)
      ensures tot == -1 ==> D() == old(D())
      ensures tot != -1 ==> Stopped(D(), i, off, |src|, Reach(addr, wall), tot, k)
      ensures tot != -1 ==> Written(old(D()), D(), i, off, src[..tot + k]) && OnlyGrows(old(D()), D(), i)
      ensures tot != -1 ==> |inodes| == |old(inodes)| && inodes[i].size == FileIo.Max(old(inodes)[i].size, off + tot)
      ensures NoneHasHoles(old(D())) && SizesOk(old(inodes)) ==> NoneHasHoles(D())
      ensures Logs(old(K()), K(), logged, if k == 0 then {} else {Slot(D(), i, (off + tot) / BSIZE)})
      ensures old(logged) <= logged <= old(logged) + WriteSet(D(), i, off, |src|, |bits|)
      ensures tot != -1 ==> nodes == old(nodes)[i := inodes[i]] && Node(i) in logged
      ensures tot != -1 ==> PartsLogged(D(), i, off / BSIZE, Upto(off, tot), logged)
      ensures tot != -1 ==> LogsOnly(old(logged), logged, old(own), i, off / BSIZE, Upto(off, tot))
      ensures tot == -1 ==> nodes == old(nodes) && logged == old(logged)
    {
      hide DiskOk, BitsOk, SameFiles, OnlyGrows, ByteAt, Slot, Full, Written, Logs, LogsOnly, LogsOk, PartsLogged,
        WriteSet;
      ghost var d := D();
      LogsSelf(K(), logged);
      Unchanged(d, i);
      k := 0;
      if off > inodes[i].size || (off + |src|) % U32 < off {
        return -1, k;
      }
      if (off + |src|) % U32 > MAXFILE * BSIZE {
        return -1, k;
      }
      tot, k := WriteBlocks(i, addr, off, src, wall);
      ghost var but := if k == 0 then {} else {Slot(D(), i, (off + tot) / BSIZE)};
      LogsDone(old(K()), K(), d, D(), i, off, |src|, tot, old(logged), logged, but);
      SameInodesWritten(d, D(), i, off, src[..tot + k]);
      ghost var d0, k0, l0 := D(), K(), logged;
      if off + tot > inodes[i].size {
        inodes := inodes[i := inodes[i].(size := off + tot)];
        Resized(d, d0, i, off, src[..tot + k], off + tot);
        SameSlots(d0, i, off + tot);
      }
      Iupdate(i);
      SizeNotLogged(d0, D(), i, off, |src|, |bits|, l0, logged, tot);
      LogsAfter(old(K()), k0, K(), l0, logged, but);
      LogsOnlyNodes(old(logged), l0, d.own, i, off / BSIZE, Upto(off, tot));
      if NoneHasHoles(d) && SizesOk(d.inodes) {
        WrittenDense(d, d0, D(), i, off, tot, src[..tot + k]);
      }
    }

    /** Overwriting the first 20 bytes of a file from a buffer whose last 10 bytes cannot be read: nothing is counted,
        and half of it is written. */
    method FailedCopyWrites(i: int, src: seq<int>) returns (tot: int)
      requires Valid() && 0 <= i < |inodes| && 20 <= inodes[i].size <= MAXFILE * BSIZE && NoHoles(D(), i)
      requires |src| == 20 && forall j :: 0 <= j < 20 ==> src[j] != ByteAt(D(), i, j)
      modifies this
      ensures Valid() && tot == 0 && |inodes| == |old(inodes)| && inodes[i].size == old(inodes)[i].size
      ensures Written(old(D()), D(), i, 0, src[..10]) && !Written(old(D()), D(), i, 0, src[..tot])
      ensures Block(Slot(D(), i, 0)) !in old(logged) ==> Block(Slot(D(), i, 0)) !in logged
    {
      hide DiskOk, BitsOk, OnlyGrows, ByteAt, Slot, Full, Written, Logs, LogsOnly, PartsLogged, WriteSet;
      ghost var d := D();
      assert Slot(d, i, 0) != 0 by {
        assert 0 < Blocks(inodes[i].size);
      }
      ghost var k;
      tot, k := Writei(i, PhysMem.PGSIZE - 10, 0, src, 1);
      SameInodesWritten(d, D(), i, 0, src[..tot + k]);
      SlotsStay(d, D(), i, i, 0);
      if Block(Slot(d, i, 0)) !in old(logged) {
        FailedNotLogged(d, i, 0, 0, 0, old(logged), logged);
      }
      KeptPastCount(d, D(), i, 0, src, tot, k);
      assert src[0] != ByteAt(d, i, 0 + 0);
    }

    /** The loop of writei. */
    method WriteBlocks(i: int, addr: int, off: int, src: seq<int>, wall: int) returns (tot: int, ghost k: int)
      requires Valid() && 0 <= i < |inodes| && 0 <= off && off + |src| <= MAXFILE * BSIZE
      modifies this
      ensures Valid() && Stopped(D(), i, off, |src|, Reach(addr, wall), tot, k)
      ensures Written(old(D()), D(), i, off, src[..tot + k]) && OnlyGrows(old(D()), D(), i)
      ensures |inodes| == |old(inodes)| && inodes[i].size == old(inodes)[i].size
      ensures Filled(D(), i, off, tot)
      ensures LogsOk(old(K()), K(), old(D()), D(), i, off, |src|, tot, old(logged), logged,
                     if k == 0 then {} else {Slot(D(), i, (off + tot) / BSIZE)})
    {
      hide DiskOk, BitsOk, SameFiles, OnlyGrows, ByteAt, Slot, Full, Written, Filled, LogsOk, Mapped, MapSet, Progress;
      ghost var d, c, l := D(), K(), logged;
      ProgressStart(c, d, i, off, src, l);
      tot, k := 0, 0;
      while tot < |src|
        invariant 0 <= tot <= |src| && Valid() && 0 <= i < |inodes|
        invariant Progress(c, K(), d, D(), i, off, src, tot, l, logged)
        invariant k == 0 && tot <= Reach(addr, wall) && (tot == |src| || tot == 0 || (off + tot) % BSIZE == 0)
        decreases |src| - tot
      {
        var at := off + tot;
        ghost var d1, c1, l1 := D(), K(), logged;
        var block := Bmap(i, at / BSIZE);
        ghost var d2, c2, l2 := D(), K(), logged;
        ProgressMapped(c, c1, c2, d, d1, d2, i, off, src, tot, l, l1, l2);
        if block == 0 {
          ProgressDone(c, c2, d, d2, i, off, src, tot, l, l2);
          return;
        }
        var m := FileIo.Min(|src| - tot, BSIZE - at % BSIZE);
        var n := CopiedBefore(addr + tot, m, wall);
        BlockIs(d2, i, at / BSIZE);
        var bytes := Spliced(data[block], at % BSIZE, src[tot..tot + n]);
        data := data[block := bytes];
        if n < m {
          ProgressFailed(c, c2, d, d2, i, off, src, tot, n, l, l2, block);
          k := n;
          return;
        }
        logged := logged + {Block(block)};
        ProgressMore(c, c2, d, d2, i, off, src, tot, m, l, l2, block);
        tot := tot + m;
      }
      ProgressDone(c, K(), d, D(), i, off, src, tot, l, logged);
    }

    /** The first loop of itrunc. A pointer is cleared just before, not just after, its block is freed. */
    method FreeDirect(i: int)
      requires Valid() && 0 <= i < |inodes|
      modifies this
      ensures Valid() && |own| == |old(own)| && FreedUpTo(old(own), own, i, NDIRECT)
      ensures ptrs == old(ptrs) && data == old(data) && nodes == old(nodes) && |bits| == |old(bits)|
      ensures Logs(old(K()), K(), logged, {}) && old(logged) <= logged <= old(logged) + Bitmaps(|bits|)
      ensures |inodes| == |old(inodes)| && (forall q :: 0 <= q < |inodes| && q != i ==> inodes[q] == old(inodes)[q])
      ensures ClearedUpTo(old(inodes)[i], inodes[i], NDIRECT)
    {
      hide DiskOk, BitsOk, Slot, FreedUpTo, Logs;
      ghost var d, c := D(), K();
      LogsSelf(c, logged);
      FreedNone(d, i);
      TableIs(d, i);
      var k := 0;
      while k < NDIRECT
        invariant 0 <= k <= NDIRECT && Valid() && |own| == |old(own)| && FreedUpTo(old(own), own, i, k)
        invariant ptrs == old(ptrs) && data == old(data) && nodes == old(nodes) && |bits| == |old(bits)|
        invariant Logs(c, K(), logged, {}) && old(logged) <= logged <= old(logged) + Bitmaps(|bits|)
        invariant |inodes| == |old(inodes)| && (forall q :: 0 <= q < |inodes| && q != i ==> inodes[q] == old(inodes)[q])
        invariant ClearedUpTo(old(inodes)[i], inodes[i], k)
      {
        ghost var d1, c1, l1 := D(), K(), logged;
        TableIs(d1, i);
        var b := inodes[i].addrs[k];
        if b != 0 {
          WithoutSlotKeeps(d1, i, k);
          UseKeepsBits(bits, own, b, Held);
          inodes := inodes[i := inodes[i].(addrs := inodes[i].addrs[k := 0])];
          own := own[b := Held];
          Bfree(b);
          LogsMore(c, c1, K(), l1, logged, {});
          FreedOne(d, d1, own, i, k, b);
        } else {
          FreedSkip(d1, old(own), i, k);
        }
        k := k + 1;
      }
    }

    /** The second half of itrunc: the blocks listed in the table, then the table. */
    method FreeIndirect(i: int)
      requires Valid() && 0 <= i < |inodes|
      modifies this
      ensures Valid() && |own| == |old(own)| && FreedIndirect(old(own), own, i)
      ensures ptrs == old(ptrs) && data == old(data) && nodes == old(nodes) && |bits| == |old(bits)|
      ensures Logs(old(K()), K(), logged, {}) && old(logged) <= logged <= old(logged) + Bitmaps(|bits|)
      ensures |inodes| == |old(inodes)| && (forall q :: 0 <= q < |inodes| && q != i ==> inodes[q] == old(inodes)[q])
      ensures |old(inodes)[i].addrs| == NDIRECT + 1
      ensures inodes[i] == old(inodes)[i].(addrs := old(inodes)[i].addrs[NDIRECT := 0])
    {
      hide DiskOk, BitsOk, Slot, FreeingIndirect, FreedIndirect, Logs;
      ghost var d, c := D(), K();
      LogsSelf(c, logged);
      TableIs(d, i);
      var t := inodes[i].addrs[NDIRECT];
      if t == 0 {
        NoIndirect(d, i);
        assert inodes[i].addrs[NDIRECT := 0] == inodes[i].addrs;
        return;
      }
      WithoutTableKeeps(d, i);
      HeldKeepsBits(bits, d, i);
      inodes := inodes[i := inodes[i].(addrs := inodes[i].addrs[NDIRECT := 0])];
      own := WithoutTable(d, i).own;
      FreeingNone(d, i);
      var j := 0;
      while j < NINDIRECT
        invariant 0 <= j <= NINDIRECT && Valid() && |own| == |old(own)| && FreeingIndirect(d.own, own, i, j)
        invariant ptrs == old(ptrs) && data == old(data) && inodes == WithoutTable(d, i).inodes && nodes == old(nodes)
        invariant |bits| == |old(bits)|
        invariant Logs(c, K(), logged, {}) && old(logged) <= logged <= old(logged) + Bitmaps(|bits|)
      {
        var a := ptrs[t][j];
        ghost var before, c1, l1 := own, K(), logged;
        if a != 0 {
          LeafIs(d, before, i, j);
          Bfree(a);
          LogsMore(c, c1, K(), l1, logged, {});
          FreeingOne(d, before, own, i, j, a);
        } else {
          FreeingSkip(d, before, i, j);
        }
        j := j + 1;
      }
      ghost var before, c1, l1 := own, K(), logged;
      TableHeld(d, before, i);
      Bfree(t);
      LogsMore(c, c1, K(), l1, logged, {});
      FreeingDone(d, before, own, i);
    }

    /** itrunc: exactly the blocks of file i become free, and the file is empty; no other file changes. The bitmap
        blocks that change are logged, and so is the inode, and nothing else. */
    method Itrunc(i: int)
      requires Valid() && 0 <= i < |inodes|
      modifies this
      ensures Valid() && |inodes| == |old(inodes)| && inodes[i] == Inode(Zeros(NDIRECT + 1), 0)
      ensures |own| == |old(own)| && FreedAll(old(own), own, i) && ptrs == old(ptrs)
      ensures NoneHasHoles(old(D())) ==> NoneHasHoles(D())
      ensures nodes == old(nodes)[i := inodes[i]] && Node(i) in logged && Logs(old(K()), K(), logged, {})
      ensures old(logged) <= logged <= old(logged) + Bitmaps(|bits|) + {Node(i)}
      ensures forall q :: 0 <= q < |inodes| && q != i ==> inodes[q] == old(inodes)[q]
      ensures forall q, o :: 0 <= q < |inodes| && q != i && 0 <= o < MAXFILE * BSIZE ==>
                ByteAt(D(), q, o) == ByteAt(old(D()), q, o)
    {
      hide DiskOk, BitsOk, Slot, FreedUpTo, FreedIndirect, ByteAt, TableOf, Logs;
      ghost var d, c := D(), K();
      FreeDirect(i);
      ghost var d1, c1, l1 := D(), K(), logged;
      FreeIndirect(i);
      ghost var d2, c2, l2 := D(), K(), logged;
      LogsMore(c, c1, c2, l1, l2, {});
      FreedBoth(d.own, d1.own, d2.own, i);
      AllCleared(d.inodes[i], d1.inodes[i]);
      Resized0(d2, i);
      inodes := inodes[i := inodes[i].(size := 0)];
      Iupdate(i);
      LogsMore(c, c2, K(), l2, logged, {});
      OtherBytes(d, D(), i);
      OtherHoles(d, D(), i);
    }
  }

  ghost predicate SizesOk(inodes: seq<Inode>) {
    forall i :: 0 <= i < |inodes| ==> 0 <= inodes[i].size <= MAXFILE * BSIZE
  }

  lemma OtherHoles(d: Disk, d': Disk, i: int)
    requires d'.ptrs == d.ptrs && |d'.inodes| == |d.inodes| && 0 <= i < |d.inodes| && d'.inodes[i].size == 0
    requires forall q :: 0 <= q < |d.inodes| && q != i ==> d'.inodes[q] == d.inodes[q]
    ensures NoneHasHoles(d) ==> NoneHasHoles(d')
  {
    if NoneHasHoles(d) {
      forall q, bn | 0 <= q < |d.inodes| && 0 <= bn < Blocks(d'.inodes[q].size) ensures Slot(d', q, bn) != 0 {
        assert NoHoles(d, q);
        assert q != i ==> Slot(d, q, bn) != 0;
      }
    }
  }

  /** The blocks of file i that hold the n bytes from off on exist. */
  ghost predicate Filled(d: Disk, i: int, off: int, n: int) {
    n > 0 ==> forall bn :: off / BSIZE <= bn < Blocks(off + n) ==> Slot(d, i, bn) != 0
  }

  lemma FilledStays(d: Disk, d': Disk, i: int, off: int, n: int)
    requires DiskOk(d) && DiskOk(d') && OnlyGrows(d, d', i) && |d'.inodes| == |d.inodes| && 0 <= i < |d.inodes|
    requires Filled(d, i, off, n) && 0 <= off && off + n <= MAXFILE * BSIZE
    ensures Filled(d', i, off, n)
  {
    hide DiskOk, Slot, OnlyGrows;
    if n > 0 {
      forall bn | off / BSIZE <= bn < Blocks(off + n) ensures Slot(d', i, bn) != 0 {
        SlotsStay(d, d', i, i, bn);
      }
    }
  }

  lemma FilledMore(d: Disk, i: int, off: int, n: int, m: int)
    requires Filled(d, i, off, n) && 0 <= off && 0 <= n && 0 < m <= BSIZE - (off + n) % BSIZE
    requires Slot(d, i, (off + n) / BSIZE) != 0
    ensures Filled(d, i, off, n + m)
  {
    hide Slot;
    forall bn | off / BSIZE <= bn < Blocks(off + n + m) ensures Slot(d, i, bn) != 0 {
      assert bn == (off + n) / BSIZE || (n > 0 && bn < Blocks(off + n));
    }
  }

  lemma FilledStored(d: Disk, b: int, block: seq<int>, i: int, off: int, n: int)
    requires Filled(d, i, off, n) && 0 <= b < |d.data|
    ensures Filled(Stored(d, b, block), i, off, n)
  {
    assert forall bn :: Slot(Stored(d, b, block), i, bn) == Slot(d, i, bn);
  }

  /** What has been logged when tot of n bytes have been written at off. */
  ghost predicate LogsOk(c: OnDisk, c': OnDisk, d: Disk, d': Disk, i: int, off: int, n: int, tot: int,
                         l: set<Logged>, l': set<Logged>, but: set<int>) {
    && Logs(c, c', l', but) && c'.nodes == c.nodes && l <= l' <= l + WriteSet(d', i, off, n, |c'.bits|)
    && PartsLogged(d', i, off / BSIZE, Upto(off, tot), l')
    && LogsOnly(l, l', d.own, i, off / BSIZE, Upto(off, tot))
  }

  lemma LogsStart(c: OnDisk, d: Disk, i: int, off: int, n: int, l: set<Logged>)
    ensures LogsOk(c, c, d, d, i, off, n, 0, l, l, {})
  {
    hide WriteSet, Slot;
  }

  lemma LogsMapped(c: OnDisk, c1: OnDisk, c2: OnDisk, d: Disk, d1: Disk, d2: Disk, i: int, off: int, n: int, tot: int,
                   l: set<Logged>, l1: set<Logged>, l2: set<Logged>)
    requires DiskOk(d1) && DiskOk(d2) && OnlyGrows(d, d1, i) && OnlyGrows(d1, d2, i)
    requires 0 <= i < |d1.inodes| == |d2.inodes|
    requires 0 <= off && 0 <= tot < n && off + n <= MAXFILE * BSIZE && Filled(d1, i, off, tot)
    requires LogsOk(c, c1, d, d1, i, off, n, tot, l, l1, {}) && Mapped(c1, c2, d1, i, l1, l2)
    requires l2 <= l1 + MapSet(d2, i, (off + tot) / BSIZE, |c2.bits|)
    ensures LogsOk(c, c2, d, d2, i, off, n, tot, l, l2, {})
  {
    hide DiskOk, Slot, OnlyGrows, Logs, LogsOnly, PartsLogged, WriteSet, MapSet;
    assert |c1.bits| == |c2.bits| by {
      LogsLengths(c1, c2, l2, {});
    }
    LogsMore(c, c1, c2, l1, l2, {});
    WriteSetStays(d1, d2, i, off, n, |c2.bits|);
    InWriteSet(d2, i, off, n, |c2.bits|, off + tot);
    PartsLoggedStay(d1, d2, i, off / BSIZE, Upto(off, tot), l1, l2);
    LogsOnlyWider(l1, l2, d1.own, i, off / BSIZE, Upto(off, tot));
    LogsOnlyMore(l, l1, l2, d, d1, i, off / BSIZE, Upto(off, tot), Upto(off, tot));
  }

  lemma LogsLengths(c: OnDisk, c': OnDisk, l: set<Logged>, but: set<int>)
    requires Logs(c, c', l, but)
    ensures |c'.bits| == |c.bits|
  {
  }

  lemma LogsDone(c: OnDisk, c': OnDisk, d: Disk, d': Disk, i: int, off: int, n: int, tot: int,
                 l: set<Logged>, l': set<Logged>, but: set<int>)
    requires LogsOk(c, c', d, d', i, off, n, tot, l, l', but)
    ensures Logs(c, c', l', but) && c'.nodes == c.nodes && l <= l' <= l + WriteSet(d', i, off, n, |c'.bits|)
    ensures PartsLogged(d', i, off / BSIZE, Upto(off, tot), l')
    ensures LogsOnly(l, l', d.own, i, off / BSIZE, Upto(off, tot))
  {
  }

  lemma LogsOnlyWider(l: set<Logged>, l': set<Logged>, own: seq<Use>, i: int, lo: int, hi: int)
    requires LogsOnly(l, l', own, i, 0, 0)
    ensures LogsOnly(l, l', own, i, lo, hi)
  {
  }

  /** The copy into block x fails: x alone differs without being logged. */
  lemma LogsFailed(c: OnDisk, c2: OnDisk, d: Disk, d2: Disk, i: int, off: int, n: int, tot: int,
                   l: set<Logged>, l2: set<Logged>, x: int, block: seq<int>, but: set<int>)
    requires LogsOk(c, c2, d, d2, i, off, n, tot, l, l2, {}) && 0 <= x < |d2.data| && c2.data == d2.data
    requires but == {x} || block == d2.data[x]
    ensures LogsOk(c, c2.(data := c2.data[x := block]), d, Stored(d2, x, block), i, off, n, tot, l, l2, but)
  {
    hide WriteSet;
    WriteSetStored(d2, x, block, i, off, n, |c2.bits|);
    assert forall bn :: Slot(Stored(d2, x, block), i, bn) == Slot(d2, i, bn);
  }

  /** The copy of m bytes succeeds, and block x is logged. */
  lemma LogsStored(c: OnDisk, c2: OnDisk, d: Disk, d2: Disk, i: int, off: int, n: int, tot: int, m: int,
                   l: set<Logged>, l2: set<Logged>, x: int, block: seq<int>)
    requires LogsOk(c, c2, d, d2, i, off, n, tot, l, l2, {}) && 0 <= x < |d2.data| && c2.data == d2.data
    requires DiskOk(d2) && OnlyGrows(d, d2, i) && 0 <= i < |d2.inodes| && 0 <= off && 0 <= tot < n
    requires 0 < m <= BSIZE - (off + tot) % BSIZE && off + n <= MAXFILE * BSIZE
    requires x == Slot(d2, i, (off + tot) / BSIZE) != 0
    ensures LogsOk(c, c2.(data := c2.data[x := block]), d, Stored(d2, x, block), i, off, n, tot + m, l, l2 + {Block(x)},
                   {})
  {
    hide WriteSet, Slot, DiskOk;
    var d3 := Stored(d2, x, block);
    InWriteSet(d2, i, off, n, |c2.bits|, off + tot);
    WriteSetStored(d2, x, block, i, off, n, |c2.bits|);
    SlotsOfStored(d2, x, block, i);
    forall bn | off / BSIZE <= bn < Upto(off, tot + m) ensures Block(Slot(d3, i, bn)) in l2 + {Block(x)} {
      assert bn == (off + tot) / BSIZE || bn < Upto(off, tot);
    }
    LogsOnlyOne(l, l2, d, d2, i, off, tot, m, x);
  }

  lemma SlotsOfStored(d: Disk, x: int, block: seq<int>, i: int)
    requires 0 <= x < |d.data|
    ensures forall bn :: Slot(Stored(d, x, block), i, bn) == Slot(d, i, bn)
  {
  }

  lemma LogsOnlyOne(l: set<Logged>, l2: set<Logged>, d: Disk, d2: Disk, i: int, off: int, tot: int, m: int, x: int)
    requires LogsOnly(l, l2, d.own, i, off / BSIZE, Upto(off, tot)) && DiskOk(d2) && OnlyGrows(d, d2, i)
    requires 0 <= off && 0 <= tot && 0 < m <= BSIZE - (off + tot) % BSIZE && 0 <= i < |d2.inodes|
    requires (off + tot) / BSIZE < MAXFILE && x == Slot(d2, i, (off + tot) / BSIZE) != 0
    ensures LogsOnly(l, l2 + {Block(x)}, d.own, i, off / BSIZE, Upto(off, tot + m))
  {
    hide Slot;
    assert SlotOk(d2, i, (off + tot) / BSIZE);
    assert off / BSIZE <= (off + tot) / BSIZE < Upto(off, tot + m);
    assert Upto(off, tot) <= Upto(off, tot + m);
  }

  /** The loop of writei after tot bytes. */
  ghost predicate Progress(c: OnDisk, c': OnDisk, d: Disk, d': Disk, i: int, off: int, src: seq<int>, tot: int,
                           l: set<Logged>, l': set<Logged>) {
    && DiskOk(d') && 0 <= i < |d.inodes| == |d'.inodes| && d'.inodes[i].size == d.inodes[i].size && 0 <= tot <= |src|
    && Written(d, d', i, off, src[..tot]) && OnlyGrows(d, d', i) && Filled(d', i, off, tot)
    && LogsOk(c, c', d, d', i, off, |src|, tot, l, l', {})
  }

  lemma ProgressStart(c: OnDisk, d: Disk, i: int, off: int, src: seq<int>, l: set<Logged>)
    requires DiskOk(d) && 0 <= i < |d.inodes|
    ensures Progress(c, c, d, d, i, off, src, 0, l, l)
  {
    hide DiskOk, Slot, Written, LogsOk, OnlyGrows;
    Unchanged(d, i);
    assert src[..0] == [];
    WrittenNothing(d, i, off);
    LogsStart(c, d, i, off, |src|, l);
  }

  lemma ProgressMapped(c: OnDisk, c1: OnDisk, c2: OnDisk, d: Disk, d1: Disk, d2: Disk, i: int, off: int, src: seq<int>,
                       tot: int, l: set<Logged>, l1: set<Logged>, l2: set<Logged>)
    requires Progress(c, c1, d, d1, i, off, src, tot, l, l1)
    requires 0 <= off && off + |src| <= MAXFILE * BSIZE && tot < |src|
    requires DiskOk(d2) && SameFiles(d1, d2) && OnlyGrows(d1, d2, i) && Mapped(c1, c2, d1, i, l1, l2)
    requires l2 <= l1 + MapSet(d2, i, (off + tot) / BSIZE, |c2.bits|)
    ensures Progress(c, c2, d, d2, i, off, src, tot, l, l2) && 0 <= i < |d2.inodes|
  {
    hide DiskOk, Slot, SameFiles, OnlyGrows, Written, Filled, LogsOk, Mapped, MapSet;
    SameInodes(d1, d2);
    LogsMapped(c, c1, c2, d, d1, d2, i, off, |src|, tot, l, l1, l2);
    WrittenSame(d, d1, d2, i, off, src[..tot]);
    OnlyGrowsTransitive(d, d1, d2, i);
    FilledStays(d1, d2, i, off, tot);
  }

  lemma ProgressDone(c: OnDisk, c': OnDisk, d: Disk, d': Disk, i: int, off: int, src: seq<int>, tot: int,
                     l: set<Logged>, l': set<Logged>)
    requires Progress(c, c', d, d', i, off, src, tot, l, l')
    ensures 0 <= i < |d.inodes| == |d'.inodes| && d'.inodes[i].size == d.inodes[i].size && 0 <= tot <= |src|
    ensures Written(d, d', i, off, src[..tot]) && OnlyGrows(d, d', i) && Filled(d', i, off, tot)
    ensures LogsOk(c, c', d, d', i, off, |src|, tot, l, l', {})
  {
  }

  /** A chunk fails after n bytes. */
  lemma ProgressFailed(c: OnDisk, c2: OnDisk, d: Disk, d2: Disk, i: int, off: int, src: seq<int>, tot: int, n: int,
                       l: set<Logged>, l2: set<Logged>, x: int)
    requires Progress(c, c2, d, d2, i, off, src, tot, l, l2)
    requires 0 <= off && off + |src| <= MAXFILE * BSIZE && tot < |src|
    requires 0 <= n <= BSIZE - (off + tot) % BSIZE && tot + n <= |src| && c2.data == d2.data
    requires x == Slot(d2, i, (off + tot) / BSIZE) != 0 && 0 <= x < |d2.data| && |d2.data[x]| == BSIZE
    ensures var bytes := Spliced(d2.data[x], (off + tot) % BSIZE, src[tot..tot + n]);
            var d3 := Stored(d2, x, bytes);
            && DiskOk(d3) && 0 <= i < |d.inodes| == |d3.inodes| && d3.inodes[i].size == d.inodes[i].size
            && Written(d, d3, i, off, src[..tot + n]) && OnlyGrows(d, d3, i) && Filled(d3, i, off, tot)
            && Slot(d3, i, (off + tot) / BSIZE) == x
            && LogsOk(c, c2.(data := c2.data[x := bytes]), d, d3, i, off, |src|, tot, l, l2, if n == 0 then {} else {x})
  {
    hide DiskOk, Slot, OnlyGrows, Written, Filled, LogsOk;
    var bytes := Spliced(d2.data[x], (off + tot) % BSIZE, src[tot..tot + n]);
    assert n == 0 ==> bytes == d2.data[x];
    WrittenMore(d, d2, i, off, src, tot, n, x);
    StoredKeeps(d2, x, bytes);
    StoredGrows(d, d2, x, bytes, i);
    FilledStored(d2, x, bytes, i, off, tot);
    SlotsOfStored(d2, x, bytes, i);
    LogsFailed(c, c2, d, d2, i, off, |src|, tot, l, l2, x, bytes, if n == 0 then {} else {x});
  }

  /** A chunk of m bytes is written. */
  lemma ProgressMore(c: OnDisk, c2: OnDisk, d: Disk, d2: Disk, i: int, off: int, src: seq<int>, tot: int, m: int,
                     l: set<Logged>, l2: set<Logged>, x: int)
    requires Progress(c, c2, d, d2, i, off, src, tot, l, l2)
    requires 0 <= off && off + |src| <= MAXFILE * BSIZE && tot < |src|
    requires 0 < m <= BSIZE - (off + tot) % BSIZE && tot + m <= |src| && c2.data == d2.data
    requires x == Slot(d2, i, (off + tot) / BSIZE) != 0 && 0 <= x < |d2.data| && |d2.data[x]| == BSIZE
    ensures var bytes := Spliced(d2.data[x], (off + tot) % BSIZE, src[tot..tot + m]);
            DiskOk(Stored(d2, x, bytes)) && 0 <= i < |d2.inodes|
            && Progress(c, c2.(data := c2.data[x := bytes]), d, Stored(d2, x, bytes), i, off, src, tot + m, l,
                        l2 + {Block(x)})
  {
    hide DiskOk, Slot, OnlyGrows, Written, Filled, LogsOk;
    var bytes := Spliced(d2.data[x], (off + tot) % BSIZE, src[tot..tot + m]);
    WrittenMore(d, d2, i, off, src, tot, m, x);
    StoredKeeps(d2, x, bytes);
    StoredGrows(d, d2, x, bytes, i);
    FilledMore(d2, i, off, tot, m);
    FilledStored(d2, x, bytes, i, off, tot + m);
    LogsStored(c, c2, d, d2, i, off, |src|, tot, m, l, l2, x, bytes);
  }

  /** A write of n bytes that starts within the file leaves no hole. */
  lemma WrittenDense(d: Disk, d1: Disk, d2: Disk, i: int, off: int, n: int, bytes: seq<int>)
    requires DiskOk(d) && DiskOk(d1) && DiskOk(d2) && OnlyGrows(d, d2, i) && OnlyGrows(d, d1, i)
    requires NoneHasHoles(d) && SizesOk(d.inodes) && 0 <= i < |d.inodes| == |d1.inodes| == |d2.inodes|
    requires 0 <= off <= d.inodes[i].size && 0 <= n && off + n <= MAXFILE * BSIZE && Filled(d1, i, off, n)
    requires Written(d, d2, i, off, bytes) && d2.inodes[i].size == FileIo.Max(d.inodes[i].size, off + n)
    requires d2 == d1.(inodes := d1.inodes[i := d1.inodes[i].(size := d2.inodes[i].size)])
    ensures NoneHasHoles(d2)
  {
    hide DiskOk, Slot, OnlyGrows, ByteAt;
    SameSlots(d1, i, d2.inodes[i].size);
    assert NoHoles(d2, i) by {
      assert NoHoles(d, i);
      forall bn | 0 <= bn < Blocks(d2.inodes[i].size) ensures Slot(d2, i, bn) != 0 {
        if bn < Blocks(d.inodes[i].size) {
          SlotsStay(d, d1, i, i, bn);
        } else {
          assert bn >= off / BSIZE;
        }
      }
    }
    OthersDense(d, d2, i);
  }

  lemma SameSlots(d: Disk, i: int, size: int)
    requires 0 <= i < |d.inodes|
    ensures var d' := d.(inodes := d.inodes[i := d.inodes[i].(size := size)]);
            forall q, bn :: Slot(d', q, bn) == Slot(d, q, bn)
  {
  }

  // ---------------------------------------------------------------- freeing a file's blocks

  predicate Belongs(u: Use, i: int) { u == Table(i) || (u.Data? && u.ino == i) }

  /** Exactly the blocks of file i have become free. */
  ghost predicate FreedAll(own: seq<Use>, own': seq<Use>, i: int) {
    |own'| == |own| && forall b :: 0 <= b < |own| ==> own'[b] == if Belongs(own[b], i) then Free else own[b]
  }

  predicate DirectBelow(u: Use, i: int, k: int) { u.Data? && u.ino == i && u.bn < k }

  ghost predicate FreedUpTo(own: seq<Use>, own': seq<Use>, i: int, k: int) {
    |own'| == |own| && forall b :: 0 <= b < |own| ==> own'[b] == if DirectBelow(own[b], i, k) then Free else own[b]
  }

  predicate ClearedUpTo(n: Inode, n': Inode, k: int) {
    && |n.addrs| == |n'.addrs| == NDIRECT + 1 && n'.size == n.size
    && forall j :: 0 <= j <= NDIRECT ==> n'.addrs[j] == if j < k then 0 else n.addrs[j]
  }

  lemma FreedNone(d: Disk, i: int)
    requires DiskOk(d)
    ensures FreedUpTo(d.own, d.own, i, 0)
  {
    forall b | 0 <= b < |d.own| ensures !DirectBelow(d.own[b], i, 0) {
      assert UseOk(d, b);
    }
  }

  lemma FreedOne(d: Disk, d1: Disk, own': seq<Use>, i: int, k: int, b: int)
    requires DiskOk(d1) && FreedUpTo(d.own, d1.own, i, k) && 0 <= b < |d1.own| && d1.own[b] == Data(i, k) && k < NDIRECT
    requires own' == d1.own[b := Held][b := Free] && 0 <= i < |d1.inodes| && Slot(d1, i, k) == b
    ensures FreedUpTo(d.own, own', i, k + 1)
  {
    forall c | 0 <= c < |d.own| ensures own'[c] == if DirectBelow(d.own[c], i, k + 1) then Free else d.own[c] {
      assert UseOk(d1, c);
    }
  }

  lemma FreedSkip(d1: Disk, own: seq<Use>, i: int, k: int)
    requires DiskOk(d1) && FreedUpTo(own, d1.own, i, k) && 0 <= i < |d1.inodes| && Slot(d1, i, k) == 0
    ensures FreedUpTo(own, d1.own, i, k + 1)
  {
    forall c | 0 <= c < |own| ensures d1.own[c] == if DirectBelow(own[c], i, k + 1) then Free else own[c] {
      assert UseOk(d1, c);
    }
  }

  ghost predicate FreedIndirect(own: seq<Use>, own': seq<Use>, i: int) {
    |own'| == |own| && forall b :: 0 <= b < |own| ==> own'[b] == if Indirect(own[b], i) then Free else own[b]
  }

  /** The blocks of the first j entries of the table are free; the others, and the table, are held. */
  ghost predicate FreeingIndirect(own: seq<Use>, own': seq<Use>, i: int, j: int) {
    |own'| == |own| && forall b :: 0 <= b < |own| ==>
      own'[b] == if !Indirect(own[b], i) then own[b] else if own[b].Data? && own[b].bn < NDIRECT + j then Free else Held
  }

  lemma NoIndirect(d: Disk, i: int)
    requires DiskOk(d) && 0 <= i < |d.inodes| && TableOf(d, i) == 0
    ensures FreedIndirect(d.own, d.own, i)
  {
    forall b | 0 <= b < |d.own| ensures !Indirect(d.own[b], i) {
      assert UseOk(d, b);
    }
  }

  lemma HeldKeepsBits(bits: seq<seq<bv8>>, d: Disk, i: int)
    requires BitsOk(bits, d.own) && ShapeOk(d) && 0 <= i < |d.inodes|
    ensures BitsOk(bits, WithoutTable(d, i).own)
  {
    hide Bit, Blk;
  }

  lemma FreeingNone(d: Disk, i: int)
    requires DiskOk(d) && 0 <= i < |d.inodes|
    ensures FreeingIndirect(d.own, WithoutTable(d, i).own, i, 0)
  {
  }

  lemma LeafIs(d: Disk, own: seq<Use>, i: int, j: int)
    requires DiskOk(d) && 0 <= i < |d.inodes| && TableOf(d, i) != 0
    requires 0 <= j < NINDIRECT && FreeingIndirect(d.own, own, i, j)
    requires Slot(d, i, NDIRECT + j) != 0
    ensures 0 <= Slot(d, i, NDIRECT + j) < |own| && own[Slot(d, i, NDIRECT + j)] == Held
  {
    assert SlotOk(d, i, NDIRECT + j);
  }

  lemma FreeingOne(d: Disk, own: seq<Use>, own': seq<Use>, i: int, j: int, a: int)
    requires DiskOk(d) && 0 <= i < |d.inodes| && 0 <= j < NINDIRECT && FreeingIndirect(d.own, own, i, j)
    requires a == Slot(d, i, NDIRECT + j) != 0 && 0 <= a < |own| && own' == own[a := Free]
    ensures FreeingIndirect(d.own, own', i, j + 1)
  {
    assert SlotOk(d, i, NDIRECT + j);
    forall b | 0 <= b < |own|
      ensures own'[b] == if !Indirect(d.own[b], i) then d.own[b]
                         else if d.own[b].Data? && d.own[b].bn < NDIRECT + (j + 1) then Free else Held
    {
      assert UseOk(d, b);
    }
  }

  lemma FreeingSkip(d: Disk, own: seq<Use>, i: int, j: int)
    requires DiskOk(d) && 0 <= i < |d.inodes| && 0 <= j < NINDIRECT && FreeingIndirect(d.own, own, i, j)
    requires Slot(d, i, NDIRECT + j) == 0
    ensures FreeingIndirect(d.own, own, i, j + 1)
  {
    forall b | 0 <= b < |own|
      ensures own[b] == if !Indirect(d.own[b], i) then d.own[b]
                        else if d.own[b].Data? && d.own[b].bn < NDIRECT + (j + 1) then Free else Held
    {
      assert UseOk(d, b);
    }
  }

  lemma TableHeld(d: Disk, own: seq<Use>, i: int)
    requires DiskOk(d) && 0 <= i < |d.inodes| && TableOf(d, i) != 0 && FreeingIndirect(d.own, own, i, NINDIRECT)
    ensures 0 <= TableOf(d, i) < |own| && own[TableOf(d, i)] == Held
  {
    assert TableOk(d, i);
  }

  lemma FreeingDone(d: Disk, own: seq<Use>, own': seq<Use>, i: int)
    requires DiskOk(d) && 0 <= i < |d.inodes| && TableOf(d, i) != 0 && FreeingIndirect(d.own, own, i, NINDIRECT)
    requires 0 <= TableOf(d, i) < |own| && own' == own[TableOf(d, i) := Free]
    ensures FreedIndirect(d.own, own', i)
  {
    assert TableOk(d, i);
    forall b | 0 <= b < |own| ensures own'[b] == if Indirect(d.own[b], i) then Free else d.own[b] {
      assert UseOk(d, b);
    }
  }

  lemma FreedBoth(own: seq<Use>, own1: seq<Use>, own2: seq<Use>, i: int)
    requires FreedUpTo(own, own1, i, NDIRECT) && FreedIndirect(own1, own2, i)
    ensures FreedAll(own, own2, i)
  {
  }

  lemma AllCleared(n: Inode, n1: Inode)
    requires ClearedUpTo(n, n1, NDIRECT)
    ensures n1.addrs[NDIRECT := 0] == Zeros(NDIRECT + 1)
  {
  }

  lemma Resized0(d: Disk, i: int)
    requires DiskOk(d) && 0 <= i < |d.inodes|
    ensures DiskOk(d.(inodes := d.inodes[i := d.inodes[i].(size := 0)]))
  {
    WrittenNothing(d, i, 0);
    Unchanged(d, i);
    Resized(d, d, i, 0, [], 0);
  }

  /** Other files are read through their own inodes, tables and blocks. */
  lemma OtherBytes(d: Disk, d': Disk, i: int)
    requires d'.data == d.data && d'.ptrs == d.ptrs && |d'.inodes| == |d.inodes|
    requires forall q :: 0 <= q < |d.inodes| && q != i ==> d'.inodes[q] == d.inodes[q]
    ensures forall q, o :: 0 <= q < |d.inodes| && q != i && 0 <= o < MAXFILE * BSIZE ==>
        ByteAt(d', q, o) == ByteAt(d, q, o)
  {
  }

  // ---------------------------------------------------------------- files as byte sequences

  /** What a file contains, up to its size. */
  function Contents(d: Disk, i: int): seq<int>
    requires 0 <= i < |d.inodes| && 0 <= d.inodes[i].size
  {
    seq(d.inodes[i].size, o => ByteAt(d, i, o))
  }

  /** writei splices its bytes into the file, as a write to a plain file does. */
  lemma WriteIsOverlay(d: Disk, d': Disk, i: int, off: int, bytes: seq<int>)
    requires Written(d, d', i, off, bytes) && 0 <= i < |d.inodes| && 0 <= off <= d.inodes[i].size <= MAXFILE * BSIZE
    requires off + |bytes| <= MAXFILE * BSIZE && d'.inodes[i].size == FileIo.Max(d.inodes[i].size, off + |bytes|)
    ensures Contents(d', i) == FileIo.Overlay(Contents(d, i), off, bytes)
  {
    hide ByteAt, FileIo.Overlay;
    var before, after := Contents(d, i), Contents(d', i);
    FileIo.OverlayLength(before, off, bytes);
    forall o | 0 <= o < |after| ensures after[o] == FileIo.Overlay(before, off, bytes)[o] {
      FileIo.OverlayAt(before, off, bytes, o);
      assert ByteAt(d', i, o) == if off <= o < off + |bytes| then bytes[o - off] else ByteAt(d, i, o);
    }
  }

  /** ... and leaves every other file alone. */
  lemma WriteKeepsOthers(d: Disk, d': Disk, i: int, off: int, bytes: seq<int>, q: int)
    requires Written(d, d', i, off, bytes) && 0 <= q < |d.inodes| && q != i && 0 <= d.inodes[q].size <= MAXFILE * BSIZE
    ensures Contents(d', q) == Contents(d, q)
  {
    hide ByteAt;
    forall o | 0 <= o < d.inodes[q].size ensures Contents(d', q)[o] == Contents(d, q)[o] {
      assert ByteAt(d', q, o) == ByteAt(d, q, o);
    }
  }

  /** readi returns a slice of the file. */
  lemma ReadIsSlice(d: Disk, i: int, off: int, bytes: seq<int>)
    requires IsRead(d, i, off, bytes) && 0 <= i < |d.inodes| && 0 <= off && off + |bytes| <= d.inodes[i].size
    ensures bytes == Contents(d, i)[off..off + |bytes|]
  {
    hide ByteAt;
    forall k | 0 <= k < |bytes| ensures bytes[k] == Contents(d, i)[off..off + |bytes|][k] {
      assert bytes[off + k - off] == ByteAt(d, i, off + k);
    }
  }

  const U32: int := 0x1_0000_0000

  /** How many bytes a read may return. */
  function ReadLength(off: int, n: int, size: int): int {
    if off > size || (off + n) % U32 < off then 0 else if off + n > size then size - off else n
  }

  ghost predicate IsRead(d: Disk, i: int, off: int, bytes: seq<int>) {
    forall o :: off <= o < off + |bytes| ==> bytes[o - off] == ByteAt(d, i, o)
  }

  lemma ReadNothing(d: Disk, i: int, off: int)
    ensures IsRead(d, i, off, [])
  {
  }

  lemma SameInodes(d: Disk, d': Disk)
    requires SameFiles(d, d')
    ensures |d'.inodes| == |d.inodes| && forall i :: 0 <= i < |d.inodes| ==> d'.inodes[i].size == d.inodes[i].size
  {
  }

  lemma BlockIs(d: Disk, i: int, bn: int)
    requires DiskOk(d) && 0 <= i < |d.inodes| && 0 <= bn < MAXFILE && Slot(d, i, bn) != 0
    ensures 0 < Slot(d, i, bn) < |d.data| && |d.data[Slot(d, i, bn)]| == BSIZE
  {
    SlotsAreGood(d, i, bn);
  }

  lemma SameBlock(o: int, at: int)
    requires 0 <= at <= o && o - at + at % BSIZE < BSIZE
    ensures o / BSIZE == at / BSIZE && o % BSIZE == at % BSIZE + (o - at)
  {
  }

  lemma ReadPart(d: Disk, d': Disk, i: int, off: int, bytes: seq<int>, m: int)
    requires DiskOk(d') && SameFiles(d, d') && 0 <= i < |d.inodes| && 0 <= off && 0 <= m && IsRead(d, i, off, bytes)
    requires var at := off + |bytes|;
             at + m <= MAXFILE * BSIZE && at % BSIZE + m <= BSIZE
               && at / BSIZE < MAXFILE && Slot(d', i, at / BSIZE) != 0
    ensures var at := off + |bytes|;
            var s := Slot(d', i, at / BSIZE);
            0 <= s < |d'.data| && |d'.data[s]| == BSIZE
            && IsRead(d, i, off, bytes + d'.data[s][at % BSIZE..at % BSIZE + m])
  {
    var at := off + |bytes|;
    BlockIs(d', i, at / BSIZE);
    var s := Slot(d', i, at / BSIZE);
    var all := bytes + d'.data[s][at % BSIZE..at % BSIZE + m];
    forall o | off <= o < off + |all| ensures all[o - off] == ByteAt(d, i, o) {
      if o >= at {
        SameBlock(o, at);
        assert ByteAt(d', i, o) == ByteAt(d, i, o);
      }
    }
  }

  /** How many bytes from address a on lie before page `wall`. */
  function Reach(a: int, wall: int): int { if wall * PhysMem.PGSIZE <= a then 0 else wall * PhysMem.PGSIZE - a }

  /** How many of the m bytes from address a on copyin and copyout get through: they go page by page. */
  method CopiedBefore(a: int, m: int, wall: int) returns (k: int)
    requires 0 <= m
    ensures k == FileIo.Min(m, Reach(a, wall))
  {
    k := 0;
    while k < m
      invariant 0 <= k <= m && k <= Reach(a, wall)
    {
      var page := (a + k) / PhysMem.PGSIZE;
      if page >= wall {
        return;
      }
      k := FileIo.Min(m, (page + 1) * PhysMem.PGSIZE - a);
    }
  }

  /** Where a write of n bytes stops after tot bytes and k more, if only `reach` of them can be read: at the end, in a
      hole of a full disk, or before the first byte that cannot be read, after whole blocks. */
  ghost predicate Stopped(d: Disk, i: int, off: int, n: int, reach: int, tot: int, k: int) {
    && 0 <= tot && 0 <= k && tot + k <= n && tot + k <= reach
    && (tot == n || tot == 0 || (off + tot) % BSIZE == 0)
    && (tot == n ==> k == 0)
    && (tot < n ==>
          if Slot(d, i, (off + tot) / BSIZE) == 0 then k == 0 && Full(d.own)
          else tot + k == reach && (off + tot) % BSIZE + k < BSIZE)
  }

  /** After a write that failed part way, the bytes past the count are kept exactly if none was copied or the ones
      copied were there already. */
  lemma KeptPastCount(d: Disk, d': Disk, i: int, off: int, src: seq<int>, tot: int, k: int)
    requires 0 <= off && 0 <= tot && 0 <= k && tot + k <= |src| && off + |src| <= MAXFILE * BSIZE
    requires Written(d, d', i, off, src[..tot + k]) && 0 <= i < |d.inodes|
    ensures Written(d, d', i, off, src[..tot]) <==>
            k == 0 || forall j :: tot <= j < tot + k ==> src[j] == ByteAt(d, i, off + j)
  {
    var all, counted := src[..tot + k], src[..tot];
    if Written(d, d', i, off, counted) {
      forall j | tot <= j < tot + k ensures src[j] == ByteAt(d, i, off + j) {
        assert ByteAt(d', i, off + j) == all[j];
        assert ByteAt(d', i, off + j) == ByteAt(d, i, off + j);
      }
    }
    if forall j :: tot <= j < tot + k ==> src[j] == ByteAt(d, i, off + j) {
      forall i', o | 0 <= i' < |d.inodes| && 0 <= o < MAXFILE * BSIZE
        ensures ByteAt(d', i', o) == if i' == i && off <= o < off + tot then counted[o - off] else ByteAt(d, i', o)
      {
        if i' == i && off + tot <= o < off + tot + k {
          assert src[o - off] == ByteAt(d, i, off + (o - off));
        }
      }
    }
  }

  function Spliced(page: seq<int>, at: int, bytes: seq<int>): seq<int>
    requires 0 <= at && at + |bytes| <= |page|
  {
    page[..at] + bytes + page[at + |bytes|..]
  }

  /** The bytes of file i from off on are replaced; every other byte of every file is as before. */
  ghost predicate Written(d: Disk, d': Disk, i: int, off: int, bytes: seq<int>) {
    && |d'.inodes| == |d.inodes|
    && (forall i', o :: 0 <= i' < |d.inodes| && 0 <= o < MAXFILE * BSIZE ==>
          ByteAt(d', i', o) == if i' == i && off <= o < off + |bytes| then bytes[o - off] else ByteAt(d, i', o))
    && forall i' :: 0 <= i' < |d.inodes| && i' != i ==> d'.inodes[i'].size == d.inodes[i'].size
  }

  lemma WrittenNothing(d: Disk, i: int, off: int)
    ensures Written(d, d, i, off, [])
  {
  }

  lemma WrittenSame(d: Disk, d1: Disk, d2: Disk, i: int, off: int, bytes: seq<int>)
    requires Written(d, d1, i, off, bytes) && SameFiles(d1, d2)
    ensures Written(d, d2, i, off, bytes)
  {
  }

  lemma SameInodesWritten(d: Disk, d': Disk, i: int, off: int, bytes: seq<int>)
    requires Written(d, d', i, off, bytes)
    ensures |d'.inodes| == |d.inodes|
  {
  }

  lemma StoredGrows(d: Disk, d1: Disk, b: int, block: seq<int>, i: int)
    requires OnlyGrows(d, d1, i) && 0 <= b < |d1.data|
    ensures OnlyGrows(d, Stored(d1, b, block), i)
  {
  }

  /** Storing one block's share. */
  lemma WrittenMore(d: Disk, d1: Disk, i: int, off: int, src: seq<int>, tot: int, m: int, addr: int)
    requires DiskOk(d1) && 0 <= i < |d.inodes| && 0 <= off && 0 <= tot && 0 <= m && tot + m <= |src|
    requires Written(d, d1, i, off, src[..tot]) && off + tot + m <= MAXFILE * BSIZE
    requires var at := off + tot;
             at % BSIZE + m <= BSIZE && at / BSIZE < MAXFILE && addr == Slot(d1, i, at / BSIZE) != 0
    requires 0 <= addr < |d1.data| && |d1.data[addr]| == BSIZE
    ensures Written(d, Stored(d1, addr, Spliced(d1.data[addr], (off + tot) % BSIZE, src[tot..tot + m])), i, off,
                    src[..tot + m])
  {
    hide DiskOk, Slot;
    var at := off + tot;
    var block := Spliced(d1.data[addr], at % BSIZE, src[tot..tot + m]);
    var d2 := Stored(d1, addr, block);
    var all := src[..tot + m];
    forall i', o | 0 <= i' < |d.inodes| && 0 <= o < MAXFILE * BSIZE
      ensures ByteAt(d2, i', o) == if i' == i && off <= o < off + |all| then all[o - off] else ByteAt(d, i', o)
    {
      StoredBytes(d1, i, at / BSIZE, block, i', o);
      WrittenByte(d, d1, i, off, src, tot, m, addr, i', o);
    }
  }

  lemma WrittenByte(d: Disk, d1: Disk, i: int, off: int, src: seq<int>, tot: int, m: int, addr: int, i': int, o: int)
    requires DiskOk(d1) && 0 <= i < |d.inodes| && 0 <= off && 0 <= tot && 0 <= m && tot + m <= |src|
    requires Written(d, d1, i, off, src[..tot]) && off + tot + m <= MAXFILE * BSIZE
    requires var at := off + tot;
             at % BSIZE + m <= BSIZE && at / BSIZE < MAXFILE && addr == Slot(d1, i, at / BSIZE) != 0
    requires 0 <= addr < |d1.data| && |d1.data[addr]| == BSIZE && 0 <= i' < |d.inodes| && 0 <= o < MAXFILE * BSIZE
    ensures var at := off + tot;
            var block := Spliced(d1.data[addr], at % BSIZE, src[tot..tot + m]);
            (if i' == i && o / BSIZE == at / BSIZE then block[o % BSIZE] else ByteAt(d1, i', o)) ==
            if i' == i && off <= o < off + (tot + m) then src[o - off] else ByteAt(d, i', o)
  {
    var at := off + tot;
    var block := Spliced(d1.data[addr], at % BSIZE, src[tot..tot + m]);
    assert |block| == BSIZE;
    if i' == i {
      if at <= o < at + m {
        SameBlock(o, at);
      } else if o / BSIZE == at / BSIZE {
        assert o - at == o % BSIZE - at % BSIZE;
        assert ByteAt(d1, i, o) == d1.data[addr][o % BSIZE];
        assert block[o % BSIZE] == d1.data[addr][o % BSIZE];
      }
    }
  }

  /** Recording a new size. */
  lemma Resized(d: Disk, d1: Disk, i: int, off: int, bytes: seq<int>, size: int)
    requires DiskOk(d1) && Written(d, d1, i, off, bytes) && OnlyGrows(d, d1, i) && 0 <= i < |d1.inodes|
    ensures var d2 := d1.(inodes := d1.inodes[i := d1.inodes[i].(size := size)]);
            DiskOk(d2) && Written(d, d2, i, off, bytes) && OnlyGrows(d, d2, i)
  {
    var d2 := d1.(inodes := d1.inodes[i := d1.inodes[i].(size := size)]);
    forall i', bn ensures Slot(d2, i', bn) == Slot(d1, i', bn) && TableOf(d2, i') == TableOf(d1, i') {
    }
    forall i', bn | 0 <= i' < |d1.inodes| && 0 <= bn < MAXFILE ensures SlotOk(d2, i', bn) {
      assert SlotOk(d1, i', bn);
    }
    forall i' | 0 <= i' < |d1.inodes| ensures TableOk(d2, i') {
      assert TableOk(d1, i');
    }
    forall b | 0 <= b < |d1.own| ensures UseOk(d2, b) {
      assert UseOk(d1, b);
    }
    forall i', o ensures ByteAt(d2, i', o) == ByteAt(d1, i', o) {
    }
  }

  lemma NoTableNoSlot(d: Disk, i: int, bn: int)
    requires TableOf(d, i) == 0 && bn >= NDIRECT
    ensures Slot(d, i, bn) == 0
  {
  }

  lemma Unchanged(d: Disk, i: int)
    ensures SameFiles(d, d) && OnlyGrows(d, d, i)
  {
  }

  lemma UseKeepsBits(bits: seq<seq<bv8>>, own: seq<Use>, b: int, u: Use)
    requires BitsOk(bits, own) && 0 <= b < |own| && own[b] != Free && u != Free
    ensures BitsOk(bits, own[b := u])
  {
    hide Bit, Blk;
  }

  /** The table of a file, when it has one. */
  lemma TableIs(d: Disk, i: int)
    requires DiskOk(d) && 0 <= i < |d.inodes|
    ensures ShapeOk(d) && TableOf(d, i) == d.inodes[i].addrs[NDIRECT]
    ensures TableOf(d, i) != 0 ==> 0 < TableOf(d, i) < |d.ptrs| && |d.ptrs[TableOf(d, i)]| == NINDIRECT
    ensures TableOf(d, i) != 0 ==>
        forall j :: 0 <= j < NINDIRECT ==> Slot(d, i, NDIRECT + j) == d.ptrs[TableOf(d, i)][j]
    ensures forall k :: 0 <= k < NDIRECT ==> Slot(d, i, k) == d.inodes[i].addrs[k]
  {
    assert TableOk(d, i);
  }

  lemma DiskShape(d: Disk)
    requires DiskOk(d)
    ensures ShapeOk(d)
  {
  }

  lemma MarkIs(bits: seq<seq<bv8>>, own: seq<Use>, b: int)
    requires BitsOk(bits, own) && 0 <= b < |own|
    ensures 0 <= Blk(b) < |bits| && 0 <= Byt(b) < |bits[Blk(b)]|
    ensures Test(bits[Blk(b)][Byt(b)], Off(b)) <==> own[b] != Free
    ensures ByteOf(bits, Blk(b), Byt(b)) == bits[Blk(b)][Byt(b)]
  {
    hide Blk, Byt, Off, Test;
    InBitmap(bits, |own|, b);
    assert Bit(bits, b) <==> own[b] != Free;
  }
}
