/**
 Block ownership in the file system, as a value. Every block has one use; a
 block used by a file says which of its blocks it is, so no two places can
 refer to the same block.

 A block has a byte view and a view as an array of block numbers; a block used
 as one is never read as the other.
 */
module FsBlocks {

  const BSIZE: int := 1024
  const NDIRECT: int := 12
  const NINDIRECT: int := 256
  const MAXFILE: int := 268

  /** `Held` is a block that is allocated but not yet, or no longer, referred to. */
  datatype Use = Free | Meta | Held | Data(ino: int, bn: int) | Table(ino: int)

  datatype Inode = Inode(addrs: seq<int>, size: int)

  datatype Disk = Disk(data: seq<seq<int>>, ptrs: seq<seq<int>>, inodes: seq<Inode>, own: seq<Use>)

  function Zeros(n: nat): (s: seq<int>)
    ensures |s| == n && forall i :: 0 <= i < n ==> s[i] == 0
  {
    seq(n, _ => 0)
  }

  predicate Owned(d: Disk, b: int, u: Use) { 0 <= b < |d.own| && d.own[b] == u }

  function TableOf(d: Disk, i: int): int {
    if 0 <= i < |d.inodes| && |d.inodes[i].addrs| == NDIRECT + 1 then d.inodes[i].addrs[NDIRECT] else 0
  }

  function Pointer(d: Disk, b: int, j: int): int {
    if 0 <= b < |d.ptrs| && 0 <= j < |d.ptrs[b]| then d.ptrs[b][j] else 0
  }

  /** The block that holds block bn of file i, or 0. */
  function Slot(d: Disk, i: int, bn: int): int {
    if 0 <= i < |d.inodes| && |d.inodes[i].addrs| == NDIRECT + 1 && 0 <= bn < NDIRECT then d.inodes[i].addrs[bn]
    else if NDIRECT <= bn && TableOf(d, i) != 0 then Pointer(d, TableOf(d, i), bn - NDIRECT) else 0
  }

  predicate SlotOk(d: Disk, i: int, bn: int) {
    Slot(d, i, bn) != 0 ==> Owned(d, Slot(d, i, bn), Data(i, bn))
  }

  predicate TableOk(d: Disk, i: int) {
    TableOf(d, i) != 0 ==> Owned(d, TableOf(d, i), Table(i))
  }

  /** A block's use, seen from the block. */
  predicate UseOk(d: Disk, b: int)
    requires 0 <= b < |d.own|
  {
    match d.own[b]
    case Data(i, bn) => 0 <= i < |d.inodes| && 0 <= bn < MAXFILE && Slot(d, i, bn) == b
    case Table(i) => 0 <= i < |d.inodes| && TableOf(d, i) == b
    case _ => true
  }

  predicate ShapeOk(d: Disk) {
    && |d.data| == |d.ptrs| == |d.own| && 0 < |d.own| && d.own[0] == Meta
    && (forall b :: 0 <= b < |d.data| ==> |d.data[b]| == BSIZE)
    && (forall b :: 0 <= b < |d.ptrs| ==> |d.ptrs[b]| == NINDIRECT)
    && (forall i :: 0 <= i < |d.inodes| ==> |d.inodes[i].addrs| == NDIRECT + 1)
  }

  ghost predicate DiskOk(d: Disk) {
    && ShapeOk(d)
    && (forall i, bn :: 0 <= i < |d.inodes| && 0 <= bn < MAXFILE ==> SlotOk(d, i, bn))
    && (forall i :: 0 <= i < |d.inodes| ==> TableOk(d, i))
    && (forall b :: 0 <= b < |d.own| ==> UseOk(d, b))
  }

  /** The number of blocks that n bytes from the start of a file take. */
  function Blocks(n: int): int { (n + BSIZE - 1) / BSIZE }

  /** Every block of file i below its size exists. */
  ghost predicate NoHoles(d: Disk, i: int) {
    0 <= i < |d.inodes| && forall bn :: 0 <= bn < Blocks(d.inodes[i].size) ==> Slot(d, i, bn) != 0
  }

  ghost predicate NoneHasHoles(d: Disk) { forall i :: 0 <= i < |d.inodes| ==> NoHoles(d, i) }

  lemma BlockInSize(o: int, size: int)
    requires 0 <= o < size
    ensures 0 <= o / BSIZE < Blocks(size)
  {
  }

  /** The byte of file i at an offset; a block that does not exist reads as zeros. */
  function ByteAt(d: Disk, i: int, o: int): int {
    var s := Slot(d, i, o / BSIZE);
    if s != 0 && 0 <= s < |d.data| && 0 <= o % BSIZE < |d.data[s]| then d.data[s][o % BSIZE] else 0
  }

  /** No two blocks of files are the same block. */
  lemma SlotsAreDistinct(d: Disk, i: int, bn: int, i': int, bn': int)
    requires DiskOk(d) && 0 <= i < |d.inodes| && 0 <= bn < MAXFILE && 0 <= i' < |d.inodes| && 0 <= bn' < MAXFILE
    requires Slot(d, i, bn) == Slot(d, i', bn') != 0
    ensures i == i' && bn == bn'
  {
    assert SlotOk(d, i, bn) && SlotOk(d, i', bn');
  }

  /** Every block pointer of a file is in range, allocated, and no table. */
  lemma SlotsAreGood(d: Disk, i: int, bn: int)
    requires DiskOk(d) && 0 <= i < |d.inodes| && 0 <= bn < MAXFILE && Slot(d, i, bn) != 0
    ensures 0 < Slot(d, i, bn) < |d.own| && d.own[Slot(d, i, bn)] == Data(i, bn)
    ensures forall i' :: 0 <= i' < |d.inodes| ==> TableOf(d, i') != Slot(d, i, bn)
  {
    assert SlotOk(d, i, bn);
    forall i' | 0 <= i' < |d.inodes| ensures TableOf(d, i') != Slot(d, i, bn) {
      assert TableOk(d, i');
    }
  }

  // ---------------------------------------------------------------- blocks that nothing refers to

  predicate Loose(u: Use) { u == Free || u == Held }

  /** A loose block may change its contents and move between free and held. */
  function Loosened(d: Disk, b: int, data: seq<int>, ptrs: seq<int>, u: Use): Disk
    requires 0 <= b < |d.own| && |d.data| == |d.ptrs| == |d.own|
  {
    d.(data := d.data[b := data], ptrs := d.ptrs[b := ptrs], own := d.own[b := u])
  }

  lemma LooseSlot(d: Disk, b: int, data: seq<int>, ptrs: seq<int>, u: Use, i: int, bn: int)
    requires DiskOk(d) && 0 <= b < |d.own| && Loose(d.own[b]) && 0 <= i < |d.inodes|
    ensures Slot(Loosened(d, b, data, ptrs, u), i, bn) == Slot(d, i, bn)
  {
    assert TableOk(d, i);
  }

  lemma LooseKeeps(d: Disk, b: int, data: seq<int>, ptrs: seq<int>, u: Use)
    requires DiskOk(d) && 0 <= b < |d.own| && Loose(d.own[b]) && Loose(u) && |data| == BSIZE && |ptrs| == NINDIRECT
    ensures DiskOk(Loosened(d, b, data, ptrs, u))
    ensures forall i, o :: 0 <= i < |d.inodes| && 0 <= o < MAXFILE * BSIZE ==>
              ByteAt(Loosened(d, b, data, ptrs, u), i, o) == ByteAt(d, i, o)
  {
    var d' := Loosened(d, b, data, ptrs, u);
    forall i, bn | 0 <= i < |d.inodes| && 0 <= bn < MAXFILE ensures SlotOk(d', i, bn) {
      assert SlotOk(d, i, bn);
      LooseSlot(d, b, data, ptrs, u, i, bn);
    }
    forall i | 0 <= i < |d.inodes| ensures TableOk(d', i) {
      assert TableOk(d, i);
    }
    forall g | 0 <= g < |d.own| ensures UseOk(d', g) {
      assert UseOk(d, g);
      if d.own[g].Data? {
        LooseSlot(d, b, data, ptrs, u, d.own[g].ino, d.own[g].bn);
      }
    }
    forall i, o | 0 <= i < |d.inodes| && 0 <= o < MAXFILE * BSIZE ensures ByteAt(d', i, o) == ByteAt(d, i, o) {
      LooseSlot(d, b, data, ptrs, u, i, o / BSIZE);
      assert SlotOk(d, i, o / BSIZE);
    }
  }

  // ---------------------------------------------------------------- referring to a block

  /** Block bn of file i becomes block b. */
  function WithSlot(d: Disk, i: int, bn: int, b: int): Disk
    requires ShapeOk(d) && 0 <= i < |d.inodes| && 0 <= bn < MAXFILE && 0 <= b < |d.own|
    requires bn >= NDIRECT ==> 0 <= TableOf(d, i) < |d.ptrs|
  {
    var d1 := d.(own := d.own[b := Data(i, bn)]);
    if bn < NDIRECT then d1.(inodes := d.inodes[i := d.inodes[i].(addrs := d.inodes[i].addrs[bn := b])])
    else d1.(ptrs := d.ptrs[TableOf(d, i) := d.ptrs[TableOf(d, i)][bn - NDIRECT := b]])
  }

  lemma SlotOfWithSlot(d: Disk, i: int, bn: int, b: int, i': int, bn': int)
    requires DiskOk(d) && 0 <= i < |d.inodes| && 0 <= bn < MAXFILE && 0 <= b < |d.own|
    requires bn >= NDIRECT ==> TableOf(d, i) != 0
    requires 0 <= i' < |d.inodes| && 0 <= bn' < MAXFILE
    ensures bn >= NDIRECT ==> 0 <= TableOf(d, i) < |d.ptrs|
    ensures Slot(WithSlot(d, i, bn, b), i', bn') == if i' == i && bn' == bn then b else Slot(d, i', bn')
    ensures TableOf(WithSlot(d, i, bn, b), i') == TableOf(d, i')
  {
    assert TableOk(d, i) && TableOk(d, i');
  }

  lemma WithSlotKeeps(d: Disk, i: int, bn: int, b: int)
    requires DiskOk(d) && 0 <= i < |d.inodes| && 0 <= bn < MAXFILE && Owned(d, b, Held) && Slot(d, i, bn) == 0
    requires bn >= NDIRECT ==> TableOf(d, i) != 0
    ensures bn >= NDIRECT ==> 0 <= TableOf(d, i) < |d.ptrs|
    ensures DiskOk(WithSlot(d, i, bn, b))
  {
    assert TableOk(d, i);
    var d' := WithSlot(d, i, bn, b);
    forall i', bn' | 0 <= i' < |d.inodes| && 0 <= bn' < MAXFILE ensures SlotOk(d', i', bn') {
      SlotOfWithSlot(d, i, bn, b, i', bn');
      assert SlotOk(d, i', bn');
    }
    forall i' | 0 <= i' < |d.inodes| ensures TableOk(d', i') {
      SlotOfWithSlot(d, i, bn, b, i', 0);
      assert TableOk(d, i');
    }
    forall g | 0 <= g < |d.own| ensures UseOk(d', g) {
      WithSlotUse(d, i, bn, b, g);
    }
  }

  lemma WithSlotUse(d: Disk, i: int, bn: int, b: int, g: int)
    requires DiskOk(d) && 0 <= i < |d.inodes| && 0 <= bn < MAXFILE && Owned(d, b, Held) && Slot(d, i, bn) == 0
    requires bn >= NDIRECT ==> TableOf(d, i) != 0
    requires bn >= NDIRECT ==> 0 <= TableOf(d, i) < |d.ptrs|
    requires 0 <= g < |d.own|
    ensures UseOk(WithSlot(d, i, bn, b), g)
  {
    assert UseOk(d, g);
    match d.own[g] {
      case Data(i', bn') =>
        SlotOfWithSlot(d, i, bn, b, i', bn');
        assert UseOk(d, 0);
      case Table(i') =>
        SlotOfWithSlot(d, i, bn, b, i', 0);
      case _ =>
        SlotOfWithSlot(d, i, bn, b, i, bn);
    }
  }

  /** A zeroed block in place of a missing one does not change what the file reads as. */
  lemma WithSlotBytes(d: Disk, i: int, bn: int, b: int, i': int, o: int)
    requires DiskOk(d) && 0 <= i < |d.inodes| && 0 <= bn < MAXFILE && Owned(d, b, Held) && Slot(d, i, bn) == 0
    requires bn >= NDIRECT ==> TableOf(d, i) != 0
    requires d.data[b] == Zeros(BSIZE) && 0 <= i' < |d.inodes| && 0 <= o < MAXFILE * BSIZE
    ensures bn >= NDIRECT ==> 0 <= TableOf(d, i) < |d.ptrs|
    ensures ByteAt(WithSlot(d, i, bn, b), i', o) == ByteAt(d, i', o)
  {
    SlotOfWithSlot(d, i, bn, b, i', o / BSIZE);
  }

  /** Block b becomes the table of file i's indirect blocks. */
  function WithTable(d: Disk, i: int, b: int): Disk
    requires ShapeOk(d) && 0 <= i < |d.inodes| && 0 <= b < |d.own|
  {
    d.(own := d.own[b := Table(i)], inodes := d.inodes[i := d.inodes[i].(addrs := d.inodes[i].addrs[NDIRECT := b])])
  }

  lemma SlotOfWithTable(d: Disk, i: int, b: int, i': int, bn: int)
    requires DiskOk(d) && 0 <= i < |d.inodes| && Owned(d, b, Held)
    requires TableOf(d, i) == 0 && d.ptrs[b] == Zeros(NINDIRECT)
    requires 0 <= i' < |d.inodes|
    ensures Slot(WithTable(d, i, b), i', bn) == Slot(d, i', bn)
    ensures TableOf(WithTable(d, i, b), i') == if i' == i then b else TableOf(d, i')
  {
  }

  lemma WithTableKeeps(d: Disk, i: int, b: int)
    requires DiskOk(d) && 0 <= i < |d.inodes| && Owned(d, b, Held)
    requires TableOf(d, i) == 0 && d.ptrs[b] == Zeros(NINDIRECT)
    ensures DiskOk(WithTable(d, i, b))
    ensures forall i', o :: 0 <= i' < |d.inodes| && 0 <= o < MAXFILE * BSIZE ==>
              ByteAt(WithTable(d, i, b), i', o) == ByteAt(d, i', o)
  {
    var d' := WithTable(d, i, b);
    forall i', bn | 0 <= i' < |d.inodes| && 0 <= bn < MAXFILE ensures SlotOk(d', i', bn) {
      SlotOfWithTable(d, i, b, i', bn);
      assert SlotOk(d, i', bn);
    }
    forall i' | 0 <= i' < |d.inodes| ensures TableOk(d', i') {
      SlotOfWithTable(d, i, b, i', 0);
      assert TableOk(d, i');
    }
    forall g | 0 <= g < |d.own| ensures UseOk(d', g) {
      assert UseOk(d, g);
      match d.own[g] {
        case Data(i', bn) => SlotOfWithTable(d, i, b, i', bn);
        case Table(i') => SlotOfWithTable(d, i, b, i', 0);
        case _ => SlotOfWithTable(d, i, b, i, 0);
      }
    }
    forall i', o | 0 <= i' < |d.inodes| && 0 <= o < MAXFILE * BSIZE ensures ByteAt(d', i', o) == ByteAt(d, i', o) {
      SlotOfWithTable(d, i, b, i', o / BSIZE);
    }
  }

  // ---------------------------------------------------------------- writing into a block of a file

  function Stored(d: Disk, b: int, data: seq<int>): Disk
    requires 0 <= b < |d.data|
  {
    d.(data := d.data[b := data])
  }

  /** Only that block of that file changes. */
  lemma StoredBytes(d: Disk, i: int, bn: int, data: seq<int>, i': int, o: int)
    requires DiskOk(d) && 0 <= i < |d.inodes| && 0 <= bn < MAXFILE && Slot(d, i, bn) != 0 && |data| == BSIZE
    requires 0 <= i' < |d.inodes| && 0 <= o < MAXFILE * BSIZE
    ensures 0 <= Slot(d, i, bn) < |d.data|
    ensures ByteAt(Stored(d, Slot(d, i, bn), data), i', o) ==
            if i' == i && o / BSIZE == bn then data[o % BSIZE] else ByteAt(d, i', o)
  {
    SlotsAreGood(d, i, bn);
    assert SlotOk(d, i', o / BSIZE);
  }

  lemma StoredKeeps(d: Disk, b: int, data: seq<int>)
    requires DiskOk(d) && 0 <= b < |d.data| && |data| == BSIZE
    ensures DiskOk(Stored(d, b, data))
  {
    var d' := Stored(d, b, data);
    forall i, bn | 0 <= i < |d.inodes| && 0 <= bn < MAXFILE ensures SlotOk(d', i, bn) {
      assert SlotOk(d, i, bn);
    }
    forall i | 0 <= i < |d.inodes| ensures TableOk(d', i) {
      assert TableOk(d, i);
    }
    forall g | 0 <= g < |d.own| ensures UseOk(d', g) {
      assert UseOk(d, g);
    }
  }

  // ---------------------------------------------------------------- taking blocks away from a file

  function WithoutSlot(d: Disk, i: int, bn: int): Disk
    requires ShapeOk(d) && 0 <= i < |d.inodes| && 0 <= bn < NDIRECT && 0 <= d.inodes[i].addrs[bn] < |d.own|
  {
    d.(own := d.own[d.inodes[i].addrs[bn] := Held],
       inodes := d.inodes[i := d.inodes[i].(addrs := d.inodes[i].addrs[bn := 0])])
  }

  lemma SlotOfWithoutSlot(d: Disk, i: int, bn: int, i': int, bn': int)
    requires DiskOk(d) && 0 <= i < |d.inodes| && 0 <= bn < NDIRECT && Slot(d, i, bn) != 0
    requires 0 <= i' < |d.inodes| && 0 <= bn' < MAXFILE
    ensures 0 <= d.inodes[i].addrs[bn] < |d.own|
    ensures Slot(WithoutSlot(d, i, bn), i', bn') == if i' == i && bn' == bn then 0 else Slot(d, i', bn')
    ensures TableOf(WithoutSlot(d, i, bn), i') == TableOf(d, i')
  {
    assert SlotOk(d, i, bn);
  }

  lemma WithoutSlotKeeps(d: Disk, i: int, bn: int)
    requires DiskOk(d) && 0 <= i < |d.inodes| && 0 <= bn < NDIRECT && Slot(d, i, bn) != 0
    ensures 0 < d.inodes[i].addrs[bn] < |d.own| && d.own[d.inodes[i].addrs[bn]] == Data(i, bn)
    ensures DiskOk(WithoutSlot(d, i, bn))
  {
    SlotsAreGood(d, i, bn);
    var d' := WithoutSlot(d, i, bn);
    forall i', bn' | 0 <= i' < |d.inodes| && 0 <= bn' < MAXFILE ensures SlotOk(d', i', bn') {
      SlotOfWithoutSlot(d, i, bn, i', bn');
      assert SlotOk(d, i', bn');
    }
    forall i' | 0 <= i' < |d.inodes| ensures TableOk(d', i') {
      SlotOfWithoutSlot(d, i, bn, i', 0);
      assert TableOk(d, i');
    }
    forall g | 0 <= g < |d.own| ensures UseOk(d', g) {
      WithoutSlotUse(d, i, bn, g);
    }
  }

  lemma WithoutSlotUse(d: Disk, i: int, bn: int, g: int)
    requires DiskOk(d) && 0 <= i < |d.inodes| && 0 <= bn < NDIRECT && Slot(d, i, bn) != 0 && 0 <= g < |d.own|
    requires 0 < d.inodes[i].addrs[bn] < |d.own|
    ensures UseOk(WithoutSlot(d, i, bn), g)
  {
    assert UseOk(d, g);
    match d.own[g] {
      case Data(i', bn') => SlotOfWithoutSlot(d, i, bn, i', bn');
      case Table(i') => SlotOfWithoutSlot(d, i, bn, i', 0);
      case _ =>
    }
  }

  /** The table of file i, or one of the blocks listed in it. */
  predicate Indirect(u: Use, i: int) {
    u == Table(i) || (u.Data? && u.ino == i && u.bn >= NDIRECT)
  }

  function WithoutTable(d: Disk, i: int): Disk
    requires ShapeOk(d) && 0 <= i < |d.inodes|
  {
    d.(own := seq(|d.own|, b requires 0 <= b < |d.own| => if Indirect(d.own[b], i) then Held else d.own[b]),
       inodes := d.inodes[i := d.inodes[i].(addrs := d.inodes[i].addrs[NDIRECT := 0])])
  }

  lemma SlotOfWithoutTable(d: Disk, i: int, i': int, bn: int)
    requires DiskOk(d) && 0 <= i < |d.inodes| && 0 <= i' < |d.inodes| && 0 <= bn < MAXFILE
    ensures Slot(WithoutTable(d, i), i', bn) == if i' == i && bn >= NDIRECT then 0 else Slot(d, i', bn)
    ensures TableOf(WithoutTable(d, i), i') == if i' == i then 0 else TableOf(d, i')
  {
  }

  lemma WithoutTableKeeps(d: Disk, i: int)
    requires DiskOk(d) && 0 <= i < |d.inodes|
    ensures DiskOk(WithoutTable(d, i))
  {
    var d' := WithoutTable(d, i);
    forall i', bn | 0 <= i' < |d.inodes| && 0 <= bn < MAXFILE ensures SlotOk(d', i', bn) {
      SlotOfWithoutTable(d, i, i', bn);
      assert SlotOk(d, i', bn);
    }
    forall i' | 0 <= i' < |d.inodes| ensures TableOk(d', i') {
      SlotOfWithoutTable(d, i, i', 0);
      assert TableOk(d, i');
    }
    forall g | 0 <= g < |d.own| ensures UseOk(d', g) {
      WithoutTableUse(d, i, g);
    }
  }

  lemma WithoutTableUse(d: Disk, i: int, g: int)
    requires DiskOk(d) && 0 <= i < |d.inodes| && 0 <= g < |d.own|
    ensures UseOk(WithoutTable(d, i), g)
  {
    assert UseOk(d, g);
    match d.own[g] {
      case Data(i', bn) => SlotOfWithoutTable(d, i, i', bn);
      case Table(i') => SlotOfWithoutTable(d, i, i', 0);
      case _ =>
    }
  }
}
