/**
 mkfs: inodes and blocks are handed out in order, and the bitmap is written
 once at the end. The image it leaves satisfies the kernel's invariant exactly
 if all inodes lie in the inode blocks: the number is not checked, the bitmap
 is written over the inodes that lie in its block, and later ones go into the
 blocks of files.
 */
module Mkfs {
  import opened FsBlocks
  import opened Fs
  import FileIo

  const NLOG: int := 31
  const NINODES: int := 200
  const IPB: int := 16
  const INODE_START: int := 2 + NLOG
  const NINODEBLOCKS: int := NINODES / IPB + 1
  const NMETA: int := INODE_START + NINODEBLOCKS + 1

  /** The inode numbers that fall into the inode blocks, and those that fall there or into the bitmap block. */
  const INODES: int := NINODEBLOCKS * IPB
  const AREA: int := INODES + IPB

  const T_DIR: int := 1
  const T_FILE: int := 2

  /** An inode as it is on disk. */
  datatype DInode = DInode(kind: int, nlink: int, node: Inode)

  function Empty(): Inode { Inode(Zeros(NDIRECT + 1), 0) }

  /** A new inode as the 16 words and the 64 bytes it takes on disk: kind, link count, then size and addresses. */
  function NewWords(kind: int): (w: seq<int>)
    ensures |w| == IPB
  {
    [kind, 0x10000] + Zeros(14)
  }

  function NewBytes(kind: int): (s: seq<int>)
    ensures |s| == 4 * IPB
  {
    [kind % 256, kind / 256, 0, 0, 0, 0, 1, 0] + Zeros(56)
  }

  /** All inodes but number 0 are on disk as they should be. */
  ghost predicate OnImage(area: seq<DInode>, kinds: seq<int>, inodes: seq<Inode>) {
    && |kinds| == |inodes| <= |area|
    && forall q :: 1 <= q < |inodes| ==> area[q] == DInode(kinds[q], 1, inodes[q])
  }

  // ---------------------------------------------------------------- the bitmap block, read as inodes

  /** The little-endian number in n bits of the bitmap from bit b on. */
  function Word(bits: seq<seq<bv8>>, b: int, n: nat): int
    decreases n
  {
    if n == 0 then 0 else (if Bit(bits, b) then 1 else 0) + 2 * Word(bits, b + 1, n - 1)
  }

  function Decoded(bits: seq<seq<bv8>>, j: int): DInode {
    var b := 512 * j;
    DInode(Word(bits, b, 16), Word(bits, b + 48, 16),
           Inode(seq(NDIRECT + 1, k => Word(bits, b + 96 + 32 * k, 32)), Word(bits, b + 64, 32)))
  }

  function Ones(n: nat): int { if n == 0 then 0 else 1 + 2 * Ones(n - 1) }

  lemma {:induction false} WordOfOnes(bits: seq<seq<bv8>>, b: int, n: nat)
    requires forall k :: b <= k < b + n ==> Bit(bits, k)
    ensures Word(bits, b, n) == Ones(n)
    decreases n
  {
    hide Bit;
    if n > 0 {
      assert Bit(bits, b);
      WordOfOnes(bits, b + 1, n - 1);
    }
  }

  /** The first inode in the bitmap block is lost: metadata blocks are marked, so its kind becomes 0xffff. */
  lemma FirstIsLost(bits: seq<seq<bv8>>)
    requires forall b :: 0 <= b < 16 ==> Bit(bits, b)
    ensures Decoded(bits, 0).kind == 0xffff
  {
    hide Bit;
    WordOfOnes(bits, 0, 16);
    assert Ones(4) == 15;
    assert Ones(8) == 255;
    assert Ones(12) == 4095;
    assert Ones(16) == 0xffff;
  }

  /** An inode that lies in the first block of a file takes the place of that file's bytes. In the root directory,
      whose first block is the first one handed out, inode number AREA becomes the entry "." */
  lemma BytesOverwritten(d: Disk, d': Disk, i: int, b: int, at: int, kind: int, o: int)
    requires DiskOk(d) && 0 <= i < |d.inodes| && 0 <= at < IPB && at * 64 <= o < at * 64 + 64
    requires Slot(d, i, 0) == b != 0 && d'.inodes == d.inodes && |d'.data| == |d.data|
    requires 0 <= b < |d.data| && |d.data[b]| == BSIZE
    requires d'.data[b] == Spliced(d.data[b], at * 64, NewBytes(kind))
    ensures ByteAt(d', i, o) == NewBytes(kind)[o - at * 64]
  {
  }

  // ---------------------------------------------------------------- the image

  lemma StrayShape(d: Disk, blocks: seq<seq<int>>, tables: seq<seq<int>>)
    requires ShapeOk(d) && Sized(blocks, |d.data|, BSIZE) && Sized(tables, |d.ptrs|, NINDIRECT)
    ensures ShapeOk(d.(data := blocks, ptrs := tables))
  {
  }

  predicate Sized(blocks: seq<seq<int>>, n: int, size: int) {
    |blocks| == n && forall b :: 0 <= b < |blocks| ==> |blocks[b]| == size
  }

  /** Blocks below nmeta hold metadata, blocks from nmeta to freeblock belong to files, the rest is unused and zero. */
  ghost predicate InOrder(own: seq<Use>, data: seq<seq<int>>, ptrs: seq<seq<int>>, nmeta: int, freeblock: int) {
    && 0 < nmeta <= freeblock <= |own| == |data| == |ptrs|
    && (forall b :: 0 <= b < |own| ==> (own[b] == Free <==> freeblock <= b))
    && (forall b :: freeblock <= b < |own| ==> data[b] == Zeros(BSIZE) && ptrs[b] == Zeros(NINDIRECT))
  }

  /** How many of the blocks [a, b) of file i are missing. */
  function Missing(d: Disk, i: int, a: int, b: int): int
    decreases b - a
  {
    if a >= b then 0 else (if Slot(d, i, a) == 0 then 1 else 0) + Missing(d, i, a + 1, b)
  }

  /** How many blocks have to be taken before all blocks [a, b) of file i exist, an indirect table included. */
  function Needed(d: Disk, i: int, a: int, b: int): int {
    Missing(d, i, a, b) + if a < b && b > NDIRECT && TableOf(d, i) == 0 then 1 else 0
  }

  ghost predicate OnlyInode(a: seq<Inode>, b: seq<Inode>, i: int) {
    |a| == |b| && forall q :: 0 <= q < |a| && q != i ==> b[q] == a[q]
  }

  lemma OnlyInodeSelf(a: seq<Inode>, i: int)
    ensures OnlyInode(a, a, i)
  {
  }

  lemma OnlyInodeTransitive(a: seq<Inode>, b: seq<Inode>, c: seq<Inode>, i: int)
    requires OnlyInode(a, b, i) && OnlyInode(b, c, i)
    ensures OnlyInode(a, c, i)
  {
  }

  lemma OnlyInodeResized(a: seq<Inode>, b: seq<Inode>, i: int, size: int)
    requires OnlyInode(a, b, i) && 0 <= i < |b|
    ensures OnlyInode(a, b[i := b[i].(size := size)], i)
  {
  }

  class Image {
    var freeinode: int
    var freeblock: int
    var data: seq<seq<int>>
    var ptrs: seq<seq<int>>
    var inodes: seq<Inode>
    var area: seq<DInode>
    ghost var kinds: seq<int>
    ghost var own: seq<Use>

    ghost function D(): Disk
      reads this
    {
      Disk(data, ptrs, inodes, own)
    }

    ghost predicate Valid()
      reads this
    {
      DiskOk(D()) && InOrder(own, data, ptrs, NMETA, freeblock)
    }

    /** Between two inodes: `inodes` and `kinds` are what the inodes should be, and `area` is what the inode blocks
        and the bitmap block hold. Nothing more is known once an inode lies beyond them. */
    ghost predicate Sound()
      reads this
    {
      && ShapeOk(D()) && |own| < BPB && NMETA <= freeblock <= |own|
      && 1 <= freeinode && |inodes| == |kinds| == FileIo.Min(freeinode, AREA) && |area| == AREA
      && (forall q :: 1 <= q < |kinds| ==> kinds[q] == T_DIR || kinds[q] == T_FILE)
      && (freeinode <= AREA ==> OnImage(area, kinds, inodes) && Valid())
    }

    /** All sectors are zero and all blocks after the metadata are free; one bitmap block is enough. */
    constructor (size: int)
      requires NMETA <= size < BPB
      ensures Sound() && freeinode == 1 && inodes == [Empty()] && kinds == [0] && AllSnug(D())
      ensures freeblock == NMETA && |own| == size
    {
      freeinode, freeblock := 1, NMETA;
      data, ptrs, inodes := seq(size, _ => Zeros(BSIZE)), seq(size, _ => Zeros(NINDIRECT)), [Empty()];
      area := seq(AREA, _ => DInode(0, 0, Empty()));
      kinds, own := [0], seq(size, b => if b < NMETA then Meta else Free);
    }

    /** ialloc: a new empty inode, written where its number leads. That is an inode block, then the bitmap block, then
        the blocks of files, whatever they hold; past the end of the image mkfs gives up. */
    method Ialloc(kind: int) returns (ok: bool, inum: int)
      requires Sound() && (kind == T_DIR || kind == T_FILE)
      modifies this
      ensures ok <==> INODE_START + old(freeinode) / IPB < |old(own)|
      ensures inum == old(freeinode) && freeinode == inum + 1 && own == old(own) && freeblock == old(freeblock)
      ensures ok ==> Sound()
      ensures inum < AREA ==> ok && data == old(data) && ptrs == old(ptrs)
      ensures inum < AREA ==> inodes == old(inodes) + [Empty()] && kinds == old(kinds) + [kind]
      ensures inum < AREA && AllSnug(old(D())) ==> AllSnug(D())
      ensures ok && inum >= AREA ==> inodes == old(inodes) && area == old(area) && |data| == |old(data)|
      ensures ok && inum >= AREA ==>
                var b := INODE_START + inum / IPB;
                NMETA <= b < |data| && |old(data)[b]| == BSIZE
                && data == old(data)[b := Spliced(old(data)[b], inum % IPB * 64, NewBytes(kind))]
    {
      hide DiskOk, InOrder, AllSnug, OnImage, ShapeOk, Spliced;
      SameSizes(D());
      inum := freeinode;
      freeinode := freeinode + 1;
      var b := INODE_START + inum / IPB;
      ok := b < |data|;
      if inum < AREA {
        EmptyInode(D());
        SnugEmpty(D());
        OneMoreInode(area, kinds, inodes, kind);
        inodes, kinds := inodes + [Empty()], kinds + [kind];
        area := area[inum := DInode(kind, 1, Empty())];
      } else if ok {
        var at := inum % IPB;
        SplicedShape(D(), b, at, NewBytes(kind), NewWords(kind));
        data := data[b := Spliced(data[b], at * 64, NewBytes(kind))];
        ptrs := ptrs[b := Spliced(ptrs[b], at * IPB, NewWords(kind))];
      }
    }

    /** freeblock++ for block bn of file i. */
    method NextBlock(i: int, bn: int)
      requires Valid() && 0 <= i < |inodes| && 0 <= bn < MAXFILE && Slot(D(), i, bn) == 0 && freeblock < |own|
      requires bn >= NDIRECT ==> TableOf(D(), i) != 0
      modifies `freeblock, `ptrs, `inodes, `own
      ensures Valid() && freeblock == old(freeblock) + 1 && |own| == |old(own)| && SameFiles(old(D()), D())
      ensures OnlyGrows(old(D()), D(), i) && OnlyInode(old(inodes), inodes, i)
      ensures Slot(D(), i, bn) == old(freeblock) && TableOf(D(), i) == TableOf(old(D()), i)
      ensures forall c :: 0 <= c < MAXFILE && c != bn ==> Slot(D(), i, c) == Slot(old(D()), i, c)
    {
      hide DiskOk, InOrder, SameFiles, ByteAt, Slot, OnlyGrows;
      ghost var d := D();
      var b := freeblock;
      FirstFree(d, NMETA, b);
      SlotAdded(d, i, bn, b);
      TableIs(d, i);
      SameTable(d, i, bn, b);
      OtherSlots(d, i, bn, b);
      if bn < NDIRECT {
        inodes := inodes[i := inodes[i].(addrs := inodes[i].addrs[bn := b])];
      } else {
        var t := inodes[i].addrs[NDIRECT];
        TableBelow(d, NMETA, b, i);
        ptrs := ptrs[t := ptrs[t][bn - NDIRECT := b]];
      }
      assert own[b := Held][b := Data(i, bn)] == own[b := Data(i, bn)];
      own := own[b := Data(i, bn)];
      freeblock := freeblock + 1;
      StillInOrder(d, D(), NMETA, b);
    }

    method NextTable(i: int)
      requires Valid() && 0 <= i < |inodes| && TableOf(D(), i) == 0 && freeblock < |own|
      modifies `freeblock, `ptrs, `inodes, `own
      ensures Valid() && freeblock == old(freeblock) + 1 && |own| == |old(own)| && SameFiles(old(D()), D())
      ensures OnlyGrows(old(D()), D(), i) && OnlyInode(old(inodes), inodes, i)
      ensures TableOf(D(), i) == old(freeblock)
      ensures forall bn :: 0 <= bn < MAXFILE ==> Slot(D(), i, bn) == Slot(old(D()), i, bn)
    {
      hide DiskOk, InOrder, SameFiles, ByteAt, Slot, TableOf;
      ghost var d := D();
      var b := freeblock;
      FirstFree(d, NMETA, b);
      TableAdded(d, i, b);
      TableIs(d, i);
      inodes := inodes[i := inodes[i].(addrs := inodes[i].addrs[NDIRECT := b])];
      assert own[b := Held][b := Table(i)] == own[b := Table(i)];
      own := own[b := Table(i)];
      freeblock := freeblock + 1;
      StillInOrder(d, D(), NMETA, b);
    }

    /** The block for block bn of file i, taken if it is missing. A block beyond the end of the image cannot be read
        back, and mkfs gives up; by then it may have written the block's number into the indirect table. */
    method BlockFor(i: int, bn: int) returns (ok: bool, x: int)
      requires Valid() && 0 <= i < |inodes| && 0 <= bn < MAXFILE
      modifies `freeblock, `ptrs, `inodes, `own
      ensures |own| == |old(own)| && |inodes| == |old(inodes)| && OnlyInode(old(inodes), inodes, i)
      ensures ok ==> Valid() && SameFiles(old(D()), D()) && OnlyGrows(old(D()), D(), i)
      ensures ok <==> old(freeblock) + Needed(old(D()), i, bn, bn + 1) <= |own|
      ensures ok ==> freeblock == old(freeblock) + Needed(old(D()), i, bn, bn + 1) && Slot(D(), i, bn) == x != 0
      ensures ok ==> forall c :: 0 <= c < MAXFILE && c != bn ==> Slot(D(), i, c) == Slot(old(D()), i, c)
      ensures ok ==> TableOf(D(), i) == 0 ==> bn < NDIRECT
      ensures ok && (bn < NDIRECT || TableOf(old(D()), i) != 0) ==> TableOf(D(), i) == TableOf(old(D()), i)
    {
      hide DiskOk, InOrder, SameFiles, ByteAt, Slot, TableOf, Missing, OnlyGrows;
      ghost var d := D();
      Unchanged(d, i);
      TableIs(d, i);
      NeededOne(d, i, bn);
      InOrderBounds(d, NMETA, freeblock);
      if bn < NDIRECT {
        if inodes[i].addrs[bn] == 0 {
          if freeblock >= |data| {
            return false, 0;
          }
          NextBlock(i, bn);
        }
        SameInodes(d, D());
        TableIs(D(), i);
        return true, inodes[i].addrs[bn];
      }
      if inodes[i].addrs[NDIRECT] == 0 {
        if freeblock >= |data| {
          return false, 0;
        }
        NextTable(i);
      }
      ghost var d1 := D();
      SameInodes(d, d1);
      TableIs(d1, i);
      var t := inodes[i].addrs[NDIRECT];
      assert Slot(d1, i, NDIRECT + (bn - NDIRECT)) == ptrs[t][bn - NDIRECT];
      InOrderBounds(d1, NMETA, freeblock);
      if ptrs[t][bn - NDIRECT] == 0 {
        if freeblock >= |data| {
          ptrs := ptrs[t := ptrs[t][bn - NDIRECT := freeblock]];
          freeblock := freeblock + 1;
          return false, 0;
        }
        NextBlock(i, bn);
        SameFilesTransitive(d, d1, D());
        OnlyGrowsTransitive(d, d1, D(), i);
      }
      SameInodes(d, D());
      TableIs(D(), i);
      assert Slot(D(), i, NDIRECT + (bn - NDIRECT)) == ptrs[inodes[i].addrs[NDIRECT]][bn - NDIRECT];
      return true, ptrs[inodes[i].addrs[NDIRECT]][bn - NDIRECT];
    }

    /** iappend between reading the inode and writing it back. */
    method AppendBytes(i: int, bytes: seq<int>) returns (ok: bool)
      requires Valid() && 0 <= i < |inodes| && 0 <= inodes[i].size <= MAXFILE * BSIZE
      modifies `freeblock, `data, `ptrs, `inodes, `own
      ensures (ok ==> Valid()) && |own| == |old(own)| && (ok ==> OnlyInode(old(inodes), inodes, i))
      ensures |inodes| == |old(inodes)|
      ensures var a, n := old(inodes)[i].size, old(inodes)[i].size + |bytes|;
              ok <==> n <= MAXFILE * BSIZE && old(freeblock) + Needed(old(D()), i, NextBn(a, n), Blocks(n)) <= |own|
      ensures var a, n := old(inodes)[i].size, old(inodes)[i].size + |bytes|;
              ok ==> freeblock == old(freeblock) + Needed(old(D()), i, NextBn(a, n), Blocks(n))
      ensures ok ==> Written(old(D()), D(), i, old(inodes)[i].size, bytes)
      ensures ok ==> inodes[i].size == old(inodes)[i].size + |bytes| && OnlyGrows(old(D()), D(), i)
      ensures ok && AllSnug(old(D())) ==> AllSnug(D())
    {
      hide DiskOk, InOrder, SameFiles, ByteAt, Slot, TableOf, Written, OnlyGrows, Missing, Needed, SnugTo, OnlyInode,
        AllSnug;
      ghost var d := D();
      Unchanged(d, i);
      OnlyInodeSelf(d.inodes, i);
      ghost var snug := AllSnug(d);
      SnugStart(d, i);
      var start := inodes[i].size;
      ghost var n := start + |bytes|;
      ghost var end, fits, free0 := Blocks(n), n <= MAXFILE * BSIZE, freeblock;
      WrittenNothing(d, i, start);
      InOrderBounds(d, NMETA, freeblock);
      var done := 0;
      assert bytes[..0] == [];
      while done < |bytes|
        invariant 0 <= done <= |bytes| && Valid() && |own| == |old(own)| && Written(d, D(), i, start, bytes[..done])
        invariant |inodes| == |old(inodes)| && inodes[i].size == start && start + done <= MAXFILE * BSIZE
        invariant Turn(start + done, n) && NMETA <= freeblock <= |own| && OnlyGrows(d, D(), i)
        invariant OnlyInode(d.inodes, inodes, i)
        invariant snug ==> SnugTo(D(), i, start + done)
        invariant fits ==>
            freeblock + Needed(D(), i, NextBn(start + done, n), end) == free0 + Needed(d, i, NextBn(start, n), end)
        decreases |bytes| - done
      {
        var off := start + done;
        ghost var d1 := D();
        var fbn := off / BSIZE;
        TurnOne(off, n);
        if fbn >= MAXFILE {
          return false;
        }
        NeededFirst(d1, i, fbn, end);
        var got, x := BlockFor(i, fbn);
        ghost var d2 := D();
        if !got {
          return false;
        }
        SameInodes(d1, d2);
        if fits {
          NeededRest(d1, d2, i, fbn, end);
        }
        WrittenSame(d, d1, d2, i, start, bytes[..done]);
        OnlyGrowsTransitive(d, d1, d2, i);
        OnlyInodeTransitive(d.inodes, d1.inodes, d2.inodes, i);
        BlockIs(d2, i, fbn);
        var n1 := FileIo.Min(|bytes| - done, (fbn + 1) * BSIZE - off);
        WrittenMore(d, d2, i, start, bytes, done, n1, x);
        var block := Spliced(data[x], off % BSIZE, bytes[done..done + n1]);
        StoredKeeps(d2, x, block);
        BlockBelow(d2, NMETA, freeblock, i, fbn);
        InOrderBounds(d2, NMETA, freeblock);
        data := data[x := block];
        StoredInOrder(d2, NMETA, freeblock, x, block);
        StoredGrows(d, d2, x, block, i);
        if snug {
          SnugMore(d1, d2, i, off, n1);
          SnugStored(d2, x, block, i, off + n1);
        }
        NeededStored(d2, x, block, i, fbn + 1, end);
        done := done + n1;
      }
      assert bytes[..done] == bytes;
      ghost var d3 := D();
      NeededNone(d3, i, NextBn(start + done, n), end);
      Recorded(d, d3, i, start, bytes);
      OnlyInodeResized(d.inodes, inodes, i, start + done);
      inodes := inodes[i := inodes[i].(size := start + done)];
      if snug {
        SnugRecorded(d, d3, i, start, bytes);
      }
      ok := true;
    }

    /** Once an inode lies past the bitmap block, inodes share blocks with files, and what mkfs reads back as one may be
        bytes of another: which blocks it then takes and writes is left open. It reads no block past the image. */
    method Stray() returns (ok: bool)
      requires Sound() && freeinode > AREA
      modifies `freeblock, `data, `ptrs, `area
      ensures Sound() && freeblock >= old(freeblock)
    {
      hide DiskOk, InOrder;
      ok := *;
      assert Sized(data, |data|, BSIZE) && Sized(ptrs, |ptrs|, NINDIRECT);
      var blocks :| Sized(blocks, |data|, BSIZE);
      var tables :| Sized(tables, |ptrs|, NINDIRECT);
      var nodes: seq<DInode> :| |nodes| == |area|;
      var next :| freeblock <= next <= |data|;
      ghost var d := D();
      freeblock, data, ptrs, area := next, blocks, tables, nodes;
      StrayShape(d, blocks, tables);
    }

    /** iappend: the file with the bytes added at its end; no other file changes. mkfs gives up exactly when the file
        becomes too long or the image has not enough blocks left. */
    method Iappend(i: int, bytes: seq<int>) returns (ok: bool)
      requires Sound() && 1 <= i < freeinode && (freeinode <= AREA ==> 0 <= inodes[i].size <= MAXFILE * BSIZE)
      modifies `freeblock, `data, `ptrs, `inodes, `area, `own
      ensures (ok ==> Sound()) && |own| == |old(own)| && |inodes| == |old(inodes)|
      ensures freeinode <= AREA ==>
                var a, n := old(inodes)[i].size, old(inodes)[i].size + |bytes|;
                && (ok <==> n <= MAXFILE * BSIZE
                            && old(freeblock) + Needed(old(D()), i, NextBn(a, n), Blocks(n)) <= |own|)
                && (ok ==> freeblock == old(freeblock) + Needed(old(D()), i, NextBn(a, n), Blocks(n)))
                && (ok ==> Written(old(D()), D(), i, a, bytes) && inodes[i].size == n && OnlyGrows(old(D()), D(), i))
      ensures freeinode <= AREA && ok && AllSnug(old(D())) ==> AllSnug(D())
      ensures freeinode > AREA ==> inodes == old(inodes) && own == old(own)
    {
      hide DiskOk, InOrder, Needed, Written, AllSnug, ShapeOk, OnlyGrows;
      if freeinode > AREA {
        ok := Stray();
        return;
      }
      ok := AppendBytes(i, bytes);
      if ok {
        area := area[i := area[i].(node := inodes[i])];
        ValidShape(D(), NMETA, freeblock);
      }
    }

    /** The last change to the root directory: its size goes up to the next multiple of BSIZE, and by a whole block
        if it is one. */
    method FixRootSize(i: int)
      requires Sound() && 1 <= i < |inodes| && (freeinode <= AREA ==> 0 <= inodes[i].size < MAXFILE * BSIZE)
      modifies `freeblock, `data, `ptrs, `inodes, `area
      ensures Sound() && |inodes| == |old(inodes)|
      ensures freeinode <= AREA ==> inodes[i].size == (old(inodes)[i].size / BSIZE + 1) * BSIZE
      ensures forall q :: 0 <= q < |inodes| && q != i ==> inodes[q].size == old(inodes)[q].size
      ensures freeinode <= AREA ==> forall q, o :: 0 <= q < |inodes| && 0 <= o < MAXFILE * BSIZE ==>
          ByteAt(D(), q, o) == ByteAt(old(D()), q, o)
      ensures freeinode <= AREA && AllSnug(old(D())) ==>
                && (NoneHasHoles(D()) <==> old(inodes)[i].size % BSIZE != 0)
                && forall q :: 0 <= q < |inodes| && q != i ==> NoHoles(D(), q)
    {
      hide DiskOk, InOrder, Slot;
      if freeinode > AREA {
        var _ := Stray();
        return;
      }
      ghost var d := D();
      WrittenNothing(d, i, 0);
      Unchanged(d, i);
      Resized(d, d, i, 0, [], (inodes[i].size / BSIZE + 1) * BSIZE);
      SameSlots(d, i, (inodes[i].size / BSIZE + 1) * BSIZE);
      inodes := inodes[i := inodes[i].(size := (inodes[i].size / BSIZE + 1) * BSIZE)];
      area := area[i := area[i].(node := inodes[i])];
      ValidShape(D(), NMETA, freeblock);
      if AllSnug(d) {
        RootHole(d, D(), i);
      }
    }

    /** balloc: mark the first freeblock blocks, in the block that also holds the inodes from number INODES on. The
        image then holds every inode and satisfies the kernel's invariant exactly if there is none of those. */
    method Balloc() returns (ok: bool, bits: seq<seq<bv8>>)
      requires Sound()
      modifies `area
      ensures ok && |bits| == 1 && |area| == AREA
      ensures forall q :: 0 <= q < INODES ==> area[q] == old(area)[q]
      ensures forall j :: 0 <= j < IPB ==> area[INODES + j] == Decoded(bits, j)
      ensures freeinode <= AREA ==> BitsOk(bits, own) && DiskOk(D())
      ensures OnImage(area, kinds, inodes) <==> freeinode <= INODES
      ensures OnImage(area, kinds, inodes) && BitsOk(bits, own) && DiskOk(D()) <==> freeinode <= INODES
    {
      hide DiskOk, InOrder, Bit, Decoded, ShapeOk, BitsOk;
      bits := Marks();
      ok := true;
      if freeinode <= AREA {
        InOrderBits(bits, D(), NMETA, freeblock);
      }
      FirstIsLost(bits);
      area := area[..INODES] + seq(IPB, j => Decoded(bits, j));
      if freeinode > INODES {
        assert area[INODES].kind == 0xffff;
      }
    }

    /** The loop of balloc, for as many blocks as one bitmap block can hold. */
    method Marks() returns (bits: seq<seq<bv8>>)
      requires 0 <= freeblock < BPB
      ensures |bits| == 1 && |bits[0]| == BSIZE && forall b :: 0 <= b < BPB ==> (Bit(bits, b) <==> b < freeblock)
    {
      hide Bit, Test, Marked, Blk, Byt, Off, ByteOf;
      bits := [seq(BSIZE, _ => 0)];
      NoBits(bits);
      var i := 0;
      while i < freeblock
        invariant 0 <= i <= freeblock && |bits| == 1 && |bits[0]| == BSIZE
        invariant forall b :: 0 <= b < BPB ==> (Bit(bits, b) <==> b < i)
      {
        ghost var before := bits;
        LoopBlock(0, i);
        bits := WithByte(bits, 0, i / 8, Marked(bits[0][i / 8], i % 8));
        OneMore(before, i);
        i := i + 1;
      }
    }
  }

  /** File i has exactly the blocks that n bytes take, and an indirect table only if it needs one. */
  ghost predicate SnugTo(d: Disk, i: int, n: int) {
    && (forall bn :: 0 <= bn < MAXFILE ==> (Slot(d, i, bn) != 0 <==> bn < Blocks(n)))
    && (TableOf(d, i) != 0 <==> Blocks(n) > NDIRECT)
  }

  ghost predicate AllSnug(d: Disk) {
    SizesOk(d.inodes) && forall i :: 0 <= i < |d.inodes| ==> SnugTo(d, i, d.inodes[i].size)
  }

  lemma SnugEmpty(d: Disk)
    ensures AllSnug(d) ==> AllSnug(d.(inodes := d.inodes + [Empty()]))
  {
    if AllSnug(d) {
      var d' := d.(inodes := d.inodes + [Empty()]);
      forall i | 0 <= i < |d'.inodes| ensures SnugTo(d', i, d'.inodes[i].size) {
        if i < |d.inodes| {
          assert SnugTo(d, i, d.inodes[i].size);
          assert TableOf(d', i) == TableOf(d, i);
          assert forall bn :: Slot(d', i, bn) == Slot(d, i, bn);
        }
      }
    }
  }

  lemma SnugStart(d: Disk, i: int)
    requires 0 <= i < |d.inodes|
    ensures AllSnug(d) ==> SnugTo(d, i, d.inodes[i].size)
  {
  }

  lemma SnugMore(d: Disk, d': Disk, i: int, off: int, m: int)
    requires SnugTo(d, i, off) && 0 <= off && 0 < m && off + m <= (off / BSIZE + 1) * BSIZE && off / BSIZE < MAXFILE
    requires Slot(d', i, off / BSIZE) != 0
    requires forall c :: 0 <= c < MAXFILE && c != off / BSIZE ==> Slot(d', i, c) == Slot(d, i, c)
    requires TableOf(d', i) == 0 ==> off / BSIZE < NDIRECT
    requires off / BSIZE < NDIRECT || TableOf(d, i) != 0 ==> TableOf(d', i) == TableOf(d, i)
    ensures SnugTo(d', i, off + m)
  {
    hide Slot, TableOf;
    assert Blocks(off + m) == off / BSIZE + 1;
  }

  /** What n bytes take on disk. */
  function FileBlocks(n: int): int { Blocks(n) + if Blocks(n) > NDIRECT then 1 else 0 }

  lemma FileBlocksGrow(m: int, n: int)
    requires 0 <= m <= n
    ensures 0 <= FileBlocks(m) <= FileBlocks(n)
  {
  }

  lemma {:induction false} MissingPast(d: Disk, i: int, n: int, a: int, b: int)
    requires SnugTo(d, i, n) && 0 <= n && 0 <= a && b <= MAXFILE && Blocks(n) <= b
    ensures Missing(d, i, a, b) == if a >= b then 0 else b - FileIo.Max(a, Blocks(n))
    decreases b - a
  {
    hide Slot;
    if a < b {
      MissingPast(d, i, n, a + 1, b);
    }
  }

  /** The blocks that a file of m bytes needs to become one of n. */
  lemma SnugNeeded(d: Disk, i: int, m: int, n: int)
    requires SnugTo(d, i, m) && 0 <= m <= n <= MAXFILE * BSIZE
    ensures Needed(d, i, NextBn(m, n), Blocks(n)) == FileBlocks(n) - FileBlocks(m)
  {
    hide Slot, TableOf;
    MissingPast(d, i, m, NextBn(m, n), Blocks(n));
  }

  lemma SnugStored(d: Disk, x: int, block: seq<int>, i: int, n: int)
    requires SnugTo(d, i, n) && 0 <= x < |d.data|
    ensures SnugTo(Stored(d, x, block), i, n)
  {
    assert forall bn :: Slot(Stored(d, x, block), i, bn) == Slot(d, i, bn);
  }

  lemma SnugRecorded(d: Disk, d1: Disk, i: int, off: int, bytes: seq<int>)
    requires DiskOk(d) && DiskOk(d1) && AllSnug(d) && OnlyGrows(d, d1, i) && Written(d, d1, i, off, bytes)
    requires 0 <= i < |d.inodes| && 0 <= off && off + |bytes| <= MAXFILE * BSIZE && SnugTo(d1, i, off + |bytes|)
    requires OnlyInode(d.inodes, d1.inodes, i)
    ensures AllSnug(d1.(inodes := d1.inodes[i := d1.inodes[i].(size := off + |bytes|)]))
  {
    hide DiskOk, Slot, OnlyGrows, ByteAt;
    var d2 := d1.(inodes := d1.inodes[i := d1.inodes[i].(size := off + |bytes|)]);
    SameSlots(d1, i, off + |bytes|);
    forall q, bn | 0 <= q < |d.inodes| && q != i && 0 <= bn < MAXFILE ensures Slot(d2, q, bn) == Slot(d, q, bn) {
      SlotsStay(d, d1, i, q, bn);
    }
    forall q | 0 <= q < |d2.inodes| ensures SnugTo(d2, q, d2.inodes[q].size) {
      assert q != i ==> SnugTo(d, q, d.inodes[q].size);
    }
  }

  /** Rounding up the size of a file that ends on a block boundary adds a block that does not exist. */
  lemma RootHole(d: Disk, d': Disk, i: int)
    requires AllSnug(d) && 0 <= i < |d.inodes| == |d'.inodes| && d.inodes[i].size < MAXFILE * BSIZE
    requires d'.inodes == d.inodes[i := d.inodes[i].(size := (d.inodes[i].size / BSIZE + 1) * BSIZE)]
    requires forall q, bn :: Slot(d', q, bn) == Slot(d, q, bn)
    ensures NoneHasHoles(d') <==> d.inodes[i].size % BSIZE != 0
    ensures forall q :: 0 <= q < |d'.inodes| && q != i ==> NoHoles(d', q)
  {
    hide Slot;
    forall q | 0 <= q < |d'.inodes| && q != i ensures NoHoles(d', q) {
      assert SnugTo(d, q, d.inodes[q].size);
    }
    var last := d.inodes[i].size / BSIZE;
    assert SnugTo(d, i, d.inodes[i].size);
    assert Blocks(d'.inodes[i].size) == last + 1;
    if d.inodes[i].size % BSIZE == 0 {
      assert Slot(d', i, last) == 0;
      assert !NoHoles(d', i);
    } else {
      assert NoHoles(d', i);
    }
  }

  lemma ValidShape(d: Disk, nmeta: int, freeblock: int)
    requires DiskOk(d) && InOrder(d.own, d.data, d.ptrs, nmeta, freeblock)
    ensures ShapeOk(d) && nmeta <= freeblock <= |d.own|
  {
  }

  lemma InOrderBounds(d: Disk, nmeta: int, freeblock: int)
    requires InOrder(d.own, d.data, d.ptrs, nmeta, freeblock)
    ensures 0 < nmeta <= freeblock <= |d.own| == |d.data|
  {
  }

  /** While bytes are left, the next one starts a block or follows what the file has. */
  predicate Turn(off: int, end: int) { 0 <= off <= end && (off < end ==> off / BSIZE < Blocks(end)) }

  /** The next block to fill, or the end when nothing is left. */
  function NextBn(off: int, end: int): int { if off < end then off / BSIZE else Blocks(end) }

  lemma TurnOne(off: int, end: int)
    requires 0 <= off < end
    ensures var n1 := FileIo.Min(end - off, (off / BSIZE + 1) * BSIZE - off);
            0 < n1 <= end - off && Turn(off + n1, end) && NextBn(off + n1, end) == off / BSIZE + 1 <= Blocks(end)
            && off + n1 <= (off / BSIZE + 1) * BSIZE
  {
  }

  lemma {:induction false} MissingNat(d: Disk, i: int, a: int, b: int)
    ensures 0 <= Missing(d, i, a, b)
    decreases b - a
  {
    if a < b {
      MissingNat(d, i, a + 1, b);
    }
  }

  lemma NeededNone(d: Disk, i: int, a: int, b: int)
    requires a >= b
    ensures Needed(d, i, a, b) == 0
  {
  }

  lemma NeededOne(d: Disk, i: int, bn: int)
    ensures Needed(d, i, bn, bn + 1) ==
            (if Slot(d, i, bn) == 0 then 1 else 0) + (if bn >= NDIRECT && TableOf(d, i) == 0 then 1 else 0)
  {
    hide Slot, TableOf;
    assert Missing(d, i, bn + 1, bn + 1) == 0;
  }

  /** The first block takes no more than all of them. */
  lemma NeededFirst(d: Disk, i: int, a: int, b: int)
    requires a < b
    ensures Needed(d, i, a, a + 1) <= Needed(d, i, a, b)
  {
    hide Slot, TableOf;
    NeededOne(d, i, a);
    MissingNat(d, i, a + 1, b);
  }

  lemma {:induction false} MissingSame(d: Disk, d': Disk, i: int, a: int, b: int)
    requires forall c :: a <= c < b ==> Slot(d', i, c) == Slot(d, i, c)
    ensures Missing(d', i, a, b) == Missing(d, i, a, b)
    decreases b - a
  {
    if a < b {
      MissingSame(d, d', i, a + 1, b);
    }
  }

  /** Once the first block exists, the others take what is left. */
  lemma NeededRest(d: Disk, d': Disk, i: int, a: int, b: int)
    requires 0 <= a < b <= MAXFILE
    requires forall c :: 0 <= c < MAXFILE && c != a ==> Slot(d', i, c) == Slot(d, i, c)
    requires TableOf(d', i) == 0 ==> a < NDIRECT
    requires a < NDIRECT || TableOf(d, i) != 0 ==> TableOf(d', i) == TableOf(d, i)
    ensures Needed(d, i, a, b) == Needed(d, i, a, a + 1) + Needed(d', i, a + 1, b)
  {
    hide Slot, TableOf;
    NeededOne(d, i, a);
    MissingSame(d, d', i, a + 1, b);
  }

  lemma NeededStored(d: Disk, x: int, block: seq<int>, i: int, a: int, b: int)
    requires 0 <= x < |d.data|
    ensures Needed(Stored(d, x, block), i, a, b) == Needed(d, i, a, b)
  {
    MissingSame(d, Stored(d, x, block), i, a, b);
  }

  lemma OtherSlots(d: Disk, i: int, bn: int, b: int)
    requires DiskOk(d) && 0 <= i < |d.inodes| && 0 <= bn < MAXFILE
    requires Owned(d, b, Free) && (bn >= NDIRECT ==> TableOf(d, i) != 0)
    ensures var d1 := Loosened(d, b, Zeros(BSIZE), Zeros(NINDIRECT), Held);
            ShapeOk(d1) && (bn >= NDIRECT ==> 0 <= TableOf(d1, i) < |d1.ptrs|)
            && forall c :: 0 <= c < MAXFILE && c != bn ==> Slot(WithSlot(d1, i, bn, b), i, c) == Slot(d, i, c)
  {
    hide Slot;
    SameTable(d, i, bn, b);
    LooseKeeps(d, b, Zeros(BSIZE), Zeros(NINDIRECT), Held);
    var d1 := Loosened(d, b, Zeros(BSIZE), Zeros(NINDIRECT), Held);
    forall c | 0 <= c < MAXFILE && c != bn ensures Slot(WithSlot(d1, i, bn, b), i, c) == Slot(d, i, c) {
      SlotOfWithSlot(d1, i, bn, b, i, c);
      LooseSlot(d, b, Zeros(BSIZE), Zeros(NINDIRECT), Held, i, c);
    }
  }

  lemma BlockBelow(d: Disk, nmeta: int, freeblock: int, i: int, bn: int)
    requires DiskOk(d) && InOrder(d.own, d.data, d.ptrs, nmeta, freeblock) && 0 <= i < |d.inodes| && 0 <= bn < MAXFILE
    requires Slot(d, i, bn) != 0
    ensures 0 < Slot(d, i, bn) < freeblock
  {
    assert SlotOk(d, i, bn);
  }

  lemma StoredInOrder(d: Disk, nmeta: int, freeblock: int, b: int, block: seq<int>)
    requires InOrder(d.own, d.data, d.ptrs, nmeta, freeblock) && 0 <= b < freeblock
    ensures InOrder(d.own, d.data[b := block], d.ptrs, nmeta, freeblock)
  {
  }

  lemma Recorded(d: Disk, d1: Disk, i: int, off: int, bytes: seq<int>)
    requires DiskOk(d1) && Written(d, d1, i, off, bytes) && 0 <= i < |d1.inodes|
    ensures var d2 := d1.(inodes := d1.inodes[i := d1.inodes[i].(size := off + |bytes|)]);
            DiskOk(d2) && Written(d, d2, i, off, bytes) && (OnlyGrows(d, d1, i) ==> OnlyGrows(d, d2, i))
  {
    WrittenNothing(d1, i, 0);
    Unchanged(d1, i);
    Resized(d1, d1, i, 0, [], off + |bytes|);
    var d2 := d1.(inodes := d1.inodes[i := d1.inodes[i].(size := off + |bytes|)]);
    forall q, o | 0 <= q < |d.inodes| && 0 <= o < MAXFILE * BSIZE ensures ByteAt(d2, q, o) == ByteAt(d1, q, o) {
    }
  }

  lemma OneBlock(size: int)
    ensures forall b :: 0 <= b < BPB ==> Blk(b) == 0
  {
  }

  lemma NoBits(bits: seq<seq<bv8>>)
    requires |bits| == 1 && |bits[0]| == BSIZE && forall j :: 0 <= j < BSIZE ==> bits[0][j] == 0
    ensures forall b :: 0 <= b < BPB ==> !Bit(bits, b)
  {
  }

  lemma OneMore(bits: seq<seq<bv8>>, i: int)
    requires |bits| == 1 && |bits[0]| == BSIZE && 0 <= i < BPB
    requires forall b :: 0 <= b < BPB ==> (Bit(bits, b) <==> b < i)
    ensures forall b :: 0 <= b < BPB ==>
        (Bit(WithByte(bits, 0, i / 8, Marked(bits[0][i / 8], i % 8)), b) <==> b < i + 1)
  {
    hide Bit, Test, Marked, Blk, Byt, Off;
    LoopBlock(0, i);
    var own := seq(BPB, b => if b < i then Meta else Free);
    OneBlock(BPB);
    SetBit(bits, own, i, Meta);
    ByteIs(bits, i);
    forall b | 0 <= b < BPB ensures Bit(WithByte(bits, 0, i / 8, Marked(bits[0][i / 8], i % 8)), b) <==> b < i + 1 {
      assert own[i := Meta][b] != Free <==> b < i + 1;
    }
  }

  lemma ByteIs(bits: seq<seq<bv8>>, i: int)
    requires |bits| == 1 && |bits[0]| == BSIZE && 0 <= i < BPB
    ensures ByteOf(bits, 0, i / 8) == bits[0][i / 8]
  {
  }

  lemma InOrderBits(bits: seq<seq<bv8>>, d: Disk, nmeta: int, freeblock: int)
    requires InOrder(d.own, d.data, d.ptrs, nmeta, freeblock) && |d.own| <= BPB && |bits| == 1 && |bits[0]| == BSIZE
    requires forall b :: 0 <= b < BPB ==> (Bit(bits, b) <==> b < freeblock)
    ensures BitsOk(bits, d.own)
  {
    hide Bit;
  }

  lemma SameSizes(d: Disk)
    requires ShapeOk(d)
    ensures |d.data| == |d.ptrs| == |d.own|
  {
  }

  lemma OneMoreInode(area: seq<DInode>, kinds: seq<int>, inodes: seq<Inode>, kind: int)
    requires OnImage(area, kinds, inodes) && |inodes| < |area|
    ensures |kinds| == |inodes|
    ensures OnImage(area[|inodes| := DInode(kind, 1, Empty())], kinds + [kind], inodes + [Empty()])
  {
  }

  lemma SplicedShape(d: Disk, b: int, at: int, bytes: seq<int>, words: seq<int>)
    requires ShapeOk(d) && 0 <= b < |d.data| && 0 <= at < IPB && |bytes| == 64 && |words| == IPB
    ensures |d.data| == |d.ptrs| && |d.data[b]| == BSIZE && |d.ptrs[b]| == NINDIRECT
    ensures ShapeOk(d.(data := d.data[b := Spliced(d.data[b], at * 64, bytes)],
                       ptrs := d.ptrs[b := Spliced(d.ptrs[b], at * IPB, words)]))
  {
  }

  lemma EmptyInode(d: Disk)
    requires DiskOk(d)
    ensures DiskOk(d.(inodes := d.inodes + [Empty()])) && ShapeOk(d.(inodes := d.inodes + [Empty()]))
  {
    var d' := d.(inodes := d.inodes + [Empty()]);
    forall i, bn | 0 <= i < |d'.inodes| && 0 <= bn < MAXFILE ensures SlotOk(d', i, bn) {
      if i < |d.inodes| {
        assert SlotOk(d, i, bn);
      }
    }
    forall i | 0 <= i < |d'.inodes| ensures TableOk(d', i) {
      if i < |d.inodes| {
        assert TableOk(d, i);
      }
    }
    forall b | 0 <= b < |d.own| ensures UseOk(d', b) {
      assert UseOk(d, b);
    }
  }

  lemma FirstFree(d: Disk, nmeta: int, b: int)
    requires InOrder(d.own, d.data, d.ptrs, nmeta, b) && b < |d.own|
    ensures Owned(d, b, Free) && 0 < b
    ensures Loosened(d, b, Zeros(BSIZE), Zeros(NINDIRECT), Held) == d.(own := d.own[b := Held])
  {
  }

  lemma TableBelow(d: Disk, nmeta: int, b: int, i: int)
    requires DiskOk(d) && InOrder(d.own, d.data, d.ptrs, nmeta, b) && 0 <= i < |d.inodes| && TableOf(d, i) != 0
    ensures 0 < TableOf(d, i) < b
  {
    assert TableOk(d, i);
  }

  lemma SameTable(d: Disk, i: int, bn: int, b: int)
    requires DiskOk(d) && 0 <= i < |d.inodes| && 0 <= bn < MAXFILE
    requires Owned(d, b, Free) && (bn >= NDIRECT ==> TableOf(d, i) != 0)
    ensures var d1 := Loosened(d, b, Zeros(BSIZE), Zeros(NINDIRECT), Held);
            ShapeOk(d1) && (bn >= NDIRECT ==> 0 <= TableOf(d1, i) < |d1.ptrs|)
            && TableOf(WithSlot(d1, i, bn, b), i) == TableOf(d, i)
  {
    LooseKeeps(d, b, Zeros(BSIZE), Zeros(NINDIRECT), Held);
    SlotOfWithSlot(Loosened(d, b, Zeros(BSIZE), Zeros(NINDIRECT), Held), i, bn, b, i, bn);
  }

  lemma StillInOrder(d: Disk, d': Disk, nmeta: int, b: int)
    requires InOrder(d.own, d.data, d.ptrs, nmeta, b) && b < |d.own| && d'.data == d.data && |d'.ptrs| == |d.ptrs|
    requires |d'.own| == |d.own| && d'.own[b] != Free && forall c :: 0 <= c < |d.own| && c != b ==>
        d'.own[c] == d.own[c]
    requires forall c :: b < c < |d.ptrs| ==> d'.ptrs[c] == d.ptrs[c]
    ensures InOrder(d'.own, d'.data, d'.ptrs, nmeta, b + 1)
  {
  }
}
