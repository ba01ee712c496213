/**
 mkfs from the empty image to the bitmap: the root directory, one inode and one
 directory entry for every file, and the files' bytes.
 */
module MkfsImage {
  import opened FsBlocks
  import opened Fs
  import opened Mkfs
  import FileIo
  import PhysMem

  const ROOTINO: int := 1
  const DIRSIZ: int := 14
  const DIRENT: int := 16

  datatype File = File(name: seq<int>, bytes: seq<int>)

  /** A directory entry: the inode number and the name, padded with zeros. */
  function Dirent(inum: int, name: seq<int>): (s: seq<int>)
    requires |name| <= DIRSIZ
    ensures |s| == DIRENT
  {
    [inum % 256, inum / 256 % 256] + name + Zeros(DIRSIZ - |name|)
  }

  const SLASH: int := 47

  /** The name has no slash, and name and file are not too long. */
  predicate Suits(f: File) { SLASH !in f.name && |f.name| <= DIRSIZ && |f.bytes| <= MAXFILE * BSIZE }

  /** The root directory after k files, which get the inodes from number 2 on. */
  function Listing(files: seq<File>, k: nat): (s: seq<int>)
    requires k <= |files| && forall j :: 0 <= j < k ==> Suits(files[j])
    ensures |s| == DIRENT * (k + 2)
  {
    if k == 0 then Dirent(ROOTINO, [46]) + Dirent(ROOTINO, [46, 46])
    else assert Suits(files[k - 1]); Listing(files, k - 1) + Dirent(k + 1, files[k - 1].name)
  }

  /** The blocks of the first k files. */
  function Total(files: seq<File>, k: nat): int
    requires k <= |files|
  {
    if k == 0 then 0 else Total(files, k - 1) + FileBlocks(|files[k - 1].bytes|)
  }

  /** All files suit, and there is room for all of them. */
  ghost predicate Fits(files: seq<File>, size: int) {
    && (forall j :: 0 <= j < |files| ==> Suits(files[j]))
    && NMETA + Total(files, |files|) + FileBlocks(DIRENT * (|files| + 2)) <= size
  }

  lemma {:induction false} TotalGrows(files: seq<File>, k: nat, n: nat)
    requires k <= n <= |files|
    ensures Total(files, k) <= Total(files, n)
    decreases n
  {
    if k < n {
      TotalGrows(files, k, n - 1);
      FileBlocksGrow(0, |files[n - 1].bytes|);
    }
  }

  /** A file that does not suit, or does not fit after the ones before it, makes the whole image impossible. */
  lemma TooMuch(files: seq<File>, size: int, k: nat)
    requires k < |files|
    requires !Suits(files[k]) || NMETA + Total(files, k + 1) + FileBlocks(DIRENT * (k + 3)) > size
    ensures !Fits(files, size)
  {
    TotalGrows(files, k + 1, |files|);
    FileBlocksGrow(DIRENT * (k + 3), DIRENT * (|files| + 2));
  }

  // ---------------------------------------------------------------- what files hold

  ghost predicate Contains(d: Disk, i: int, bytes: seq<int>) {
    && 0 <= i < |d.inodes| && d.inodes[i].size == |bytes| <= MAXFILE * BSIZE
    && forall o :: 0 <= o < |bytes| ==> ByteAt(d, i, o) == bytes[o]
  }

  /** Files other than i hold what they held. */
  ghost predicate OthersSame(d: Disk, d': Disk, i: int) {
    && |d.inodes| <= |d'.inodes|
    && forall q, bytes :: 0 <= q < |d.inodes| && q != i && Contains(d, q, bytes) ==> Contains(d', q, bytes)
  }

  lemma Appended(d: Disk, d': Disk, i: int, bytes: seq<int>, more: seq<int>)
    requires Contains(d, i, bytes) && Written(d, d', i, |bytes|, more) && d'.inodes[i].size == |bytes| + |more|
    requires |bytes| + |more| <= MAXFILE * BSIZE
    ensures Contains(d', i, bytes + more) && OthersSame(d, d', i)
  {
    hide ByteAt;
    forall q, s | 0 <= q < |d.inodes| && q != i && Contains(d, q, s) ensures Contains(d', q, s) {
      forall o | 0 <= o < |s| ensures ByteAt(d', q, o) == s[o] {
        assert ByteAt(d, q, o) == s[o];
      }
    }
    forall o | 0 <= o < |bytes + more| ensures ByteAt(d', i, o) == (bytes + more)[o] {
      assert o < |bytes| ==> ByteAt(d, i, o) == bytes[o];
    }
  }

  /** A new inode is an empty file. */
  lemma NewFile(d: Disk, i: int)
    requires DiskOk(d)
    ensures var d' := d.(inodes := d.inodes + [Empty()]);
            Contains(d', |d.inodes|, []) && OthersSame(d, d', i)
  {
    var d' := d.(inodes := d.inodes + [Empty()]);
    forall q, bytes | 0 <= q < |d.inodes| && q != i && Contains(d, q, bytes) ensures Contains(d', q, bytes) {
      forall o | 0 <= o < |bytes| ensures ByteAt(d', q, o) == bytes[o] {
        assert ByteAt(d, q, o) == bytes[o];
        assert Slot(d', q, o / BSIZE) == Slot(d, q, o / BSIZE);
      }
    }
  }

  // ---------------------------------------------------------------- one file

  /** Copying a file into an empty inode, a block at a time. */
  method AppendFile(img: Image, i: int, bytes: seq<int>) returns (ok: bool)
    requires img.Sound() && 1 <= i < img.freeinode
    requires img.freeinode <= AREA ==> AllSnug(img.D()) && Contains(img.D(), i, [])
    modifies img`freeblock, img`data, img`ptrs, img`inodes, img`area, img`own
    ensures |img.own| == |old(img.own)| && |img.inodes| == |old(img.inodes)| && (ok ==> img.Sound())
    ensures img.freeinode <= AREA ==>
              (ok <==> |bytes| <= MAXFILE * BSIZE && old(img.freeblock) + FileBlocks(|bytes|) <= |img.own|)
    ensures img.freeinode <= AREA && ok ==>
              && AllSnug(img.D()) && img.freeblock == old(img.freeblock) + FileBlocks(|bytes|)
              && Contains(img.D(), i, bytes) && OthersSame(old(img.D()), img.D(), i)
              && (RootAt(old(img.D())) ==> RootAt(img.D()))
  {
    hide Image.Sound, AllSnug, Contains, OthersSame, Needed, Written, FileBlocks, Blocks, RootAt, OnlyGrows;
    if img.freeinode > AREA {
      ok := AppendStray(img, i, bytes);
      return;
    }
    ghost var d := img.D();
    SameOthers(d, i);
    NothingTaken();
    Bounds(img);
    var done := 0;
    assert bytes[..0] == [];
    while done < |bytes|
      invariant 0 <= done <= |bytes| && done <= MAXFILE * BSIZE && img.Sound() && AllSnug(img.D())
      invariant |img.own| == |old(img.own)| && |img.inodes| == |old(img.inodes)|
      invariant img.freeblock == old(img.freeblock) + FileBlocks(done) <= |img.own|
      invariant Contains(img.D(), i, bytes[..done]) && OthersSame(d, img.D(), i) && (RootAt(d) ==> RootAt(img.D()))
    {
      ghost var d1 := img.D();
      Bounds(img);
      var m := FileIo.Min(BSIZE, |bytes| - done);
      var chunk := bytes[done..done + m];
      SizeIs(d1, i, bytes[..done]);
      ok := img.Iappend(i, chunk);
      if done + m <= MAXFILE * BSIZE {
        Taken(d1, i, done, done + m);
      }
      FileBlocksGrow(done + m, |bytes|);
      if !ok {
        return;
      }
      Appended(d1, img.D(), i, bytes[..done], chunk);
      assert bytes[..done] + chunk == bytes[..done + m];
      OthersTransitive(d, d1, img.D(), i);
      Bounds(img);
      RootStays(d1, img.D(), i);
      done := done + m;
    }
    assert bytes[..done] == bytes;
    ok := true;
  }

  /** The same with inodes among the blocks of files. */
  method AppendStray(img: Image, i: int, bytes: seq<int>) returns (ok: bool)
    requires img.Sound() && img.freeinode > AREA && 1 <= i < img.freeinode
    modifies img`freeblock, img`data, img`ptrs, img`inodes, img`area, img`own
    ensures (ok ==> img.Sound()) && img.own == old(img.own) && img.inodes == old(img.inodes)
  {
    hide Image.Sound;
    var done := 0;
    ok := true;
    while done < |bytes|
      invariant 0 <= done <= |bytes| && img.Sound() && img.own == old(img.own) && img.inodes == old(img.inodes) && ok
    {
      var m := FileIo.Min(BSIZE, |bytes| - done);
      ok := img.Iappend(i, bytes[done..done + m]);
      if !ok {
        return;
      }
      done := done + m;
    }
  }

  /** The root directory starts in the first block after the metadata. */
  ghost predicate RootAt(d: Disk) { Slot(d, ROOTINO, 0) == NMETA }

  lemma RootStays(d: Disk, d': Disk, i: int)
    requires DiskOk(d) && DiskOk(d') && OnlyGrows(d, d', i) && ROOTINO < |d.inodes| == |d'.inodes|
    ensures RootAt(d) ==> RootAt(d')
  {
    hide DiskOk, OnlyGrows, Slot;
    SlotsStay(d, d', i, ROOTINO, 0);
  }

  lemma RootStaysNew(d: Disk)
    requires ROOTINO < |d.inodes|
    ensures RootAt(d) ==> RootAt(d.(inodes := d.inodes + [Empty()]))
  {
  }

  /** The first block that is handed out. */
  lemma FirstBlock(d: Disk, d': Disk, i: int, f: int)
    requires DiskOk(d) && DiskOk(d') && OnlyGrows(d, d', i) && 0 <= i < |d.inodes| == |d'.inodes|
    requires InOrder(d.own, d.data, d.ptrs, NMETA, f) && InOrder(d'.own, d'.data, d'.ptrs, NMETA, f + 1)
    requires Slot(d, i, 0) == 0 && Slot(d', i, 0) != 0
    ensures Slot(d', i, 0) == f
  {
    var b := Slot(d', i, 0);
    assert SlotOk(d', i, 0);
    assert UseOk(d, b);
  }

  lemma SameOthers(d: Disk, i: int)
    ensures OthersSame(d, d, i)
  {
  }

  lemma OthersTransitive(d: Disk, d1: Disk, d2: Disk, i: int)
    requires OthersSame(d, d1, i) && OthersSame(d1, d2, i)
    ensures OthersSame(d, d2, i)
  {
  }

  lemma NothingTaken()
    ensures FileBlocks(0) == 0
  {
  }

  lemma SizeIs(d: Disk, i: int, bytes: seq<int>)
    requires Contains(d, i, bytes)
    ensures 0 <= i < |d.inodes| && d.inodes[i].size == |bytes| <= MAXFILE * BSIZE
  {
  }

  lemma Taken(d: Disk, i: int, m: int, n: int)
    requires AllSnug(d) && 0 <= i < |d.inodes| && d.inodes[i].size == m && 0 <= m <= n <= MAXFILE * BSIZE
    ensures Needed(d, i, NextBn(m, n), Blocks(n)) == FileBlocks(n) - FileBlocks(m)
  {
    hide Needed, FileBlocks, Blocks;
    SnugNeeded(d, i, m, n);
  }

  lemma Bounds(img: Image)
    requires img.Sound()
    ensures NMETA <= img.freeblock <= |img.own| < BPB && |img.inodes| == FileIo.Min(img.freeinode, AREA)
    ensures img.freeinode <= AREA ==> DiskOk(img.D())
    ensures img.freeinode <= AREA ==> InOrder(img.own, img.data, img.ptrs, NMETA, img.freeblock)
  {
  }

  /** Adding bytes to a file that is as long as it should be. */
  method AppendTo(img: Image, i: int, ghost was: seq<int>, more: seq<int>) returns (ok: bool)
    requires img.Sound() && img.freeinode <= AREA && 1 <= i < |img.inodes| && AllSnug(img.D())
    requires Contains(img.D(), i, was) && |was| + |more| <= MAXFILE * BSIZE
    modifies img`freeblock, img`data, img`ptrs, img`inodes, img`area, img`own
    ensures |img.own| == |old(img.own)| && |img.inodes| == |old(img.inodes)|
    ensures var n := old(img.freeblock) + FileBlocks(|was| + |more|) - FileBlocks(|was|);
            (ok <==> n <= |img.own|) && (ok ==> img.freeblock == n)
    ensures ok ==> img.Sound() && AllSnug(img.D())
    ensures ok ==> Contains(img.D(), i, was + more) && OthersSame(old(img.D()), img.D(), i)
    ensures ok ==> OnlyGrows(old(img.D()), img.D(), i) && (RootAt(old(img.D())) ==> RootAt(img.D()))
  {
    hide Image.Sound, AllSnug, Contains, OthersSame, Needed, Written, FileBlocks, Blocks, RootAt, OnlyGrows;
    ghost var d := img.D();
    Bounds(img);
    SizeIs(d, i, was);
    Taken(d, i, |was|, |was| + |more|);
    ok := img.Iappend(i, more);
    if ok {
      Appended(d, img.D(), i, was, more);
      Bounds(img);
      RootStays(d, img.D(), i);
    }
  }

  /** One turn of the loop over the files: an inode, an entry in the root directory and the bytes. */
  method AddFile(img: Image, f: File, ghost root: seq<int>) returns (ok: bool)
    requires img.Sound() && 2 <= img.freeinode
    requires img.freeinode < AREA ==>
               AllSnug(img.D()) && Contains(img.D(), ROOTINO, root) && |root| + DIRENT <= MAXFILE * BSIZE
    modifies img
    ensures |img.own| == |old(img.own)| && (ok ==> img.Sound() && img.freeinode == old(img.freeinode) + 1)
    ensures old(img.freeinode) < AREA ==>
              var n := old(img.freeblock) + FileBlocks(|root| + DIRENT) - FileBlocks(|root|) + FileBlocks(|f.bytes|);
              (ok <==> Suits(f) && n <= |img.own|) && (ok ==> img.freeblock == n)
    ensures old(img.freeinode) < AREA && ok ==>
              && AllSnug(img.D()) && Contains(img.D(), ROOTINO, root + Dirent(old(img.freeinode), f.name))
              && Contains(img.D(), old(img.freeinode), f.bytes) && OthersSame(old(img.D()), img.D(), ROOTINO)
              && (RootAt(old(img.D())) ==> RootAt(img.D()))
  {
    hide Image.Sound, AllSnug, Contains, OthersSame, FileBlocks, Dirent, RootAt, OnlyGrows;
    ghost var d := img.D();
    Bounds(img);
    FileBlocksGrow(0, |f.bytes|);
    if SLASH in f.name || |f.name| > DIRSIZ {
      return false;
    }
    if img.freeinode >= AREA {
      ok := AddStray(img, f);
      return;
    }
    RootStaysNew(d);
    NewFile(d, ROOTINO);
    NewFile(d, -1);
    var inum;
    ok, inum := img.Ialloc(T_FILE);
    ghost var d1 := img.D();
    HoldsStill(d, d1, -1, ROOTINO, root);
    ok := AppendTo(img, ROOTINO, root, Dirent(inum, f.name));
    if !ok {
      return;
    }
    ghost var d2 := img.D();
    HoldsStill(d1, d2, ROOTINO, inum, []);
    ok := AppendFile(img, inum, f.bytes);
    if ok {
      HoldsStill(d2, img.D(), inum, ROOTINO, root + Dirent(inum, f.name));
      OthersTransitive(d, d1, d2, ROOTINO);
      OthersOlder(d, d2, img.D(), ROOTINO, inum);
    }
  }

  /** The same from the inode on that lies past the bitmap block. */
  method AddStray(img: Image, f: File) returns (ok: bool)
    requires img.Sound() && img.freeinode >= AREA && |f.name| <= DIRSIZ
    modifies img
    ensures |img.own| == |old(img.own)| && (ok ==> img.Sound() && img.freeinode == old(img.freeinode) + 1)
  {
    hide Image.Sound, Dirent;
    var inum;
    ok, inum := img.Ialloc(T_FILE);
    if ok {
      ok := img.Iappend(ROOTINO, Dirent(inum, f.name));
    }
    if ok {
      ok := AppendFile(img, inum, f.bytes);
    }
  }

  lemma HoldsStill(d: Disk, d': Disk, i: int, q: int, bytes: seq<int>)
    requires OthersSame(d, d', i) && Contains(d, q, bytes) && q != i
    ensures Contains(d', q, bytes)
  {
  }

  /** A change to a file that is new changes no older one. */
  lemma OthersOlder(d: Disk, d1: Disk, d2: Disk, i: int, new': int)
    requires OthersSame(d, d1, i) && OthersSame(d1, d2, new') && new' >= |d.inodes|
    ensures OthersSame(d, d2, i)
  {
  }

  // ---------------------------------------------------------------- the whole image

  ghost predicate HasFiles(d: Disk, files: seq<File>, k: nat)
    requires k <= |files|
  {
    forall j :: 0 <= j < k ==> Contains(d, j + 2, files[j].bytes)
  }

  /** The root directory starts with the entries of all files and is rounded up to a whole number of blocks. */
  ghost predicate Listed(d: Disk, files: seq<File>) {
    && (forall j :: 0 <= j < |files| ==> Suits(files[j])) && ROOTINO < |d.inodes|
    && var s := Listing(files, |files|);
       && d.inodes[ROOTINO].size == (|s| / BSIZE + 1) * BSIZE
       && forall o :: 0 <= o < |s| ==> ByteAt(d, ROOTINO, o) == s[o]
  }

  lemma NextTotal(files: seq<File>, k: nat)
    requires k < |files|
    ensures Total(files, k + 1) == Total(files, k) + FileBlocks(|files[k].bytes|)
  {
  }

  lemma NextListing(files: seq<File>, k: nat)
    requires k < |files| && forall j :: 0 <= j <= k ==> Suits(files[j])
    ensures Listing(files, k + 1) == Listing(files, k) + Dirent(k + 2, files[k].name)
  {
  }

  lemma FilesStay(d: Disk, d': Disk, files: seq<File>, k: nat)
    requires k < |files| && HasFiles(d, files, k) && OthersSame(d, d', ROOTINO)
    requires Contains(d', k + 2, files[k].bytes)
    ensures HasFiles(d', files, k + 1)
  {
    hide Contains;
    forall j | 0 <= j < k ensures Contains(d', j + 2, files[j].bytes) {
      HoldsStill(d, d', ROOTINO, j + 2, files[j].bytes);
    }
  }

  lemma FilesResaved(d: Disk, d': Disk, files: seq<File>)
    requires HasFiles(d, files, |files|) && |d'.inodes| == |d.inodes|
    requires forall q :: 0 <= q < |d.inodes| && q != ROOTINO ==> d'.inodes[q].size == d.inodes[q].size
    requires forall q, o :: 0 <= q < |d.inodes| && 0 <= o < MAXFILE * BSIZE ==> ByteAt(d', q, o) == ByteAt(d, q, o)
    ensures HasFiles(d', files, |files|)
  {
    hide ByteAt;
    forall j | 0 <= j < |files| ensures Contains(d', j + 2, files[j].bytes) {
      assert Contains(d, j + 2, files[j].bytes);
      forall o | 0 <= o < |files[j].bytes| ensures ByteAt(d', j + 2, o) == files[j].bytes[o] {
        assert ByteAt(d, j + 2, o) == files[j].bytes[o];
      }
    }
  }

  lemma SameBytes(d: Disk, d': Disk, i: int, bytes: seq<int>)
    requires Contains(d, i, bytes) && |d'.inodes| == |d.inodes|
    requires forall q, o :: 0 <= q < |d.inodes| && 0 <= o < MAXFILE * BSIZE ==> ByteAt(d', q, o) == ByteAt(d, q, o)
    ensures forall o :: 0 <= o < |bytes| ==> ByteAt(d', i, o) == bytes[o]
  {
    hide ByteAt;
    forall o | 0 <= o < |bytes| ensures ByteAt(d', i, o) == bytes[o] {
      assert ByteAt(d, i, o) == bytes[o];
    }
  }

  lemma RootListed(d: Disk, d': Disk, files: seq<File>)
    requires (forall j :: 0 <= j < |files| ==> Suits(files[j])) && |d'.inodes| == |d.inodes|
    requires Contains(d, ROOTINO, Listing(files, |files|))
    requires d'.inodes[ROOTINO].size == (d.inodes[ROOTINO].size / BSIZE + 1) * BSIZE
    requires forall q, o :: 0 <= q < |d.inodes| && 0 <= o < MAXFILE * BSIZE ==> ByteAt(d', q, o) == ByteAt(d, q, o)
    ensures Listed(d', files)
  {
    hide ByteAt, Listing, Dirent, Suits;
    SameBytes(d, d', ROOTINO, Listing(files, |files|));
  }

  lemma NoRoom(files: seq<File>)
    ensures !Fits(files, NMETA)
  {
    TotalGrows(files, 0, |files|);
    FileBlocksGrow(DIRENT * 2, DIRENT * (|files| + 2));
  }

  lemma FirstListing(files: seq<File>)
    ensures Listing(files, 0) == Dirent(ROOTINO, [46]) + Dirent(ROOTINO, [46, 46])
    ensures Total(files, 0) == 0 && FileBlocks(DIRENT) == 1 && FileBlocks(DIRENT + DIRENT) == 1
  {
  }

  /** The root directory with its two entries. */
  method MakeRoot(img: Image, ghost files: seq<File>) returns (ok: bool)
    requires img.Sound() && img.freeinode == 1 && AllSnug(img.D())
    modifies img
    ensures ok <==> old(img.freeblock) + 1 <= |img.own|
    ensures |img.own| == |old(img.own)|
    ensures ok ==> img.Sound() && AllSnug(img.D()) && img.freeinode == 2 && img.freeblock == old(img.freeblock) + 1
    ensures ok ==> Contains(img.D(), ROOTINO, Listing(files, 0))
    ensures ok ==> Slot(img.D(), ROOTINO, 0) == old(img.freeblock)
  {
    hide Image.Sound, AllSnug, Contains, OthersSame, FileBlocks, Dirent, Listing, DiskOk, InOrder, OnlyGrows, RootAt;
    FirstListing(files);
    NothingTaken();
    Bounds(img);
    NewFile(img.D(), -1);
    var root;
    ok, root := img.Ialloc(T_DIR);
    ghost var d := img.D();
    Bounds(img);
    ok := AppendTo(img, root, [], Dirent(root, [46]));
    if ok {
      Bounds(img);
      SnugFirst(d, root, []);
      SnugFirst(img.D(), root, [] + Dirent(root, [46]));
      FirstBlock(d, img.D(), root, old(img.freeblock));
      ghost var d1 := img.D();
      assert [] + Dirent(root, [46]) == Dirent(root, [46]);
      ok := AppendTo(img, root, Dirent(root, [46]), Dirent(root, [46, 46]));
      if ok {
        Bounds(img);
        SlotsStay(d1, img.D(), root, root, 0);
      }
    }
  }

  lemma SnugFirst(d: Disk, i: int, bytes: seq<int>)
    requires AllSnug(d) && Contains(d, i, bytes)
    ensures Slot(d, i, 0) != 0 <==> bytes != []
  {
    hide Slot;
    assert SnugTo(d, i, d.inodes[i].size);
  }

  /** The image before the root directory's size is fixed, with no inode past the bitmap block. */
  method Populate(size: int, files: seq<File>) returns (ok: bool, img: Image)
    requires NMETA <= size < BPB && |files| <= AREA - 2
    ensures fresh(img) && (ok <==> Fits(files, size))
    ensures ok ==> img.Sound() && AllSnug(img.D()) && img.freeinode == |files| + 2 && |img.own| == size
    ensures ok ==> HasFiles(img.D(), files, |files|) && forall j :: 0 <= j < |files| ==> Suits(files[j])
    ensures ok ==> Contains(img.D(), ROOTINO, Listing(files, |files|)) && RootAt(img.D())
  {
    hide Image.Sound, AllSnug, Contains, OthersSame, FileBlocks, Dirent, Listing, Total, Fits, HasFiles, DiskOk, Slot;
    img := new Image(size);
    FirstListing(files);
    ok := MakeRoot(img, files);
    if !ok {
      NoRoom(files);
      return;
    }
    NoFiles(img.D(), files);
    var k := 0;
    while k < |files|
      invariant 0 <= k <= |files| && img.Sound() && AllSnug(img.D()) && RootAt(img.D())
      invariant img.freeinode == k + 2 && |img.own| == size && forall j :: 0 <= j < k ==> Suits(files[j])
      invariant img.freeblock == NMETA + Total(files, k) + FileBlocks(DIRENT * (k + 2))
      invariant Contains(img.D(), ROOTINO, Listing(files, k)) && HasFiles(img.D(), files, k)
    {
      ghost var d := img.D();
      ok := AddFile(img, files[k], Listing(files, k));
      NextTotal(files, k);
      if !ok {
        TooMuch(files, size, k);
        return;
      }
      FilesStay(d, img.D(), files, k);
      NextListing(files, k);
      k := k + 1;
    }
    Bounds(img);
    AllFit(files, size);
    ok := true;
  }

  /** mkfs. Up to 222 files it succeeds exactly if all names and files are as they should be and fit on the disk; the
      image then holds all of them and satisfies the kernel's invariant for blocks, and only the root directory can have
      a hole. But its inodes are all there exactly if no file has one past the inode blocks, which mkfs does not look
      at: from the 207th file on, however many there are, the image is bad. */
  method MakeImage(size: int, files: seq<File>) returns (ok: bool, img: Image, bits: seq<seq<bv8>>)
    requires NMETA <= size < BPB
    ensures |files| <= AREA - 2 ==> (ok <==> Fits(files, size))
    ensures |files| <= AREA - 2 && ok ==> |img.inodes| == |files| + 2 && DiskOk(img.D()) && BitsOk(bits, img.own)
    ensures |files| <= AREA - 2 && ok ==> HasFiles(img.D(), files, |files|) && Listed(img.D(), files)
    ensures |files| <= AREA - 2 && ok ==>
              && (NoneHasHoles(img.D()) <==> DIRENT * (|files| + 2) % BSIZE != 0)
              && forall q :: 2 <= q < |files| + 2 ==> NoHoles(img.D(), q)
    ensures ok ==> (OnImage(img.area, img.kinds, img.inodes) <==> |files| <= INODES - 2)
  {
    hide Image.Sound, AllSnug, Contains, OthersSame, FileBlocks, Dirent, Listing, Total, Fits, HasFiles, Listed;
    hide BitsOk, OnImage, DiskOk, ByteAt, NoHoles, NoneHasHoles, RootAt;
    bits := [];
    var n := FileIo.Min(|files|, AREA - 2);
    var first := files[..n];
    assert n == |files| ==> first == files;
    ok, img := Populate(size, first);
    if !ok {
      return;
    }
    ghost var d := img.D();
    Bounds(img);
    SizeIs(d, ROOTINO, Listing(first, n));
    var k := n;
    while k < |files|
      invariant n <= k <= |files| && img.Sound() && img.freeinode == k + 2 && (k == n ==> img.D() == d) && fresh(img)
    {
      Bounds(img);
      ok := AddFile(img, files[k], []);
      if !ok {
        return;
      }
      k := k + 1;
    }
    Bounds(img);
    img.FixRootSize(ROOTINO);
    if n == |files| {
      FilesResaved(d, img.D(), files);
      RootListed(d, img.D(), files);
    }
    ok, bits := img.Balloc();
  }

  /** The inode of a 223rd file is written over the first entries of the root directory: its first byte, which said that
      the directory itself is inode 1, becomes the kind of that inode. */
  method RootLost(size: int, files: seq<File>) returns (ok: bool, img: Image)
    requires NMETA <= size < BPB && |files| == AREA - 2 && Fits(files, size)
    ensures ok && ROOTINO < |img.inodes| && ByteAt(img.D(), ROOTINO, 0) == T_FILE
    ensures forall o :: 0 <= o < 64 ==> ByteAt(img.D(), ROOTINO, o) == NewBytes(T_FILE)[o]
  {
    hide Image.Sound, AllSnug, Contains, Listing, Fits, HasFiles, DiskOk, Slot, ByteAt, NewBytes, Spliced;
    ok, img := Populate(size, files);
    Bounds(img);
    ghost var d := img.D();
    var inum;
    NmetaInside(d);
    ok, inum := img.Ialloc(T_FILE);
    forall o | 0 <= o < 64 ensures ByteAt(img.D(), ROOTINO, o) == NewBytes(T_FILE)[o] {
      BytesOverwritten(d, img.D(), ROOTINO, NMETA, 0, T_FILE, o);
    }
    KindByte(T_FILE);
  }

  lemma NmetaInside(d: Disk)
    requires DiskOk(d) && RootAt(d) && ROOTINO < |d.inodes|
    ensures NMETA < |d.own| == |d.data|
  {
    assert SlotOk(d, ROOTINO, 0);
  }

  lemma KindByte(kind: int)
    requires 0 <= kind < 256
    ensures NewBytes(kind)[0] == kind
  {
  }

  /** A file of a good image, mounted from what is on it, reads back as it went in. */
  method ReadBack(size: int, files: seq<File>, k: int) returns (bytes: seq<int>)
    requires NMETA <= size < BPB && Fits(files, size) && |files| <= INODES - 2 && 0 <= k < |files|
    ensures bytes == files[k].bytes
  {
    hide Image.Sound, BitsOk, DiskOk, ByteAt, NoneHasHoles, NoHoles, Listed, Slot, Fits, Total;
    var ok, img, bits := MakeImage(size, files);
    var nodes := Nodes(img.inodes[0], img.area, |files| + 2);
    assert nodes == img.inodes;
    ghost var d := img.D();
    assert Contains(d, k + 2, files[k].bytes);
    var n := |files[k].bytes|;
    var fs := new FileSystem(bits, img.data, img.ptrs, nodes, img.own);
    var tot;
    tot, bytes := fs.Readi(k + 2, 0, 0, n, n / PhysMem.PGSIZE + 1);
    ReadIs(d, k + 2, files[k].bytes, bytes);
  }

  /** The first n inodes on the image. */
  function Nodes(zero: Inode, area: seq<DInode>, n: nat): (s: seq<Inode>)
    requires 0 < n <= |area|
    ensures |s| == n && s[0] == zero && forall q :: 1 <= q < n ==> s[q] == area[q].node
  {
    [zero] + seq(n - 1, q requires 0 <= q < n - 1 => area[q + 1].node)
  }

  lemma ReadIs(d: Disk, i: int, bytes: seq<int>, got: seq<int>)
    requires Contains(d, i, bytes) && IsRead(d, i, 0, got) && |got| == |bytes|
    ensures got == bytes
  {
    hide ByteAt;
    forall o | 0 <= o < |got| ensures got[o] == bytes[o] {
      assert ByteAt(d, i, o) == bytes[o];
    }
  }

  lemma NoFiles(d: Disk, files: seq<File>)
    ensures HasFiles(d, files, 0)
  {
  }

  lemma AllFit(files: seq<File>, size: int)
    requires forall j :: 0 <= j < |files| ==> Suits(files[j])
    ensures Fits(files, size) <==> NMETA + Total(files, |files|) + FileBlocks(DIRENT * (|files| + 2)) <= size
  {
  }

  lemma {:induction false} EmptyFilesTakeNothing(files: seq<File>, k: nat)
    requires k <= |files| && forall j :: 0 <= j < |files| ==> files[j].bytes == []
    ensures Total(files, k) == 0
  {
    if k > 0 {
      EmptyFilesTakeNothing(files, k - 1);
    }
  }

  /** 207 empty files: mkfs succeeds, and the inode of the last one is not on the image. */
  method ManyFiles() returns (img: Image)
    ensures |img.inodes| == 209 && !OnImage(img.area, img.kinds, img.inodes)
  {
    hide HasFiles, Listed, BitsOk, DiskOk, OnImage;
    var files := seq(207, _ => File([97], []));
    EmptyFilesTakeNothing(files, 207);
    var ok, bits;
    ok, img, bits := MakeImage(2000, files);
  }

  /** 62 empty files: the root directory fills its block, and rounding up its size adds one that does not exist. */
  method RootHasAHole() returns (img: Image)
    ensures |img.inodes| == 64 && OnImage(img.area, img.kinds, img.inodes) && !NoneHasHoles(img.D())
  {
    hide HasFiles, Listed, BitsOk, DiskOk, OnImage, NoneHasHoles, NoHoles;
    var files := seq(62, _ => File([97], []));
    EmptyFilesTakeNothing(files, 62);
    var ok, bits;
    ok, img, bits := MakeImage(2000, files);
  }
}
