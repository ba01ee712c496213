/**
 The table of open files, the descriptor slots of all processes, and the pipes
 and inodes that file entries refer to.

 `held` counts references in a system call's local variables: between system
 calls it is zero everywhere.
 */
module FileTable {

  const NOFILE: int := 16
  const EMPTY: int := -1

  datatype Kind = None | Pipe(pi: int, writable: bool) | Inode(ip: int)
  datatype File = File(ref: int, kind: Kind)
  datatype Ends = Ends(readopen: bool, writeopen: bool)

  // ---------------------------------------------------------------- counting

  function One(b: bool): int { if b then 1 else 0 }

  /** How many descriptor slots point to file f. */
  function Count(slots: seq<int>, f: int): int {
    if slots == [] then 0 else One(slots[0] == f) + Count(slots[1..], f)
  }

  lemma {:induction false} CountUpdate(slots: seq<int>, k: int, x: int, f: int)
    requires 0 <= k < |slots|
    ensures Count(slots[k := x], f) == Count(slots, f) - One(slots[k] == f) + One(x == f)
  {
    if k > 0 {
      CountUpdate(slots[1..], k - 1, x, f);
      assert slots[k := x][1..] == slots[1..][k - 1 := x];
    } else {
      assert slots[0 := x][1..] == slots[1..];
    }
  }

  lemma {:induction false} CountPositive(slots: seq<int>, f: int)
    ensures Count(slots, f) >= 0
    ensures Count(slots, f) > 0 <==> f in slots
  {
    if slots != [] {
      CountPositive(slots[1..], f);
      assert f in slots <==> f == slots[0] || f in slots[1..];
    }
  }

  /** How many live file entries hold a reference to inode ip. */
  function Holders(files: seq<File>, ip: int): int {
    if files == [] then 0 else One(files[0].kind == Inode(ip)) + Holders(files[1..], ip)
  }

  lemma {:induction false} HoldersUpdate(files: seq<File>, k: int, x: File, ip: int)
    requires 0 <= k < |files|
    ensures Holders(files[k := x], ip) ==
        Holders(files, ip) - One(files[k].kind == Inode(ip)) + One(x.kind == Inode(ip))
  {
    if k > 0 {
      HoldersUpdate(files[1..], k - 1, x, ip);
      assert files[k := x][1..] == files[1..][k - 1 := x];
    } else {
      assert files[0 := x][1..] == files[1..];
    }
  }

  // ---------------------------------------------------------------- the invariant

  datatype T = T(files: seq<File>, slots: seq<int>, ends: seq<Ends>, irefs: seq<int>, held: seq<int>, others: seq<int>)

  /** A file's reference count is the number of slots and local variables that refer to it; a free entry has no type. */
  predicate FileOk(t: T, f: int)
    requires 0 <= f < |t.files| == |t.held|
  {
    && t.files[f].ref == Count(t.slots, f) + t.held[f] && 0 <= t.held[f]
    && (t.files[f].ref == 0 ==> t.files[f].kind == None)
    && (t.files[f].kind.Pipe? ==>
          0 <= t.files[f].kind.pi < |t.ends| && Open(t.ends[t.files[f].kind.pi], t.files[f].kind.writable))
    && (t.files[f].kind.Inode? ==> 0 <= t.files[f].kind.ip < |t.irefs|)
  }

  function Open(e: Ends, writable: bool): bool { if writable then e.writeopen else e.readopen }

  /** No two entries are the same end of one pipe. */
  predicate Apart(t: T, f: int, g: int)
    requires 0 <= f < |t.files| && 0 <= g < |t.files|
  {
    f != g && t.files[f].kind.Pipe? ==> t.files[g].kind != t.files[f].kind
  }

  /** An inode's reference count is the number of file entries that hold it, plus references held elsewhere. */
  predicate InodeOk(t: T, ip: int)
    requires 0 <= ip < |t.irefs| == |t.others|
  {
    t.irefs[ip] == Holders(t.files, ip) + t.others[ip] && 0 <= t.others[ip]
  }

  ghost predicate Inv(t: T) {
    && |t.held| == |t.files| && |t.irefs| == |t.others|
    && (forall k :: 0 <= k < |t.slots| ==> t.slots[k] == EMPTY || 0 <= t.slots[k] < |t.files|)
    && (forall f :: 0 <= f < |t.files| ==> FileOk(t, f))
    && (forall f, g :: 0 <= f < |t.files| && 0 <= g < |t.files| ==> Apart(t, f, g))
    && (forall ip :: 0 <= ip < |t.irefs| ==> InodeOk(t, ip))
  }

  // ---------------------------------------------------------------- steps

  /** The reference count of f and the number of local references to it change together. */
  function Refs(t: T, f: int, n: int): T
    requires 0 <= f < |t.files| == |t.held|
  {
    t.(files := t.files[f := t.files[f].(ref := t.files[f].ref + n)], held := t.held[f := t.held[f] + n])
  }

  lemma SameHolders(files: seq<File>, f: int, x: File)
    requires 0 <= f < |files| && x.kind == files[f].kind
    ensures forall ip :: Holders(files[f := x], ip) == Holders(files, ip)
  {
    forall ip ensures Holders(files[f := x], ip) == Holders(files, ip) {
      HoldersUpdate(files, f, x, ip);
    }
  }

  /** Taking one more local reference, or dropping one of several. */
  lemma RefsKeep(t: T, f: int, n: int)
    requires Inv(t) && 0 <= f < |t.files| && 0 <= t.held[f] + n
    requires t.files[f].ref + n > 0 || t.files[f].kind == None
    ensures Inv(Refs(t, f, n))
  {
    var t' := Refs(t, f, n);
    SameHolders(t.files, f, t'.files[f]);
    forall g | 0 <= g < |t.files| ensures FileOk(t', g) {
      assert FileOk(t, g);
    }
    forall g, h | 0 <= g < |t.files| && 0 <= h < |t.files| ensures Apart(t', g, h) {
      assert Apart(t, g, h);
    }
    forall ip | 0 <= ip < |t.irefs| ensures InodeOk(t', ip) {
      assert InodeOk(t, ip);
    }
  }

  /** A local reference moves into an empty slot. */
  function Stored(t: T, k: int, f: int): T
    requires 0 <= k < |t.slots| && 0 <= f < |t.held|
  {
    t.(slots := t.slots[k := f], held := t.held[f := t.held[f] - 1])
  }

  lemma StoredKeeps(t: T, k: int, f: int)
    requires Inv(t) && 0 <= k < |t.slots| && t.slots[k] == EMPTY && 0 <= f < |t.files| && t.held[f] > 0
    ensures Inv(Stored(t, k, f))
  {
    var t' := Stored(t, k, f);
    forall g | 0 <= g < |t.files| ensures FileOk(t', g) {
      assert FileOk(t, g);
      CountUpdate(t.slots, k, f, g);
    }
    forall g, h | 0 <= g < |t.files| && 0 <= h < |t.files| ensures Apart(t', g, h) {
      assert Apart(t, g, h);
    }
    forall ip | 0 <= ip < |t.irefs| ensures InodeOk(t', ip) {
      assert InodeOk(t, ip);
    }
  }

  /** A slot's reference moves into a local variable. */
  function Fetched(t: T, k: int): T
    requires 0 <= k < |t.slots| && 0 <= t.slots[k] < |t.held|
  {
    t.(slots := t.slots[k := EMPTY], held := t.held[t.slots[k] := t.held[t.slots[k]] + 1])
  }

  lemma FetchedKeeps(t: T, k: int)
    requires Inv(t) && 0 <= k < |t.slots| && t.slots[k] != EMPTY
    ensures 0 <= t.slots[k] < |t.held| && Inv(Fetched(t, k))
  {
    var t' := Fetched(t, k);
    forall g | 0 <= g < |t.files| ensures FileOk(t', g) {
      assert FileOk(t, g);
      CountUpdate(t.slots, k, EMPTY, g);
    }
    forall g, h | 0 <= g < |t.files| && 0 <= h < |t.files| ensures Apart(t', g, h) {
      assert Apart(t, g, h);
    }
    forall ip | 0 <= ip < |t.irefs| ensures InodeOk(t', ip) {
      assert InodeOk(t, ip);
    }
  }

  /** The last reference goes: the entry becomes free, and the pipe end or inode reference it held is released. */
  function Closed(t: T, f: int): T
    requires 0 <= f < |t.files| == |t.held|
  {
    var k := t.files[f].kind;
    var t1 := t.(files := t.files[f := File(0, None)], held := t.held[f := 0]);
    if k.Pipe? && 0 <= k.pi < |t.ends| then t1.(ends := t.ends[k.pi := Shut(t.ends[k.pi], k.writable)])
    else if k.Inode? && 0 <= k.ip < |t.irefs| then t1.(irefs := t.irefs[k.ip := t.irefs[k.ip] - 1])
    else t1
  }

  function Shut(e: Ends, writable: bool): Ends {
    if writable then e.(writeopen := false) else e.(readopen := false)
  }

  lemma ClosedKeeps(t: T, f: int)
    requires Inv(t) && 0 <= f < |t.files| && t.files[f].ref == 1 && t.held[f] == 1
    ensures Inv(Closed(t, f))
    ensures t.files[f].kind.Pipe? ==>
              0 <= t.files[f].kind.pi < |t.ends| && Open(t.ends[t.files[f].kind.pi], t.files[f].kind.writable)
  {
    var t' := Closed(t, f);
    assert FileOk(t, f);
    forall g | 0 <= g < |t.files| ensures FileOk(t', g) {
      assert FileOk(t, g) && Apart(t, f, g) && Apart(t, g, f);
    }
    forall g, h | 0 <= g < |t.files| && 0 <= h < |t.files| ensures Apart(t', g, h) {
      assert Apart(t, g, h);
    }
    forall ip | 0 <= ip < |t.irefs| ensures InodeOk(t', ip) {
      assert InodeOk(t, ip);
      HoldersUpdate(t.files, f, File(0, None), ip);
    }
  }

  /** A fresh entry is given its type: an end of a new pipe, or an inode whose reference the caller hands over. */
  function Typed(t: T, f: int, k: Kind): T
    requires 0 <= f < |t.files|
  {
    t.(files := t.files[f := t.files[f].(kind := k)])
  }

  lemma TypedPipeKeeps(t: T, f: int, pi: int, writable: bool)
    requires Inv(t) && 0 <= f < |t.files| && t.held[f] > 0 && t.files[f].kind == None
    requires 0 <= pi < |t.ends| && Open(t.ends[pi], writable) && forall g :: 0 <= g < |t.files| ==>
        t.files[g].kind != Pipe(pi, writable)
    ensures Inv(Typed(t, f, Pipe(pi, writable)))
  {
    var t' := Typed(t, f, Pipe(pi, writable));
    forall g | 0 <= g < |t.files| ensures FileOk(t', g) {
      assert FileOk(t, g);
      CountPositive(t.slots, g);
    }
    forall g, h | 0 <= g < |t.files| && 0 <= h < |t.files| ensures Apart(t', g, h) {
      assert Apart(t, g, h);
    }
    forall ip | 0 <= ip < |t.irefs| ensures InodeOk(t', ip) {
      assert InodeOk(t, ip);
      HoldersUpdate(t.files, f, t'.files[f], ip);
    }
  }

  lemma TypedInodeKeeps(t: T, f: int, ip: int)
    requires Inv(t) && 0 <= f < |t.files| && t.files[f].ref > 0 && t.files[f].kind == None
    requires 0 <= ip < |t.irefs| && t.others[ip] > 0
    ensures Inv(Typed(t, f, Inode(ip)).(others := t.others[ip := t.others[ip] - 1]))
  {
    var t' := Typed(t, f, Inode(ip)).(others := t.others[ip := t.others[ip] - 1]);
    forall g | 0 <= g < |t.files| ensures FileOk(t', g) {
      assert FileOk(t, g);
    }
    forall g, h | 0 <= g < |t.files| && 0 <= h < |t.files| ensures Apart(t', g, h) {
      assert Apart(t, g, h);
    }
    forall i | 0 <= i < |t.irefs| ensures InodeOk(t', i) {
      assert InodeOk(t, i);
      HoldersUpdate(t.files, f, t'.files[f], i);
    }
  }

  /** A new pipe with both ends open, to which nothing refers yet. */
  lemma NewPipeKeeps(t: T)
    requires Inv(t)
    ensures Inv(t.(ends := t.ends + [Ends(true, true)]))
    ensures forall f, w :: 0 <= f < |t.files| ==> t.files[f].kind != Pipe(|t.ends|, w)
  {
    var t' := t.(ends := t.ends + [Ends(true, true)]);
    forall g | 0 <= g < |t.files| ensures FileOk(t', g) {
      assert FileOk(t, g);
    }
    forall g, h | 0 <= g < |t.files| && 0 <= h < |t.files| ensures Apart(t', g, h) {
      assert Apart(t, g, h);
    }
    forall i | 0 <= i < |t.irefs| ensures InodeOk(t', i) {
      assert InodeOk(t, i);
    }
    forall f, w | 0 <= f < |t.files| ensures t.files[f].kind != Pipe(|t.ends|, w) {
      assert FileOk(t, f);
    }
  }

  // ---------------------------------------------------------------- ends of pipes

  ghost predicate IsEnd(files: seq<File>, pi: int, writable: bool) {
    exists f :: 0 <= f < |files| && files[f].kind == Pipe(pi, writable)
  }

  /** Every open end is some entry. */
  ghost predicate EndsOk(files: seq<File>, ends: seq<Ends>) {
    forall pi, w :: 0 <= pi < |ends| && Open(ends[pi], w) ==> IsEnd(files, pi, w)
  }

  lemma EndsKept(files: seq<File>, files': seq<File>, ends: seq<Ends>)
    requires EndsOk(files, ends) && |files'| == |files|
    requires forall f :: 0 <= f < |files| && files[f].kind.Pipe? ==> files'[f].kind == files[f].kind
    ensures EndsOk(files', ends)
  {
    forall pi, w | 0 <= pi < |ends| && Open(ends[pi], w) ensures IsEnd(files', pi, w) {
      var f :| 0 <= f < |files| && files[f].kind == Pipe(pi, w);
      assert files'[f].kind == Pipe(pi, w);
    }
  }

  lemma EndsShut(t: T, f: int)
    requires Inv(t) && EndsOk(t.files, t.ends) && 0 <= f < |t.files|
    ensures EndsOk(Closed(t, f).files, Closed(t, f).ends)
  {
    var t' := Closed(t, f);
    assert FileOk(t, f);
    forall pi, w | 0 <= pi < |t'.ends| && Open(t'.ends[pi], w) ensures IsEnd(t'.files, pi, w) {
      assert Open(t.ends[pi], w);
      var g :| 0 <= g < |t.files| && t.files[g].kind == Pipe(pi, w);
      assert t'.files[g].kind == Pipe(pi, w);
    }
  }

  /** Some descriptor refers to the end. */
  ghost predicate Referred(files: seq<File>, slots: seq<int>, pi: int, writable: bool) {
    exists k :: 0 <= k < |slots| && 0 <= slots[k] < |files| && files[slots[k]].kind == Pipe(pi, writable)
  }

  /** The open ends are exactly those that descriptors refer to. */
  ghost predicate EndsAre(files: seq<File>, slots: seq<int>, ends: seq<Ends>) {
    forall pi, w :: 0 <= pi < |ends| ==> (Open(ends[pi], w) <==> Referred(files, slots, pi, w))
  }

  lemma OpenIsReferred(t: T)
    requires Inv(t) && EndsOk(t.files, t.ends) && NoneHeld(t.held)
    ensures EndsAre(t.files, t.slots, t.ends)
  {
    forall pi, w | 0 <= pi < |t.ends| ensures Open(t.ends[pi], w) <==> Referred(t.files, t.slots, pi, w) {
      if Open(t.ends[pi], w) {
        assert IsEnd(t.files, pi, w);
        var f :| 0 <= f < |t.files| && t.files[f].kind == Pipe(pi, w);
        assert FileOk(t, f);
        CountPositive(t.slots, f);
        assert f in t.slots;
      }
      if Referred(t.files, t.slots, pi, w) {
        var k :| 0 <= k < |t.slots| && 0 <= t.slots[k] < |t.files| && t.files[t.slots[k]].kind == Pipe(pi, w);
        assert FileOk(t, t.slots[k]);
      }
    }
  }

  /** The entries that descriptors refer to are of the same kind as before. */
  ghost predicate KindsKept(files: seq<File>, files': seq<File>, slots: seq<int>) {
    && |files'| == |files|
    && forall k :: 0 <= k < |slots| && 0 <= slots[k] < |files| ==> files'[slots[k]].kind == files[slots[k]].kind
  }

  lemma KindsSame(files: seq<File>, slots: seq<int>)
    ensures KindsKept(files, files, slots)
  {
  }

  lemma KindsMore(files: seq<File>, files1: seq<File>, files2: seq<File>, slots: seq<int>, k: int)
    requires KindsKept(files, files1, slots) && 0 <= k < |slots| && KindsKept(files1, files2, slots[k := EMPTY])
    ensures KindsKept(files, files2, slots[k := EMPTY])
  {
    var slots' := slots[k := EMPTY];
    forall j | 0 <= j < |slots'| && 0 <= slots'[j] < |files| ensures files2[slots'[j]].kind == files[slots'[j]].kind {
      assert slots'[j] == slots[j];
    }
  }

  lemma SameEnds(files: seq<File>, files': seq<File>, slots: seq<int>, ends: seq<Ends>)
    requires KindsKept(files, files', slots) && EndsAre(files', slots, ends)
    ensures EndsAre(files, slots, ends)
  {
    forall pi, w | 0 <= pi < |ends| ensures Referred(files, slots, pi, w) <==> Referred(files', slots, pi, w) {
      if Referred(files, slots, pi, w) {
        var k :| 0 <= k < |slots| && 0 <= slots[k] < |files| && files[slots[k]].kind == Pipe(pi, w);
        assert files'[slots[k]].kind == Pipe(pi, w);
      }
      if Referred(files', slots, pi, w) {
        var k :| 0 <= k < |slots| && 0 <= slots[k] < |files'| && files'[slots[k]].kind == Pipe(pi, w);
        assert files[slots[k]].kind == Pipe(pi, w);
      }
    }
  }

  // ---------------------------------------------------------------- the operations

  predicate NoneHeld(held: seq<int>) { forall f :: 0 <= f < |held| ==> held[f] == 0 }

  /** The slots of process p. */
  predicate SlotOf(slots: seq<int>, p: int, k: int) { 0 <= p && p * NOFILE <= k < (p + 1) * NOFILE <= |slots| }

  /** Process p has no empty slot. */
  ghost predicate SlotsFull(slots: seq<int>, p: int) { forall j :: SlotOf(slots, p, j) ==> slots[j] != EMPTY }

  ghost predicate TwoSlots(slots: seq<int>, p: int) {
    exists j, k :: SlotOf(slots, p, j) && SlotOf(slots, p, k) && j != k && slots[j] == EMPTY && slots[k] == EMPTY
  }

  /** Every entry of the file table is in use. */
  ghost predicate FilesFull(files: seq<File>) { forall f :: 0 <= f < |files| ==> files[f].ref != 0 }

  ghost predicate TwoFree(files: seq<File>) {
    exists f, g :: 0 <= f < |files| && 0 <= g < |files| && f != g && files[f].ref == 0 && files[g].ref == 0
  }

  class Files {
    var files: seq<File>
    var slots: seq<int>
    var ends: seq<Ends>
    var irefs: seq<int>
    ghost var held: seq<int>
    ghost var others: seq<int>

    ghost function S(): T
      reads this
    {
      T(files, slots, ends, irefs, held, others)
    }

    ghost predicate Valid()
      reads this
    {
      Inv(S()) && EndsOk(files, ends)
    }

    /** Between system calls. */
    ghost predicate Settled()
      reads this
    {
      Valid() && NoneHeld(held)
    }

    constructor (nfile: nat, nproc: nat, irefs: seq<int>)
      requires forall ip :: 0 <= ip < |irefs| ==> 0 <= irefs[ip]
      ensures Settled() && |files| == nfile && |slots| == nproc * NOFILE && ends == []
      ensures this.irefs == irefs && others == irefs
    {
      files, slots := seq(nfile, _ => File(0, None)), seq(nproc * NOFILE, _ => EMPTY);
      ends, this.irefs := [], irefs;
      held, others := seq(nfile, _ => 0), irefs;
      new;
      NothingOpen(S());
    }

    /** iget and idup: a reference to an inode that no file entry holds yet. */
    method Iget(ip: int)
      requires Settled() && 0 <= ip < |irefs|
      modifies `irefs, `others
      ensures Settled() && |old(others)| == |old(irefs)|
      ensures irefs == old(irefs)[ip := old(irefs)[ip] + 1] && others == old(others)[ip := old(others)[ip] + 1]
      ensures others[ip] > 0
    {
      hide FileOk, Apart;
      assert InodeOk(S(), ip);
      TakeInode(S(), ip, 1);
      irefs := irefs[ip := irefs[ip] + 1];
      others := others[ip := others[ip] + 1];
    }

    /** iput of such a reference. */
    method Iput(ip: int)
      requires Settled() && 0 <= ip < |irefs| && |others| == |irefs| && others[ip] > 0
      modifies `irefs, `others
      ensures Settled()
      ensures irefs == old(irefs)[ip := old(irefs)[ip] - 1] && others == old(others)[ip := old(others)[ip] - 1]
    {
      hide FileOk, Apart, InodeOk;
      TakeInode(S(), ip, -1);
      irefs := irefs[ip := irefs[ip] - 1];
      others := others[ip := others[ip] - 1];
    }

    /** filealloc: a free entry with one reference, or -1. */
    method Filealloc() returns (f: int)
      requires Valid()
      modifies `files, `held
      ensures Valid() && -1 <= f < |files|
      ensures f == -1 <==> FilesFull(old(files))
      ensures f == -1 ==> S() == old(S())
      ensures f != -1 ==> 0 <= f < |old(files)| == |old(held)| && Unused(old(S()), f) && S() == Refs(old(S()), f, 1)
    {
      hide FileOk, Apart, InodeOk;
      f := 0;
      while f < |files|
        invariant 0 <= f <= |files| && S() == old(S()) && forall g :: 0 <= g < f ==> files[g].ref != 0
      {
        if files[f].ref == 0 {
          FreeEntry(S(), f);
          RefsKeep(S(), f, 1);
          EndsKept(files, Refs(S(), f, 1).files, ends);
          files := files[f := files[f].(ref := 1)];
          held := held[f := held[f] + 1];
          return;
        }
        f := f + 1;
      }
      f := -1;
    }

    /** fileclose of a local reference; its panic is out of reach. */
    method Fileclose(f: int)
      requires Valid() && 0 <= f < |files| && |held| == |files| && held[f] > 0
      modifies `files, `ends, `irefs, `held
      ensures Valid()
      ensures S() == if old(files)[f].ref > 1 then Refs(old(S()), f, -1) else Closed(old(S()), f)
    {
      hide FileOk, Apart, InodeOk, Count, Holders;
      ghost var t := S();
      LiveEntry(t, f);
      assert files[f].ref >= 1;
      if files[f].ref > 1 {
        RefsKeep(t, f, -1);
        EndsKept(files, Refs(t, f, -1).files, ends);
        files := files[f := files[f].(ref := files[f].ref - 1)];
        held := held[f := held[f] - 1];
        return;
      }
      ClosedKeeps(t, f);
      EndsShut(t, f);
      ClosedInode(t, f);
      var ff := files[f];
      files := files[f := File(0, None)];
      held := held[f := 0];
      if ff.kind.Pipe? {
        ends := ends[ff.kind.pi := Shut(ends[ff.kind.pi], ff.kind.writable)];
      } else if ff.kind.Inode? {
        irefs := irefs[ff.kind.ip := irefs[ff.kind.ip] - 1];
      }
    }

    /** The search of fdalloc: the first empty slot of process p, or -1. */
    method FindSlot(p: int) returns (k: int)
      requires 0 <= p && (p + 1) * NOFILE <= |slots|
      ensures k == -1 <==> SlotsFull(slots, p)
      ensures k != -1 ==>
          SlotOf(slots, p, k) && slots[k] == EMPTY && forall j :: p * NOFILE <= j < k ==> slots[j] != EMPTY
    {
      k := p * NOFILE;
      while k < (p + 1) * NOFILE
        invariant p * NOFILE <= k <= (p + 1) * NOFILE && forall j :: p * NOFILE <= j < k ==> slots[j] != EMPTY
      {
        if slots[k] == EMPTY {
          return;
        }
        k := k + 1;
      }
      k := -1;
    }

    /** fdalloc: takes over the caller's reference on success. */
    method Fdalloc(p: int, f: int) returns (k: int)
      requires Valid() && 0 <= p && (p + 1) * NOFILE <= |slots| && 0 <= f < |files| && |held| == |files| && held[f] > 0
      modifies `slots, `held
      ensures Valid() && (k == -1 <==> SlotsFull(old(slots), p)) && (k == -1 ==> S() == old(S()))
      ensures k != -1 ==> SlotOf(old(slots), p, k) && old(slots)[k] == EMPTY && S() == Stored(old(S()), k, f)
    {
      hide FileOk, Apart, InodeOk;
      k := FindSlot(p);
      if k != -1 {
        StoredKeeps(S(), k, f);
        slots := slots[k := f];
        held := held[f := held[f] - 1];
      }
    }

    /** sys_dup on slot j of process p: the slot is filled before the count goes up. */
    method Dup(p: int, j: int) returns (k: int)
      requires Settled() && SlotOf(slots, p, j) && slots[j] != EMPTY
      modifies this
      ensures Settled() && (k == -1 <==> SlotsFull(old(slots), p)) && (k == -1 ==> S() == old(S()))
      ensures k != -1 ==> SlotOf(old(slots), p, k) && old(slots)[k] == EMPTY && slots == old(slots)[k := old(slots)[j]]
      ensures ends == old(ends) && irefs == old(irefs) && others == old(others)
    {
      hide FileOk, Apart, InodeOk, Count;
      ghost var t := S();
      var f := slots[j];
      SlotEntry(t, j);
      k := FindSlot(p);
      if k == -1 {
        return;
      }
      RefsKeep(t, f, 1);
      EndsKept(files, Refs(t, f, 1).files, ends);
      StoredKeeps(Refs(t, f, 1), k, f);
      slots := slots[k := f];
      assert files[f].ref >= 1;
      files := files[f := files[f].(ref := files[f].ref + 1)];
      assert held[f := held[f] + 1][f := held[f]] == held;
    }

    /** sys_close of slot k. The last descriptor of a pipe's end shuts that end, and nothing else. */
    method Close(k: int)
      requires Settled() && 0 <= k < |slots| && slots[k] != EMPTY
      modifies this
      ensures Settled() && slots == old(slots)[k := EMPTY] && others == old(others)
      ensures |ends| == |old(ends)| && EndsAre(old(files), slots, ends) && KindsKept(old(files), files, slots)
      ensures |old(held)| == |old(files)| && 0 <= old(slots)[k] < |old(files)|
      ensures |files| == |old(files)| && forall f :: 0 <= f < |files| && f != old(slots)[k] ==>
          files[f] == old(files)[f]
    {
      hide FileOk, Apart, InodeOk, Count, Holders;
      SlotEntry(S(), k);
      FetchedKeeps(S(), k);
      var f := slots[k];
      slots := slots[k := EMPTY];
      held := held[f := held[f] + 1];
      ghost var t := S();
      Fileclose(f);
      ClosedKinds(t, S(), f);
      OpenIsReferred(S());
      SameEnds(t.files, files, slots, ends);
    }

    /** kexit's loop over the descriptors of process p; a slot is emptied just before its file is closed. The ends of
        pipes that stay open are those that other processes have a descriptor for. */
    method CloseAll(p: int)
      requires Settled() && 0 <= p && (p + 1) * NOFILE <= |slots|
      modifies this
      ensures Settled() && |slots| == |old(slots)| && others == old(others)
      ensures forall j :: 0 <= j < |slots| ==> slots[j] == if SlotOf(slots, p, j) then EMPTY else old(slots)[j]
      ensures |ends| == |old(ends)| && EndsAre(old(files), slots, ends) && KindsKept(old(files), files, slots)
    {
      hide FileOk, Apart, InodeOk, Inv, EndsAre, EndsOk, KindsKept;
      KindsSame(files, slots);
      var k := p * NOFILE;
      while k < (p + 1) * NOFILE
        invariant p * NOFILE <= k <= (p + 1) * NOFILE && Settled() && |slots| == |old(slots)| && others == old(others)
        invariant forall j :: 0 <= j < |slots| ==> slots[j] == if p * NOFILE <= j < k then EMPTY else old(slots)[j]
        invariant |ends| == |old(ends)| && KindsKept(old(files), files, slots)
      {
        if slots[k] != EMPTY {
          ghost var files1, slots1 := files, slots;
          Close(k);
          KindsMore(old(files), files1, files, slots1, k);
        }
        k := k + 1;
      }
      OpenIsReferred(S());
      SameEnds(old(files), files, slots, ends);
    }

    /** kfork's loop: every open file of process p gets another reference, from the same descriptor of process q. */
    method DupAll(p: int, q: int)
      requires Settled() && 0 <= p && (p + 1) * NOFILE <= |slots| && 0 <= q && (q + 1) * NOFILE <= |slots| && p != q
      requires forall j :: SlotOf(slots, q, j) ==> slots[j] == EMPTY
      modifies this
      ensures Settled() && |slots| == |old(slots)| && ends == old(ends) && irefs == old(irefs) && others == old(others)
      ensures Copied(old(slots), slots, p * NOFILE, q * NOFILE, NOFILE)
    {
      hide FileOk, Apart, InodeOk, Inv, Copied;
      var i := 0;
      var from, to := p * NOFILE, q * NOFILE;
      assert from + NOFILE <= to || to + NOFILE <= from;
      forall j | to <= j < to + NOFILE ensures slots[j] == EMPTY {
        assert SlotOf(slots, q, j);
      }
      CopiedNone(slots, from, to);
      while i < NOFILE
        invariant 0 <= i <= NOFILE && Settled() && |slots| == |old(slots)| && ends == old(ends) && irefs == old(irefs)
        invariant others == old(others)
        invariant Copied(old(slots), slots, from, to, i)
      {
        ghost var now := slots;
        CopiedAt(old(slots), now, from, to, i);
        if slots[from + i] != EMPTY {
          DupOne(from + i, to + i);
        }
        assert slots == now[to + i := old(slots)[from + i]];
        CopiedMore(old(slots), now, slots, from, to, i);
        i := i + 1;
      }
    }

    /** One descriptor of the child, with one more reference to the file of the parent. */
    method DupOne(j: int, k: int)
      requires Settled() && 0 <= j < |slots| && slots[j] != EMPTY && 0 <= k < |slots| && slots[k] == EMPTY
      modifies `files, `slots
      ensures Settled() && slots == old(slots)[k := old(slots)[j]]
    {
      hide FileOk, Apart, InodeOk, Count;
      ghost var t := S();
      var f := slots[j];
      SlotEntry(t, j);
      RefsKeep(t, f, 1);
      EndsKept(files, Refs(t, f, 1).files, ends);
      StoredKeeps(Refs(t, f, 1), k, f);
      files := files[f := files[f].(ref := files[f].ref + 1)];
      slots := slots[k := f];
      assert held[f := held[f] + 1][f := held[f]] == held;
    }

    /** The part of sys_open that open shares with its error path: an entry and a slot for it, or neither. */
    method NewDescriptor(p: int) returns (k: int, f: int)
      requires Settled() && 0 <= p && (p + 1) * NOFILE <= |slots|
      modifies this
      ensures Settled() && (k == -1 <==> FilesFull(old(files)) || SlotsFull(old(slots), p))
      ensures k == -1 ==> S() == old(S())
      ensures k != -1 ==> SlotOf(old(slots), p, k) && old(slots)[k] == EMPTY && Unused(old(S()), f)
      ensures k != -1 ==> S() == old(S()).(files := old(files)[f := File(1, None)], slots := old(slots)[k := f])
    {
      hide FileOk, Apart, InodeOk, Count, Holders, Inv;
      ghost var t := S();
      f := Filealloc();
      if f == -1 {
        return -1, -1;
      }
      k := Fdalloc(p, f);
      if k == -1 {
        Fileclose(f);
        FreshClosed(t, f);
      } else {
        FreshStored(t, f, k);
      }
    }

    /** sys_open from the point where the inode has been found: its reference goes to the file, or is dropped. */
    method OpenInode(p: int, ip: int) returns (k: int, f: int)
      requires Settled() && 0 <= p && (p + 1) * NOFILE <= |slots|
      requires 0 <= ip < |irefs| && |others| == |irefs| && others[ip] > 0
      modifies this
      ensures Settled() && ends == old(ends) && others == old(others)[ip := old(others)[ip] - 1]
      ensures k == -1 <==> FilesFull(old(files)) || SlotsFull(old(slots), p)
      ensures k == -1 ==> files == old(files) && slots == old(slots) && irefs == old(irefs)[ip := old(irefs)[ip] - 1]
      ensures k != -1 ==>
          SlotOf(old(slots), p, k) && old(slots)[k] == EMPTY && irefs == old(irefs) && Unused(old(S()), f)
      ensures k != -1 ==> files == old(files)[f := File(1, Inode(ip))] && slots == old(slots)[k := f]
    {
      hide FileOk, Apart, InodeOk, Count, Holders;
      k, f := NewDescriptor(p);
      if k == -1 {
        Iput(ip);
        return;
      }
      TypedInodeKeeps(S(), f, ip);
      EndsKept(files, Typed(S(), f, Inode(ip)).files, ends);
      files := files[f := files[f].(kind := Inode(ip))];
      others := others[ip := others[ip] - 1];
    }

    /** pipealloc: both ends of a new pipe, held by the caller, or nothing taken. `memory` says whether kalloc
        succeeds. */
    method Pipealloc(memory: bool) returns (ok: bool, f0: int, f1: int)
      requires Settled()
      modifies this
      ensures Valid() && (ok <==> memory && TwoFree(old(files))) && (!ok ==> S() == old(S()))
      ensures ok ==> PipeMade(old(S()), S(), f0, f1)
    {
      hide FileOk, Apart, InodeOk, Count, Holders, Inv;
      ghost var t := S();
      f1 := -1;
      f0 := Filealloc();
      if f0 == -1 {
        return false, -1, -1;
      }
      ghost var t1 := S();
      f1 := Filealloc();
      if f1 == -1 {
        NotTwoFree(t, f0);
        Fileclose(f0);
        FreshClosed(t, f0);
        return false, -1, -1;
      }
      TwoUnused(t, f0, f1);
      if !memory {
        Fileclose(f0);
        Fileclose(f1);
        TwoClosed(t, f0, f1);
        return false, -1, -1;
      }
      PipeMadeKeeps(t, S(), f0, f1);
      EndsMade(t, f0, f1);
      ends := ends + [Ends(true, true)];
      files := files[f0 := files[f0].(kind := Pipe(|ends| - 1, false))];
      files := files[f1 := files[f1].(kind := Pipe(|ends| - 1, true))];
      ok := true;
    }

    /** sys_pipe: two descriptors, or every entry, slot and inode as before and the new pipe, if any, closed at both
        ends. `copied` says whether the descriptors can be copied to the user. */
    method MakePipe(p: int, memory: bool, copied: bool)
      returns (ok: bool, fd0: int, fd1: int, ghost f0: int, ghost f1: int)
      requires Settled() && 0 <= p && (p + 1) * NOFILE <= |slots|
      modifies this
      ensures Settled() && irefs == old(irefs) && others == old(others)
      ensures ok <==> memory && copied && TwoFree(old(files)) && TwoSlots(old(slots), p)
      ensures !ok ==> files == old(files) && slots == old(slots)
      ensures !ok ==> ends == old(ends) || ends == old(ends) + [Ends(false, false)]
      ensures ok ==> ends == old(ends) + [Ends(true, true)] && Unused(old(S()), f0) && Unused(old(S()), f1) && f0 != f1
      ensures ok ==>
          files == old(files)[f0 := File(1, Pipe(|old(ends)|, false))][f1 := File(1, Pipe(|old(ends)|, true))]
      ensures ok ==> SlotOf(old(slots), p, fd0) && SlotOf(old(slots), p, fd1) && fd0 != fd1
      ensures ok ==> old(slots)[fd0] == EMPTY == old(slots)[fd1] && slots == old(slots)[fd0 := f0][fd1 := f1]
    {
      hide FileOk, Apart, InodeOk, Count, Holders, Inv;
      ghost var t := S();
      var rf, wf;
      ok, rf, wf := Pipealloc(memory);
      fd0, fd1, f0, f1 := -1, -1, rf, wf;
      if !ok {
        return;
      }
      ghost var t1 := S();
      HeldBoth(t, t1, rf, wf);
      fd0 := Fdalloc(p, rf);
      if fd0 == -1 {
        CloseBoth(rf, wf, t);
        ok := false;
        return;
      }
      fd1 := Fdalloc(p, wf);
      if fd1 == -1 {
        NotTwoSlots(t.slots, p, fd0, rf);
      }
      if fd1 == -1 || !copied {
        TakeBack(fd0, fd1, rf, wf, t1);
        CloseBoth(rf, wf, t);
        ok := false;
        return;
      }
      BothStored(t, t1, rf, wf);
    }

    /** Emptying the slots again on the error paths of sys_pipe. */
    method TakeBack(fd0: int, fd1: int, f0: int, f1: int, ghost t: T)
      requires Valid() && Inv(t) && 0 <= fd0 < |t.slots| && t.slots[fd0] == EMPTY
      requires 0 <= f0 < |t.held| == |t.files| && 0 <= f1 < |t.held|
      requires f0 != f1 && t.held[f0] == 1 && t.held[f1] == 1
      requires fd1 == -1 || (0 <= fd1 < |t.slots| && fd1 != fd0 && t.slots[fd1] == EMPTY)
      requires S() == if fd1 == -1 then Stored(t, fd0, f0) else Stored(Stored(t, fd0, f0), fd1, f1)
      modifies `slots, `held
      ensures Valid() && S() == t
    {
      slots := slots[fd0 := EMPTY];
      held := held[f0 := 1];
      if fd1 != -1 {
        slots := slots[fd1 := EMPTY];
        held := held[f1 := 1];
      }
      assert slots == t.slots;
      assert held == t.held;
    }

    /** fileclose of both ends on the error paths of sys_pipe. */
    method CloseBoth(f0: int, f1: int, ghost t: T)
      requires Valid() && Inv(t) && NoneHeld(t.held) && PipeMade(t, S(), f0, f1)
      modifies this
      ensures Valid() && S() == t.(ends := t.ends + [Ends(false, false)])
    {
      hide FileOk, Apart, InodeOk, Count, Holders, Inv;
      HeldBoth(t, S(), f0, f1);
      Fileclose(f0);
      Fileclose(f1);
      EndsClosed(t, f0, f1);
    }
  }

  /** An entry that a slot still refers to keeps its kind. */
  lemma ClosedKinds(t: T, t': T, f: int)
    requires Inv(t) && 0 <= f < |t.files| && t.held[f] > 0
    requires t' == if t.files[f].ref > 1 then Refs(t, f, -1) else Closed(t, f)
    ensures KindsKept(t.files, t'.files, t.slots)
  {
    assert FileOk(t, f);
    CountPositive(t.slots, f);
  }

  lemma TakeInode(t: T, ip: int, n: int)
    requires Inv(t) && 0 <= ip < |t.irefs| && 0 <= t.others[ip] + n
    ensures Inv(t.(irefs := t.irefs[ip := t.irefs[ip] + n], others := t.others[ip := t.others[ip] + n]))
  {
    var t' := t.(irefs := t.irefs[ip := t.irefs[ip] + n], others := t.others[ip := t.others[ip] + n]);
    forall g | 0 <= g < |t.files| ensures FileOk(t', g) {
      assert FileOk(t, g);
    }
    forall g, h | 0 <= g < |t.files| && 0 <= h < |t.files| ensures Apart(t', g, h) {
      assert Apart(t, g, h);
    }
    forall i | 0 <= i < |t.irefs| ensures InodeOk(t', i) {
      assert InodeOk(t, i);
    }
  }

  lemma NotTwoFree(t: T, f0: int)
    requires Unused(t, f0) && FilesFull(Refs(t, f0, 1).files)
    ensures !TwoFree(t.files)
  {
    var files' := Refs(t, f0, 1).files;
    forall f | 0 <= f < |t.files| && f != f0 ensures t.files[f].ref != 0 {
      assert files'[f].ref != 0;
    }
  }

  lemma NotTwoSlots(slots: seq<int>, p: int, k: int, f: int)
    requires SlotOf(slots, p, k) && SlotsFull(slots[k := f], p)
    ensures !TwoSlots(slots, p)
  {
    forall j | SlotOf(slots, p, j) && slots[j] == EMPTY ensures j == k {
      assert SlotOf(slots[k := f], p, j);
    }
  }

  // ---------------------------------------------------------------- new pipes

  /** The state with a new pipe whose two ends the caller holds. */
  function MadePipe(t: T, f0: int, f1: int): T
    requires 0 <= f0 < |t.files| == |t.held| && 0 <= f1 < |t.files|
  {
    var pi := |t.ends|;
    t.(files := t.files[f0 := File(1, Pipe(pi, false))][f1 := File(1, Pipe(pi, true))],
       held := t.held[f0 := 1][f1 := 1], ends := t.ends + [Ends(true, true)])
  }

  predicate PipeMade(t: T, t': T, f0: int, f1: int) {
    Unused(t, f0) && Unused(t, f1) && f0 != f1 && t' == MadePipe(t, f0, f1)
  }

  lemma TwoUnused(t: T, f0: int, f1: int)
    requires Unused(t, f0) && Unused(Refs(t, f0, 1), f1)
    ensures f0 != f1 && Unused(t, f1)
  {
  }

  lemma TwoClosed(t: T, f0: int, f1: int)
    requires Unused(t, f0) && Unused(t, f1) && f0 != f1
    ensures Closed(Closed(Refs(Refs(t, f0, 1), f1, 1), f0), f1) == t
  {
    var t' := Closed(Closed(Refs(Refs(t, f0, 1), f1, 1), f0), f1);
    assert t'.files == t.files;
    assert t'.held == t.held;
  }

  lemma PipeMadeKeeps(t: T, t1: T, f0: int, f1: int)
    requires Inv(t) && Inv(t1) && Unused(t, f0) && Unused(t, f1) && f0 != f1 && t1 == Refs(Refs(t, f0, 1), f1, 1)
    ensures Inv(MadePipe(t, f0, f1))
    ensures var pi := |t.ends|;
            MadePipe(t, f0, f1) ==
              t1.(ends := t1.ends + [Ends(true, true)],
                  files := t1.files[f0 := t1.files[f0].(kind := Pipe(pi, false))]
                                   [f1 := t1.files[f1].(kind := Pipe(pi, true))])
  {
    hide FileOk, Apart, InodeOk, Count, Holders;
    var pi := |t.ends|;
    NewPipeKeeps(t1);
    var t2 := t1.(ends := t1.ends + [Ends(true, true)]);
    TypedPipeKeeps(t2, f0, pi, false);
    var t3 := Typed(t2, f0, Pipe(pi, false));
    TypedPipeKeeps(t3, f1, pi, true);
    var t4 := Typed(t3, f1, Pipe(pi, true));
    assert t4.files == MadePipe(t, f0, f1).files;
    assert t4.held == MadePipe(t, f0, f1).held;
  }

  lemma EndsMade(t: T, f0: int, f1: int)
    requires EndsOk(t.files, t.ends) && Unused(t, f0) && Unused(t, f1) && f0 != f1
    ensures EndsOk(MadePipe(t, f0, f1).files, MadePipe(t, f0, f1).ends)
  {
    var t' := MadePipe(t, f0, f1);
    EndsKept(t.files, t'.files, t.ends);
    forall pi, w | 0 <= pi < |t'.ends| && Open(t'.ends[pi], w) ensures IsEnd(t'.files, pi, w) {
      if pi == |t.ends| {
        assert t'.files[if w then f1 else f0].kind == Pipe(pi, w);
      } else {
        assert t'.ends[pi] == t.ends[pi];
      }
    }
  }

  lemma HeldBoth(t: T, t': T, f0: int, f1: int)
    requires PipeMade(t, t', f0, f1)
    ensures 0 <= f0 < |t'.files| == |t'.held| && 0 <= f1 < |t'.files|
    ensures f0 != f1 && t'.held[f0] == 1 && t'.held[f1] == 1
    ensures t'.files[f0].ref == 1 && t'.files[f1].ref == 1 && t'.slots == t.slots
    ensures t'.irefs == t.irefs && t'.others == t.others
  {
  }

  lemma EndsClosed(t: T, f0: int, f1: int)
    requires Unused(t, f0) && Unused(t, f1) && f0 != f1
    ensures Closed(Closed(MadePipe(t, f0, f1), f0), f1) == t.(ends := t.ends + [Ends(false, false)])
  {
    var t' := Closed(Closed(MadePipe(t, f0, f1), f0), f1);
    assert t'.files == t.files;
    assert t'.held == t.held;
    assert t'.ends == t.ends + [Ends(false, false)];
  }

  lemma BothStored(t: T, t1: T, f0: int, f1: int)
    requires PipeMade(t, t1, f0, f1) && NoneHeld(t.held)
    ensures NoneHeld(t1.held[f0 := t1.held[f0] - 1][f1 := t1.held[f1] - 1]) && t1.ends == t.ends + [Ends(true, true)]
  {
  }

  /** The n slots from `to` on have become copies of those from `from` on; no other slot has changed. */
  ghost predicate Copied(slots: seq<int>, slots': seq<int>, from: int, to: int, n: int) {
    && |slots'| == |slots| && 0 <= n && 0 <= from && from + n <= |slots| && 0 <= to && to + n <= |slots|
    && (forall j :: 0 <= j < |slots| && !(to <= j < to + n) ==> slots'[j] == slots[j])
    && slots'[to..to + n] == slots[from..from + n]
  }

  lemma CopiedNone(slots: seq<int>, from: int, to: int)
    requires 0 <= from <= |slots| && 0 <= to <= |slots|
    ensures Copied(slots, slots, from, to, 0)
  {
  }

  lemma CopiedAt(slots: seq<int>, slots': seq<int>, from: int, to: int, i: int)
    requires Copied(slots, slots', from, to, i) && 0 <= i < NOFILE && to + NOFILE <= |slots| && from + NOFILE <= |slots|
    requires from + NOFILE <= to || to + NOFILE <= from
    ensures |slots'| == |slots| && slots'[from + i] == slots[from + i] && slots'[to + i] == slots[to + i]
  {
  }

  lemma CopiedMore(slots: seq<int>, slots': seq<int>, slots'': seq<int>, from: int, to: int, i: int)
    requires Copied(slots, slots', from, to, i) && 0 <= i < NOFILE && to + NOFILE <= |slots| && from + NOFILE <= |slots|
    requires slots'' == slots'[to + i := slots[from + i]]
    ensures Copied(slots, slots'', from, to, i + 1)
  {
    assert slots''[to..to + (i + 1)] == slots'[to..to + i] + [slots''[to + i]];
    assert slots[from..from + (i + 1)] == slots[from..from + i] + [slots[from + i]];
  }

  lemma NothingOpen(t: T)
    requires (forall f :: 0 <= f < |t.files| ==> t.files[f] == File(0, None))
    requires (forall k :: 0 <= k < |t.slots| ==> t.slots[k] == EMPTY)
    requires |t.held| == |t.files| && NoneHeld(t.held) && t.irefs == t.others && t.ends == []
    requires forall ip :: 0 <= ip < |t.irefs| ==> 0 <= t.irefs[ip]
    ensures Inv(t)
  {
    forall f | 0 <= f < |t.files| ensures FileOk(t, f) {
      CountPositive(t.slots, f);
    }
    forall ip | 0 <= ip < |t.irefs| ensures InodeOk(t, ip) {
      NoHolders(t.files, ip);
    }
  }

  lemma {:induction false} NoHolders(files: seq<File>, ip: int)
    requires forall f :: 0 <= f < |files| ==> files[f].kind == None
    ensures Holders(files, ip) == 0
  {
    if files != [] {
      NoHolders(files[1..], ip);
    }
  }

  /** A free entry has neither type nor references. */
  predicate Unused(t: T, f: int) {
    0 <= f < |t.files| == |t.held| && t.files[f] == File(0, None) && t.held[f] == 0
  }

  lemma FreeEntry(t: T, f: int)
    requires Inv(t) && 0 <= f < |t.files| && t.files[f].ref == 0
    ensures Unused(t, f)
  {
    assert FileOk(t, f);
    CountPositive(t.slots, f);
  }

  lemma LiveEntry(t: T, f: int)
    requires Inv(t) && 0 <= f < |t.files| && t.held[f] > 0
    ensures t.files[f].ref >= 1 && (t.files[f].ref == 1 ==> t.held[f] == 1)
  {
    assert FileOk(t, f);
    CountPositive(t.slots, f);
  }

  lemma ClosedInode(t: T, f: int)
    requires Inv(t) && 0 <= f < |t.files|
    ensures t.files[f].kind.Inode? ==> 0 <= t.files[f].kind.ip < |t.irefs|
  {
    assert FileOk(t, f);
  }

  lemma SlotEntry(t: T, k: int)
    requires Inv(t) && 0 <= k < |t.slots| && t.slots[k] != EMPTY
    ensures 0 <= t.slots[k] < |t.files| && t.files[t.slots[k]].ref >= 1
  {
    assert FileOk(t, t.slots[k]);
    CountPositive(t.slots, t.slots[k]);
  }

  /** Closing an entry that has just been allocated closes nothing else. */
  lemma FreshClosed(t: T, f: int)
    requires Unused(t, f)
    ensures Closed(Refs(t, f, 1), f) == t
  {
    assert t.files[f := File(1, None)][f := File(0, None)] == t.files;
    assert t.held[f := 1][f := 0] == t.held;
  }

  lemma FreshStored(t: T, f: int, k: int)
    requires Unused(t, f) && 0 <= k < |t.slots|
    ensures Stored(Refs(t, f, 1), k, f) == t.(files := t.files[f := File(1, None)], slots := t.slots[k := f])
  {
    assert t.held[f := 1][f := 0] == t.held;
  }
}
