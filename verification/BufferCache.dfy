/**
 The block buffer cache: NBUF buffers over one disk, kept on a circular doubly
 linked list in order of their last move to the front.

 `Cache` is what the cache means to its callers: for every block of the disk
 its logical contents (`view`), how often it is referenced and who holds its
 sleep lock, plus the number of unreferenced buffers and the disk states
 passed through, one per block write.
 */
module BufferCache {
  import opened BufferRing

  type Block = seq<int>
  type Disk = seq<Block>

  const NBUF: nat := 30

  /** One buffer. `pid` is the holder of the sleep lock, 0 when unlocked. */
  datatype Buf = Buf(valid: bool, dev: nat, blockno: nat, pid: int, refcnt: nat, data: Block)

  datatype Cache = Cache(disk: Disk, view: Disk, refs: seq<nat>, locks: seq<int>, spare: int, writes: seq<Disk>)

  ghost predicate Holds(bufs: seq<Buf>, dev: nat, i: int, bn: nat) {
    0 <= i < |bufs| && bufs[i].dev == dev && bufs[i].blockno == bn
  }

  function CountSpare(bufs: seq<Buf>): nat {
    if bufs == [] then 0
    else CountSpare(bufs[..|bufs| - 1]) + (if bufs[|bufs| - 1].refcnt == 0 then 1 else 0)
  }

  /** One buffer agrees with the logical state of the block it holds. */
  ghost predicate Agrees(b: Buf, dev: nat, a: Cache) {
    if b.dev == dev then
      && b.blockno < |a.disk| == |a.view| == |a.refs| == |a.locks|
      && a.refs[b.blockno] == b.refcnt
      && a.locks[b.blockno] == b.pid
      && a.view[b.blockno] == (if b.valid then b.data else a.disk[b.blockno])
    else
      b.dev == 0 && b.refcnt == 0 && b.pid == 0
  }

  /** A block that nobody references is unlocked, and one that no buffer holds is as on disk. */
  ghost predicate Settled(bufs: seq<Buf>, dev: nat, a: Cache, bn: nat)
    requires bn < |a.disk| == |a.view| == |a.refs| == |a.locks|
  {
    && (a.refs[bn] == 0 ==> a.locks[bn] == 0)
    && (a.refs[bn] > 0 || a.view[bn] != a.disk[bn] ==> exists i :: Holds(bufs, dev, i, bn))
  }

  ghost predicate Represents(bufs: seq<Buf>, dev: nat, a: Cache) {
    && dev != 0
    && |a.disk| == |a.view| == |a.refs| == |a.locks|
    && (forall i :: 0 <= i < |bufs| ==> Agrees(bufs[i], dev, a))
    && (forall i, j, bn :: Holds(bufs, dev, i, bn) && Holds(bufs, dev, j, bn) ==> i == j)
    && (forall bn :: 0 <= bn < |a.disk| ==> Settled(bufs, dev, a, bn))
    && a.spare == CountSpare(bufs)
  }

  /** Nobody has given up a block with changes that are not on disk. */
  ghost predicate Clean(a: Cache) {
    && |a.disk| == |a.view| == |a.refs|
    && forall bn :: 0 <= bn < |a.disk| && a.refs[bn] == 0 ==> a.view[bn] == a.disk[bn]
  }

  /** The block that buffer b held falls back to what the disk has. */
  ghost function Evicted(a: Cache, b: Buf, dev: nat): Cache {
    if b.dev == dev && b.blockno < |a.view| && b.blockno < |a.disk|
    then a.(view := a.view[b.blockno := a.disk[b.blockno]]) else a
  }

  // ---------------------------------------------------------------- counting unreferenced buffers

  lemma {:induction false} CountSpareUpdate(bufs: seq<Buf>, i: nat, b: Buf)
    requires i < |bufs|
    ensures CountSpare(bufs[i := b]) + (if bufs[i].refcnt == 0 then 1 else 0)
            == CountSpare(bufs) + (if b.refcnt == 0 then 1 else 0)
  {
    var n := |bufs| - 1;
    if i == n {
      assert bufs[i := b][..n] == bufs[..n];
    } else {
      assert bufs[i := b][..n] == bufs[..n][i := b];
      CountSpareUpdate(bufs[..n], i, b);
    }
  }

  lemma {:induction false} CountSparePositive(bufs: seq<Buf>)
    ensures CountSpare(bufs) > 0 <==> exists i :: 0 <= i < |bufs| && bufs[i].refcnt == 0
  {
    if bufs != [] {
      var n := |bufs| - 1;
      CountSparePositive(bufs[..n]);
      if CountSpare(bufs[..n]) > 0 {
        var i :| 0 <= i < n && bufs[..n][i].refcnt == 0;
        assert bufs[i].refcnt == 0;
      }
      if i :| 0 <= i < |bufs| && bufs[i].refcnt == 0 {
        assert i < n ==> bufs[..n][i].refcnt == 0;
      }
    }
  }

  // ---------------------------------------------------------------- what one buffer update means

  ghost predicate OnlyAt(a: Cache, a': Cache, bn: nat) {
    && |a.disk| == |a.view| == |a.refs| == |a.locks| == |a'.disk| == |a'.view| == |a'.refs| == |a'.locks|
    && bn < |a.disk|
    && (forall x :: 0 <= x < |a.disk| && x != bn ==>
          a'.disk[x] == a.disk[x] && a'.view[x] == a.view[x]
          && a'.refs[x] == a.refs[x] && a'.locks[x] == a.locks[x])
  }

  function Spare(b: Buf): int { if b.refcnt == 0 then 1 else 0 }

  /** Changing the buffer that holds a block, and the logical state of that block alone, consistently. */
  lemma UpdateHolder(bufs: seq<Buf>, dev: nat, a: Cache, i: nat, b: Buf, a': Cache)
    requires Represents(bufs, dev, a) && i < |bufs|
    requires Holds(bufs, dev, i, b.blockno) && b.dev == dev
    requires OnlyAt(a, a', b.blockno) && Agrees(b, dev, a')
    requires b.refcnt == 0 ==> a'.locks[b.blockno] == 0
    requires a'.spare == a.spare - Spare(bufs[i]) + Spare(b)
    ensures Represents(bufs[i := b], dev, a')
  {
    var bufs' := bufs[i := b];
    CountSpareUpdate(bufs, i, b);
    assert forall j, bn :: Holds(bufs', dev, j, bn) <==> Holds(bufs, dev, j, bn);
    forall j | 0 <= j < |bufs'| ensures Agrees(bufs'[j], dev, a') {
      assert Agrees(bufs[j], dev, a);
      if j != i && bufs[j].dev == dev {
        assert Holds(bufs, dev, j, bufs[j].blockno);
      }
    }
    forall bn | 0 <= bn < |a'.disk| ensures Settled(bufs', dev, a', bn) {
      assert Settled(bufs, dev, a, bn);
      assert bn == b.blockno ==> Holds(bufs', dev, i, bn);
    }
  }

  lemma EvictedAgrees(bufs: seq<Buf>, dev: nat, a: Cache, i: nat, j: nat)
    requires Represents(bufs, dev, a) && i < |bufs| && j < |bufs| && i != j
    ensures Agrees(bufs[j], dev, Evicted(a, bufs[i], dev))
  {
    assert Agrees(bufs[j], dev, a);
    if bufs[i].dev == dev && bufs[j].dev == dev {
      assert Holds(bufs, dev, i, bufs[i].blockno) && Holds(bufs, dev, j, bufs[j].blockno);
    }
  }

  /** Giving an unreferenced buffer to a block that no buffer holds: the block it held before is forgotten. */
  lemma Recycle(bufs: seq<Buf>, dev: nat, a: Cache, i: nat, b: Buf, a': Cache)
    requires Represents(bufs, dev, a) && i < |bufs| && bufs[i].refcnt == 0
    requires b.dev == dev && b.blockno < |a.disk| && !b.valid && b.refcnt == 1 && b.pid == 0
    requires forall j :: !Holds(bufs, dev, j, b.blockno)
    requires a' == Evicted(a, bufs[i], dev).(refs := a.refs[b.blockno := 1], spare := a.spare - 1)
    ensures Represents(bufs[i := b], dev, a')
  {
    var bn, bufs' := b.blockno, bufs[i := b];
    CountSpareUpdate(bufs, i, b);
    assert Settled(bufs, dev, a, bn);
    assert a.refs[bn] == 0 && a.view[bn] == a.disk[bn];
    assert Agrees(bufs[i], dev, a);
    forall j | 0 <= j < |bufs'| ensures Agrees(bufs'[j], dev, a') {
      if j != i {
        EvictedAgrees(bufs, dev, a, i, j);
        assert bufs[j].dev == dev ==> Holds(bufs, dev, j, bufs[j].blockno);
      }
    }
    forall j, k, x | Holds(bufs', dev, j, x) && Holds(bufs', dev, k, x) ensures j == k {
      if j != i { assert Holds(bufs, dev, j, x); }
      if k != i { assert Holds(bufs, dev, k, x); }
    }
    forall x | 0 <= x < |a'.disk| ensures Settled(bufs', dev, a', x) {
      assert Settled(bufs, dev, a, x);
      if x == bn {
        assert Holds(bufs', dev, i, x);
      } else if a'.refs[x] > 0 || a'.view[x] != a'.disk[x] {
        var j :| Holds(bufs, dev, j, x);
        assert Agrees(bufs[j], dev, a);
        assert j != i;
        assert Holds(bufs', dev, j, x);
      }
    }
  }

  /** Recycling a buffer loses changes exactly if it holds some that are not on disk. */
  lemma EvictionForgets(bufs: seq<Buf>, dev: nat, a: Cache, i: nat)
    requires Represents(bufs, dev, a) && i < |bufs|
    ensures Evicted(a, bufs[i], dev) == a <==>
            bufs[i].dev != dev || !bufs[i].valid || bufs[i].data == a.disk[bufs[i].blockno]
  {
    assert Agrees(bufs[i], dev, a);
    if bufs[i].dev == dev {
      var x := bufs[i].blockno;
      assert a.view[x := a.disk[x]][x] == a.disk[x];
      if a.view[x] == a.disk[x] {
        assert a.view[x := a.disk[x]] == a.view;
      }
    }
  }

  /** So with clean blocks it never does. */
  lemma CleanEviction(bufs: seq<Buf>, dev: nat, a: Cache, i: nat)
    requires Represents(bufs, dev, a) && Clean(a) && i < |bufs| && bufs[i].refcnt == 0
    ensures Evicted(a, bufs[i], dev) == a
  {
    assert Agrees(bufs[i], dev, a);
    if bufs[i].dev == dev {
      assert a.view[bufs[i].blockno := a.disk[bufs[i].blockno]] == a.view;
    }
  }

  /** Giving up a reference keeps the blocks clean exactly if others remain or the disk has the changes. */
  lemma DropKeepsClean(a: Cache, bn: nat)
    requires Clean(a) && bn < |a.refs| && a.refs[bn] > 0
    ensures Clean(DropRef(a, bn)) <==> a.refs[bn] > 1 || a.view[bn] == a.disk[bn]
  {
    var a' := DropRef(a, bn);
    if a.refs[bn] > 1 || a.view[bn] == a.disk[bn] {
      forall x | 0 <= x < |a'.disk| && a'.refs[x] == 0 ensures a'.view[x] == a'.disk[x] {
        assert x != bn ==> a.refs[x] == 0;
      }
    } else {
      assert a'.refs[bn] == 0;
    }
  }

  lemma HolderAgrees(bufs: seq<Buf>, dev: nat, a: Cache, i: nat)
    requires Represents(bufs, dev, a) && i < |bufs| && bufs[i].dev == dev
    ensures Agrees(bufs[i], dev, a) && (bufs[i].refcnt == 0 ==> bufs[i].pid == 0)
    ensures bufs[i].refcnt == 0 ==> a.spare > 0
    ensures a.spare >= 0
  {
    assert Agrees(bufs[i], dev, a);
    assert Settled(bufs, dev, a, bufs[i].blockno);
    CountSparePositive(bufs);
  }

  lemma RepresentsShape(bufs: seq<Buf>, dev: nat, a: Cache)
    requires Represents(bufs, dev, a)
    ensures dev != 0 && |a.disk| == |a.view| == |a.refs| == |a.locks|
    ensures a.spare == CountSpare(bufs)
  {
  }

  lemma UnheldIsUnreferenced(bufs: seq<Buf>, dev: nat, a: Cache, bn: nat)
    requires Represents(bufs, dev, a) && bn < |a.refs|
    requires forall i :: !Holds(bufs, dev, i, bn)
    ensures a.refs[bn] == 0
  {
    assert Settled(bufs, dev, a, bn);
  }

  lemma VictimUnlocked(bufs: seq<Buf>, dev: nat, a: Cache, i: nat)
    requires Represents(bufs, dev, a) && i < |bufs| && bufs[i].refcnt == 0
    ensures bufs[i].pid == 0
  {
    assert Agrees(bufs[i], dev, a);
    if bufs[i].dev == dev { assert Settled(bufs, dev, a, bufs[i].blockno); }
  }

  // ---------------------------------------------------------------- the order of the list

  ghost predicate Covers(chain: seq<nat>, n: nat) {
    forall i :: 0 <= i < n ==> i in chain
  }

  /** `stamp[b]` is the time buffer b last moved to the front; the list runs from newest to oldest. */
  ghost predicate NewestFirst(chain: seq<nat>, stamp: seq<nat>, clock: nat) {
    && (forall i :: 0 < i < |chain| - 1 ==> chain[i] < |stamp| && stamp[chain[i]] < clock)
    && (forall i, j :: 0 < i < j < |chain| - 1 ==> stamp[chain[i]] > stamp[chain[j]])
  }

  ghost predicate GoodList(next: Links, prev: Links, chain: seq<nat>, stamp: seq<nat>, clock: nat) {
    && |next| == |prev| == |stamp| + 1 == NBUF + 1
    && |chain| == NBUF + 2
    && IsTrip(chain, NBUF) && Linked(next, prev, chain)
    && Covers(chain, NBUF)
    && NewestFirst(chain, stamp, clock)
  }

  function MovedToFront(chain: seq<nat>, k: nat): seq<nat>
    requires 0 < k < |chain|
  {
    WithFirst(Without(chain, k), chain[k])
  }

  /** The six link assignments of brelse move one buffer to the front and keep the list good. */
  lemma MoveToFront(next: Links, prev: Links, chain: seq<nat>, stamp: seq<nat>, clock: nat, k: nat)
    requires GoodList(next, prev, chain, stamp, clock) && 0 < k <= NBUF
    ensures chain[k] < NBUF && chain[k - 1] <= NBUF && chain[k + 1] <= NBUF
    ensures next[chain[k]] == chain[k + 1] && prev[chain[k]] == chain[k - 1]
    ensures var b := chain[k];
            var next1, prev1 := next[chain[k - 1] := chain[k + 1]], prev[chain[k + 1] := chain[k - 1]];
            next1[NBUF] <= NBUF &&
            var first := next1[NBUF];
            GoodList(next1[b := first][NBUF := b], prev1[b := NBUF][first := b],
                     MovedToFront(chain, k), stamp[b := clock], clock + 1)
  {
    Unlink(next, prev, chain, NBUF, k);
    var short := Without(chain, k);
    assert short[1] in short;
    LinkFirst(next[chain[k - 1] := chain[k + 1]], prev[chain[k + 1] := chain[k - 1]], short, NBUF, chain[k]);
    MovedStaysOrdered(chain, stamp, clock, k);
  }

  lemma MovedStaysOrdered(chain: seq<nat>, stamp: seq<nat>, clock: nat, k: nat)
    requires IsTrip(chain, NBUF) && |chain| == NBUF + 2 && 0 < k <= NBUF && chain[k] < |stamp|
    requires Covers(chain, NBUF) && NewestFirst(chain, stamp, clock)
    ensures Covers(MovedToFront(chain, k), NBUF)
    ensures NewestFirst(MovedToFront(chain, k), stamp[chain[k] := clock], clock + 1)
  {
    var moved := MovedToFront(chain, k);
    forall i | 0 <= i < NBUF ensures i in moved {
      assert i in chain;
      var p :| 0 <= p < |chain| && chain[p] == i;
      var q := if p == k then 1 else if p == 0 then 0 else if p < k then p + 1 else p;
      assert moved[q] == i;
    }
  }

  // ---------------------------------------------------------------- the cache itself

  lemma InitialList(chain: seq<nat>, stamp: seq<nat>)
    requires |chain| == NBUF + 2 && |stamp| == NBUF
    requires forall i :: 0 < i <= NBUF ==> chain[i] == NBUF - i
    requires forall i :: 0 <= i < NBUF ==> stamp[i] == i
    ensures Covers(chain, NBUF) && NewestFirst(chain, stamp, NBUF)
  {
    forall i | 0 <= i < NBUF ensures i in chain {
      assert chain[NBUF - i] == i;
    }
  }

  lemma {:induction false} InitialSpare(bufs: seq<Buf>)
    requires forall i :: 0 <= i < |bufs| ==> bufs[i].refcnt == 0
    ensures CountSpare(bufs) == |bufs|
  {
    if bufs != [] { InitialSpare(bufs[..|bufs| - 1]); }
  }

  /** One more reference to a block; the first one uses up a spare buffer. */
  ghost function AddRef(a: Cache, bn: nat): Cache
    requires bn < |a.refs|
  {
    a.(refs := a.refs[bn := a.refs[bn] + 1], spare := if a.refs[bn] == 0 then a.spare - 1 else a.spare)
  }

  /** One reference fewer; the last one gives a spare buffer back. */
  ghost function DropRef(a: Cache, bn: nat): Cache
    requires bn < |a.refs| && a.refs[bn] > 0
  {
    a.(refs := a.refs[bn := a.refs[bn] - 1], spare := if a.refs[bn] == 1 then a.spare + 1 else a.spare)
  }

  lemma AddKeepsClean(a: Cache, bn: nat)
    requires bn < |a.refs|
    ensures Clean(a) ==> Clean(AddRef(a, bn))
  {
  }

  class Bcache {
    const dev: nat
    var bufs: seq<Buf>
    var next: Links
    var prev: Links
    var disk: Disk

    ghost var chain: seq<nat>
    ghost var stamp: seq<nat>
    ghost var clock: nat
    ghost var abs: Cache

    /** What every call keeps, whatever its caller did to a block. */
    ghost predicate Intact()
      reads this
    {
      && |bufs| == NBUF
      && GoodList(next, prev, chain, stamp, clock)
      && Represents(bufs, dev, abs)
      && abs.disk == disk
    }

    /** And all callers so far wrote or pinned what they changed, so recycling a buffer loses nothing. */
    ghost predicate Valid()
      reads this
    {
      Intact() && Clean(abs)
    }

    /** A locked buffer holding a block, with the block's logical contents, in the hands of `pid`. */
    ghost predicate Owned(i: int, bn: nat, pid: int)
      reads this
    {
      && 0 <= i < |bufs| && Holds(bufs, dev, i, bn) && bn < |abs.view| == |abs.locks|
      && bufs[i].valid && bufs[i].data == abs.view[bn]
      && bufs[i].pid == pid && abs.locks[bn] == pid
      && bn < |abs.refs| && bufs[i].refcnt == abs.refs[bn] > 0
    }

    /** binit: every buffer starts as block 0 of device 0, unreferenced; the last one linked is first. */
    constructor (dev: nat, disk: Disk)
      requires dev != 0
      ensures Valid() && this.dev == dev && this.disk == disk
      ensures abs == Cache(disk, disk, seq(|disk|, _ => 0), seq(|disk|, _ => 0), NBUF, [])
      ensures forall i :: 0 < i <= NBUF ==> chain[i] == NBUF - i
      ensures forall i :: 0 <= i < NBUF ==> bufs[i].dev == 0 && bufs[i].refcnt == 0
    {
      var nx: Links, pv: Links := seq(NBUF, _ => 0) + [NBUF], seq(NBUF, _ => 0) + [NBUF];
      ghost var ch := [NBUF, NBUF];
      var b := 0;
      while b < NBUF
        invariant 0 <= b <= NBUF && |nx| == |pv| == NBUF + 1 && |ch| == b + 2
        invariant IsTrip(ch, NBUF) && Linked(nx, pv, ch)
        invariant forall i :: 0 < i <= b ==> ch[i] == b - i
      {
        LinkFirst(nx, pv, ch, NBUF, b);
        var first := nx[NBUF];
        nx := nx[b := first];
        pv := pv[b := NBUF];
        pv := pv[first := b];
        nx := nx[NBUF := b];
        ch := WithFirst(ch, b);
        b := b + 1;
      }
      this.dev := dev;
      this.disk := disk;
      next, prev, chain := nx, pv, ch;
      bufs := seq(NBUF, _ => Buf(false, 0, 0, 0, 0, []));
      stamp, clock := seq(NBUF, i => i), NBUF;
      abs := Cache(disk, disk, seq(|disk|, _ => 0), seq(|disk|, _ => 0), NBUF, []);
      InitialList(ch, seq(NBUF, i => i));
      InitialSpare(seq(NBUF, _ => Buf(false, 0, 0, 0, 0, [])));
    }

    /** The lookup scan of bget. */
    method FindBlock(bn: nat) returns (r: int)
      requires Intact()
      ensures r >= 0 ==> Holds(bufs, dev, r, bn)
      ensures r < 0 ==> forall i :: !Holds(bufs, dev, i, bn)
    {
      hide Represents;
      var b := next[NBUF];
      ghost var k := 1;
      while b != NBUF
        invariant 1 <= k < |chain| && b == chain[k]
        invariant forall j :: 0 < j < k ==> !Holds(bufs, dev, chain[j], bn)
        decreases |chain| - k
      {
        if bufs[b].dev == dev && bufs[b].blockno == bn {
          return b;
        }
        b := next[b];
        k := k + 1;
      }
      forall i ensures !Holds(bufs, dev, i, bn) {
        if 0 <= i < |bufs| {
          assert i in chain;
        }
      }
      return -1;
    }

    /** The recycling scan of bget: the unreferenced buffer that moved to the front longest ago. */
    method FindVictim() returns (r: int)
      requires Intact()
      ensures r >= 0 ==> r < NBUF && bufs[r].refcnt == 0
      ensures r >= 0 ==> forall i :: 0 <= i < NBUF && bufs[i].refcnt == 0 ==> stamp[r] <= stamp[i]
      ensures r < 0 ==> forall i :: 0 <= i < NBUF ==> bufs[i].refcnt != 0
    {
      hide Represents;
      var b := prev[NBUF];
      ghost var k := |chain| - 2;
      assert prev[chain[k + 1]] == chain[k];
      while b != NBUF
        invariant 0 <= k < |chain| - 1 && b == chain[k]
        invariant forall j :: k < j < |chain| - 1 ==> bufs[chain[j]].refcnt != 0
        decreases k
      {
        if bufs[b].refcnt == 0 {
          forall i | 0 <= i < NBUF && bufs[i].refcnt == 0 ensures stamp[b] <= stamp[i] {
            assert i in chain;
          }
          return b;
        }
        assert prev[chain[k - 1 + 1]] == chain[k - 1];
        b := prev[b];
        k := k - 1;
      }
      forall i | 0 <= i < NBUF ensures bufs[i].refcnt != 0 {
        assert i in chain;
      }
      return -1;
    }

    /** bget up to the release of bcache.lock: look the block up or recycle a buffer; -1 is the panic. */
    method Bget(bn: nat) returns (r: int)
      requires Intact() && bn < |disk|
      modifies `bufs, `abs
      ensures Intact() && (old(Valid()) ==> Valid())
      ensures r >= 0 <==> old(abs.refs[bn]) > 0 || old(abs.spare) > 0
      ensures r < 0 ==> bufs == old(bufs) && abs == old(abs)
      ensures r >= 0 ==> r < NBUF && Holds(bufs, dev, r, bn)
      ensures r >= 0 && old(Holds(bufs, dev, r, bn)) ==> abs == AddRef(old(abs), bn)
      ensures r >= 0 && !old(Holds(bufs, dev, r, bn)) ==> abs == AddRef(Evicted(old(abs), old(bufs[r]), dev), bn)
      ensures r >= 0 && old(Valid()) ==> abs == AddRef(old(abs), bn)
      ensures r >= 0 ==> bufs == old(bufs)[r := bufs[r]]
      ensures r >= 0 && !old(Holds(bufs, dev, r, bn)) ==>
                old(bufs[r].refcnt) == 0 && !bufs[r].valid &&
                forall i :: 0 <= i < NBUF && old(bufs[i].refcnt) == 0 ==> stamp[r] <= stamp[i]
    {
      hide GoodList, Represents, Clean;
      RepresentsShape(bufs, dev, abs);
      AddKeepsClean(abs, bn);
      r := FindBlock(bn);
      if r >= 0 {
        HolderAgrees(bufs, dev, abs, r);
        var b := bufs[r].(refcnt := bufs[r].refcnt + 1);
        UpdateHolder(bufs, dev, abs, r, b, AddRef(abs, bn));
        bufs := bufs[r := b];
        abs := AddRef(abs, bn);
        return;
      }
      UnheldIsUnreferenced(bufs, dev, abs, bn);
      CountSparePositive(bufs);
      r := FindVictim();
      if r >= 0 {
        var b := Buf(false, dev, bn, bufs[r].pid, 1, bufs[r].data);
        VictimUnlocked(bufs, dev, abs, r);
        if Clean(abs) {
          CleanEviction(bufs, dev, abs, r);
        }
        ghost var a := AddRef(Evicted(abs, bufs[r], dev), bn);
        Recycle(bufs, dev, abs, r, b, a);
        bufs := bufs[r := b];
        abs := a;
      }
    }

    /** bread, entered when no one holds the block's sleep lock: reads the disk only if the buffer is not valid. */
    method Bread(bn: nat, pid: int) returns (r: int)
      requires Intact() && bn < |disk| && pid != 0 && bn < |abs.locks| && abs.locks[bn] == 0
      modifies `bufs, `abs
      ensures Intact() && (old(Valid()) ==> Valid())
      ensures r >= 0 <==> old(abs.refs[bn]) > 0 || old(abs.spare) > 0
      ensures r < 0 ==> bufs == old(bufs) && abs == old(abs)
      ensures r >= 0 ==> Owned(r, bn, pid) && bufs == old(bufs)[r := bufs[r]]
      ensures r >= 0 && !old(Holds(bufs, dev, r, bn)) ==> old(bufs[r].refcnt) == 0
      ensures r >= 0 && old(Holds(bufs, dev, r, bn)) ==>
                abs == AddRef(old(abs), bn).(locks := old(abs.locks)[bn := pid])
      ensures r >= 0 && !old(Holds(bufs, dev, r, bn)) ==>
                abs == AddRef(Evicted(old(abs), old(bufs[r]), dev), bn).(locks := old(abs.locks)[bn := pid])
      ensures r >= 0 && old(Valid()) ==> abs == AddRef(old(abs), bn).(locks := old(abs.locks)[bn := pid])
    {
      hide GoodList, Represents;
      RepresentsShape(bufs, dev, abs);
      r := Bget(bn);
      if r >= 0 {
        HolderAgrees(bufs, dev, abs, r);
        ghost var a := abs.(locks := abs.locks[bn := pid]);
        var b := bufs[r].(pid := pid);
        if !b.valid {
          b := b.(valid := true, data := disk[bn]);
        }
        UpdateHolder(bufs, dev, abs, r, b, a);
        bufs := bufs[r := b];
        abs := a;
      }
    }

    /** Filling a locked buffer's data, as the callers' memmove does. */
    method Fill(r: nat, ghost bn: nat, ghost pid: int, data: Block)
      requires Intact() && Owned(r, bn, pid) && pid != 0
      modifies `bufs, `abs
      ensures Intact() && (old(Valid()) ==> Valid()) && Owned(r, bn, pid)
      ensures bufs == old(bufs)[r := old(bufs[r]).(data := data)]
      ensures abs == old(abs).(view := old(abs.view)[bn := data])
    {
      hide GoodList, Represents;
      HolderAgrees(bufs, dev, abs, r);
      RepresentsShape(bufs, dev, abs);
      ghost var a := abs.(view := abs.view[bn := data]);
      var b := bufs[r].(data := data);
      UpdateHolder(bufs, dev, abs, r, b, a);
      bufs := bufs[r := b];
      abs := a;
    }

    /** bwrite: panics unless the caller holds the sleep lock, else one block write. */
    method Bwrite(r: nat, ghost bn: nat, pid: int) returns (ok: bool)
      requires Intact() && r < NBUF && bufs[r].dev == dev && bufs[r].blockno == bn && bufs[r].valid && pid != 0
      modifies `disk, `abs
      ensures Intact() && (old(Valid()) ==> Valid())
      ensures ok <==> bufs[r].pid == pid
      ensures !ok ==> disk == old(disk) && abs == old(abs)
      ensures ok ==> bn < |old(disk)| && disk == old(disk)[bn := bufs[r].data]
      ensures ok ==> abs == old(abs).(disk := disk, writes := old(abs.writes) + [disk])
    {
      hide GoodList, Represents;
      ok := bufs[r].pid == pid;
      if ok {
        HolderAgrees(bufs, dev, abs, r);
        RepresentsShape(bufs, dev, abs);
        disk := disk[bufs[r].blockno := bufs[r].data];
        ghost var a := abs.(disk := disk, writes := abs.writes + [disk]);
        UpdateHolder(bufs, dev, abs, r, bufs[r], a);
        assert bufs[r := bufs[r]] == bufs;
        abs := a;
      }
    }

    /** brelse: panics unless the caller holds the sleep lock. The last reference moves the buffer to the front.
        The cache stays valid unless the caller gives up the last reference with changes that are not on disk. */
    method Brelse(r: nat, ghost bn: nat, pid: int) returns (ok: bool)
      requires Intact() && r < NBUF && bufs[r].dev == dev && bufs[r].blockno == bn && pid != 0
      requires bn < |disk| && bn < |abs.refs| && bn < |abs.view|
      modifies `bufs, `next, `prev, `abs, `chain, `stamp, `clock
      ensures Intact()
      ensures old(Valid()) ==> (Valid() <==> !ok || old(abs.refs[bn]) > 1 || old(abs.view[bn]) == disk[bn])
      ensures ok <==> old(bufs[r].pid) == pid
      ensures !ok ==> bufs == old(bufs) && abs == old(abs) && chain == old(chain)
      ensures ok ==> old(abs.refs[bn]) > 0 && bn < |old(abs.locks)|
      ensures ok ==> abs == DropRef(old(abs), bn).(locks := old(abs.locks)[bn := 0])
      ensures ok ==> bufs == old(bufs)[r := old(bufs[r]).(pid := 0, refcnt := old(bufs[r].refcnt) - 1)]
      ensures ok && bufs[r].refcnt > 0 ==> chain == old(chain)
      ensures ok && bufs[r].refcnt == 0 ==>
                exists k ::
                  0 < k <= NBUF && k < |old(chain)| && old(chain)[k] == r && chain == MovedToFront(old(chain), k)
    {
      hide GoodList, Represents;
      ok := bufs[r].pid == pid;
      if ok {
        HolderAgrees(bufs, dev, abs, r);
        RepresentsShape(bufs, dev, abs);
        var b := bufs[r].(pid := 0, refcnt := bufs[r].refcnt - 1);
        ghost var a := DropRef(abs, bn).(locks := abs.locks[bn := 0]);
        UpdateHolder(bufs, dev, abs, r, b, a);
        bufs := bufs[r := b];
        abs := a;
        if b.refcnt == 0 {
          Touch(r);
        }
      }
    }

    /** Moving an unreferenced buffer to the front of the list. */
    method Touch(r: nat)
      requires GoodList(next, prev, chain, stamp, clock) && r < NBUF
      modifies `next, `prev, `chain, `stamp, `clock
      ensures GoodList(next, prev, chain, stamp, clock)
      ensures exists k ::
                0 < k <= NBUF && k < |old(chain)| && old(chain)[k] == r && chain == MovedToFront(old(chain), k)
    {
      assert r in chain;
      ghost var k :| 0 <= k < |chain| && chain[k] == r;
      assert 0 < k <= NBUF;
      assert |next| == NBUF + 1 && |prev| == NBUF + 1;
      MoveToFront(next, prev, chain, stamp, clock, k);
      hide GoodList;
      var after, before := next[r], prev[r];
      prev := prev[after := before];
      next := next[before := after];
      var first := next[NBUF];
      next := next[r := first];
      prev := prev[r := NBUF];
      prev := prev[first := r];
      next := next[NBUF := r];
      chain, stamp, clock := MovedToFront(chain, k), stamp[r := clock], clock + 1;
    }

    method Bpin(r: nat, ghost bn: nat)
      requires Intact() && r < NBUF && bufs[r].dev == dev && bufs[r].blockno == bn && bufs[r].refcnt > 0
      modifies `bufs, `abs
      ensures Intact() && (old(Valid()) ==> Valid()) && bn < |old(abs.refs)| && abs == AddRef(old(abs), bn)
      ensures bufs == old(bufs)[r := old(bufs[r]).(refcnt := old(bufs[r].refcnt) + 1)]
    {
      hide GoodList, Represents;
      HolderAgrees(bufs, dev, abs, r);
      RepresentsShape(bufs, dev, abs);
      var b := bufs[r].(refcnt := bufs[r].refcnt + 1);
      UpdateHolder(bufs, dev, abs, r, b, AddRef(abs, bn));
      bufs := bufs[r := b];
      abs := AddRef(abs, bn);
    }

    /** bunpin: unlike brelse it leaves the list alone. Its holder keeps a reference while a block is locked. */
    method Bunpin(r: nat, ghost bn: nat)
      requires Intact() && r < NBUF && bufs[r].dev == dev && bufs[r].blockno == bn
      requires bn < |disk| && bn < |abs.view| && bn < |abs.refs| && bn < |abs.locks| && abs.refs[bn] > 0
      requires abs.refs[bn] == 1 ==> abs.locks[bn] == 0
      modifies `bufs, `abs
      ensures Intact() && (old(Valid()) ==> (Valid() <==> old(abs.refs[bn]) > 1 || old(abs.view[bn]) == disk[bn]))
      ensures bn < |old(abs.refs)| && old(abs.refs[bn]) > 0 && abs == DropRef(old(abs), bn)
      ensures bufs == old(bufs)[r := old(bufs[r]).(refcnt := old(bufs[r].refcnt) - 1)]
    {
      hide GoodList, Represents;
      HolderAgrees(bufs, dev, abs, r);
      RepresentsShape(bufs, dev, abs);
      var b := bufs[r].(refcnt := bufs[r].refcnt - 1);
      UpdateHolder(bufs, dev, abs, r, b, DropRef(abs, bn));
      bufs := bufs[r := b];
      abs := DropRef(abs, bn);
    }
  }
}
