/**
 What the steps of the redo log do to the buffer cache's logical state: copying
 cached blocks to the log, writing the header, installing, and the whole commit.
 */
module LogSteps {
  import opened BufferCache
  import opened Crash
  import opened Counting

  /** The log area is in range, settled, and used by nobody but the log code. */
  ghost predicate Area(a: Cache, start: nat) {
    && |a.disk| == |a.view| == |a.refs| == |a.locks|
    && start + LOGBLOCKS < |a.disk|
    && (forall bn :: start <= bn <= start + LOGBLOCKS ==> a.refs[bn] == 0 && a.locks[bn] == 0)
    && (forall bn :: start <= bn <= start + LOGBLOCKS ==> a.view[bn] == a.disk[bn])
  }

  /** The logged blocks: distinct home blocks, each referenced by its pin and unlocked. */
  ghost predicate Pins(a: Cache, start: nat, blocks: seq<int>) {
    && |a.disk| == |a.view| == |a.refs| == |a.locks|
    && |blocks| <= LOGBLOCKS
    && (forall i :: 0 <= i < |blocks| ==> IsHome(|a.disk|, start, blocks[i]))
    && (forall i :: 0 <= i < |blocks| ==> a.refs[blocks[i]] > 0 && a.locks[blocks[i]] == 0)
    && (forall i, j :: 0 <= i < j < |blocks| ==> blocks[i] != blocks[j])
  }

  /** A list of blocks repeats the header on disk. */
  ghost predicate HeaderIs(d: Disk, start: nat, blocks: seq<int>) {
    && GoodDisk(d, start) && |blocks| == Count(d, start) <= LOGBLOCKS
    && forall i :: 0 <= i < |blocks| ==> blocks[i] == d[start][i + 1]
  }

  /** A block written through the cache: disk and view change together, one more disk state. */
  ghost function Wrote(a: Cache, bn: nat, data: Block): Cache
    requires bn < |a.disk| && bn < |a.view|
  {
    a.(disk := a.disk[bn := data], view := a.view[bn := data], writes := a.writes + [a.disk[bn := data]])
  }

  /** Taking a reference and the lock, and giving both back, changes nothing. */
  lemma HoldAndRelease(a: Cache, bn: nat, pid: int)
    requires bn < |a.refs| == |a.locks| && a.locks[bn] == 0
    ensures var h := AddRef(a, bn).(locks := a.locks[bn := pid]);
            DropRef(h, bn).(locks := h.locks[bn := 0]) == a
  {
    assert a.refs[bn := a.refs[bn] + 1][bn := a.refs[bn]] == a.refs;
    assert a.locks[bn := pid][bn := 0] == a.locks;
  }

  ghost function LoggedStates(d: Disk, start: nat, vals: seq<Block>, k: nat): seq<Disk>
    requires k <= |vals| <= LOGBLOCKS && start + LOGBLOCKS < |d|
  {
    seq(k, j requires 0 <= j < k => Logged(d, start, vals, j + 1))
  }

  ghost function InstalledStates(d: Disk, start: nat, k: nat): seq<Disk>
    requires GoodDisk(d, start) && k <= Count(d, start)
  {
    seq(k, j requires 0 <= j < k => Installed(d, start, j + 1))
  }

  /** The cache after the first k turns of write_log, given the contents to log. */
  ghost function LoggedAll(a: Cache, start: nat, vals: seq<Block>, k: nat): (r: Cache)
    requires k <= |vals| <= LOGBLOCKS && start + LOGBLOCKS < |a.disk| == |a.view|
    ensures |r.disk| == |r.view| == |a.disk|
    ensures r.refs == a.refs && r.locks == a.locks && r.spare == a.spare
  {
    if k == 0 then a else Wrote(LoggedAll(a, start, vals, k - 1), start + k, vals[k - 1])
  }

  lemma {:induction false} LoggedAllIs(a: Cache, start: nat, vals: seq<Block>, k: nat)
    requires k <= |vals| <= LOGBLOCKS && start + LOGBLOCKS < |a.disk| == |a.view|
    ensures var r := LoggedAll(a, start, vals, k);
            && r.disk == Logged(a.disk, start, vals, k) && r.view == Logged(a.view, start, vals, k)
            && r.writes == a.writes + LoggedStates(a.disk, start, vals, k)
  {
    if k > 0 {
      LoggedAllIs(a, start, vals, k - 1);
      assert LoggedStates(a.disk, start, vals, k)
          == LoggedStates(a.disk, start, vals, k - 1) + [Logged(a.disk, start, vals, k)];
    }
  }

  /** What a view holds for a list of blocks. */
  ghost function ContentsOf(view: Disk, blocks: seq<int>): (vals: seq<Block>)
    requires forall i :: 0 <= i < |blocks| ==> 0 <= blocks[i] < |view|
    ensures |vals| == |blocks| && forall i :: 0 <= i < |blocks| ==> vals[i] == view[blocks[i]]
  {
    seq(|blocks|, i requires 0 <= i < |blocks| => view[blocks[i]])
  }

  ghost function InstallEffect(a: Cache, hb: nat, data: Block, recovering: bool): Cache
    requires hb < |a.disk| && hb < |a.view| && hb < |a.refs| && (!recovering ==> a.refs[hb] > 0)
  {
    if recovering then Wrote(a, hb, data) else DropRef(Wrote(a, hb, data), hb)
  }

  /** Holding a log block and a home block, installing, and releasing both nets to the installation. */
  lemma PairNets(a: Cache, lb: nat, hb: nat, pid: int, data: Block, recovering: bool)
    requires lb != hb && lb < |a.disk| && hb < |a.disk|
    requires |a.disk| == |a.view| == |a.refs| == |a.locks|
    requires a.refs[lb] == 0 && a.locks[lb] == 0 && a.locks[hb] == 0
    requires !recovering ==> a.refs[hb] > 0
    ensures var h1 := AddRef(a, lb).(locks := a.locks[lb := pid]);
            var h2 := AddRef(h1, hb).(locks := h1.locks[hb := pid]);
            var w := InstallEffect(h2, hb, data, recovering);
            var r1 := DropRef(w, lb).(locks := w.locks[lb := 0]);
            DropRef(r1, hb).(locks := r1.locks[hb := 0]) == InstallEffect(a, hb, data, recovering)
  {
    assert a.locks[lb := pid][hb := pid][lb := 0][hb := 0] == a.locks;
    if recovering {
      assert a.refs[lb := 1][hb := a.refs[hb] + 1][lb := 0][hb := a.refs[hb]] == a.refs;
    } else {
      assert a.refs[lb := 1][hb := a.refs[hb] + 1][hb := a.refs[hb]][lb := 0][hb := a.refs[hb] - 1]
          == a.refs[hb := a.refs[hb] - 1];
    }
  }

  /** What install_trans relies on. When not recovering, every logged block is pinned and its log copy is
      its cached contents; when recovering, the cache agrees with the disk. */
  ghost predicate InstallReady(a: Cache, start: nat, blocks: seq<int>, recovering: bool) {
    && Area(a, start) && HeaderIs(a.disk, start, blocks)
    && (forall i :: 0 <= i < |blocks| ==> 0 <= blocks[i] < |a.disk| && a.locks[blocks[i]] == 0)
    && a.spare >= (if recovering then 2 else 1)
    && if recovering then a.view == a.disk
       else Pins(a, start, blocks) && forall i :: 0 <= i < |blocks| ==> a.view[blocks[i]] == a.disk[start + 1 + i]
  }

  /** The cache after the first k turns of install_trans. */
  ghost predicate InstallProgress(a: Cache, now: Cache, start: nat, blocks: seq<int>, recovering: bool, k: nat) {
    && InstallReady(a, start, blocks, recovering) && k <= |blocks|
    && |now.refs| == |a.refs|
    && now.disk == Installed(a.disk, start, k)
    && now.view == (if recovering then now.disk else a.view)
    && now.writes == a.writes + InstalledStates(a.disk, start, k)
    && now.locks == a.locks && now.spare >= a.spare
    && (recovering ==> now.refs == a.refs)
    && (!recovering ==> forall i :: 0 <= i < k ==> now.refs[blocks[i]] == a.refs[blocks[i]] - 1)
    && (!recovering ==> forall bn :: 0 <= bn < |a.refs| && bn !in blocks[..k] ==> now.refs[bn] == a.refs[bn])
  }

  lemma InstallStart(a: Cache, start: nat, blocks: seq<int>, recovering: bool)
    requires InstallReady(a, start, blocks, recovering)
    ensures InstallProgress(a, a, start, blocks, recovering, 0)
  {
  }

  /** Between turns the log area is as it was. */
  lemma InstallKeepsArea(a: Cache, now: Cache, start: nat, blocks: seq<int>, recovering: bool, k: nat)
    requires InstallProgress(a, now, start, blocks, recovering, k)
    ensures Area(now, start)
    ensures |now.disk| == |a.disk| == |now.view| == |now.refs| == |now.locks| && start + LOGBLOCKS < |a.disk|
    ensures forall bn :: start <= bn <= start + LOGBLOCKS ==>
              now.refs[bn] == 0 && now.locks[bn] == 0 && now.view[bn] == now.disk[bn] == a.disk[bn]
    ensures now.spare >= if recovering then 2 else 1
  {
    hide Installed;
    InstalledSameLog(a.disk, start, k);
    forall bn | start <= bn <= start + LOGBLOCKS
      ensures now.refs[bn] == 0 && now.locks[bn] == 0 && now.view[bn] == now.disk[bn] == a.disk[bn]
    {
      assert !recovering ==> bn !in blocks[..k] by { LogAreaNotLogged(a.disk, start, blocks, k, bn); }
    }
  }

  /** Between turns the next turn can be taken. */
  lemma InstallNext(a: Cache, now: Cache, start: nat, blocks: seq<int>, recovering: bool, k: nat)
    requires InstallProgress(a, now, start, blocks, recovering, k) && k < |blocks|
    requires |now.disk| == |a.disk| == |now.view| == |now.refs| == |now.locks|
    ensures IsHome(|a.disk|, start, blocks[k])
    ensures now.locks[blocks[k]] == 0 && (!recovering ==> now.refs[blocks[k]] > 0)
  {
    hide Installed;
    assert blocks[k] == a.disk[start][k + 1];
    assert IsHome(|a.disk|, start, a.disk[start][k + 1]);
    assert !recovering ==> blocks[k] !in blocks[..k];
  }

  lemma LogAreaNotLogged(d: Disk, start: nat, blocks: seq<int>, k: nat, bn: nat)
    requires GoodDisk(d, start) && k <= |blocks| == Count(d, start) && start <= bn <= start + LOGBLOCKS
    requires forall i :: 0 <= i < |blocks| ==> blocks[i] == d[start][i + 1]
    ensures bn !in blocks[..k]
  {
    forall i | 0 <= i < k ensures blocks[i] != bn {
      assert IsHome(|d|, start, d[start][i + 1]);
    }
  }

  /** Taking the next turn makes progress. */
  lemma InstallStep(a: Cache, now: Cache, start: nat, blocks: seq<int>, recovering: bool, k: nat)
    requires InstallProgress(a, now, start, blocks, recovering, k) && k < |blocks|
    requires IsHome(|a.disk|, start, blocks[k]) && |now.disk| == |a.disk| == |now.view| == |now.refs|
    requires !recovering ==> now.refs[blocks[k]] > 0
    requires k < LOGBLOCKS && start + LOGBLOCKS < |a.disk| && now.view[start + k + 1] == a.disk[start + k + 1]
    ensures InstallProgress(a, InstallEffect(now, blocks[k], now.view[start + k + 1], recovering),
                            start, blocks, recovering, k + 1)
  {
    hide GoodHeader;
    var next := InstallEffect(now, blocks[k], now.view[start + k + 1], recovering);
    assert next.disk == Installed(a.disk, start, k + 1);
    assert InstalledStates(a.disk, start, k + 1)
        == InstalledStates(a.disk, start, k) + [Installed(a.disk, start, k + 1)];
    if !recovering {
      assert a.view[blocks[k]] == a.disk[start + 1 + k];
      assert next.view == a.view;
      assert blocks[..k + 1] == blocks[..k] + [blocks[k]];
      assert blocks[k] !in blocks[..k];
    }
  }

  /** The disk states recovery passes through, one per block write. */
  ghost function RecoveryWrites(d: Disk, start: nat): seq<Disk>
    requires GoodDisk(d, start)
  {
    seq(Count(d, start) + 1, j requires 0 <= j < Count(d, start) + 1 => RecoveryState(d, start, j + 1))
  }

  lemma RecoveryWritesAre(d: Disk, start: nat)
    requires GoodDisk(d, start)
    ensures RecoveryWrites(d, start) ==
            InstalledStates(d, start, Count(d, start))
            + [Recovered(d, start)]
  {
    hide Installed, GoodHeader, Recovered;
  }

  lemma EmptyHeader(h: Block, none: seq<nat>)
    requires |h| > 0 && none == []
    ensures HeaderFor(h, none) == ClearHeader(h)
  {
  }

  /** The disk states commit passes through, one per block write. */
  ghost function CommitWrites(d: Disk, start: nat, lh: seq<nat>, vals: seq<Block>): seq<Disk>
    requires GoodTransaction(d, start, lh, vals)
  {
    seq(2 * |lh| + 2, j requires 0 <= j < 2 * |lh| + 2 => CommitState(d, start, lh, vals, j + 1))
  }

  /** What a completed commit has done to the cache. */
  ghost predicate Committed(a: Cache, now: Cache, start: nat, lh: seq<int>, vals: seq<Block>) {
    && (forall i :: 0 <= i < |lh| ==> lh[i] >= 0)
    && GoodTransaction(a.disk, start, lh, vals)
    && |a.disk| == |a.view| == |a.refs| == |a.locks| == |now.disk| == |now.view| == |now.refs| == |now.locks|
    && now.disk == CommitState(a.disk, start, lh, vals, 2 * |lh| + 2)
    && now.writes == a.writes + CommitWrites(a.disk, start, lh, vals)
    && now.locks == a.locks && now.spare >= a.spare
    && (forall bn :: IsHome(|a.disk|, start, bn) ==> now.view[bn] == a.view[bn])
    && (forall bn :: start <= bn <= start + LOGBLOCKS ==> now.view[bn] == now.disk[bn] && now.refs[bn] == 0)
    && (forall bn :: 0 <= bn < |a.refs| ==> now.refs[bn] + (if bn in lh then 1 else 0) == a.refs[bn])
  }

  /** A commit with a spare buffer has all it relies on. */
  lemma ReadyToCommit(a: Cache, start: nat, lh: seq<int>)
    requires Area(a, start) && Pins(a, start, lh) && 0 < |lh|
    requires GoodDisk(a.disk, start) && Count(a.disk, start) == 0
    ensures forall i :: 0 <= i < |lh| ==> 0 <= lh[i] < |a.view|
    ensures a.spare > 0 ==> CommitReady(a, start, lh, ContentsOf(a.view, lh))
    ensures |a.disk[start]| > LOGBLOCKS
  {
  }

  /** What holds of the cache at the start of a commit. */
  ghost predicate CommitReady(a: Cache, start: nat, lh: seq<int>, vals: seq<Block>) {
    && Area(a, start) && Pins(a, start, lh)
    && (forall i :: 0 <= i < |lh| ==> lh[i] >= 0)
    && GoodTransaction(a.disk, start, lh, vals)
    && (forall i :: 0 <= i < |lh| ==> a.view[lh[i]] == vals[i])
    && a.spare > 0
  }

  /** The header write brings the disk to its committed state. */
  lemma CommitPointDisk(a: Cache, c: Cache, start: nat, lh: seq<int>, vals: seq<Block>)
    requires CommitReady(a, start, lh, vals)
    requires c == Wrote(LoggedAll(a, start, vals, |lh|), start, HeaderFor(a.disk[start], lh))
    ensures c.disk == AtCommit(a.disk, start, lh, vals)
    ensures c.writes == a.writes + LoggedStates(a.disk, start, vals, |lh|) + [c.disk]
    ensures c.refs == a.refs && c.locks == a.locks && c.spare == a.spare && |c.view| == |a.view| == |c.disk|
    ensures forall bn :: IsHome(|a.disk|, start, bn) ==> c.view[bn] == a.view[bn]
    ensures forall bn :: start <= bn <= start + LOGBLOCKS ==> c.view[bn] == c.disk[bn]
  {
    hide Logged, GoodHeader;
    LoggedAllIs(a, start, vals, |lh|);
    LoggedArea(a, start, vals, |lh|);
  }

  /** The cache at the commit point: the header has been written, nothing has been installed. */
  ghost predicate AtPoint(a: Cache, c: Cache, start: nat, lh: seq<int>, vals: seq<Block>) {
    && CommitReady(a, start, lh, vals)
    && c.disk == AtCommit(a.disk, start, lh, vals)
    && c.writes == a.writes + LoggedStates(a.disk, start, vals, |lh|) + [c.disk]
    && c.refs == a.refs && c.locks == a.locks && c.spare == a.spare && |c.view| == |c.disk| == |a.view|
    && forall bn :: IsHome(|a.disk|, start, bn) ==> c.view[bn] == a.view[bn]
  }

  /** The header write is the commit point, and install_trans can start from it. */
  lemma CommitPoint(a: Cache, c: Cache, start: nat, lh: seq<int>, vals: seq<Block>)
    requires CommitReady(a, start, lh, vals) && |LoggedAll(a, start, vals, |lh|).disk| == |a.disk|
    requires c == Wrote(LoggedAll(a, start, vals, |lh|), start, HeaderFor(a.disk[start], lh))
    ensures AtPoint(a, c, start, lh, vals) && InstallReady(c, start, lh, false)
  {
    hide AtCommit, GoodHeader, Logged, LoggedAll, Wrote, InstallReady, HeaderFor;
    CommitPointDisk(a, c, start, lh, vals);
    CommitPointReady(a, c, start, lh, vals);
  }

  lemma CommitPointReady(a: Cache, c: Cache, start: nat, lh: seq<int>, vals: seq<Block>)
    requires CommitReady(a, start, lh, vals) && c.disk == AtCommit(a.disk, start, lh, vals)
    requires c.refs == a.refs && c.locks == a.locks && c.spare == a.spare && |c.view| == |a.view|
    requires forall bn :: IsHome(|a.disk|, start, bn) ==> c.view[bn] == a.view[bn]
    requires forall bn :: start <= bn <= start + LOGBLOCKS ==> c.view[bn] == c.disk[bn]
    ensures InstallReady(c, start, lh, false)
  {
    hide AtCommit, GoodHeader;
    AtCommitIsGood(a.disk, start, lh, vals);
    forall i | 0 <= i < |lh| ensures c.view[lh[i]] == c.disk[start + 1 + i] {
      assert IsHome(|a.disk|, start, lh[i]);
      assert a.view[lh[i]] == vals[i];
    }
  }

  /** After installing, the header can be written once more. */
  lemma InstallDone(a: Cache, c: Cache, now: Cache, start: nat, lh: seq<int>, vals: seq<Block>)
    requires AtPoint(a, c, start, lh, vals) && InstallProgress(c, now, start, lh, false, |lh|)
    ensures Area(now, start) && now.spare > 0
    ensures start < |now.disk| == |now.view| && |now.disk[start]| > LOGBLOCKS
  {
    hide Installed, AtCommit;
    InstallKeepsArea(c, now, start, lh, false, |lh|);
  }

  /** The last header write completes the commit. */
  lemma CommitDone(a: Cache, c: Cache, now: Cache, start: nat, lh: seq<int>, vals: seq<Block>, none: seq<nat>)
    requires AtPoint(a, c, start, lh, vals) && InstallProgress(c, now, start, lh, false, |lh|)
    requires none == [] && start < |now.disk| == |now.view| && |now.disk[start]| > LOGBLOCKS
    ensures Committed(a, Wrote(now, start, HeaderFor(now.disk[start], none)), start, lh, vals)
  {
    hide Logged, Installed, GoodHeader, AtCommit, GoodTransaction, LoggedStates, InstalledStates, CommitWrites,
      HeaderFor, Recovered, CommitState, GoodDisk;
    EmptyHeader(now.disk[start], none);
    var f := Wrote(now, start, ClearHeader(now.disk[start]));
    CommitDoneDisk(a, c, now, start, lh, vals);
    CommitDoneRefs(a, c, now, start, lh, vals);
  }

  lemma CommitDoneDisk(a: Cache, c: Cache, now: Cache, start: nat, lh: seq<int>, vals: seq<Block>)
    requires AtPoint(a, c, start, lh, vals) && InstallProgress(c, now, start, lh, false, |lh|)
    requires start < |now.disk| == |now.view| && |now.disk[start]| > LOGBLOCKS
    ensures (forall i :: 0 <= i < |lh| ==> lh[i] >= 0) && GoodTransaction(a.disk, start, lh, vals)
    ensures var f := Wrote(now, start, ClearHeader(now.disk[start]));
            f.disk == CommitState(a.disk, start, lh, vals, 2 * |lh| + 2)
            && f.writes == a.writes + CommitWrites(a.disk, start, lh, vals)
  {
    hide Logged, Installed, GoodHeader, AtCommit, GoodTransaction, LoggedStates, InstalledStates, CommitWrites;
    AtCommitIsGood(a.disk, start, lh, vals);
    InstalledSameLog(c.disk, start, |lh|);
    var f := Wrote(now, start, ClearHeader(now.disk[start]));
    assert f.disk == Recovered(c.disk, start);
    CommitWritesAre(a.disk, start, lh, vals);
  }

  lemma CommitDoneRefs(a: Cache, c: Cache, now: Cache, start: nat, lh: seq<int>, vals: seq<Block>)
    requires AtPoint(a, c, start, lh, vals) && InstallProgress(c, now, start, lh, false, |lh|)
    requires start < |now.disk| == |now.view|
    ensures |now.disk| == |a.disk| == |now.view| == |a.view| == |now.refs| == |a.refs| == |now.locks| == |a.locks|
    ensures now.locks == a.locks && now.spare >= a.spare && start + LOGBLOCKS < |a.disk|
    ensures forall bn :: start <= bn <= start + LOGBLOCKS ==> now.view[bn] == now.disk[bn] && now.refs[bn] == 0
    ensures forall bn :: IsHome(|a.disk|, start, bn) ==> now.view[bn] == a.view[bn]
    ensures forall bn :: 0 <= bn < |a.refs| ==> now.refs[bn] + (if bn in lh then 1 else 0) == a.refs[bn]
  {
    hide Logged, Installed, GoodHeader, AtCommit, GoodTransaction, LoggedStates, InstalledStates, CommitWrites,
      GoodDisk;
    InstallKeepsArea(c, now, start, lh, false, |lh|);
    assert lh[..|lh|] == lh;
    forall bn | 0 <= bn < |a.refs| ensures now.refs[bn] + (if bn in lh then 1 else 0) == a.refs[bn] {
      if bn in lh {
        var i :| 0 <= i < |lh| && lh[i] == bn;
        assert now.refs[lh[i]] == c.refs[lh[i]] - 1;
      }
    }
  }

  lemma CommitWritesAre(d: Disk, start: nat, lh: seq<nat>, vals: seq<Block>)
    requires GoodTransaction(d, start, lh, vals)
    ensures var c := AtCommit(d, start, lh, vals);
            && GoodDisk(c, start) && Count(c, start) == |lh|
            && CommitWrites(d, start, lh, vals) ==
               LoggedStates(d, start, vals, |lh|) + [c]
               + InstalledStates(c, start, |lh|) + [Recovered(c, start)]
  {
    hide Installed, Recovered, Logged, GoodHeader, AtCommit;
    AtCommitIsGood(d, start, lh, vals);
    var c := AtCommit(d, start, lh, vals);
    InstalledNone(c, start);
  }

  lemma InstalledNone(d: Disk, start: nat)
    requires GoodDisk(d, start)
    ensures Installed(d, start, 0) == d
  {
  }

  /** Logging keeps the log area and the pins. */
  lemma LoggedKeepsArea(a: Cache, start: nat, vals: seq<Block>, k: nat)
    requires Area(a, start) && k <= |vals| <= LOGBLOCKS
    ensures Area(LoggedAll(a, start, vals, k), start)
    ensures LoggedAll(a, start, vals, k).disk[start] == a.disk[start]
  {
    hide LoggedAll;
    LoggedArea(a, start, vals, k);
  }

  /** Logging changes no home block and keeps the log area settled. */
  lemma LoggedArea(a: Cache, start: nat, vals: seq<Block>, k: nat)
    requires k <= |vals| <= LOGBLOCKS && start + LOGBLOCKS < |a.disk| == |a.view|
    requires forall bn :: start <= bn <= start + LOGBLOCKS ==> a.view[bn] == a.disk[bn]
    ensures var r := LoggedAll(a, start, vals, k);
            && (forall bn :: start <= bn <= start + LOGBLOCKS ==> r.view[bn] == r.disk[bn])
            && (forall bn :: IsHome(|a.disk|, start, bn) ==> r.view[bn] == a.view[bn] && r.disk[bn] == a.disk[bn])
            && r.disk[start] == a.disk[start]
  {
    LoggedAllIs(a, start, vals, k);
    forall bn | 0 <= bn < |a.disk|
      ensures LoggedAll(a, start, vals, k).disk[bn] ==
          if start < bn <= start + k then vals[bn - start - 1] else a.disk[bn]
      ensures LoggedAll(a, start, vals, k).view[bn] ==
          if start < bn <= start + k then vals[bn - start - 1] else a.view[bn]
    {
      LoggedAt(a.disk, start, vals, k, bn);
      LoggedAt(a.view, start, vals, k, bn);
    }
  }

  /** Between turns of write_log the next turn can be taken. */
  lemma LogNext(a: Cache, now: Cache, start: nat, blocks: seq<int>, vals: seq<Block>, k: nat)
    requires Area(a, start) && Pins(a, start, blocks) && k < |blocks| == |vals| <= LOGBLOCKS
    requires forall i :: 0 <= i < |blocks| ==> 0 <= blocks[i] < |a.view|
    requires vals == ContentsOf(a.view, blocks) && now == LoggedAll(a, start, vals, k)
    ensures Area(now, start) && IsHome(|now.disk|, start, blocks[k])
    ensures now.refs[blocks[k]] > 0 && now.locks[blocks[k]] == 0
    ensures LoggedAll(a, start, vals, k + 1) == Wrote(now, start + k + 1, now.view[blocks[k]])
  {
    LoggedKeepsArea(a, start, vals, k);
    LoggedArea(a, start, vals, k);
  }

  lemma LoggedNone(a: Cache, start: nat, vals: seq<Block>)
    requires |vals| <= LOGBLOCKS && start + LOGBLOCKS < |a.disk| == |a.view|
    ensures LoggedAll(a, start, vals, 0) == a
  {
  }

  lemma AreaShape(a: Cache, start: nat)
    requires Area(a, start)
    ensures |a.disk| == |a.view| == |a.refs| == |a.locks| && start + LOGBLOCKS < |a.disk|
  {
  }

  // ---------------------------------------------------------------- when a commit can run at all

  ghost function Referenced(bufs: seq<Buf>): set<int> {
    set i | 0 <= i < |bufs| && bufs[i].refcnt > 0
  }

  ghost function Holders(bufs: seq<Buf>, dev: nat, blocks: set<int>): set<int> {
    set i | 0 <= i < |bufs| && bufs[i].dev == dev && bufs[i].blockno in blocks
  }

  lemma {:induction false} SpareAndReferenced(bufs: seq<Buf>)
    ensures CountSpare(bufs) + |Referenced(bufs)| == |bufs|
  {
    if bufs == [] {
      assert Referenced(bufs) == {};
    } else {
      var n := |bufs| - 1;
      SpareAndReferenced(bufs[..n]);
      var before := Referenced(bufs[..n]);
      if bufs[n].refcnt > 0 {
        assert Referenced(bufs) == before + {n};
      } else {
        assert Referenced(bufs) == before;
      }
    }
  }

  lemma TheHolder(bufs: seq<Buf>, dev: nat, a: Cache, bn: nat) returns (h: nat)
    requires Represents(bufs, dev, a) && bn < |a.refs| && a.refs[bn] > 0
    ensures h < |bufs| && forall i :: Holds(bufs, dev, i, bn) <==> i == h
  {
    assert Settled(bufs, dev, a, bn);
    h :| Holds(bufs, dev, h, bn);
  }

  lemma {:induction false} OneHolderEach(bufs: seq<Buf>, dev: nat, a: Cache, blocks: set<int>)
    requires Represents(bufs, dev, a)
    requires forall bn :: bn in blocks ==> 0 <= bn < |a.refs| && a.refs[bn] > 0
    ensures |Holders(bufs, dev, blocks)| == |blocks|
  {
    hide Represents;
    if blocks == {} {
      assert Holders(bufs, dev, blocks) == {};
    } else {
      var last := AnElement(blocks);
      var rest := blocks - {last};
      OneHolderEach(bufs, dev, a, rest);
      var h := TheHolder(bufs, dev, a, last);
      assert blocks == rest + {last};
      AddHolder(bufs, dev, rest, last, h);
    }
  }

  lemma AddHolder(bufs: seq<Buf>, dev: nat, rest: set<int>, last: nat, h: nat)
    requires last !in rest && h < |bufs| && forall i :: Holds(bufs, dev, i, last) <==> i == h
    ensures |Holders(bufs, dev, rest + {last})| == |Holders(bufs, dev, rest)| + 1
  {
    assert Holds(bufs, dev, h, last);
    var more := Holders(bufs, dev, rest + {last});
    forall i ensures i in more <==> i in Holders(bufs, dev, rest) + {h} {
      assert Holds(bufs, dev, i, last) <==> i == h;
    }
    assert more == Holders(bufs, dev, rest) + {h};
  }

  /** A buffer is spare for every buffer that no referenced block occupies. */
  lemma SpareIsCounted(bufs: seq<Buf>, dev: nat, a: Cache, referenced: set<int>)
    requires |bufs| == NBUF && Represents(bufs, dev, a)
    requires forall bn :: bn in referenced <==> 0 <= bn < |a.refs| && a.refs[bn] > 0
    ensures a.spare == NBUF - |referenced|
  {
    SpareAndReferenced(bufs);
    OneHolderEach(bufs, dev, a, referenced);
    forall i ensures i in Referenced(bufs) <==> i in Holders(bufs, dev, referenced) {
      if 0 <= i < |bufs| {
        assert Agrees(bufs[i], dev, a);
      }
    }
    assert Referenced(bufs) == Holders(bufs, dev, referenced);
  }

  /** When the pins of the logged blocks are the only references, a buffer is spare for every buffer the
      log does not pin: commit panics exactly when NBUF blocks are logged, which the log allows. */
  lemma PinsUseUpTheCache(bufs: seq<Buf>, dev: nat, a: Cache, start: nat, lh: seq<int>)
    requires |bufs| == NBUF && Represents(bufs, dev, a) && Pins(a, start, lh)
    requires forall bn :: 0 <= bn < |a.refs| && a.refs[bn] > 0 ==> bn in lh
    ensures a.spare == NBUF - |lh|
    ensures a.spare > 0 <==> |lh| < NBUF
  {
    hide Represents;
    SpareIsCounted(bufs, dev, a, Elements(lh));
    ElementsSize(lh);
  }
}
