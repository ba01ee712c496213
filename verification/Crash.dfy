/**
 The on-disk redo log as a value: which disk states a commit and a recovery
 pass through, one block write at a time, and what recovery makes of each.

 Block `start` is the log header, the LOGBLOCKS blocks after it hold logged
 contents, every other block is a home block.
 */
module Crash {
  import opened BufferCache

  const MAXOPBLOCKS: nat := 10
  const LOGBLOCKS: nat := 30

  predicate IsHome(size: nat, start: nat, bn: int) {
    0 <= bn < size && !(start <= bn <= start + LOGBLOCKS)
  }

  /** The header block is `struct logheader`: the count, then the block numbers. */
  function HeaderCount(h: Block): nat {
    if |h| == 0 || h[0] < 0 then 0 else h[0]
  }

  predicate GoodHeader(h: Block, size: nat, start: nat) {
    && |h| > LOGBLOCKS && 0 <= h[0] <= LOGBLOCKS
    && forall i :: 1 <= i <= HeaderCount(h) ==> IsHome(size, start, h[i])
  }

  /** A disk whose log area fits and whose header names home blocks only. */
  predicate GoodDisk(d: Disk, start: nat) {
    start + LOGBLOCKS < |d| && GoodHeader(d[start], |d|, start)
  }

  function Count(d: Disk, start: nat): nat
    requires GoodDisk(d, start)
  {
    HeaderCount(d[start])
  }

  // ---------------------------------------------------------------- recovery

  /** install_trans after its first k block writes. */
  function Installed(d: Disk, start: nat, k: nat): (r: Disk)
    requires GoodDisk(d, start) && k <= Count(d, start)
    ensures |r| == |d|
  {
    if k == 0 then d
    else Installed(d, start, k - 1)[d[start][k] := d[start + k]]
  }

  function ClearHeader(h: Block): Block
    requires |h| > 0
  {
    h[0 := 0]
  }

  /** recover_from_log run to completion. */
  function Recovered(d: Disk, start: nat): Disk
    requires GoodDisk(d, start)
  {
    Installed(d, start, Count(d, start))[start := ClearHeader(d[start])]
  }

  /** The disk after the first k block writes of recover_from_log. */
  function RecoveryState(d: Disk, start: nat, k: nat): Disk
    requires GoodDisk(d, start) && k <= Count(d, start) + 1
  {
    if k <= Count(d, start) then Installed(d, start, k) else Recovered(d, start)
  }

  /** Installing writes home blocks only. */
  lemma {:induction false} InstalledKeepsLog(d: Disk, start: nat, k: nat, bn: nat)
    requires GoodDisk(d, start) && k <= Count(d, start)
    requires start <= bn <= start + LOGBLOCKS
    ensures Installed(d, start, k)[bn] == d[bn]
  {
    if k > 0 {
      InstalledKeepsLog(d, start, k - 1, bn);
      assert IsHome(|d|, start, d[start][k]);
    }
  }

  /** The last of the first k log entries for a block, or 0. */
  function LastEntry(h: Block, k: nat, bn: nat): nat
    requires k < |h|
  {
    if k == 0 then 0 else if h[k] == bn then k else LastEntry(h, k - 1, bn)
  }

  lemma {:induction false} LastEntryBound(h: Block, k: nat, bn: nat)
    requires k < |h|
    ensures LastEntry(h, k, bn) <= k
  {
    if k > 0 { LastEntryBound(h, k - 1, bn); }
  }

  /** An installed home block holds its last log entry, or what it held before. */
  lemma {:induction false} InstalledAt(d: Disk, start: nat, k: nat, bn: nat)
    requires GoodDisk(d, start) && k <= Count(d, start) && IsHome(|d|, start, bn)
    ensures LastEntry(d[start], k, bn) <= k
    ensures Installed(d, start, k)[bn] ==
            var e := LastEntry(d[start], k, bn); if e == 0 then d[bn] else d[start + e]
  {
    LastEntryBound(d[start], k, bn);
    if k > 0 {
      InstalledAt(d, start, k - 1, bn);
      LastEntryBound(d[start], k - 1, bn);
      assert IsHome(|d|, start, d[start][k]);
    }
  }

  /** A partly installed disk is still a good disk with the same log. */
  lemma InstalledSameLog(d: Disk, start: nat, k: nat)
    requires GoodDisk(d, start) && k <= Count(d, start)
    ensures GoodDisk(Installed(d, start, k), start)
    ensures Installed(d, start, k)[start] == d[start]
    ensures forall bn :: start <= bn <= start + LOGBLOCKS ==> Installed(d, start, k)[bn] == d[bn]
  {
    forall bn | start <= bn <= start + LOGBLOCKS ensures Installed(d, start, k)[bn] == d[bn] {
      InstalledKeepsLog(d, start, k, bn);
    }
  }

  lemma {:induction false} LastEntryMonotone(h: Block, k: nat, n: nat, bn: nat)
    requires k <= n < |h|
    ensures LastEntry(h, n, bn) == 0 ==> LastEntry(h, k, bn) == 0
  {
    if k < n { LastEntryMonotone(h, k, n - 1, bn); }
  }

  /** Installing again over a partly installed disk ends in the same disk. */
  lemma ReinstallAt(d: Disk, start: nat, k: nat, bn: nat)
    requires GoodDisk(d, start) && k <= Count(d, start) && bn < |d|
    ensures GoodDisk(Installed(d, start, k), start)
    ensures Count(Installed(d, start, k), start) == Count(d, start)
    ensures Installed(Installed(d, start, k), start, Count(d, start))[bn] == Installed(d, start, Count(d, start))[bn]
  {
    hide Installed;
    InstalledSameLog(d, start, k);
    var d', n := Installed(d, start, k), Count(d, start);
    if IsHome(|d|, start, bn) {
      InstalledAt(d', start, n, bn);
      InstalledAt(d, start, n, bn);
      InstalledAt(d, start, k, bn);
      LastEntryMonotone(d[start], k, n, bn);
    } else {
      InstalledKeepsLog(d', start, n, bn);
      InstalledKeepsLog(d, start, n, bn);
    }
  }

  /** Whatever block write recovery is cut short after, recovering again gives the same disk. */
  lemma RecoveryIsRestartable(d: Disk, start: nat, k: nat)
    requires GoodDisk(d, start) && k <= Count(d, start) + 1
    ensures GoodDisk(RecoveryState(d, start, k), start)
    ensures Recovered(RecoveryState(d, start, k), start) == Recovered(d, start)
  {
    hide Installed;
    var n := Count(d, start);
    if k <= n {
      InstalledSameLog(d, start, k);
      forall bn | 0 <= bn < |d|
        ensures Installed(Installed(d, start, k), start, n)[bn] == Installed(d, start, n)[bn]
      {
        ReinstallAt(d, start, k, bn);
      }
      assert Installed(Installed(d, start, k), start, n) == Installed(d, start, n);
    } else {
      RecoveredIsFixed(d, start);
    }
  }

  lemma RecoveredIsFixed(d: Disk, start: nat)
    requires GoodDisk(d, start)
    ensures GoodDisk(Recovered(d, start), start) && Count(Recovered(d, start), start) == 0
    ensures Recovered(Recovered(d, start), start) == Recovered(d, start)
  {
    var r := Recovered(d, start);
    assert r[start] == ClearHeader(d[start]);
    assert Installed(r, start, 0) == r;
    assert ClearHeader(r[start]) == r[start];
  }

  /** Booting again and again: each boot's recovery is cut short after some number of block writes,
      until the last one runs to completion. */
  function CrashRun(d: Disk, start: nat, cuts: seq<nat>): Disk
    requires GoodDisk(d, start)
    decreases |cuts|
  {
    if cuts == [] then Recovered(d, start)
    else
      var k := if cuts[0] <= Count(d, start) then cuts[0] else Count(d, start) + 1;
      RecoveryIsRestartable(d, start, k);
      CrashRun(RecoveryState(d, start, k), start, cuts[1..])
  }

  /** Any number of crashes during recovery make no difference to the disk a completed recovery leaves. */
  lemma {:induction false} CrashRunRecovers(d: Disk, start: nat, cuts: seq<nat>)
    requires GoodDisk(d, start)
    ensures CrashRun(d, start, cuts) == Recovered(d, start)
    decreases |cuts|
  {
    hide RecoveryState, Recovered;
    if cuts != [] {
      var k := if cuts[0] <= Count(d, start) then cuts[0] else Count(d, start) + 1;
      RecoveryIsRestartable(d, start, k);
      CrashRunRecovers(RecoveryState(d, start, k), start, cuts[1..]);
    }
  }

  // ---------------------------------------------------------------- commit

  /** A transaction to commit: distinct home blocks and their new contents, on a disk with an empty log. */
  ghost predicate GoodTransaction(d: Disk, start: nat, lh: seq<nat>, vals: seq<Block>) {
    && GoodDisk(d, start) && Count(d, start) == 0
    && 0 < |lh| == |vals| <= LOGBLOCKS
    && (forall i :: 0 <= i < |lh| ==> IsHome(|d|, start, lh[i]))
    && (forall i, j :: 0 <= i < j < |lh| ==> lh[i] != lh[j])
  }

  /** write_log after its first k block writes. */
  function Logged(d: Disk, start: nat, vals: seq<Block>, k: nat): (r: Disk)
    requires k <= |vals| <= LOGBLOCKS && start + LOGBLOCKS < |d|
    ensures |r| == |d|
  {
    if k == 0 then d else Logged(d, start, vals, k - 1)[start + k := vals[k - 1]]
  }

  /** The header block that write_head builds over the old one. */
  function HeaderFor(h: Block, lh: seq<nat>): (r: Block)
    requires |lh| < |h|
    ensures |r| == |h|
  {
    [|lh|] + seq(|lh|, i requires 0 <= i < |lh| => lh[i]) + h[|lh| + 1..]
  }

  /** The disk at the moment of commit: log written, header written, nothing installed. */
  function AtCommit(d: Disk, start: nat, lh: seq<nat>, vals: seq<Block>): Disk
    requires GoodDisk(d, start) && |lh| == |vals| <= LOGBLOCKS
  {
    Logged(d, start, vals, |lh|)[start := HeaderFor(d[start], lh)]
  }

  /** The disk after the first j block writes of commit. */
  ghost function CommitState(d: Disk, start: nat, lh: seq<nat>, vals: seq<Block>, j: nat): Disk
    requires GoodTransaction(d, start, lh, vals) && j <= 2 * |lh| + 2
  {
    if j <= |lh| then Logged(d, start, vals, j)
    else
      AtCommitIsGood(d, start, lh, vals);
      RecoveryState(AtCommit(d, start, lh, vals), start, j - |lh| - 1)
  }

  lemma {:induction false} LoggedAt(d: Disk, start: nat, vals: seq<Block>, k: nat, bn: nat)
    requires k <= |vals| <= LOGBLOCKS && start + LOGBLOCKS < |d| && bn < |d|
    ensures Logged(d, start, vals, k)[bn] == if start < bn <= start + k then vals[bn - start - 1] else d[bn]
  {
    if k > 0 { LoggedAt(d, start, vals, k - 1, bn); }
  }

  lemma AtCommitIsGood(d: Disk, start: nat, lh: seq<nat>, vals: seq<Block>)
    requires GoodTransaction(d, start, lh, vals)
    ensures GoodDisk(AtCommit(d, start, lh, vals), start)
    ensures Count(AtCommit(d, start, lh, vals), start) == |lh|
    ensures |AtCommit(d, start, lh, vals)| == |d|
    ensures forall i :: 0 <= i < |lh| ==> AtCommit(d, start, lh, vals)[start][i + 1] == lh[i]
    ensures forall i :: 0 <= i < |lh| ==> AtCommit(d, start, lh, vals)[start + 1 + i] == vals[i]
  {
    forall i | 0 <= i < |lh| ensures AtCommit(d, start, lh, vals)[start + 1 + i] == vals[i] {
      LoggedAt(d, start, vals, |lh|, start + 1 + i);
    }
  }

  /** What a home block holds after the transaction. */
  ghost function After(d: Disk, lh: seq<nat>, vals: seq<Block>, bn: nat): Block
    requires bn < |d| && |lh| == |vals|
  {
    if i :| 0 <= i < |lh| && lh[i] == bn then vals[i] else d[bn]
  }

  ghost predicate HomeIs(d: Disk, start: nat, was: Disk)
  {
    |d| == |was| && forall bn :: IsHome(|d|, start, bn) ==> d[bn] == was[bn]
  }

  ghost predicate HomeIsAfter(d: Disk, start: nat, was: Disk, lh: seq<nat>, vals: seq<Block>)
    requires |lh| == |vals|
  {
    |d| == |was| && forall bn :: IsHome(|d|, start, bn) ==> d[bn] == After(was, lh, vals, bn)
  }

  lemma {:induction false} LastEntryFinds(h: Block, lh: seq<nat>, k: nat, i: nat)
    requires |lh| < |h| && k <= |lh| && i < |lh|
    requires forall j :: 0 <= j < |lh| ==> h[j + 1] == lh[j]
    requires forall j, m :: 0 <= j < m < |lh| ==> lh[j] != lh[m]
    ensures LastEntry(h, k, lh[i]) == if i < k then i + 1 else 0
  {
    if k > 0 {
      LastEntryFinds(h, lh, k - 1, i);
      assert h[k - 1 + 1] == lh[k - 1];
    }
  }

  lemma {:induction false} LastEntryMisses(h: Block, lh: seq<nat>, k: nat, bn: nat)
    requires |lh| < |h| && k <= |lh| && bn !in lh
    requires forall j :: 0 <= j < |lh| ==> h[j + 1] == lh[j]
    ensures LastEntry(h, k, bn) == 0
  {
    if k > 0 {
      LastEntryMisses(h, lh, k - 1, bn);
      assert h[k - 1 + 1] == lh[k - 1];
    }
  }

  /** Installing the committed log puts every home block into its state after the transaction. */
  lemma InstallsTransaction(d: Disk, start: nat, lh: seq<nat>, vals: seq<Block>, bn: nat)
    requires GoodTransaction(d, start, lh, vals) && IsHome(|d|, start, bn)
    ensures GoodDisk(AtCommit(d, start, lh, vals), start) && bn < |Recovered(AtCommit(d, start, lh, vals), start)|
    ensures Recovered(AtCommit(d, start, lh, vals), start)[bn] == After(d, lh, vals, bn)
  {
    hide Installed, Logged, AtCommit;
    AtCommitIsGood(d, start, lh, vals);
    var c := AtCommit(d, start, lh, vals);
    InstalledAt(c, start, |lh|, bn);
    if bn in lh {
      var i :| 0 <= i < |lh| && lh[i] == bn;
      LastEntryFinds(c[start], lh, |lh|, i);
      assert c[start + 1 + i] == vals[i];
    } else {
      LastEntryMisses(c[start], lh, |lh|, bn);
      HomeAtCommit(d, start, lh, vals, bn);
    }
  }

  lemma HomeAtCommit(d: Disk, start: nat, lh: seq<nat>, vals: seq<Block>, bn: nat)
    requires GoodTransaction(d, start, lh, vals) && IsHome(|d|, start, bn)
    ensures AtCommit(d, start, lh, vals)[bn] == d[bn]
  {
    LoggedAt(d, start, vals, |lh|, bn);
  }

  /** Before the commit point the log is still empty, so recovery leaves the home blocks as they were. */
  lemma LoggingIsInvisible(d: Disk, start: nat, lh: seq<nat>, vals: seq<Block>, k: nat)
    requires GoodTransaction(d, start, lh, vals) && k <= |lh|
    ensures GoodDisk(Logged(d, start, vals, k), start)
    ensures HomeIs(Recovered(Logged(d, start, vals, k), start), start, d)
  {
    var d' := Logged(d, start, vals, k);
    LoggedAt(d, start, vals, k, start);
    assert Count(d', start) == 0;
    forall bn | IsHome(|d|, start, bn) ensures Recovered(d', start)[bn] == d[bn] {
      LoggedAt(d, start, vals, k, bn);
    }
  }

  /** Crash atomicity. Commit is cut short after any j of its block writes, and then any number of
      recoveries are cut short as well: the recovery that completes leaves every home block as before
      the transaction if the header write had not happened, and as after it otherwise. */
  lemma CrashAtomicity(d: Disk, start: nat, lh: seq<nat>, vals: seq<Block>, j: nat, cuts: seq<nat>)
    requires GoodTransaction(d, start, lh, vals) && j <= 2 * |lh| + 2
    ensures GoodDisk(CommitState(d, start, lh, vals, j), start)
    ensures var r := CrashRun(CommitState(d, start, lh, vals, j), start, cuts);
            if j <= |lh| then HomeIs(r, start, d) else HomeIsAfter(r, start, d, lh, vals)
  {
    hide Recovered, RecoveryState, Logged, AtCommit, CrashRun;
    if j <= |lh| {
      LoggingIsInvisible(d, start, lh, vals, j);
    } else {
      AtCommitIsGood(d, start, lh, vals);
      var c := AtCommit(d, start, lh, vals);
      RecoveryIsRestartable(c, start, j - |lh| - 1);
      RecoveredLength(c, start);
      forall bn | IsHome(|d|, start, bn) ensures Recovered(c, start)[bn] == After(d, lh, vals, bn) {
        InstallsTransaction(d, start, lh, vals, bn);
      }
    }
    CrashRunRecovers(CommitState(d, start, lh, vals, j), start, cuts);
  }

  lemma RecoveredLength(d: Disk, start: nat)
    requires GoodDisk(d, start)
    ensures |Recovered(d, start)| == |d|
  {
  }
}
