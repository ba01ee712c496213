/**
 The redo log over the buffer cache: reading and writing the header, copying
 cached blocks to the log, installing them, and the commit and recovery built
 from these. Every block write is recorded in the cache's `writes`, so the
 contracts say which disk states a crash can leave behind.
 */
module Log {
  import opened BufferCache
  import opened Crash
  import opened LogSteps

  class RedoLog {
    const bc: Bcache
    const start: nat
    var outstanding: int
    var committing: bool
    var n: int
    var block: seq<int>
    /** How many operations sleep in begin_op. */
    ghost var waiting: nat

    /** An operation can be let in. */
    ghost predicate Admits()
      reads this
    {
      !committing && n + (outstanding + 1) * MAXOPBLOCKS <= LOGBLOCKS
    }

    /** Nobody sleeps in begin_op who could be let in. */
    ghost predicate NobodyStranded()
      reads this
    {
      waiting > 0 ==> !Admits()
    }

    constructor (bc: Bcache, start: nat)
      ensures this.bc == bc && this.start == start && n == 0 && outstanding == 0 && !committing && waiting == 0
      ensures |block| == LOGBLOCKS
    {
      this.bc := bc;
      this.start := start;
      outstanding, committing, n, waiting := 0, false, 0, 0;
      block := seq(LOGBLOCKS, _ => 0);
    }

    /** One turn of write_log: cached home block to log block. */
    method LogOne(tail: nat, pid: int) returns (ok: bool)
      requires bc.Valid() && Area(bc.abs, start) && pid != 0
      requires tail < n <= LOGBLOCKS == |block|
      requires IsHome(|bc.abs.disk|, start, block[tail])
      requires bc.abs.refs[block[tail]] > 0 && bc.abs.locks[block[tail]] == 0
      modifies bc
      ensures bc.Valid()
      ensures ok <==> old(bc.abs.spare) > 0
      ensures !ok ==> bc.abs == old(bc.abs)
      ensures ok ==> bc.abs == Wrote(old(bc.abs), start + tail + 1, old(bc.abs.view[block[tail]]))
    {
      hide GoodList, Represents, Clean;
      var lb, hb := start + tail + 1, block[tail];
      ghost var a := bc.abs;
      var to := bc.Bread(lb, pid);
      if to < 0 { return false; }
      var from := bc.Bread(hb, pid);
      bc.Fill(to, lb, pid, bc.bufs[from].data);
      ok := bc.Bwrite(to, lb, pid);
      ok := bc.Brelse(from, hb, pid);
      ok := bc.Brelse(to, lb, pid);
      assert bc.abs.refs == a.refs && bc.abs.locks == a.locks;
    }

    /** write_log: it panics, before any write, exactly when no buffer is spare. */
    method WriteLog(pid: int) returns (ok: bool)
      requires bc.Valid() && Area(bc.abs, start) && pid != 0
      requires 0 < n <= LOGBLOCKS == |block| && Pins(bc.abs, start, block[..n])
      requires forall i :: 0 <= i < n ==> 0 <= block[i] < |bc.abs.view|
      modifies bc
      ensures bc.Valid()
      ensures ok <==> old(bc.abs.spare) > 0
      ensures !ok ==> bc.abs == old(bc.abs)
      ensures ok ==> bc.abs == LoggedAll(old(bc.abs), start, old(ContentsOf(bc.abs.view, block[..n])), n)
    {
      hide *;
      ghost var a, vals := bc.abs, ContentsOf(bc.abs.view, block[..n]);
      AreaShape(a, start);
      LoggedNone(a, start, vals);
      var tail := 0;
      while tail < n
        invariant 0 <= tail <= n && bc.Valid()
        invariant bc.abs == LoggedAll(a, start, vals, tail)
        invariant tail > 0 ==> a.spare > 0
      {
        LogNext(a, bc.abs, start, block[..n], vals, tail);
        ok := LogOne(tail, pid);
        if !ok { return; }
        tail := tail + 1;
      }
      ok := true;
    }

    /** Copying into a held home buffer, writing it, and dropping its pin unless recovering. */
    method WriteHome(dbuf: nat, ghost hb: nat, data: Block, recovering: bool, pid: int)
      requires bc.Valid() && pid != 0 && dbuf < NBUF && bc.Owned(dbuf, hb, pid)
      requires hb < |bc.abs.disk| && (!recovering ==> bc.abs.refs[hb] > 1)
      modifies bc
      ensures bc.Valid() && bc.Owned(dbuf, hb, pid)
      ensures bc.abs == InstallEffect(old(bc.abs), hb, data, recovering)
      ensures bc.bufs == old(bc.bufs)[dbuf := bc.bufs[dbuf]]
    {
      hide GoodList, Represents, Clean;
      bc.Fill(dbuf, hb, pid, data);
      var ok := bc.Bwrite(dbuf, hb, pid);
      if !recovering {
        bc.Bunpin(dbuf, hb);
      }
    }

    /** One turn of install_trans: log block to home block on disk, and the pin dropped unless recovering. */
    method InstallOne(tail: nat, recovering: bool, pid: int)
      requires bc.Valid() && Area(bc.abs, start) && pid != 0
      requires tail < n <= LOGBLOCKS == |block|
      requires IsHome(|bc.abs.disk|, start, block[tail]) && bc.abs.locks[block[tail]] == 0
      requires !recovering ==> bc.abs.refs[block[tail]] > 0
      requires bc.abs.spare >= if recovering then 2 else 1
      modifies bc
      ensures bc.Valid()
      ensures bc.abs == InstallEffect(old(bc.abs), block[tail], old(bc.abs.view[start + tail + 1]), recovering)
    {
      hide GoodList, Represents, Clean;
      var lb, hb := start + tail + 1, block[tail];
      ghost var a := bc.abs;
      var lbuf := bc.Bread(lb, pid);
      var dbuf := bc.Bread(hb, pid);
      WriteHome(dbuf, hb, bc.bufs[lbuf].data, recovering, pid);
      var ok := bc.Brelse(lbuf, lb, pid);
      assert bc.abs.refs[lb] == 0 && bc.abs.locks[lb] == 0;
      ok := bc.Brelse(dbuf, hb, pid);
      PairNets(a, lb, hb, pid, a.view[lb], recovering);
    }

    /** install_trans. */
    method InstallTrans(recovering: bool, pid: int)
      requires bc.Valid() && pid != 0
      requires 0 <= n <= LOGBLOCKS == |block| && InstallReady(bc.abs, start, block[..n], recovering)
      modifies bc
      ensures bc.Valid()
      ensures InstallProgress(old(bc.abs), bc.abs, start, block[..n], recovering, n)
    {
      hide GoodList, Represents, Clean, Bcache.Owned, InstallProgress, InstallReady, Area;
      ghost var a := bc.abs;
      InstallStart(a, start, block[..n], recovering);
      var tail := 0;
      while tail < n
        invariant 0 <= tail <= n && bc.Valid()
        invariant InstallProgress(a, bc.abs, start, block[..n], recovering, tail)
      {
        InstallKeepsArea(a, bc.abs, start, block[..n], recovering, tail);
        InstallNext(a, bc.abs, start, block[..n], recovering, tail);
        InstallStep(a, bc.abs, start, block[..n], recovering, tail);
        InstallOne(tail, recovering, pid);
        tail := tail + 1;
      }
    }

    /** read_head: the header block's words become the in-memory header. */
    method ReadHead(pid: int) returns (ok: bool)
      requires bc.Valid() && Area(bc.abs, start) && pid != 0 && |block| == LOGBLOCKS && GoodDisk(bc.abs.disk, start)
      modifies this`n, this`block, bc
      ensures bc.Valid() && bc.abs == old(bc.abs)
      ensures ok <==> old(bc.abs.spare) > 0
      ensures |block| == LOGBLOCKS
      ensures ok ==> 0 <= n <= LOGBLOCKS && HeaderIs(bc.abs.disk, start, block[..n])
    {
      hide GoodList, Represents, Clean;
      ghost var a := bc.abs;
      var buf := bc.Bread(start, pid);
      if buf < 0 { return false; }
      var h := bc.bufs[buf].data;
      n := h[0];
      var i := 0;
      while i < n
        modifies this`block
        invariant 0 <= i <= n && |block| == LOGBLOCKS
        invariant forall j :: 0 <= j < i ==> block[j] == h[j + 1]
      {
        block := block[i := h[i + 1]];
        i := i + 1;
      }
      ok := bc.Brelse(buf, start, pid);
      HoldAndRelease(a, start, pid);
    }

    /** write_head: the count and the first n block numbers over the old header block, in one block write. */
    method WriteHead(pid: int) returns (ok: bool)
      requires bc.Valid() && Area(bc.abs, start) && pid != 0 && 0 <= n <= LOGBLOCKS == |block|
      requires |bc.abs.disk[start]| > LOGBLOCKS && forall i :: 0 <= i < n ==> block[i] >= 0
      modifies bc
      ensures bc.Valid()
      ensures ok <==> old(bc.abs.spare) > 0
      ensures !ok ==> bc.abs == old(bc.abs)
      ensures ok ==> bc.abs == Wrote(old(bc.abs), start, HeaderFor(old(bc.abs.disk[start]), block[..n]))
    {
      hide GoodList, Represents, Clean;
      ghost var a := bc.abs;
      var buf := bc.Bread(start, pid);
      if buf < 0 { return false; }
      var h := bc.bufs[buf].data;
      var hb := h[0 := n];
      var i := 0;
      while i < n
        invariant 0 <= i <= n && |hb| == |h| && hb[0] == n
        invariant forall j :: 1 <= j <= i ==> hb[j] == block[j - 1]
        invariant forall j :: i < j < |h| ==> hb[j] == h[j]
      {
        hb := hb[i + 1 := block[i]];
        i := i + 1;
      }
      assert hb == HeaderFor(h, block[..n]);
      bc.Fill(buf, start, pid, hb);
      ok := bc.Bwrite(buf, start, pid);
      ok := bc.Brelse(buf, start, pid);
      assert bc.abs.refs == a.refs && bc.abs.locks == a.locks;
    }

    /** recover_from_log on a cache that agrees with the disk, as at boot: the disk passes through the
        recovery states in order and ends recovered, with an empty log. */
    method RecoverFromLog(pid: int)
      requires bc.Valid() && Area(bc.abs, start) && pid != 0 && |block| == LOGBLOCKS && GoodDisk(bc.abs.disk, start)
      requires bc.abs.view == bc.abs.disk && bc.abs.spare >= 2
      requires forall bn :: 0 <= bn < |bc.abs.locks| ==> bc.abs.locks[bn] == 0
      modifies this`n, this`block, bc
      ensures bc.Valid() && n == 0 && |block| == LOGBLOCKS
      ensures bc.abs.disk == Recovered(old(bc.abs.disk), start)
      ensures bc.abs.view == bc.abs.disk && bc.abs.refs == old(bc.abs.refs) && bc.abs.locks == old(bc.abs.locks)
      ensures bc.abs.writes == old(bc.abs.writes) + RecoveryWrites(old(bc.abs.disk), start)
    {
      hide GoodList, Represents, Clean, Bcache.Owned, Installed;
      ghost var a := bc.abs;
      var ok := ReadHead(pid);
      InstallTrans(true, pid);
      InstallKeepsArea(a, bc.abs, start, block[..n], true, n);
      InstalledSameLog(a.disk, start, n);
      n := 0;
      ok := WriteHead(pid);
      EmptyHeader(a.disk[start], block[..0]);
      RecoveryWritesAre(a.disk, start);
    }

    /** commit. With blocks to write, it panics exactly when no buffer is spare (all NBUF buffers are
        referenced), and then before writing anything. Otherwise the disk passes through the commit states
        in order, the pins are gone and the in-memory log is empty. */
    method Commit(pid: int) returns (ok: bool)
      requires bc.Valid() && Area(bc.abs, start) && pid != 0
      requires 0 <= n <= LOGBLOCKS == |block| && Pins(bc.abs, start, block[..n])
      requires GoodDisk(bc.abs.disk, start) && Count(bc.abs.disk, start) == 0
      requires forall i :: 0 <= i < n ==> 0 <= block[i] < |bc.abs.view|
      modifies this`n, bc
      ensures bc.Valid()
      ensures ok <==> old(n) == 0 || old(bc.abs.spare) > 0
      ensures !ok || old(n) == 0 ==> bc.abs == old(bc.abs) && n == old(n)
      ensures ok ==> n == 0
      ensures ok && old(n) > 0 ==>
                Committed(old(bc.abs), bc.abs, start, old(block[..n]), old(ContentsOf(bc.abs.view, block[..n])))
    {
      hide *;
      if n == 0 { return true; }
      ghost var a, lh, vals := bc.abs, block[..n], ContentsOf(bc.abs.view, block[..n]);
      ReadyToCommit(a, start, lh);
      ok := WriteLog(pid);
      if !ok { return; }
      LoggedKeepsArea(a, start, vals, n);
      ok := WriteHead(pid);
      ghost var c := bc.abs;
      CommitPoint(a, c, start, lh, vals);
      InstallTrans(false, pid);
      ghost var now := bc.abs;
      InstallDone(a, c, now, start, lh, vals);
      n := 0;
      ok := WriteHead(pid);
      CommitDone(a, c, now, start, lh, vals, block[..n]);
    }

    /** One attempt of begin_op under log.lock: enter, or (false) sleep and try again. */
    method TryBeginOp() returns (entered: bool)
      modifies this`outstanding, this`waiting
      ensures waiting == (if entered then old(waiting) else old(waiting) + 1)
      ensures old(NobodyStranded()) ==> NobodyStranded()
      ensures entered <==> !committing && n + (old(outstanding) + 1) * MAXOPBLOCKS <= LOGBLOCKS
      ensures outstanding == if entered then old(outstanding) + 1 else old(outstanding)
    {
      if committing {
        entered := false;
      } else if n + (outstanding + 1) * MAXOPBLOCKS > LOGBLOCKS {
        entered := false;
      } else {
        outstanding := outstanding + 1;
        entered := true;
      }
      if !entered {
        waiting := waiting + 1;
      }
    }

    /** log_write: panics on a full log, even for a block already logged, and outside a transaction.
        A block is appended and pinned when first logged; logging it again is absorbed. */
    method LogWrite(r: nat, bn: nat, ghost pid: int) returns (ok: bool)
      requires bc.Valid() && r < NBUF && pid != 0 && bc.Owned(r, bn, pid)
      requires 0 <= n <= LOGBLOCKS == |block|
      modifies this`n, this`block, bc
      ensures bc.Valid() && |block| == LOGBLOCKS
      ensures ok <==> old(n) < LOGBLOCKS && outstanding >= 1
      ensures !ok ==> n == old(n) && block == old(block) && bc.abs == old(bc.abs)
      ensures ok && bn in old(block[..n]) ==> n == old(n) && block == old(block) && bc.abs == old(bc.abs)
      ensures ok && bn !in old(block[..n]) ==>
                n == old(n) + 1 && block[..n] == old(block[..n]) + [bn]
                && bn < |old(bc.abs.refs)| && bc.abs == AddRef(old(bc.abs), bn)
      ensures old(NobodyStranded()) ==> NobodyStranded()
    {
      hide GoodList, Represents, Clean;
      if n >= LOGBLOCKS || outstanding < 1 {
        return false;
      }
      var i := 0;
      while i < n
        invariant 0 <= i <= n && bn !in block[..i]
      {
        if block[i] == bn {
          break;
        }
        i := i + 1;
      }
      assert i < n ==> block[i] in block[..n];
      block := block[i := bn];
      if i == n {
        bc.Bpin(r, bn);
        n := n + 1;
      }
      ok := true;
    }

    /** end_op up to the release of log.lock: panics while a commit is under way, and makes the last
        operation the committer. */
    method EndOpEnter() returns (ok: bool, doCommit: bool)
      modifies this`outstanding, this`committing, this`waiting
      ensures outstanding == old(outstanding) - 1
      ensures ok <==> !old(committing)
      ensures doCommit <==> ok && outstanding == 0
      ensures committing == (old(committing) || doCommit)
      ensures ok ==> NobodyStranded() && waiting == if doCommit then old(waiting) else 0
    {
      doCommit := false;
      outstanding := outstanding - 1;
      if committing {
        return false, false;
      }
      if outstanding == 0 {
        doCommit := true;
        committing := true;
      } else {
        waiting := 0;
      }
      ok := true;
    }

    /** The end of end_op for the committer: commit() has emptied the log, and everybody who waits is woken. */
    method EndOpLeave()
      requires committing
      modifies this`committing, this`waiting
      ensures !committing && waiting == 0 && NobodyStranded()
    {
      committing := false;
      waiting := 0;
    }
  }
}
