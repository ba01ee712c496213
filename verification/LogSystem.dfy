/**
 The log as a system: any number of operations begin, write blocks and end in
 any interleaving; the last one to end commits, one block write at a time; the
 machine may crash between any two steps, also while it recovers.

 `view` is the logical contents of the blocks, what the operations see through
 the cache. `durable` is what the disk promises: the header write of a commit sets
 the logged blocks to the view, and nothing else changes it. A block that was changed
 and not logged, as by a write whose copy fails, falls back to what the disk has when
 its buffer is recycled.

 Buffers are counted: a block occupies one while somebody holds it or the log pins
 it. Taking a buffer when none is spare is the panic of bget, in an operation and in
 the commit alike; a machine that has panicked waits for the power switch.
 */
module LogSystem {
  import opened BufferCache
  import opened Crash
  import opened Counting
  import LogSteps

  datatype Phase = Running | Committing(writes: nat) | Recovering(writes: nat) | Panicked

  /** `charged[i]` is how many blocks the i-th active operation has added to the log.
      `base` is the disk at the start of the current commit or recovery. `held` are the home blocks
      whose buffers are locked by somebody other than the commit. */
  datatype State = State(
    disk: Disk, view: Disk, lh: seq<nat>, charged: seq<nat>,
    outstanding: int, committing: bool, phase: Phase, base: Disk, durable: Disk, held: set<int>)

  ghost function Vals(s: State): seq<Block>
    requires forall i :: 0 <= i < |s.lh| ==> s.lh[i] < |s.view|
  {
    seq(|s.lh|, i requires 0 <= i < |s.lh| => s.view[s.lh[i]])
  }

  function Unused(charged: seq<nat>): int {
    if charged == [] then 0 else Unused(charged[..|charged| - 1]) + MAXOPBLOCKS - charged[|charged| - 1]
  }

  // ---------------------------------------------------------------- buffers

  /** How many logged blocks the commit has installed and unpinned. */
  function Unpinned(s: State): nat {
    if s.phase.Committing? && s.phase.writes > |s.lh| + 1
    then if s.phase.writes > 2 * |s.lh| + 1 then |s.lh| else s.phase.writes - |s.lh| - 1
    else 0
  }

  ghost function Pinned(s: State): set<int> {
    Elements(s.lh[Unpinned(s)..])
  }

  ghost function Spare(s: State): int {
    NBUF - |Pinned(s) + s.held|
  }

  /** The commit's next block write copies from or to a home block that somebody holds. */
  predicate Waits(s: State) {
    && s.phase.Committing?
    && var j := s.phase.writes;
       || (j < |s.lh| && s.lh[j] in s.held)
       || (|s.lh| < j < 2 * |s.lh| + 1 && s.lh[j - |s.lh| - 1] in s.held)
  }

  // ---------------------------------------------------------------- steps

  ghost predicate Init(s: State, start: nat) {
    && GoodDisk(s.disk, start) && Count(s.disk, start) == 0
    && s.view == s.disk == s.durable
    && s.lh == [] && s.charged == [] && s.outstanding == 0 && !s.committing && s.phase.Running?
    && s.held == {}
  }

  /** Somebody gets hold of a home block; its buffer may have to be recycled. */
  ghost predicate Hold(s: State, s': State, start: nat, bn: int) {
    && (s.phase.Running? || s.phase.Committing?) && IsHome(|s.disk|, start, bn)
    && (bn in Pinned(s) + s.held || Spare(s) > 0)
    && s' == s.(held := s.held + {bn})
  }

  /** bget finds no buffer to recycle. */
  ghost predicate HoldPanics(s: State, s': State, start: nat, bn: int) {
    && (s.phase.Running? || s.phase.Committing?) && IsHome(|s.disk|, start, bn)
    && bn !in Pinned(s) + s.held && Spare(s) <= 0
    && s' == s.(phase := Panicked)
  }

  ghost predicate Drop(s: State, s': State, bn: int) {
    && (s.phase.Running? || s.phase.Committing?)
    && s' == s.(held := s.held - {bn})
  }

  ghost predicate Begin(s: State, s': State) {
    && s.phase.Running? && !s.committing
    && |s.lh| + (s.outstanding + 1) * MAXOPBLOCKS <= LOGBLOCKS
    && s' == s.(outstanding := s.outstanding + 1, charged := s.charged + [0])
  }

  /** Operation i changes a home block it holds and logs it. An operation may add MAXOPBLOCKS blocks to the log. */
  ghost predicate Write(s: State, s': State, start: nat, i: nat, bn: nat, data: Block) {
    && s.phase.Running? && i < |s.charged| && IsHome(|s.disk|, start, bn) && bn < |s.view|
    && bn in s.held && (bn in s.lh || s.charged[i] < MAXOPBLOCKS)
    && |s.lh| < LOGBLOCKS && s.outstanding >= 1
    && s' == s.(view := s.view[bn := data],
                lh := if bn in s.lh then s.lh else s.lh + [bn],
                charged := if bn in s.lh then s.charged else s.charged[i := s.charged[i] + 1])
  }

  /** Somebody changes a home block it holds and has not logged it, or not yet. */
  ghost predicate Change(s: State, s': State, bn: nat, data: Block) {
    && s.phase.Running? && bn in s.held && bn < |s.view|
    && s' == s.(view := s.view[bn := data])
  }

  /** The buffer of a block that nobody holds and the log does not pin is recycled. */
  ghost predicate Forget(s: State, s': State, start: nat, bn: nat) {
    && (s.phase.Running? || s.phase.Committing?) && IsHome(|s.disk|, start, bn)
    && bn !in s.lh && bn !in s.held && bn < |s.view|
    && s' == s.(view := s.view[bn := s.disk[bn]])
  }

  /** log_write finds the log full. */
  ghost predicate WritePanics(s: State, s': State, i: nat, bn: nat) {
    && s.phase.Running? && i < |s.charged| && bn in s.held
    && (bn in s.lh || s.charged[i] < MAXOPBLOCKS) && |s.lh| >= LOGBLOCKS
    && s' == s.(phase := Panicked)
  }

  /** Operation i ends; the last one starts the commit. */
  ghost predicate End(s: State, s': State, i: nat) {
    && s.phase.Running? && i < |s.charged| && !s.committing
    && var left := s.(outstanding := s.outstanding - 1, charged := s.charged[..i] + s.charged[i + 1..]);
       s' == if left.outstanding == 0 then left.(committing := true, phase := Committing(0), base := s.disk) else left
  }

  /** What is durable once the log is committed. */
  ghost function Committed(s: State): Disk {
    seq(|s.durable|, bn requires 0 <= bn < |s.durable| =>
          if bn in s.lh && bn < |s.view| then s.view[bn] else s.durable[bn])
  }

  /** The next block write of the commit, through a spare buffer. The header write is the one after the
      log writes. */
  ghost predicate CommitWrite(s: State, s': State, start: nat) {
    && s.phase.Committing?
    && (forall i :: 0 <= i < |s.lh| ==> s.lh[i] < |s.view|)
    && GoodTransaction(s.base, start, s.lh, Vals(s)) && s.phase.writes < 2 * |s.lh| + 2
    && Spare(s) > 0 && !Waits(s)
    && s' == s.(disk := CommitState(s.base, start, s.lh, Vals(s), s.phase.writes + 1),
                phase := Committing(s.phase.writes + 1),
                durable := if s.phase.writes == |s.lh| then Committed(s) else s.durable)
  }

  /** The commit's next bread finds no buffer to recycle. */
  ghost predicate CommitPanics(s: State, s': State) {
    && s.phase.Committing? && s.lh != [] && s.phase.writes < 2 * |s.lh| + 2 && Spare(s) <= 0
    && s' == s.(phase := Panicked)
  }

  ghost predicate CommitEnd(s: State, s': State) {
    && s.phase.Committing? && (s.lh == [] || s.phase.writes == 2 * |s.lh| + 2)
    && s' == s.(lh := [], committing := false, phase := Running)
  }

  /** Memory is lost; recovery starts on the disk as it is. */
  ghost predicate PowerLoss(s: State, s': State) {
    s' == s.(lh := [], charged := [], outstanding := 0, committing := false, phase := Recovering(0), base := s.disk,
                held := {})
  }

  ghost predicate RecoveryWrite(s: State, s': State, start: nat) {
    && s.phase.Recovering? && GoodDisk(s.base, start) && s.phase.writes <= Count(s.base, start)
    && s' == s.(disk := RecoveryState(s.base, start, s.phase.writes + 1), phase := Recovering(s.phase.writes + 1))
  }

  ghost predicate RecoveryEnd(s: State, s': State, start: nat) {
    && s.phase.Recovering? && GoodDisk(s.base, start) && s.phase.writes == Count(s.base, start) + 1
    && s' == s.(view := s.disk, phase := Running)
  }

  ghost predicate Panics(s: State, s': State, start: nat) {
    || (exists bn :: HoldPanics(s, s', start, bn))
    || (exists i, bn :: WritePanics(s, s', i, bn))
    || CommitPanics(s, s')
  }

  ghost predicate Step(s: State, s': State, start: nat) {
    || Begin(s, s')
    || (exists bn :: Hold(s, s', start, bn))
    || (exists bn :: Drop(s, s', bn))
    || Panics(s, s', start)
    || (exists bn, data :: Change(s, s', bn, data))
    || (exists bn :: Forget(s, s', start, bn))
    || (exists i, bn, data :: Write(s, s', start, i, bn, data))
    || (exists i :: End(s, s', i))
    || CommitWrite(s, s', start)
    || CommitEnd(s, s')
    || PowerLoss(s, s')
    || RecoveryWrite(s, s', start)
    || RecoveryEnd(s, s', start)
  }

  // ---------------------------------------------------------------- what every step keeps

  /** Log space: what is logged and what the active operations may still add fit the log. */
  ghost predicate Reserved(s: State) {
    && s.outstanding == |s.charged|
    && (forall i :: 0 <= i < |s.charged| ==> s.charged[i] <= MAXOPBLOCKS)
    && |s.lh| + Unused(s.charged) <= LOGBLOCKS
    && (!s.phase.Panicked? ==> (s.committing <==> s.phase.Committing?))
    && (s.committing || s.phase.Recovering? ==> s.charged == [])
  }

  /** The logged blocks are distinct home blocks. */
  ghost predicate Tracked(s: State, start: nat) {
    && |s.view| == |s.disk| == |s.durable| == |s.base|
    && |s.lh| <= LOGBLOCKS
    && (forall i :: 0 <= i < |s.lh| ==> IsHome(|s.disk|, start, s.lh[i]))
    && (forall i, j :: 0 <= i < j < |s.lh| ==> s.lh[i] != s.lh[j])
  }

  ghost predicate OnlyLoggedDiffer(view: Disk, was: Disk, start: nat, lh: seq<nat>) {
    && |view| == |was|
    && forall bn :: IsHome(|view|, start, bn) && bn !in lh ==> view[bn] == was[bn]
  }

  ghost predicate Safe(s: State, start: nat)
    requires Tracked(s, start)
  {
    match s.phase
    case Running =>
      && GoodDisk(s.disk, start) && Count(s.disk, start) == 0
      && HomeIs(s.disk, start, s.durable)
    case Committing(j) =>
      && GoodDisk(s.base, start) && Count(s.base, start) == 0
      && if s.lh == [] then s.disk == s.base && HomeIs(s.base, start, s.durable)
         else
           && j <= 2 * |s.lh| + 2 && GoodTransaction(s.base, start, s.lh, Vals(s))
           && s.disk == CommitState(s.base, start, s.lh, Vals(s), j)
           && (j <= |s.lh| ==> HomeIs(s.base, start, s.durable))
           && (j > |s.lh| ==> HomeIsAfter(s.durable, start, s.base, s.lh, Vals(s)))
    case Recovering(k) =>
      && GoodDisk(s.base, start) && k <= Count(s.base, start) + 1
      && s.disk == RecoveryState(s.base, start, k)
      && HomeIs(Recovered(s.base, start), start, s.durable)
    case Panicked =>
      GoodDisk(s.disk, start) && HomeIs(Recovered(s.disk, start), start, s.durable)
  }

  /** The pinned and held blocks have a buffer each. */
  ghost predicate Counted(s: State, start: nat) {
    && (forall bn :: bn in s.held ==> IsHome(|s.disk|, start, bn))
    && (!s.phase.Panicked? ==> |Pinned(s) + s.held| <= NBUF)
    && (s.phase.Recovering? ==> s.held == {})
  }

  ghost predicate Inv(s: State, start: nat) {
    Reserved(s) && Tracked(s, start) && Safe(s, start) && Counted(s, start)
  }

  // ---------------------------------------------------------------- log space

  lemma {:induction false} UnusedUpdate(charged: seq<nat>, i: nat, c: nat)
    requires i < |charged|
    ensures Unused(charged[i := c]) == Unused(charged) + charged[i] - c
  {
    var n := |charged| - 1;
    if i == n {
      assert charged[i := c][..n] == charged[..n];
    } else {
      assert charged[i := c][..n] == charged[..n][i := c];
      UnusedUpdate(charged[..n], i, c);
    }
  }

  lemma {:induction false} UnusedRemove(charged: seq<nat>, i: nat)
    requires i < |charged|
    ensures Unused(charged[..i] + charged[i + 1..]) == Unused(charged) - MAXOPBLOCKS + charged[i]
  {
    var n := |charged| - 1;
    var rest := charged[..i] + charged[i + 1..];
    if i == n {
      assert rest == charged[..n];
    } else {
      assert rest[..n - 1] == charged[..n][..i] + charged[..n][i + 1..];
      UnusedRemove(charged[..n], i);
    }
  }

  lemma {:induction false} UnusedBound(charged: seq<nat>)
    requires forall i :: 0 <= i < |charged| ==> charged[i] <= MAXOPBLOCKS
    ensures 0 <= Unused(charged) <= |charged| * MAXOPBLOCKS
    ensures forall i :: 0 <= i < |charged| ==> MAXOPBLOCKS - charged[i] <= Unused(charged)
  {
    if charged != [] {
      var n := |charged| - 1;
      UnusedBound(charged[..n]);
      forall i | 0 <= i < |charged| ensures MAXOPBLOCKS - charged[i] <= Unused(charged) {
        assert i < n ==> charged[..n][i] == charged[i];
      }
    }
  }

  /** begin_op's test compares with the log's length and full budgets; the reservation it protects is tighter. */
  lemma BeginKeepsReserved(s: State, s': State)
    requires Reserved(s) && Begin(s, s')
    ensures Reserved(s')
  {
    UnusedBound(s.charged);
    assert s'.charged[..|s.charged|] == s.charged;
  }

  lemma WriteKeepsReserved(s: State, s': State, start: nat, i: nat, bn: nat, data: Block)
    requires Reserved(s) && Write(s, s', start, i, bn, data)
    ensures Reserved(s')
  {
    UnusedUpdate(s.charged, i, s.charged[i] + 1);
  }

  lemma EndKeepsReserved(s: State, s': State, i: nat)
    requires Reserved(s) && End(s, s', i)
    ensures Reserved(s')
  {
    UnusedRemove(s.charged, i);
    UnusedBound(s.charged);
  }

  /** log_write by an operation with budget left never finds the log full. */
  lemma NeverTooBig(s: State, i: nat)
    requires Reserved(s) && i < |s.charged| && s.charged[i] < MAXOPBLOCKS
    ensures |s.lh| < LOGBLOCKS && s.outstanding >= 1
  {
    UnusedBound(s.charged);
  }

  // ---------------------------------------------------------------- buffer counts

  /** Steps that take no buffer keep the count. */
  lemma FewerReferenced(s: State, s': State, start: nat)
    requires Counted(s, start) && !s.phase.Panicked? && |s'.disk| == |s.disk|
    requires Pinned(s') + s'.held <= Pinned(s) + s.held
    requires s'.held <= s.held && (s'.phase.Recovering? ==> s'.held == {})
    ensures Counted(s', start)
  {
    SubsetSize(Pinned(s') + s'.held, Pinned(s) + s.held);
  }

  lemma HoldCounts(s: State, s': State, start: nat, bn: int)
    requires Counted(s, start) && Hold(s, s', start, bn)
    ensures Counted(s', start)
  {
    assert Pinned(s') == Pinned(s);
    var all := Pinned(s) + s.held;
    if bn in all {
      assert Pinned(s') + s'.held == all;
    } else {
      assert Pinned(s') + s'.held == all + {bn};
    }
  }

  /** Logging turns the hold of the block into a pin. */
  lemma WriteCounts(s: State, s': State, start: nat, i: nat, bn: nat, data: Block)
    requires Counted(s, start) && Write(s, s', start, i, bn, data)
    ensures Counted(s', start)
  {
    assert Pinned(s') + s'.held == Pinned(s) + s.held;
  }

  lemma EndCounts(s: State, s': State, start: nat, i: nat)
    requires Counted(s, start) && End(s, s', i)
    ensures Counted(s', start)
  {
    assert Pinned(s') == Pinned(s);
    FewerReferenced(s, s', start);
  }

  /** Pins are only dropped by a commit's block write, each after its block is installed. */
  lemma CommitWriteCounts(s: State, s': State, start: nat)
    requires Counted(s, start) && |s'.disk| == |s.disk| && CommitWrite(s, s', start)
    ensures Counted(s', start)
  {
    hide CommitState, GoodTransaction, Elements, Counted;
    LaterElements(s.lh, Unpinned(s), Unpinned(s'));
    FewerReferenced(s, s', start);
  }

  lemma LaterElements(q: seq<int>, u: nat, u': nat)
    requires u <= u' <= |q|
    ensures Elements(q[u'..]) <= Elements(q[u..])
  {
    forall bn | bn in Elements(q[u'..]) ensures bn in Elements(q[u..]) {
      var k :| 0 <= k < |q[u'..]| && q[u'..][k] == bn;
      assert q[u..][k + u' - u] == bn;
    }
  }

  // ---------------------------------------------------------------- crash safety

  lemma SameAfter(d: Disk, e: Disk, start: nat, base: Disk, lh: seq<nat>, vals: seq<Block>)
    requires |lh| == |vals| && HomeIsAfter(d, start, base, lh, vals) && HomeIsAfter(e, start, base, lh, vals)
    ensures HomeIs(d, start, e)
  {
  }

  /** The header write makes the logged blocks durable. */
  lemma CommittedIsAfter(s: State, start: nat)
    requires Tracked(s, start) && HomeIs(s.base, start, s.durable) && s.lh != []
    ensures HomeIsAfter(Committed(s), start, s.base, s.lh, Vals(s))
  {
    forall bn | IsHome(|s.base|, start, bn) ensures Committed(s)[bn] == After(s.base, s.lh, Vals(s), bn) {
    }
  }

  /** Whatever the state, recovering its disk gives the durable contents. */
  lemma AlwaysRecoverable(s: State, start: nat)
    requires Inv(s, start)
    ensures GoodDisk(s.disk, start) && HomeIs(Recovered(s.disk, start), start, s.durable)
  {
    hide Recovered, RecoveryState, CommitState;
    match s.phase {
      case Running =>
        RecoverEmpty(s.disk, start);
      case Committing(j) =>
        if s.lh == [] {
          RecoverEmpty(s.disk, start);
        } else {
          CrashAtomicity(s.base, start, s.lh, Vals(s), j, []);
          CrashRunRecovers(s.disk, start, []);
          if j > |s.lh| {
            SameAfter(Recovered(s.disk, start), s.durable, start, s.base, s.lh, Vals(s));
          }
        }
      case Recovering(k) =>
        RecoveryIsRestartable(s.base, start, k);
      case Panicked =>
    }
  }

  lemma RecoverEmpty(d: Disk, start: nat)
    requires GoodDisk(d, start) && Count(d, start) == 0
    ensures HomeIs(Recovered(d, start), start, d)
  {
  }

  lemma InitSafe(s: State, start: nat)
    requires Init(s, start) && |s.base| == |s.disk|
    ensures Inv(s, start)
  {
  }

  lemma HoldSafe(s: State, s': State, start: nat, bn: int)
    requires Inv(s, start) && (Hold(s, s', start, bn) || Drop(s, s', bn))
    ensures Inv(s', start)
  {
    hide Safe, Counted, Unpinned;
    assert Counted(s', start) by {
      if Hold(s, s', start, bn) {
        HoldCounts(s, s', start, bn);
      } else {
        SamePins(s, s');
        FewerReferenced(s, s', start);
      }
    }
    SafeWithout(s, s', start);
  }

  lemma SamePins(s: State, s': State)
    requires s'.lh == s.lh && s'.phase == s.phase
    ensures Pinned(s') == Pinned(s)
  {
  }

  /** Which blocks are held is nothing to the disk. */
  lemma SafeWithout(s: State, s': State, start: nat)
    requires Tracked(s, start) && Safe(s, start) && s' == s.(held := s'.held)
    ensures Tracked(s', start) && Safe(s', start)
  {
    hide GoodHeader, GoodTransaction, CommitState, RecoveryState, Recovered, HomeIs, HomeIsAfter;
    if s.phase.Committing? {
      assert Vals(s') == Vals(s);
    }
  }

  /** A panic leaves the disk recoverable. */
  lemma PanicSafe(s: State, s': State, start: nat)
    requires Inv(s, start) && Panics(s, s', start)
    ensures Inv(s', start)
  {
    hide Recovered, CommitState, RecoveryState, Pinned, Spare, Safe;
    AlwaysRecoverable(s, start);
    PanickedSafe(s', start);
  }

  lemma PanickedSafe(s: State, start: nat)
    requires Tracked(s, start) && s.phase.Panicked?
    requires GoodDisk(s.disk, start) && HomeIs(Recovered(s.disk, start), start, s.durable)
    ensures Safe(s, start)
  {
  }

  lemma BeginSafe(s: State, s': State, start: nat)
    requires Inv(s, start) && Begin(s, s')
    ensures Inv(s', start)
  {
    BeginKeepsReserved(s, s');
    FewerReferenced(s, s', start);
  }

  lemma WriteSafe(s: State, s': State, start: nat, i: nat, bn: nat, data: Block)
    requires Inv(s, start) && Write(s, s', start, i, bn, data)
    ensures Inv(s', start)
  {
    hide Reserved, Counted;
    WriteKeepsReserved(s, s', start, i, bn, data);
    WriteCounts(s, s', start, i, bn, data);
    if bn !in s.lh {
      forall k, j | 0 <= k < j < |s'.lh| ensures s'.lh[k] != s'.lh[j] {
        assert s.lh[k] in s.lh;
      }
    }
  }

  /** What is not logged is nothing to the disk. */
  lemma ChangeSafe(s: State, s': State, start: nat)
    requires Inv(s, start)
    requires (exists bn, data :: Change(s, s', bn, data)) || exists bn :: Forget(s, s', start, bn)
    ensures Inv(s', start)
  {
    hide Reserved, GoodHeader, GoodTransaction, CommitState, HomeIs, HomeIsAfter, Recovered, Counted;
    if s.phase.Committing? {
      assert Vals(s') == Vals(s);
    }
    assert Reserved(s') && Counted(s', start) by {
      SameBooks(s, s', start);
    }
  }

  lemma SameBooks(s: State, s': State, start: nat)
    requires Reserved(s) && Counted(s, start) && s' == s.(view := s'.view)
    ensures Reserved(s') && Counted(s', start)
  {
    assert Pinned(s') == Pinned(s);
  }

  lemma EndSafe(s: State, s': State, start: nat, i: nat)
    requires Inv(s, start) && End(s, s', i)
    ensures Inv(s', start)
  {
    hide Reserved, GoodHeader, Counted;
    EndKeepsReserved(s, s', i);
    EndCounts(s, s', start, i);
    if s'.phase.Committing? && s'.lh != [] {
      assert Logged(s.disk, start, Vals(s'), 0) == s.disk;
    }
  }

  lemma CommitWriteSafe(s: State, s': State, start: nat)
    requires Inv(s, start) && CommitWrite(s, s', start)
    ensures Inv(s', start)
  {
    hide Reserved, GoodHeader, CommitState, Counted;
    assert Reserved(s') by { ReservedPhase(s, s'); }
    CommitStateLength(s.base, start, s.lh, Vals(s), s.phase.writes + 1);
    assert Vals(s') == Vals(s);
    if s.phase.writes == |s.lh| {
      CommittedIsAfter(s, start);
    }
    CommitWriteCounts(s, s', start);
  }

  lemma ReservedPhase(s: State, s': State)
    requires Reserved(s) && s.phase.Committing? && s'.phase.Committing?
    requires s'.lh == s.lh && s'.charged == s.charged
    requires s'.outstanding == s.outstanding && s'.committing == s.committing
    ensures Reserved(s')
  {
  }

  lemma CommitStateLength(d: Disk, start: nat, lh: seq<nat>, vals: seq<Block>, j: nat)
    requires GoodTransaction(d, start, lh, vals) && j <= 2 * |lh| + 2
    ensures |CommitState(d, start, lh, vals, j)| == |d|
  {
    hide Recovered, Logged, AtCommit, Installed;
    AtCommitIsGood(d, start, lh, vals);
    RecoveredLength(AtCommit(d, start, lh, vals), start);
  }

  lemma CommitEndSafe(s: State, s': State, start: nat)
    requires Inv(s, start) && CommitEnd(s, s')
    ensures Inv(s', start)
  {
    hide GoodHeader, CommitState;
    if s.lh != [] {
      CommittedDisk(s.base, start, s.lh, Vals(s));
      SameAfter(s.disk, s.durable, start, s.base, s.lh, Vals(s));
    }
    UnusedBound(s.charged);
    assert Pinned(s') == {};
    FewerReferenced(s, s', start);
  }

  /** After its last block write a commit has installed the transaction and emptied the log. */
  lemma CommittedDisk(d: Disk, start: nat, lh: seq<nat>, vals: seq<Block>)
    requires GoodTransaction(d, start, lh, vals)
    ensures var e := CommitState(d, start, lh, vals, 2 * |lh| + 2);
            GoodDisk(e, start) && Count(e, start) == 0 && HomeIsAfter(e, start, d, lh, vals)
  {
    hide Recovered, Logged, AtCommit, Installed, CrashRun, HomeIsAfter;
    var e := CommitState(d, start, lh, vals, 2 * |lh| + 2);
    AtCommitIsGood(d, start, lh, vals);
    RecoveredIsFixed(AtCommit(d, start, lh, vals), start);
    CrashAtomicity(d, start, lh, vals, 2 * |lh| + 2, []);
    CrashRunRecovers(e, start, []);
  }

  lemma PowerLossSafe(s: State, s': State, start: nat)
    requires Inv(s, start) && PowerLoss(s, s')
    ensures Inv(s', start)
  {
    hide Recovered;
    AlwaysRecoverable(s, start);
    assert Installed(s.disk, start, 0) == s.disk;
    assert Pinned(s') == {};
  }

  lemma RecoveryWriteSafe(s: State, s': State, start: nat)
    requires Inv(s, start) && RecoveryWrite(s, s', start)
    ensures Inv(s', start)
  {
    hide Recovered, GoodHeader;
    RecoveredLength(s.base, start);
  }

  lemma RecoveryEndSafe(s: State, s': State, start: nat)
    requires Inv(s, start) && RecoveryEnd(s, s', start)
    ensures Inv(s', start)
  {
    hide Recovered, GoodHeader;
    RecoveredIsFixed(s.base, start);
    UnusedBound(s.charged);
  }

  lemma StepSafe(s: State, s': State, start: nat)
    requires Inv(s, start) && Step(s, s', start)
    ensures Inv(s', start)
  {
    hide Inv, Begin, Hold, Drop, Change, Forget, Write, End, CommitWrite, CommitEnd, PowerLoss, RecoveryWrite,
      RecoveryEnd;
    if Begin(s, s') { BeginSafe(s, s', start); }
    else if bn :| Hold(s, s', start, bn) { HoldSafe(s, s', start, bn); }
    else if bn :| Drop(s, s', bn) { HoldSafe(s, s', start, bn); }
    else if Panics(s, s', start) { PanicSafe(s, s', start); }
    else if bn, data :| Change(s, s', bn, data) { ChangeSafe(s, s', start); }
    else if bn :| Forget(s, s', start, bn) { ChangeSafe(s, s', start); }
    else if i, bn, data :| Write(s, s', start, i, bn, data) { WriteSafe(s, s', start, i, bn, data); }
    else if i :| End(s, s', i) { EndSafe(s, s', start, i); }
    else if CommitWrite(s, s', start) { CommitWriteSafe(s, s', start); }
    else if CommitEnd(s, s') { CommitEndSafe(s, s', start); }
    else if PowerLoss(s, s') { PowerLossSafe(s, s', start); }
    else if RecoveryWrite(s, s', start) { RecoveryWriteSafe(s, s', start); }
    else { RecoveryEndSafe(s, s', start); }
  }

  // ---------------------------------------------------------------- whole runs

  ghost predicate Run(trace: seq<State>, start: nat) {
    && |trace| > 0 && Init(trace[0], start) && |trace[0].base| == |trace[0].disk|
    && forall k :: 0 <= k < |trace| - 1 ==> Step(trace[k], trace[k + 1], start)
  }

  /** In every state of every run: recovery would give exactly the durable contents; logged blocks and
      unused budgets fit the log; and no operation is active during a commit. */
  lemma {:induction false} RunIsCrashSafe(trace: seq<State>, start: nat, k: nat)
    requires Run(trace, start) && k < |trace|
    ensures Inv(trace[k], start)
    ensures GoodDisk(trace[k].disk, start)
    ensures HomeIs(Recovered(trace[k].disk, start), start, trace[k].durable)
    ensures |trace[k].lh| + Unused(trace[k].charged) <= LOGBLOCKS
    ensures trace[k].committing ==> trace[k].outstanding == 0
  {
    hide Step, Init, Safe, Tracked, Recovered;
    if k == 0 {
      InitSafe(trace[0], start);
    } else {
      RunIsCrashSafe(trace, start, k - 1);
      assert Step(trace[k - 1], trace[k - 1 + 1], start);
      StepSafe(trace[k - 1], trace[k], start);
    }
    AlwaysRecoverable(trace[k], start);
  }

  /** The durable contents change only when no operation is active, to what the operations logged: a crash never
      exposes part of an operation. They are then what the operations see exactly if these differ from what was durable
      before in logged blocks alone. */
  lemma DurableIsWholeOperations(s: State, s': State, start: nat)
    requires Inv(s, start) && Step(s, s', start) && s'.durable != s.durable
    ensures s.committing && s.charged == [] && s.outstanding == 0
    ensures s'.durable == Committed(s) && s'.view == s.view
    ensures HomeIs(s'.durable, start, s.view) <==> OnlyLoggedDiffer(s.view, s.durable, start, s.lh)
    ensures s.phase.Committing? && s.phase.writes == |s.lh|
  {
    hide Safe, Counted, Step, GoodTransaction, CommitState, Spare, Waits;
    OnlyCommitSetsDurable(s, s', start);
    if OnlyLoggedDiffer(s.view, s.durable, start, s.lh) {
      forall bn | IsHome(|s.view|, start, bn) ensures Committed(s)[bn] == s.view[bn] {
      }
    }
    if HomeIs(s'.durable, start, s.view) {
      forall bn | IsHome(|s.view|, start, bn) && bn !in s.lh ensures s.view[bn] == s.durable[bn] {
        assert s'.durable[bn] == s.view[bn];
      }
    }
  }

  // ---------------------------------------------------------------- changes that are logged

  /** Nobody changes a block that is not logged; changing one while logging it is allowed. */
  ghost predicate LogsChanges(s: State, s': State) {
    forall bn, data :: Change(s, s', bn, data) && s'.view != s.view ==> bn in s'.lh
  }

  /** Except while recovering, what operations see of a block that is not logged is durable. */
  ghost predicate SeenIsDurable(s: State, start: nat) {
    !s.phase.Recovering? ==> OnlyLoggedDiffer(s.view, s.durable, start, s.lh)
  }

  /** Every step keeps this, absorbed writes, panics, crashes and recovery included, unless it changes a block and
      leaves it unlogged. */
  lemma LoggedChangesOnly(s: State, s': State, start: nat)
    requires Inv(s, start) && Step(s, s', start) && SeenIsDurable(s, start) && LogsChanges(s, s')
    ensures SeenIsDurable(s', start)
  {
    hide Inv, Begin, Hold, Drop, Change, Forget, Write, End, CommitWrite, CommitEnd, RecoveryWrite, RecoveryEnd, Panics,
      OnlyLoggedDiffer;
    if s.phase.Recovering? || s.phase.Panicked? || PowerLoss(s, s') {
      RecoveryShowsDurable(s, s', start);
    } else if CommitWrite(s, s', start) {
      CommitKeepsLogged(s, s', start);
    } else if CommitEnd(s, s') {
      CommitEndsLogged(s, s', start);
    } else if bn :| Forget(s, s', start, bn) {
      ForgetsNothing(s, s', start, bn);
    } else if bn, data :| Change(s, s', bn, data) {
      ChangeExactly(s, s', start, bn, data);
    } else {
      OtherStepsLogged(s, s', start);
    }
  }

  /** A change breaks it exactly if the block is not logged and gets other contents than the durable ones. */
  lemma ChangeExactly(s: State, s': State, start: nat, bn: nat, data: Block)
    requires Inv(s, start) && Change(s, s', bn, data) && SeenIsDurable(s, start)
    ensures bn < |s.durable| && (SeenIsDurable(s', start) <==> bn in s.lh || data == s.durable[bn])
    ensures s'.view == s.view || (LogsChanges(s, s') ==> bn in s.lh)
    ensures s'.view == s.view ==> SeenIsDurable(s', start)
  {
    hide Safe, Reserved;
    assert s'.view[bn] == data;
    assert IsHome(|s.view|, start, bn);
  }

  /** A crash, and recovery from it, whatever was seen before. */
  lemma RecoveryShowsDurable(s: State, s': State, start: nat)
    requires Inv(s, start) && Step(s, s', start) && (s.phase.Recovering? || s.phase.Panicked? || PowerLoss(s, s'))
    ensures SeenIsDurable(s', start)
  {
    hide Reserved, Counted, Recovered, GoodHeader, Pinned, Spare;
  }

  /** In every state of every run that logs its changes, operations see durable contents in every block that is not
      logged; so each commit makes durable what they see. */
  lemma {:induction false} CommitsWhatIsSeen(trace: seq<State>, start: nat, k: nat)
    requires Run(trace, start) && k < |trace|
    requires forall j :: 0 <= j < k ==> LogsChanges(trace[j], trace[j + 1])
    ensures SeenIsDurable(trace[k], start)
    ensures k + 1 < |trace| && trace[k + 1].durable != trace[k].durable ==>
              HomeIs(trace[k + 1].durable, start, trace[k].view)
  {
    hide Step, Init, Inv, LogsChanges, SeenIsDurable, HomeIs, Recovered;
    RunIsCrashSafe(trace, start, k);
    if k == 0 {
      StartsDurable(trace[0], start);
    } else {
      CommitsWhatIsSeen(trace, start, k - 1);
      RunIsCrashSafe(trace, start, k - 1);
      assert Step(trace[k - 1], trace[k - 1 + 1], start);
      LoggedChangesOnly(trace[k - 1], trace[k], start);
    }
    if k + 1 < |trace| && trace[k + 1].durable != trace[k].durable {
      assert Step(trace[k], trace[k + 1], start);
      DurableIsWholeOperations(trace[k], trace[k + 1], start);
      SeenMeans(trace[k], start);
    }
  }

  lemma StartsDurable(s: State, start: nat)
    requires Init(s, start)
    ensures SeenIsDurable(s, start)
  {
  }

  lemma SeenMeans(s: State, start: nat)
    requires SeenIsDurable(s, start) && s.phase.Committing?
    ensures OnlyLoggedDiffer(s.view, s.durable, start, s.lh)
  {
  }

  lemma CommitKeepsLogged(s: State, s': State, start: nat)
    requires Inv(s, start) && CommitWrite(s, s', start) && OnlyLoggedDiffer(s.view, s.durable, start, s.lh)
    ensures OnlyLoggedDiffer(s'.view, s'.durable, start, s'.lh)
  {
    hide GoodTransaction, CommitState, Safe, Counted, Spare, Waits;
  }

  lemma CommitEndsLogged(s: State, s': State, start: nat)
    requires Inv(s, start) && CommitEnd(s, s') && OnlyLoggedDiffer(s.view, s.durable, start, s.lh)
    ensures OnlyLoggedDiffer(s'.view, s'.durable, start, s'.lh)
  {
    hide GoodTransaction, CommitState, Counted;
    if s.lh != [] {
      forall bn | IsHome(|s.view|, start, bn) ensures s.view[bn] == s.durable[bn] {
        assert s.durable[bn] == After(s.base, s.lh, Vals(s), bn);
      }
    }
  }

  lemma ForgetsNothing(s: State, s': State, start: nat, bn: nat)
    requires Inv(s, start) && Forget(s, s', start, bn) && OnlyLoggedDiffer(s.view, s.durable, start, s.lh)
    ensures OnlyLoggedDiffer(s'.view, s'.durable, start, s'.lh)
  {
    hide GoodTransaction, Counted, Recovered;
    DiskUnderView(s, start, bn);
  }

  /** A home block that is not logged is on disk as it is durable, at every moment of a commit. */
  lemma DiskUnderView(s: State, start: nat, bn: nat)
    requires Inv(s, start) && (s.phase.Running? || s.phase.Committing?) && IsHome(|s.disk|, start, bn) && bn !in s.lh
    ensures s.disk[bn] == s.durable[bn]
  {
    hide GoodTransaction, Counted, Recovered, CommitState;
    if s.phase.Committing? && s.lh != [] {
      CommitLeaves(s.base, start, s.lh, Vals(s), s.phase.writes, bn);
    }
  }

  lemma {:induction false} InstalledLeaves(d: Disk, start: nat, k: nat, bn: nat)
    requires GoodDisk(d, start) && k <= Count(d, start) && bn < |d|
    requires forall i :: 1 <= i <= Count(d, start) ==> d[start][i] != bn
    ensures Installed(d, start, k)[bn] == d[bn]
  {
    if k > 0 {
      InstalledLeaves(d, start, k - 1, bn);
    }
  }

  /** A commit writes no home block that is not logged. */
  lemma CommitLeaves(d: Disk, start: nat, lh: seq<nat>, vals: seq<Block>, j: nat, bn: nat)
    requires GoodTransaction(d, start, lh, vals) && j <= 2 * |lh| + 2 && IsHome(|d|, start, bn) && bn !in lh
    ensures var e := CommitState(d, start, lh, vals, j); |e| == |d| && e[bn] == d[bn]
  {
    hide Logged, Installed;
    CommitStateLength(d, start, lh, vals, j);
    if j <= |lh| {
      LoggedAt(d, start, vals, j, bn);
    } else {
      var e := AtCommit(d, start, lh, vals);
      AtCommitIsGood(d, start, lh, vals);
      LoggedAt(d, start, vals, |lh|, bn);
      assert Count(e, start) == |lh|;
      forall i | 1 <= i <= Count(e, start) ensures e[start][i] != bn {
        assert e[start][i] == lh[i - 1];
      }
      InstalledLeaves(e, start, if j - |lh| - 1 <= |lh| then j - |lh| - 1 else |lh|, bn);
    }
  }

  lemma OtherStepsLogged(s: State, s': State, start: nat)
    requires Inv(s, start) && Step(s, s', start) && OnlyLoggedDiffer(s.view, s.durable, start, s.lh)
    requires (forall bn, data :: !Change(s, s', bn, data)) && (forall bn :: !Forget(s, s', start, bn))
    requires !CommitWrite(s, s', start) && !CommitEnd(s, s') && !PowerLoss(s, s')
    requires !s.phase.Panicked? && !s.phase.Recovering?
    ensures OnlyLoggedDiffer(s'.view, s'.durable, start, s'.lh)
  {
    hide CommitWrite, CommitEnd, Safe, Reserved, Counted, Spare, Pinned, Change, Forget;
    if i, bn, data :| Write(s, s', start, i, bn, data) {
      assert bn in s'.lh by { if bn !in s.lh { assert s'.lh[|s.lh|] == bn; } }
    }
  }

  lemma OnlyCommitSetsDurable(s: State, s': State, start: nat)
    requires Step(s, s', start) && s'.durable != s.durable
    ensures CommitWrite(s, s', start)
  {
    hide CommitWrite, IsHome, Spare, Pinned, RecoveryState, GoodDisk;
  }

  // ---------------------------------------------------------------- when a commit can go on

  /** Where the buffers of the cache are in use for exactly these blocks, its spare buffers are the ones
      counted here. */
  lemma SpareOfCache(s: State, bufs: seq<Buf>, dev: nat, a: Cache)
    requires |bufs| == NBUF && Represents(bufs, dev, a)
    requires forall bn :: bn in Pinned(s) + s.held <==> 0 <= bn < |a.refs| && a.refs[bn] > 0
    ensures a.spare == Spare(s)
  {
    LogSteps.SpareIsCounted(bufs, dev, a, Pinned(s) + s.held);
  }

  /** A commit that need not wait takes its next block write exactly when a buffer is spare, and panics
      exactly when none is. */
  lemma CommitStepExactly(s: State, start: nat)
    requires Inv(s, start) && s.phase.Committing? && s.lh != [] && s.phase.writes < 2 * |s.lh| + 2 && !Waits(s)
    ensures (exists s' :: CommitWrite(s, s', start)) <==> Spare(s) > 0
    ensures (exists s' :: CommitPanics(s, s')) <==> Spare(s) == 0
  {
    hide GoodTransaction, CommitState, GoodHeader, Pinned, Waits, HomeIs, HomeIsAfter;
    var s1 := s.(disk := CommitState(s.base, start, s.lh, Vals(s), s.phase.writes + 1),
                 phase := Committing(s.phase.writes + 1),
                 durable := if s.phase.writes == |s.lh| then Committed(s) else s.durable);
    var s2 := s.(phase := Panicked);
    assert Spare(s) > 0 ==> CommitWrite(s, s1, start);
    assert Spare(s) == 0 ==> CommitPanics(s, s2);
  }

  lemma InvParts(s: State, start: nat)
    requires Inv(s, start)
    ensures Tracked(s, start) && |s.lh| <= NBUF
  {
  }

  lemma PinnedBound(s: State, start: nat)
    requires Tracked(s, start) && s.held == {}
    ensures Spare(s) >= NBUF - |s.lh|
    ensures Unpinned(s) == 0 ==> Spare(s) == NBUF - |s.lh|
  {
    ElementsSize(s.lh);
    assert s.lh[0..] == s.lh;
    assert Pinned(s) + s.held == Pinned(s);
    SubsetSize(Pinned(s), Elements(s.lh));
  }

  /** When only the pins occupy buffers, the first block write of a commit can be taken exactly when fewer
      than NBUF blocks are logged; with NBUF blocks logged the commit's step is the panic. */
  lemma FirstWriteExactly(s: State, start: nat)
    requires Inv(s, start) && s.phase == Committing(0) && s.lh != [] && s.held == {}
    ensures (exists s' :: CommitWrite(s, s', start)) <==> |s.lh| < NBUF
    ensures (exists s' :: CommitPanics(s, s')) <==> |s.lh| == NBUF
  {
    hide Inv, CommitWrite, CommitPanics;
    InvParts(s, start);
    PinnedBound(s, start);
    CommitStepExactly(s, start);
  }

  /** When only the pins occupy buffers and fewer than NBUF blocks are logged, every block write of the
      commit can be taken. */
  lemma CommitNeverStuck(s: State, start: nat)
    requires Inv(s, start) && s.phase.Committing? && s.lh != [] && s.phase.writes < 2 * |s.lh| + 2
    requires s.held == {} && |s.lh| < NBUF
    ensures exists s' :: CommitWrite(s, s', start)
  {
    hide Inv, CommitWrite, CommitPanics;
    InvParts(s, start);
    PinnedBound(s, start);
    CommitStepExactly(s, start);
  }

  // ---------------------------------------------------------------- a full log

  /** Blocks of operation i after k blocks have been logged by three operations in turn. */
  function Share(k: nat, i: nat): nat {
    if k <= i * MAXOPBLOCKS then 0 else if k >= (i + 1) * MAXOPBLOCKS then MAXOPBLOCKS else k - i * MAXOPBLOCKS
  }

  function FilledLog(d: Disk, homes: seq<nat>, k: nat): State
    requires k <= |homes|
  {
    State(d, d, homes[..k], [Share(k, 0), Share(k, 1), Share(k, 2)], 3, false, Running, d, d, {})
  }

  predicate CanFill(d: Disk, start: nat, homes: seq<nat>) {
    && GoodDisk(d, start) && Count(d, start) == 0 && |homes| == LOGBLOCKS
    && (forall i :: 0 <= i < |homes| ==> IsHome(|d|, start, homes[i]))
    && (forall i, j :: 0 <= i < j < |homes| ==> homes[i] != homes[j])
  }

  lemma Extend(trace: seq<State>, s': State, start: nat)
    requires Run(trace, start) && Step(trace[|trace| - 1], s', start)
    ensures Run(trace + [s'], start)
  {
    hide Step, Init;
    var more := trace + [s'];
    forall k | 0 <= k < |more| - 1 ensures Step(more[k], more[k + 1], start) {
      if k < |trace| - 1 {
        assert Step(trace[k], trace[k + 1], start);
      }
    }
  }

  lemma ThreeBegin(d: Disk, start: nat, homes: seq<nat>) returns (trace: seq<State>)
    requires CanFill(d, start, homes)
    ensures Run(trace, start) && trace[|trace| - 1] == FilledLog(d, homes, 0)
  {
    var s0 := State(d, d, [], [], 0, false, Running, d, d, {});
    var s1 := s0.(outstanding := 1, charged := [0]);
    var s2 := s1.(outstanding := 2, charged := [0, 0]);
    var s3 := s2.(outstanding := 3, charged := [0, 0, 0]);
    assert Begin(s0, s1) && Begin(s1, s2) && Begin(s2, s3);
    trace := [s0];
    Extend(trace, s1, start);
    trace := trace + [s1];
    Extend(trace, s2, start);
    trace := trace + [s2];
    Extend(trace, s3, start);
    trace := trace + [s3];
  }

  /** The next operation with budget left holds the next block, logs it as it is and lets go of it. */
  lemma LogNextBlock(d: Disk, start: nat, homes: seq<nat>, k: nat) returns (s1: State, s2: State)
    requires CanFill(d, start, homes) && k < LOGBLOCKS
    ensures var s, s3 := FilledLog(d, homes, k), FilledLog(d, homes, k + 1);
            Step(s, s1, start) && Step(s1, s2, start) && Step(s2, s3, start)
  {
    var s, s3, bn := FilledLog(d, homes, k), FilledLog(d, homes, k + 1), homes[k];
    s1 := s.(held := {bn});
    s2 := s3.(held := {bn});
    assert Hold(s, s1, start, bn) by {
      ElementsSize(s.lh);
      assert s.lh[0..] == s.lh;
      assert Pinned(s) + s.held == Elements(s.lh);
    }
    assert Write(s1, s2, start, k / MAXOPBLOCKS, bn, d[bn]) by {
      assert d[bn := d[bn]] == d;
      assert homes[..k + 1] == homes[..k] + [bn];
    }
    assert Drop(s2, s3, bn) by {
      assert s2.held - {bn} == {};
    }
  }

  lemma {:induction false} FillTheLog(d: Disk, start: nat, homes: seq<nat>, k: nat) returns (trace: seq<State>)
    requires CanFill(d, start, homes) && k <= LOGBLOCKS
    ensures Run(trace, start) && trace[|trace| - 1] == FilledLog(d, homes, k)
  {
    hide Run, Step;
    if k == 0 {
      trace := ThreeBegin(d, start, homes);
    } else {
      trace := FillTheLog(d, start, homes, k - 1);
      var s1, s2 := LogNextBlock(d, start, homes, k - 1);
      Extend(trace, s1, start);
      trace := trace + [s1];
      Extend(trace, s2, start);
      trace := trace + [s2];
      Extend(trace, FilledLog(d, homes, k), start);
      trace := trace + [FilledLog(d, homes, k)];
    }
  }

  /** There are such disks: 62 empty blocks, the log in blocks 1 to 31. */
  lemma SomeDiskFills() returns (d: Disk, homes: seq<nat>)
    ensures CanFill(d, 1, homes)
  {
    d := seq(62, _ => seq(LOGBLOCKS + 1, _ => 0));
    homes := seq(LOGBLOCKS, i => i + 32);
  }

  /** Three operations of MAXOPBLOCKS blocks each fill the log. An operation may then still write a block
      that is already logged, which would take no room, but no write of it is possible, whatever the data:
      log_write panics. */
  lemma AbsorptionCanBeRefused(d: Disk, start: nat, homes: seq<nat>) returns (trace: seq<State>)
    requires CanFill(d, start, homes)
    ensures Run(trace, start)
    ensures var s := trace[|trace| - 1];
            && Inv(s, start) && |s.charged| == 3 && homes[0] in s.lh && homes[0] in s.held
            && (forall s', i, data :: !Write(s, s', start, i, homes[0], data))
            && (forall i :: 0 <= i < 3 ==> WritePanics(s, s.(phase := Panicked), i, homes[0]))
  {
    hide Run, Step, Inv;
    trace := FillTheLog(d, start, homes, LOGBLOCKS);
    var full := FilledLog(d, homes, LOGBLOCKS);
    var s := full.(held := {homes[0]});
    assert full.lh[0] == homes[0] && Hold(full, s, start, homes[0]) by {
      assert homes[..LOGBLOCKS] == homes && full.lh[0..] == full.lh;
      assert full.lh[0] in Pinned(full);
    }
    HoldIsStep(full, s, start, homes[0]);
    Extend(trace, s, start);
    trace := trace + [s];
    RunIsCrashSafe(trace, start, |trace| - 1);
  }

  lemma HoldIsStep(s: State, s': State, start: nat, bn: int)
    requires Hold(s, s', start, bn)
    ensures Step(s, s', start)
  {
  }

  /** When these operations end, the commit of the full log panics; the disk is as recoverable as before. */
  lemma FullLogPanics(d: Disk, start: nat, homes: seq<nat>) returns (trace: seq<State>)
    requires CanFill(d, start, homes)
    ensures Run(trace, start) && |trace| > 1
    ensures trace[|trace| - 2].phase == Committing(0) && trace[|trace| - 1].phase == Panicked
    ensures var s := trace[|trace| - 1]; GoodDisk(s.disk, start) && HomeIs(Recovered(s.disk, start), start, d)
  {
    hide Run, Step, Recovered, HomeIs;
    trace := FillTheLog(d, start, homes, LOGBLOCKS);
    var s3 := FilledLog(d, homes, LOGBLOCKS);
    var s2 := s3.(outstanding := 2, charged := [10, 10]);
    var s1 := s3.(outstanding := 1, charged := [10]);
    var s0 := s3.(outstanding := 0, charged := [], committing := true, phase := Committing(0));
    EndIsStep(s3, s2, start);
    EndIsStep(s2, s1, start);
    EndIsStep(s1, s0, start);
    Extend(trace, s2, start);
    trace := trace + [s2];
    Extend(trace, s1, start);
    trace := trace + [s1];
    Extend(trace, s0, start);
    trace := trace + [s0];
    var s := s0.(phase := Panicked);
    RunIsCrashSafe(trace, start, |trace| - 1);
    PinnedBound(s0, start);
    PanicIsStep(s0, s, start);
    Extend(trace, s, start);
    trace := trace + [s];
    RunIsCrashSafe(trace, start, |trace| - 1);
  }

  lemma EndIsStep(s: State, s': State, start: nat)
    requires End(s, s', 0)
    ensures Step(s, s', start)
  {
  }

  lemma PanicIsStep(s: State, s': State, start: nat)
    requires CommitPanics(s, s')
    ensures Step(s, s', start)
  {
  }
}
