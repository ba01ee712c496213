/**
 The virtio disk driver against a device that completes each chain it is given
 once, in any order. The driver's methods are the stretches of code between two
 waits, under vdisk_lock; the device's methods may run between any two of them.
 */
module Virtio {
  import opened Counting

  const NUM: int := 8
  const U16: int := 0x1_0000

  /** What a descriptor points at: the command header of a chain, a buffer's data, or the status byte of a chain. */
  datatype Addr = Nil | Header(h: int) | Data(b: int) | Status(h: int)

  /** Flags NEXT and WRITE (the device writes). */
  datatype Desc = Desc(addr: Addr, len: int, hasNext: bool, devWrites: bool, next: int)
  const EMPTY_DESC := Desc(Nil, 0, false, false, 0)

  const BSIZE: int := 1024
  const SECTOR: int := 512

  /** The size of a command header. */
  const HEADER_LEN: int := 16

  datatype Op = Op(write: bool, sector: int)
  datatype Info = Info(b: int, status: int)

  /** Descriptor i is free, part k of the chain with head h, or in the driver's hands. */
  datatype Use = Free | Part(h: int, k: int) | Held

  /** Where a chain is: nowhere, in the avail ring, with the device, in the used ring, or seen by the interrupt
      handler. */
  datatype Phase = None | Pending | Taken | Completed | Seen

  datatype V = V(free: seq<bool>, desc: seq<Desc>, ops: seq<Op>, info: seq<Info>, busy: seq<bool>,
                 own: seq<Use>, phase: seq<Phase>)

  predicate Shape(v: V) {
    |v.free| == |v.desc| == |v.ops| == |v.info| == |v.own| == |v.phase| == NUM
  }

  predicate Is(v: V, i: int, u: Use) { 0 <= i < |v.own| && v.own[i] == u }

  /** The chain of an active head: three descriptors, and the request they describe. */
  predicate ChainOk(v: V, h: int)
    requires Shape(v) && 0 <= h < NUM
  {
    var i1 := v.desc[h].next;
    && Is(v, h, Part(h, 0)) && v.desc[h].hasNext && !v.desc[h].devWrites && v.desc[h].addr == Header(h)
    && v.desc[h].len == HEADER_LEN
    && Is(v, i1, Part(h, 1)) && v.desc[i1].hasNext && v.desc[i1].devWrites == !v.ops[h].write
    && v.desc[i1].addr == Data(v.info[h].b) && v.desc[i1].len == BSIZE
    && Is(v, v.desc[i1].next, Part(h, 2)) && LastOk(v.desc[v.desc[i1].next], h)
  }

  predicate LastOk(d: Desc, h: int) { !d.hasNext && d.devWrites && d.addr == Status(h) && d.len == 1 }

  /** The descriptor that is part k of the chain. */
  function PartOf(v: V, h: int, k: int): int
    requires Shape(v) && 0 <= h < NUM && ChainOk(v, h) && 0 <= k <= 2
  {
    if k == 0 then h else if k == 1 then v.desc[h].next else v.desc[v.desc[h].next].next
  }

  /** The device writes 0 over the driver's 0xff when it completes a request. */
  function StatusIn(phase: Phase): int { if phase == Pending || phase == Taken then 0xff else 0 }

  predicate HeadOk(v: V, h: int)
    requires Shape(v) && 0 <= h < NUM
  {
    v.phase[h] != None ==>
      && ChainOk(v, h)
      && 0 <= v.info[h].b < |v.busy| && v.busy[v.info[h].b] == (v.phase[h] != Seen)
      && v.info[h].status == StatusIn(v.phase[h])
  }

  predicate DescOk(v: V, i: int)
    requires Shape(v) && 0 <= i < NUM
  {
    && (v.free[i] <==> v.own[i] == Free)
    && (v.free[i] ==> v.desc[i] == EMPTY_DESC)
    && (v.own[i].Part? ==>
          var h, k := v.own[i].h, v.own[i].k;
          0 <= h < NUM && 0 <= k <= 2 && v.phase[h] != None && ChainOk(v, h) && PartOf(v, h, k) == i)
  }

  /** No two requests in flight are for one buffer. */
  predicate Apart(v: V, h: int, h': int)
    requires Shape(v) && 0 <= h < NUM && 0 <= h' < NUM
  {
    h != h' && v.phase[h] != None && v.phase[h'] != None ==> v.info[h].b != v.info[h'].b
  }

  ghost predicate Inv(v: V) {
    && Shape(v)
    && (forall i :: 0 <= i < NUM ==> DescOk(v, i))
    && (forall h :: 0 <= h < NUM ==> HeadOk(v, h))
    && (forall h, h' :: 0 <= h < NUM && 0 <= h' < NUM ==> Apart(v, h, h'))
  }

  /** Between two stretches of the driver no descriptor is in its hands. */
  ghost predicate NoneHeld(own: seq<Use>) { forall i :: 0 <= i < |own| ==> own[i] != Held }

  /** Descriptor i is part k of the chain of a request in flight. */
  predicate InChain(v: V, h: int, k: int, i: int)
    requires Shape(v)
  {
    0 <= h < NUM && 0 <= k <= 2 && v.phase[h] != None && ChainOk(v, h) && PartOf(v, h, k) == i
  }

  /** Every descriptor is free or part of a request in flight, not both, and of one request at one place only. */
  lemma ChainsPartition(v: V, i: int)
    requires Inv(v) && NoneHeld(v.own) && 0 <= i < NUM
    ensures v.free[i] <==> !exists h, k :: InChain(v, h, k, i)
    ensures forall h, k, h', k' :: InChain(v, h, k, i) && InChain(v, h', k', i) ==> h == h' && k == k'
  {
    assert DescOk(v, i);
    if v.own[i].Part? {
      assert InChain(v, v.own[i].h, v.own[i].k, i);
    }
    forall h, k | InChain(v, h, k, i) ensures v.own[i] == Part(h, k) {
      assert HeadOk(v, h);
    }
  }

  // ---------------------------------------------------------------- descriptors in the driver's hands

  lemma Take(v: V, i: int)
    requires Inv(v) && 0 <= i < NUM && v.free[i]
    ensures Inv(v.(free := v.free[i := false], own := v.own[i := Held]))
  {
    var v' := v.(free := v.free[i := false], own := v.own[i := Held]);
    assert DescOk(v, i);
    Untouched(v, v', i);
  }

  lemma GiveBack(v: V, i: int)
    requires Inv(v) && 0 <= i < NUM && v.own[i] == Held
    ensures !v.free[i]
    ensures Inv(v.(free := v.free[i := true], own := v.own[i := Free], desc := v.desc[i := EMPTY_DESC]))
  {
    assert DescOk(v, i);
    Untouched(v, v.(free := v.free[i := true], own := v.own[i := Free], desc := v.desc[i := EMPTY_DESC]), i);
  }

  lemma Format(v: V, i: int, d: Desc)
    requires Inv(v) && 0 <= i < NUM && v.own[i] == Held
    ensures Inv(v.(desc := v.desc[i := d]))
  {
    assert DescOk(v, i);
    Untouched(v, v.(desc := v.desc[i := d]), i);
  }

  /** Descriptor i, in no chain before or after, is all that has changed. */
  lemma Untouched(v: V, v': V, i: int)
    requires Inv(v) && Shape(v') && 0 <= i < NUM && !v.own[i].Part?
    requires !v'.own[i].Part? && (v'.free[i] <==> v'.own[i] == Free)
    requires v'.free[i] ==> v'.desc[i] == EMPTY_DESC
    requires v'.ops == v.ops && v'.info == v.info && v'.busy == v.busy && v'.phase == v.phase
    requires forall j :: 0 <= j < NUM && j != i ==>
        v'.free[j] == v.free[j] && v'.desc[j] == v.desc[j] && v'.own[j] == v.own[j]
    ensures Inv(v')
  {
    forall h | 0 <= h < NUM ensures HeadOk(v', h) && (v.phase[h] != None ==> ChainOk(v', h)) {
      assert HeadOk(v, h);
    }
    forall j | 0 <= j < NUM ensures DescOk(v', j) {
      assert DescOk(v, j);
    }
    forall h, h' | 0 <= h < NUM && 0 <= h' < NUM ensures Apart(v', h, h') {
      assert Apart(v, h, h');
    }
  }

  // ---------------------------------------------------------------- starting and ending a request

  function Started(v: V, h: int, i1: int, i2: int, b: int): V
    requires Shape(v) && 0 <= h < NUM && 0 <= i1 < NUM && 0 <= i2 < NUM && 0 <= b < |v.busy|
  {
    v.(own := v.own[h := Part(h, 0)][i1 := Part(h, 1)][i2 := Part(h, 2)], phase := v.phase[h := Pending],
       info := v.info[h := Info(b, 0xff)], busy := v.busy[b := true])
  }

  predicate NotInFlight(phase: seq<Phase>, info: seq<Info>, b: int) {
    forall h :: 0 <= h < |phase| && h < |info| && phase[h] != None ==> info[h].b != b
  }

  /** The three descriptors and the command header filled in. */
  function Formatted(v: V, h: int, i1: int, i2: int, b: int, op: Op): V
    requires Shape(v) && 0 <= h < NUM && 0 <= i1 < NUM && 0 <= i2 < NUM
  {
    v.(ops := v.ops[h := op],
       desc := v.desc[h := Desc(Header(h), HEADER_LEN, true, false, i1)]
                     [i1 := Desc(Data(b), BSIZE, true, !op.write, i2)]
                     [i2 := Desc(Status(h), 1, false, true, 0)])
  }

  lemma FormatKeeps(v: V, h: int, i1: int, i2: int, b: int, op: Op)
    requires Inv(v) && 0 <= h < NUM && 0 <= i1 < NUM && 0 <= i2 < NUM
    requires v.own[h] == Held && v.own[i1] == Held && v.own[i2] == Held
    ensures v.phase[h] == None && Inv(Formatted(v, h, i1, i2, b, op))
  {
    hide Inv;
    InvShape(v);
    HeldIdle(v, h);
    SetOp(v, h, op);
    var v1 := v.(ops := v.ops[h := op]);
    Format(v1, h, Desc(Header(h), HEADER_LEN, true, false, i1));
    var v2 := v1.(desc := v1.desc[h := Desc(Header(h), HEADER_LEN, true, false, i1)]);
    Format(v2, i1, Desc(Data(b), BSIZE, true, !op.write, i2));
    var v3 := v2.(desc := v2.desc[i1 := Desc(Data(b), BSIZE, true, !op.write, i2)]);
    Format(v3, i2, Desc(Status(h), 1, false, true, 0));
  }

  lemma StartKeeps(v: V, h: int, i1: int, i2: int, b: int)
    requires Inv(v) && 0 <= h < NUM && 0 <= i1 < NUM && 0 <= i2 < NUM
    requires h != i1 && h != i2 && i1 != i2 && 0 <= b < |v.busy|
    requires v.own[h] == Held && v.own[i1] == Held && v.own[i2] == Held && NotInFlight(v.phase, v.info, b)
    requires v.desc[h] == Desc(Header(h), HEADER_LEN, true, false, i1)
    requires v.desc[i1] == Desc(Data(b), BSIZE, true, !v.ops[h].write, i2)
    requires v.desc[i2] == Desc(Status(h), 1, false, true, 0)
    ensures v.phase[h] == None && Inv(Started(v, h, i1, i2, b))
  {
    var v' := Started(v, h, i1, i2, b);
    assert HeadOk(v, h) && DescOk(v, h) && DescOk(v, i1) && DescOk(v, i2);
    forall g | 0 <= g < NUM ensures HeadOk(v', g) && (v'.phase[g] != None ==> ChainOk(v', g)) {
      assert HeadOk(v, g);
    }
    forall j | 0 <= j < NUM ensures DescOk(v', j) {
      assert DescOk(v, j);
    }
    forall g, g' | 0 <= g < NUM && 0 <= g' < NUM ensures Apart(v', g, g') {
      assert Apart(v, g, g');
    }
  }

  const NO_BUFFER: int := -1

  /** The chain of a request that has been seen, back in the driver's hands and forgotten. */
  function Ended(v: V, h: int): V
    requires Shape(v) && 0 <= h < NUM && ChainOk(v, h)
  {
    v.(own := v.own[h := Held][PartOf(v, h, 1) := Held][PartOf(v, h, 2) := Held], phase := v.phase[h := None],
       info := v.info[h := v.info[h].(b := NO_BUFFER)])
  }

  lemma EndKeeps(v: V, h: int)
    requires Inv(v) && 0 <= h < NUM && v.phase[h] == Seen
    ensures ChainOk(v, h) && Inv(Ended(v, h))
  {
    assert HeadOk(v, h);
    var v' := Ended(v, h);
    forall g | 0 <= g < NUM ensures HeadOk(v', g) && (v'.phase[g] != None ==> ChainOk(v', g)) {
      assert HeadOk(v, g);
    }
    forall j | 0 <= j < NUM ensures DescOk(v', j) {
      assert DescOk(v, j);
    }
    forall g, g' | 0 <= g < NUM && 0 <= g' < NUM ensures Apart(v', g, g') {
      assert Apart(v, g, g');
    }
  }

  /** A chain moves on. */
  function Moved(v: V, h: int, ph: Phase, status: int, busy: bool): V
    requires Shape(v) && 0 <= h < NUM && 0 <= v.info[h].b < |v.busy|
  {
    v.(phase := v.phase[h := ph], info := v.info[h := v.info[h].(status := status)],
       busy := v.busy[v.info[h].b := busy])
  }

  lemma MoveKeeps(v: V, h: int, ph: Phase, status: int)
    requires Inv(v) && 0 <= h < NUM && v.phase[h] != None && ph != None && status == StatusIn(ph)
    ensures 0 <= v.info[h].b < |v.busy| && Inv(Moved(v, h, ph, status, ph != Seen))
  {
    assert HeadOk(v, h);
    var v' := Moved(v, h, ph, status, ph != Seen);
    forall g | 0 <= g < NUM ensures HeadOk(v', g) && (v'.phase[g] != None ==> ChainOk(v', g)) {
      assert HeadOk(v, g) && Apart(v, g, h);
    }
    forall j | 0 <= j < NUM ensures DescOk(v', j) {
      assert DescOk(v, j);
    }
    forall g, g' | 0 <= g < NUM && 0 <= g' < NUM ensures Apart(v', g, g') {
      assert Apart(v, g, g');
    }
  }

  // ---------------------------------------------------------------- rings

  /** The queue of heads in a given phase. */
  ghost predicate QueueOk(phase: seq<Phase>, ph: Phase, q: seq<int>) {
    && |phase| == NUM
    && (forall k :: 0 <= k < |q| ==> 0 <= q[k] < NUM && phase[q[k]] == ph)
    && (forall k, l :: 0 <= k < l < |q| ==> q[k] != q[l])
    && (forall h :: 0 <= h < NUM && phase[h] == ph ==> h in q)
  }

  /** The ring holds the queue from count `start` on. */
  ghost predicate RingOk(ring: seq<int>, start: int, q: seq<int>) {
    |ring| == NUM && 0 <= start && forall k :: 0 <= k < |q| ==> ring[Place(start, k)] == q[k]
  }

  function Place(start: int, k: int): (p: int)
    ensures 0 <= p < NUM
  {
    (start + k) % NUM
  }

  /** A head that is not in the queue leaves room for it in the ring. */
  lemma Room(phase: seq<Phase>, ph: Phase, q: seq<int>, h: int)
    requires QueueOk(phase, ph, q) && 0 <= h < NUM && phase[h] != ph
    ensures |q| < NUM
  {
    ElementsSize(q);
    RangeSize(NUM);
    SubsetSize(Elements(q) + {h}, Range(NUM));
    assert h !in Elements(q);
  }

  lemma QueueLength(phase: seq<Phase>, ph: Phase, q: seq<int>)
    requires QueueOk(phase, ph, q)
    ensures |q| <= NUM
  {
    ElementsSize(q);
    RangeSize(NUM);
    SubsetSize(Elements(q), Range(NUM));
  }

  lemma Push(phase: seq<Phase>, ph: Phase, q: seq<int>, h: int)
    requires QueueOk(phase, ph, q) && 0 <= h < NUM && phase[h] != ph
    ensures QueueOk(phase[h := ph], ph, q + [h])
  {
    var p' := phase[h := ph];
    forall g | 0 <= g < NUM && p'[g] == ph ensures g in q + [h] {
      if g == h {
        assert (q + [h])[|q|] == h;
      }
    }
  }

  /** Writing one entry past the queue overwrites none of it, as long as it does not fill the ring. */
  lemma PushRing(ring: seq<int>, start: int, q: seq<int>, h: int)
    requires RingOk(ring, start, q) && |q| < NUM
    ensures RingOk(ring[Place(start, |q|) := h], start, q + [h])
  {
    forall k | 0 <= k < |q| ensures Place(start, k) != Place(start, |q|) {
      PlacesDiffer(start, k, |q|);
    }
  }

  lemma PlacesDiffer(start: int, k: int, l: int)
    requires 0 <= start && 0 <= k < l < k + NUM
    ensures Place(start, k) != Place(start, l)
  {
  }

  lemma Pop(phase: seq<Phase>, ph: Phase, q: seq<int>, ph': Phase)
    requires QueueOk(phase, ph, q) && q != [] && ph' != ph
    ensures 0 <= q[0] < NUM && phase[q[0]] == ph && QueueOk(phase[q[0] := ph'], ph, q[1..])
  {
    var p' := phase[q[0] := ph'];
    forall g | 0 <= g < NUM && p'[g] == ph ensures g in q[1..] {
      var k :| 0 <= k < |q| && q[k] == g;
      assert k > 0 && q[1..][k - 1] == g;
    }
  }

  lemma PopRing(ring: seq<int>, start: int, q: seq<int>)
    requires RingOk(ring, start, q) && q != []
    ensures ring[Place(start, 0)] == q[0] && RingOk(ring, start + 1, q[1..])
  {
    forall k | 0 <= k < |q[1..]| ensures ring[Place(start + 1, k)] == q[1..][k] {
      assert Place(start + 1, k) == Place(start, k + 1);
    }
  }

  /** Other chains moving leaves a queue alone. */
  lemma OtherQueue(phase: seq<Phase>, ph: Phase, q: seq<int>, h: int, ph': Phase)
    requires QueueOk(phase, ph, q) && 0 <= h < NUM && phase[h] != ph && ph' != ph
    ensures QueueOk(phase[h := ph'], ph, q)
  {
  }

  /** A 16-bit index selects the same ring entry as the count it stands for, and tells an empty queue from a full
      one. */
  lemma Index16(count: int, n: int)
    requires 0 <= count && 0 <= n <= NUM
    ensures count % U16 % NUM == Place(count, 0) && (count + n) % U16 % NUM == Place(count, n)
    ensures (count % U16 == (count + n) % U16) <==> n == 0
  {
    Wrap(count);
    Wrap(count + n);
  }

  lemma Wrap(x: int)
    requires 0 <= x
    ensures x % U16 % NUM == x % NUM
  {
  }

  /** Both rings with their 16-bit indices, and the queues they hold with the unbounded counts behind the indices. */
  datatype Rings = Rings(avail: seq<int>, availIdx: int, takenIdx: int, used: seq<int>, usedDevIdx: int, usedIdx: int,
                         pending: seq<int>, takenCount: int, completed: seq<int>, seenCount: int)

  ghost predicate RingsOk(r: Rings, phase: seq<Phase>) {
    && QueueOk(phase, Pending, r.pending) && RingOk(r.avail, r.takenCount, r.pending)
    && QueueOk(phase, Completed, r.completed) && RingOk(r.used, r.seenCount, r.completed)
    && r.takenIdx == r.takenCount % U16 && r.availIdx == (r.takenCount + |r.pending|) % U16
    && r.usedIdx == r.seenCount % U16 && r.usedDevIdx == (r.seenCount + |r.completed|) % U16
  }

  lemma NextIndex(count: int)
    requires 0 <= count
    ensures (count % U16 + 1) % U16 == (count + 1) % U16
  {
  }

  function Rest(q: seq<int>): seq<int> { if q == [] then [] else q[1..] }

  function SubmitRing(r: Rings, h: int): Rings
    requires |r.avail| == NUM
  {
    r.(avail := r.avail[r.availIdx % NUM := h], availIdx := (r.availIdx + 1) % U16, pending := r.pending + [h])
  }

  lemma SubmitRingOk(r: Rings, phase: seq<Phase>, h: int)
    requires RingsOk(r, phase) && 0 <= h < NUM && phase[h] == None
    ensures |r.avail| == NUM && |r.pending| < NUM && RingsOk(SubmitRing(r, h), phase[h := Pending])
  {
    hide QueueOk, RingOk, Place;
    Room(phase, Pending, r.pending, h);
    Push(phase, Pending, r.pending, h);
    OtherQueue(phase, Completed, r.completed, h, Pending);
    RingSize(r.avail, r.takenCount, r.pending);
    PushRing(r.avail, r.takenCount, r.pending, h);
    Index16(r.takenCount, |r.pending|);
    NextIndex(r.takenCount + |r.pending|);
  }

  lemma RingSize(ring: seq<int>, start: int, q: seq<int>)
    requires RingOk(ring, start, q)
    ensures |ring| == NUM && 0 <= start
  {
  }

  function TakeRing(r: Rings): Rings {
    r.(takenIdx := (r.takenIdx + 1) % U16, takenCount := r.takenCount + 1, pending := Rest(r.pending))
  }

  lemma TakeRingOk(r: Rings, phase: seq<Phase>)
    requires RingsOk(r, phase)
    ensures r.takenIdx == r.availIdx <==> r.pending == []
    ensures r.pending != [] ==>
              var h := r.pending[0];
              |r.avail| == NUM && r.avail[r.takenIdx % NUM] == h && 0 <= h < NUM && phase[h] == Pending
              && RingsOk(TakeRing(r), phase[h := Taken])
  {
    hide QueueOk, RingOk, Place;
    QueueLength(phase, Pending, r.pending);
    RingSize(r.avail, r.takenCount, r.pending);
    Index16(r.takenCount, |r.pending|);
    if r.pending != [] {
      PopRing(r.avail, r.takenCount, r.pending);
      Pop(phase, Pending, r.pending, Taken);
      OtherQueue(phase, Completed, r.completed, r.pending[0], Taken);
      NextIndex(r.takenCount);
    }
  }

  function CompleteRing(r: Rings, h: int): Rings
    requires |r.used| == NUM
  {
    r.(used := r.used[r.usedDevIdx % NUM := h], usedDevIdx := (r.usedDevIdx + 1) % U16, completed := r.completed + [h])
  }

  lemma CompleteRingOk(r: Rings, phase: seq<Phase>, h: int)
    requires RingsOk(r, phase) && 0 <= h < NUM && phase[h] == Taken
    ensures |r.used| == NUM && |r.completed| < NUM && RingsOk(CompleteRing(r, h), phase[h := Completed])
  {
    hide QueueOk, RingOk, Place;
    Room(phase, Completed, r.completed, h);
    Push(phase, Completed, r.completed, h);
    OtherQueue(phase, Pending, r.pending, h, Completed);
    RingSize(r.used, r.seenCount, r.completed);
    PushRing(r.used, r.seenCount, r.completed, h);
    Index16(r.seenCount, |r.completed|);
    NextIndex(r.seenCount + |r.completed|);
  }

  function SeeRing(r: Rings): Rings {
    r.(usedIdx := (r.usedIdx + 1) % U16, seenCount := r.seenCount + 1, completed := Rest(r.completed))
  }

  lemma SeeRingOk(r: Rings, phase: seq<Phase>)
    requires RingsOk(r, phase)
    ensures r.usedIdx == r.usedDevIdx <==> r.completed == []
    ensures r.completed != [] ==>
              var h := r.completed[0];
              |r.used| == NUM && r.used[r.usedIdx % NUM] == h && 0 <= h < NUM && phase[h] == Completed
              && RingsOk(SeeRing(r), phase[h := Seen])
  {
    hide QueueOk, RingOk, Place;
    QueueLength(phase, Completed, r.completed);
    RingSize(r.used, r.seenCount, r.completed);
    Index16(r.seenCount, |r.completed|);
    if r.completed != [] {
      PopRing(r.used, r.seenCount, r.completed);
      Pop(phase, Completed, r.completed, Seen);
      OtherQueue(phase, Pending, r.pending, r.completed[0], Seen);
      NextIndex(r.seenCount);
    }
  }

  lemma EndRingOk(r: Rings, phase: seq<Phase>, h: int)
    requires RingsOk(r, phase) && 0 <= h < NUM && phase[h] == Seen
    ensures RingsOk(r, phase[h := None])
  {
    hide RingOk, Place;
    OtherQueue(phase, Pending, r.pending, h, None);
    OtherQueue(phase, Completed, r.completed, h, None);
  }

  // ---------------------------------------------------------------- steps of the driver and the device

  datatype World = World(v: V, r: Rings)

  datatype Label =
    | SubmitL(h: int, b: int, op: Op)
    | TakeL(h: int)
    | CompleteL(h: int)
    | SeeL(h: int)
    | FinishL(h: int, b: int)

  ghost predicate Good(w: World) { Inv(w.v) && RingsOk(w.r, w.v.phase) && NoneHeld(w.v.own) }

  predicate Three(h: int, i1: int, i2: int) {
    0 <= h < NUM && 0 <= i1 < NUM && 0 <= i2 < NUM && h != i1 && h != i2 && i1 != i2
  }

  /** Three free descriptors in the driver's hands. */
  function Grabbed(v: V, h: int, i1: int, i2: int): V
    requires Shape(v) && Three(h, i1, i2)
  {
    v.(free := v.free[h := false][i1 := false][i2 := false], own := v.own[h := Held][i1 := Held][i2 := Held])
  }

  /** The three descriptors have left the free ones, describe the request and belong to it. */
  function Submitted(v: V, h: int, i1: int, i2: int, b: int, op: Op): V
    requires Shape(v) && Three(h, i1, i2) && 0 <= b < |v.busy|
  {
    Started(Formatted(Grabbed(v, h, i1, i2), h, i1, i2, b, op), h, i1, i2, b)
  }

  ghost predicate SubmitWith(w: World, w': World, h: int, i1: int, i2: int, b: int, op: Op) {
    && Shape(w.v) && |w.r.avail| == NUM && Three(h, i1, i2) && w.v.free[h] && w.v.free[i1] && w.v.free[i2]
    && 0 <= b < |w.v.busy| && NotInFlight(w.v.phase, w.v.info, b)
    && w' == World(Submitted(w.v, h, i1, i2, b, op), SubmitRing(w.r, h))
  }

  predicate TakeStep(w: World, w': World, h: int) {
    && Shape(w.v) && |w.r.avail| == NUM && w.r.takenIdx != w.r.availIdx && h == w.r.avail[w.r.takenIdx % NUM]
    && 0 <= h < NUM
    && w' == World(w.v.(phase := w.v.phase[h := Taken]), TakeRing(w.r))
  }

  /** The device may complete any chain that it has fetched. */
  predicate CompleteStep(w: World, w': World, h: int) {
    && Shape(w.v) && |w.r.used| == NUM && 0 <= h < NUM && w.v.phase[h] == Taken
    && w' == World(w.v.(phase := w.v.phase[h := Completed], info := w.v.info[h := w.v.info[h].(status := 0)]),
                   CompleteRing(w.r, h))
  }

  predicate SeeStep(w: World, w': World, h: int) {
    && Shape(w.v) && |w.r.used| == NUM && w.r.usedIdx != w.r.usedDevIdx && h == w.r.used[w.r.usedIdx % NUM]
    && 0 <= h < NUM && 0 <= w.v.info[h].b < |w.v.busy|
    && w' == World(w.v.(phase := w.v.phase[h := Seen], busy := w.v.busy[w.v.info[h].b := false]), SeeRing(w.r))
  }

  /** virtio_disk_rw goes on when the flag of its buffer is down. */
  predicate FinishStep(w: World, w': World, h: int, b: int) {
    && Shape(w.v) && 0 <= h < NUM && 0 <= b < |w.v.busy| && w.v.phase[h] != None && w.v.info[h].b == b && !w.v.busy[b]
    && ChainOk(w.v, h) && w' == World(Emptied(w.v, h, 3), w.r)
  }

  ghost predicate Step(w: World, w': World, l: Label) {
    match l
    case SubmitL(h, b, op) => exists i1, i2 :: SubmitWith(w, w', h, i1, i2, b, op)
    case TakeL(h) => TakeStep(w, w', h)
    case CompleteL(h) => CompleteStep(w, w', h)
    case SeeL(h) => SeeStep(w, w', h)
    case FinishL(h, b) => FinishStep(w, w', h, b)
  }

  lemma SubmitKeeps(w: World, w': World, h: int, i1: int, i2: int, b: int, op: Op)
    requires Good(w) && SubmitWith(w, w', h, i1, i2, b, op)
    ensures Good(w') && w.v.phase[h] == None && Requests(w'.v, h, b, op.write, op.sector)
  {
    hide Inv, RingsOk, NotInFlight, Formatted, Started, ChainOk, Requests, SubmitRing;
    var v := w.v;
    Take(v, h);
    var v1 := v.(free := v.free[h := false], own := v.own[h := Held]);
    Take(v1, i1);
    var v2 := v1.(free := v1.free[i1 := false], own := v1.own[i1 := Held]);
    Take(v2, i2);
    EnqueueKeeps(Grabbed(v, h, i1, i2), h, i1, i2, b, op);
    SubmitRingOk(w.r, v.phase, h);
    SubmittedParts(v, h, i1, i2, b, op);
  }

  lemma SubmittedParts(v: V, h: int, i1: int, i2: int, b: int, op: Op)
    requires Shape(v) && Three(h, i1, i2) && 0 <= b < |v.busy|
    ensures var v' := Submitted(v, h, i1, i2, b, op);
            && v'.phase == v.phase[h := Pending]
            && (NoneHeld(v.own) ==> NoneHeld(v'.own))
            && (forall i :: 0 <= i < NUM ==> v'.free[i] == (v.free[i] && i != h && i != i1 && i != i2))
  {
  }

  lemma TakeKeeps(w: World, w': World, h: int)
    requires Good(w) && TakeStep(w, w', h)
    ensures Good(w') && w.v.phase[h] == Pending
  {
    hide Inv, RingsOk, NotInFlight;
    TakeRingOk(w.r, w.v.phase);
    var v := w.v;
    StatusUnwritten(v, h);
    MoveKeeps(v, h, Taken, v.info[h].status);
    BusyStays(v, h);
    assert v.busy[v.info[h].b := true] == v.busy;
    assert v.info[h := v.info[h].(status := v.info[h].status)] == v.info;
  }

  lemma CompleteKeeps(w: World, w': World, h: int)
    requires Good(w) && CompleteStep(w, w', h)
    ensures Good(w')
  {
    hide Inv, RingsOk, NotInFlight;
    CompleteRingOk(w.r, w.v.phase, h);
    var v := w.v;
    MoveKeeps(v, h, Completed, 0);
    BusyStays(v, h);
    assert v.busy[v.info[h].b := true] == v.busy;
  }

  lemma SeeKeeps(w: World, w': World, h: int)
    requires Good(w) && SeeStep(w, w', h)
    ensures Good(w') && w.v.phase[h] == Completed && w.v.info[h].status == 0
  {
    hide Inv, RingsOk, NotInFlight;
    SeeRingOk(w.r, w.v.phase);
    var v := w.v;
    StatusZero(v, h);
    MoveKeeps(v, h, Seen, v.info[h].status);
    assert v.info[h := v.info[h].(status := v.info[h].status)] == v.info;
  }

  lemma FinishKeeps(w: World, w': World, h: int, b: int)
    requires Good(w) && FinishStep(w, w', h, b)
    ensures Good(w') && w.v.phase[h] == Seen
  {
    hide Inv, RingsOk, NotInFlight, ChainOk;
    var v := w.v;
    DoneIsSeen(v, h);
    EndKeeps(v, h);
    EndRingOk(w.r, v.phase, h);
    EmptiedKeeps(v, h);
  }

  lemma EmptiedKeeps(v: V, h: int)
    requires Shape(v) && 0 <= h < NUM && ChainOk(v, h) && Inv(Ended(v, h))
    ensures Inv(Emptied(v, h, 3)) && Emptied(v, h, 3).phase == v.phase[h := None]
    ensures NoneHeld(v.own) ==> NoneHeld(Emptied(v, h, 3).own)
  {
    hide Inv;
    PartsDiffer(v, h);
    var e := Ended(v, h);
    GiveBack(e, h);
    var e1 := GivenUp(e, h);
    GiveBack(e1, PartOf(v, h, 1));
    var e2 := GivenUp(e1, PartOf(v, h, 1));
    GiveBack(e2, PartOf(v, h, 2));
  }

  lemma StepKeeps(w: World, w': World, l: Label)
    requires Good(w) && Step(w, w', l)
    ensures Good(w')
  {
    hide Good, SubmitWith, TakeStep, CompleteStep, SeeStep, FinishStep;
    match l {
      case SubmitL(h, b, op) =>
        var i1, i2 :| SubmitWith(w, w', h, i1, i2, b, op);
        SubmitKeeps(w, w', h, i1, i2, b, op);
      case TakeL(h) => TakeKeeps(w, w', h);
      case CompleteL(h) => CompleteKeeps(w, w', h);
      case SeeL(h) => SeeKeeps(w, w', h);
      case FinishL(h, b) => FinishKeeps(w, w', h, b);
    }
  }

  // ---------------------------------------------------------------- whole runs

  ghost predicate Path(run: seq<World>, ls: seq<Label>) {
    |run| == |ls| + 1 && forall i :: 0 <= i < |ls| ==> Step(run[i], run[i + 1], ls[i])
  }

  lemma {:induction false} PathIsGood(run: seq<World>, ls: seq<Label>, n: nat)
    requires Path(run, ls) && Good(run[0]) && n < |run|
    ensures Good(run[n])
  {
    hide Good, Step;
    if n > 0 {
      PathIsGood(run, ls, n - 1);
      assert Step(run[n - 1], run[n - 1 + 1], ls[n - 1]);
      StepKeeps(run[n - 1], run[n], ls[n - 1]);
    }
  }

  /** Head h carries the request for buffer b. */
  predicate Own(v: V, h: int, b: int, op: Op) {
    Shape(v) && 0 <= h < NUM && v.phase[h] != None && v.info[h].b == b && v.ops[h] == op
  }

  predicate Done(v: V, h: int) { Shape(v) && 0 <= h < NUM && (v.phase[h] == Completed || v.phase[h] == Seen) }

  /** No step but its own end takes the request away from its head, and only the device completes it. */
  lemma OwnStays(w: World, w': World, l: Label, h: int, b: int, op: Op)
    requires Good(w) && Step(w, w', l) && Own(w.v, h, b, op) && !(l.FinishL? && l.h == h)
    ensures Own(w'.v, h, b, op) && (Done(w'.v, h) ==> Done(w.v, h) || l == CompleteL(h))
  {
    hide Good, ChainOk, PartOf, NotInFlight, Formatted;
    match l {
      case SubmitL(g, c, op') =>
        var i1, i2 :| SubmitWith(w, w', g, i1, i2, c, op');
        SubmitKeeps(w, w', g, i1, i2, c, op');
        FormattedParts(Grabbed(w.v, g, i1, i2), g, i1, i2, c, op');
      case TakeL(g) => TakeKeeps(w, w', g);
      case CompleteL(g) =>
      case SeeL(g) => SeeKeeps(w, w', g);
      case FinishL(g, c) =>
    }
  }

  lemma FormattedParts(v: V, h: int, i1: int, i2: int, b: int, op: Op)
    requires Shape(v) && 0 <= h < NUM && 0 <= i1 < NUM && 0 <= i2 < NUM
    ensures var v' := Formatted(v, h, i1, i2, b, op);
            Shape(v') && v'.ops == v.ops[h := op] && v'.info == v.info && v'.phase == v.phase && v'.busy == v.busy
  {
  }

  /** After the submission of a request for buffer b under head h, as long as h has not been finished: whatever
      the driver and the device do, the chain of h describes that request, and a chain that is done was completed
      by the device since. */
  lemma {:induction false} OwnOverRuns(run: seq<World>, ls: seq<Label>, h: int, b: int, op: Op, n: nat)
    requires Path(run, ls) && Good(run[0]) && 1 <= n <= |ls| && ls[0] == SubmitL(h, b, op)
    requires forall i :: 1 <= i < n ==> !(ls[i].FinishL? && ls[i].h == h)
    ensures Good(run[n]) && Own(run[n].v, h, b, op)
    ensures Done(run[n].v, h) ==> CompleteL(h) in ls[1..n]
  {
    hide Good, Step, Done;
    PathIsGood(run, ls, n);
    PathIsGood(run, ls, n - 1);
    assert Step(run[n - 1], run[n - 1 + 1], ls[n - 1]);
    if n == 1 {
      JustSubmitted(run[0], run[1], h, b, op);
    } else {
      OwnOverRuns(run, ls, h, b, op, n - 1);
      OwnStays(run[n - 1], run[n], ls[n - 1], h, b, op);
      assert ls[1..n] == ls[1..n - 1] + [ls[n - 1]];
    }
  }

  lemma JustSubmitted(w: World, w': World, h: int, b: int, op: Op)
    requires Good(w) && Step(w, w', SubmitL(h, b, op))
    ensures Own(w'.v, h, b, op) && !Done(w'.v, h)
  {
    hide Good, Formatted, ChainOk;
    var i1, i2 :| SubmitWith(w, w', h, i1, i2, b, op);
    FormattedParts(Grabbed(w.v, h, i1, i2), h, i1, i2, b, op);
  }

  /** virtio_disk_rw returns only after the device has completed the very request it submitted: when the flag of
      its buffer is down, the head it was given still carries its request, which the device has completed since;
      so its next step ends that request and no other. */
  lemma ReturnsAfterOwnRequest(run: seq<World>, ls: seq<Label>, h: int, b: int, op: Op)
    requires Path(run, ls) && Good(run[0]) && 1 <= |ls| && ls[0] == SubmitL(h, b, op)
    requires forall i :: 1 <= i < |ls| ==> !(ls[i].FinishL? && ls[i].h == h)
    ensures var v := run[|ls|].v;
            && Inv(v) && 0 <= h < NUM && Requests(v, h, b, op.write, op.sector) && 0 <= b < |v.busy|
            && (!v.busy[b] ==> v.phase[h] == Seen && CompleteL(h) in ls)
            && (!v.busy[b] <==> exists w' :: Step(run[|ls|], w', FinishL(h, b)))
  {
    hide RingsOk, NoneHeld;
    var n := |ls|;
    OwnOverRuns(run, ls, h, b, op, n);
    var v := run[n].v;
    assert HeadOk(v, h);
    var w' := World(Emptied(v, h, 3), run[n].r);
    assert !v.busy[b] ==> Step(run[n], w', FinishL(h, b));
  }

  // ---------------------------------------------------------------- the driver and the device

  class Disk {
    // the driver's own fields
    var free: seq<bool>
    var info: seq<Info>
    var ops: seq<Op>
    var usedIdx: int
    // the flag `disk` of every buffer
    var busy: seq<bool>
    // shared with the device
    var desc: seq<Desc>
    var avail: seq<int>
    var availIdx: int
    var used: seq<int>
    var usedDevIdx: int
    // the device's own field: how far it has looked in the avail ring
    var takenIdx: int
    // auxiliary: uses, phases, and the queues with unbounded counts
    ghost var own: seq<Use>
    ghost var phase: seq<Phase>
    ghost var pending: seq<int>
    ghost var completed: seq<int>
    ghost var takenCount: int
    ghost var seenCount: int
    // how many processes sleep on the free descriptors, and the buffers that one sleeps on
    ghost var waiting: nat
    ghost var asleep: set<int>

    ghost function S(): V
      reads this
    {
      V(free, desc, ops, info, busy, own, phase)
    }

    ghost function R(): Rings
      reads this
    {
      Rings(avail, availIdx, takenIdx, used, usedDevIdx, usedIdx, pending, takenCount, completed, seenCount)
    }

    ghost predicate Valid()
      reads this
    {
      Inv(S()) && RingsOk(R(), phase)
    }

    ghost function W(): World
      reads this
    {
      World(S(), R())
    }

    /** What holds between two stretches of the driver. */
    ghost predicate Between()
      reads this
    {
      Good(W())
    }

    /** Nobody sleeps who could go on: for descriptors only while fewer than three are free, for a request only while
        its buffer's flag is up. */
    ghost predicate NobodyStranded()
      reads this
    {
      (waiting > 0 ==> |FreeSet(free)| < 3) && forall b :: b in asleep ==> 0 <= b < |busy| && busy[b]
    }

    /** virtio_disk_init. */
    constructor (buffers: nat)
      ensures waiting == 0 && asleep == {} && NobodyStranded()
      ensures Between() && |busy| == buffers && (forall i :: 0 <= i < NUM ==> free[i]) && NoRequests(phase)
    {
      free, info, ops := seq(NUM, _ => true), seq(NUM, _ => Info(0, 0)), seq(NUM, _ => Op(false, 0));
      desc, busy := seq(NUM, _ => EMPTY_DESC), seq(buffers, _ => false);
      avail, used := seq(NUM, _ => 0), seq(NUM, _ => 0);
      availIdx, usedIdx, usedDevIdx, takenIdx := 0, 0, 0, 0;
      own, phase := seq(NUM, _ => Free), seq(NUM, _ => None);
      pending, completed, takenCount, seenCount := [], [], 0, 0;
      waiting, asleep := 0, {};
    }

    /** alloc_desc: the lowest free descriptor, or -1. */
    method AllocDesc() returns (i: int)
      requires Valid()
      modifies `free, `own
      ensures Valid() && -1 <= i < NUM
      ensures i == -1 <==> forall j :: 0 <= j < NUM ==> !old(free)[j]
      ensures i == -1 ==> S() == old(S())
      ensures i != -1 ==> old(free)[i] && S() == old(S()).(free := old(free)[i := false], own := old(own)[i := Held])
      ensures i != -1 ==> forall j :: 0 <= j < i ==> !old(free)[j]
    {
      hide DescOk, HeadOk, Apart, RingsOk;
      i := 0;
      while i < NUM
        invariant 0 <= i <= NUM && forall j :: 0 <= j < i ==> !free[j]
      {
        if free[i] {
          Take(S(), i);
          free := free[i := false];
          own := own[i := Held];
          return;
        }
        i := i + 1;
      }
      i := -1;
    }

    /** free_desc of a descriptor in the driver's hands; its panics are out of reach. */
    method FreeDesc(i: int)
      requires Valid() && 0 <= i < NUM && own[i] == Held
      modifies `free, `desc, `own, `waiting
      ensures Valid() && waiting == 0
      ensures S() ==
          old(S()).(free := old(free)[i := true], desc := old(desc)[i := EMPTY_DESC], own := old(own)[i := Free])
    {
      hide DescOk, HeadOk, Apart, RingsOk;
      GiveBack(S(), i);
      assert !free[i];
      desc := desc[i := EMPTY_DESC];
      free := free[i := true];
      own := own[i := Free];
      waiting := 0;
    }

    /** alloc3_desc: three descriptors, or nothing taken exactly when fewer than three are free. */
    method Alloc3Desc() returns (ok: bool, idx: seq<int>)
      requires Valid()
      modifies `free, `own, `desc, `waiting
      ensures Valid() && (ok ==> waiting == old(waiting))
      ensures ok <==> |FreeSet(old(free))| >= 3
      ensures !ok ==> S() == old(S())
      ensures ok ==> |idx| == 3 && Taken3(old(S()), S(), idx)
    {
      hide Inv, RingsOk, TakenSome, FreeSet;
      ghost var v := S();
      TakenStart(v);
      idx := [];
      while |idx| < 3
        invariant |idx| <= 3 && Valid() && TakenSome(v, S(), idx) && waiting == old(waiting)
        decreases 3 - |idx|
      {
        ghost var v1 := S();
        InvShape(v1);
        var i := AllocDesc();
        if i < 0 {
          NoneLeft(v, S(), idx);
          TakeBack(idx, v);
          return false, [];
        }
        TakenMore(v, v1, S(), idx, i);
        idx := idx + [i];
      }
      ThreeFree(v, S(), idx);
      ok := true;
    }

    /** The descriptors taken so far become free again. */
    method TakeBack(idx: seq<int>, ghost v: V)
      requires Valid() && TakenSome(v, S(), idx)
      modifies `free, `own, `desc, `waiting
      ensures Valid() && S() == v
    {
      hide Inv, RingsOk, TakenSome;
      var j := 0;
      assert idx[0..] == idx;
      while j < |idx|
        invariant 0 <= j <= |idx| && Valid() && TakenSome(v, S(), idx[j..])
      {
        TakenFirst(v, S(), idx[j..]);
        InvShape(S());
        ghost var v2 := S();
        FreeDesc(idx[j]);
        GivenBack(v, v2, S(), idx[j..]);
        assert idx[j..][1..] == idx[j + 1..];
        j := j + 1;
      }
      assert idx[j..] == [];
      TakenNone(v, S());
    }

    /** virtio_disk_rw up to its first wait: the head of the chain, or -1 if it has to sleep until descriptors are
        freed. The caller has the buffer locked, so no other request is for it. */
    method Submit(b: int, write: bool, blockno: int) returns (h: int)
      requires Between() && 0 <= b < |busy| && NotInFlight(phase, info, b)
      modifies this
      ensures Between() && -1 <= h < NUM
      ensures h == -1 <==> |FreeSet(old(free))| < 3
      ensures h == -1 ==> W() == old(W())
      ensures h != -1 ==> Step(old(W()), W(), SubmitL(h, b, Op(write, SectorOf(blockno))))
      ensures h != -1 ==> FreeSet(free) <= FreeSet(old(free)) && |FreeSet(old(free))| == |FreeSet(free)| + 3
      ensures h != -1 ==> Requests(S(), h, b, write, SectorOf(blockno)) && pending == old(pending) + [h]
      ensures h != -1 && 0 <= blockno < 0x8000_0000 ==> FirstByte(S(), h) == blockno * BSIZE
      ensures h != -1 ==> 0 <= desc[h].next < NUM && desc[desc[h].next].len == BSIZE
      ensures asleep == old(asleep) && if h == -1 then waiting > 0 else waiting == old(waiting)
      ensures old(NobodyStranded()) ==> NobodyStranded()
    {
      hide Inv, RingsOk, NotInFlight, Requests, Started, Formatted, Grabbed;
      ghost var w := W();
      InvShape(w.v);
      var ok, idx := Alloc3Desc();
      if !ok {
        waiting := waiting + 1;
        return -1;
      }
      ThreeHeld(w.v, S(), idx);
      GrabbedIs(w.v, S(), idx);
      var op := Op(write, SectorOf(blockno));
      Enqueue(b, op, idx[0], idx[1], idx[2]);
      h := idx[0];
      IsSubmit(w, W(), h, idx[1], idx[2], b, op);
      InvShape(S());
      AsksFor(S(), h, b, write, SectorOf(blockno));
    }

    /** Formatting the three descriptors and telling the device. */
    method Enqueue(b: int, op: Op, h: int, i1: int, i2: int)
      requires Valid() && 0 <= b < |busy| && NotInFlight(phase, info, b) && Three(h, i1, i2)
      requires own[h] == Held && own[i1] == Held && own[i2] == Held
      modifies this
      ensures Valid() && Shape(old(S())) && |old(avail)| == NUM 
      ensures waiting == old(waiting) && asleep == old(asleep) && busy == old(busy)[b := true]
      ensures S() == Started(Formatted(old(S()), h, i1, i2, b, op), h, i1, i2, b) && R() == SubmitRing(old(R()), h)
    {
      hide Inv, RingsOk, NotInFlight, ChainOk, Requests;
      ghost var v := S();
      InvShape(v);
      EnqueueKeeps(v, h, i1, i2, b, op);
      Fill(b, op, h, i1, i2);
      Announce(b, h, i1, i2);
    }

    /** The command header and the three descriptors. */
    method Fill(b: int, op: Op, h: int, i1: int, i2: int)
      requires Valid() && 0 <= h < NUM && 0 <= i1 < NUM && 0 <= i2 < NUM
      requires own[h] == Held && own[i1] == Held && own[i2] == Held
      modifies `ops, `desc
      ensures Valid() && S() == Formatted(old(S()), h, i1, i2, b, op)
    {
      hide Inv, RingsOk;
      InvShape(S());
      FormatKeeps(S(), h, i1, i2, b, op);
      ops := ops[h := op];
      desc := desc[h := Desc(Header(h), HEADER_LEN, true, false, i1)][i1 := Desc(Data(b), BSIZE, true, !op.write, i2)]
                  [i2 := Desc(Status(h), 1, false, true, 0)];
    }

    /** Recording the buffer, then the avail ring and its index. */
    method Announce(b: int, h: int, i1: int, i2: int)
      requires Valid() && 0 <= b < |busy| && 0 <= h < NUM && 0 <= i1 < NUM && 0 <= i2 < NUM && phase[h] == None
      requires Inv(Started(S(), h, i1, i2, b))
      modifies `info, `busy, `own, `phase, `avail, `availIdx, `pending
      ensures Valid() && S() == Started(old(S()), h, i1, i2, b)
      ensures |old(avail)| == NUM && R() == SubmitRing(old(R()), h)
    {
      hide Inv, RingsOk;
      InvShape(S());
      SubmitRingOk(R(), phase, h);
      info, busy := info[h := Info(b, 0xff)], busy[b := true];
      own, phase := own[h := Part(h, 0)][i1 := Part(h, 1)][i2 := Part(h, 2)], phase[h := Pending];
      avail := avail[availIdx % NUM := h];
      availIdx := (availIdx + 1) % U16;
      pending := pending + [h];
    }

    /** The device fetches the next available chain, if there is one. */
    method DeviceTakes() returns (h: int)
      requires Between()
      modifies `takenIdx, `phase, `pending, `takenCount
      ensures Between() && (h == -1 <==> old(pending) == [])
      ensures h == -1 ==> W() == old(W())
      ensures h != -1 ==> h == old(pending)[0] && Step(old(W()), W(), TakeL(h))
    {
      hide Inv, RingsOk, NotInFlight;
      ghost var w := W();
      TakeRingOk(R(), phase);
      InvShape(S());
      if takenIdx == availIdx {
        return -1;
      }
      h := avail[takenIdx % NUM];
      phase := phase[h := Taken];
      takenIdx := (takenIdx + 1) % U16;
      takenCount := takenCount + 1;
      pending := pending[1..];
      TakeKeeps(w, W(), h);
    }

    /** The device completes a chain that it has fetched. */
    method DeviceCompletes(h: int)
      requires Between() && 0 <= h < NUM && phase[h] == Taken
      modifies `info, `used, `usedDevIdx, `phase, `completed
      ensures Between() && Step(old(W()), W(), CompleteL(h)) && completed == old(completed) + [h]
    {
      hide Inv, RingsOk, NotInFlight;
      ghost var w := W();
      CompleteRingOk(R(), phase, h);
      InvShape(S());
      info := info[h := info[h].(status := 0)];
      phase := phase[h := Completed];
      used := used[usedDevIdx % NUM := h];
      usedDevIdx := (usedDevIdx + 1) % U16;
      completed := completed + [h];
      CompleteKeeps(w, W(), h);
    }

    /** One turn of the interrupt handler's loop; its panic is out of reach. */
    method SeeOne() returns (ghost id: int)
      requires Between() && completed != []
      modifies `busy, `usedIdx, `phase, `completed, `seenCount, `asleep
      ensures Between() && id == old(completed)[0] && completed == old(completed)[1..]
      ensures Step(old(W()), W(), SeeL(id)) && |phase| == NUM && 0 <= id < NUM
      ensures |old(phase)| == NUM && old(phase)[id] == Completed && phase == old(phase)[id := Seen]
      ensures |info| == NUM && asleep == old(asleep) - {info[id].b}
      ensures old(NobodyStranded()) ==> NobodyStranded()
    {
      hide Inv, RingsOk, NotInFlight;
      ghost var w := W();
      SeeRingOk(R(), phase);
      InvShape(S());
      var i := used[usedIdx % NUM];
      id := i;
      CompletedHead(S(), i);
      assert info[i].status == 0;
      busy := busy[info[i].b := false];
      asleep := asleep - {info[i].b};
      phase := phase[i := Seen];
      usedIdx := (usedIdx + 1) % U16;
      seenCount := seenCount + 1;
      completed := completed[1..];
      SeeKeeps(w, W(), i);
    }

    /** virtio_disk_intr: a turn for every completed request, after which none is left. */
    method Intr() returns (ghost run: seq<World>, ghost ls: seq<Label>)
      requires Between()
      modifies `busy, `usedIdx, `phase, `completed, `seenCount, `asleep
      ensures Between() && completed == []
      ensures Path(run, ls) && run[0] == old(W()) && run[|ls|] == W() && forall i :: 0 <= i < |ls| ==> ls[i].SeeL?
      ensures |phase| == |old(phase)| && forall h :: 0 <= h < |phase| ==>
                phase[h] == if old(phase)[h] == Completed then Seen else old(phase)[h]
      ensures old(NobodyStranded()) ==> NobodyStranded()
    {
      hide Inv, RingsOk, NotInFlight, Path, Step;
      ghost var before := phase;
      SeeRingOk(R(), phase);
      InvShape(S());
      run, ls := [W()], [];
      PathStart(W());
      while usedIdx != usedDevIdx
        invariant Between() && (usedIdx != usedDevIdx <==> completed != [])
        invariant |phase| == |before| == NUM && SeenSome(before, phase) && (old(NobodyStranded()) ==> NobodyStranded())
        invariant |run| == |ls| + 1 && Path(run, ls) && run[0] == old(W()) && run[|ls|] == W()
        invariant forall i :: 0 <= i < |ls| ==> ls[i].SeeL?
        decreases |completed|
      {
        ghost var id := SeeOne();
        PathMore(run, ls, W(), SeeL(id));
        run, ls := run + [W()], ls + [SeeL(id)];
        SeeRingOk(R(), phase);
      }
      QueueOfRings(R(), phase);
      AllSeen(before, phase, completed);
      PathLength(run, ls);
    }

    /** virtio_disk_rw looks at its buffer's flag, and sleeps while it is up. */
    method TryFinish(b: int) returns (done: bool)
      requires Between() && 0 <= b < |busy|
      modifies `asleep
      ensures Between() && done == !busy[b] && asleep == (if done then old(asleep) else old(asleep) + {b})
      ensures old(NobodyStranded()) ==> NobodyStranded()
    {
      done := !busy[b];
      if !done {
        asleep := asleep + {b};
      }
    }

    /** virtio_disk_rw after its wait: its own request has been completed, and its three descriptors become free. */
    method Finish(b: int, h: int)
      requires Between() && 0 <= h < NUM && phase[h] != None && info[h].b == b && 0 <= b < |busy| && !busy[b]
      modifies `free, `desc, `own, `phase, `info, `waiting
      ensures Between() && Step(old(W()), W(), FinishL(h, b)) && old(phase)[h] == Seen
      ensures forall i :: 0 <= i < NUM ==> free[i] == (old(free)[i] || (old(own)[i].Part? && old(own)[i].h == h))
      ensures waiting == 0 && (old(NobodyStranded()) ==> NobodyStranded())
    {
      hide Inv, RingsOk, NotInFlight, Emptied;
      ghost var w := W();
      ghost var v := S();
      DoneIsSeen(v, h);
      EndKeeps(v, h);
      EndRingOk(R(), phase, h);
      InvShape(S());
      info := info[h := info[h].(b := NO_BUFFER)];
      own, phase := Ended(v, h).own, phase[h := None];
      FreeChain(h, v);
      FreedThree(v, S(), h);
      FinishKeeps(w, W(), h, b);
    }

    /** free_chain of a chain whose three descriptors are in the driver's hands again. */
    method FreeChain(h: int, ghost v: V)
      requires Valid() && Inv(v) && 0 <= h < NUM && ChainOk(v, h) && S() == Ended(v, h)
      modifies `free, `desc, `own, `waiting
      ensures Valid() && S() == Emptied(v, h, 3) && waiting == 0
    {
      hide Inv, RingsOk, NotInFlight;
      InvShape(v);
      var i := h;
      ghost var k := 0;
      PartsDiffer(v, h);
      while true
        invariant 0 <= k <= 2 && i == PartOf(v, h, k) && Valid() && S() == Emptied(v, h, k)
        decreases 3 - k
      {
        var more, nxt := desc[i].hasNext, desc[i].next;
        FreeDesc(i);
        k := k + 1;
        if more {
          i := nxt;
        } else {
          break;
        }
      }
    }
  }

  /** The chain with its first k descriptors freed. */
  function Emptied(v: V, h: int, k: int): V
    requires Shape(v) && 0 <= h < NUM && ChainOk(v, h)
  {
    var e := Ended(v, h);
    var i1, i2 := PartOf(v, h, 1), PartOf(v, h, 2);
    var e1 := if k > 0 then GivenUp(e, h) else e;
    var e2 := if k > 1 then GivenUp(e1, i1) else e1;
    if k > 2 then GivenUp(e2, i2) else e2
  }

  function GivenUp(v: V, i: int): (v': V)
    requires Shape(v) && 0 <= i < NUM
    ensures Shape(v')
  {
    v.(free := v.free[i := true], desc := v.desc[i := EMPTY_DESC], own := v.own[i := Free])
  }

  lemma PartsDiffer(v: V, h: int)
    requires Shape(v) && 0 <= h < NUM && ChainOk(v, h)
    ensures PartOf(v, h, 0) != PartOf(v, h, 1) && PartOf(v, h, 0) != PartOf(v, h, 2)
    ensures PartOf(v, h, 1) != PartOf(v, h, 2)
    ensures 0 <= PartOf(v, h, 1) < NUM && 0 <= PartOf(v, h, 2) < NUM
  {
  }

  lemma FreedThree(v: V, v': V, h: int)
    requires Inv(v) && 0 <= h < NUM && ChainOk(v, h) && v' == Emptied(v, h, 3)
    ensures Shape(v') && forall i :: 0 <= i < NUM ==> v'.free[i] == (v.free[i] || (v.own[i].Part? && v.own[i].h == h))
  {
    PartsDiffer(v, h);
    forall i | 0 <= i < NUM ensures v'.free[i] == (v.free[i] || (v.own[i].Part? && v.own[i].h == h)) {
      assert DescOk(v, i);
    }
  }

  lemma InvShape(v: V)
    requires Inv(v)
    ensures Shape(v)
  {
  }

  lemma QueueOfRings(r: Rings, phase: seq<Phase>)
    requires RingsOk(r, phase)
    ensures QueueOk(phase, Completed, r.completed)
  {
  }

  lemma DoneIsSeen(v: V, h: int)
    requires Inv(v) && 0 <= h < NUM && v.phase[h] != None && 0 <= v.info[h].b < |v.busy| && !v.busy[v.info[h].b]
    ensures v.phase[h] == Seen
  {
    assert HeadOk(v, h);
  }

  lemma StatusUnwritten(v: V, h: int)
    requires Inv(v) && 0 <= h < NUM && v.phase[h] == Pending
    ensures v.info[h].status == 0xff
  {
    assert HeadOk(v, h);
  }

  lemma StatusZero(v: V, h: int)
    requires Inv(v) && 0 <= h < NUM && v.phase[h] == Completed
    ensures v.info[h].status == 0
  {
    assert HeadOk(v, h);
  }

  lemma BusyStays(v: V, h: int)
    requires Inv(v) && 0 <= h < NUM && v.phase[h] != None && v.phase[h] != Seen
    ensures 0 <= v.info[h].b < |v.busy| && v.busy[v.info[h].b]
  {
    assert HeadOk(v, h);
  }

  ghost predicate SeenSome(before: seq<Phase>, phase: seq<Phase>) {
    |phase| == |before| && forall h :: 0 <= h < |before| ==>
      phase[h] == before[h] || (before[h] == Completed && phase[h] == Seen)
  }

  lemma AllSeen(before: seq<Phase>, phase: seq<Phase>, q: seq<int>)
    requires SeenSome(before, phase) && QueueOk(phase, Completed, q) && q == []
    ensures forall h :: 0 <= h < |phase| ==> phase[h] == if before[h] == Completed then Seen else before[h]
  {
  }

  /** The sector of a block, in the 32 bits of a block number. */
  function SectorOf(blockno: int): int { blockno * (BSIZE / SECTOR) % 0x1_0000_0000 }

  /** Where on the disk the transfer of a request starts. */
  function FirstByte(v: V, h: int): int
    requires Shape(v) && 0 <= h < NUM
  {
    v.ops[h].sector * SECTOR
  }

  lemma AsksFor(v: V, h: int, b: int, write: bool, sector: int)
    requires Shape(v) && 0 <= h < NUM && Requests(v, h, b, write, sector)
    ensures FirstByte(v, h) == sector * SECTOR && 0 <= v.desc[h].next < NUM && v.desc[v.desc[h].next].len == BSIZE
  {
  }

  /** The transfer covers byte x of the disk. */
  predicate Covers(v: V, h: int, x: int)
    requires Shape(v) && 0 <= h < NUM && ChainOk(v, h)
  {
    FirstByte(v, h) <= x < FirstByte(v, h) + v.desc[v.desc[h].next].len
  }

  /** A request covers exactly its block if the block number is below 2^31, and another block if it is not. */
  lemma CoversItsBlock(v: V, h: int, b: int, write: bool, blockno: int)
    requires Shape(v) && 0 <= h < NUM && 0 <= blockno < 0x1_0000_0000
    requires Requests(v, h, b, write, SectorOf(blockno))
    ensures ChainOk(v, h) && forall x :: Covers(v, h, x) <==> x / BSIZE == blockno % 0x8000_0000
    ensures blockno % 0x8000_0000 == blockno <==> blockno < 0x8000_0000
  {
    Doubled(blockno);
    assert FirstByte(v, h) == blockno % 0x8000_0000 * BSIZE;
    forall x ensures Covers(v, h, x) <==> x / BSIZE == blockno % 0x8000_0000 {
      InBlock(x, blockno % 0x8000_0000);
    }
  }

  lemma Doubled(n: int)
    requires 0 <= n < 0x1_0000_0000
    ensures SectorOf(n) == 2 * (n % 0x8000_0000)
  {
  }

  lemma InBlock(x: int, k: int)
    ensures k * BSIZE <= x < k * BSIZE + BSIZE <==> x / BSIZE == k
  {
  }

  /** So requests for two blocks share a byte of the disk exactly if their numbers agree in the low 31 bits. */
  lemma RequestsApart(v: V, h: int, b: int, write: bool, n: int, h': int, b': int, write': bool, n': int)
    requires Shape(v) && 0 <= h < NUM && 0 <= n < 0x1_0000_0000 && Requests(v, h, b, write, SectorOf(n))
    requires 0 <= h' < NUM && 0 <= n' < 0x1_0000_0000 && Requests(v, h', b', write', SectorOf(n'))
    ensures ChainOk(v, h) && ChainOk(v, h')
    ensures (exists x :: Covers(v, h, x) && Covers(v, h', x)) <==> n % 0x8000_0000 == n' % 0x8000_0000
  {
    hide Covers, ChainOk, SectorOf;
    RequestsChain(v, h, b, write, SectorOf(n));
    RequestsChain(v, h', b', write', SectorOf(n'));
    CoversItsBlock(v, h, b, write, n);
    CoversItsBlock(v, h', b', write', n');
    var x := n % 0x8000_0000 * BSIZE;
    InBlock(x, n % 0x8000_0000);
    assert Covers(v, h, x);
    assert n % 0x8000_0000 == n' % 0x8000_0000 ==> Covers(v, h', x);
  }

  lemma RequestsChain(v: V, h: int, b: int, write: bool, sector: int)
    requires Shape(v) && 0 <= h < NUM && Requests(v, h, b, write, sector)
    ensures ChainOk(v, h)
  {
  }

  /** The device, following the chain from its head, finds this request. */
  predicate Requests(v: V, h: int, b: int, write: bool, sector: int)
    requires Shape(v) && 0 <= h < NUM
  {
    ChainOk(v, h) && v.ops[h] == Op(write, sector) && v.info[h].b == b
  }

  lemma StartRequests(v: V, h: int, i1: int, i2: int, b: int)
    requires Inv(v) && 0 <= h < NUM && 0 <= i1 < NUM && 0 <= i2 < NUM
    requires 0 <= b < |v.busy| && Inv(Started(v, h, i1, i2, b))
    ensures Requests(Started(v, h, i1, i2, b), h, b, v.ops[h].write, v.ops[h].sector)
  {
    assert HeadOk(Started(v, h, i1, i2, b), h);
  }

  lemma EnqueueKeeps(v: V, h: int, i1: int, i2: int, b: int, op: Op)
    requires Inv(v) && 0 <= h < NUM && 0 <= i1 < NUM && 0 <= i2 < NUM
    requires h != i1 && h != i2 && i1 != i2 && 0 <= b < |v.busy|
    requires v.own[h] == Held && v.own[i1] == Held && v.own[i2] == Held && NotInFlight(v.phase, v.info, b)
    ensures var v' := Started(Formatted(v, h, i1, i2, b, op), h, i1, i2, b);
            v.phase[h] == None && Inv(v') && Requests(v', h, b, op.write, op.sector)
  {
    hide Inv, ChainOk, NotInFlight;
    InvShape(v);
    FormatKeeps(v, h, i1, i2, b, op);
    var v1 := Formatted(v, h, i1, i2, b, op);
    StartKeeps(v1, h, i1, i2, b);
    StartRequests(v1, h, i1, i2, b);
  }

  // ---------------------------------------------------------------- taking three descriptors

  /** The descriptors of idx, free before, are now in the driver's hands; nothing else has changed. */
  ghost predicate TakenSome(v: V, v': V, idx: seq<int>) {
    && Shape(v) && Shape(v')
    && v'.ops == v.ops && v'.info == v.info && v'.busy == v.busy && v'.phase == v.phase && v'.desc == v.desc
    && (forall k :: 0 <= k < |idx| ==> 0 <= idx[k] < NUM && v.free[idx[k]] && v.desc[idx[k]] == EMPTY_DESC)
    && (forall k, l :: 0 <= k < l < |idx| ==> idx[k] != idx[l])
    && (forall i :: 0 <= i < NUM ==>
          v'.own[i] == (if i in idx then Held else v.own[i]) && v'.free[i] == (v.free[i] && i !in idx))
    && (forall i :: 0 <= i < NUM ==> (v.free[i] <==> v.own[i] == Free))
  }

  ghost predicate Taken3(v: V, v': V, idx: seq<int>) { |idx| == 3 && TakenSome(v, v', idx) }

  lemma TakenStart(v: V)
    requires Inv(v)
    ensures TakenSome(v, v, [])
  {
    forall i | 0 <= i < NUM ensures v.free[i] <==> v.own[i] == Free {
      assert DescOk(v, i);
    }
  }

  lemma TakenNone(v: V, v': V)
    requires TakenSome(v, v', [])
    ensures v' == v
  {
    assert v'.own == v.own && v'.free == v.free;
  }

  lemma TakenFirst(v: V, v': V, idx: seq<int>)
    requires TakenSome(v, v', idx) && idx != []
    ensures 0 <= idx[0] < NUM && v'.own[idx[0]] == Held
  {
  }

  lemma TakenMore(v: V, v1: V, v2: V, idx: seq<int>, i: int)
    requires TakenSome(v, v1, idx) && Inv(v1) && 0 <= i < NUM && v1.free[i]
    requires v2 == v1.(free := v1.free[i := false], own := v1.own[i := Held])
    ensures TakenSome(v, v2, idx + [i])
  {
    assert DescOk(v1, i);
  }

  lemma GivenBack(v: V, v1: V, v2: V, idx: seq<int>)
    requires TakenSome(v, v1, idx) && idx != [] && 0 <= idx[0] < NUM
    requires v2 ==
        v1.(free := v1.free[idx[0] := true], desc := v1.desc[idx[0] := EMPTY_DESC], own := v1.own[idx[0] := Free])
    ensures TakenSome(v, v2, idx[1..])
  {
    assert v1.desc[idx[0] := EMPTY_DESC] == v1.desc;
    forall i | 0 <= i < NUM
      ensures v2.own[i] == (if i in idx[1..] then Held else v.own[i]) && v2.free[i] == (v.free[i] && i !in idx[1..])
    {
      assert i in idx <==> i == idx[0] || i in idx[1..];
    }
  }

  ghost function FreeSet(free: seq<bool>): set<int> { set i | 0 <= i < |free| && free[i] }

  /** When no descriptor is left, the ones taken are all that were free. */
  lemma NoneLeft(v: V, v': V, idx: seq<int>)
    requires TakenSome(v, v', idx) && |idx| < 3 && forall j :: 0 <= j < NUM ==> !v'.free[j]
    ensures |FreeSet(v.free)| < 3
  {
    ElementsSize(idx);
    assert FreeSet(v.free) == Elements(idx);
  }

  lemma ThreeFree(v: V, v': V, idx: seq<int>)
    requires Taken3(v, v', idx)
    ensures |FreeSet(v.free)| >= 3
  {
    ElementsSize(idx);
    SubsetSize(Elements(idx), FreeSet(v.free));
  }

  lemma GrabbedIs(v: V, v': V, idx: seq<int>)
    requires Taken3(v, v', idx)
    ensures Three(idx[0], idx[1], idx[2]) && v' == Grabbed(v, idx[0], idx[1], idx[2])
    ensures v.free[idx[0]] && v.free[idx[1]] && v.free[idx[2]]
  {
    assert idx == [idx[0], idx[1], idx[2]];
    var g := Grabbed(v, idx[0], idx[1], idx[2]);
    assert v'.own == g.own && v'.free == g.free;
  }

  lemma IsSubmit(w: World, w': World, h: int, i1: int, i2: int, b: int, op: Op)
    requires Good(w) && SubmitWith(w, w', h, i1, i2, b, op)
    ensures Good(w') && Step(w, w', SubmitL(h, b, op)) && Requests(w'.v, h, b, op.write, op.sector)
    ensures FreeSet(w'.v.free) <= FreeSet(w.v.free) && |FreeSet(w.v.free)| == |FreeSet(w'.v.free)| + 3
  {
    hide Good, SubmitWith, Requests;
    SubmitKeeps(w, w', h, i1, i2, b, op);
    ThreeLeave(w, w', h, i1, i2, b, op);
  }

  lemma ThreeLeave(w: World, w': World, h: int, i1: int, i2: int, b: int, op: Op)
    requires SubmitWith(w, w', h, i1, i2, b, op)
    ensures FreeSet(w'.v.free) <= FreeSet(w.v.free) && |FreeSet(w.v.free)| == |FreeSet(w'.v.free)| + 3
  {
    hide Submitted;
    SubmittedParts(w.v, h, i1, i2, b, op);
    var f, f' := FreeSet(w.v.free), FreeSet(w'.v.free);
    assert |w'.v.free| == NUM by { SubmittedShape(w.v, h, i1, i2, b, op); }
    assert f == f' + {h} + {i1} + {i2};
  }

  lemma SubmittedShape(v: V, h: int, i1: int, i2: int, b: int, op: Op)
    requires Shape(v) && Three(h, i1, i2) && 0 <= b < |v.busy|
    ensures |Submitted(v, h, i1, i2, b, op).free| == NUM
  {
  }

  lemma CompletedHead(v: V, h: int)
    requires Inv(v) && 0 <= h < NUM && v.phase[h] == Completed
    ensures v.info[h].status == 0 && 0 <= v.info[h].b < |v.busy|
  {
    assert HeadOk(v, h);
  }

  lemma PathStart(w: World)
    ensures Path([w], [])
  {
  }

  lemma PathMore(run: seq<World>, ls: seq<Label>, w: World, l: Label)
    requires Path(run, ls) && Step(run[|ls|], w, l)
    ensures Path(run + [w], ls + [l])
  {
    hide Step;
    var run', ls' := run + [w], ls + [l];
    forall i | 0 <= i < |ls'| ensures Step(run'[i], run'[i + 1], ls'[i]) {
      if i < |ls| {
        assert Step(run[i], run[i + 1], ls[i]);
      }
    }
  }

  lemma PathLength(run: seq<World>, ls: seq<Label>)
    requires Path(run, ls)
    ensures |run| == |ls| + 1
  {
  }

  lemma ThreeHeld(v: V, v': V, idx: seq<int>)
    requires Taken3(v, v', idx)
    ensures 0 <= idx[0] < NUM && 0 <= idx[1] < NUM && 0 <= idx[2] < NUM
    ensures idx[0] != idx[1] && idx[0] != idx[2] && idx[1] != idx[2]
    ensures v'.own[idx[0]] == Held && v'.own[idx[1]] == Held && v'.own[idx[2]] == Held
    ensures v'.ops == v.ops && v'.info == v.info && v'.busy == v.busy && v'.phase == v.phase
  {
  }

  lemma HeldIdle(v: V, h: int)
    requires Inv(v) && 0 <= h < NUM && v.own[h] == Held
    ensures v.phase[h] == None
  {
    assert HeadOk(v, h);
  }

  lemma SetOp(v: V, h: int, op: Op)
    requires Inv(v) && 0 <= h < NUM && v.phase[h] == None
    ensures Inv(v.(ops := v.ops[h := op]))
  {
    var v' := v.(ops := v.ops[h := op]);
    forall g | 0 <= g < NUM ensures HeadOk(v', g) && (v'.phase[g] != None ==> ChainOk(v', g)) {
      assert HeadOk(v, g);
    }
    forall j | 0 <= j < NUM ensures DescOk(v', j) {
      assert DescOk(v, j);
    }
    forall g, g' | 0 <= g < NUM && 0 <= g' < NUM ensures Apart(v', g, g') {
      assert Apart(v, g, g');
    }
  }

  predicate NoRequests(phase: seq<Phase>) { forall h :: 0 <= h < |phase| ==> phase[h] == None }
}
