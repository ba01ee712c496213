/**
 Pipes. A call of pipewrite or piperead is a sequence of stretches under the
 pipe's lock, separated by sleeps; each method here is one stretch, and the
 stretches of any number of readers and writers may follow each other in any
 order. `accepted` and `delivered` are all bytes ever written and ever read.
 */
module Pipe {

  const PIPESIZE: int := 512
  const U32: int := 0x1_0000_0000

  /** How a stretch of pipewrite ends: everything written, asleep on a full pipe, no reader (or the caller was killed),
      or the next byte could not be copied in. */
  datatype WriteEnd = WroteAll | WaitFull | NoReader | CopyFailed

  /** How a stretch of piperead ends: asleep on an empty pipe, killed while it is empty, or returned. */
  datatype ReadEnd = WaitEmpty | Killed | Returned

  function Cell(k: int): (c: int)
    requires 0 <= k
    ensures 0 <= c < PIPESIZE
  {
    k % PIPESIZE
  }

  /** The bytes between the two counts are in the ring. */
  ghost predicate Holds(data: seq<int>, accepted: seq<int>, d: int) {
    && |data| == PIPESIZE && 0 <= d <= |accepted| <= d + PIPESIZE
    && forall k :: d <= k < |accepted| ==> data[Cell(k)] == accepted[k]
  }

  lemma HoldsMore(data: seq<int>, accepted: seq<int>, d: int, ch: int)
    requires Holds(data, accepted, d) && |accepted| < d + PIPESIZE
    ensures Holds(data[Cell(|accepted|) := ch], accepted + [ch], d)
  {
    forall k | d <= k < |accepted| ensures Cell(k) != Cell(|accepted|) {
      CellsDiffer(k, |accepted|);
    }
  }

  lemma CellsDiffer(k: int, l: int)
    requires 0 <= k < l < k + PIPESIZE
    ensures Cell(k) != Cell(l)
  {
  }

  lemma HoldsLess(data: seq<int>, accepted: seq<int>, d: int)
    requires Holds(data, accepted, d) && d < |accepted|
    ensures data[Cell(d)] == accepted[d] && Holds(data, accepted, d + 1)
  {
  }

  /** The 32-bit counters choose the right cells and tell full from empty, however often they have wrapped. */
  lemma Counters(d: int, a: int)
    requires 0 <= d <= a <= d + PIPESIZE
    ensures d % U32 % PIPESIZE == Cell(d) && a % U32 % PIPESIZE == Cell(a)
    ensures (a % U32 == (d % U32 + PIPESIZE) % U32) <==> a == d + PIPESIZE
    ensures (d % U32 == a % U32) <==> d == a
  {
    Wrap(d);
    Wrap(a);
  }

  lemma Wrap(x: int)
    requires 0 <= x
    ensures x % U32 % PIPESIZE == x % PIPESIZE
  {
  }

  lemma Next(x: int)
    requires 0 <= x
    ensures (x % U32 + 1) % U32 == (x + 1) % U32
  {
  }

  /** How a stretch of pipewrite from byte i on ends at byte i'. */
  predicate Wrote(src: seq<int>, i: int, i': int, end: WriteEnd, dies: int, bad: int, readopen: bool) {
    && 0 <= i <= i' <= |src|
    && (end == WroteAll ==> i' == |src|)
    && (end == WaitFull ==> i' < |src|)
    && (end == NoReader ==> i' < |src| && if readopen then i' == (if dies <= i then i else dies) else i' == i)
    && (end != NoReader && i' < |src| ==> readopen && i' < dies)
    && (i' > i ==> readopen && i' <= dies)
    && (end == CopyFailed ==> i' == bad < |src|)
    && (i <= bad ==> i' <= bad)
  }

  class PipeBuffer {
    var data: seq<int>
    var nread: int
    var nwrite: int
    var readopen: bool
    var writeopen: bool
    /** The pipe's page has been given back. */
    var freed: bool
    ghost var accepted: seq<int>
    ghost var delivered: seq<int>
    /** How many processes sleep on &pi->nread and on &pi->nwrite. */
    ghost var readers: nat
    ghost var writers: nat

    /** What was read is a prefix of what was written, and at most PIPESIZE bytes are in between. */
    ghost predicate Valid()
      reads this
    {
      && delivered <= accepted && Holds(data, accepted, |delivered|)
      && nread == |delivered| % U32 && nwrite == |accepted| % U32
      && (freed <==> !readopen && !writeopen)
    }

    /** Nobody sleeps who could go on: readers only while the pipe is empty and a writer may come, writers only while
        it is full and a reader may come. */
    ghost predicate NobodyStranded()
      reads this
    {
      && (readers > 0 ==> delivered == accepted && writeopen)
      && (writers > 0 ==> |accepted| == |delivered| + PIPESIZE && readopen)
    }

    /** The page as pipealloc sets it up; the ring holds whatever kalloc left there. */
    constructor (page: seq<int>)
      requires |page| == PIPESIZE
      ensures Valid() && readopen && writeopen && accepted == [] && delivered == []
      ensures readers == 0 && writers == 0 && NobodyStranded()
    {
      data, nread, nwrite, readopen, writeopen, freed := page, 0, 0, true, true, false;
      accepted, delivered, readers, writers := [], [], 0, 0;
    }

    /** One stretch of pipewrite, from byte i on. The caller's killed flag, looked at before every byte, is found set
        from byte number `dies` on. Byte number `bad` cannot be copied in; -1 means there is none. Sleeping readers
        are woken, except by a writer that gives up: one that is killed having written something strands them. */
    method WriteStretch(src: seq<int>, i: int, dies: int, bad: int) returns (i': int, end: WriteEnd)
      requires Valid() && 0 <= i <= |src| && !freed
      modifies `data, `nwrite, `accepted, `readers, `writers
      ensures Valid() && Wrote(src, i, i', end, dies, bad, readopen) && accepted == old(accepted) + src[i..i']
      ensures end == WaitFull ==> |accepted| == |delivered| + PIPESIZE
      ensures readers == (if end == NoReader then old(readers) else 0)
      ensures writers == old(writers) + if end == WaitFull then 1 else 0
      ensures old(NobodyStranded()) ==>
          (NobodyStranded() <==> old(readers) == 0 || !DiesWriting(|src|, i, dies, bad, readopen, old(Free())))
    {
      hide Holds, Cell;
      i', end := CopyIn(src, i, dies, bad);
      Room(data, accepted, |delivered|);
      SameLength(delivered, accepted);
      if end != NoReader {
        readers := 0;
      }
      if end == WaitFull {
        writers := writers + 1;
      }
    }

    /** The loop of pipewrite, up to the point where it sleeps or ends. */
    method CopyIn(src: seq<int>, i: int, dies: int, bad: int) returns (i': int, end: WriteEnd)
      requires Valid() && 0 <= i <= |src| && !freed
      modifies `data, `nwrite, `accepted
      ensures Valid() && Wrote(src, i, i', end, dies, bad, readopen) && accepted == old(accepted) + src[i..i']
      ensures end == WaitFull ==> |accepted| == |delivered| + PIPESIZE
    {
      hide Holds, Cell;
      i' := i;
      assert src[i..i] == [];
      while i' < |src|
        invariant i <= i' <= |src| && Valid() && accepted == old(accepted) + src[i..i']
        invariant (i' > i ==> readopen && i' <= dies) && (i <= bad ==> i' <= bad)
      {
        if !readopen || dies <= i' {
          return i', NoReader;
        }
        Room(data, accepted, |delivered|);
        Counters(|delivered|, |accepted|);
        if nwrite == (nread + PIPESIZE) % U32 {
          return i', WaitFull;
        }
        if i' == bad {
          return i', CopyFailed;
        }
        var ch := src[i'];
        HoldsMore(data, accepted, |delivered|, ch);
        Next(|accepted|);
        data := data[nwrite % PIPESIZE := ch];
        nwrite := (nwrite + 1) % U32;
        accepted := accepted + [ch];
        assert src[i..i'] + [ch] == src[i..i' + 1];
        i' := i' + 1;
      }
      return i', WroteAll;
    }

    /** One stretch of piperead. Byte number `bad` cannot be copied out; -1 means there is none. Exactly the bytes
        before it, as many as there are and were asked for, are delivered; -1 if that is none because byte 0 is bad.
        Nobody is stranded by it. */
    method ReadStretch(n: int, killed: bool, bad: int) returns (end: ReadEnd, result: int, bytes: seq<int>)
      requires Valid() && !freed
      modifies `nread, `delivered, `readers, `writers
      ensures Valid() && delivered == old(delivered) + bytes
      ensures end == Returned ==> |bytes| == Deliverable(n, |accepted| - |old(delivered)|, bad)
      ensures end != Returned ==> bytes == [] && delivered == accepted && writeopen && (end == Killed <==> killed)
      ensures end == Returned ==> old(delivered) != accepted || !writeopen
      ensures end == Returned ==>
          result == if bad == 0 && n > 0 && old(delivered) != accepted then -1 else |bytes|
      ensures readers == old(readers) + if end == WaitEmpty then 1 else 0
      ensures writers == (if end == Returned then 0 else old(writers))
      ensures old(NobodyStranded()) ==> NobodyStranded()
    {
      hide Holds, Cell;
      Room(data, accepted, |delivered|);
      Counters(|delivered|, |accepted|);
      SameLength(delivered, accepted);
      if nread == nwrite && writeopen {
        if killed {
          return Killed, -1, [];
        }
        readers := readers + 1;
        return WaitEmpty, -1, [];
      }
      end := Returned;
      result, bytes := CopyOut(n, bad);
      writers := 0;
    }

    /** The copying loop of piperead. */
    method CopyOut(n: int, bad: int) returns (i: int, bytes: seq<int>)
      requires Valid()
      modifies `nread, `delivered
      ensures Valid() && delivered == old(delivered) + bytes
      ensures |bytes| == Deliverable(n, |accepted| - |old(delivered)|, bad)
      ensures i == if bad == 0 && n > 0 && old(delivered) != accepted then -1 else |bytes|
    {
      hide Holds, Cell;
      bytes, i := [], 0;
      SameLength(delivered, accepted);
      while i < n
        invariant 0 <= i <= (if n > 0 then n else 0) && Valid() && |bytes| == i && delivered == old(delivered) + bytes
        invariant 0 <= bad ==> i <= bad
      {
        Room(data, accepted, |delivered|);
        Counters(|delivered|, |accepted|);
        SameLength(delivered, accepted);
        if nread == nwrite {
          break;
        }
        if i == bad {
          if i == 0 {
            i := -1;
          }
          break;
        }
        var ch := Shift();
        bytes := bytes + [ch];
        i := i + 1;
      }
    }

    /** The oldest byte leaves the ring. */
    method Shift() returns (ch: int)
      requires Valid() && delivered != accepted
      modifies `nread, `delivered
      ensures Valid() && delivered == old(delivered) + [ch]
    {
      hide Holds, Cell;
      Room(data, accepted, |delivered|);
      Counters(|delivered|, |accepted|);
      SameLength(delivered, accepted);
      HoldsLess(data, accepted, |delivered|);
      Next(|delivered|);
      ch := data[nread % PIPESIZE];
      nread := (nread + 1) % U32;
      delivered := delivered + [ch];
    }

    /** pipeclose: the page is freed exactly when the second end closes, and those who wait for the end are woken. */
    method Close(writable: bool)
      requires Valid() && (if writable then writeopen else readopen)
      modifies `readopen, `writeopen, `freed, `readers, `writers
      ensures Valid()
      ensures writeopen == (old(writeopen) && !writable) && readopen == (old(readopen) && writable)
      ensures !old(freed) && (freed <==> !(if writable then old(readopen) else old(writeopen)))
      ensures readers == (if writable then 0 else old(readers)) && writers == if writable then old(writers) else 0
      ensures old(NobodyStranded()) ==> NobodyStranded()
    {
      if writable {
        writeopen := false;
        readers := 0;
      } else {
        readopen := false;
        writers := 0;
      }
      if !readopen && !writeopen {
        freed := true;
      }
    }

    /** How many bytes fit. */
    ghost function Free(): int
      reads this
    {
      PIPESIZE - (|accepted| - |delivered|)
    }
  }

  /** A writer of bytes from i on finds itself killed after it has written one or more, and before the end, a full pipe
      or a byte that cannot be copied in. */
  predicate DiesWriting(n: int, i: int, dies: int, bad: int, readopen: bool, free: int) {
    readopen && i < dies < n && dies <= i + free && !(i <= bad < dies)
  }

  /** A reader sleeps, a writer of two bytes is killed after the first: there is a byte to read, and the reader sleeps
      on. */
  method KilledWriterStrands(page: seq<int>) returns (p: PipeBuffer)
    requires |page| == PIPESIZE
    ensures fresh(p) && p.Valid() && p.readers == 1 && p.accepted == [7] && p.delivered == [] && !p.NobodyStranded()
  {
    p := new PipeBuffer(page);
    var slept, result, bytes := p.ReadStretch(1, false, -1);
    assert slept == WaitEmpty;
    var i, end := p.WriteStretch([7, 7], 0, 1, -1);
    assert DiesWriting(2, 0, 1, -1, true, PIPESIZE);
    assert end == NoReader && i == 1;
  }

  /** The bytes a reader of n gets when there are `there`, and number `bad` cannot be copied out: up to that one. */
  function Deliverable(n: int, there: nat, bad: int): (k: nat)
    ensures k <= there && (0 < n ==> k <= n) && (0 <= bad ==> k <= bad) && (n <= 0 ==> k == 0)
    ensures 0 < n ==> k == there || k == n || k == bad
  {
    var m := if n <= 0 then 0 else if n < there then n else there;
    if 0 <= bad < m then bad else m
  }

  lemma SameLength(d: seq<int>, a: seq<int>)
    requires d <= a
    ensures |d| == |a| <==> d == a
  {
  }

  lemma Room(data: seq<int>, accepted: seq<int>, d: int)
    requires Holds(data, accepted, d)
    ensures |data| == PIPESIZE && 0 <= d <= |accepted| <= d + PIPESIZE
  {
  }
}
