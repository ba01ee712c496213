/**
 Buffered streams over a file that may transfer fewer bytes than asked. The
 stream's ghost state is the plain file it stands for: its contents and its
 position as they would be had every operation gone straight to the file.

 Streams are seekable files, nothing is pushed back, and the file reports no
 errors except a seek to a negative position.
 */
module FileIo {

  datatype Mode = NoBuffer | LineBuffer | FullBuffer
  datatype Whence = Set | Cur | End

  const NEWLINE: int := 10
  const BUFFER_SIZE: int := 4096

  // ---------------------------------------------------------------- the plain file

  function Zeros(n: int): seq<int> { seq(if n > 0 then n else 0, _ => 0) }

  /** A file after bytes have been written at a position; a gap beyond its old end reads as zeros. */
  function Overlay(f: seq<int>, at: int, bytes: seq<int>): seq<int>
    requires 0 <= at
  {
    if bytes == [] then f
    else
      var g := f + Zeros(at + |bytes| - |f|);
      g[..at] + bytes + g[at + |bytes|..]
  }

  function Max(a: int, b: int): int { if a < b then b else a }
  function Min(a: int, b: int): int { if a < b then a else b }

  /** What a plain file gives for n bytes from a position on. */
  function BytesFrom(f: seq<int>, at: int, n: int): seq<int> {
    if at < 0 || at >= |f| || n <= 0 then [] else f[at..Min(at + n, |f|)]
  }

  lemma NoneFrom(f: seq<int>, at: int)
    ensures BytesFrom(f, at, 0) == []
  {
  }

  lemma MoreFrom(f: seq<int>, at: int, m: int, n: int)
    requires 0 <= at && 0 <= m && 0 <= n && |BytesFrom(f, at, m)| == m
    ensures BytesFrom(f, at, m) + BytesFrom(f, at + m, n) == BytesFrom(f, at, m + n)
  {
  }

  lemma ShortFrom(f: seq<int>, at: int, m: int, n: int)
    requires 0 <= at && 0 <= m <= n && |BytesFrom(f, at, m)| < m
    ensures BytesFrom(f, at, n) == BytesFrom(f, at, m)
  {
  }

  /** The bytes that n objects take. */
  function Span(size: int, n: int): int { size * n }

  lemma SpanAdds(size: int, m: int, n: int)
    requires 0 < size
    ensures Span(size, m + n) == Span(size, m) + Span(size, n)
    ensures 0 <= n ==> 0 <= Span(size, n)
    ensures 1 <= n ==> size <= Span(size, n)
  {
  }

  /** Objects one after the other: n whole ones, and r bytes of the next. */
  lemma NextObject(size: int, n: int, count: int, r: int)
    requires 0 < size && 0 <= n < count && 0 <= r <= size
    ensures Span(size, n) + size == Span(size, n + 1) <= Span(size, count)
    ensures 0 <= Span(size, n) && (r < size ==> (Span(size, n) + r) / size == n)
  {
    hide Span;
    SpanEnds(size, 1);
    SpanAdds(size, n, 1);
    SpanAdds(size, n + 1, count - n - 1);
    SpanAdds(size, 0, n);
    if r < size {
      Quotient(size, n, r);
    }
  }

  lemma SpanEnds(size: int, count: int)
    ensures Span(size, 0) == 0 && Span(size, 1) == size && Span(0, count) == 0 && Span(1, count) == count
    ensures size > 0 ==> Span(size, count) / size == count
  {
    if size > 0 {
      Quotient(size, count, 0);
    }
  }

  lemma Quotient(d: int, q: int, r: int)
    requires 0 <= r < d
    ensures (Span(d, q) + r) / d == q
  {
    var x := (Span(d, q) + r) / d;
    Divides(Span(d, q) + r, d);
    hide Span;
    if q > x {
      SpanAdds(d, x, q - x);
    }
    if x > q {
      SpanAdds(d, q, x - q);
    }
  }

  lemma Divides(a: int, d: int)
    requires 0 < d
    ensures Span(d, a / d) <= a < Span(d, a / d) + d
  {
  }

  lemma OverlayLength(f: seq<int>, at: int, bytes: seq<int>)
    requires 0 <= at
    ensures |Overlay(f, at, bytes)| == if bytes == [] then |f| else Max(|f|, at + |bytes|)
  {
  }

  lemma OverlayAt(f: seq<int>, at: int, bytes: seq<int>, j: int)
    requires 0 <= at && 0 <= j < |Overlay(f, at, bytes)|
    ensures Overlay(f, at, bytes)[j] ==
            if at <= j < at + |bytes| then bytes[j - at] else if j < |f| then f[j] else 0
  {
  }

  /** Two writes one after the other are one longer write. */
  lemma OverlayTwice(f: seq<int>, at: int, x: seq<int>, y: seq<int>)
    requires 0 <= at
    ensures Overlay(Overlay(f, at, x), at + |x|, y) == Overlay(f, at, x + y)
  {
    hide Overlay;
    var once := Overlay(f, at, x);
    var left, right := Overlay(once, at + |x|, y), Overlay(f, at, x + y);
    OverlayLength(f, at, x);
    OverlayLength(once, at + |x|, y);
    OverlayLength(f, at, x + y);
    if x == [] {
      OverlayNothing(f, at);
      assert x + y == y;
    } else if y == [] {
      OverlayNothing(once, at + |x|);
      assert x + y == x;
    } else {
      forall j | 0 <= j < |left| ensures left[j] == right[j] {
        OverlayAt(once, at + |x|, y, j);
        OverlayAt(f, at, x + y, j);
        if j < |once| {
          OverlayAt(f, at, x, j);
        }
      }
    }
  }

  lemma OverlayNothing(f: seq<int>, at: int)
    requires 0 <= at
    ensures Overlay(f, at, []) == f
  {
  }

  // ---------------------------------------------------------------- the representation

  /** Buffer bytes [0, valid) outside [db, de) are the file's bytes from `start` on. */
  ghost predicate Clean(data: seq<int>, start: int, buf: seq<int>, valid: int, db: int, de: int) {
    forall i :: 0 <= i < valid && !(db <= i < de) ==> CleanAt(data, start, buf, i)
  }

  predicate CleanAt(data: seq<int>, start: int, buf: seq<int>, i: int) {
    0 <= i < |buf| && 0 <= start + i < |data| && data[start + i] == buf[i]
  }

  /** The fields of the stream represent a plain file with these contents and this position. */
  ghost predicate Represents(data: seq<int>, pos: int, buf: seq<int>, offset: int, io: int, valid: int, db: int,
                             de: int, contents: seq<int>, position: int) {
    && 0 <= offset <= valid <= |buf| && 0 <= io <= valid && io <= pos
    && position == pos - io + offset
    && db <= de && (db < de ==> 0 <= db && de <= valid)
    && Clean(data, pos - io, buf, valid, db, de)
    && contents == if db < de then Overlay(data, pos - io + db, buf[db..de]) else data
  }

  lemma Bounds(data: seq<int>, pos: int, buf: seq<int>, offset: int, io: int, valid: int, db: int, de: int,
               contents: seq<int>, position: int)
    requires Represents(data, pos, buf, offset, io, valid, db, de, contents, position)
    ensures 0 <= offset <= valid <= |buf| && 0 <= io <= valid && io <= pos && position == pos - io + offset
    ensures db <= de && (db < de ==> 0 <= db && de <= valid) && (db == de ==> contents == data)
  {
  }

  lemma NothingDirty(buf: seq<int>, k: int)
    ensures NoNewline(buf, k, k)
  {
  }

  /** No newline among the bytes not yet written to the file. */
  ghost predicate NoNewline(buf: seq<int>, db: int, de: int) {
    forall i :: db <= i < de && 0 <= i < |buf| ==> buf[i] != NEWLINE
  }

  lemma WriteBackStart(data: seq<int>, pos: int, buf: seq<int>, offset: int, io: int, valid: int, db: int, de: int,
                       contents: seq<int>, position: int)
    requires Represents(data, pos, buf, offset, io, valid, db, de, contents, position) && db < de
    ensures Represents(data, pos + db - io, buf, offset, db, valid, db, de, contents, position)
  {
  }

  /** One io_write of n dirty bytes. */
  lemma WriteBackStep(data: seq<int>, pos: int, buf: seq<int>, offset: int, valid: int, db: int, de: int, n: int,
                      contents: seq<int>, position: int)
    requires Represents(data, pos, buf, offset, db, valid, db, de, contents, position) && 0 < n <= de - db
    ensures Represents(Overlay(data, pos, buf[db..db + n]), pos + n, buf, offset, db + n, valid, db + n, de, contents,
                       position)
  {
    hide Overlay;
    var more := db + n;
    var after := Overlay(data, pos, buf[db..more]);
    OverlayTwice(data, pos, buf[db..more], buf[more..de]);
    assert buf[db..more] + buf[more..de] == buf[db..de];
    OverlayNothing(after, pos + n);
    assert more == de ==> buf[more..de] == [];
    OverlayLength(data, pos, buf[db..more]);
    var start := pos - db;
    forall i | 0 <= i < valid && !(more <= i < de) ensures CleanAt(after, start, buf, i) {
      assert !(db <= i < de) ==> CleanAt(data, start, buf, i);
      OverlayAt(data, pos, buf[db..more], pos - db + i);
    }
  }

  /** Reading ahead n bytes into an empty buffer with nothing dirty. */
  lemma ReadAhead(data: seq<int>, pos: int, buf: seq<int>, n: int, k: int)
    requires 0 <= pos && 0 <= n <= |buf| && pos + n <= |data| && buf[..n] == data[pos..pos + n]
    ensures Represents(data, pos + n, buf, 0, n, n, k, k, data, pos)
  {
    forall i | 0 <= i < n ensures CleanAt(data, pos, buf, i) {
      assert buf[..n][i] == data[pos..pos + n][i];
    }
  }

  lemma Advance(data: seq<int>, pos: int, buf: seq<int>, offset: int, io: int, valid: int, db: int, de: int,
                contents: seq<int>, position: int, k: int)
    requires Represents(data, pos, buf, offset, io, valid, db, de, contents, position) && 0 <= k <= valid - offset
    requires db == de
    ensures Represents(data, pos, buf, offset + k, io, valid, db, de, contents, position + k)
    ensures 0 <= position
    ensures (k > 0 ==> position + k <= |contents| && buf[offset..offset + k] == contents[position..position + k])
  {
    if k > 0 {
      assert CleanAt(data, pos - io, buf, offset + k - 1);
    }
    var part := buf[offset..offset + k];
    forall i | 0 <= i < k && i < |part| ensures position + i < |contents| && part[i] == contents[position + i] {
      assert CleanAt(data, pos - io, buf, offset + i);
    }
  }

  /** Emptying the buffer after everything has been written back. */
  lemma Emptied(data: seq<int>, pos: int, buf: seq<int>, k: int)
    requires 0 <= pos
    ensures Represents(data, pos, buf, 0, 0, 0, k, k, data, pos)
  {
  }

  /** A write at the end of the buffered bytes. */
  lemma Appended(data: seq<int>, pos: int, buf: seq<int>, buf': seq<int>, offset: int, io: int, db: int, de: int,
                 contents: seq<int>, position: int, bytes: seq<int>)
    requires Represents(data, pos, buf, offset, io, offset, db, de, contents, position) && (db < de ==> de == offset)
    requires |buf'| == |buf| && offset + |bytes| <= |buf| && bytes != []
    requires buf'[..offset] == buf[..offset] && buf'[offset..offset + |bytes|] == bytes
    ensures Represents(data, pos, buf', offset + |bytes|, io, offset + |bytes|, if db < de then db else offset,
                       offset + |bytes|, Overlay(contents, position, bytes), position + |bytes|)
  {
    hide Overlay;
    var first, limit := if db < de then db else offset, offset + |bytes|;
    forall i | 0 <= i < offset ensures buf'[i] == buf[i] {
      assert buf'[..offset][i] == buf[..offset][i];
    }
    if db < de {
      OverlayTwice(data, pos - io + db, buf[db..de], bytes);
      assert buf'[db..limit] == buf[db..de] + bytes;
    } else {
      assert buf'[offset..limit] == bytes;
    }
    var start := pos - io;
    forall i | 0 <= i < limit && !(first <= i < limit) ensures CleanAt(data, start, buf', i) {
      assert CleanAt(data, start, buf, i);
    }
  }

  lemma AppendedNoNewline(buf: seq<int>, buf': seq<int>, offset: int, db: int, de: int, bytes: seq<int>)
    requires NoNewline(buf, db, de) && (db < de ==> 0 <= db && de == offset) && 0 <= offset
    requires |buf'| == |buf| && offset + |bytes| <= |buf| && NEWLINE !in bytes
    requires buf'[..offset] == buf[..offset] && buf'[offset..offset + |bytes|] == bytes
    ensures NoNewline(buf', if db < de then db else offset, offset + |bytes|)
  {
    forall i | (if db < de then db else offset) <= i < offset + |bytes| ensures buf'[i] != NEWLINE {
      if i < offset {
        assert buf'[..offset][i] == buf[..offset][i];
      } else {
        assert buf'[offset..offset + |bytes|][i - offset] == bytes[i - offset];
      }
    }
  }

  /** memchr for a newline. */
  method FindNewline(bytes: seq<int>, n: int) returns (k: int)
    requires 0 <= n <= |bytes|
    ensures 0 <= k <= n && (k < n ==> bytes[k] == NEWLINE) && NEWLINE !in bytes[..k]
  {
    k := 0;
    while k < n
      invariant 0 <= k <= n && NEWLINE !in bytes[..k]
    {
      if bytes[k] == NEWLINE {
        return;
      }
      k := k + 1;
    }
  }

  // ---------------------------------------------------------------- the stream

  class Stream {
    // the file underneath
    var data: seq<int>
    var pos: int
    // the stream's own fields
    const mode: Mode
    const buffer: array<int>
    var offset: int
    var ioOffset: int
    var validLimit: int
    var dirtyBegin: int
    var dirtyEnd: int
    var writing: bool
    var eof: bool
    // the plain file that the stream stands for
    ghost var contents: seq<int>
    ghost var position: int

    ghost predicate Core()
      reads this, buffer
    {
      && buffer.Length == BUFFER_SIZE
      && Represents(data, pos, buffer[..], offset, ioOffset, validLimit, dirtyBegin, dirtyEnd, contents, position)
      && (mode == NoBuffer ==> validLimit == 0)
      && (!writing ==> dirtyBegin == dirtyEnd)
      && (dirtyBegin == dirtyEnd ==> ioOffset == validLimit)
      && (writing ==> offset == validLimit && (dirtyBegin < dirtyEnd ==> dirtyEnd == offset))
    }

    /** In line mode no newline waits in the buffer. */
    ghost predicate Valid()
      reads this, buffer
    {
      Core() && (mode == LineBuffer ==> NoNewline(buffer[..], dirtyBegin, dirtyEnd))
    }

    constructor (data: seq<int>, mode: Mode)
      ensures Valid() && contents == data && position == 0 && this.mode == mode && validLimit == 0
      ensures fresh(buffer)
    {
      this.data, this.pos, this.mode := data, 0, mode;
      buffer := new int[BUFFER_SIZE];
      offset, ioOffset, validLimit, dirtyBegin, dirtyEnd, writing, eof := 0, 0, 0, 0, 0, false, false;
      contents, position := data, 0;
      new;
      Emptied(data, 0, buffer[..], 0);
    }

    /** The file returns at least one byte unless it is at its end, and at most max. */
    method IoRead(max: int) returns (bytes: seq<int>)
      requires 0 < max && 0 <= pos
      modifies `pos
      ensures |bytes| <= max && pos == old(pos) + |bytes| && (bytes == [] <==> old(pos) >= |data|)
      ensures bytes != [] ==> pos <= |data| && bytes == data[old(pos)..pos]
    {
      if pos >= |data| {
        return [];
      }
      var n :| 0 < n <= max && n <= |data| - pos;
      bytes := data[pos..pos + n];
      pos := pos + n;
    }

    /** The file takes at least one byte. */
    method IoWrite(bytes: seq<int>) returns (n: int)
      requires bytes != [] && 0 <= pos
      modifies `data, `pos
      ensures 0 < n <= |bytes| && data == Overlay(old(data), old(pos), bytes[..n]) && pos == old(pos) + n
    {
      n :| 0 < n <= |bytes|;
      data := Overlay(data, pos, bytes[..n]);
      pos := pos + n;
    }

    method IoSeek(off: int, whence: Whence) returns (ok: bool)
      modifies `pos
      ensures var target := off + (match whence case Set => 0 case Cur => old(pos) case End => |data|);
              (ok <==> target >= 0) && pos == if ok then target else old(pos)
    {
      var target := off + (match whence case Set => 0 case Cur => pos case End => |data|);
      ok := target >= 0;
      if ok {
        pos := target;
      }
    }

    /** One turn of _write_back's loop. */
    method WriteSome()
      requires buffer.Length == BUFFER_SIZE && ioOffset == dirtyBegin < dirtyEnd <= BUFFER_SIZE
      requires 0 <= dirtyBegin && 0 <= pos
      requires Represents(data, pos, buffer[..], offset, ioOffset, validLimit, dirtyBegin, dirtyEnd, contents, position)
      modifies `data, `pos, `ioOffset, `dirtyBegin
      ensures old(dirtyBegin) < dirtyBegin <= dirtyEnd && ioOffset == dirtyBegin && 0 <= pos
      ensures Represents(data, pos, buffer[..], offset, ioOffset, validLimit, dirtyBegin, dirtyEnd, contents, position)
    {
      hide Overlay, Clean, Represents;
      ghost var before, at := data, pos;
      var n := IoWrite(buffer[ioOffset..dirtyEnd]);
      assert buffer[ioOffset..dirtyEnd][..n] == buffer[..][dirtyBegin..dirtyBegin + n];
      WriteBackStep(before, at, buffer[..], offset, validLimit, dirtyBegin, dirtyEnd, n, contents, position);
      ioOffset := ioOffset + n;
      dirtyBegin := dirtyBegin + n;
    }

    /** _write_back. */
    method WriteBack()
      requires Core()
      modifies `data, `pos, `ioOffset, `dirtyBegin
      ensures Valid() && dirtyBegin == dirtyEnd && data == contents
    {
      hide Overlay, Clean, NoNewline, Represents;
      Bounds(data, pos, buffer[..], offset, ioOffset, validLimit, dirtyBegin, dirtyEnd, contents, position);
      NothingDirty(buffer[..], dirtyEnd);
      if dirtyBegin == dirtyEnd {
        return;
      }
      if ioOffset != dirtyBegin {
        WriteBackStart(data, pos, buffer[..], offset, ioOffset, validLimit, dirtyBegin, dirtyEnd, contents, position);
        var ok := IoSeek(dirtyBegin - ioOffset, Cur);
        ioOffset := dirtyBegin;
      }
      while ioOffset < dirtyEnd
        invariant ioOffset == dirtyBegin <= dirtyEnd <= BUFFER_SIZE && 0 <= dirtyBegin && 0 <= pos
        invariant Represents(data, pos, buffer[..], offset, ioOffset, validLimit, dirtyBegin, dirtyEnd, contents,
                             position)
      {
        WriteSome();
      }
      Bounds(data, pos, buffer[..], offset, ioOffset, validLimit, dirtyBegin, dirtyEnd, contents, position);
    }

    /** _reset, once nothing is dirty and the buffer is used up. */
    method Reset()
      requires Core() && dirtyBegin == dirtyEnd && offset == validLimit
      modifies `offset, `ioOffset, `validLimit
      ensures Valid() && validLimit == 0 && offset == 0 && ioOffset == 0
    {
      hide Overlay, Clean, NoNewline, Represents;
      Bounds(data, pos, buffer[..], offset, ioOffset, validLimit, dirtyBegin, dirtyEnd, contents, position);
      Emptied(data, pos, buffer[..], dirtyBegin);
      NothingDirty(buffer[..], dirtyEnd);
      offset, ioOffset, validLimit := 0, 0, 0;
    }

    /** Reading ahead into an empty buffer. */
    method Refill()
      requires Valid() && !writing && mode != NoBuffer && validLimit == 0
      modifies `pos, `eof, `ioOffset, `validLimit, buffer
      ensures Valid() && offset == 0 && (validLimit == 0 <==> position >= |contents|)
    {
      hide Overlay, Clean, NoNewline, Represents;
      Bounds(data, pos, buffer[..], offset, ioOffset, validLimit, dirtyBegin, dirtyEnd, contents, position);
      var got := IoRead(BUFFER_SIZE);
      if got == [] {
        eof := true;
        return;
      }
      forall i | 0 <= i < |got| {
        buffer[i] := got[i];
      }
      assert buffer[..][..|got|] == got;
      ReadAhead(data, pos - |got|, buffer[..], |got|, dirtyBegin);
      NothingDirty(buffer[..], dirtyBegin);
      ioOffset, validLimit := |got|, |got|;
    }

    /** read: up to max bytes from the position on; none exactly at the end of the file. A stream that has just been
        written to must be flushed or repositioned first. */
    method Read(max: int) returns (bytes: seq<int>)
      requires Valid() && 0 < max && (writing ==> validLimit == 0)
      modifies this, buffer
      ensures Valid() && contents == old(contents) && position == old(position) + |bytes|
      ensures |bytes| <= max && (bytes == [] <==> old(position) >= |contents|)
      ensures bytes != [] ==> position <= |contents| && bytes == contents[old(position)..position]
      ensures (mode == NoBuffer || !writing) && (bytes == [] ==> validLimit == 0)
    {
      hide Overlay, Clean, NoNewline, Represents;
      Bounds(data, pos, buffer[..], offset, ioOffset, validLimit, dirtyBegin, dirtyEnd, contents, position);
      if mode == NoBuffer {
        bytes := IoRead(max);
        eof := eof || bytes == [];
        Emptied(data, pos, buffer[..], dirtyBegin);
        position := pos;
        return;
      }
      writing := false;
      if offset == validLimit {
        WriteBack();
        Reset();
        Refill();
        if validLimit == 0 {
          return [];
        }
      }
      Bounds(data, pos, buffer[..], offset, ioOffset, validLimit, dirtyBegin, dirtyEnd, contents, position);
      bytes := Take(max);
    }

    /** Copying out of the buffer. */
    method Take(max: int) returns (bytes: seq<int>)
      requires Valid() && !writing && 0 < max && offset < validLimit
      modifies `offset, `position
      ensures Valid() && 0 < |bytes| <= max && position == old(position) + |bytes| <= |contents| && 0 <= old(position)
      ensures bytes == contents[old(position)..position]
    {
      hide Overlay, Clean, NoNewline, Represents;
      Bounds(data, pos, buffer[..], offset, ioOffset, validLimit, dirtyBegin, dirtyEnd, contents, position);
      var chunk := Min(validLimit - offset, max);
      Advance(data, pos, buffer[..], offset, ioOffset, validLimit, dirtyBegin, dirtyEnd, contents, position, chunk);
      bytes := buffer[offset..offset + chunk];
      assert bytes == buffer[..][offset..offset + chunk];
      offset := offset + chunk;
      position := position + chunk;
    }

    /** write: some of the bytes, at least one. A stream that has just been read from must be repositioned first,
        unless it reached the end of the file. */
    method Write(bytes: seq<int>) returns (n: int)
      requires Valid() && bytes != [] && (!writing ==> validLimit == 0 || offset == BUFFER_SIZE)
      modifies this, buffer
      ensures Valid() && 0 < n <= |bytes|
      ensures contents == Overlay(old(contents), old(position), bytes[..n]) && position == old(position) + n
      ensures mode == NoBuffer || writing
    {
      hide Overlay, Clean, NoNewline, Represents;
      Bounds(data, pos, buffer[..], offset, ioOffset, validLimit, dirtyBegin, dirtyEnd, contents, position);
      if mode == NoBuffer {
        n := IoWrite(bytes);
        Emptied(data, pos, buffer[..], dirtyBegin);
        contents, position := data, pos;
        return;
      }
      if offset == BUFFER_SIZE {
        WriteBack();
        Reset();
      }
      writing := true;
      n := Min(BUFFER_SIZE - offset, |bytes|);
      var flushLine := false;
      if mode == LineBuffer {
        var nl := FindNewline(bytes, n);
        if nl < n {
          n := nl + 1;
          flushLine := true;
        }
      }
      Fill(bytes, n, flushLine);
    }

    /** The second half of write: put n bytes into the buffer, and write back after a full line. */
    method Fill(bytes: seq<int>, n: int, flushLine: bool)
      requires Valid() && writing && mode != NoBuffer && 0 < n <= |bytes| && offset + n <= BUFFER_SIZE
      requires mode == LineBuffer ==> if flushLine then NEWLINE !in bytes[..n - 1] else NEWLINE !in bytes[..n]
      modifies this, buffer
      ensures Valid() && writing
      ensures contents == Overlay(old(contents), old(position), bytes[..n]) && position == old(position) + n
    {
      hide Overlay, Clean, NoNewline, Represents;
      Bounds(data, pos, buffer[..], offset, ioOffset, validLimit, dirtyBegin, dirtyEnd, contents, position);
      ghost var before := buffer[..];
      Copy(bytes, n);
      Appended(data, pos, before, buffer[..], offset, ioOffset, dirtyBegin, dirtyEnd, contents, position, bytes[..n]);
      if mode == LineBuffer && !flushLine {
        AppendedNoNewline(before, buffer[..], offset, dirtyBegin, dirtyEnd, bytes[..n]);
      }
      contents, position := Overlay(contents, position, bytes[..n]), position + n;
      if dirtyBegin != dirtyEnd {
        dirtyBegin := Min(dirtyBegin, offset);
        dirtyEnd := Max(dirtyEnd, offset + n);
      } else {
        dirtyBegin := offset;
        dirtyEnd := offset + n;
      }
      validLimit := Max(offset + n, validLimit);
      offset := offset + n;
      if flushLine {
        WriteBack();
      }
    }

    /** memcpy into the buffer at the current offset. */
    method Copy(bytes: seq<int>, n: int)
      requires buffer.Length == BUFFER_SIZE && 0 <= offset && 0 <= n <= |bytes| && offset + n <= BUFFER_SIZE
      modifies buffer
      ensures buffer[..][..offset] == old(buffer[..])[..offset] && buffer[..][offset..offset + n] == bytes[..n]
    {
      forall i | 0 <= i < n {
        buffer[offset + i] := bytes[i];
      }
    }

    /** purge: forget the buffer. */
    method Purge()
      requires buffer.Length == BUFFER_SIZE && 0 <= pos
      modifies `offset, `ioOffset, `validLimit, `dirtyEnd, `contents, `position
      ensures Valid() && contents == data && position == pos && validLimit == 0
    {
      Emptied(data, pos, buffer[..], dirtyBegin);
      offset, ioOffset, validLimit := 0, 0, 0;
      dirtyEnd := dirtyBegin;
      contents, position := data, pos;
    }

    /** flush: afterwards the file underneath is the plain file, contents and position. */
    method Flush()
      requires Valid()
      modifies this
      ensures Valid() && contents == old(contents) && position == old(position)
      ensures data == contents && pos == position && validLimit == 0
    {
      hide Overlay;
      if dirtyEnd != dirtyBegin {
        WriteBack();
      }
      if mode != NoBuffer {
        var ok := IoSeek(offset - ioOffset, Cur);
      }
      Purge();
    }

    method Tell() returns (where: int)
      requires Valid()
      ensures where == position
    {
      where := pos + (offset - ioOffset);
    }

    /** seek: everything written so far is in the file; on success the position is the one asked for. */
    method Seek(off: int, whence: Whence) returns (ok: bool)
      requires Valid()
      modifies this
      ensures Valid() && contents == old(contents) && data == contents
      ensures var target := off + (match whence case Set => 0 case Cur => old(position) case End => |contents|);
              (ok <==> target >= 0) && position == if ok then target else old(position)
      ensures ok ==> pos == position && validLimit == 0
      ensures writing == old(writing) && (!ok ==> validLimit == old(validLimit))
    {
      hide Overlay;
      WriteBack();
      if whence == Cur {
        ok := IoSeek(off + (offset - ioOffset), Cur);
      } else {
        ok := IoSeek(off, whence);
      }
      if ok {
        Purge();
      }
    }

    /** fread: exactly the bytes that a plain file would give, however short its transfers, and how many whole objects
        they make. Objects that are not single bytes are read one by one. */
    method Fread(size: int, count: int) returns (n: int, bytes: seq<int>)
      requires Valid() && 0 <= size && 0 <= count && (writing ==> validLimit == 0)
      modifies this, buffer
      ensures Valid() && contents == old(contents) && 0 <= old(position)
      ensures bytes == BytesFrom(contents, old(position), Span(size, count)) && position == old(position) + |bytes|
      ensures n == if size == 0 then 0 else |bytes| / size
      ensures (writing ==> validLimit == 0) && (|bytes| < Span(size, count) ==> validLimit == 0)
    {
      hide Overlay, Clean, NoNewline, Represents, BytesFrom, Span;
      Bounds(data, pos, buffer[..], offset, ioOffset, validLimit, dirtyBegin, dirtyEnd, contents, position);
      ghost var start := position;
      bytes := [];
      NoneFrom(contents, start);
      SpanEnds(size, count);
      if size == 0 || count == 0 {
        return 0, bytes;
      }
      if size == 1 {
        bytes := ReadBytes(count);
        return |bytes|, bytes;
      }
      n := 0;
      while n < count
        invariant 0 <= n <= count && Valid() && contents == old(contents) && (writing ==> validLimit == 0)
        invariant |bytes| == Span(size, n) && bytes == BytesFrom(contents, start, Span(size, n))
        invariant position == start + |bytes|
      {
        var part := ReadBytes(size);
        MoreFrom(contents, start, Span(size, n), size);
        bytes := bytes + part;
        NextObject(size, n, count, |part|);
        if |part| < size {
          ShortFrom(contents, start, Span(size, n + 1), Span(size, count));
          return;
        }
        n := n + 1;
      }
    }

    /** The loop over the bytes of one part, or over single bytes. */
    method ReadBytes(count: int) returns (bytes: seq<int>)
      requires Valid() && 0 <= count && (writing ==> validLimit == 0)
      modifies this, buffer
      ensures Valid() && contents == old(contents) && 0 <= old(position)
      ensures bytes == BytesFrom(contents, old(position), count) && |bytes| <= count
      ensures position == old(position) + |bytes|
      ensures (writing ==> validLimit == 0) && (|bytes| < count ==> validLimit == 0)
    {
      hide Overlay, Clean, NoNewline, Represents;
      Bounds(data, pos, buffer[..], offset, ioOffset, validLimit, dirtyBegin, dirtyEnd, contents, position);
      ghost var start := position;
      bytes := [];
      while |bytes| < count
        invariant Valid() && contents == old(contents) && position == start + |bytes| && |bytes| <= count
        invariant writing ==> validLimit == 0
        invariant |bytes| > 0 ==> position <= |contents| && bytes == contents[start..position]
        decreases count - |bytes|
      {
        NoBufferEmpty();
        var chunk := Read(count - |bytes|);
        NoBufferEmpty();
        if chunk == [] {
          break;
        }
        bytes := bytes + chunk;
      }
    }

    lemma NoBufferEmpty()
      requires Valid()
      ensures mode == NoBuffer ==> validLimit == 0
    {
    }

    /** fwrite: the plain file with all bytes of all objects written. */
    method Fwrite(size: int, count: int, bytes: seq<int>) returns (n: int)
      requires Valid() && (!writing ==> validLimit == 0) && 0 <= size && 0 <= count && |bytes| == Span(size, count)
      modifies this, buffer
      ensures Valid() && 0 <= old(position)
      ensures contents == Overlay(old(contents), old(position), bytes) && position == old(position) + |bytes|
      ensures n == if size == 0 then 0 else count
      ensures !writing ==> validLimit == 0
    {
      hide Overlay, Clean, NoNewline, Represents, Span;
      Bounds(data, pos, buffer[..], offset, ioOffset, validLimit, dirtyBegin, dirtyEnd, contents, position);
      ghost var start, before := position, contents;
      OverlayNothing(contents, start);
      SpanEnds(size, count);
      assert bytes[..0] == [];
      if size == 0 || count == 0 {
        assert bytes == [];
        return 0;
      }
      if size == 1 {
        WriteBytes(bytes);
        return |bytes|;
      }
      n := 0;
      while n < count
        invariant 0 <= n <= count && Valid() && (!writing ==> validLimit == 0) && 0 <= Span(size, n) <= |bytes|
        invariant position == start + Span(size, n) && contents == Overlay(before, start, bytes[..Span(size, n)])
      {
        NextObject(size, n, count, size);
        var done := Span(size, n);
        WriteBytes(bytes[done..done + size]);
        OverlayTwice(before, start, bytes[..done], bytes[done..done + size]);
        assert bytes[..done] + bytes[done..done + size] == bytes[..done + size];
        n := n + 1;
      }
      assert bytes[..Span(size, n)] == bytes;
    }

    /** The loop over the bytes of one object, or over single bytes. */
    method WriteBytes(bytes: seq<int>)
      requires Valid() && (!writing ==> validLimit == 0)
      modifies this, buffer
      ensures Valid() && 0 <= old(position)
      ensures contents == Overlay(old(contents), old(position), bytes) && position == old(position) + |bytes|
      ensures !writing ==> validLimit == 0
    {
      hide Overlay, Clean, NoNewline, Represents;
      Bounds(data, pos, buffer[..], offset, ioOffset, validLimit, dirtyBegin, dirtyEnd, contents, position);
      ghost var start, before := position, contents;
      OverlayNothing(contents, start);
      var progress := 0;
      assert bytes[..0] == [];
      while progress < |bytes|
        invariant 0 <= progress <= |bytes| && Valid() && (!writing ==> validLimit == 0)
        invariant position == start + progress && contents == Overlay(before, start, bytes[..progress])
      {
        NoBufferEmpty();
        var n := Write(bytes[progress..]);
        NoBufferEmpty();
        OverlayTwice(before, start, bytes[..progress], bytes[progress..][..n]);
        assert bytes[..progress] + bytes[progress..][..n] == bytes[..progress + n];
        progress := progress + n;
      }
      assert bytes[..progress] == bytes;
    }
  }
}
