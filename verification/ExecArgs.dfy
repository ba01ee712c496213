/**
 The argument vector that exec leaves on the new stack, and what a program
 reads back from it.
 */
module ExecArgs {
  import opened PageTable
  import opened PhysMem
  import opened Vm
  import opened UserMemory
  import opened AddressSpace

  const MAXARG: int := 32
  const WORD: int := 8

  // ---------------------------------------------------------------- 64-bit words in memory

  function Power(k: nat): nat { if k == 0 then 1 else 256 * Power(k - 1) }

  /** The k lowest bytes of x, lowest first. */
  function Little(x: int, k: nat): (s: seq<int>)
    ensures |s| == k
    decreases k
  {
    if k == 0 then [] else [x % 256] + Little(x / 256, k - 1)
  }

  function Number(s: seq<int>): int { if s == [] then 0 else s[0] + 256 * Number(s[1..]) }

  lemma {:induction false} NumberOfLittle(x: int, k: nat)
    requires 0 <= x < Power(k)
    ensures Number(Little(x, k)) == x
  {
    if k > 0 {
      NumberOfLittle(x / 256, k - 1);
      assert Little(x, k)[1..] == Little(x / 256, k - 1);
    }
  }

  lemma WordFits(x: int)
    requires 0 <= x < 0x1_0000_0000_0000_0000
    ensures Number(Little(x, WORD)) == x
  {
    assert Power(4) == 0x1_0000_0000;
    assert Power(8) == 0x1_0000_0000_0000_0000;
    NumberOfLittle(x, WORD);
  }

  function Words(xs: seq<int>): (s: seq<int>)
    ensures |s| == WORD * |xs|
  {
    if xs == [] then [] else Little(xs[0], WORD) + Words(xs[1..])
  }

  lemma {:induction false} WordAt(xs: seq<int>, j: nat)
    requires j < |xs|
    ensures WORD * j + WORD <= |Words(xs)| && Words(xs)[WORD * j..WORD * j + WORD] == Little(xs[j], WORD)
  {
    hide Little;
    var first, rest := Little(xs[0], WORD), Words(xs[1..]);
    assert Words(xs) == first + rest;
    if j > 0 {
      WordAt(xs[1..], j - 1);
      SliceOfRest(first, rest, WORD * (j - 1));
    }
  }

  lemma SliceOfRest(first: seq<int>, rest: seq<int>, k: int)
    requires |first| == WORD && 0 <= k && k + WORD <= |rest|
    ensures (first + rest)[WORD + k..WORD + k + WORD] == rest[k..k + WORD]
  {
  }

  // ---------------------------------------------------------------- where the arguments go

  function Align(a: int): int { a - a % 16 }

  /** The stack pointer after the first i strings, each with its terminating zero, have been pushed. */
  function Sp(argv: seq<seq<int>>, top: int, i: nat): int
    requires i <= |argv|
  {
    if i == 0 then top else Align(Sp(argv, top, i - 1) - (|argv[i - 1]| + 1))
  }

  lemma {:induction false} SpDecreases(argv: seq<seq<int>>, top: int, j: nat, i: nat)
    requires j <= i <= |argv|
    ensures Sp(argv, top, i) <= Sp(argv, top, j)
    ensures i > j ==> Sp(argv, top, j + 1) + |argv[j]| + 1 <= Sp(argv, top, j)
  {
    hide Align;
    if j < i {
      SpDecreases(argv, top, j, i - 1);
      Aligned(Sp(argv, top, i - 1) - (|argv[i - 1]| + 1));
    }
  }

  /** The strings lie one below the other, each 16-byte aligned, above the pointer array. */
  lemma PiecesDisjoint(argv: seq<seq<int>>, top: int, j: nat)
    requires j < |argv|
    ensures Sp(argv, top, j + 1) % 16 == 0 && Sp(argv, top, j + 1) + |argv[j]| + 1 <= Sp(argv, top, j) <= top
    ensures ArrayAt(argv, top) % 16 == 0 && ArrayAt(argv, top) + (|argv| + 1) * WORD <= Sp(argv, top, j + 1)
  {
    hide Align;
    SpDecreases(argv, top, 0, j);
    SpDecreases(argv, top, j, j + 1);
    SpDecreases(argv, top, j + 1, |argv|);
    Aligned(Sp(argv, top, j) - (|argv[j]| + 1));
    Aligned(Sp(argv, top, |argv|) - (|argv| + 1) * WORD);
  }

  lemma Aligned(a: int)
    ensures Align(a) % 16 == 0 && Align(a) <= a
  {
  }

  function Pointers(argv: seq<seq<int>>, top: int, n: nat): seq<int>
    requires n <= |argv|
  {
    seq(n, j requires 0 <= j < n => Sp(argv, top, j + 1))
  }

  /** The bytes are at this address, in writable memory. */
  ghost predicate Holds(p: Phys, r: int, sz: int, addr: int, bytes: seq<int>) {
    forall a :: addr <= a < addr + |bytes| ==> View(p, r, sz, a) == Byte(bytes[a - addr], true, false)
  }

  function CString(s: seq<int>): seq<int> { s + [0] }

  ghost predicate ArgsAt(p: Phys, r: int, sz: int, argv: seq<seq<int>>, n: nat)
    requires n <= |argv|
  {
    forall j :: 0 <= j < n ==> ArgAt(p, r, sz, argv, j)
  }

  ghost predicate ArgAt(p: Phys, r: int, sz: int, argv: seq<seq<int>>, j: nat)
    requires j < |argv|
  {
    Holds(p, r, sz, Sp(argv, sz, j + 1), CString(argv[j]))
  }

  /** The topmost page is mapped as a stack that user code can write. */
  ghost predicate StackOpen(p: Phys, r: int, sz: int) {
    && sz % PGSIZE == 0 && OpenPage(p.tab, r, sz / PGSIZE - 1)
    && forall a :: sz - PGSIZE <= a < sz ==> OnStack(View(p, r, sz, a))
  }

  /** User code can read and write the byte but not execute it. */
  predicate OnStack(c: Cell) { c.Byte? && c.writable && !c.executable }

  /** Copying into the stack page takes no fault. */
  lemma StackRange(p: Phys, r: int, sz: int, dst: int, n: int)
    requires StackOpen(p, r, sz) && sz - PGSIZE <= dst && 0 <= n && dst + n <= sz
    ensures OpenRange(p.tab, r, dst, n)
    ensures forall a :: dst <= a < dst + n ==> View(p, r, sz, a).Byte? && View(p, r, sz, a).writable
  {
    hide OpenPage, View;
    forall x | dst <= x < dst + n ensures OpenAt(p.tab, r, x) {
      assert x / PGSIZE == sz / PGSIZE - 1;
    }
  }

  ghost predicate OnlyStack(p: Phys, p': Phys, r: int, sz: int) {
    forall a :: !(sz - PGSIZE <= a < sz) ==> View(p', r, sz, a) == View(p, r, sz, a)
  }

  /** A copyout into the stack page below everything pushed so far. */
  lemma PushKeepsArgs(p: Phys, p': Phys, r: int, sz: int, argv: seq<seq<int>>, n: nat, dst: int, bytes: seq<int>)
    requires n <= |argv| && Wrote(p, p', r, sz, dst, bytes) && ArgsAt(p, r, sz, argv, n)
    requires dst + |bytes| <= Sp(argv, sz, n)
    ensures ArgsAt(p', r, sz, argv, n)
  {
    forall j | 0 <= j < n ensures ArgAt(p', r, sz, argv, j) {
      assert ArgAt(p, r, sz, argv, j);
      SpDecreases(argv, sz, j + 1, n);
    }
  }

  lemma PushKeepsStack(p0: Phys, p: Phys, p': Phys, r: int, sz: int, dst: int, bytes: seq<int>)
    requires Wrote(p, p', r, sz, dst, bytes) && sz - PGSIZE <= dst && dst + |bytes| <= sz
    requires StackOpen(p, r, sz) && OnlyStack(p0, p, r, sz) && p'.tab == p.tab
    ensures StackOpen(p', r, sz) && OnlyStack(p0, p', r, sz) && Holds(p', r, sz, dst, bytes)
  {
  }

  lemma PushedOne(p: Phys, p': Phys, r: int, sz: int, argv: seq<seq<int>>, n: nat)
    requires n < |argv| && Wrote(p, p', r, sz, Sp(argv, sz, n + 1), CString(argv[n])) && ArgsAt(p, r, sz, argv, n)
    requires Holds(p', r, sz, Sp(argv, sz, n + 1), CString(argv[n]))
    ensures ArgsAt(p', r, sz, argv, n + 1)
  {
    PushKeepsArgs(p, p', r, sz, argv, n, Sp(argv, sz, n + 1), CString(argv[n]));
  }

  lemma ConfinedSpace(p: Phys, p': Phys, r: int, sz: int)
    requires Confined(p, p', r, sz) && Space(p, r, sz)
    ensures Space(p', r, sz) && Within(p, p', r, 0, TRAPFRAME)
  {
    WithinRoot(p, p', r, 0, TRAPFRAME, r);
  }

  /** The arguments exec is given: less than MAXARG strings, each shorter than a page. */
  predicate GoodArgs(argv: seq<seq<int>>) {
    |argv| < MAXARG && forall i :: 0 <= i < |argv| ==> |argv[i]| < PGSIZE
  }

  /** copyout into the stack page: it takes no fault and always succeeds. */
  method PushBytes(mem: Frames, r: int, sz: int, dst: int, bytes: seq<int>)
    requires mem.Valid() && Space(mem.P(), r, sz) && StackOpen(mem.P(), r, sz)
    requires 0 <= sz - PGSIZE <= dst && dst + |bytes| <= sz
    modifies mem
    ensures mem.Valid() && mem.base == old(mem.base)
    ensures Space(mem.P(), r, sz) && Within(old(mem.P()), mem.P(), r, 0, TRAPFRAME)
    ensures mem.tab == old(mem.tab) && mem.own == old(mem.own) && Wrote(old(mem.P()), mem.P(), r, sz, dst, bytes)
  {
    hide GoodPhys, Reached, OnList, FreeExactly, KernelBelow, Within, Confined, Wrote, LeavesBelow, IsRoot, StackOpen,
      View, OpenRange;
    ghost var p := mem.P();
    StackRange(p, r, sz, dst, |bytes|);
    ghost var done;
    var ok;
    ok, done := Copyout(mem, r, sz, dst, bytes);
    ConfinedSpace(p, mem.P(), r, sz);
    assert ok;
    assert bytes[..done] == bytes;
  }

  /** The argument loop of exec. */
  method PushStrings(mem: Frames, r: int, sz: int, argv: seq<seq<int>>) returns (ok: bool, sp: int, ustack: seq<int>)
    requires mem.Valid() && Space(mem.P(), r, sz) && 2 * PGSIZE <= sz && StackOpen(mem.P(), r, sz) && GoodArgs(argv)
    modifies mem
    ensures mem.Valid() && mem.base == old(mem.base)
    ensures Space(mem.P(), r, sz) && Within(old(mem.P()), mem.P(), r, 0, TRAPFRAME)
    ensures mem.tab == old(mem.tab) && mem.own == old(mem.own)
    ensures ok <==> Sp(argv, sz, |argv|) >= sz - PGSIZE
    ensures ok ==>
        ArgsAt(mem.P(), r, sz, argv, |argv|) && StackOpen(mem.P(), r, sz) && OnlyStack(old(mem.P()), mem.P(), r, sz)
    ensures ok ==> sp == Sp(argv, sz, |argv|) && sz - PGSIZE <= sp <= sz && ustack == Pointers(argv, sz, |argv|)
  {
    hide GoodPhys, Reached, OnList, FreeExactly, KernelBelow, Within, Confined, Wrote, LeavesBelow, IsRoot, StackOpen,
      OnlyStack, ArgsAt, Holds, Align, Sp, Pointers, OpenPage;
    ghost var p0 := mem.P();
    WithinReflexive(p0, r, 0, TRAPFRAME);
    NoArgs(p0, r, sz, argv);
    NoPointers(argv, sz);
    sp, ustack := sz, [];
    var i := 0;
    while i < |argv|
      invariant 0 <= i <= |argv| && mem.Valid() && mem.base == old(mem.base)
      invariant Space(mem.P(), r, sz) && Within(p0, mem.P(), r, 0, TRAPFRAME)
      invariant mem.tab == p0.tab && mem.own == p0.own
      invariant ArgsAt(mem.P(), r, sz, argv, i) && StackOpen(mem.P(), r, sz) && OnlyStack(p0, mem.P(), r, sz)
      invariant sp == Sp(argv, sz, i) && sz - PGSIZE <= sp <= sz && ustack == Pointers(argv, sz, i)
    {
      ghost var p := mem.P();
      sp := Align(sp - (|argv[i]| + 1));
      SpNext(argv, sz, i);
      SpDecreases(argv, sz, i + 1, |argv|);
      if sp < sz - PGSIZE {
        return false, sp, ustack;
      }
      SpDecreases(argv, sz, i, i + 1);
      PushBytes(mem, r, sz, sp, CString(argv[i]));
      WithinTransitive(p0, p, mem.P(), r, 0, TRAPFRAME);
      PushKeepsStack(p0, p, mem.P(), r, sz, sp, CString(argv[i]));
      PushedOne(p, mem.P(), r, sz, argv, i);
      ustack := ustack + [sp];
      i := i + 1;
    }
    ok := true;
  }

  lemma SpNext(argv: seq<seq<int>>, top: int, i: nat)
    requires i < |argv|
    ensures Sp(argv, top, i + 1) == Align(Sp(argv, top, i) - (|argv[i]| + 1))
    ensures Pointers(argv, top, i + 1) == Pointers(argv, top, i) + [Sp(argv, top, i + 1)]
  {
  }

  lemma NoPointers(argv: seq<seq<int>>, top: int)
    ensures Sp(argv, top, 0) == top && Pointers(argv, top, 0) == []
  {
  }

  lemma NoArgs(p: Phys, r: int, sz: int, argv: seq<seq<int>>)
    ensures ArgsAt(p, r, sz, argv, 0) && OnlyStack(p, p, r, sz)
  {
  }

  /** Where the pointer array ends up. */
  function ArrayAt(argv: seq<seq<int>>, top: int): int {
    Align(Sp(argv, top, |argv|) - (|argv| + 1) * WORD)
  }

  /** The stack that main finds: the strings, and at sp the pointers to them, ended by a null pointer. */
  ghost predicate ArgvAt(p: Phys, r: int, sz: int, argv: seq<seq<int>>, sp: int) {
    && sp == ArrayAt(argv, sz) && sp % 16 == 0 && sz - PGSIZE <= sp && sp + (|argv| + 1) * WORD <= sz
    && ArgsAt(p, r, sz, argv, |argv|)
    && Holds(p, r, sz, sp, Words(Pointers(argv, sz, |argv|) + [0]))
  }

  method PushArgs(mem: Frames, r: int, sz: int, argv: seq<seq<int>>) returns (ok: bool, sp: int)
    requires mem.Valid() && Space(mem.P(), r, sz) && 2 * PGSIZE <= sz && StackOpen(mem.P(), r, sz) && GoodArgs(argv)
    modifies mem
    ensures mem.Valid() && mem.base == old(mem.base)
    ensures Space(mem.P(), r, sz) && Within(old(mem.P()), mem.P(), r, 0, TRAPFRAME)
    ensures mem.tab == old(mem.tab) && mem.own == old(mem.own)
    ensures ok <==> ArrayAt(argv, sz) >= sz - PGSIZE
    ensures ok ==> ArgvAt(mem.P(), r, sz, argv, sp) && OnlyStack(old(mem.P()), mem.P(), r, sz)
  {
    hide GoodPhys, Reached, OnList, FreeExactly, KernelBelow, Within, Confined, Wrote, LeavesBelow, IsRoot, StackOpen,
      OnlyStack, ArgsAt, Holds, Words, Sp, Pointers, Align, OpenPage;
    ghost var p0 := mem.P();
    var ustack;
    ok, sp, ustack := PushStrings(mem, r, sz, argv);
    ArrayBelow(argv, sz);
    if !ok {
      return;
    }
    ghost var p := mem.P();
    var top := sp;
    sp := Align(sp - (|argv| + 1) * WORD);
    if sp < sz - PGSIZE {
      return false, sp;
    }
    var bytes := Words(ustack + [0]);
    PointersLength(argv, sz);
    PushBytes(mem, r, sz, sp, bytes);
    WithinTransitive(p0, p, mem.P(), r, 0, TRAPFRAME);
    PushKeepsStack(p0, p, mem.P(), r, sz, sp, bytes);
    PushKeepsArgs(p, mem.P(), r, sz, argv, |argv|, sp, bytes);
  }

  lemma ArrayBelow(argv: seq<seq<int>>, top: int)
    ensures ArrayAt(argv, top) % 16 == 0 && ArrayAt(argv, top) + (|argv| + 1) * WORD <= Sp(argv, top, |argv|)
  {
    Aligned(Sp(argv, top, |argv|) - (|argv| + 1) * WORD);
  }

  lemma PointersLength(argv: seq<seq<int>>, top: int)
    ensures |Pointers(argv, top, |argv|)| == |argv|
  {
  }

  // ---------------------------------------------------------------- what the program reads

  /** The 64-bit word that user code loads from an address. */
  ghost function Load(p: Phys, r: int, sz: int, a: int): int {
    Number(seq(WORD, i => var c := View(p, r, sz, a + i); if c.Byte? then c.b else 0))
  }

  /** s is the zero-terminated string at an address. */
  ghost predicate StringAt(p: Phys, r: int, sz: int, a: int, s: seq<int>) {
    Holds(p, r, sz, a, CString(s)) && 0 !in s
  }

  /** Two byte strings at one address agree as far as the shorter one goes. */
  lemma SameBytes(p: Phys, r: int, sz: int, a: int, s: seq<int>, t: seq<int>, i: nat)
    requires Holds(p, r, sz, a, s) && Holds(p, r, sz, a, t) && i < |s| && i < |t|
    ensures s[i] == t[i]
  {
    assert View(p, r, sz, a + i) == Byte(s[i], true, false);
    assert View(p, r, sz, a + i) == Byte(t[i], true, false);
  }

  lemma StringIsUnique(p: Phys, r: int, sz: int, a: int, s: seq<int>, t: seq<int>)
    requires StringAt(p, r, sz, a, s) && StringAt(p, r, sz, a, t)
    ensures s == t
  {
    forall i | 0 <= i < |s| && i < |t| ensures s[i] == t[i] {
      SameBytes(p, r, sz, a, CString(s), CString(t), i);
    }
    SameBytes(p, r, sz, a, CString(s), CString(t), if |s| < |t| then |s| else |t|);
  }

  lemma LoadIs(p: Phys, r: int, sz: int, a: int, bytes: seq<int>, off: nat, x: int)
    requires Holds(p, r, sz, a, bytes) && off + WORD <= |bytes|
    requires bytes[off..off + WORD] == Little(x, WORD) && 0 <= x < 0x1_0000_0000_0000_0000
    ensures Load(p, r, sz, a + off) == x
  {
    var got := seq(WORD, i => var c := View(p, r, sz, a + off + i); if c.Byte? then c.b else 0);
    forall i | 0 <= i < WORD ensures got[i] == Little(x, WORD)[i] {
      assert View(p, r, sz, a + off + i) == Byte(bytes[off + i], true, false);
      assert bytes[off..off + WORD][i] == bytes[off + i];
    }
    assert got == Little(x, WORD);
    WordFits(x);
  }

  /** A pointer to an argument is a 64-bit number. */
  lemma PointerFits(argv: seq<seq<int>>, top: int, j: nat)
    requires j < |argv| && 0 <= ArrayAt(argv, top) && top <= TRAPFRAME * PGSIZE
    ensures 0 <= Sp(argv, top, j + 1) < 0x1_0000_0000_0000_0000
  {
    SpDecreases(argv, top, j + 1, |argv|);
    SpDecreases(argv, top, 0, j + 1);
  }

  /** The program finds argument j behind the j-th pointer, and a null pointer after the last. */
  lemma ArgvRoundTrip(p: Phys, r: int, sz: int, argv: seq<seq<int>>, sp: int, j: nat)
    requires ArgvAt(p, r, sz, argv, sp) && PGSIZE <= sz <= TRAPFRAME * PGSIZE && j <= |argv|
    requires forall i :: 0 <= i < |argv| ==> 0 !in argv[i]
    ensures j < |argv| ==> StringAt(p, r, sz, Load(p, r, sz, sp + WORD * j), argv[j])
    ensures j == |argv| ==> Load(p, r, sz, sp + WORD * j) == 0
  {
    hide Holds, Words, Little, Load, Sp, ArrayAt;
    var xs := Pointers(argv, sz, |argv|) + [0];
    WordAt(xs, j);
    if j < |argv| {
      PointerFits(argv, sz, j);
      assert ArgAt(p, r, sz, argv, j);
    }
    LoadIs(p, r, sz, sp, Words(xs), WORD * j, xs[j]);
  }
}
