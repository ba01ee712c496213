/**
 The bits of Sv39 page-table entries and virtual addresses. The page-table
 model works on decoded entries and on digits of page numbers; these lemmas say
 what the kernel's operations on words do to the decoded entries, that the
 encodings lose nothing, and that the shifts and masks of walk give the digits.
 */
module Sv39 {
  import PageTable

  type Word = bv64

  const PTE_V: Word := 1
  const PTE_FLAG_BITS: Word := 0x3FF

  function Pa2Pte(pa: Word): Word { (pa >> 12) << 10 }
  function Pte2Pa(pte: Word): Word { (pte >> 10) << 12 }
  function PteFlags(pte: Word): Word { pte & PTE_FLAG_BITS }

  /** PX(level, va), with the shift written out for each level. */
  function Px(level: int, va: Word): Word {
    if level == 2 then (va >> 30) & 0x1FF else if level == 1 then (va >> 21) & 0x1FF else (va >> 12) & 0x1FF
  }

  /** The entry that mappages writes. */
  function Entry(pa: Word, perm: Word): Word { Pa2Pte(pa) | perm | PTE_V }

  /** An entry gives back the page-aligned address and the flags it was made from. */
  lemma EntryRoundTrip(pa: Word, perm: Word)
    requires pa & 0xFFF == 0 && pa >> 56 == 0 && perm & PTE_FLAG_BITS == perm
    ensures Pte2Pa(Entry(pa, perm)) == pa
    ensures PteFlags(Entry(pa, perm)) == perm | PTE_V
    ensures Entry(pa, perm) & PTE_V != 0
  {
  }

  // ---------------------------------------------------------------- words as numbers

  predicate Odd(w: Word) { w & 1 != 0 }
  function Half(w: Word): Word { w >> 1 }
  function By3(w: Word): Word { w >> 3 }
  function By9(w: Word): Word { w >> 9 }
  function By12(w: Word): Word { w >> 12 }
  function And(w: Word, m: Word): Word { w & m }

  /** The number in the low n bits of a word. */
  function Digits(w: Word, n: nat): int
    decreases n
  {
    if n == 0 then 0 else (if Odd(w) then 1 else 0) + 2 * Digits(Half(w), n - 1)
  }

  function Number(w: Word): int { Digits(w, 64) }

  /** A shift, one place at a time. */
  function Shr(w: Word, n: nat): Word
    decreases n
  {
    if n == 0 then w else Shr(Half(w), n - 1)
  }

  function Pow2(n: nat): int { if n == 0 then 1 else 2 * Pow2(n - 1) }

  lemma {:induction false} DigitsSplit(w: Word, m: nat, n: nat)
    ensures Digits(w, m + n) == Digits(w, m) + Times(Pow2(m), Digits(Shr(w, m), n))
    decreases m
  {
    hide Odd, Half, Times;
    var x := Digits(Shr(w, m), n);
    if m == 0 {
      TimesTwo(1, x);
    } else {
      DigitsSplit(Half(w), m - 1, n);
      TimesTwo(Pow2(m - 1), x);
    }
  }

  function Times(a: int, b: int): int { a * b }

  lemma TimesTwo(a: int, b: int)
    ensures Times(2 * a, b) == 2 * Times(a, b) && Times(1, b) == b
  {
  }

  lemma {:induction false} DigitsBound(w: Word, m: nat)
    ensures 0 <= Digits(w, m) < Pow2(m)
    decreases m
  {
    hide Odd, Half;
    if m > 0 {
      DigitsBound(Half(w), m - 1);
    }
  }

  lemma ZeroIsEven()
    ensures !Odd(0) && Half(0) == 0
  {
  }

  lemma {:induction false} DigitsOfZero(n: nat)
    ensures Digits(0, n) == 0
  {
    hide Odd, Half;
    ZeroIsEven();
    if n > 0 {
      DigitsOfZero(n - 1);
    }
  }

  lemma {:induction false} ShrAdds(w: Word, m: nat, n: nat)
    ensures Shr(w, m + n) == Shr(Shr(w, m), n)
    decreases m
  {
    hide Half;
    if m > 0 {
      ShrAdds(Half(w), m - 1, n);
    }
  }

  lemma ThreeHalves(w: Word)
    ensures Half(Half(Half(w))) == By3(w)
  {
  }

  lemma Threes(w: Word)
    ensures By3(By3(By3(w))) == By9(w) && By3(By9(w)) == By12(w)
  {
  }

  lemma Shr3(w: Word)
    ensures Shr(w, 3) == By3(w)
  {
    hide Half, By3;
    assert Shr(w, 3) == Shr(Half(w), 2) == Shr(Half(Half(w)), 1) == Half(Half(Half(w)));
    ThreeHalves(w);
  }

  lemma Shr9(w: Word)
    ensures Shr(w, 9) == By9(w)
  {
    hide Shr, By3, By9;
    ShrAdds(w, 3, 6);
    ShrAdds(By3(w), 3, 3);
    Shr3(w);
    Shr3(By3(w));
    Shr3(By3(By3(w)));
    Threes(w);
  }

  lemma Shr12(w: Word)
    ensures Shr(w, 12) == By12(w)
  {
    hide Shr, By3, By9, By12;
    ShrAdds(w, 9, 3);
    Shr9(w);
    Shr3(By9(w));
    Threes(w);
  }

  lemma NinesAreAll(w: Word)
    ensures Half(By9(By9(By9(By9(By9(By9(By9(w)))))))) == 0
  {
  }

  lemma Shr64(w: Word)
    ensures Shr(w, 64) == 0
  {
    hide By9, Half, Shr;
    var w1, w2, w3 := By9(w), By9(By9(w)), By9(By9(By9(w)));
    var w4, w5, w6 := By9(w3), By9(By9(w3)), By9(By9(By9(w3)));
    NineMore(w, 55);
    NineMore(w1, 46);
    NineMore(w2, 37);
    NineMore(w3, 28);
    NineMore(w4, 19);
    NineMore(w5, 10);
    NineMore(w6, 1);
    NinesAreAll(w);
    Shr1(By9(w6));
  }

  lemma Shr1(w: Word)
    ensures Shr(w, 1) == Half(w)
  {
    hide Half;
    assert Shr(w, 1) == Shr(Half(w), 0);
  }

  lemma NineMore(w: Word, n: nat)
    ensures Shr(w, 9 + n) == Shr(By9(w), n)
  {
    hide Shr, By9;
    ShrAdds(w, 9, n);
    Shr9(w);
  }

  /** The low n bits of the mask are ones. */
  predicate Masks(m: Word, n: nat)
    decreases n
  {
    n == 0 || (Odd(m) && Masks(Half(m), n - 1))
  }

  lemma MaskBit(w: Word, m: Word)
    requires Odd(m)
    ensures Odd(And(w, m)) == Odd(w) && Half(And(w, m)) == And(Half(w), Half(m))
  {
  }

  lemma {:induction false} MaskedDigits(w: Word, m: Word, n: nat)
    requires Masks(m, n)
    ensures Digits(And(w, m), n) == Digits(w, n)
    decreases n
  {
    hide Odd, Half, And;
    if n > 0 {
      MaskBit(w, m);
      MaskedDigits(Half(w), Half(m), n - 1);
    }
  }

  lemma OddMasks()
    ensures Odd(0x1FF) && Odd(0xFF) && Odd(0x7F) && Odd(0x3F) && Odd(0x1F) && Odd(0xF) && Odd(7) && Odd(3) && Odd(1)
    ensures Half(0x1FF) == 0xFF && Half(0xFF) == 0x7F && Half(0x7F) == 0x3F && Half(0x3F) == 0x1F
    ensures Half(0x1F) == 0xF && Half(0xF) == 7 && Half(7) == 3 && Half(3) == 1
  {
  }

  lemma Mask9()
    ensures Masks(0x1FF, 9)
  {
    hide Odd, Half;
    OddMasks();
    assert Masks(1, 1);
    assert Masks(3, 2);
    assert Masks(7, 3);
    assert Masks(0xF, 4);
    assert Masks(0x1F, 5);
    assert Masks(0x3F, 6);
    assert Masks(0x7F, 7);
    assert Masks(0xFF, 8);
  }

  lemma MaskIsSmall(w: Word)
    ensures By9(And(w, 0x1FF)) == 0
  {
  }

  lemma Powers()
    ensures Pow2(9) == 512 && Pow2(12) == 4096
  {
    assert Pow2(3) == 8;
    assert Pow2(6) == 64;
    assert Pow2(9) == 512;
  }

  /** A word that is 0 above its low n bits has no more digits. */
  lemma FewDigits(w: Word, n: nat)
    requires n <= 64 && Shr(w, n) == 0
    ensures Number(w) == Digits(w, n)
  {
    hide Digits, Shr, Pow2;
    DigitsSplit(w, n, 64 - n);
    DigitsOfZero(64 - n);
  }

  lemma Quotient(r: int, q: int, d: int)
    requires 0 <= r < d && (d == 512 || d == 4096)
    ensures (r + d * q) / d == q && (r + d * q) % d == r
  {
  }

  /** Shifting by k bits divides; the bits shifted in are zeros. */
  lemma ShiftDivides(w: Word, k: nat)
    requires k == 9 || k == 12
    ensures Number(Shr(w, k)) == Number(w) / Pow2(k) && Digits(w, k) == Number(w) % Pow2(k)
  {
    hide Digits, Shr, Pow2;
    Powers();
    DigitsSplit(w, k, 64 - k);
    DigitsBound(w, k);
    ShrAdds(w, k, 64 - k);
    Shr64(w);
    FewDigits(Shr(w, k), 64 - k);
    Quotient(Digits(w, k), Digits(Shr(w, k), 64 - k), Pow2(k));
  }

  /** Shifting by nine bits divides by the number of entries of a table, and masking them takes the remainder. */
  lemma NineBits(w: Word)
    ensures Number(By9(w)) == Number(w) / PageTable.PTES
    ensures Number(And(w, 0x1FF)) == Number(w) % PageTable.PTES
  {
    hide Digits, Shr, Pow2, Masks, By9, And;
    Powers();
    ShiftDivides(w, 9);
    Shr9(w);
    Mask9();
    MaskedDigits(w, 0x1FF, 9);
    MaskIsSmall(w);
    Shr9(And(w, 0x1FF));
    FewDigits(And(w, 0x1FF), 9);
  }

  lemma TwelveBits(w: Word)
    ensures Number(By12(w)) == Number(w) / 4096
  {
    hide Digits, Shr, Pow2, By12;
    Powers();
    ShiftDivides(w, 12);
    Shr12(w);
  }

  lemma IndicesAre(va: Word)
    ensures Px(0, va) == And(By12(va), 0x1FF) && Px(1, va) == And(By9(By12(va)), 0x1FF)
    ensures va >> 39 == 0 ==> Px(2, va) == By9(By9(By12(va)))
  {
  }

  /** The indices by which walk descends are the digits of the page number to base PTES. */
  lemma IndicesAreDigits(va: Word)
    requires va >> 39 == 0
    ensures var v := Number(By12(va));
            && v == Number(va) / 4096
            && Number(Px(0, va)) == v % PageTable.PTES
            && Number(Px(1, va)) == v / PageTable.PTES % PageTable.PTES
            && Number(Px(2, va)) == v / PageTable.PTES / PageTable.PTES
  {
    hide Number, By9, By12, And, Px;
    IndicesAre(va);
    TwelveBits(va);
    NineBits(By12(va));
    NineBits(By9(By12(va)));
  }

  /** So the descent by indices from a root is the look-up of the page. */
  lemma DescentIsLookup(tab: seq<PageTable.Table>, r: int, va: Word)
    requires va >> 39 == 0
    ensures var mid := PageTable.Entry(tab, r, Number(Px(2, va)));
            var low := if mid.valid then PageTable.Entry(tab, mid.frame, Number(Px(1, va))) else PageTable.ZERO_PTE;
            PageTable.Lookup(tab, r, Number(By12(va))) ==
            if low.valid then PageTable.Entry(tab, low.frame, Number(Px(0, va))) else PageTable.ZERO_PTE
  {
    hide Number, By12, Px;
    IndicesAreDigits(va);
  }

  // ---------------------------------------------------------------- addresses

  /** The three indices and the offset are the whole of an address below 2^39. */
  lemma AddressRoundTrip(va: Word)
    requires va >> 39 == 0
    ensures (Px(2, va) << 30) | (Px(1, va) << 21) | (Px(0, va) << 12) | (va & 0xFFF) == va
  {
  }

  /** Two page-aligned addresses with the same three indices are one. */
  lemma IndicesDetermineThePage(va: Word, va': Word)
    requires va >> 39 == 0 && va' >> 39 == 0 && va & 0xFFF == 0 && va' & 0xFFF == 0
    requires Px(2, va) == Px(2, va') && Px(1, va) == Px(1, va') && Px(0, va) == Px(0, va')
    ensures va == va'
  {
    AddressRoundTrip(va);
    AddressRoundTrip(va');
  }

  /** A user address below MAXVA = 2^38 never reaches the upper half of the root table. */
  lemma BelowMaxva(va: Word)
    requires va >> 38 == 0
    ensures Px(2, va) < 256
  {
  }

  /** uvmclear drops the user bit and nothing else. */
  lemma ClearUser(pte: Word)
    ensures Pte2Pa(pte & !0x10) == Pte2Pa(pte) && PteFlags(pte & !0x10) == PteFlags(pte) & !0x10
  {
  }

  // ---------------------------------------------------------------- decoded entries

  /** The flags of a word, and the entry of the page-table model that it stands for. */
  function PermOf(w: Word): PageTable.Perm {
    PageTable.Perm(w & 0x2 != 0, w & 0x4 != 0, w & 0x8 != 0, w & 0x10 != 0)
  }

  function FrameOf(pa: Word): int { Number(pa >> 12) }

  function Decode(w: Word): PageTable.Pte { PageTable.Pte(w & PTE_V != 0, Number(w >> 10), PermOf(w)) }

  lemma EntryBits(pa: Word, perm: Word)
    requires pa & 0xFFF == 0 && pa >> 56 == 0 && perm & PTE_FLAG_BITS == perm
    ensures Entry(pa, perm) >> 10 == pa >> 12 && Entry(pa, perm) & PTE_V != 0
    ensures Entry(pa, perm) & 0x2 == perm & 0x2 && Entry(pa, perm) & 0x4 == perm & 0x4
    ensures Entry(pa, perm) & 0x8 == perm & 0x8 && Entry(pa, perm) & 0x10 == perm & 0x10
  {
  }

  /** The word that mappages writes stands for a valid entry with that frame and those permissions. */
  lemma DecodeEntry(pa: Word, perm: Word)
    requires pa & 0xFFF == 0 && pa >> 56 == 0 && perm & PTE_FLAG_BITS == perm
    ensures Decode(Entry(pa, perm)) == PageTable.Pte(true, FrameOf(pa), PermOf(perm))
  {
    hide Entry, Number;
    EntryBits(pa, perm);
  }

  /** The word that walk writes, without permissions, stands for a table entry. */
  lemma DecodeTable(pa: Word)
    requires pa & 0xFFF == 0 && pa >> 56 == 0
    ensures Decode(Entry(pa, 0)) == PageTable.TablePte(FrameOf(pa))
  {
    hide Entry, Number, FrameOf;
    DecodeEntry(pa, 0);
  }

  lemma ClearBits(w: Word)
    ensures (w & !0x10) >> 10 == w >> 10 && (w & !0x10) & PTE_V == w & PTE_V && (w & !0x10) & 0x10 == 0
    ensures (w & !0x10) & 0x2 == w & 0x2 && (w & !0x10) & 0x4 == w & 0x4 && (w & !0x10) & 0x8 == w & 0x8
  {
  }

  /** uvmclear on the word closes the entry to user code and changes nothing else of it. */
  lemma DecodeClear(w: Word)
    ensures Decode(w & !0x10) == Decode(w).(perm := Decode(w).perm.(u := false))
  {
    hide Number;
    ClearBits(w);
  }

  lemma LeafBits(w: Word)
    ensures w & 0xE != 0 <==> w & 0x2 != 0 || w & 0x4 != 0 || w & 0x8 != 0
  {
  }

  /** The test by which freewalk tells a leaf from a table. */
  lemma DecodeLeaf(w: Word)
    ensures PageTable.IsLeaf(Decode(w)) <==> w & PTE_V != 0 && w & 0xE != 0
  {
    LeafBits(w);
  }
}
