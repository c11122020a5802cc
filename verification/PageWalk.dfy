// The page-table walk that decides whether a virtual address is mapped
// (src/my_vtpmo.c:49-178), next to the 4-level walk of section 4.5 of the Intel 64
// Software Developer's Manual, Volume 3A. Machine words are naturals below 2^64; masks and
// shifts are written as division and remainder.
module PageWalk {
  import opened Wrappers

  const TWO_64 := 0x1_0000_0000_0000_0000
  const TWO_63 := 0x8000_0000_0000_0000
  const TWO_52 := 0x10_0000_0000_0000
  const PAGE_SIZE := 4096
  const LARGE_SIZE := 0x20_0000
  const HUGE_SIZE := 0x4000_0000

  type Word = w: int | 0 <= w < TWO_64

  // What a table page at a physical address holds at each index.
  type Tables = (nat, nat) -> Word

  // (long long)(addr)
  function Signed(a: Word): int
  {
    if a < TWO_63 then a else a - TWO_64
  }

  function Pml4(a: Word): nat { (Signed(a) / 0x80_0000_0000) % 512 }
  function Pdp(a: Word): nat { (Signed(a) / HUGE_SIZE) % 512 }
  function Pde(a: Word): nat { (Signed(a) / LARGE_SIZE) % 512 }
  function Pte(a: Word): nat { (Signed(a) / PAGE_SIZE) % 512 }

  // & VALID and & LH_MAPPING
  predicate Valid(e: Word) { e % 2 == 1 }
  predicate Large(e: Word) { (e / 0x80) % 2 == 1 }

  // & PT_ADDRESS_MASK: bits 12 to 62
  function Address(e: Word): nat { e % TWO_63 - e % PAGE_SIZE }

  // Conversion of the frame number to int keeps 32 bits.
  function ToInt(n: nat): int
  {
    var low := n % 0x1_0000_0000;
    if low < 0x8000_0000 then low else low - 0x1_0000_0000
  }

  const NO_MAP := -1

  function FrameNumber(e: Word): int { ToInt(Address(e) / PAGE_SIZE) }

  function SysVtpmo(t: Tables, cr3: Word, vaddr: Word): int
  {
    var pml4e := t(cr3 - cr3 % PAGE_SIZE, Pml4(vaddr));
    if !Valid(pml4e) then NO_MAP
    else
      var pdpe := t(Address(pml4e), Pdp(vaddr));
      if !Valid(pdpe) then NO_MAP
      else
        var pde := t(Address(pdpe), Pde(vaddr));
        if !Valid(pde) then NO_MAP
        else if Large(pde) then FrameNumber(pde)
        else
          var pte := t(Address(pde), Pte(vaddr));
          if !Valid(pte) then NO_MAP else FrameNumber(pte)
  }

  // The table pages the walk reads, in order.
  function TablesRead(t: Tables, cr3: Word, vaddr: Word): seq<nat>
  {
    var pml4 := cr3 - cr3 % PAGE_SIZE;
    var pml4e := t(pml4, Pml4(vaddr));
    if !Valid(pml4e) then [pml4]
    else
      var pdpe := t(Address(pml4e), Pdp(vaddr));
      if !Valid(pdpe) then [pml4, Address(pml4e)]
      else
        var pde := t(Address(pdpe), Pde(vaddr));
        if !Valid(pde) || Large(pde) then [pml4, Address(pml4e), Address(pdpe)]
        else [pml4, Address(pml4e), Address(pdpe), Address(pde)]
  }

  // Physical addresses have at most 52 bits; a read beyond them faults.
  predicate StaysInMemory(t: Tables, cr3: Word, vaddr: Word)
  {
    var pages := TablesRead(t, cr3, vaddr);
    forall i :: 0 <= i < |pages| ==> pages[i] < TWO_52
  }

  // ---------------------------------------------------------------- the architecture

  function Pow2(i: nat): nat
  {
    if i == 0 then 1 else 2 * Pow2(i - 1)
  }

  // Bit i of a word.
  function Bit(e: nat, i: nat): nat
  {
    if i == 0 then e % 2 else Bit(e / 2, i - 1)
  }

  // The present bit and the page-size bit of an entry.
  predicate Present(e: Word) { Bit(e, 0) == 1 }
  predicate MapsPage(e: Word) { Bit(e, 7) == 1 }

  // The walk tests the same bits.
  lemma SameBits(e: Word)
    ensures Valid(e) <==> Present(e)
    ensures Large(e) <==> MapsPage(e)
  {
    SeventhBit(e);
  }

  lemma SeventhBit(e: nat)
    ensures Bit(e, 7) == (e / 0x80) % 2
  {
    var e1 := e / 2;
    var e2 := e1 / 2;
    var e3 := e2 / 2;
    var e4 := e3 / 2;
    var e5 := e4 / 2;
    var e6 := e5 / 2;
    assert Bit(e, 7) == Bit(e1, 6) == Bit(e2, 5) == Bit(e3, 4);
    assert Bit(e3, 4) == Bit(e4, 3) == Bit(e5, 2) == Bit(e6, 1) == Bit(e6 / 2, 0);
    assert e6 / 2 == e / 0x80;
  }

  // The sizes and bounds, in bits.
  lemma SizesInBits()
    ensures PAGE_SIZE == Pow2(12) && LARGE_SIZE == Pow2(21) && HUGE_SIZE == Pow2(30)
    ensures TWO_52 == Pow2(52) && TWO_63 == Pow2(63) && TWO_64 == Pow2(64)
  {
    PowSum(21, 9);
    PowSum(30, 22);
    PowSum(21, 1);
    PowSum(52, 11);
  }

  lemma {:induction false} PowSum(i: nat, j: nat)
    ensures Pow2(i + j) == Pow2(i) * Pow2(j)
  {
    if j > 0 {
      PowSum(i, j - 1);
    }
  }

  // A mapped address: the entry that maps its page of 4 KiB, 2 MiB or 1 GiB.
  datatype Page = Small(entry: Word) | Big(entry: Word) | Giant(entry: Word)

  // Bits lo to 51 of an entry.
  function Bits(e: Word, size: nat): nat
    requires size > 0
  {
    e % TWO_52 - e % TWO_52 % size
  }

  function Field(a: Word, size: nat): nat
    requires size > 0
  {
    (a / size) % 512
  }

  function Translate(t: Tables, cr3: Word, a: Word): Option<Page>
  {
    var pml4e := t(Bits(cr3, PAGE_SIZE), Field(a, 0x80_0000_0000));
    if !Present(pml4e) then None
    else
      var pdpe := t(Bits(pml4e, PAGE_SIZE), Field(a, HUGE_SIZE));
      if !Present(pdpe) then None
      else if MapsPage(pdpe) then Some(Giant(pdpe))
      else
        var pde := t(Bits(pdpe, PAGE_SIZE), Field(a, LARGE_SIZE));
        if !Present(pde) then None
        else if MapsPage(pde) then Some(Big(pde))
        else
          var pte := t(Bits(pde, PAGE_SIZE), Field(a, PAGE_SIZE));
          if !Present(pte) then None else Some(Small(pte))
  }

  // Nothing above the 52 address bits but the execute-disable bit.
  predicate Plain(e: Word)
  {
    e % TWO_63 < TWO_52
  }

  // On the processor's walk of an address, cr3 and the entries that point to a next table are
  // plain. The entry that maps the address need not be.
  predicate PlainWalk(t: Tables, cr3: Word, a: Word)
  {
    cr3 < TWO_52
    && var pml4e := t(Bits(cr3, PAGE_SIZE), Field(a, 0x80_0000_0000));
       Present(pml4e) ==>
         Plain(pml4e)
         && var pdpe := t(Bits(pml4e, PAGE_SIZE), Field(a, HUGE_SIZE));
            Present(pdpe) && !MapsPage(pdpe) ==>
              Plain(pdpe)
              && var pde := t(Bits(pdpe, PAGE_SIZE), Field(a, LARGE_SIZE));
                 Present(pde) && !MapsPage(pde) ==> Plain(pde)
  }

  lemma IndexIsField(a: Word)
    ensures Pml4(a) == Field(a, 0x80_0000_0000) && Pdp(a) == Field(a, HUGE_SIZE)
    ensures Pde(a) == Field(a, LARGE_SIZE) && Pte(a) == Field(a, PAGE_SIZE)
  {
    if a >= TWO_63 {
      assert Signed(a) / 0x80_0000_0000 == a / 0x80_0000_0000 - 0x200_0000;
      assert Signed(a) / HUGE_SIZE == a / HUGE_SIZE - 0x4_0000_0000;
      assert Signed(a) / LARGE_SIZE == a / LARGE_SIZE - 0x800_0000_0000;
      assert Signed(a) / PAGE_SIZE == a / PAGE_SIZE - 0x10_0000_0000_0000;
    }
  }

  lemma PlainAddress(e: Word)
    requires Plain(e)
    ensures Address(e) == Bits(e, PAGE_SIZE)
  {
  }

  // Where the page starts in physical memory.
  function Base(p: Page): nat
  {
    match p
    case Small(e) => Bits(e, PAGE_SIZE)
    case Big(e) => Bits(e, LARGE_SIZE)
    case Giant(e) => Bits(e, HUGE_SIZE)
  }

  // Where the walk ends up below an entry that it takes for a pointer to a table.
  function Below(t: Tables, e: Word, a: Word): Option<Word>
  {
    var pde := t(Address(e), Pde(a));
    if !Valid(pde) then None
    else if Large(pde) then Some(pde)
    else
      var pte := t(Address(pde), Pte(a));
      if !Valid(pte) then None else Some(pte)
  }

  // The entry whose frame the walk reports: the one that maps the page; for a 1 GiB page,
  // what lies at the place of one in the page itself.
  function Landing(t: Tables, a: Word, p: Option<Page>): Option<Word>
  {
    if p == None then None
    else if p.value.Giant? then Below(t, p.value.entry, a)
    else Some(p.value.entry)
  }

  function FrameOf(e: Option<Word>): int
  {
    if e == None then NO_MAP else FrameNumber(e.value)
  }

  lemma WalkFindsEntry(t: Tables, cr3: Word, a: Word)
    requires PlainWalk(t, cr3, a)
    ensures SysVtpmo(t, cr3, a) == FrameOf(Landing(t, a, Translate(t, cr3, a)))
  {
    IndexIsField(a);
    var pml4e := t(cr3 - cr3 % PAGE_SIZE, Pml4(a));
    assert Bits(cr3, PAGE_SIZE) == cr3 - cr3 % PAGE_SIZE;
    hide Address, Bits, Field, Pml4, Pdp, Pde, Pte, Large, Valid, FrameNumber, Plain, Present, MapsPage;
    SameBits(pml4e);
    if Valid(pml4e) {
      PlainAddress(pml4e);
      var pdpe := t(Address(pml4e), Pdp(a));
      SameBits(pdpe);
      if Valid(pdpe) && !Large(pdpe) {
        PlainAddress(pdpe);
        var pde := t(Address(pdpe), Pde(a));
        SameBits(pde);
        if Valid(pde) && !Large(pde) {
          PlainAddress(pde);
          SameBits(t(Address(pde), Pte(a)));
        }
      }
    }
  }

  // A 32-bit signed number with the low 32 bits of n.
  predicate IsIntOf(f: int, n: nat)
  {
    -0x8000_0000 <= f < 0x8000_0000 && (n - f) % 0x1_0000_0000 == 0
  }

  // The frame reported is that of the page, cut to an int, whatever the other bits of its entry;
  // for a 2 MiB page the low bits of the entry (its memory type) leak into the number.
  lemma FrameOfPage(p: Page)
    ensures IsIntOf(FrameNumber(p.entry), Bits(p.entry, PAGE_SIZE) / PAGE_SIZE)
    ensures !p.Giant? ==>
              Base(p) <= Bits(p.entry, PAGE_SIZE) < Base(p) + if p.Small? then PAGE_SIZE else LARGE_SIZE
  {
    LargeBits(p.entry);
    LowFrame(p.entry);
  }

  // Only bits 12 to 43 of an entry reach the number.
  lemma LowFrame(e: Word)
    ensures FrameNumber(e) == ToInt(e / PAGE_SIZE) == ToInt(Bits(e, PAGE_SIZE) / PAGE_SIZE)
  {
    LowAddress(e);
    LowBits(e);
  }

  lemma LowAddress(e: Word)
    ensures Address(e) / PAGE_SIZE % 0x1_0000_0000 == e / PAGE_SIZE % 0x1_0000_0000
  {
    assert Address(e) / PAGE_SIZE == e % TWO_63 / PAGE_SIZE;
  }

  lemma LowBits(e: Word)
    ensures Bits(e, PAGE_SIZE) / PAGE_SIZE % 0x1_0000_0000 == e / PAGE_SIZE % 0x1_0000_0000
  {
    assert e / PAGE_SIZE == 0x100_0000_0000 * (e / TWO_52) + e % TWO_52 / PAGE_SIZE;
  }

  lemma LargeBits(e: Word)
    ensures Bits(e, LARGE_SIZE) <= Bits(e, PAGE_SIZE) < Bits(e, LARGE_SIZE) + LARGE_SIZE
  {
    var x := e % TWO_52;
    assert x % LARGE_SIZE == (x / PAGE_SIZE % 512) * PAGE_SIZE + x % PAGE_SIZE;
  }

  // The frame number whose low 32 bits are all ones is taken for "no mapping".
  predicate LooksUnmapped(e: Word)
  {
    (e / PAGE_SIZE) % 0x1_0000_0000 == 0xffff_ffff
  }

  lemma OnlyAllOnes(e: Word)
    ensures FrameNumber(e) == NO_MAP <==> LooksUnmapped(e)
  {
    LowFrame(e);
  }

  // With plain pointers, "no mapping" is the right answer exactly unless the page is mapped
  // and the entry the walk reports is missing, which only a 1 GiB page can make it, or looks
  // like no mapping.
  lemma NoMapIsUnmapped(t: Tables, cr3: Word, a: Word)
    requires PlainWalk(t, cr3, a)
    ensures SysVtpmo(t, cr3, a) != NO_MAP <==> Seen(t, cr3, a)
    ensures var page := Translate(t, cr3, a);
            page.Some? && Landing(t, a, page) == None ==> page.value.Giant?
  {
    WalkFindsEntry(t, cr3, a);
    var e := Landing(t, a, Translate(t, cr3, a));
    if e.Some? {
      OnlyAllOnes(e.value);
    }
  }

  // The address is mapped, and by an entry that the walk finds and does not mistake.
  predicate Seen(t: Tables, cr3: Word, a: Word)
  {
    var page := Translate(t, cr3, a);
    var e := Landing(t, a, page);
    page.Some? && e.Some? && !LooksUnmapped(e.value)
  }

  // ---------------------------------------------------------------- beyond memory

  // The walk takes the entry of a 1 GiB page, and what it finds there, for pointers.
  predicate PlainBelow(t: Tables, e: Word, a: Word)
  {
    Plain(e) && (var pde := t(Address(e), Pde(a)); Valid(pde) && !Large(pde) ==> Plain(pde))
  }

  lemma PlainPointer(e: Word)
    ensures Plain(e) <==> Address(e) < TWO_52
    ensures Plain(e) ==> Address(e) == Bits(e, PAGE_SIZE)
    ensures Bits(e, PAGE_SIZE) < TWO_52
  {
  }

  // Level by level.
  lemma StaysLevels(t: Tables, cr3: Word, a: Word)
    ensures var pml4 := cr3 - cr3 % PAGE_SIZE;
            var pml4e := t(pml4, Pml4(a));
            var pdpe := t(Address(pml4e), Pdp(a));
            var pde := t(Address(pdpe), Pde(a));
            StaysInMemory(t, cr3, a) <==>
              && pml4 < TWO_52
              && (Valid(pml4e) ==>
                    && Address(pml4e) < TWO_52
                    && (Valid(pdpe) ==>
                          && Address(pdpe) < TWO_52
                          && (Valid(pde) && !Large(pde) ==> Address(pde) < TWO_52)))
  {
    hide Address, Pml4, Pdp, Pde, Large, Valid;
    var pages := TablesRead(t, cr3, a);
    assert StaysInMemory(t, cr3, a) ==>
        && pages[0] < TWO_52 && (|pages| > 1 ==> pages[1] < TWO_52)
        && (|pages| > 2 ==> pages[2] < TWO_52) && (|pages| > 3 ==> pages[3] < TWO_52);
  }

  // The walk reads physical memory only, exactly if all it takes for pointers is plain.
  lemma StaysIffPlain(t: Tables, cr3: Word, a: Word)
    ensures StaysInMemory(t, cr3, a) <==>
            && PlainWalk(t, cr3, a)
            && var page := Translate(t, cr3, a);
               page.Some? && page.value.Giant? ==> PlainBelow(t, page.value.entry, a)
  {
    IndexIsField(a);
    StaysLevels(t, cr3, a);
    var pml4 := cr3 - cr3 % PAGE_SIZE;
    assert pml4 < TWO_52 <==> cr3 < TWO_52;
    assert cr3 < TWO_52 ==> Bits(cr3, PAGE_SIZE) == pml4;
    var pml4e := t(pml4, Pml4(a));
    PlainPointer(pml4e);
    var pdpe := t(Address(pml4e), Pdp(a));
    PlainPointer(pdpe);
    var pde := t(Address(pdpe), Pde(a));
    PlainPointer(pde);
    SameBits(pml4e);
    SameBits(pdpe);
    SameBits(pde);
    hide StaysInMemory, TablesRead, Address, Bits, Field, Pml4, Pdp, Pde, Pte, Large, Valid, Plain, Present, MapsPage;
  }

  // The same memory; what a read beyond it would give is arbitrary.
  ghost predicate SameMemory(t: Tables, u: Tables)
  {
    forall p: nat, i: nat :: p < TWO_52 ==> u(p, i) == t(p, i)
  }

  // Neither the processor nor a walk that stays in memory depends on that.
  lemma MemoryDecides(t: Tables, u: Tables, cr3: Word, a: Word)
    requires SameMemory(t, u)
    ensures Translate(u, cr3, a) == Translate(t, cr3, a)
    ensures StaysInMemory(t, cr3, a) ==> SysVtpmo(u, cr3, a) == SysVtpmo(t, cr3, a)
  {
    StaysLevels(t, cr3, a);
    BitsInMemory(cr3);
    var pml4e := t(Bits(cr3, PAGE_SIZE), Field(a, 0x80_0000_0000));
    BitsInMemory(pml4e);
    var pdpe := t(Bits(pml4e, PAGE_SIZE), Field(a, HUGE_SIZE));
    BitsInMemory(pdpe);
    var pde := t(Bits(pdpe, PAGE_SIZE), Field(a, LARGE_SIZE));
    BitsInMemory(pde);
    hide StaysInMemory, TablesRead, Address, Bits, Field, Pml4, Pdp, Pde, Pte, Large, Valid, FrameNumber;
  }

  lemma BitsInMemory(e: Word)
    ensures 0 <= Bits(e, PAGE_SIZE) < TWO_52
  {
  }

  // The tables of t, with the word e everywhere beyond memory.
  function Beyond(t: Tables, e: Word): Tables
  {
    (p: nat, i: nat) => if p < TWO_52 then t(p, i) else e
  }

  // A walk that leaves memory can come to either answer.
  lemma OutsideAnswers(t: Tables, cr3: Word, a: Word)
    requires !StaysInMemory(t, cr3, a)
    ensures SysVtpmo(Beyond(t, 0), cr3, a) == NO_MAP
    ensures SysVtpmo(Beyond(t, TWO_52 + 0x81), cr3, a) != NO_MAP
  {
    StaysLevels(t, cr3, a);
    var e := TWO_52 + 0x81;
    assert Address(e) == TWO_52 && Valid(e) && Large(e) && FrameNumber(e) == 0 && !Valid(0);
    hide StaysInMemory, TablesRead, Address, Pml4, Pdp, Pde, Pte, Large, Valid, FrameNumber;
  }

  // Whatever lies beyond memory, the address is reported mapped exactly if the walk stays in
  // memory and sees the page; for some of it, also if the walk leaves memory.
  lemma ReportedMapped(t: Tables, cr3: Word, a: Word)
    ensures (forall u :: SameMemory(t, u) ==> SysVtpmo(u, cr3, a) != NO_MAP)
            <==> StaysInMemory(t, cr3, a) && Seen(t, cr3, a)
    ensures (exists u :: SameMemory(t, u) && SysVtpmo(u, cr3, a) != NO_MAP)
            <==> (StaysInMemory(t, cr3, a) ==> Seen(t, cr3, a))
  {
    StaysIffPlain(t, cr3, a);
    if StaysInMemory(t, cr3, a) {
      NoMapIsUnmapped(t, cr3, a);
      assert SameMemory(t, t);
      forall u | SameMemory(t, u)
        ensures SysVtpmo(u, cr3, a) == SysVtpmo(t, cr3, a)
      {
        MemoryDecides(t, u, cr3, a);
      }
    } else {
      OutsideAnswers(t, cr3, a);
      assert SameMemory(t, Beyond(t, 0)) && SameMemory(t, Beyond(t, TWO_52 + 0x81));
    }
    hide *;
  }

  // The verdict is right, whatever lies beyond memory, exactly if the walk stays in memory
  // and sees the page of a mapped address.
  lemma VerdictIsRight(t: Tables, cr3: Word, a: Word)
    ensures (forall u :: SameMemory(t, u) ==> (SysVtpmo(u, cr3, a) != NO_MAP <==> Translate(t, cr3, a).Some?))
            <==> StaysInMemory(t, cr3, a) && (Translate(t, cr3, a).Some? ==> Seen(t, cr3, a))
  {
    ReportedMapped(t, cr3, a);
    assert Seen(t, cr3, a) ==> Translate(t, cr3, a).Some?;
    assert SameMemory(t, t);
    hide *;
  }

  // "Mapped" is never wrong exactly if the address is mapped or the pointers are plain.
  lemma MapIsMapped(t: Tables, cr3: Word, a: Word)
    ensures (forall u :: SameMemory(t, u) && SysVtpmo(u, cr3, a) != NO_MAP ==> Translate(t, cr3, a).Some?)
            <==> Translate(t, cr3, a).Some? || PlainWalk(t, cr3, a)
  {
    ReportedMapped(t, cr3, a);
    StaysIffPlain(t, cr3, a);
    assert Seen(t, cr3, a) ==> Translate(t, cr3, a).Some?;
    hide *;
  }

  // The frame of the entry the architecture maps the address by, or none if there is none, is
  // reported, whatever lies beyond memory, exactly if the walk stays in memory.
  lemma AnswerIffInMemory(t: Tables, cr3: Word, a: Word)
    ensures (forall u :: SameMemory(t, u) ==> SysVtpmo(u, cr3, a) == FrameOf(Landing(t, a, Translate(t, cr3, a))))
            <==> StaysInMemory(t, cr3, a)
  {
    StaysIffPlain(t, cr3, a);
    if StaysInMemory(t, cr3, a) {
      WalkFindsEntry(t, cr3, a);
      forall u | SameMemory(t, u)
        ensures SysVtpmo(u, cr3, a) == SysVtpmo(t, cr3, a)
      {
        MemoryDecides(t, u, cr3, a);
      }
    } else {
      OutsideAnswers(t, cr3, a);
      assert SameMemory(t, Beyond(t, 0)) && SameMemory(t, Beyond(t, TWO_52 + 0x81));
    }
    hide *;
  }

  // ---------------------------------------------------------------- constancy

  // Dividing by a page size first does not matter.
  lemma Regroup(a: Word)
    ensures a / LARGE_SIZE == a / PAGE_SIZE / 512
    ensures a / HUGE_SIZE == a / LARGE_SIZE / 512
    ensures a / 0x80_0000_0000 == a / HUGE_SIZE / 512
  {
  }

  // The answer is the same all over a 4 KiB page.
  lemma SamePage(t: Tables, cr3: Word, a: Word, b: Word)
    requires a / PAGE_SIZE == b / PAGE_SIZE
    ensures SysVtpmo(t, cr3, a) == SysVtpmo(t, cr3, b)
  {
    IndexIsField(a);
    IndexIsField(b);
    Regroup(a);
    Regroup(b);
  }

  // The walk ends at an entry for 2 MiB.
  predicate WalkIsLarge(t: Tables, cr3: Word, a: Word)
  {
    var pml4e := t(cr3 - cr3 % PAGE_SIZE, Pml4(a));
    Valid(pml4e) &&
    var pdpe := t(Address(pml4e), Pdp(a));
    Valid(pdpe) &&
    var pde := t(Address(pdpe), Pde(a));
    Valid(pde) && Large(pde)
  }

  // And all over 2 MiB where it ends at such an entry, whatever the pointers hold; so is the
  // page all over a larger page.
  lemma SameLargePage(t: Tables, cr3: Word, a: Word, b: Word)
    requires a / LARGE_SIZE == b / LARGE_SIZE
    ensures WalkIsLarge(t, cr3, a) ==> WalkIsLarge(t, cr3, b) && SysVtpmo(t, cr3, a) == SysVtpmo(t, cr3, b)
    ensures var page := Translate(t, cr3, a);
            page.Some? && !page.value.Small? ==> Translate(t, cr3, b) == page
  {
    IndexIsField(a);
    IndexIsField(b);
    Regroup(a);
    Regroup(b);
    hide Address, Bits, FrameNumber;
  }

  // ---------------------------------------------------------------- where it departs

  // A 1 GiB page: what it holds is taken for a table, and the address is reported unmapped.
  lemma GiantPageMissed()
    ensures exists t: Tables, cr3: Word, a: Word ::
              && StaysInMemory(t, cr3, a) && Translate(t, cr3, a) == Some(Giant(0x81)) && SysVtpmo(t, cr3, a) == NO_MAP
  {
    // One table that points to itself, then to a 1 GiB page at 0.
    var t: Tables := (_, i) => if i == 0 then 1 else if i == 1 then 0x81 else 0;
    var a := 0x4040_0000;
    assert StaysInMemory(t, 0, a) && Translate(t, 0, a) == Some(Giant(0x81)) && SysVtpmo(t, 0, a) == NO_MAP;
  }

  // A frame number of all ones in its low 32 bits is taken for "no mapping".
  lemma AllOnesFrameMissed()
    ensures exists t: Tables, cr3: Word, a: Word ::
              && StaysInMemory(t, cr3, a) && Translate(t, cr3, a) == Some(Small(0xfff_ffff_f001))
              && SysVtpmo(t, cr3, a) == NO_MAP
  {
    var t: Tables := (_, i) => if i == 0 then 1 else 0xfff_ffff_f001;
    assert StaysInMemory(t, 0, 0x1000) && Translate(t, 0, 0x1000) == Some(Small(0xfff_ffff_f001));
    assert SysVtpmo(t, 0, 0x1000) == NO_MAP;
  }

  // A bit that the processor ignores in a pointer to a table sends the walk beyond memory.
  lemma IgnoredBitLeavesMemory()
    ensures exists t: Tables, cr3: Word, a: Word ::
              && Translate(t, cr3, a) == Some(Small(1)) && !StaysInMemory(t, cr3, a)
  {
    var t: Tables := (_, i) => if i == 1 then TWO_52 + 1 else 1;
    var a := 0x80_0000_0000;
    assert Translate(t, 0, a) == Some(Small(1));
    assert TablesRead(t, 0, a)[1] == TWO_52;
  }
}
