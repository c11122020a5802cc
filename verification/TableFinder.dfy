// The search for the system-call table (src/my_usctm.c:55-148): a scan of kernel addresses
// that asks the page walk before it reads.
module TableFinder {
  import opened PageWalk

  const START := 0xffff_ffff_0000_0000
  const MAX_ADDR := 0xffff_ffff_fff0_0000
  const FIRST_NI_SYSCALL := 134
  const SECOND_NI_SYSCALL := 174
  const THIRD_NI_SYSCALL := 182
  const FOURTH_NI_SYSCALL := 183
  const FIFTH_NI_SYSCALL := 214
  const SIXTH_NI_SYSCALL := 215
  const SEVENTH_NI_SYSCALL := 236
  const POINTER_SIZE := 8

  // `memory` gives the word at each virtual address.
  datatype Machine = Machine(tables: Tables, cr3: Word, memory: nat -> Word)

  predicate Mapped(m: Machine, a: Word)
  {
    SysVtpmo(m.tables, m.cr3, a) != NO_MAP
  }

  // a & ADDRESS_MASK
  function PageOf(a: Word): nat
  {
    a - a % PAGE_SIZE
  }

  predicate EntryMapped(m: Machine, addr: nat, i: nat)
  {
    addr + POINTER_SIZE * i < TWO_64 && Mapped(m, addr + POINTER_SIZE * i)
  }

  // addr[i]; reading an unmapped word would fault.
  function Entry(m: Machine, addr: nat, i: nat): Word
    requires EntryMapped(m, addr, i)
  {
    m.memory(addr + POINTER_SIZE * i)
  }

  // Every entry that the pattern looks at, and those before it, can be read.
  predicate Readable(m: Machine, addr: nat)
  {
    forall i :: 0 <= i <= SEVENTH_NI_SYSCALL ==> EntryMapped(m, addr, i)
  }

  // The free entries all hold one plausible pointer, and no earlier entry but the first does.
  predicate Matches(m: Machine, addr: nat)
    requires Readable(m, addr)
  {
    var ni := Entry(m, addr, FIRST_NI_SYSCALL);
    && ni % 4 == 0 && ni > 0xffff_ffff_0000_0000
    && Entry(m, addr, SECOND_NI_SYSCALL) == ni && Entry(m, addr, THIRD_NI_SYSCALL) == ni
    && Entry(m, addr, FOURTH_NI_SYSCALL) == ni && Entry(m, addr, FIFTH_NI_SYSCALL) == ni
    && Entry(m, addr, SIXTH_NI_SYSCALL) == ni && Entry(m, addr, SEVENTH_NI_SYSCALL) == ni
    && forall i :: 1 <= i < FIRST_NI_SYSCALL ==> Entry(m, addr, i) != ni
  }

  predicate IsTable(m: Machine, addr: nat)
  {
    Readable(m, addr) && Matches(m, addr)
  }

  predicate CanRead(m: Machine, addr: nat, i: nat)
  {
    addr + 8 * i < 0x1_0000_0000_0000_0000 && SysVtpmo(m.tables, m.cr3, addr + 8 * i) != -1
  }

  predicate Holds(m: Machine, addr: nat, i: nat, w: Word)
  {
    m.memory(addr + 8 * i) == w
  }

  // The pattern in numbers: 237 readable words, of which seven hold the same aligned kernel
  // address and those from 1 to 133 another one.
  lemma PatternInNumbers(m: Machine, addr: nat)
    ensures START == 0xffff_ffff_0000_0000 && MAX_ADDR == 0xffff_ffff_fff0_0000
    ensures IsTable(m, addr) <==>
              && (forall i :: 0 <= i <= 236 ==> CanRead(m, addr, i))
              && var ni := m.memory(addr + 8 * 134);
                 && Holds(m, addr, 174, ni) && Holds(m, addr, 182, ni) && Holds(m, addr, 183, ni)
                 && Holds(m, addr, 214, ni) && Holds(m, addr, 215, ni) && Holds(m, addr, 236, ni)
                 && ni % 4 == 0 && ni > 0xffff_ffff_0000_0000
                 && (forall i :: 1 <= i <= 133 ==> !Holds(m, addr, i, ni))
  {
    forall i | 0 <= i <= 236
      ensures EntryMapped(m, addr, i) <==> CanRead(m, addr, i)
    {
      hide SysVtpmo;
    }
    hide EntryMapped, CanRead;
    if Readable(m, addr) {
      assert forall i :: 0 <= i <= 236 ==> EntryMapped(m, addr, i);
      assert forall i :: 1 <= i <= 133 && Holds(m, addr, i, Entry(m, addr, 134)) ==> Entry(m, addr, i) == Entry(m, addr, 134);
      assert forall i :: 1 <= i < FIRST_NI_SYSCALL && Entry(m, addr, i) == Entry(m, addr, 134) ==>
                           Holds(m, addr, i, Entry(m, addr, 134));
    }
  }

  predicate Aligned(a: nat)
  {
    a % POINTER_SIZE == 0
  }

  // No table starts at an aligned address from lo up to hi.
  predicate NoTable(m: Machine, lo: nat, hi: nat)
  {
    forall a :: lo <= a < hi && Aligned(a) ==> !IsTable(m, a)
  }

  lemma NoTableStart(m: Machine, page: nat)
    requires page % PAGE_SIZE == 0
    ensures NoTable(m, page, page) && Aligned(page)
  {
  }

  lemma NoTableBelow(m: Machine, lo: nat, hi: nat, mid: nat)
    requires NoTable(m, lo, hi) && mid <= hi
    ensures NoTable(m, lo, mid)
  {
  }

  lemma NoTableStep(m: Machine, lo: nat, a: nat)
    requires NoTable(m, lo, a) && Aligned(a) && !IsTable(m, a)
    ensures NoTable(m, lo, a + POINTER_SIZE) && Aligned(a + POINTER_SIZE)
  {
  }

  // Two mapped ends make the whole pattern readable: it touches two pages at most.
  lemma EndsMakeReadable(m: Machine, addr: nat)
    requires Aligned(addr)
    requires EntryMapped(m, addr, 0) && EntryMapped(m, addr, SEVENTH_NI_SYSCALL)
    ensures Readable(m, addr)
  {
    hide SysVtpmo;
    var last := addr + POINTER_SIZE * SEVENTH_NI_SYSCALL;
    forall i | 0 <= i <= SEVENTH_NI_SYSCALL
      ensures EntryMapped(m, addr, i)
    {
      var a := addr + POINTER_SIZE * i;
      if a / PAGE_SIZE == addr / PAGE_SIZE {
        SamePage(m.tables, m.cr3, a, addr);
      } else {
        assert a / PAGE_SIZE == last / PAGE_SIZE;
        SamePage(m.tables, m.cr3, a, last);
      }
    }
  }

  class Finder {
    const m: Machine
    var hackedNiSyscall: Word
    var hackedSyscallTbl: Word
    var sysCallTableAddress: Word
    var sysNiSyscallAddress: Word

    constructor (m: Machine)
      ensures this.m == m && hackedNiSyscall == hackedSyscallTbl == sysCallTableAddress == sysNiSyscallAddress == 0
    {
      this.m := m;
      hackedNiSyscall, hackedSyscallTbl, sysCallTableAddress, sysNiSyscallAddress := 0, 0, 0, 0;
    }

    method GoodArea(addr: nat) returns (r: int)
      requires Readable(m, addr)
      ensures r == 0 || r == 1
      ensures r == 1 <==>
                forall i :: 1 <= i < FIRST_NI_SYSCALL ==> Entry(m, addr, i) != Entry(m, addr, FIRST_NI_SYSCALL)
    {
      var i := 1;
      while i < FIRST_NI_SYSCALL
        invariant 1 <= i <= FIRST_NI_SYSCALL
        invariant forall j :: 1 <= j < i ==> Entry(m, addr, j) != Entry(m, addr, FIRST_NI_SYSCALL)
      {
        if Entry(m, addr, i) == Entry(m, addr, FIRST_NI_SYSCALL) {
          return 0;
        }
        i := i + 1;
      }
      return 1;
    }

    // The condition of the scan; && stops at the first part that fails.
    method PatternMatches(addr: nat) returns (r: bool)
      requires Readable(m, addr)
      ensures r <==> IsTable(m, addr)
    {
      if && Entry(m, addr, FIRST_NI_SYSCALL) % 4 == 0
         && Entry(m, addr, FIRST_NI_SYSCALL) != 0
         && Entry(m, addr, FIRST_NI_SYSCALL) > 0xffff_ffff_0000_0000
         && Entry(m, addr, FIRST_NI_SYSCALL) == Entry(m, addr, SECOND_NI_SYSCALL)
         && Entry(m, addr, FIRST_NI_SYSCALL) == Entry(m, addr, THIRD_NI_SYSCALL)
         && Entry(m, addr, FIRST_NI_SYSCALL) == Entry(m, addr, FOURTH_NI_SYSCALL)
         && Entry(m, addr, FIRST_NI_SYSCALL) == Entry(m, addr, FIFTH_NI_SYSCALL)
         && Entry(m, addr, FIRST_NI_SYSCALL) == Entry(m, addr, SIXTH_NI_SYSCALL)
         && Entry(m, addr, FIRST_NI_SYSCALL) == Entry(m, addr, SEVENTH_NI_SYSCALL)
      {
        var good := GoodArea(addr);
        return good != 0;
      }
      return false;
    }

    function FreeEntry(addr: nat): Word
      requires Readable(m, addr)
    {
      Entry(m, addr, FIRST_NI_SYSCALL)
    }

    // The globals record the lowest table from lo up to hi.
    ghost predicate FoundFirst(lo: nat, hi: nat)
      reads this
    {
      && lo <= hackedSyscallTbl < hi && Aligned(hackedSyscallTbl)
      && IsTable(m, hackedSyscallTbl) && NoTable(m, lo, hackedSyscallTbl)
      && sysCallTableAddress == hackedSyscallTbl
      && hackedNiSyscall == sysNiSyscallAddress == FreeEntry(hackedSyscallTbl)
    }

    // The lowest table that starts in a mapped page.
    method ValidatePage(page: Word) returns (r: int)
      requires START <= page < MAX_ADDR && page % PAGE_SIZE == 0 && Mapped(m, page)
      modifies this
      ensures r == 0 ==> NoTable(m, page, page + PAGE_SIZE) && unchanged(this)
      ensures r != 0 ==> r == 1 && FoundFirst(page, page + PAGE_SIZE)
    {
      hide Mapped, Readable, EntryMapped, Matches, IsTable, NoTable, PageOf, Aligned, FreeEntry;
      NoTableStart(m, page);
      var i := 0;
      while i < PAGE_SIZE
        invariant 0 <= i < PAGE_SIZE + POINTER_SIZE && Aligned(page + i)
        invariant NoTable(m, page, page + i) && unchanged(this)
      {
        var newPage := page + i + SEVENTH_NI_SYSCALL * POINTER_SIZE;
        if page + PAGE_SIZE == PageOf(newPage) && !Mapped(m, newPage) {
          RestUnreadable(page, i);
          break;
        }
        var addr := page + i;
        PageReadable(page, i);
        var matched := PatternMatches(addr);
        if matched {
          hackedNiSyscall := FreeEntry(addr);
          sysNiSyscallAddress := hackedNiSyscall;
          hackedSyscallTbl := addr;
          sysCallTableAddress := hackedSyscallTbl;
          return 1;
        }
        NoTableStep(m, page, addr);
        i := i + POINTER_SIZE;
      }
      NoTableBelow(m, page, page + (if i < PAGE_SIZE then PAGE_SIZE else i), page + PAGE_SIZE);
      return 0;
    }

    // Past the early exit nothing is readable: the skipped addresses need the next page too.
    lemma RestUnreadable(page: Word, i: nat)
      requires START <= page < MAX_ADDR && page % PAGE_SIZE == 0
      requires i < PAGE_SIZE && page + PAGE_SIZE == PageOf(page + i + SEVENTH_NI_SYSCALL * POINTER_SIZE)
      requires !Mapped(m, page + i + SEVENTH_NI_SYSCALL * POINTER_SIZE) && NoTable(m, page, page + i)
      ensures NoTable(m, page, page + PAGE_SIZE)
    {
      forall a | page + i <= a < page + PAGE_SIZE
        ensures !IsTable(m, a)
      {
        NextPageNeeded(page, i, a);
      }
    }

    lemma NextPageNeeded(page: Word, i: nat, a: nat)
      requires START <= page < MAX_ADDR && page % PAGE_SIZE == 0 && page + i <= a < page + PAGE_SIZE
      requires page + PAGE_SIZE == PageOf(page + i + SEVENTH_NI_SYSCALL * POINTER_SIZE)
      requires !Mapped(m, page + i + SEVENTH_NI_SYSCALL * POINTER_SIZE)
      ensures !IsTable(m, a)
    {
      var last := a + SEVENTH_NI_SYSCALL * POINTER_SIZE;
      hide SysVtpmo, Matches;
      SamePage(m.tables, m.cr3, last, page + i + SEVENTH_NI_SYSCALL * POINTER_SIZE);
      assert !EntryMapped(m, a, SEVENTH_NI_SYSCALL);
    }

    lemma PageReadable(page: Word, i: nat)
      requires START <= page < MAX_ADDR && page % PAGE_SIZE == 0 && Mapped(m, page)
      requires i < PAGE_SIZE && Aligned(page + i)
      requires var newPage := page + i + SEVENTH_NI_SYSCALL * POINTER_SIZE;
               page + PAGE_SIZE == PageOf(newPage) ==> Mapped(m, newPage)
      ensures Readable(m, page + i)
    {
      hide SysVtpmo, Readable;
      var newPage := page + i + SEVENTH_NI_SYSCALL * POINTER_SIZE;
      SamePage(m.tables, m.cr3, page + i, page);
      if page + PAGE_SIZE != PageOf(newPage) {
        SamePage(m.tables, m.cr3, newPage, page);
      }
      EndsMakeReadable(m, page + i);
    }

    method SyscallTableFinder()
      modifies this
      ensures (NoTable(m, START, MAX_ADDR) && unchanged(this)) || FoundFirst(START, MAX_ADDR)
      ensures NoTable(m, START, MAX_ADDR)
              || (hackedSyscallTbl == sysCallTableAddress && IsTable(m, hackedSyscallTbl)
                  && NoTable(m, START, hackedSyscallTbl) && 0xffff_ffff_0000_0000 <= hackedSyscallTbl < 0xffff_ffff_fff0_0000
                  && hackedNiSyscall == sysNiSyscallAddress == m.memory(hackedSyscallTbl + 8 * 134))
    {
      hide Mapped, Matches, Readable, PageOf, Aligned;
      var k := START;
      while k < MAX_ADDR
        invariant START <= k <= MAX_ADDR && k % PAGE_SIZE == 0
        invariant NoTable(m, START, k) && unchanged(this)
      {
        var candidate := k;
        if Mapped(m, candidate) {
          var found := ValidatePage(candidate);
          if found != 0 {
            return;
          }
        } else {
          PageUnreadable(candidate);
        }
        k := k + 4096;
      }
    }

    lemma PageUnreadable(page: Word)
      requires START <= page < MAX_ADDR && page % PAGE_SIZE == 0 && !Mapped(m, page)
      ensures NoTable(m, page, page + PAGE_SIZE)
    {
      forall a | page <= a < page + PAGE_SIZE
        ensures !IsTable(m, a)
      {
        SamePage(m.tables, m.cr3, a, page);
        assert !EntryMapped(m, a, 0);
      }
    }
  }

  // ---------------------------------------------------------------- against the architecture

  // The processor would not fault on any entry of the pattern.
  predicate Present(m: Machine, addr: nat)
  {
    forall i :: 0 <= i <= SEVENTH_NI_SYSCALL ==> EntryPresent(m, addr, i)
  }

  predicate EntryPresent(m: Machine, addr: nat, i: nat)
  {
    addr + POINTER_SIZE * i < TWO_64 && Translate(m.tables, m.cr3, addr + POINTER_SIZE * i).Some?
  }

  // The walk of an entry's address stays in memory and sees its page.
  predicate EntrySeen(m: Machine, addr: nat, i: nat)
  {
    && addr + POINTER_SIZE * i < TWO_64
    && StaysInMemory(m.tables, m.cr3, addr + POINTER_SIZE * i) && Seen(m.tables, m.cr3, addr + POINTER_SIZE * i)
  }

  // Readable whatever a walk beyond memory would find there.
  ghost predicate SurelyReadable(m: Machine, addr: nat)
  {
    forall u :: SameMemory(m.tables, u) ==> Readable(m.(tables := u), addr)
  }

  // The search can rely on reading the pattern exactly if the walk stays in memory and sees
  // the page for every entry, and then all of it is present.
  lemma ReadableIsPresent(m: Machine, addr: nat)
    ensures SurelyReadable(m, addr) <==> forall i :: 0 <= i <= SEVENTH_NI_SYSCALL ==> EntrySeen(m, addr, i)
    ensures SurelyReadable(m, addr) ==> Present(m, addr)
  {
    forall i | 0 <= i <= SEVENTH_NI_SYSCALL
      ensures EntrySeen(m, addr, i) <==>
                forall u :: SameMemory(m.tables, u) ==> EntryMapped(m.(tables := u), addr, i)
      ensures EntrySeen(m, addr, i) ==> EntryPresent(m, addr, i)
    {
      SeenIsMapped(m, addr, i);
    }
    hide EntryMapped, EntryPresent, EntrySeen, SameMemory;
    if forall i :: 0 <= i <= SEVENTH_NI_SYSCALL ==> EntrySeen(m, addr, i) {
      forall u | SameMemory(m.tables, u)
        ensures Readable(m.(tables := u), addr)
      {
        forall i | 0 <= i <= SEVENTH_NI_SYSCALL
          ensures EntryMapped(m.(tables := u), addr, i)
        {
          assert EntrySeen(m, addr, i);
        }
      }
    }
    if SurelyReadable(m, addr) {
      forall i, u | 0 <= i <= SEVENTH_NI_SYSCALL && SameMemory(m.tables, u)
        ensures EntryMapped(m.(tables := u), addr, i)
      {
        assert Readable(m.(tables := u), addr);
      }
    }
  }

  lemma SeenIsMapped(m: Machine, addr: nat, i: nat)
    ensures EntrySeen(m, addr, i) <==>
              forall u :: SameMemory(m.tables, u) ==> EntryMapped(m.(tables := u), addr, i)
    ensures EntrySeen(m, addr, i) ==> EntryPresent(m, addr, i)
  {
    if addr + POINTER_SIZE * i < TWO_64 {
      var a: Word := addr + POINTER_SIZE * i;
      ReportedMapped(m.tables, m.cr3, a);
      assert Seen(m.tables, m.cr3, a) ==> Translate(m.tables, m.cr3, a).Some?;
      hide SysVtpmo, Translate, StaysInMemory, Seen, SameMemory;
      assert forall u :: EntryMapped(m.(tables := u), addr, i) <==> SysVtpmo(u, m.cr3, a) != NO_MAP;
      hide EntryMapped;
    } else {
      assert SameMemory(m.tables, m.tables) && !EntryMapped(m.(tables := m.tables), addr, i);
    }
  }
}
