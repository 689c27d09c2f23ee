/**
  The NutShell board's physical address map: one `(base, size)` entry per
  region identifier, indexed by the enumeration value of the identifier.
  Identifiers the table leaves out are `(0, 0)`; the DRAM entry has size
  0 because the RAM size is given when the board is built.
 */
module MemMap {
  import opened Bits
  import opened NutshellDefs

  datatype Entry = Entry(base: u64, size: u64)

  /** The half-open intervals `[b1, b1 + s1)` and `[b2, b2 + s2)` share an address. */
  predicate Overlap(b1: int, s1: int, b2: int, s2: int)
  {
    0 < s1 && 0 < s2 && b1 < b2 + s2 && b2 < b1 + s1
  }

  /** The table, entry `i` for the identifier whose enumeration value is `i`. */
  const Table: seq<Entry> := [
    /* Vga      */ Entry(0, 0),
    /* Vmem     */ Entry(0, 0),
    /* Plic     */ Entry(0x3c000000, 0x04000000),
    /* Clint    */ Entry(0x38000000, 0x00010000),
    /* Uartlite */ Entry(0x40600000, 0x10),
    /* Flash    */ Entry(0x40000000, 0x1000),
    /* Sd       */ Entry(0x40002000, 0x1000),
    /* Dma      */ Entry(0x40003000, 0x1000),
    /* Dram     */ Entry(0x80000000, 0x0),
    /* Mrom     */ Entry(0x00000000, 0x20000),
    /* Sram     */ Entry(0x00020000, 0xe0000),
    /* Uart0    */ Entry(0x10000000, 0x100),
    /* Uart1    */ Entry(0x10001000, 0x100),
    /* Uart2    */ Entry(0x10002000, 0x100)
  ]

  /** The table's entry for `r`: empty exactly for the two identifiers
      without an initializer and for DRAM, whose size is given at run time;
      every other region ends at or below the DRAM base. */
  function Region(r: RegionId): (e: Entry)
    ensures e.size == 0 <==> r == Vga || r == Vmem || r == Dram
    ensures r != Dram ==> e.base + e.size <= 0x80000000
    ensures r == Dram ==> e.base == 0x80000000
  {
    Table[Index(r)]
  }

  /** What the board code relies on in an address map: one entry per
      identifier, no two regions overlapping, and every fixed region below
      the DRAM base, so that DRAM of any size overlaps none of them. */
  predicate WellFormed(m: seq<Entry>)
  {
    && |m| == REGION_COUNT
    && (forall a: RegionId, b: RegionId :: a != b ==> Apart(m, a, b))
    && (forall a: RegionId :: a != Dram ==> BelowDram(m, a))
  }

  /** The regions `a` and `b` of `m` share no address. */
  predicate Apart(m: seq<Entry>, a: RegionId, b: RegionId)
    requires |m| == REGION_COUNT
  {
    !Overlap(m[Index(a)].base, m[Index(a)].size, m[Index(b)].base, m[Index(b)].size)
  }

  /** The region `a` of `m` is empty or ends at or below the DRAM base. */
  predicate BelowDram(m: seq<Entry>, a: RegionId)
    requires |m| == REGION_COUNT
  {
    m[Index(a)].base + m[Index(a)].size <= m[Index(Dram)].base || m[Index(a)].size == 0
  }

  /** The regions the table gives a nonzero size, in increasing address order. */
  const Ascending: seq<RegionId> :=
    [Mrom, Sram, Uart0, Uart1, Uart2, Clint, Plic, Flash, Sd, Dma, Uartlite, Dram]

  /** Each region of `Ascending` ends at or below the start of the next. */
  lemma AscendingChain(i: nat)
    requires i + 1 < |Ascending|
    ensures Region(Ascending[i]).base + Region(Ascending[i]).size <= Region(Ascending[i + 1]).base
  {
  }

  /** Regions further along `Ascending` start no lower than an earlier region ends. */
  lemma {:induction false} AscendingApart(i: nat, j: nat)
    requires i < j < |Ascending|
    ensures Region(Ascending[i]).base + Region(Ascending[i]).size <= Region(Ascending[j]).base
  {
    AscendingChain(j - 1);
    if i < j - 1 {
      AscendingApart(i, j - 1);
    }
  }

  /** Every region outside `Ascending` is empty. */
  lemma AscendingCoversNonEmpty(r: RegionId)
    ensures r !in Ascending ==> Region(r).size == 0
  {
  }

  /** The table is well formed: its non-empty regions are pairwise
      disjoint and all lie below the DRAM base. */
  lemma TableWellFormed()
    ensures WellFormed(Table)
  {
    forall a: RegionId, b: RegionId | a != b
      ensures Apart(Table, a, b)
    {
      AscendingCoversNonEmpty(a);
      AscendingCoversNonEmpty(b);
      if a in Ascending && b in Ascending {
        var i :| 0 <= i < |Ascending| && Ascending[i] == a;
        var j :| 0 <= j < |Ascending| && Ascending[j] == b;
        if i < j { AscendingApart(i, j); } else { AscendingApart(j, i); }
      }
    }
    forall a: RegionId | a != Dram
      ensures BelowDram(Table, a)
    {
      AscendingCoversNonEmpty(a);
      if a in Ascending {
        var i :| 0 <= i < |Ascending| && Ascending[i] == a;
        AscendingApart(i, |Ascending| - 1);
      }
    }
  }

  /** The mask ROM ends exactly where SRAM begins. */
  lemma MromAdjoinsSram()
    ensures Region(Mrom).base + Region(Mrom).size == Region(Sram).base == 0x20000
  {
  }

  /** The PLIC window ends exactly where the flash begins. */
  lemma PlicAdjoinsFlash()
    ensures Region(Plic).base + Region(Plic).size == Region(Flash).base == 0x40000000
  {
  }

  /** The two identifiers without a table initializer are empty at address 0. */
  lemma UninitializedEntriesEmpty()
    ensures Region(Vga) == Entry(0, 0) && Region(Vmem) == Entry(0, 0)
  {
  }
}
