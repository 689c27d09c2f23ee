/**
  The NutShell machine state and its five-phase initialization: CPUs,
  interrupt controllers, memory, flash and serial ports, in that order.

  A phase either completes or ends the board: `exit(1)` in CPU creation
  and a failed assertion in flash creation are the `Halted` phase, which
  records why. Once halted, the remaining phases do nothing, so the
  initialization sequence reads straight through as in the board code.

  The address map is a field constrained only by `WellFormed`, so the
  phases are proved for any well-formed map; `Boot` runs them on the
  board's own table.
 */
module Board {
  import opened Bits
  import opened NutshellDefs
  import opened MemMap
  import opened ResetVec
  import opened Topology
  import opened Flash

  /** Why the board stopped. */
  datatype Failure =
    | CpuExit(error: CpuError, realized: nat)
    | FlashAssert(flashError: FlashError)

  datatype Phase =
    | Start | CpusCreated | IntcCreated | MemoryCreated | FlashCreated | SerialCreated
    | Halted(failure: Failure)

  /** How far initialization has got; a halted board is past every phase. */
  function Rank(p: Phase): nat
  {
    match p
    case Start => 0
    case CpusCreated => 1
    case IntcCreated => 2
    case MemoryCreated => 3
    case FlashCreated => 4
    case SerialCreated => 5
    case Halted(_) => 6
  }

  datatype RegionKind = Ram | Rom | Device

  /** A region mapped into the system address space, with the map entry it comes from. */
  datatype Subregion = Subregion(id: RegionId, base: int, size: int, kind: RegionKind)

  /** The software-interrupt part of the ACLINT: its base, hart range and
      whether it is the supervisor-mode variant. */
  datatype Aclint = Aclint(base: int, hartidBase: int, numHarts: int, sswi: bool)

  /** The arguments the PLIC is created with. */
  datatype PlicConfig = PlicConfig(
    base: int, numHarts: int, hartidBase: int,
    numSources: nat, numPriorities: nat,
    priorityBase: nat, pendingBase: nat, enableBase: nat, enableStride: nat,
    contextBase: nat, contextStride: nat, apertureSize: int)

  /** The flash device's geometry properties. */
  datatype PFlash = PFlash(sectorLength: nat, numBlocks: Option<u32>)

  /** A memory-mapped 16550 UART: base, register shift, PLIC input, baud base. */
  datatype Serial = Serial(base: int, regShift: nat, irq: nat, baudBase: nat)

  const SERIAL_BAUD_BASE: nat := 399193

  predicate Disjoint(a: Subregion, b: Subregion)
  {
    !Overlap(a.base, a.size, b.base, b.size)
  }

  /** No two mapped regions share an address. */
  predicate PairwiseDisjoint(rs: seq<Subregion>)
  {
    forall i, j :: 0 <= i < j < |rs| ==> Disjoint(rs[i], rs[j])
  }

  /** The fixed region `r` of the map `m` as a mapped region. */
  function MapRegion(m: seq<Entry>, r: RegionId, kind: RegionKind): Subregion
    requires |m| == REGION_COUNT
  {
    Subregion(r, m[Index(r)].base, m[Index(r)].size, kind)
  }

  /** The regions memory creation maps: DRAM of the machine's RAM size at
      the DRAM base, then SRAM, then the mask ROM. */
  function MemoryRegions(m: seq<Entry>, ramSize: nat): seq<Subregion>
    requires |m| == REGION_COUNT
  {
    [ Subregion(Dram, m[Index(Dram)].base, ramSize, Ram),
      MapRegion(m, Sram, Ram),
      MapRegion(m, Mrom, Rom) ]
  }

  function FlashRegion(m: seq<Entry>): Subregion
    requires |m| == REGION_COUNT
  {
    MapRegion(m, Flash, Device)
  }

  /** The three UARTs, each wired to its own PLIC input. */
  function Serials(m: seq<Entry>): seq<Serial>
    requires |m| == REGION_COUNT
  {
    [ Serial(m[Index(Uart0)].base, 0, UART0_IRQ, SERIAL_BAUD_BASE),
      Serial(m[Index(Uart1)].base, 0, UART1_IRQ, SERIAL_BAUD_BASE),
      Serial(m[Index(Uart2)].base, 0, UART2_IRQ, SERIAL_BAUD_BASE) ]
  }

  /** What the trampoline learns of the hart array: its word width and
      whether its first hart has Zicsr. */
  function HartOf(h: HartArray): HartConfig
    requires h.Realized?
  {
    HartConfig(h.cpuType.is32, h.cpuType.zicsr)
  }

  /** In a well-formed map every fixed region lies apart from every other
      and from DRAM of any size, so the regions memory and flash creation
      map are pairwise disjoint. */
  lemma MappedRegionsDisjoint(m: seq<Entry>, ramSize: nat)
    requires WellFormed(m)
    ensures PairwiseDisjoint(MemoryRegions(m, ramSize) + [FlashRegion(m)])
  {
    var rs := MemoryRegions(m, ramSize) + [FlashRegion(m)];
    var ids := [Dram, Sram, Mrom, Flash];
    assert forall k :: 0 <= k < 4 ==> rs[k].base == m[Index(ids[k])].base;
    assert forall k :: 1 <= k < 4 ==> rs[k].size == m[Index(ids[k])].size;
    forall i, j | 0 <= i < j < |rs| ensures Disjoint(rs[i], rs[j]) {
      if i == 0 {
        assert BelowDram(m, ids[j]);
      } else {
        assert Apart(m, ids[i], ids[j]);
      }
    }
  }

  /** The regions memory creation maps are pairwise disjoint. */
  lemma MemoryRegionsDisjoint(m: seq<Entry>, ramSize: nat)
    requires WellFormed(m)
    ensures PairwiseDisjoint(MemoryRegions(m, ramSize))
  {
    MappedRegionsDisjoint(m, ramSize);
    assert MemoryRegions(m, ramSize) == (MemoryRegions(m, ramSize) + [FlashRegion(m)])[..3];
  }

  class Machine {
    /** The address map the board is built from. */
    const memmap: seq<Entry>
    /** The NUMA layout: one entry per socket. */
    const sockets: seq<SocketInfo>
    const cpuType: CpuType
    /** The configured number of CPUs. */
    const smpCpus: int
    const ramSize: nat
    /** Byte order of the host the emulator runs on. */
    const host: Endian
    /** One hart-array slot per possible socket. */
    const soc: array<HartArray>

    var phase: Phase
    var aclint: Option<Aclint>
    var plic: Option<PlicConfig>
    var flash: Option<PFlash>
    var serials: seq<Serial>
    /** The regions mapped into the system address space, in mapping order. */
    var sysmem: seq<Subregion>
    /** Every write into the mask ROM, as (offset, bytes). */
    var romWrites: seq<(int, seq<u8>)>

    /** The ACLINT interrupt-controller creation sets up. */
    function AclintOf(): Aclint
      requires |memmap| == REGION_COUNT
    {
      Aclint(memmap[Index(Clint)].base, 0, smpCpus, false)
    }

    /** The PLIC interrupt-controller creation sets up. */
    function PlicOf(): PlicConfig
      requires |memmap| == REGION_COUNT
    {
      PlicConfig(memmap[Index(Plic)].base, smpCpus, 0,
                 PLIC_NUM_SOURCES, PLIC_NUM_PRIORITIES,
                 PLIC_PRIORITY_BASE, PLIC_PENDING_BASE,
                 PLIC_ENABLE_BASE, PLIC_ENABLE_STRIDE,
                 PLIC_CONTEXT_BASE, PLIC_CONTEXT_STRIDE,
                 memmap[Index(Plic)].size)
    }

    /** The flash device flash creation leaves, whichever way its
        assertions go: the sector length is set before they are checked,
        the block count only once both hold. */
    function FlashOf(): PFlash
      requires |memmap| == REGION_COUNT
    {
      match NumBlocks(memmap[Index(Flash)].size, FLASH_SECTOR_SIZE)
      case Failure(_) => PFlash(FLASH_SECTOR_SIZE, None)
      case Success(n) => PFlash(FLASH_SECTOR_SIZE, Some(n))
    }

    /** The machine state and what each completed phase has left in it. */
    predicate Valid()
      reads this, soc
    {
      && soc.Length == NUTSHELL_SOCKETS_MAX
      && WellFormed(memmap)
      && 1 <= |sockets|
      && PairwiseDisjoint(sysmem)
      && (1 <= Rank(phase) <= 5 ==>
            CpuCreateError(sockets) == None
            && soc[0] == HartArrayFor(cpuType, sockets[0]))
      && (2 <= Rank(phase) <= 5 ==> plic.Some? && plic.value.numSources == PLIC_NUM_SOURCES)
      && (Rank(phase) <= 2 ==> sysmem == [])
      && (Rank(phase) == 3 ==> sysmem == MemoryRegions(memmap, ramSize))
      && (4 <= Rank(phase) <= 5 ==> sysmem == MemoryRegions(memmap, ramSize) + [FlashRegion(memmap)])
      && romWrites == []
    }

    /** A machine about to be initialized: nothing built, nothing mapped.
        The socket count is at least 1, as the NUMA layer reports. */
    constructor(memmap: seq<Entry>, sockets: seq<SocketInfo>, cpuType: CpuType,
                smpCpus: int, ramSize: nat, host: Endian)
      requires WellFormed(memmap) && 1 <= |sockets|
      ensures Valid() && phase == Start
      ensures this.memmap == memmap && this.sockets == sockets && this.cpuType == cpuType
      ensures this.smpCpus == smpCpus && this.ramSize == ramSize && this.host == host
      ensures fresh(soc) && forall i :: 0 <= i < soc.Length ==> soc[i] == Unrealized
      ensures aclint == None && plic == None && flash == None && serials == []
    {
      this.memmap := memmap;
      this.sockets := sockets;
      this.cpuType := cpuType;
      this.smpCpus := smpCpus;
      this.ramSize := ramSize;
      this.host := host;
      soc := new HartArray[NUTSHELL_SOCKETS_MAX](_ => Unrealized);
      phase := Start;
      aclint := None;
      plic := None;
      flash := None;
      serials := [];
      sysmem := [];
      romWrites := [];
    }

    /** Validates the socket layout and builds one hart array per socket,
        exiting on the first failed check with the sockets before it
        already built. */
    method CpuCreate()
      requires Valid() && phase == Start
      modifies this, soc
      ensures Valid()
      ensures CpuCreateError(sockets) == None ==> phase == CpusCreated
      ensures CpuCreateError(sockets).Some? ==>
        phase == Halted(CpuExit(CpuCreateError(sockets).value, RealizedCount(sockets)))
      ensures forall i :: 0 <= i < soc.Length ==>
        soc[i] == if i < RealizedCount(sockets) then HartArrayFor(cpuType, sockets[i]) else old(soc[i])
      ensures aclint == old(aclint) && plic == old(plic) && flash == old(flash)
      ensures serials == old(serials) && sysmem == old(sysmem) && romWrites == old(romWrites)
    {
      if NUTSHELL_SOCKETS_MAX < |sockets| {
        phase := Halted(CpuExit(TooManySockets, 0));
        return;
      }
      var i := 0;
      while i < |sockets|
        invariant 0 <= i <= |sockets| <= soc.Length
        invariant phase == Start
        invariant forall j :: 0 <= j < i ==> SocketOk(sockets[j])
        invariant forall j :: 0 <= j < soc.Length ==>
          soc[j] == if j < i then HartArrayFor(cpuType, sockets[j]) else old(soc[j])
        invariant aclint == old(aclint) && plic == old(plic) && flash == old(flash)
        invariant serials == old(serials) && sysmem == old(sysmem) && romWrites == old(romWrites)
      {
        if !sockets[i].hartidsContiguous {
          FirstFailureReported(sockets, i);
          phase := Halted(CpuExit(DiscontiguousHartids(i), i));
          return;
        }
        var baseHartid := sockets[i].firstHartid;
        if baseHartid < 0 {
          FirstFailureReported(sockets, i);
          phase := Halted(CpuExit(NoHartidBase(i), i));
          return;
        }
        var hartCount := sockets[i].hartCount;
        if hartCount < 0 {
          FirstFailureReported(sockets, i);
          phase := Halted(CpuExit(NoHartCount(i), i));
          return;
        }
        soc[i] := Realized(cpuType, baseHartid, hartCount);
        i := i + 1;
      }
      AcceptedIff(sockets);
      phase := CpusCreated;
    }

    /** Creates the ACLINT software interrupts at the CLINT base and the
        PLIC at its window, both for all configured CPUs from hart 0. */
    method InterruptControllerCreate()
      requires Valid() && (phase == CpusCreated || phase.Halted?)
      modifies this
      ensures Valid()
      ensures old(phase).Halted? ==> phase == old(phase) && aclint == old(aclint) && plic == old(plic)
      ensures old(phase) == CpusCreated ==>
        && phase == IntcCreated
        && aclint == Some(AclintOf())
        && plic == Some(PlicOf())
      ensures flash == old(flash) && serials == old(serials)
      ensures sysmem == old(sysmem) && romWrites == old(romWrites)
    {
      if phase.Halted? {
        return;
      }
      aclint := Some(Aclint(memmap[Index(Clint)].base, 0, smpCpus, false));
      plic := Some(PlicConfig(memmap[Index(Plic)].base, smpCpus, 0,
                              PLIC_NUM_SOURCES, PLIC_NUM_PRIORITIES,
                              PLIC_PRIORITY_BASE, PLIC_PENDING_BASE,
                              PLIC_ENABLE_BASE, PLIC_ENABLE_STRIDE,
                              PLIC_CONTEXT_BASE, PLIC_CONTEXT_STRIDE,
                              memmap[Index(Plic)].size));
      phase := IntcCreated;
    }

    /** Maps DRAM, SRAM and the mask ROM, then builds the reset vector for
        the first hart array, starting at the flash base with device tree
        address 0. `resetVec` is the vector the board code builds and then
        drops: nothing is written into the ROM. A halted board returns []. */
    method MemoryCreate() returns (resetVec: seq<u32>)
      requires Valid() && (phase == IntcCreated || phase.Halted?)
      modifies this
      ensures Valid()
      ensures old(phase).Halted? ==> phase == old(phase) && sysmem == old(sysmem) && resetVec == []
      ensures old(phase) == IntcCreated ==>
        && phase == MemoryCreated
        && sysmem == MemoryRegions(memmap, ramSize)
        && resetVec == ToLe32(host, ResetVecWords(HartOf(soc[0]), memmap[Index(Flash)].base, 0))
      ensures romWrites == [] && aclint == old(aclint) && plic == old(plic)
      ensures flash == old(flash) && serials == old(serials)
    {
      if phase.Halted? {
        return [];
      }
      sysmem := sysmem + [Subregion(Dram, memmap[Index(Dram)].base, ramSize, Ram)];
      sysmem := sysmem + [MapRegion(memmap, Sram, Ram)];
      sysmem := sysmem + [MapRegion(memmap, Mrom, Rom)];
      assert sysmem == MemoryRegions(memmap, ramSize);
      MemoryRegionsDisjoint(memmap, ramSize);
      var a := SetupRomResetVec(HartOf(soc[0]), memmap[Index(Flash)].base,
                                memmap[Index(Mrom)].base, memmap[Index(Mrom)].size,
                                0, 0, host);
      resetVec := a[..];
      phase := MemoryCreated;
    }

    /** Sets up the flash device with 256 KiB sectors and, once both
        geometry assertions hold, its block count, and maps it at the flash
        base; a failed assertion ends the board. */
    method FlashCreate()
      requires Valid() && (phase == MemoryCreated || phase.Halted?)
      modifies this
      ensures Valid()
      ensures old(phase).Halted? ==> phase == old(phase) && flash == old(flash) && sysmem == old(sysmem)
      ensures old(phase) == MemoryCreated ==>
        match NumBlocks(memmap[Index(Flash)].size, FLASH_SECTOR_SIZE)
        case Failure(e) =>
          && phase == Halted(FlashAssert(e))
          && flash == Some(PFlash(FLASH_SECTOR_SIZE, None))
          && sysmem == old(sysmem)
        case Success(n) =>
          && phase == FlashCreated
          && flash == Some(PFlash(FLASH_SECTOR_SIZE, Some(n)))
          && sysmem == old(sysmem) + [FlashRegion(memmap)]
      ensures romWrites == old(romWrites) && aclint == old(aclint) && plic == old(plic)
      ensures serials == old(serials)
    {
      if phase.Halted? {
        return;
      }
      var flashSectorSize := FLASH_SECTOR_SIZE;
      flash := Some(PFlash(flashSectorSize, None));
      var size := memmap[Index(Flash)].size;
      if size % flashSectorSize != 0 {
        phase := Halted(FlashAssert(SizeNotAligned));
        return;
      }
      if size / flashSectorSize > UINT32_MAX {
        phase := Halted(FlashAssert(TooManyBlocks));
        return;
      }
      flash := Some(PFlash(flashSectorSize, Some(size / flashSectorSize)));
      MappedRegionsDisjoint(memmap, ramSize);
      sysmem := sysmem + [FlashRegion(memmap)];
      phase := FlashCreated;
    }

    /** Creates the three UARTs at their windows, each wired to its PLIC input. */
    method SerialCreate()
      requires Valid() && (phase == FlashCreated || phase.Halted?)
      modifies this
      ensures Valid()
      ensures old(phase).Halted? ==> phase == old(phase) && serials == old(serials)
      ensures old(phase) == FlashCreated ==>
        && phase == SerialCreated
        && serials == Serials(memmap)
        && plic.Some?
        && forall k :: 0 <= k < |serials| ==> 0 < serials[k].irq < plic.value.numSources
      ensures sysmem == old(sysmem) && romWrites == old(romWrites)
      ensures aclint == old(aclint) && plic == old(plic) && flash == old(flash)
    {
      if phase.Halted? {
        return;
      }
      serials := [Serial(memmap[Index(Uart0)].base, 0, UART0_IRQ, SERIAL_BAUD_BASE)];
      serials := serials + [Serial(memmap[Index(Uart1)].base, 0, UART1_IRQ, SERIAL_BAUD_BASE)];
      serials := serials + [Serial(memmap[Index(Uart2)].base, 0, UART2_IRQ, SERIAL_BAUD_BASE)];
      phase := SerialCreated;
    }

    /** The five phases in order. The board comes up only when the socket
        layout is accepted and the flash geometry assertions hold; the
        reset vector never reaches the ROM. */
    method MachineInit()
      requires Valid() && phase == Start
      modifies this, soc
      ensures Valid()
      ensures forall i :: 0 <= i < soc.Length ==>
        soc[i] == if i < RealizedCount(sockets) then HartArrayFor(cpuType, sockets[i]) else old(soc[i])
      ensures CpuCreateError(sockets).Some? ==>
        && phase == Halted(CpuExit(CpuCreateError(sockets).value, RealizedCount(sockets)))
        && aclint == old(aclint) && plic == old(plic) && flash == old(flash)
        && sysmem == old(sysmem) && serials == old(serials)
      ensures CpuCreateError(sockets) == None ==>
        aclint == Some(AclintOf()) && plic == Some(PlicOf()) && flash == Some(FlashOf())
      ensures CpuCreateError(sockets) == None ==>
        match NumBlocks(memmap[Index(Flash)].size, FLASH_SECTOR_SIZE)
        case Failure(e) =>
          && phase == Halted(FlashAssert(e))
          && sysmem == MemoryRegions(memmap, ramSize)
          && serials == old(serials)
        case Success(_) =>
          && phase == SerialCreated
          && sysmem == MemoryRegions(memmap, ramSize) + [FlashRegion(memmap)]
          && serials == Serials(memmap)
      ensures romWrites == []
    {
      CpuCreate();
      InterruptControllerCreate();
      var _ := MemoryCreate();
      FlashCreate();
      SerialCreate();
    }
  }

  /** Builds the board from its own address map. Whatever the socket
      layout, CPU type, RAM size and host, initialization halts: either
      the socket checks exit, or the 4 KiB flash fails the sector
      alignment assertion after memory has been mapped. */
  method Boot(sockets: seq<SocketInfo>, cpuType: CpuType, smpCpus: int, ramSize: nat, host: Endian)
    returns (m: Machine)
    requires 1 <= |sockets|
    ensures m.Valid() && m.memmap == Table
    ensures CpuCreateError(sockets).Some? ==>
      m.phase == Halted(CpuExit(CpuCreateError(sockets).value, RealizedCount(sockets)))
    ensures CpuCreateError(sockets) == None ==>
      m.phase == Halted(FlashAssert(SizeNotAligned)) && m.sysmem == MemoryRegions(Table, ramSize)
    ensures m.phase.Halted? && m.romWrites == [] && m.serials == []
  {
    TableWellFormed();
    m := new Machine(Table, sockets, cpuType, smpCpus, ramSize, host);
    m.MachineInit();
    TableFlashMisaligned();
  }
}
