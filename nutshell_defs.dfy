/**
  The constants of the NutShell board header: CPU and socket limits, the
  interrupt numbers, the region-index enumeration and the parameters of
  the platform-level interrupt controller (PLIC).
 */
module NutshellDefs {

  const NUTSHELL_CPUS_MAX: nat := 8
  const NUTSHELL_CPUS_MIN: nat := 1
  /** Also the number of hart-array slots in the board state. */
  const NUTSHELL_SOCKETS_MAX: nat := 8

  /** Interrupt numbers. */
  const UART0_IRQ: nat := 10
  const UART1_IRQ: nat := 11
  const UART2_IRQ: nat := 12
  const RTC_IRQ: nat := 11
  const VIRTIO_IRQ: nat := 1
  const VIRTIO_COUNT: nat := 8
  const PCIE_IRQ: nat := 0x20
  const VIRT_PLATFORM_BUS_IRQ: nat := 64

  /** PLIC parameters; the source count includes the reserved source 0. */
  const PLIC_HART_CONFIG: string := "MS"
  const PLIC_NUM_SOURCES: nat := 53
  const PLIC_NUM_PRIORITIES: nat := 7
  const PLIC_PRIORITY_BASE: nat := 0x00
  const PLIC_PENDING_BASE: nat := 0x1000
  const PLIC_ENABLE_BASE: nat := 0x2000
  const PLIC_ENABLE_STRIDE: nat := 0x80
  const PLIC_CONTEXT_BASE: nat := 0x200000
  const PLIC_CONTEXT_STRIDE: nat := 0x1000

  /** The region identifiers, in the order of the C enumeration. */
  datatype RegionId =
    | Vga | Vmem | Plic | Clint | Uartlite | Flash | Sd | Dma
    | Dram | Mrom | Sram | Uart0 | Uart1 | Uart2

  const REGION_COUNT: nat := 14

  /** The value the C enumeration gives each identifier. */
  function Index(r: RegionId): (i: nat)
    ensures i < REGION_COUNT
  {
    match r
    case Vga => 0
    case Vmem => 1
    case Plic => 2
    case Clint => 3
    case Uartlite => 4
    case Flash => 5
    case Sd => 6
    case Dma => 7
    case Dram => 8
    case Mrom => 9
    case Sram => 10
    case Uart0 => 11
    case Uart1 => 12
    case Uart2 => 13
  }

  /** The identifier an enumeration value stands for. */
  function RegionAt(i: nat): RegionId
    requires i < REGION_COUNT
  {
    [Vga, Vmem, Plic, Clint, Uartlite, Flash, Sd, Dma, Dram, Mrom, Sram, Uart0, Uart1, Uart2][i]
  }

  /** The enumeration numbers the identifiers 0..13 one to one. */
  lemma RegionIndexBijective()
    ensures forall r :: Index(r) < REGION_COUNT && RegionAt(Index(r)) == r
    ensures forall i :: 0 <= i < REGION_COUNT ==> Index(RegionAt(i)) == i
  {
    forall r ensures Index(r) < REGION_COUNT && RegionAt(Index(r)) == r {
      match r
      case Vga => case Vmem => case Plic => case Clint => case Uartlite =>
      case Flash => case Sd => case Dma => case Dram => case Mrom =>
      case Sram => case Uart0 => case Uart1 => case Uart2 =>
    }
  }

  /** Distinct identifiers have distinct enumeration values. */
  lemma RegionIndexInjective(a: RegionId, b: RegionId)
    ensures Index(a) == Index(b) <==> a == b
  {
    RegionIndexBijective();
  }

  /** The IRQs of the three UARTs are distinct, nonzero and valid PLIC
      sources (source 0 is reserved). */
  lemma UartIrqsValid()
    ensures UART0_IRQ != UART1_IRQ && UART1_IRQ != UART2_IRQ && UART0_IRQ != UART2_IRQ
    ensures forall irq :: irq in [UART0_IRQ, UART1_IRQ, UART2_IRQ] ==> 0 < irq < PLIC_NUM_SOURCES
  {
  }

  lemma CpuLimitsOrdered()
    ensures 1 <= NUTSHELL_CPUS_MIN <= NUTSHELL_CPUS_MAX
  {
  }

  /** The PLIC register windows come in strictly increasing order. */
  lemma PlicWindowsOrdered()
    ensures PLIC_PRIORITY_BASE < PLIC_PENDING_BASE < PLIC_ENABLE_BASE < PLIC_CONTEXT_BASE
  {
  }
}
