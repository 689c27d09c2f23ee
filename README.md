# NutShell board: topology assembly and boot trampoline

A model of the NutShell RISC-V board of an emulator. Building the board has five steps, in this order:

1. Validate the socket (NUMA node) layout and build one hart array per socket.
2. Create the interrupt controllers.
3. Map DRAM, SRAM and the mask ROM.
4. Synthesize the 10-word reset trampoline.
5. Create the flash device and then the three UARTs.

Every step works from the board's constant address map.

The modules follow the structure of the board code:

| module | file | what it holds |
|---|---|---|
| `Bits` | bits.dfy | `u8`/`u32`/`u64`; the host's byte order as a parameter; `cpu_to_le32`; the byte image of a word array in host memory |
| `RiscV` | riscv.dfy | the I-type and U-type formats of the RISC-V Unprivileged ISA, version 20191213, section 2.2; the opcodes, `funct3` values and registers the trampoline uses; `mhartid` (CSR 0xF14) |
| `NutshellDefs` | nutshell_defs.dfy | the header's constants; the region-index enumeration as a datatype with its C values |
| `MemMap` | memmap.dfy | the address map table and `WellFormed`, i.e. no two regions overlap and every fixed region lies below DRAM |
| `ResetVec` | reset_vec.dfy | `SetupRomResetVec`, which fills a 10-word array and converts it in place, and the function it is proved against |
| `Topology` | topology.dfy | the socket checks of CPU creation as functions, with their order and outcome |
| `Flash` | flash.dfy | the flash block-count arithmetic and its two assertions |
| `Board` | board.dfy | `class Machine`: the board state, one method per creation phase, and `MachineInit` |

Specification functions and their methods:
- `ResetVecWords` builds the trampoline from instruction encodings.
- `SetupRomResetVec` uses the hexadecimal words of the board code and is proved equal to `ResetVecWords` after conversion.
- `Machine.CpuCreate` loops over the sockets with the board code's early exits and is proved against `Topology.CpuCreateError` and `Topology.RealizedCount`.

Ending the process is the phase `Halted(failure)`. This covers `exit(1)` in CPU creation and a failed `assert` in flash creation. Once the board is halted, each later phase does nothing, so `MachineInit` is the board code's straight-line sequence.

What the proofs show about the board code as written:
- **The reset vector never reaches the ROM.** `nutshell_setup_rom_reset_vec` (hw/riscv/nutshell.c:72-120) computes and converts the array but writes it nowhere. `MemoryCreate` returns the array the board code drops, and `romWrites` stays empty.
- **The flash assertion fails on the board's own table.** The table gives the flash 0x1000 bytes (hw/riscv/nutshell.c:65) against a 256 KiB sector (hw/riscv/nutshell.c:126). `Boot` shows that every boot whose socket layout is accepted stops at the alignment assertion (hw/riscv/nutshell.c:144-145).

Other facts of the board code that the model keeps:
- **Empty sockets.** A socket with 0 harts is accepted; only a negative hart count exits (hw/riscv/nutshell.c:224-228).
- **Phase order.** The flash is created before the UARTs (hw/riscv/nutshell.c:276-277).
- **Hart-array properties.** Each hart array gets only its CPU type, first hart id and hart count; it gets no reset-vector property (hw/riscv/nutshell.c:234-239).
- **Start address.** The trampoline's start address is the flash base, and its device tree address is 0 (hw/riscv/nutshell.c:266-268).

## Model

| member | source | states |
|---|---|---|
| `Bits.LeBytesRoundTrip` | hw/riscv/nutshell.c:116-119 | reading back the four little-endian bytes of a word gives the word |
| `Bits.FromLeBytesRoundTrip` | hw/riscv/nutshell.c:116-119 | the bytes of the word read from four bytes are those four bytes |
| `Bits.CpuToLe32` | hw/riscv/nutshell.c:118 | `cpu_to_le32`: on either host byte order, the host bytes of `cpu_to_le32(w)` are the little-endian bytes of `w` |
| `Bits.Bswap32Layout` | hw/riscv/nutshell.c:118 | on a big-endian host, the byte-swapped word is stored as the little-endian bytes of the original |
| `Bits.ReadLeImage` | hw/riscv/nutshell.c:116-119 | reading a little-endian byte image back as 32-bit words gives the original words |
| `Bits.HostImageOfConverted` | hw/riscv/nutshell.c:116-119 | on either host, the memory image of the converted array is the little-endian image of the original words |
| `Bits.LeImageWord` | hw/riscv/nutshell.c:116-119 | bytes 4k..4k+3 of the image are the little-endian bytes of word k |
| `RiscV.DecodeEncodeI` | hw/riscv/nutshell.c:87-104 | the opcode, rd, funct3, rs1 and immediate fields of an I-type encoding are the values it was built from |
| `RiscV.EncodeDecodeI` | hw/riscv/nutshell.c:87-104 | every 32-bit word is the I-type encoding of its own fields |
| `RiscV.DecodeEncodeU` | hw/riscv/nutshell.c:87 | the opcode, rd and immediate of a U-type encoding are the values it was built from |
| `NutshellDefs.Index` | include/hw/riscv/nutshell.h:46-61 | every region identifier's enumeration value is below 14 |
| `NutshellDefs.RegionIndexBijective` | include/hw/riscv/nutshell.h:46-61 | the enumeration numbers the 14 identifiers 0..13 one to one, in both directions |
| `NutshellDefs.RegionIndexInjective` | include/hw/riscv/nutshell.h:46-61 | two identifiers have the same value exactly when they are the same identifier |
| `NutshellDefs.UartIrqsValid` | include/hw/riscv/nutshell.h:35-69 | the three UART interrupts are pairwise distinct, nonzero and below the PLIC source count of 53 |
| `NutshellDefs.CpuLimitsOrdered` | include/hw/riscv/nutshell.h:13-14 | 1 <= CPU minimum <= CPU maximum |
| `NutshellDefs.PlicWindowsOrdered` | include/hw/riscv/nutshell.h:71-76 | the PLIC priority, pending, enable and context bases strictly increase |
| `MemMap.Region` | hw/riscv/nutshell.c:57-69 | the `memmap[...]` lookup: an entry is empty exactly for VGA, VMEM and DRAM; DRAM starts at 0x80000000 and every other region ends at or below it |
| `MemMap.AscendingChain` | hw/riscv/nutshell.c:57-69 | each non-empty region, in address order, ends at or below the start of the next |
| `MemMap.AscendingApart` | hw/riscv/nutshell.c:57-69 | any later region in address order starts no lower than an earlier one ends |
| `MemMap.AscendingCoversNonEmpty` | hw/riscv/nutshell.c:57-69 | every region outside the ordered list has size 0 |
| `MemMap.TableWellFormed` | hw/riscv/nutshell.c:57-69 | no two regions of the table overlap, and every non-empty fixed region ends at or below the DRAM base |
| `MemMap.MromAdjoinsSram` | hw/riscv/nutshell.c:58-59 | the mask ROM ends exactly at the SRAM base 0x20000 |
| `MemMap.PlicAdjoinsFlash` | hw/riscv/nutshell.c:64-65 | the PLIC window ends exactly at the flash base 0x40000000 |
| `MemMap.UninitializedEntriesEmpty` | hw/riscv/nutshell.c:57-69 | the VGA and VMEM entries, which have no initializer, are (0, 0) |
| `ResetVec.ResetVecWords` | hw/riscv/nutshell.c:86-105 | the trampoline has exactly 10 words |
| `ResetVec.SetupRomResetVec` | hw/riscv/nutshell.c:72-120 | the array has 10 words; it is the little-endian conversion of the words the encodings give; its memory image, read back as little-endian words on either host, is those words |
| `ResetVec.ZicsrGating` | hw/riscv/nutshell.c:107-114 | word 2 is `csrr a0, mhartid` (0xf1402573) with Zicsr and the NOP 0x13 without it; no other word depends on Zicsr |
| `ResetVec.WidthSelection` | hw/riscv/nutshell.c:86-105 | words 3 and 4 are the `lw` encodings on a 32-bit hart and the `ld` encodings otherwise; words 0, 1 and 5 are the same in every configuration |
| `ResetVec.AddressSplit` | hw/riscv/nutshell.c:78-96 | words 6 and 8 are the addresses mod 2^32; words 7 and 9 are their high halves on 64 bits and 0 on 32 bits; on 64 bits each pair recombines to the address |
| `ResetVec.AuipcFields` | hw/riscv/nutshell.c:87 | 0x00000297 is `auipc t0, 0` |
| `ResetVec.AddiFields` | hw/riscv/nutshell.c:88 | 0x02828613 is `addi a2, t0, 40` |
| `ResetVec.HartIdFields` | hw/riscv/nutshell.c:89-113 | 0xf1402573 is `csrrs a0, mhartid, x0` and 0x13 is `addi x0, x0, 0` |
| `ResetVec.LoadFdtFields` | hw/riscv/nutshell.c:100-103 | 0x0202a583 and 0x0202b583 are `lw a1, 32(t0)` and `ld a1, 32(t0)` |
| `ResetVec.LoadStartFields` | hw/riscv/nutshell.c:101-104 | 0x0182a283 and 0x0182b283 are `lw t0, 24(t0)` and `ld t0, 24(t0)` |
| `ResetVec.JumpFields` | hw/riscv/nutshell.c:92 | 0x00028067 is `jalr x0, 0(t0)`, i.e. `jr t0` |
| `ResetVec.AuipcWord` | hw/riscv/nutshell.c:87 | word 0 of every trampoline is `auipc t0, 0` |
| `ResetVec.AddiWord` | hw/riscv/nutshell.c:88 | word 1 sets `a2` to `t0` plus the trampoline's length in bytes |
| `ResetVec.HartIdWord` | hw/riscv/nutshell.c:89-114 | word 2 reads `mhartid` into `a0` with Zicsr and is `addi x0, x0, 0` without it |
| `ResetVec.LoadFdtWord` | hw/riscv/nutshell.c:99-105 | word 3 loads `a1` from offset 32 of `t0`, with `lw` on 32 bits and `ld` otherwise |
| `ResetVec.LoadStartWord` | hw/riscv/nutshell.c:99-105 | word 4 loads `t0` from offset 24 of `t0`, with `lw` on 32 bits and `ld` otherwise |
| `ResetVec.JumpWord` | hw/riscv/nutshell.c:92 | word 5 jumps to `t0` |
| `ResetVec.SelfConsistentOffsets` | hw/riscv/nutshell.c:86-105 | both loads and the jump use `t0`, the `auipc` destination; the load offsets 24 and 32 are the byte offsets of words 6 and 8; the `addi` offset 40 is the length of the vector |
| `ResetVec.ImageLayout` | hw/riscv/nutshell.c:116-119 | bytes 4k..4k+3 of the converted vector's image on either host are the little-endian bytes of trampoline word k |
| `ResetVec.BoardTrampoline` | hw/riscv/nutshell.c:266-268 | with start address 0x40000000 and device tree address 0, words 6..9 are 0x40000000, 0, 0, 0; image bytes 24..31 are 00 00 00 40 00 00 00 00; bytes 8..11 are the `csrr` word with Zicsr and the NOP without it |
| `Topology.SocketCheck` | hw/riscv/nutshell.c:213-228 | a socket yields no error exactly when its hart ids are contiguous and its first hart id and hart count are non-negative |
| `Topology.CpuCreateError` | hw/riscv/nutshell.c:205-241 | the error CPU creation exits with: the socket-count error exactly when there are more than 8 sockets, and no error exactly when there are at most 8 and every socket passes all three checks |
| `Topology.RealizedCount` | hw/riscv/nutshell.c:205-241 | the number of hart arrays built: at most the socket count and 8; every socket below it passed; on at most 8 sockets, the socket at it, if any, failed a check |
| `Topology.FirstFailing` | hw/riscv/nutshell.c:212-241 | the index found has every socket before it passing all checks, and the socket at it failing one |
| `Topology.TooManySocketsExitsFirst` | hw/riscv/nutshell.c:205-209 | more than 8 sockets exits with the socket-count error before any hart array is built |
| `Topology.AcceptedIff` | hw/riscv/nutshell.c:205-241 | the layout is accepted exactly when there are at most 8 sockets and every socket passes all three checks; then every socket is built |
| `Topology.FirstFailureReported` | hw/riscv/nutshell.c:212-241 | when socket k is the first to fail, the board exits with socket k's error, after building exactly sockets 0..k-1 |
| `Topology.CheckOrder` | hw/riscv/nutshell.c:213-228 | the hart-id contiguity check comes first, then the first-hart-id check, then the hart-count check |
| `Topology.RealizedPrefix` | hw/riscv/nutshell.c:205-241 | at most min(socket count, 8) hart arrays are built, all for sockets that passed, and every error names the first socket not built |
| `Topology.ZeroHartsAccepted` | hw/riscv/nutshell.c:224-228 | a socket with 0 harts is not rejected |
| `Topology.FullSocketsAccepted` | hw/riscv/nutshell.c:205-209 | exactly 8 valid sockets are accepted and all 8 are built |
| `Topology.GapRejected` | hw/riscv/nutshell.c:213-216 | a single socket with discontiguous hart ids exits on socket 0 with nothing built |
| `Flash.NumBlocks` | hw/riscv/nutshell.c:144-148 | a block count is produced exactly when the size is a multiple of the sector and the quotient fits a `uint32_t`, and it times the sector is the size; each assertion failure is reported exactly when it occurs |
| `Flash.NumBlocksRoundTrip` | hw/riscv/nutshell.c:144-148 | every `uint32_t` block count is recovered from the size of that many 256 KiB sectors |
| `Flash.TableFlashMisaligned` | hw/riscv/nutshell.c:126-145 | the table's 0x1000-byte flash against 0x40000-byte sectors fails the alignment assertion |
| `Flash.TooManyBlocksExample` | hw/riscv/nutshell.c:146 | 2^32 sectors fail the block-count assertion and 2^32 - 1 sectors pass it |
| `Board.MemoryRegionsDisjoint` | hw/riscv/nutshell.c:251-264 | in a well-formed map, DRAM of any size, SRAM and the mask ROM are pairwise disjoint |
| `Board.MappedRegionsDisjoint` | hw/riscv/nutshell.c:251-264 | in a well-formed map, DRAM of any size, SRAM, the mask ROM and the flash are pairwise disjoint |
| `Board.Machine.CpuCreate` | hw/riscv/nutshell.c:200-242 | the board goes on exactly when the layout is accepted; otherwise it halts with the first error and the count of sockets built; slots below that count hold the socket's hart array and the rest are unchanged |
| `Board.Machine.InterruptControllerCreate` | hw/riscv/nutshell.c:156-182 | the ACLINT software interrupts are at the CLINT base, for all CPUs from hart 0, not in supervisor mode; the PLIC is created with its window, the CPU count and the header's PLIC parameters; a halted board is unchanged |
| `Board.Machine.MemoryCreate` | hw/riscv/nutshell.c:244-269 | DRAM of the RAM size, SRAM and the mask ROM are mapped at their bases, pairwise disjoint; the reset vector is built for the first hart array with the flash base and device tree address 0; nothing is written into the ROM |
| `Board.Machine.FlashCreate` | hw/riscv/nutshell.c:122-154 | the flash gets 256 KiB sectors; if the geometry assertions hold it gets the block count and is mapped at the flash base, otherwise the board halts with the failed assertion and nothing is mapped |
| `Board.Machine.SerialCreate` | hw/riscv/nutshell.c:184-198 | three UARTs at the UART bases, on IRQs 10, 11 and 12, each a valid input of the existing PLIC |
| `Board.Machine.MachineInit` | hw/riscv/nutshell.c:272-278 | the phases run in order. On every outcome, each hart-array slot below the built count holds its socket's hart array and the others are unchanged. An accepted layout gets the ACLINT, the PLIC and the flash device as their phases create them. The board comes up exactly when the layout is accepted and the flash geometry holds. Each way of halting leaves exactly the regions mapped and devices created before it |
| `Board.Boot` | hw/riscv/nutshell.c:272-278 | on the board's own table every boot halts: either at the socket checks, or at the flash alignment assertion with DRAM, SRAM and the ROM mapped; the ROM is never written |

## Left out

- QOM type registration and the machine class setup (hw/riscv/nutshell.c:282-311). They register the board and give it its CPU limits and callbacks. They have no behaviour to state beyond the constants in `NutshellDefs`.
- The NUMA helpers `riscv_socket_count`, `riscv_socket_check_hartids`, `riscv_socket_first_hartid` and `riscv_socket_hart_count`. Their code is not part of this model. Their answers are inputs, one `SocketInfo` per socket. The socket count is at least 1, as the NUMA layer reports.
- The hart-array realization itself (creating the harts, `sysbus_realize`). It is recorded only as the `Realized(cpu type, hartid base, hart count)` value of the slot.
- `riscv_is_32bit` and `harts[0].cfg.ext_zicsr`. These are taken from the CPU type as two booleans. The model does not capture that a socket 0 with no harts makes the board code read the first hart of an empty array.
- Board.Machine.InterruptControllerCreate: does not model the machine-timer part of the ACLINT or the PLIC hart-configuration string. Their sizes and format come from code that is not part of this model (`RISCV_ACLINT_SWI_SIZE`, `riscv_plic_hart_config_string`, `sifive_plic_create`).
- Board.Machine.SerialCreate: does not model the UART regions that `serial_mm_init` maps into the address space, because their size is set inside the serial device. Nor does it model the host character devices `serial_hd(i)` attached to the UARTs, because they are host I/O.
- Board.Machine.FlashCreate: does not model the flash device's width, device width, endianness and identifier properties. Nor does it model the backing drive (`pflash_cfi01_legacy_drive`, `drive_get`), because these are device and host I/O internals. The mapped region is given the table's flash size.
- The memory regions' host-side allocation (`memory_region_init_ram`, `memory_region_init_rom`) and the global system address space. These become the list `sysmem` of mapped `(region, base, size, kind)` entries. Region names are replaced by the map entry each region comes from.
- `error_report` messages. The `CpuError` value carries the same information: which check failed and on which socket.
- Device-tree and kernel loading. The board code does neither, and the reset vector's `kernel_entry`, `rom_base` and `rom_size` arguments are unused.
