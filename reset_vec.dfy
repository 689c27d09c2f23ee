/**
  The boot trampoline the NutShell board synthesises for the mask ROM:
  ten 32-bit words, of which six are instructions and four hold the
  start address and the device-tree address as two 64-bit slots.

      0: auipc t0, 0           t0 := address of the trampoline
      1: addi  a2, t0, 40      a2 := address just past it
      2: csrr  a0, mhartid     a0 := hart id  (a NOP without Zicsr)
      3: lw/ld a1, 32(t0)      a1 := device-tree address (words 8, 9)
      4: lw/ld t0, 24(t0)      t0 := start address (words 6, 7)
      5: jr    t0
      6, 7: start address, low and high halves
      8, 9: device-tree address, low and high halves
 */
module ResetVec {
  import opened Bits
  import opened RiscV

  const RESET_VEC_WORDS: nat := 10

  /** What the trampoline needs to know about the primary hart array. */
  datatype HartConfig = HartConfig(is32: bool, zicsr: bool)

  /** Conversion of a 64-bit address to a `uint32_t`: truncation. */
  function Lo32(x: u64): u32 { x % 0x1_0000_0000 }

  /** A 64-bit address shifted right by 32. */
  function Hi32(x: u64): u32 { x / 0x1_0000_0000 }

  /** `lw` on a 32-bit hart, `ld` otherwise. */
  function LoadFunct3(is32: bool): nat { if is32 then F3_LW else F3_LD }

  /** The trampoline, built from the instruction encodings rather than
      from hexadecimal constants. */
  function ResetVecWords(hart: HartConfig, startAddr: u64, fdtLoadAddr: u64): (r: seq<u32>)
    ensures |r| == RESET_VEC_WORDS
  {
    [ EncodeU(OP_AUIPC, T0, 0),
      EncodeI(OP_IMM, A2, F3_ADDI, T0, 4 * RESET_VEC_WORDS),
      if hart.zicsr then EncodeI(OP_SYSTEM, A0, F3_CSRRS, X0, CSR_MHARTID) else Nop(),
      EncodeI(OP_LOAD, A1, LoadFunct3(hart.is32), T0, 4 * 8),
      EncodeI(OP_LOAD, T0, LoadFunct3(hart.is32), T0, 4 * 6),
      EncodeI(OP_JALR, X0, F3_JALR, T0, 0),
      Lo32(startAddr), if hart.is32 then 0 else Hi32(startAddr),
      Lo32(fdtLoadAddr), if hart.is32 then 0 else Hi32(fdtLoadAddr) ]
  }

  /** Synthesises the trampoline in `resetVec` and converts it in place to
      little-endian byte order, as a host of byte order `host` stores it.
      `romBase`, `romSize` and `kernelEntry` are accepted and unused, and
      the array is not copied anywhere, exactly as in the board code. */
  method SetupRomResetVec(hart: HartConfig, startAddr: u64, romBase: u64, romSize: u64,
                          kernelEntry: u64, fdtLoadAddr: u64, host: Endian)
    returns (resetVec: array<u32>)
    ensures resetVec.Length == RESET_VEC_WORDS
    ensures resetVec[..] == ToLe32(host, ResetVecWords(hart, startAddr, fdtLoadAddr))
    ensures ReadLeWords(HostImage(host, resetVec[..])) == ResetVecWords(hart, startAddr, fdtLoadAddr)
  {
    var startAddrHi32: u32 := 0;
    var fdtLoadAddrHi32: u32 := 0;
    if !hart.is32 {
      startAddrHi32 := startAddr / 0x1_0000_0000;
      fdtLoadAddrHi32 := fdtLoadAddr / 0x1_0000_0000;
    }
    resetVec := new u32[RESET_VEC_WORDS] [
      0x00000297,
      0x02828613,
      0xf1402573,
      0,
      0,
      0x00028067,
      startAddr % 0x1_0000_0000,
      startAddrHi32,
      fdtLoadAddr % 0x1_0000_0000,
      fdtLoadAddrHi32
    ];
    if hart.is32 {
      resetVec[3] := 0x0202a583;
      resetVec[4] := 0x0182a283;
    } else {
      resetVec[3] := 0x0202b583;
      resetVec[4] := 0x0182b283;
    }
    if !hart.zicsr {
      resetVec[2] := 0x00000013;
    }
    ghost var words := resetVec[..];
    assert words == ResetVecWords(hart, startAddr, fdtLoadAddr);

    for i := 0 to resetVec.Length
      invariant forall k :: 0 <= k < i ==> resetVec[k] == CpuToLe32(host, words[k])
      invariant forall k :: i <= k < resetVec.Length ==> resetVec[k] == words[k]
    {
      resetVec[i] := CpuToLe32(host, resetVec[i]);
    }
    assert resetVec[..] == ToLe32(host, words);
    HostImageOfConverted(host, words);
    ReadLeImage(words);
  }

  /** Word 2 reads the hart id with Zicsr and is a NOP without it; no other
      word depends on the Zicsr flag. */
  lemma ZicsrGating(is32: bool, startAddr: u64, fdtLoadAddr: u64)
    ensures ResetVecWords(HartConfig(is32, true), startAddr, fdtLoadAddr)[2] == 0xf1402573
    ensures ResetVecWords(HartConfig(is32, false), startAddr, fdtLoadAddr)[2] == 0x00000013
    ensures forall k :: 0 <= k < RESET_VEC_WORDS && k != 2 ==>
      ResetVecWords(HartConfig(is32, true), startAddr, fdtLoadAddr)[k]
        == ResetVecWords(HartConfig(is32, false), startAddr, fdtLoadAddr)[k]
  {
  }

  /** The two loads are `lw` on a 32-bit hart and `ld` otherwise; words 0,
      1 and 5 are the same in every configuration. */
  lemma WidthSelection(hart: HartConfig, startAddr: u64, fdtLoadAddr: u64)
    ensures var r := ResetVecWords(hart, startAddr, fdtLoadAddr);
      && (hart.is32 ==> r[3] == 0x0202a583 && r[4] == 0x0182a283)
      && (!hart.is32 ==> r[3] == 0x0202b583 && r[4] == 0x0182b283)
      && r[0] == 0x00000297 && r[1] == 0x02828613 && r[5] == 0x00028067
  {
  }

  /** Words 6 and 8 are the truncated addresses; words 7 and 9 their high
      halves on a 64-bit hart and 0 on a 32-bit one. On a 64-bit hart each
      pair of words is the 64-bit address, low half first. */
  lemma AddressSplit(hart: HartConfig, startAddr: u64, fdtLoadAddr: u64)
    ensures var r := ResetVecWords(hart, startAddr, fdtLoadAddr);
      && r[6] == startAddr % 0x1_0000_0000 && r[8] == fdtLoadAddr % 0x1_0000_0000
      && r[7] == (if hart.is32 then 0 else startAddr / 0x1_0000_0000)
      && r[9] == (if hart.is32 then 0 else fdtLoadAddr / 0x1_0000_0000)
      && (!hart.is32 ==>
            r[6] as int + 0x1_0000_0000 * (r[7] as int) == startAddr
            && r[8] as int + 0x1_0000_0000 * (r[9] as int) == fdtLoadAddr)
  {
  }

  /** The board code's hexadecimal words decode to the instructions its
      comments name: `auipc t0, 0`, ... */
  lemma AuipcFields()
    ensures var w: u32 := 0x00000297;
      Opcode(w) == OP_AUIPC && Rd(w) == T0 && ImmU(w) == 0
  {
  }

  /** ... `addi a2, t0, 40`, ... */
  lemma AddiFields()
    ensures var w: u32 := 0x02828613;
      Opcode(w) == OP_IMM && Funct3(w) == F3_ADDI && Rd(w) == A2 && Rs1(w) == T0
      && OffsetI(w) == 0x28
  {
  }

  /** ... `csrr a0, mhartid` (`csrrs a0, mhartid, x0`) and `addi x0, x0, 0`, ... */
  lemma HartIdFields()
    ensures var w: u32 := 0xf1402573;
      Opcode(w) == OP_SYSTEM && Funct3(w) == F3_CSRRS && Rd(w) == A0 && Rs1(w) == X0
      && ImmI(w) == CSR_MHARTID
    ensures var w: u32 := 0x00000013;
      Opcode(w) == OP_IMM && Funct3(w) == F3_ADDI && Rd(w) == X0 && Rs1(w) == X0
      && ImmI(w) == 0
  {
  }

  /** ... `lw`/`ld a1, 32(t0)`, ... */
  lemma LoadFdtFields()
    ensures var w: u32 := 0x0202a583;
      Opcode(w) == OP_LOAD && Funct3(w) == F3_LW && Rd(w) == A1 && Rs1(w) == T0 && OffsetI(w) == 32
    ensures var w: u32 := 0x0202b583;
      Opcode(w) == OP_LOAD && Funct3(w) == F3_LD && Rd(w) == A1 && Rs1(w) == T0 && OffsetI(w) == 32
  {
  }

  /** ... `lw`/`ld t0, 24(t0)`, ... */
  lemma LoadStartFields()
    ensures var w: u32 := 0x0182a283;
      Opcode(w) == OP_LOAD && Funct3(w) == F3_LW && Rd(w) == T0 && Rs1(w) == T0 && OffsetI(w) == 24
    ensures var w: u32 := 0x0182b283;
      Opcode(w) == OP_LOAD && Funct3(w) == F3_LD && Rd(w) == T0 && Rs1(w) == T0 && OffsetI(w) == 24
  {
  }

  /** ... and `jr t0` (`jalr x0, 0(t0)`). */
  lemma JumpFields()
    ensures var w: u32 := 0x00028067;
      Opcode(w) == OP_JALR && Funct3(w) == F3_JALR && Rd(w) == X0 && Rs1(w) == T0
      && OffsetI(w) == 0
  {
  }

  /** Word 0 is `auipc t0, 0`. */
  lemma AuipcWord(hart: HartConfig, startAddr: u64, fdtLoadAddr: u64)
    ensures var r := ResetVecWords(hart, startAddr, fdtLoadAddr);
      Opcode(r[0]) == OP_AUIPC && Rd(r[0]) == T0 && ImmU(r[0]) == 0
  {
    assert ResetVecWords(hart, startAddr, fdtLoadAddr)[0] == 0x00000297;
    AuipcFields();
  }

  /** Word 1 is `addi a2, t0, 40`. */
  lemma AddiWord(hart: HartConfig, startAddr: u64, fdtLoadAddr: u64)
    ensures var r := ResetVecWords(hart, startAddr, fdtLoadAddr);
      && Opcode(r[1]) == OP_IMM && Funct3(r[1]) == F3_ADDI && Rd(r[1]) == A2 && Rs1(r[1]) == T0
      && OffsetI(r[1]) == 4 * RESET_VEC_WORDS
  {
    assert ResetVecWords(hart, startAddr, fdtLoadAddr)[1] == 0x02828613;
    AddiFields();
  }

  /** Word 2 is `csrr a0, mhartid` with Zicsr and `addi x0, x0, 0` without it. */
  lemma HartIdWord(hart: HartConfig, startAddr: u64, fdtLoadAddr: u64)
    ensures var r := ResetVecWords(hart, startAddr, fdtLoadAddr);
      && (hart.zicsr ==> Opcode(r[2]) == OP_SYSTEM && Funct3(r[2]) == F3_CSRRS
                         && Rd(r[2]) == A0 && Rs1(r[2]) == X0 && ImmI(r[2]) == CSR_MHARTID)
      && (!hart.zicsr ==> Opcode(r[2]) == OP_IMM && Funct3(r[2]) == F3_ADDI
                          && Rd(r[2]) == X0 && Rs1(r[2]) == X0 && ImmI(r[2]) == 0)
  {
    var r := ResetVecWords(hart, startAddr, fdtLoadAddr);
    if hart.zicsr {
      assert r[2] == EncodeI(OP_SYSTEM, A0, F3_CSRRS, X0, CSR_MHARTID) == 0xf1402573;
    } else {
      assert r[2] == Nop() == 0x00000013;
    }
    HartIdFields();
  }

  /** Word 3 loads `a1` from offset 32 of `t0`, with `lw` on a 32-bit hart
      and `ld` otherwise. */
  lemma LoadFdtWord(hart: HartConfig, startAddr: u64, fdtLoadAddr: u64)
    ensures var r := ResetVecWords(hart, startAddr, fdtLoadAddr);
      && Opcode(r[3]) == OP_LOAD && Funct3(r[3]) == (if hart.is32 then F3_LW else F3_LD)
      && Rd(r[3]) == A1 && Rs1(r[3]) == T0 && OffsetI(r[3]) == 4 * 8
  {
    assert ResetVecWords(hart, startAddr, fdtLoadAddr)[3] == if hart.is32 then 0x0202a583 else 0x0202b583;
    LoadFdtFields();
  }

  /** Word 4 loads `t0` from offset 24 of `t0`, with `lw` on a 32-bit hart
      and `ld` otherwise. */
  lemma LoadStartWord(hart: HartConfig, startAddr: u64, fdtLoadAddr: u64)
    ensures var r := ResetVecWords(hart, startAddr, fdtLoadAddr);
      && Opcode(r[4]) == OP_LOAD && Funct3(r[4]) == (if hart.is32 then F3_LW else F3_LD)
      && Rd(r[4]) == T0 && Rs1(r[4]) == T0 && OffsetI(r[4]) == 4 * 6
  {
    assert ResetVecWords(hart, startAddr, fdtLoadAddr)[4] == if hart.is32 then 0x0182a283 else 0x0182b283;
    LoadStartFields();
  }

  /** Word 5 is `jr t0`. */
  lemma JumpWord(hart: HartConfig, startAddr: u64, fdtLoadAddr: u64)
    ensures var r := ResetVecWords(hart, startAddr, fdtLoadAddr);
      Opcode(r[5]) == OP_JALR && Funct3(r[5]) == F3_JALR && Rd(r[5]) == X0 && Rs1(r[5]) == T0
      && OffsetI(r[5]) == 0
  {
    assert ResetVecWords(hart, startAddr, fdtLoadAddr)[5] == 0x00028067;
    JumpFields();
  }

  /** The trampoline's offsets agree with its own layout: both loads and
      the jump go through `t0`, the register `auipc` sets; the loads read
      the slots at words 6 and 8; and `a2` is set just past the last word. */
  lemma SelfConsistentOffsets(hart: HartConfig, startAddr: u64, fdtLoadAddr: u64)
    ensures var r := ResetVecWords(hart, startAddr, fdtLoadAddr);
      && Rd(r[0]) == T0 && Rs1(r[3]) == T0 && Rs1(r[4]) == T0 && Rs1(r[5]) == T0
      && OffsetI(r[4]) == 4 * 6 && OffsetI(r[3]) == 4 * 8
      && Rs1(r[1]) == T0 && OffsetI(r[1]) == 4 * |r|
  {
    AuipcWord(hart, startAddr, fdtLoadAddr);
    AddiWord(hart, startAddr, fdtLoadAddr);
    LoadFdtWord(hart, startAddr, fdtLoadAddr);
    LoadStartWord(hart, startAddr, fdtLoadAddr);
    JumpWord(hart, startAddr, fdtLoadAddr);
  }

  /** The 40-byte image of the converted vector in host memory, whatever
      the host's byte order: bytes 4k..4k+3 are word k, least significant
      byte first, so bytes 8..11 hold the hart-id read or the NOP and bytes
      24..31 the start address. */
  lemma ImageLayout(hart: HartConfig, startAddr: u64, fdtLoadAddr: u64, host: Endian, k: nat)
    requires k < RESET_VEC_WORDS
    ensures var r := ResetVecWords(hart, startAddr, fdtLoadAddr);
      && |HostImage(host, ToLe32(host, r))| == 40
      && HostImage(host, ToLe32(host, r))[4 * k .. 4 * k + 4] == LeBytes(r[k])
  {
    var r := ResetVecWords(hart, startAddr, fdtLoadAddr);
    HostImageOfConverted(host, r);
    LeImageWord(r, k);
  }

  /** The board's own call: start address = flash base 0x40000000 and
      device-tree address 0. Words 6..9 are 0x40000000, 0, 0, 0, and
      bytes 24..31 of the image are 00 00 00 40 00 00 00 00. */
  lemma BoardTrampoline(hart: HartConfig)
    ensures var r := ResetVecWords(hart, 0x40000000, 0);
      && r[6..] == [0x40000000, 0, 0, 0]
      && LeImage(r)[24..32] == [0, 0, 0, 0x40, 0, 0, 0, 0]
      && (hart.zicsr ==> LeImage(r)[8..12] == [0x73, 0x25, 0x40, 0xf1])
      && (!hart.zicsr ==> LeImage(r)[8..12] == [0x13, 0, 0, 0])
  {
    var r := ResetVecWords(hart, 0x40000000, 0);
    assert r[6] == 0x40000000 && r[7] == 0 && r[8] == 0 && r[9] == 0;
    assert r[2] == if hart.zicsr then 0xf1402573 else 0x00000013;
    LeImageWord(r, 2);
    LeImageWord(r, 6);
    LeImageWord(r, 7);
    assert LeBytes(0x40000000) == [0, 0, 0, 0x40];
    assert LeBytes(0) == [0, 0, 0, 0];
    assert LeBytes(0xf1402573) == [0x73, 0x25, 0x40, 0xf1];
    assert LeBytes(0x00000013) == [0x13, 0, 0, 0];
    assert LeImage(r)[24..32] == LeImage(r)[24..28] + LeImage(r)[28..32];
  }
}
