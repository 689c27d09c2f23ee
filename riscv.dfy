/**
  The few RISC-V instruction formats the boot trampoline uses, after the
  RISC-V Unprivileged ISA, version 20191213: the I-type format of
  section 2.2 (immediate in bits 31:20, rs1 in 19:15, funct3 in 14:12, rd
  in 11:7, opcode in 6:0) and the U-type format of section 2.2 (immediate
  in bits 31:12).
 */
module RiscV {
  import opened Bits

  type Reg = r: int | 0 <= r < 32

  /** Integer registers by their ABI names. */
  const X0: Reg := 0
  const T0: Reg := 5
  const A0: Reg := 10
  const A1: Reg := 11
  const A2: Reg := 12

  /** Major opcodes: LOAD (sections 2.6 and 5.3), OP-IMM and AUIPC
      (section 2.4), JALR (section 2.5), SYSTEM (chapter 9). */
  const OP_LOAD: nat := 0x03
  const OP_IMM: nat := 0x13
  const OP_AUIPC: nat := 0x17
  const OP_JALR: nat := 0x67
  const OP_SYSTEM: nat := 0x73

  /** funct3 values: ADDI, LW (32-bit load), LD (64-bit load, RV64 only),
      CSRRS, JALR. */
  const F3_ADDI: nat := 0
  const F3_LW: nat := 2
  const F3_LD: nat := 3
  const F3_CSRRS: nat := 2
  const F3_JALR: nat := 0

  /** The `mhartid` CSR number (section 3.1.5 of the RISC-V Privileged
      Architecture). */
  const CSR_MHARTID: nat := 0xF14

  /** An I-type instruction; `imm` is the raw 12-bit field. */
  function EncodeI(opcode: nat, rd: Reg, funct3: nat, rs1: Reg, imm: nat): u32
    requires opcode < 0x80 && funct3 < 8 && imm < 0x1000
  {
    imm * 0x10_0000 + rs1 * 0x8000 + funct3 * 0x1000 + rd * 0x80 + opcode
  }

  /** A U-type instruction; `imm` is the raw 20-bit field. */
  function EncodeU(opcode: nat, rd: Reg, imm: nat): u32
    requires opcode < 0x80 && imm < 0x10_0000
  {
    imm * 0x1000 + rd * 0x80 + opcode
  }

  function Opcode(w: u32): nat { w % 0x80 }
  function Rd(w: u32): Reg { w / 0x80 % 0x20 }
  function Funct3(w: u32): nat { w / 0x1000 % 8 }
  function Rs1(w: u32): Reg { w / 0x8000 % 0x20 }
  /** The raw 12-bit I-type immediate field. */
  function ImmI(w: u32): nat { w / 0x10_0000 }
  /** The raw 20-bit U-type immediate field. */
  function ImmU(w: u32): nat { w / 0x1000 }

  /** The I-type immediate as the instruction uses it: sign-extended. */
  function OffsetI(w: u32): int
  {
    if ImmI(w) < 0x800 then ImmI(w) else ImmI(w) - 0x1000
  }

  /** `addi x0, x0, 0`, the canonical NOP (section 2.4). */
  function Nop(): u32
  {
    EncodeI(OP_IMM, X0, F3_ADDI, X0, 0)
  }

  /** The fields of an encoded I-type instruction are the ones it was built from. */
  lemma DecodeEncodeI(opcode: nat, rd: Reg, funct3: nat, rs1: Reg, imm: nat)
    requires opcode < 0x80 && funct3 < 8 && imm < 0x1000
    ensures var w := EncodeI(opcode, rd, funct3, rs1, imm);
      Opcode(w) == opcode && Rd(w) == rd && Funct3(w) == funct3
      && Rs1(w) == rs1 && ImmI(w) == imm
  {
    var w := EncodeI(opcode, rd, funct3, rs1, imm);
    assert w / 0x80 == imm * 0x2000 + rs1 * 0x100 + funct3 * 0x20 + rd;
    assert w / 0x1000 == imm * 0x100 + rs1 * 8 + funct3;
    assert w / 0x8000 == imm * 0x20 + rs1;
  }

  /** Every word is the I-type encoding of its own fields. */
  lemma EncodeDecodeI(w: u32)
    ensures Opcode(w) < 0x80 && Funct3(w) < 8 && ImmI(w) < 0x1000
    ensures EncodeI(Opcode(w), Rd(w), Funct3(w), Rs1(w), ImmI(w)) == w
  {
    var q7 := w / 0x80;
    var q12 := w / 0x1000;
    var q15 := w / 0x8000;
    assert q12 == q7 / 0x20;
    assert q15 == q12 / 8;
    assert ImmI(w) == q15 / 0x20;
  }

  /** The fields of an encoded U-type instruction are the ones it was built from. */
  lemma DecodeEncodeU(opcode: nat, rd: Reg, imm: nat)
    requires opcode < 0x80 && imm < 0x10_0000
    ensures var w := EncodeU(opcode, rd, imm);
      Opcode(w) == opcode && Rd(w) == rd && ImmU(w) == imm
  {
    var w := EncodeU(opcode, rd, imm);
    assert w / 0x80 == imm * 0x20 + rd;
  }
}
