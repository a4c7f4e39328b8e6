/**
 * The opcode strategies (`dop_*`), the 256-entry dispatch table `dop_list`
 * and the prefix-unwinding decoder of `e86_disasm`, as pure functions of
 * the byte window and the 16-bit instruction pointer.
 */
module Opcodes {
  import opened Hex
  import opened Operands

  /**
   * One decoded instruction: the mnemonic (`op`), the operands in use
   * (`arg1`, `arg2`, the first `arg_n` of them) and the length (`dat_n`).
   */
  datatype Instr = Instr(op: string, args: seq<string>, len: nat)

  /** The immediate that follows the ModRM operand in the 80-83 group. */
  datatype ImmKind = Imm8Kind | Imm16Kind | SImm8Kind

  type Idx4 = k: nat | k < 4
  type Idx6 = k: nat | k < 6

  /** The constant operands of a one-byte handler: the record has room for two. */
  type FixedArgs = a: seq<string> | |a| <= 2

  /**
   * A decode strategy: one variant per handler family of the source, with
   * the mnemonic or width the handler passes on.
   */
  datatype Strategy =
    | Ud                                   // dop_ud: one data byte
    | EaReg(w: Width, mn: string)          // dop_ea8_reg8, dop_ea16_reg16
    | RegEa(w: Width, mn: string)          // dop_reg8_ea8, dop_reg16_ea16
    | EaOp(w: Width, mn: string)           // dop_ea8, dop_ea16 (8F)
    | AccImm(w: Width, mn: string)         // AL, imm8 / AX, imm16 (04, 05, ..., A8, A9, E4)
    | OutImm                               // dop_e6: OUT imm8, AL
    | Fixed(mn: string, fixedArgs: FixedArgs)  // one byte, constant operands
    | RegOp(mn: string)                    // dop_40, dop_48, dop_50, dop_58: reg16 in bits 0-2
    | XchgAx                               // dop_91
    | MovRegImm(w: Width)                  // dop_b0, dop_b8
    | AccMem(w: Width, store: bool)        // dop_a0 - dop_a3
    | Imm8Op(mn: string)                   // dop_cd, dop_d4
    | Imm16Op(mn: string)                  // dop_c2, dop_ca
    | Far(mn: string)                      // dop_9a, dop_ea: imm32
    | Jcc                                  // dop_70: d_tab_70[opcode & 15]
    | Loop(k: Idx4)                        // dop_e0 at 0xE0 + k: d_tab_e0[k]
    | ShortJmp                             // dop_eb
    | NearRel(mn: string)                  // dop_e8, dop_e9
    | Group1(w: Width, imm: ImmKind)       // dop_80, dop_81, dop_83
    | EaSreg                               // dop_8c: MOV r/m16, sreg
    | SregEa                               // dop_8e: MOV sreg, r/m16
    | MovEaImm(w: Width)                   // dop_c6, dop_c7
    | Shift(w: Width, byCl: bool)          // dop_d0 - dop_d3
    | Group3(w: Width)                     // dop_f6, dop_f7
    | Group4                               // dop_fe
    | Group5                               // dop_ff
    | Flag(f: Idx6)                        // dop_f8 at 0xF8 + f: d_tab_f8[f]
    | Prefix(text: string)                 // dop_26, dop_2e, dop_36, dop_f2, dop_f3

  const JccNames: seq<string> := [
    "JO", "JNO", "JC", "JNC", "JZ", "JNZ", "JBE", "JA",
    "JS", "JNS", "JPE", "JPO", "JL", "JGE", "JLE", "JG"
  ]

  /** d_tab_80: the 80-83 group, selected by the reg field. */
  const Group1Names: seq<string> := ["ADD", "OR", "ADC", "SBB", "AND", "SUB", "XOR", "CMP"]

  /**
   * d_tab_d0 and d_tab_d2 (two identical tables in the source). Slot 6 is
   * "???" as written, not a data byte.
   */
  const ShiftNames: seq<string> := ["ROL", "ROR", "RCL", "RCR", "SHL", "SHR", "???", "SAR"]

  const LoopNames: seq<string> := ["LOOPNZ", "LOOPZ", "LOOP", "JCXZ"]

  const FlagNames: seq<string> := ["CLC", "STC", "CLI", "STI", "CLD", "STD"]

  /** The F6/F7 group from reg field 2 on (0 is TEST with an immediate, 1 a data byte). */
  const Group3Names: seq<string> := ["NOT", "NEG", "MUL", "IMUL", "DIV", "IDIV"]

  /** The FF group, reg fields 0-6; FE uses the first two. */
  const Group5Names: seq<string> := ["INC", "DEC", "CALL", "CALLF", "JMP", "JMPF", "PUSH"]

  /** The opcode slots of the table that hold dop_ud. */
  predicate IsUdSlot(b: byte)
  {
    || b == 0x2F || b == 0x37 || b == 0x3E || b == 0x3F
    || 0x60 <= b < 0x70
    || b == 0x84 || b == 0x85 || b == 0x9B || b == 0xAE || b == 0xAF
    || b == 0xC0 || b == 0xC1 || b == 0xC8 || b == 0xC9 || b == 0xCC || b == 0xCE
    || b == 0xD5 || b == 0xD6 || 0xD8 <= b < 0xE0
    || b == 0xE5 || b == 0xE7 || b == 0xED || b == 0xEF
    || b == 0xF0 || b == 0xF1 || b == 0xF4
  }

  /** The text each prefix puts in front of the mnemonic. */
  function PrefixMnemonic(b: byte): string
    requires IsPrefix(b)
  {
    if b == 0x26 then "ES: "
    else if b == 0x2E then "CS: "
    else if b == 0x36 then "SS: "
    else if b == 0xF2 then "REPNE "
    else "REP "
  }

  /**
   * dop_list. Quirks kept as written: 0x0F decodes as POP CS, 0x27 (DAA)
   * as SUB without operands, 0x3E has no DS: prefix handler and decodes as
   * a data byte, and 0x82 reuses the 0x80 handler.
   */
  function DopList(opc: byte): Strategy
  {
    var row: seq<Strategy> :=
      match opc / 8
      case 0 => /* 00 */
        [EaReg(Byte, "ADD"), EaReg(Word, "ADD"), RegEa(Byte, "ADD"), RegEa(Word, "ADD"),
         AccImm(Byte, "ADD"), AccImm(Word, "ADD"), Fixed("PUSH", ["ES"]), Fixed("POP", ["ES"])]
      case 1 => /* 08 */
        [EaReg(Byte, "OR"), EaReg(Word, "OR"), RegEa(Byte, "OR"), RegEa(Word, "OR"),
         AccImm(Byte, "OR"), AccImm(Word, "OR"), Fixed("PUSH", ["CS"]), Fixed("POP", ["CS"])]
      case 2 => /* 10 */
        [EaReg(Byte, "ADC"), EaReg(Word, "ADC"), RegEa(Byte, "ADC"), RegEa(Word, "ADC"),
         AccImm(Byte, "ADC"), AccImm(Word, "ADC"), Fixed("PUSH", ["SS"]), Fixed("POP", ["SS"])]
      case 3 => /* 18 */
        [EaReg(Byte, "SBB"), EaReg(Word, "SBB"), RegEa(Byte, "SBB"), RegEa(Word, "SBB"),
         AccImm(Byte, "SBB"), AccImm(Word, "SBB"), Fixed("PUSH", ["DS"]), Fixed("POP", ["DS"])]
      case 4 => /* 20 */
        [EaReg(Byte, "AND"), EaReg(Word, "AND"), RegEa(Byte, "AND"), RegEa(Word, "AND"),
         AccImm(Byte, "AND"), AccImm(Word, "AND"), Prefix("ES: "), Fixed("SUB", [])]
      case 5 => /* 28 */
        [EaReg(Byte, "SUB"), EaReg(Word, "SUB"), RegEa(Byte, "SUB"), RegEa(Word, "SUB"),
         AccImm(Byte, "SUB"), AccImm(Word, "SUB"), Prefix("CS: "), Ud]
      case 6 => /* 30 */
        [EaReg(Byte, "XOR"), EaReg(Word, "XOR"), RegEa(Byte, "XOR"), RegEa(Word, "XOR"),
         AccImm(Byte, "XOR"), AccImm(Word, "XOR"), Prefix("SS: "), Ud]
      case 7 => /* 38 */
        [EaReg(Byte, "CMP"), EaReg(Word, "CMP"), RegEa(Byte, "CMP"), RegEa(Word, "CMP"),
         AccImm(Byte, "CMP"), AccImm(Word, "CMP"), Ud, Ud]
      case 8 => /* 40 */
        [RegOp("INC"), RegOp("INC"), RegOp("INC"), RegOp("INC"),
         RegOp("INC"), RegOp("INC"), RegOp("INC"), RegOp("INC")]
      case 9 => /* 48 */
        [RegOp("DEC"), RegOp("DEC"), RegOp("DEC"), RegOp("DEC"),
         RegOp("DEC"), RegOp("DEC"), RegOp("DEC"), RegOp("DEC")]
      case 10 => /* 50 */
        [RegOp("PUSH"), RegOp("PUSH"), RegOp("PUSH"), RegOp("PUSH"),
         RegOp("PUSH"), RegOp("PUSH"), RegOp("PUSH"), RegOp("PUSH")]
      case 11 => /* 58 */
        [RegOp("POP"), RegOp("POP"), RegOp("POP"), RegOp("POP"),
         RegOp("POP"), RegOp("POP"), RegOp("POP"), RegOp("POP")]
      case 12 => /* 60 */
        [Ud, Ud, Ud, Ud,
         Ud, Ud, Ud, Ud]
      case 13 => /* 68 */
        [Ud, Ud, Ud, Ud,
         Ud, Ud, Ud, Ud]
      case 14 => /* 70 */
        [Jcc, Jcc, Jcc, Jcc,
         Jcc, Jcc, Jcc, Jcc]
      case 15 => /* 78 */
        [Jcc, Jcc, Jcc, Jcc,
         Jcc, Jcc, Jcc, Jcc]
      case 16 => /* 80 */
        [Group1(Byte, Imm8Kind), Group1(Word, Imm16Kind), Group1(Byte, Imm8Kind), Group1(Word, SImm8Kind),
         Ud, Ud, EaReg(Byte, "XCHG"), EaReg(Word, "XCHG")]
      case 17 => /* 88 */
        [EaReg(Byte, "MOV"), EaReg(Word, "MOV"), RegEa(Byte, "MOV"), RegEa(Word, "MOV"),
         EaSreg, RegEa(Word, "LEA"), SregEa, EaOp(Word, "POP")]
      case 18 => /* 90 */
        [Fixed("NOP", []), XchgAx, XchgAx, XchgAx,
         XchgAx, XchgAx, XchgAx, XchgAx]
      case 19 => /* 98 */
        [Fixed("CBW", []), Fixed("CWD", []), Far("CALL"), Ud,
         Fixed("PUSHF", []), Fixed("POPF", []), Fixed("SAHF", []), Fixed("LAHF", [])]
      case 20 => /* A0 */
        [AccMem(Byte, false), AccMem(Word, false), AccMem(Byte, true), AccMem(Word, true),
         Fixed("MOVSB", []), Fixed("MOVSW", []), Fixed("CMPSB", []), Fixed("CMPSW", [])]
      case 21 => /* A8 */
        [AccImm(Byte, "TEST"), AccImm(Word, "TEST"), Fixed("STOSB", []), Fixed("STOSW", []),
         Fixed("LODSB", []), Fixed("LODSW", []), Ud, Ud]
      case 22 => /* B0 */
        [MovRegImm(Byte), MovRegImm(Byte), MovRegImm(Byte), MovRegImm(Byte),
         MovRegImm(Byte), MovRegImm(Byte), MovRegImm(Byte), MovRegImm(Byte)]
      case 23 => /* B8 */
        [MovRegImm(Word), MovRegImm(Word), MovRegImm(Word), MovRegImm(Word),
         MovRegImm(Word), MovRegImm(Word), MovRegImm(Word), MovRegImm(Word)]
      case 24 => /* C0 */
        [Ud, Ud, Imm16Op("RETN"), Fixed("RETN", []),
         RegEa(Word, "LES"), RegEa(Word, "LDS"), MovEaImm(Byte), MovEaImm(Word)]
      case 25 => /* C8 */
        [Ud, Ud, Imm16Op("RETF"), Fixed("RETF", []),
         Ud, Imm8Op("INT"), Ud, Fixed("IRET", [])]
      case 26 => /* D0 */
        [Shift(Byte, false), Shift(Word, false), Shift(Byte, true), Shift(Word, true),
         Imm8Op("AAM"), Ud, Ud, Fixed("XLAT", [])]
      case 27 => /* D8 */
        [Ud, Ud, Ud, Ud,
         Ud, Ud, Ud, Ud]
      case 28 => /* E0 */
        [Loop(0), Loop(1), Loop(2), Loop(3),
         AccImm(Byte, "IN"), Ud, OutImm, Ud]
      case 29 => /* E8 */
        [NearRel("CALL"), NearRel("JMPN"), Far("JMPF"), ShortJmp,
         Fixed("IN", ["AL", "DX"]), Ud, Fixed("OUT", ["DX", "AL"]), Ud]
      case 30 => /* F0 */
        [Ud, Ud, Prefix("REPNE "), Prefix("REP "),
         Ud, Fixed("CMC", []), Group3(Byte), Group3(Word)]
      case _ => /* F8 */
        [Flag(0), Flag(1), Flag(2), Flag(3),
         Flag(4), Flag(5), Group4, Group5];
    row[opc % 8]
  }

  // ---------------------------------------------------------------------
  // Handlers; `src` starts at the opcode byte

  /**
   * The ModRM operand of a handler: the resolver applied at `src + 1`; it
   * takes the bytes the addressing form of the ModRM byte calls for.
   */
  function ModRm(w: Width, src: seq<byte>): (e: EaOperand)
    requires |src| >= 4
    ensures e.cnt == FormBytes(src[1])
  {
    EaEntryShape(w, EaIndex(src[1]));
    Ea(w, src[1..])
  }

  /** The text of the ModRM operand, the name the handler contracts use for it. */
  function RmText(w: Width, src: seq<byte>): string
    requires |src| >= 4
  {
    ModRm(w, src).text
  }

  /** dop_ud: the opcode byte as data. */
  function DataByte(src: seq<byte>): (r: Instr)
    requires |src| >= 1
    ensures r == Instr("DB", [Hex2(src[0])], 1)
    ensures IsHex(r.args[0]) && ParseHex(r.args[0]) == src[0]
  {
    Instr("DB", [Imm8(src)], 1)
  }

  /** dop_ea8_reg8, dop_ea16_reg16: the r/m operand, then the register of the reg field. */
  function EaRegForm(w: Width, mn: string, src: seq<byte>): (r: Instr)
    requires |src| >= 4
    ensures r == Instr(mn, [RmText(w, src), RegName(w, RegField(src[1]))], 1 + FormBytes(src[1]))
  {
    var e := ModRm(w, src);
    Instr(mn, [e.text, RegName(w, RegField(src[1]))], 1 + e.cnt)
  }

  /** dop_reg8_ea8, dop_reg16_ea16: the register of the reg field, then the r/m operand. */
  function RegEaForm(w: Width, mn: string, src: seq<byte>): (r: Instr)
    requires |src| >= 4
    ensures r == Instr(mn, [RegName(w, RegField(src[1])), RmText(w, src)], 1 + FormBytes(src[1]))
  {
    var e := ModRm(w, src);
    Instr(mn, [RegName(w, RegField(src[1])), e.text], 1 + e.cnt)
  }

  /** dop_ea8, dop_ea16: the r/m operand alone. */
  function EaForm(w: Width, mn: string, src: seq<byte>): (r: Instr)
    requires |src| >= 4
    ensures r == Instr(mn, [RmText(w, src)], 1 + FormBytes(src[1]))
  {
    var e := ModRm(w, src);
    Instr(mn, [e.text], 1 + e.cnt)
  }

  /** AL with an immediate byte, or AX with an immediate word, read right after the opcode. */
  function AccImmForm(w: Width, mn: string, src: seq<byte>): (r: Instr)
    requires |src| >= 3
    ensures w == Byte ==> r == Instr(mn, ["AL", Hex2(src[1])], 2)
    ensures w == Word ==> r == Instr(mn, ["AX", Hex4(MkUint16(src[1], src[2]))], 3)
  {
    if w == Byte then Instr(mn, ["AL", Imm8(src[1..])], 2)
    else Instr(mn, ["AX", Imm16(src[1..])], 3)
  }

  /**
   * `2 + e86_add_sint8 (ip, rel)` stored in an unsigned short (dop_70,
   * dop_e0): the target of a 2-byte relative jump.
   */
  function ShortTarget(ip: u16, rel: byte): (t: u16)
    ensures t == RelTarget(ip, 2, SignExt8(rel))
  {
    (2 + AddSInt8(ip, rel)) % 0x1_0000
  }

  /** `e86_add_sint8 (ip + 2, rel)` (dop_eb): the same target, computed the other way round. */
  function JmpsTarget(ip: u16, rel: byte): (t: u16)
    ensures t == RelTarget(ip, 2, SignExt8(rel))
  {
    var next := (ip + 2) % 0x1_0000;
    assert next == ip + 2 || next == ip + 2 - 0x1_0000;
    AddSInt8(next, rel)
  }

  /**
   * `(ip + e86_mk_uint16 (lo, hi) + 3) & 0xffff` (dop_e8, dop_e9): the
   * target of a 3-byte relative transfer with a signed 16-bit displacement.
   */
  function NearTarget(ip: u16, lo: byte, hi: byte): (t: u16)
    ensures t == RelTarget(ip, 3, SignExt16(MkUint16(lo, hi)))
  {
    var w := MkUint16(lo, hi);
    if w < 0x8000 then
      (ip + w + 3) % 0x1_0000
    else
      WrapDown(ip + w + 3);
      (ip + w + 3) % 0x1_0000
  }

  /**
   * The text of the immediate the 80-83 group reads at `src`: a byte, a
   * little-endian word, or a signed byte.
   */
  function GroupImm(k: ImmKind, src: seq<byte>): (s: string)
    requires |src| >= 2
    ensures k == Imm8Kind ==> s == Hex2(src[0])
    ensures k == Imm16Kind ==> s == Hex4(MkUint16(src[0], src[1]))
    ensures k == SImm8Kind ==> |s| == 3 && (s[0] == '-' <==> src[0] >= 0x80) && (s[0] == '+' <==> src[0] < 0x80) && IsHex(s[1..])
    ensures k == SImm8Kind ==> SignedValue(s) == SignExt8(src[0])
  {
    match k
    case Imm8Kind => Imm8(src)
    case Imm16Kind => Imm16(src)
    case SImm8Kind => SImm8(src)
  }

  function ImmSize(k: ImmKind): nat
  {
    if k == Imm16Kind then 2 else 1
  }

  /**
   * dop_80, dop_81, dop_83: mnemonic from the reg field, the r/m operand,
   * then the immediate, read right after the bytes of the addressing form.
   */
  function Group1Form(w: Width, k: ImmKind, src: seq<byte>): (r: Instr)
    requires |src| >= 6
    ensures var n := FormBytes(src[1]);
      r == Instr(Group1Names[RegField(src[1])], [RmText(w, src), GroupImm(k, src[1 + n..])], 1 + n + ImmSize(k))
  {
    var e := ModRm(w, src);
    Instr(Group1Names[RegField(src[1])], [e.text, GroupImm(k, src[1 + e.cnt..])], 1 + ImmSize(k) + e.cnt)
  }

  /**
   * The segment register named by bits 3 and 4 of the ModRM byte,
   * `(src[1] >> 3) & 3`.
   */
  function SregOf(m: byte): (s: string)
    ensures s == SRegNames[RegField(m) % 4]
  {
    SRegName((m / 8) % 4)
  }

  /** dop_8c: MOV r/m16, sreg. */
  function EaSregForm(src: seq<byte>): (r: Instr)
    requires |src| >= 4
    ensures r == Instr("MOV", [RmText(Word, src), SRegNames[RegField(src[1]) % 4]], 1 + FormBytes(src[1]))
  {
    var e := ModRm(Word, src);
    Instr("MOV", [e.text, SregOf(src[1])], 1 + e.cnt)
  }

  /** dop_8e: MOV sreg, r/m16. */
  function SregEaForm(src: seq<byte>): (r: Instr)
    requires |src| >= 4
    ensures r == Instr("MOV", [SRegNames[RegField(src[1]) % 4], RmText(Word, src)], 1 + FormBytes(src[1]))
  {
    var e := ModRm(Word, src);
    Instr("MOV", [SregOf(src[1]), e.text], e.cnt + 1)
  }

  /**
   * dop_c6, dop_c7: MOV r/m, imm, the immediate read right after the bytes
   * of the addressing form. The source first stores the resolver's count in
   * dat_n and then adds 2 or 3; the sum is what is modelled.
   */
  function MovEaImmForm(w: Width, src: seq<byte>): (r: Instr)
    requires |src| >= 6
    ensures var n := FormBytes(src[1]);
      && (w == Byte ==> r == Instr("MOV", [RmText(w, src), Hex2(src[1 + n])], n + 2))
      && (w == Word ==> r == Instr("MOV", [RmText(w, src), Hex4(MkUint16(src[1 + n], src[2 + n]))], n + 3))
  {
    var e := ModRm(w, src);
    if w == Byte then Instr("MOV", [e.text, Imm8(src[1 + e.cnt..])], e.cnt + 2)
    else Instr("MOV", [e.text, Imm16(src[1 + e.cnt..])], e.cnt + 3)
  }

  /** dop_d0 - dop_d3: shift or rotate of the r/m operand by 1 or by CL. */
  function ShiftForm(w: Width, byCl: bool, src: seq<byte>): (r: Instr)
    requires |src| >= 4
    ensures r == Instr(ShiftNames[RegField(src[1])], [RmText(w, src), if byCl then "CL" else "1"], 1 + FormBytes(src[1]))
  {
    var e := ModRm(w, src);
    Instr(ShiftNames[RegField(src[1])], [e.text, if byCl then RegName(Byte, RegCL) else "1"], 1 + e.cnt)
  }

  /** dop_f6 (Byte) and dop_f7 (Word), by the reg field of the ModRM byte. */
  function Group3Form(w: Width, src: seq<byte>): (r: Instr)
    requires |src| >= 6
    ensures var n := FormBytes(src[1]);
      && (RegField(src[1]) == 0 && w == Byte ==> r == Instr("TEST", [RmText(w, src), Hex2(src[1 + n])], n + 2))
      && (RegField(src[1]) == 0 && w == Word ==> r == Instr("TEST", [RmText(w, src), Hex4(MkUint16(src[1 + n], src[2 + n]))], n + 3))
      && (RegField(src[1]) == 1 ==> r == DataByte(src))
      && (RegField(src[1]) >= 2 ==> r == Instr(Group3Names[RegField(src[1]) - 2], [RmText(w, src)], 1 + n))
  {
    var e := ModRm(w, src);
    match RegField(src[1])
    case 0 =>
      if w == Byte then Instr("TEST", [e.text, Imm8(src[1 + e.cnt..])], e.cnt + 2)
      else Instr("TEST", [e.text, Imm16(src[1 + e.cnt..])], e.cnt + 3)
    case 1 => DataByte(src)
    case 2 => EaForm(w, "NOT", src)
    case 3 => EaForm(w, "NEG", src)
    case 4 => EaForm(w, "MUL", src)
    case 5 => EaForm(w, "IMUL", src)
    case 6 => EaForm(w, "DIV", src)
    case _ => EaForm(w, "IDIV", src)
  }

  /** dop_fe: INC and DEC of a byte operand; the other six slots are data bytes. */
  function Group4Form(src: seq<byte>): (r: Instr)
    requires |src| >= 6
    ensures RegField(src[1]) < 2 ==> r == Instr(Group5Names[RegField(src[1])], [RmText(Byte, src)], 1 + FormBytes(src[1]))
    ensures RegField(src[1]) >= 2 ==> r == DataByte(src)
  {
    var e := ModRm(Byte, src);
    match RegField(src[1])
    case 0 => Instr("INC", [e.text], e.cnt + 1)
    case 1 => Instr("DEC", [e.text], e.cnt + 1)
    case _ => DataByte(src)
  }

  /** dop_ff: seven word operations; slot 7 is a data byte. */
  function Group5Form(src: seq<byte>): (r: Instr)
    requires |src| >= 6
    ensures RegField(src[1]) < 7 ==> r == Instr(Group5Names[RegField(src[1])], [RmText(Word, src)], 1 + FormBytes(src[1]))
    ensures RegField(src[1]) == 7 ==> r == DataByte(src)
  {
    match RegField(src[1])
    case 0 => EaForm(Word, "INC", src)
    case 1 => EaForm(Word, "DEC", src)
    case 2 => EaForm(Word, "CALL", src)
    case 3 => EaForm(Word, "CALLF", src)
    case 4 => EaForm(Word, "JMP", src)
    case 5 => EaForm(Word, "JMPF", src)
    case 6 => EaForm(Word, "PUSH", src)
    case _ => DataByte(src)
  }

  /**
   * Every strategy except a prefix: the instruction at `src` (6 bytes are
   * enough for the longest one) takes 1 to 6 bytes and has at most two
   * operands.
   */
  function Run(s: Strategy, src: seq<byte>, ip: u16): (r: Instr)
    requires !s.Prefix? && |src| >= 6
    ensures 1 <= r.len <= 6 && |r.args| <= 2
  {
    match s
    case Ud => DataByte(src)
    case EaReg(w, mn) => EaRegForm(w, mn, src)
    case RegEa(w, mn) => RegEaForm(w, mn, src)
    case EaOp(w, mn) => EaForm(w, mn, src)
    case AccImm(w, mn) => AccImmForm(w, mn, src)
    case OutImm => Instr("OUT", [Imm8(src[1..]), "AL"], 2)
    case Fixed(mn, args) => Instr(mn, args, 1)
    case RegOp(mn) => Instr(mn, [RegName(Word, src[0] % 8)], 1)
    case XchgAx => Instr("XCHG", ["AX", RegName(Word, src[0] % 8)], 1)
    case MovRegImm(w) =>
      if w == Byte then Instr("MOV", [RegName(Byte, src[0] % 8), Imm8(src[1..])], 2)
      else Instr("MOV", [RegName(Word, src[0] % 8), Imm16(src[1..])], 3)
    case AccMem(w, store) =>
      var acc := if w == Byte then "AL" else "AX";
      if store then Instr("MOV", [Addr16(src[1..]), acc], 3)
      else Instr("MOV", [acc, Addr16(src[1..])], 3)
    case Imm8Op(mn) => Instr(mn, [Imm8(src[1..])], 2)
    case Imm16Op(mn) => Instr(mn, [Imm16(src[1..])], 3)
    case Far(mn) => Instr(mn, [Imm32(src[1..])], 5)
    case Jcc => Instr(JccNames[src[0] % 16], [Hex4(ShortTarget(ip, src[1]))], 2)
    case Loop(k) => Instr(LoopNames[k], [Hex4(ShortTarget(ip, src[1]))], 2)
    case ShortJmp => Instr("JMPS", [Hex4(JmpsTarget(ip, src[1]))], 2)
    case NearRel(mn) => Instr(mn, [Hex4(NearTarget(ip, src[1], src[2]))], 3)
    case Group1(w, k) => Group1Form(w, k, src)
    case EaSreg => EaSregForm(src)
    case SregEa => SregEaForm(src)
    case MovEaImm(w) => MovEaImmForm(w, src)
    case Shift(w, byCl) => ShiftForm(w, byCl, src)
    case Group3(w) => Group3Form(w, src)
    case Group4 => Group4Form(src)
    case Group5 => Group5Form(src)
    case Flag(f) => Instr(FlagNames[f], [], 1)
  }

  // ---------------------------------------------------------------------
  // The decoder

  /** The five bytes dop_list sends to a prefix handler; 0x3E (DS:) is not one of them. */
  predicate IsPrefix(b: byte)
  {
    b == 0x26 || b == 0x2E || b == 0x36 || b == 0xF2 || b == 0xF3
  }

  lemma PrefixSlotsFrom00(b: byte)
    requires b < 0x40
    ensures DopList(b).Prefix? <==> IsPrefix(b)
  {
  }

  lemma PrefixSlotsFrom40(b: byte)
    requires 0x40 <= b < 0x80
    ensures !DopList(b).Prefix?
  {
  }

  lemma PrefixSlotsFrom80(b: byte)
    requires 0x80 <= b < 0xC0
    ensures !DopList(b).Prefix?
  {
  }

  lemma PrefixSlotsFromC0(b: byte)
    requires 0xC0 <= b
    ensures DopList(b).Prefix? <==> IsPrefix(b)
  {
  }

  /** Exactly the five prefix bytes hold a prefix handler in the table. */
  lemma PrefixSlots(b: byte)
    ensures DopList(b).Prefix? <==> IsPrefix(b)
  {
    if b < 0x40 {
      PrefixSlotsFrom00(b);
    } else if b < 0x80 {
      PrefixSlotsFrom40(b);
    } else if b < 0xC0 {
      PrefixSlotsFrom80(b);
    } else {
      PrefixSlotsFromC0(b);
    }
  }

  /** The number of leading prefix bytes of the window. */
  function PrefixRun(src: seq<byte>): (n: nat)
    ensures n <= |src|
  {
    if src != [] && IsPrefix(src[0]) then 1 + PrefixRun(src[1..]) else 0
  }

  /** The window holds the leading prefix bytes and 6 bytes after them. */
  predicate WindowOk(src: seq<byte>)
  {
    |src| >= PrefixRun(src) + 6
  }

  /**
   * e86_disasm: dispatch on the first byte through dop_list. A prefix
   * handler decodes the rest of the window with the SAME `ip` (not ip + 1,
   * as written), puts its text before the inner mnemonic and adds one to
   * the inner length.
   */
  function Decode(src: seq<byte>, ip: u16): (r: Instr)
    requires WindowOk(src)
    ensures 1 <= r.len <= PrefixRun(src) + 6 && |r.args| <= 2
    decreases |src|
  {
    var s := DopList(src[0]);
    PrefixSlots(src[0]);
    if s.Prefix? then
      var inner := Decode(src[1..], ip);
      Instr(s.text + inner.op, inner.args, inner.len + 1)
    else
      Run(s, src, ip)
  }
}
