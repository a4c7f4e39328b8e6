/**
 * What the decoder promises: how prefixes unwind, which bytes fall back to
 * a data byte, what each instruction family decodes to, where relative jumps
 * land, and a few concrete decodes, including the quirks kept as written.
 */
module DecodeProps {
  import opened Hex
  import opened Operands
  import opened Opcodes

  // ---------------------------------------------------------------------
  // Prefixes

  /**
   * One prefix: the rest of the window is decoded at the same ip, the
   * prefix text goes before its mnemonic, the operands stay as they are,
   * and the length grows by one.
   */
  lemma PrefixDecode(src: seq<byte>, ip: u16)
    requires WindowOk(src) && IsPrefix(src[0])
    ensures WindowOk(src[1..])
    ensures var inner := Decode(src[1..], ip);
      Decode(src, ip) == Instr(PrefixMnemonic(src[0]) + inner.op, inner.args, inner.len + 1)
  {
    assert DopList(src[0]) == Prefix(PrefixMnemonic(src[0]));
  }

  /** The texts of the leading prefix bytes, in order. */
  function PrefixTexts(src: seq<byte>): string
    decreases |src|
  {
    if src != [] && IsPrefix(src[0]) then PrefixMnemonic(src[0]) + PrefixTexts(src[1..]) else ""
  }

  /**
   * A run of k prefixes: the instruction after them is decoded on its own
   * (no prefix left) at the unchanged ip, its mnemonic follows all the
   * prefix texts in order, and its length grows by k.
   */
  lemma {:induction false} DecodeUnwinds(src: seq<byte>, ip: u16)
    requires WindowOk(src)
    ensures var k := PrefixRun(src);
      && WindowOk(src[k..]) && PrefixRun(src[k..]) == 0
      && var core := Decode(src[k..], ip);
      Decode(src, ip) == Instr(PrefixTexts(src) + core.op, core.args, k + core.len)
    decreases |src|
  {
    if IsPrefix(src[0]) {
      var rest, k := src[1..], PrefixRun(src);
      DecodeUnwinds(rest, ip);
      var j := PrefixRun(rest);
      assert k == j + 1 && rest[j..] == src[k..];
      var core, inner := Decode(rest[j..], ip), Decode(rest, ip);
      assert inner.op == PrefixTexts(rest) + core.op;
      assert PrefixTexts(src) == PrefixMnemonic(src[0]) + PrefixTexts(rest);
      PrefixDecode(src, ip);
      Associative(PrefixMnemonic(src[0]), PrefixTexts(rest), core.op);
    } else {
      assert PrefixRun(src) == 0 && PrefixTexts(src) == "";
      assert src[0..] == src;
      var core := Decode(src, ip);
      assert Instr("" + core.op, core.args, 0 + core.len) == core;
    }
  }

  /** Concatenation regroups; DecodeUnwinds needs it once, on the prefix texts. */
  lemma Associative(a: string, b: string, c: string)
    ensures a + (b + c) == (a + b) + c
  {
  }

  // ---------------------------------------------------------------------
  // The window bound

  /** A window made only of prefix bytes is one prefix run. */
  lemma {:induction false} AllPrefixRun(src: seq<byte>)
    requires forall i :: 0 <= i < |src| ==> IsPrefix(src[i])
    ensures PrefixRun(src) == |src|
    decreases |src|
  {
    if src != [] {
      assert forall i :: 0 <= i < |src| - 1 ==> src[1..][i] == src[i + 1];
      AllPrefixRun(src[1..]);
    }
  }

  /**
   * The prefix handlers call back into the decoder on `src + 1` with no
   * bound, and the memory front end passes a 16-byte window: sixteen 26
   * bytes leave no byte for the instruction after them, so the source goes
   * on to read src[16]. The guard of Decode rejects that window; the
   * bounded decode of module Bounded stops at its end instead.
   */
  lemma PrefixOverrun(src: seq<byte>)
    requires |src| == 16 && forall i :: 0 <= i < 16 ==> src[i] == 0x26
    ensures PrefixRun(src) == 16 && !WindowOk(src)
  {
    AllPrefixRun(src);
  }

  // ---------------------------------------------------------------------
  // The data-byte fallback

  /**
   * The extension groups send these reg fields to the data byte as well:
   * F6/1, F7/1, FE/2 to FE/7 and FF/7.
   */
  predicate IsUdExtension(b: byte, m: byte)
  {
    || ((b == 0xF6 || b == 0xF7) && RegField(m) == 1)
    || (b == 0xFE && RegField(m) >= 2)
    || (b == 0xFF && RegField(m) == 7)
  }

  lemma UdSlotsFrom00(b: byte)
    requires b < 0x20
    ensures DopList(b) == Ud <==> IsUdSlot(b)
  {
    if b < 0x08 {
    } else if b < 0x10 {
    } else if b < 0x18 {
    } else {
    }
  }

  lemma UdSlotsFrom20(b: byte)
    requires 0x20 <= b < 0x40
    ensures DopList(b) == Ud <==> IsUdSlot(b)
  {
    if b < 0x28 {
    } else if b < 0x30 {
    } else if b < 0x38 {
    } else {
    }
  }

  lemma UdSlotsFrom40(b: byte)
    requires 0x40 <= b < 0x80
    ensures DopList(b) == Ud <==> IsUdSlot(b)
  {
    if b < 0x48 {
    } else if b < 0x50 {
    } else if b < 0x58 {
    } else if b < 0x60 {
    } else if b < 0x68 {
    } else if b < 0x70 {
    } else if b < 0x78 {
    } else {
    }
  }

  lemma UdSlotsFrom80(b: byte)
    requires 0x80 <= b < 0xA0
    ensures DopList(b) == Ud <==> IsUdSlot(b)
  {
    if b < 0x88 {
    } else if b < 0x90 {
    } else if b < 0x98 {
    } else {
    }
  }

  lemma UdSlotsFromA0(b: byte)
    requires 0xA0 <= b < 0xC0
    ensures DopList(b) == Ud <==> IsUdSlot(b)
  {
    if b < 0xA8 {
    } else if b < 0xB0 {
    } else if b < 0xB8 {
    } else {
    }
  }

  lemma UdSlotsFromC0(b: byte)
    requires 0xC0 <= b < 0xE0
    ensures DopList(b) == Ud <==> IsUdSlot(b)
  {
    if b < 0xC8 {
    } else if b < 0xD0 {
    } else if b < 0xD8 {
    } else {
    }
  }

  lemma UdSlotsFromE0(b: byte)
    requires 0xE0 <= b
    ensures DopList(b) == Ud <==> IsUdSlot(b)
  {
    if b < 0xE8 {
    } else if b < 0xF0 {
    } else if b < 0xF8 {
    } else {
    }
  }

  /** The table's data-byte slots are exactly those listed. */
  lemma UdSlots(b: byte)
    ensures DopList(b) == Ud <==> IsUdSlot(b)
  {
    if b < 0x20 {
      UdSlotsFrom00(b);
    } else if b < 0x40 {
      UdSlotsFrom20(b);
    } else if b < 0x80 {
      UdSlotsFrom40(b);
    } else if b < 0xA0 {
      UdSlotsFrom80(b);
    } else if b < 0xC0 {
      UdSlotsFromA0(b);
    } else if b < 0xE0 {
      UdSlotsFromC0(b);
    } else {
      UdSlotsFromE0(b);
    }
  }

  /** A data-byte slot of the table. */
  lemma DataByteSlot(src: seq<byte>, ip: u16)
    requires WindowOk(src) && IsUdSlot(src[0])
    ensures Decode(src, ip) == DataByte(src)
  {
    UdSlots(src[0]);
  }

  /** F6/1 and F7/1 go to dop_ud. */
  lemma DataByteGroup3(src: seq<byte>, ip: u16)
    requires WindowOk(src) && (src[0] == 0xF6 || src[0] == 0xF7) && RegField(src[1]) == 1
    ensures Decode(src, ip) == DataByte(src)
  {
    assert DopList(src[0]) == Group3(if src[0] == 0xF6 then Byte else Word);
    DecodeRun(src, ip);
  }

  /** FE/2 to FE/7 and FF/7 go to dop_ud. */
  lemma DataByteGroup45(src: seq<byte>, ip: u16)
    requires WindowOk(src)
    requires (src[0] == 0xFE && RegField(src[1]) >= 2) || (src[0] == 0xFF && RegField(src[1]) == 7)
    ensures Decode(src, ip) == DataByte(src)
  {
    if src[0] == 0xFE {
      Group4Slot(src, ip);
    } else {
      Group5Slot(src, ip);
    }
  }

  /** FE decodes by Group4Form. */
  lemma Group4Slot(src: seq<byte>, ip: u16)
    requires WindowOk(src) && src[0] == 0xFE
    ensures Decode(src, ip) == Group4Form(src)
  {
    assert DopList(src[0]) == Group4;
    DecodeRun(src, ip);
  }

  /** FF decodes by Group5Form. */
  lemma Group5Slot(src: seq<byte>, ip: u16)
    requires WindowOk(src) && src[0] == 0xFF
    ensures Decode(src, ip) == Group5Form(src)
  {
    assert DopList(src[0]) == Group5;
    DecodeRun(src, ip);
  }

  /** Every slot and extension without an instruction decodes as one data byte showing its value. */
  lemma DataByteFallback(src: seq<byte>, ip: u16)
    requires WindowOk(src) && (IsUdSlot(src[0]) || IsUdExtension(src[0], src[1]))
    ensures Decode(src, ip) == Instr("DB", [Hex2(src[0])], 1)
    ensures ParseHex(Decode(src, ip).args[0]) == src[0]
  {
    if IsUdSlot(src[0]) {
      DataByteSlot(src, ip);
    } else if src[0] == 0xF6 || src[0] == 0xF7 {
      DataByteGroup3(src, ip);
    } else {
      DataByteGroup45(src, ip);
    }
  }

  // ---------------------------------------------------------------------
  // Lengths

  /** An opcode that is not a prefix is decoded by its own handler alone. */
  lemma DecodeRun(src: seq<byte>, ip: u16)
    requires WindowOk(src) && !DopList(src[0]).Prefix?
    ensures Decode(src, ip) == Run(DopList(src[0]), src, ip)
  {
  }

  /**
   * The plain ModRM families: the mnemonic of the slot, the r/m operand and
   * the register of the reg field in the slot's order, and the opcode plus
   * the addressing form as the length.
   */
  lemma ModRmDecode(src: seq<byte>, ip: u16)
    requires WindowOk(src)
    requires var s := DopList(src[0]); s.EaReg? || s.RegEa? || s.EaOp?
    ensures var s := DopList(src[0]);
      var rm, reg := RmText(s.w, src), RegName(s.w, RegField(src[1]));
      Decode(src, ip) == Instr(s.mn, if s.EaReg? then [rm, reg] else if s.RegEa? then [reg, rm] else [rm], 1 + FormBytes(src[1]))
  {
  }

  /**
   * The eight arithmetic rows 00-3F: the first four slots of row k are the
   * k-th operation of d_tab_80 (ADD, OR, ADC, SBB, AND, SUB, XOR, CMP), bit 0
   * selects the width and bit 1 puts the register first.
   */
  lemma AluDecode(src: seq<byte>, ip: u16)
    requires WindowOk(src) && src[0] < 0x40 && src[0] % 8 < 4
    ensures var w := if src[0] % 2 == 0 then Byte else Word;
      var rm, reg := RmText(w, src), RegName(w, RegField(src[1]));
      Decode(src, ip) == Instr(Group1Names[src[0] / 8], if src[0] % 8 < 2 then [rm, reg] else [reg, rm], 1 + FormBytes(src[1]))
  {
    AluSlot(src[0]);
    ModRmDecode(src, ip);
  }

  /** The table side of AluDecode. */
  lemma AluSlot(opc: byte)
    requires opc < 0x40 && opc % 8 < 4
    ensures var w, mn := if opc % 2 == 0 then Byte else Word, Group1Names[opc / 8];
      DopList(opc) == if opc % 8 < 2 then EaReg(w, mn) else RegEa(w, mn)
  {
    if opc % 8 < 2 {
      EaRegSlot(opc);
    } else {
      RegEaSlot(opc);
    }
  }

  /** Slots 0 and 1 of the ALU rows: the r/m operand first. */
  lemma EaRegSlot(opc: byte)
    requires opc < 0x40 && opc % 8 < 2
    ensures DopList(opc) == EaReg(if opc % 8 == 0 then Byte else Word, Group1Names[opc / 8])
  {
  }

  /** Slots 2 and 3 of the ALU rows: the register operand first. */
  lemma RegEaSlot(opc: byte)
    requires opc < 0x40 && 2 <= opc % 8 < 4
    ensures DopList(opc) == RegEa(if opc % 8 == 2 then Byte else Word, Group1Names[opc / 8])
  {
  }

  /**
   * Slots 4 and 5 of the same rows: the operation on AL with an immediate
   * byte, or on AX with an immediate word, read right after the opcode.
   */
  lemma AluAccDecode(src: seq<byte>, ip: u16)
    requires WindowOk(src) && src[0] < 0x40 && (src[0] % 8 == 4 || src[0] % 8 == 5)
    ensures src[0] % 8 == 4 ==> Decode(src, ip) == Instr(Group1Names[src[0] / 8], ["AL", Hex2(src[1])], 2)
    ensures src[0] % 8 == 5 ==> Decode(src, ip) == Instr(Group1Names[src[0] / 8], ["AX", Hex4(MkUint16(src[1], src[2]))], 3)
  {
    AluAccSlot(src[0]);
    DecodeRun(src, ip);
  }

  /** The table side of AluAccDecode. */
  lemma AluAccSlot(opc: byte)
    requires opc < 0x40 && (opc % 8 == 4 || opc % 8 == 5)
    ensures DopList(opc) == AccImm(if opc % 8 == 4 then Byte else Word, Group1Names[opc / 8])
  {
  }

  /**
   * 86-8B: XCHG (86, 87) and MOV (88-8B) between an r/m operand and the
   * register of the reg field; bit 0 selects the width, and 8A and 8B put
   * the register first.
   */
  lemma MoveXchgDecode(src: seq<byte>, ip: u16)
    requires WindowOk(src) && 0x86 <= src[0] <= 0x8B
    ensures var w := if src[0] % 2 == 0 then Byte else Word;
      var rm, reg := RmText(w, src), RegName(w, RegField(src[1]));
      Decode(src, ip) == Instr(if src[0] < 0x88 then "XCHG" else "MOV", if src[0] < 0x8A then [rm, reg] else [reg, rm], 1 + FormBytes(src[1]))
  {
    MoveXchgSlot(src[0]);
    ModRmDecode(src, ip);
  }

  /** The table side of MoveXchgDecode. */
  lemma MoveXchgSlot(opc: byte)
    requires 0x86 <= opc <= 0x8B
    ensures var w, mn := if opc % 2 == 0 then Byte else Word, if opc < 0x88 then "XCHG" else "MOV";
      DopList(opc) == if opc < 0x8A then EaReg(w, mn) else RegEa(w, mn)
  {
  }

  /** LEA (8D), LES (C4) and LDS (C5): a word register, then the r/m operand. */
  lemma LoadAddressDecode(src: seq<byte>, ip: u16)
    requires WindowOk(src) && (src[0] == 0x8D || src[0] == 0xC4 || src[0] == 0xC5)
    ensures var mn := if src[0] == 0x8D then "LEA" else if src[0] == 0xC4 then "LES" else "LDS";
      Decode(src, ip) == Instr(mn, [RegName(Word, RegField(src[1])), RmText(Word, src)], 1 + FormBytes(src[1]))
  {
    LoadAddressSlot(src[0]);
    ModRmDecode(src, ip);
  }

  /** The table side of LoadAddressDecode. */
  lemma LoadAddressSlot(opc: byte)
    requires opc == 0x8D || opc == 0xC4 || opc == 0xC5
    ensures DopList(opc) == RegEa(Word, if opc == 0x8D then "LEA" else if opc == 0xC4 then "LES" else "LDS")
  {
  }

  /** 8F: POP of an r/m word, the only operand. */
  lemma PopEaDecode(src: seq<byte>, ip: u16)
    requires WindowOk(src) && src[0] == 0x8F
    ensures Decode(src, ip) == Instr("POP", [RmText(Word, src)], 1 + FormBytes(src[1]))
  {
    assert DopList(src[0]) == EaOp(Word, "POP");
    ModRmDecode(src, ip);
  }

  /** A8, A9 and E4: TEST AL or AX with an immediate, and IN AL with a port byte. */
  lemma AccImmDecode(src: seq<byte>, ip: u16)
    requires WindowOk(src) && (src[0] == 0xA8 || src[0] == 0xA9 || src[0] == 0xE4)
    ensures src[0] != 0xA9 ==> Decode(src, ip) == Instr(if src[0] == 0xA8 then "TEST" else "IN", ["AL", Hex2(src[1])], 2)
    ensures src[0] == 0xA9 ==> Decode(src, ip) == Instr("TEST", ["AX", Hex4(MkUint16(src[1], src[2]))], 3)
  {
    AccImmSlot(src[0]);
    DecodeRun(src, ip);
  }

  /** The table side of AccImmDecode. */
  lemma AccImmSlot(opc: byte)
    requires opc == 0xA8 || opc == 0xA9 || opc == 0xE4
    ensures DopList(opc) == AccImm(if opc == 0xA9 then Word else Byte, if opc == 0xE4 then "IN" else "TEST")
  {
  }

  /** 8C and 8E: MOV between an r/m word and the segment register of the reg field. */
  lemma SregMoveDecode(src: seq<byte>, ip: u16)
    requires WindowOk(src) && (src[0] == 0x8C || src[0] == 0x8E)
    ensures var rm, sreg := RmText(Word, src), SRegNames[RegField(src[1]) % 4];
      Decode(src, ip) == Instr("MOV", if src[0] == 0x8C then [rm, sreg] else [sreg, rm], 1 + FormBytes(src[1]))
  {
    assert DopList(src[0]) == if src[0] == 0x8C then EaSreg else SregEa;
    DecodeRun(src, ip);
  }

  /**
   * D0-D3: the shift named by the reg field, of a byte (even opcode) or a
   * word (odd opcode), by 1 (D0, D1) or by CL (D2, D3).
   */
  lemma ShiftDecode(src: seq<byte>, ip: u16)
    requires WindowOk(src) && 0xD0 <= src[0] <= 0xD3
    ensures var w := if src[0] % 2 == 0 then Byte else Word;
      Decode(src, ip) == Instr(ShiftNames[RegField(src[1])], [RmText(w, src), if src[0] >= 0xD2 then "CL" else "1"], 1 + FormBytes(src[1]))
  {
    assert DopList(src[0]) == Shift(if src[0] % 2 == 0 then Byte else Word, src[0] >= 0xD2);
    DecodeRun(src, ip);
  }

  /** Any slot of the 80-83 kind: what Group1Form promises, for the slot's width and immediate. */
  lemma Group1Slot(src: seq<byte>, ip: u16)
    requires WindowOk(src) && DopList(src[0]).Group1?
    ensures var s, n := DopList(src[0]), FormBytes(src[1]);
      Decode(src, ip) == Instr(Group1Names[RegField(src[1])], [RmText(s.w, src), GroupImm(s.imm, src[1 + n..])], 1 + n + ImmSize(s.imm))
  {
    DecodeRun(src, ip);
  }

  /**
   * The 80-83 group: the mnemonic of the reg field, the r/m operand, then
   * the immediate read right after the addressing form: a byte (80, 82), a
   * word (81) or a signed byte (83).
   */
  lemma ImmGroupDecode(src: seq<byte>, ip: u16)
    requires WindowOk(src) && 0x80 <= src[0] <= 0x83
    ensures var n := FormBytes(src[1]);
      var k := if src[0] == 0x81 then Imm16Kind else if src[0] == 0x83 then SImm8Kind else Imm8Kind;
      Decode(src, ip) == Instr(Group1Names[RegField(src[1])],
        [RmText(if src[0] % 2 == 0 then Byte else Word, src), GroupImm(k, src[1 + n..])],
        1 + n + (if src[0] == 0x81 then 2 else 1))
    ensures src[0] == 0x83 ==> var a, b := Decode(src, ip).args[1], src[1 + FormBytes(src[1])];
      && |a| == 3 && (a[0] == '-' <==> b >= 0x80) && (a[0] == '+' <==> b < 0x80)
      && IsHex(a[1..]) && SignedValue(a) == SignExt8(b)
  {
    assert DopList(src[0]) == Group1(if src[0] % 2 == 0 then Byte else Word,
      if src[0] == 0x81 then Imm16Kind else if src[0] == 0x83 then SImm8Kind else Imm8Kind);
    Group1Slot(src, ip);
  }

  /** 0x82 has no handler of its own: it decodes exactly as 0x80 does. */
  lemma Op82AsOp80(src: seq<byte>, ip: u16)
    requires WindowOk(src) && src[0] == 0x82
    ensures WindowOk([0x80] + src[1..])
    ensures Decode(src, ip) == Decode([0x80] + src[1..], ip)
  {
    var alt := [0x80] + src[1..];
    assert alt[1..] == src[1..];
    assert DopList(0x82) == DopList(0x80);
  }

  /** MOV r/m, imm: the immediate byte (C6) or word (C7) follows the addressing form. */
  lemma MovImmDecode(src: seq<byte>, ip: u16)
    requires WindowOk(src) && (src[0] == 0xC6 || src[0] == 0xC7)
    ensures var n := FormBytes(src[1]);
      && (src[0] == 0xC6 ==> Decode(src, ip) == Instr("MOV", [RmText(Byte, src), Hex2(src[1 + n])], n + 2))
      && (src[0] == 0xC7 ==> Decode(src, ip) == Instr("MOV", [RmText(Word, src), Hex4(MkUint16(src[1 + n], src[2 + n]))], n + 3))
  {
    assert DopList(src[0]) == MovEaImm(if src[0] == 0xC6 then Byte else Word);
  }

  /**
   * The F6/F7 group without its data-byte slot: TEST with an immediate of
   * the operand width after the addressing form, or one of NOT, NEG, MUL,
   * IMUL, DIV, IDIV of the r/m operand.
   */
  lemma Group3Decode(src: seq<byte>, ip: u16)
    requires WindowOk(src) && (src[0] == 0xF6 || src[0] == 0xF7) && RegField(src[1]) != 1
    ensures var n, w := FormBytes(src[1]), if src[0] == 0xF6 then Byte else Word;
      && (RegField(src[1]) == 0 && src[0] == 0xF6 ==> Decode(src, ip) == Instr("TEST", [RmText(w, src), Hex2(src[1 + n])], n + 2))
      && (RegField(src[1]) == 0 && src[0] == 0xF7 ==> Decode(src, ip) == Instr("TEST", [RmText(w, src), Hex4(MkUint16(src[1 + n], src[2 + n]))], n + 3))
      && (RegField(src[1]) >= 2 ==> Decode(src, ip) == Instr(Group3Names[RegField(src[1]) - 2], [RmText(w, src)], 1 + n))
  {
    assert DopList(src[0]) == Group3(if src[0] == 0xF6 then Byte else Word);
    DecodeRun(src, ip);
  }

  /** FE/0, FE/1 (byte) and FF/0 to FF/6 (word): the operation of the reg field on the r/m operand. */
  lemma IncDecGroupDecode(src: seq<byte>, ip: u16)
    requires WindowOk(src)
    requires (src[0] == 0xFE && RegField(src[1]) < 2) || (src[0] == 0xFF && RegField(src[1]) < 7)
    ensures var w := if src[0] == 0xFE then Byte else Word;
      Decode(src, ip) == Instr(Group5Names[RegField(src[1])], [RmText(w, src)], 1 + FormBytes(src[1]))
  {
    if src[0] == 0xFE {
      Group4Slot(src, ip);
    } else {
      Group5Slot(src, ip);
    }
  }

  // ---------------------------------------------------------------------
  // One-line handlers: no ModRM byte, the record is fixed by the opcode

  datatype Option<T> = None | Some(value: T)

  /**
   * The record each one-byte handler with constant operands writes, by
   * opcode, listed handler by handler; None for every other opcode.
   */
  function FixedRecord(b: byte): Option<Instr>
  {
    match b
    case 0x06 => Some(Instr("PUSH", ["ES"], 1))
    case 0x07 => Some(Instr("POP", ["ES"], 1))
    case 0x0E => Some(Instr("PUSH", ["CS"], 1))
    case 0x0F => Some(Instr("POP", ["CS"], 1))
    case 0x16 => Some(Instr("PUSH", ["SS"], 1))
    case 0x17 => Some(Instr("POP", ["SS"], 1))
    case 0x1E => Some(Instr("PUSH", ["DS"], 1))
    case 0x1F => Some(Instr("POP", ["DS"], 1))
    case 0x27 => Some(Instr("SUB", [], 1))
    case 0x90 => Some(Instr("NOP", [], 1))
    case 0x98 => Some(Instr("CBW", [], 1))
    case 0x99 => Some(Instr("CWD", [], 1))
    case 0x9C => Some(Instr("PUSHF", [], 1))
    case 0x9D => Some(Instr("POPF", [], 1))
    case 0x9E => Some(Instr("SAHF", [], 1))
    case 0x9F => Some(Instr("LAHF", [], 1))
    case 0xA4 => Some(Instr("MOVSB", [], 1))
    case 0xA5 => Some(Instr("MOVSW", [], 1))
    case 0xA6 => Some(Instr("CMPSB", [], 1))
    case 0xA7 => Some(Instr("CMPSW", [], 1))
    case 0xAA => Some(Instr("STOSB", [], 1))
    case 0xAB => Some(Instr("STOSW", [], 1))
    case 0xAC => Some(Instr("LODSB", [], 1))
    case 0xAD => Some(Instr("LODSW", [], 1))
    case 0xC3 => Some(Instr("RETN", [], 1))
    case 0xCB => Some(Instr("RETF", [], 1))
    case 0xCF => Some(Instr("IRET", [], 1))
    case 0xD7 => Some(Instr("XLAT", [], 1))
    case 0xEC => Some(Instr("IN", ["AL", "DX"], 1))
    case 0xEE => Some(Instr("OUT", ["DX", "AL"], 1))
    case 0xF5 => Some(Instr("CMC", [], 1))
    case _ => None
  }

  /** What a Fixed slot of the table holds, against the handler listing. */
  predicate FixedAgrees(b: byte)
  {
    && (DopList(b).Fixed? <==> FixedRecord(b).Some?)
    && (DopList(b).Fixed? ==> FixedRecord(b).value == Instr(DopList(b).mn, DopList(b).fixedArgs, 1))
  }

  lemma FixedSlotsFrom00(b: byte)
    requires b < 0x20
    ensures FixedAgrees(b)
  {
    if b < 0x08 {
    } else if b < 0x10 {
    } else if b < 0x18 {
    } else {
    }
  }

  lemma FixedSlotsFrom20(b: byte)
    requires 0x20 <= b < 0x40
    ensures FixedAgrees(b)
  {
    if b < 0x28 {
    } else if b < 0x30 {
    } else if b < 0x38 {
    } else {
    }
  }

  lemma FixedSlotsFrom40(b: byte)
    requires 0x40 <= b < 0x80
    ensures FixedAgrees(b)
  {
    if b < 0x48 {
    } else if b < 0x50 {
    } else if b < 0x58 {
    } else if b < 0x60 {
    } else if b < 0x68 {
    } else if b < 0x70 {
    } else if b < 0x78 {
    } else {
    }
  }

  lemma FixedSlotsFrom80(b: byte)
    requires 0x80 <= b < 0x90
    ensures FixedAgrees(b)
  {
    if b < 0x88 {
    } else {
    }
  }

  lemma FixedSlotsFrom90(b: byte)
    requires 0x90 <= b < 0xA0
    ensures FixedAgrees(b)
  {
    if b < 0x98 {
    } else {
    }
  }

  lemma FixedSlotsFromA0(b: byte)
    requires 0xA0 <= b < 0xB0
    ensures FixedAgrees(b)
  {
    if b < 0xA8 {
    } else {
    }
  }

  lemma FixedSlotsFromB0(b: byte)
    requires 0xB0 <= b < 0xC0
    ensures FixedAgrees(b)
  {
    if b < 0xB8 {
    } else {
    }
  }

  lemma FixedSlotsFromC0(b: byte)
    requires 0xC0 <= b < 0xE0
    ensures FixedAgrees(b)
  {
    if b < 0xC8 {
    } else if b < 0xD0 {
    } else if b < 0xD8 {
    } else {
    }
  }

  lemma FixedSlotsFromE0(b: byte)
    requires 0xE0 <= b
    ensures FixedAgrees(b)
  {
    if b < 0xE8 {
    } else if b < 0xF0 {
    } else if b < 0xF8 {
    } else {
    }
  }

  /**
   * The table's Fixed slots are exactly the opcodes of the listing, and each
   * holds the listed mnemonic and operands.
   */
  lemma FixedSlots(b: byte)
    ensures DopList(b).Fixed? <==> FixedRecord(b).Some?
    ensures DopList(b).Fixed? ==> FixedRecord(b).value == Instr(DopList(b).mn, DopList(b).fixedArgs, 1)
  {
    if b < 0x20 {
      FixedSlotsFrom00(b);
    } else if b < 0x40 {
      FixedSlotsFrom20(b);
    } else if b < 0x80 {
      FixedSlotsFrom40(b);
    } else if b < 0x90 {
      FixedSlotsFrom80(b);
    } else if b < 0xA0 {
      FixedSlotsFrom90(b);
    } else if b < 0xB0 {
      FixedSlotsFromA0(b);
    } else if b < 0xC0 {
      FixedSlotsFromB0(b);
    } else if b < 0xE0 {
      FixedSlotsFromC0(b);
    } else {
      FixedSlotsFromE0(b);
    }
  }

  /** A one-byte handler with constant operands writes the listed record. */
  lemma FixedDecode(src: seq<byte>, ip: u16)
    requires WindowOk(src) && FixedRecord(src[0]).Some?
    ensures Decode(src, ip) == FixedRecord(src[0]).value
  {
    FixedSlots(src[0]);
    DecodeRun(src, ip);
  }

  /** 40-5F: INC, DEC, PUSH or POP of the word register in bits 0-2, one byte. */
  lemma RegOpDecode(src: seq<byte>, ip: u16)
    requires WindowOk(src) && 0x40 <= src[0] < 0x60
    ensures Decode(src, ip) == Instr(["INC", "DEC", "PUSH", "POP"][(src[0] - 0x40) / 8], [RegName(Word, src[0] % 8)], 1)
  {
    RegOpSlot(src[0]);
    DecodeRun(src, ip);
  }

  /** The table side of RegOpDecode. */
  lemma RegOpSlot(opc: byte)
    requires 0x40 <= opc < 0x60
    ensures DopList(opc) == RegOp(["INC", "DEC", "PUSH", "POP"][(opc - 0x40) / 8])
  {
  }

  /** 91-97: XCHG of AX with the word register in bits 0-2, one byte (90 is NOP). */
  lemma XchgAxDecode(src: seq<byte>, ip: u16)
    requires WindowOk(src) && 0x91 <= src[0] <= 0x97
    ensures Decode(src, ip) == Instr("XCHG", ["AX", RegName(Word, src[0] % 8)], 1)
  {
    assert DopList(src[0]) == XchgAx;
    DecodeRun(src, ip);
  }

  /**
   * B0-BF: MOV of an immediate into the register in bits 0-2, a byte
   * register and one immediate byte for B0-B7, a word register and the
   * little-endian word for B8-BF.
   */
  lemma MovRegImmDecode(src: seq<byte>, ip: u16)
    requires WindowOk(src) && 0xB0 <= src[0]
    requires src[0] <= 0xBF
    ensures src[0] < 0xB8 ==> Decode(src, ip) == Instr("MOV", [RegName(Byte, src[0] % 8), Hex2(src[1])], 2)
    ensures src[0] >= 0xB8 ==> Decode(src, ip) == Instr("MOV", [RegName(Word, src[0] % 8), Hex4(MkUint16(src[1], src[2]))], 3)
  {
    assert DopList(src[0]) == MovRegImm(if src[0] < 0xB8 then Byte else Word);
    DecodeRun(src, ip);
  }

  /**
   * A0-A3: MOV between AL (even opcode) or AX (odd opcode) and the direct
   * address in the next two bytes; A0 and A1 load, A2 and A3 store. Three
   * bytes.
   */
  lemma AccMemDecode(src: seq<byte>, ip: u16)
    requires WindowOk(src) && 0xA0 <= src[0] <= 0xA3
    ensures var acc, addr := if src[0] % 2 == 0 then "AL" else "AX", "[" + Hex4(MkUint16(src[1], src[2])) + "]";
      Decode(src, ip) == Instr("MOV", if src[0] < 0xA2 then [acc, addr] else [addr, acc], 3)
  {
    assert DopList(src[0]) == AccMem(if src[0] % 2 == 0 then Byte else Word, src[0] >= 0xA2);
    DecodeRun(src, ip);
  }

  /** CD and D4: INT and AAM with one immediate byte, two bytes. */
  lemma Imm8OpDecode(src: seq<byte>, ip: u16)
    requires WindowOk(src) && (src[0] == 0xCD || src[0] == 0xD4)
    ensures Decode(src, ip) == Instr(if src[0] == 0xCD then "INT" else "AAM", [Hex2(src[1])], 2)
  {
    assert DopList(src[0]) == Imm8Op(if src[0] == 0xCD then "INT" else "AAM");
    DecodeRun(src, ip);
  }

  /** C2 and CA: RETN and RETF with the little-endian word to pop, three bytes. */
  lemma Imm16OpDecode(src: seq<byte>, ip: u16)
    requires WindowOk(src) && (src[0] == 0xC2 || src[0] == 0xCA)
    ensures Decode(src, ip) == Instr(if src[0] == 0xC2 then "RETN" else "RETF", [Hex4(MkUint16(src[1], src[2]))], 3)
  {
    assert DopList(src[0]) == Imm16Op(if src[0] == 0xC2 then "RETN" else "RETF");
    DecodeRun(src, ip);
  }

  /**
   * 9A and EA: CALL and JMPF to a far address, printed segment (bytes 3-4)
   * before offset (bytes 1-2), five bytes.
   */
  lemma FarDecode(src: seq<byte>, ip: u16)
    requires WindowOk(src) && (src[0] == 0x9A || src[0] == 0xEA)
    ensures Decode(src, ip) == Instr(if src[0] == 0x9A then "CALL" else "JMPF",
      [Hex4(MkUint16(src[3], src[4])) + ":" + Hex4(MkUint16(src[1], src[2]))], 5)
  {
    assert DopList(src[0]) == Far(if src[0] == 0x9A then "CALL" else "JMPF");
    DecodeRun(src, ip);
  }

  /** E6: OUT to the port in the next byte, from AL, two bytes. */
  lemma OutImmDecode(src: seq<byte>, ip: u16)
    requires WindowOk(src) && src[0] == 0xE6
    ensures Decode(src, ip) == Instr("OUT", [Hex2(src[1]), "AL"], 2)
  {
    assert DopList(src[0]) == OutImm;
    DecodeRun(src, ip);
  }

  /** F8-FD: the flag instructions of d_tab_f8, by src[0] - 0xF8, one byte without operands. */
  lemma FlagDecode(src: seq<byte>, ip: u16)
    requires WindowOk(src) && 0xF8 <= src[0] <= 0xFD
    ensures Decode(src, ip) == Instr(["CLC", "STC", "CLI", "STI", "CLD", "STD"][src[0] - 0xF8], [], 1)
  {
    assert DopList(src[0]) == Flag(src[0] - 0xF8);
    DecodeRun(src, ip);
  }

  // ---------------------------------------------------------------------
  // Relative targets

  /** Conditional jumps (70-7F): d_tab_70 by the low nibble, target ip + 2 + disp8 modulo 2^16. */
  lemma JccDecode(src: seq<byte>, ip: u16)
    requires WindowOk(src) && 0x70 <= src[0] < 0x80
    ensures Decode(src, ip) == Instr(JccNames[src[0] - 0x70], [Hex4(RelTarget(ip, 2, SignExt8(src[1])))], 2)
    ensures ParseHex(Decode(src, ip).args[0]) == RelTarget(ip, 2, SignExt8(src[1]))
  {
    assert DopList(src[0]) == Jcc;
    assert src[0] % 16 == src[0] - 0x70;
    Hex4RoundTrip(RelTarget(ip, 2, SignExt8(src[1])));
  }

  /** LOOPNZ, LOOPZ, LOOP and JCXZ (E0-E3): the same target rule. */
  lemma LoopDecode(src: seq<byte>, ip: u16)
    requires WindowOk(src) && 0xE0 <= src[0] < 0xE4
    ensures Decode(src, ip) == Instr(LoopNames[src[0] - 0xE0], [Hex4(RelTarget(ip, 2, SignExt8(src[1])))], 2)
    ensures ParseHex(Decode(src, ip).args[0]) == RelTarget(ip, 2, SignExt8(src[1]))
  {
    assert DopList(src[0]) == Loop(src[0] - 0xE0);
    Hex4RoundTrip(RelTarget(ip, 2, SignExt8(src[1])));
  }

  /** JMPS (EB): the same target, although the source computes it the other way round. */
  lemma JmpsDecode(src: seq<byte>, ip: u16)
    requires WindowOk(src) && src[0] == 0xEB
    ensures Decode(src, ip) == Instr("JMPS", [Hex4(RelTarget(ip, 2, SignExt8(src[1])))], 2)
    ensures ParseHex(Decode(src, ip).args[0]) == RelTarget(ip, 2, SignExt8(src[1]))
  {
    assert DopList(src[0]) == ShortJmp;
    Hex4RoundTrip(RelTarget(ip, 2, SignExt8(src[1])));
  }

  /**
   * CALL (E8) and JMPN (E9) print ip + 3 + the little-endian word after the
   * opcode, wrapped to 16 bits: the word read as a signed displacement.
   */
  lemma NearRelDecode(src: seq<byte>, ip: u16)
    requires WindowOk(src) && (src[0] == 0xE8 || src[0] == 0xE9)
    ensures var t := RelTarget(ip, 3, SignExt16(MkUint16(src[1], src[2])));
      Decode(src, ip) == Instr(if src[0] == 0xE8 then "CALL" else "JMPN", [Hex4(t)], 3)
      && ParseHex(Decode(src, ip).args[0]) == t
  {
    if src[0] == 0xE8 {
      assert DopList(0xE8) == NearRel("CALL");
    } else {
      assert DopList(0xE9) == NearRel("JMPN");
    }
    Hex4RoundTrip(RelTarget(ip, 3, SignExt16(MkUint16(src[1], src[2]))));
  }

  // ---------------------------------------------------------------------
  // Quirks kept as written

  /** 0x27 (DAA) prints SUB with no operands. */
  lemma DaaAsSub(src: seq<byte>, ip: u16)
    requires WindowOk(src) && src[0] == 0x27
    ensures Decode(src, ip) == Instr("SUB", [], 1)
  {
    assert DopList(0x27) == Fixed("SUB", []);
  }

  /** 0x0F prints POP CS. */
  lemma PopCs(src: seq<byte>, ip: u16)
    requires WindowOk(src) && src[0] == 0x0F
    ensures Decode(src, ip) == Instr("POP", ["CS"], 1)
  {
    assert DopList(0x0F) == Fixed("POP", ["CS"]);
  }

  /** 0x3E has no DS: handler: it is a data byte and the instruction after it is not consumed. */
  lemma DsIsData(src: seq<byte>, ip: u16)
    requires WindowOk(src) && src[0] == 0x3E
    ensures Decode(src, ip) == Instr("DB", ["3E"], 1)
  {
    DataByteFallback(src, ip);
  }

  /** Reg field 6 of D0-D3 prints the mnemonic "???" with the usual two operands. */
  lemma ShiftSlotSix(src: seq<byte>, ip: u16)
    requires WindowOk(src) && 0xD0 <= src[0] <= 0xD3 && RegField(src[1]) == 6
    ensures Decode(src, ip).op == "???" && Decode(src, ip).len == 1 + FormBytes(src[1])
  {
    ShiftDecode(src, ip);
  }

  /**
   * A prefixed short jump is decoded at the ip of the prefix byte, so its
   * target is 2 (not 3) bytes past that ip plus the displacement.
   */
  lemma PrefixedJmpsDecode(src: seq<byte>, ip: u16)
    requires WindowOk(src) && IsPrefix(src[0]) && src[1] == 0xEB
    ensures Decode(src, ip) == Instr(PrefixMnemonic(src[0]) + "JMPS", [Hex4(RelTarget(ip, 2, SignExt8(src[2])))], 3)
  {
    PrefixDecode(src, ip);
    PrefixSlots(src[1]);
    JmpsDecode(src[1..], ip);
  }

  // ---------------------------------------------------------------------
  // Known decodes, whatever bytes follow the instruction

  lemma MovAxImmExample(src: seq<byte>, ip: u16)
    requires WindowOk(src) && src[0] == 0xB8 && src[1] == 0x34 && src[2] == 0x12
    ensures Decode(src, ip) == Instr("MOV", ["AX", "1234"], 3)
  {
    assert DopList(0xB8) == MovRegImm(Word);
    assert Imm16(src[1..]) == "1234" by {
      assert Hex2(0x12) == "12";
      assert Hex2(0x34) == "34";
    }
  }

  lemma JzExample(src: seq<byte>)
    requires WindowOk(src) && src[0] == 0x74 && src[1] == 0x05
    ensures Decode(src, 0x100) == Instr("JZ", ["0107"], 2)
  {
    assert DopList(0x74) == Jcc;
    assert ShortTarget(0x100, 0x05) == 0x107;
    assert Hex4(0x107) == "0107" by {
      assert Hex2(0x01) == "01" && Hex2(0x07) == "07";
      assert "01" + "07" == "0107";
    }
  }

  lemma MovAlExample(src: seq<byte>, ip: u16)
    requires WindowOk(src) && src[0] == 0x8A && src[1] == 0x07
    ensures Decode(src, ip) == Instr("MOV", ["AL", "BYTE [BX]"], 2)
  {
    assert DopList(src[0]) == RegEa(Byte, "MOV");
    ModRmDecode(src, ip);
    assert RmText(Byte, src) == "BYTE [BX]" by {
      assert EaIndex(src[1]) == 7;
      assert EaTab8[7] == EaEntry(1, Plain("BYTE [BX]"));
    }
  }

  lemma EsMovExample(src: seq<byte>, ip: u16)
    requires WindowOk(src) && src[0] == 0x26 && src[1] == 0x8A && src[2] == 0x07
    ensures Decode(src, ip) == Instr("ES: MOV", ["AL", "BYTE [BX]"], 3)
  {
    PrefixDecode(src, ip);
    MovAlExample(src[1..], ip);
  }

  lemma JmpnWrapExample(src: seq<byte>)
    requires WindowOk(src) && src[0] == 0xE9 && src[1] == 0xFD && src[2] == 0xFF
    ensures Decode(src, 0) == Instr("JMPN", ["0000"], 3)
  {
    assert DopList(0xE9) == NearRel("JMPN");
    assert NearTarget(0, 0xFD, 0xFF) == 0;
    assert Hex4(0) == "0000" by {
      assert Hex2(0) == "00";
      assert "00" + "00" == "0000";
    }
  }
}
