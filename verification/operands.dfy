/**
 * Register name tables, the ModRM addressing-mode resolver
 * (`disasm_ea8`, `disasm_ea16` with `d_tab_ea8`, `d_tab_ea16`) and the
 * operand formatters (`disasm_imm8`, `disasm_simm8`, `disasm_imm16`,
 * `disasm_imm32`, `disasm_addr16`, `disasm_uint16`) of the 8086 disassembler.
 */
module Operands {
  import opened Hex

  /** Operand width: selects the 8-bit or the 16-bit tables. */
  datatype Width = Byte | Word

  const Reg8Names: seq<string> := ["AL", "CL", "DL", "BL", "AH", "CH", "DH", "BH"]
  const Reg16Names: seq<string> := ["AX", "CX", "DX", "BX", "SP", "BP", "SI", "DI"]
  const SRegNames: seq<string> := ["ES", "CS", "SS", "DS"]

  /**
   * `disasm_reg8` / `disasm_reg16`: the field is masked with `& 7`. Every
   * name has two letters, and the 8-bit names are exactly those ending in
   * L or H, so names of the two widths never coincide.
   */
  function RegName(w: Width, r: nat): (s: string)
    ensures |s| == 2
    ensures w == Byte <==> s[1] == 'L' || s[1] == 'H'
  {
    if w == Byte then Reg8Names[r % 8] else Reg16Names[r % 8]
  }

  /** `disasm_sreg`: the field is masked with `& 3`. */
  function SRegName(r: nat): (s: string)
    ensures |s| == 2 && s[1] == 'S'
  {
    SRegNames[r % 4]
  }

  /** The index of CL in the 8-bit register table (`E86_REG_CL`). */
  const RegCL: nat := 1

  /** Register names of one width are pairwise distinct. */
  lemma RegNameInjective(w: Width, r: nat, q: nat)
    requires r < 8 && q < 8 && RegName(w, r) == RegName(w, q)
    ensures r == q
  {
  }

  // ---------------------------------------------------------------------
  // Immediate operands; `src` starts at the operand's first byte

  /** `disasm_imm8`: the byte as two hex digits. */
  function Imm8(src: seq<byte>): (s: string)
    requires |src| >= 1
    ensures |s| == 2 && IsHex(s) && ParseHex(s) == src[0]
  {
    Hex2RoundTrip(src[0]);
    Hex2(src[0])
  }

  /** The low byte of the two's-complement negation, `(~b + 1) & 0xff`. */
  function NegByte(b: byte): (n: byte)
    ensures b >= 0x80 ==> n == 0x100 - b
  {
    (0x100 - b) % 0x100
  }

  /** The value of a signed operand text: a sign, then hex digits. */
  function SignedValue(s: string): int
    requires |s| >= 1 && IsHex(s[1..])
  {
    var v: int := ParseHex(s[1..]);
    if s[0] == '-' then -v else v
  }

  /** `disasm_simm8`: a sign and the magnitude of the two's-complement byte. */
  function SImm8(src: seq<byte>): (s: string)
    requires |src| >= 1
    ensures |s| == 3 && (s[0] == '-' <==> src[0] >= 0x80) && (s[0] == '+' <==> src[0] < 0x80)
    ensures IsHex(s[1..]) && SignedValue(s) == SignExt8(src[0])
  {
    var b := src[0];
    if b < 0x80 then
      Hex2RoundTrip(b);
      assert ("+" + Hex2(b))[1..] == Hex2(b);
      "+" + Hex2(b)
    else
      Hex2RoundTrip(NegByte(b));
      assert ("-" + Hex2(NegByte(b)))[1..] == Hex2(NegByte(b));
      "-" + Hex2(NegByte(b))
  }

  /** `disasm_imm16`: the little-endian word as four hex digits. */
  function Imm16(src: seq<byte>): (s: string)
    requires |src| >= 2
    ensures |s| == 4 && IsHex(s) && ParseHex(s) == src[0] as int + 0x100 * src[1] as int
    ensures s == Hex2(src[1]) + Hex2(src[0])
  {
    Hex4RoundTrip(MkUint16(src[0], src[1]));
    Hex4LittleEndian(src[0], src[1]);
    Hex4(MkUint16(src[0], src[1]))
  }

  /** `disasm_imm32`: a far pointer, segment (bytes 2-3) before offset (bytes 0-1). */
  function Imm32(src: seq<byte>): (s: string)
    requires |src| >= 4
    ensures |s| == 9 && s[4] == ':' && IsHex(s[..4]) && IsHex(s[5..])
    ensures ParseHex(s[..4]) == src[2] as int + 0x100 * src[3] as int
    ensures ParseHex(s[5..]) == src[0] as int + 0x100 * src[1] as int
  {
    var seg, off := Imm16(src[2..]), Imm16(src);
    assert (seg + ":" + off)[..4] == seg && (seg + ":" + off)[5..] == off;
    seg + ":" + off
  }

  /** `disasm_addr16`: a direct memory operand, the little-endian word in brackets. */
  function Addr16(src: seq<byte>): (s: string)
    requires |src| >= 2
    ensures |s| == 6 && s[0] == '[' && s[5] == ']'
    ensures IsHex(s[1..5]) && ParseHex(s[1..5]) == src[0] as int + 0x100 * src[1] as int
  {
    var a := Imm16(src);
    assert ("[" + a + "]")[1..5] == a;
    "[" + a + "]"
  }

  // ---------------------------------------------------------------------
  // ModRM fields

  /** The mod field, bits 6-7 of a ModRM byte. */
  function ModField(m: byte): (f: nat)
    ensures f < 4
  {
    m / 64
  }

  /** The reg field, bits 3-5 (`(m >> 3) & 7`): a register or a group selector. */
  function RegField(m: byte): (f: nat)
    ensures f < 8
  {
    (m / 8) % 8
  }

  /** The rm field, bits 0-2. */
  function RmField(m: byte): (f: nat)
    ensures f < 8
  {
    m % 8
  }

  /**
   * The table index `(m & 7) | ((m & 0xc0) >> 3)` of `disasm_ea8`/`disasm_ea16`:
   * the rm field in bits 0-2 and the mod field in bits 3-4 (the two masks do
   * not overlap, so `|` is `+`).
   */
  function EaIndex(m: byte): (i: nat)
    ensures i < 32
    ensures i % 8 == RmField(m) && i / 8 == ModField(m)
  {
    m % 8 + (m / 64) * 8
  }

  // ---------------------------------------------------------------------
  // Address templates

  /**
   * A template of `d_tab_ea8`/`d_tab_ea16` for `sprintf`: plain text, or text
   * around one or two `%02X` conversions (`"BYTE [SI + %02X]"` is
   * `Conv1("BYTE [SI + ", "]")`).
   */
  datatype Template = Plain(s: string) | Conv1(lead: string, tail: string) | Conv2(lead: string, tail: string)

  /** The number of `%02X` conversions in a template. */
  function Conversions(t: Template): nat
  {
    match t
    case Plain(_) => 0
    case Conv1(_, _) => 1
    case Conv2(_, _) => 2
  }

  /** `sprintf (str, template, args...)`: each conversion prints the next argument; extra arguments are ignored. */
  function Sprintf(t: Template, args: seq<byte>): string
    requires Conversions(t) <= |args|
  {
    match t
    case Plain(s) => s
    case Conv1(lead, tail) => lead + Hex2(args[0]) + tail
    case Conv2(lead, tail) => lead + Hex2(args[0]) + Hex2(args[1]) + tail
  }

  /**
   * An entry of `d_tab_ea8` / `d_tab_ea16`: bytes consumed and the template.
   * Displacements are printed as written: unsigned, after a `+`, so an 8-bit
   * displacement of -1 prints as `+ FF` (see UnsignedDisplacement).
   */
  datatype EaEntry = EaEntry(cnt: nat, arg: Template)

  const EaTab8: seq<EaEntry> := [
    EaEntry(1, Plain("BYTE [BX + SI]")),
    EaEntry(1, Plain("BYTE [BX + DI]")),
    EaEntry(1, Plain("BYTE [BP + SI]")),
    EaEntry(1, Plain("BYTE [BP + DI]")),
    EaEntry(1, Plain("BYTE [SI]")),
    EaEntry(1, Plain("BYTE [DI]")),
    EaEntry(3, Conv2("BYTE [", "]")),
    EaEntry(1, Plain("BYTE [BX]")),
    EaEntry(2, Conv1("BYTE [BX + SI + ", "]")),
    EaEntry(2, Conv1("BYTE [BX + DI + ", "]")),
    EaEntry(2, Conv1("BYTE [BP + SI + ", "]")),
    EaEntry(2, Conv1("BYTE [BP + DI + ", "]")),
    EaEntry(2, Conv1("BYTE [SI + ", "]")),
    EaEntry(2, Conv1("BYTE [DI + ", "]")),
    EaEntry(2, Conv1("BYTE [BP + ", "]")),
    EaEntry(2, Conv1("BYTE [BX + ", "]")),
    EaEntry(3, Conv2("BYTE [BX + SI + ", "]")),
    EaEntry(3, Conv2("BYTE [BX + DI + ", "]")),
    EaEntry(3, Conv2("BYTE [BP + SI + ", "]")),
    EaEntry(3, Conv2("BYTE [BP + DI + ", "]")),
    EaEntry(3, Conv2("BYTE [SI + ", "]")),
    EaEntry(3, Conv2("BYTE [DI + ", "]")),
    EaEntry(3, Conv2("BYTE [BP + ", "]")),
    EaEntry(3, Conv2("BYTE [BX + ", "]")),
    EaEntry(1, Plain("AL")),
    EaEntry(1, Plain("CL")),
    EaEntry(1, Plain("DL")),
    EaEntry(1, Plain("BL")),
    EaEntry(1, Plain("AH")),
    EaEntry(1, Plain("CH")),
    EaEntry(1, Plain("DH")),
    EaEntry(1, Plain("BH"))
  ]

  const EaTab16: seq<EaEntry> := [
    EaEntry(1, Plain("WORD [BX + SI]")),
    EaEntry(1, Plain("WORD [BX + DI]")),
    EaEntry(1, Plain("WORD [BP + SI]")),
    EaEntry(1, Plain("WORD [BP + DI]")),
    EaEntry(1, Plain("WORD [SI]")),
    EaEntry(1, Plain("WORD [DI]")),
    EaEntry(3, Conv2("WORD [", "]")),
    EaEntry(1, Plain("WORD [BX]")),
    EaEntry(2, Conv1("WORD [BX + SI + ", "]")),
    EaEntry(2, Conv1("WORD [BX + DI + ", "]")),
    EaEntry(2, Conv1("WORD [BP + SI + ", "]")),
    EaEntry(2, Conv1("WORD [BP + DI + ", "]")),
    EaEntry(2, Conv1("WORD [SI + ", "]")),
    EaEntry(2, Conv1("WORD [DI + ", "]")),
    EaEntry(2, Conv1("WORD [BP + ", "]")),
    EaEntry(2, Conv1("WORD [BX + ", "]")),
    EaEntry(3, Conv2("WORD [BX + SI + ", "]")),
    EaEntry(3, Conv2("WORD [BX + DI + ", "]")),
    EaEntry(3, Conv2("WORD [BP + SI + ", "]")),
    EaEntry(3, Conv2("WORD [BP + DI + ", "]")),
    EaEntry(3, Conv2("WORD [SI + ", "]")),
    EaEntry(3, Conv2("WORD [DI + ", "]")),
    EaEntry(3, Conv2("WORD [BP + ", "]")),
    EaEntry(3, Conv2("WORD [BX + ", "]")),
    EaEntry(1, Plain("AX")),
    EaEntry(1, Plain("CX")),
    EaEntry(1, Plain("DX")),
    EaEntry(1, Plain("BX")),
    EaEntry(1, Plain("SP")),
    EaEntry(1, Plain("BP")),
    EaEntry(1, Plain("SI")),
    EaEntry(1, Plain("DI"))
  ]

  function EaTable(w: Width): (t: seq<EaEntry>)
    ensures |t| == 32
  {
    if w == Byte then EaTab8 else EaTab16
  }

  /** The operand text and the bytes it takes, ModRM byte included. */
  datatype EaOperand = EaOperand(text: string, cnt: nat)

  /** How many bytes of the window `disasm_ea8`/`disasm_ea16` read: the ModRM byte, the one after it, and a third one for a 3-byte form. */
  function EaReach(w: Width, m: byte): nat
  {
    if EaTable(w)[EaIndex(m)].cnt == 3 then 3 else 2
  }

  /**
   * `disasm_ea8` (w == Byte) and `disasm_ea16` (w == Word) on `src`, which
   * starts at the ModRM byte. The `case 1` branch of the source has no
   * `break`: its `strcpy` is overwritten by the `sprintf` of `case 2`, which
   * is modelled as written (EaText shows the result is the template).
   */
  function Ea(w: Width, src: seq<byte>): (e: EaOperand)
    requires |src| >= 2 && |src| >= EaReach(w, src[0])
    ensures e.cnt == FormBytes(src[0])
  {
    var entry := EaTable(w)[EaIndex(src[0])];
    EaEntryShape(w, EaIndex(src[0]));
    EaCountByMode(w, src[0]);
    if entry.cnt == 1 || entry.cnt == 2 then EaOperand(Sprintf(entry.arg, [src[1]]), entry.cnt)
    else if entry.cnt == 3 then EaOperand(Sprintf(entry.arg, [src[2], src[1]]), entry.cnt)
    else EaOperand("<bad>", entry.cnt)
  }

  /** Every table entry consumes 1 to 3 bytes and has one conversion per byte after the ModRM byte. */
  lemma EaEntryShape(w: Width, i: nat)
    requires i < 32
    ensures 1 <= EaTable(w)[i].cnt <= 3
    ensures Conversions(EaTable(w)[i].arg) == EaTable(w)[i].cnt - 1
  {
  }

  // ---------------------------------------------------------------------
  // What the tables mean

  /**
   * The bytes an addressing form takes, by mod and rm field: 1 for a
   * register (mod 3) or a form without displacement (mod 0), 3 for the
   * direct address (mod 0, rm 6) and for a 16-bit displacement (mod 2),
   * 2 for an 8-bit displacement (mod 1).
   */
  function FormBytes(m: byte): (n: nat)
    ensures 1 <= n <= 3
  {
    if ModField(m) == 3 then 1
    else if ModField(m) == 0 && RmField(m) == 6 then 3
    else if ModField(m) == 0 then 1
    else if ModField(m) == 1 then 2
    else 3
  }

  /** Both tables follow that rule in all 32 slots. */
  lemma EaCountByMode(w: Width, m: byte)
    ensures EaTable(w)[EaIndex(m)].cnt == FormBytes(m)
  {
  }

  /**
   * What the resolver prints: a 1-byte form prints its template unchanged
   * (the fall-through `sprintf` has nothing to convert), a 2-byte form the
   * byte after the ModRM byte, and a 3-byte form the little-endian word
   * after it, as four digits.
   */
  lemma EaText(w: Width, src: seq<byte>)
    requires |src| >= 3
    ensures var entry := EaTable(w)[EaIndex(src[0])];
      && Ea(w, src).cnt == entry.cnt
      && (entry.cnt == 1 ==> entry.arg.Plain? && Ea(w, src).text == entry.arg.s)
      && (entry.cnt == 2 ==> entry.arg.Conv1? && Ea(w, src).text == entry.arg.lead + Hex2(src[1]) + entry.arg.tail)
      && (entry.cnt == 3 ==> entry.arg.Conv2? && Ea(w, src).text == entry.arg.lead + Hex4(MkUint16(src[1], src[2])) + entry.arg.tail)
  {
    EaEntryShape(w, EaIndex(src[0]));
    Hex4LittleEndian(src[1], src[2]);
  }

  /** The last eight entries of either table name the registers in field order. */
  lemma RegisterEntry(w: Width, i: nat)
    requires 24 <= i < 32
    ensures EaTable(w)[i] == EaEntry(1, Plain(RegName(w, i - 24)))
  {
    if i < 26 {
    } else if i < 28 {
    } else if i < 30 {
    } else {
    }
  }

  /** Register forms (mod 3) name the register of the rm field, from the same register tables. */
  lemma EaRegisterDirect(w: Width, src: seq<byte>)
    requires |src| >= 2 && ModField(src[0]) == 3
    ensures Ea(w, src) == EaOperand(RegName(w, RmField(src[0])), 1)
  {
    var i := EaIndex(src[0]);
    assert i == 24 + RmField(src[0]);
    RegisterEntry(w, i);
  }

  /**
   * A ModRM displacement is printed unsigned: mod 1, rm 7 (0x47) with the
   * displacement byte 0xFF addresses BX - 1 but prints `+ FF`.
   */
  lemma UnsignedDisplacement(src: seq<byte>)
    requires |src| >= 3 && src[0] == 0x47 && src[1] == 0xFF
    ensures Ea(Byte, src).text == "BYTE [BX + FF]"
    ensures SignExt8(src[1]) == -1
  {
    EaText(Byte, src);
  }
}
