# An 8086 instruction decoder in Dafny

This project models the 8086 disassembler of the PCE emulator
(`src/e8086/disasm.c`). `e86_disasm` takes a window of bytes and the 16-bit
instruction pointer. It fills a record with:

- the mnemonic;
- up to two operand strings and their count (`arg_n`);
- the instruction length (`dat_n`);
- a copy of the bytes it consumed.

The decoder is built in layers, and the model follows them:

- `hex.dfy` (module `Hex`): the `%02X` and `%04X` conversions as `Hex2` and
  `Hex4`, each with a parser and a proved round trip. It also holds the
  little-endian word `e86_mk_uint16`, the signed-byte add `e86_add_sint8`,
  and the relative-target arithmetic.
- `operands.dfy` (module `Operands`): the register name tables and the
  operand formatters. It also holds the ModRM addressing-mode resolver
  `disasm_ea8`/`disasm_ea16` with its two 32-entry template tables. A
  template is a datatype (`Plain`, `Conv1`, `Conv2`) that stands for a
  `sprintf` format with 0, 1 or 2 `%02X` conversions.
- `opcodes.dfy` (module `Opcodes`): one `Strategy` variant per family of
  `dop_*` handlers, and the dispatch table `dop_list` as `DopList`, row by row.
  The handler families that read a ModRM byte are functions whose contracts
  give their whole record (mnemonic, operand texts and length), and `Run`
  dispatches to them. The one-line handlers are computed in `Run` itself;
  `DecodeProps` states their whole records, the constant-operand ones
  against a listing of the handlers opcode by opcode (`FixedRecord`). `Decode` is the pure decoder. It unwinds prefix bytes
  recursively, exactly as the prefix handlers call back into `e86_disasm`.
- `decode_props.dfy` (module `DecodeProps`): what the decoder promises. This
  covers:
  - how prefixes unwind;
  - which opcodes fall back to a data byte;
  - the whole decode of each instruction family: mnemonic, operand texts and length;
  - where relative transfers land;
  - the kept quirks;
  - a few concrete decodes.
- `record.dfy` (module `Record`): the record `e86_disasm_t` as a class whose
  fields the methods update in place. `Disasm` is `e86_disasm` itself. A
  prefix handler edits the record after its recursive call (`ApplyPrefix`),
  and a final loop copies the consumed bytes into the `dat` array
  (`CopyBytes`). `Disasm` is proved to leave the record holding
  `Decode(src, ip)`.
- `bounded.dfy` (module `Bounded`): the decode the prefix handlers evidently
  intend, one that stops at the end of its window (see "## Findings").
  A prefix with nothing after it, or an instruction whose bytes do not all
  fit, becomes a data byte of its first byte.
  `Reach` gives the bytes each handler decodes, the frame lemmas show a
  handler reads nothing beyond them, and `DecodeBounded` agrees with
  `Decode` on every window `Decode` accepts.

Where the code and its documented intent differ, the model follows the code
as written and says so in a comment:

- 0x27 decodes as `SUB` with no operands, not `DAA`.
- 0x0F decodes as `POP CS`.
- 0x3E has no `DS:` prefix handler, so it is a data byte.
- 0x82 reuses the 0x80 handler.
- Slot 6 of the D0–D3 shift group prints `???` instead of falling back to a data byte.
- A prefix handler decodes the rest of the window at the unchanged `ip`. So a
  prefixed relative jump lands 1 byte short of where it would land if the
  prefix were counted.
- ModRM displacements are printed unsigned.

The byte window is a `seq<byte>`. It must hold the run of leading prefix bytes
plus 6 more bytes (`WindowOk`): every opcode is given the 6 bytes that the
longest forms read (81, C7 and F7 TEST with a 16-bit displacement), although
most handlers read fewer.

## Model

| member | source | states |
|---|---|---|
| Hex.Hex2 | src/e8086/disasm.c:156-160 | `%02X`: exactly two uppercase hex digits (their value is Hex2RoundTrip) |
| Hex.Hex4 | src/e8086/disasm.c:150-154 | `%04X`: exactly four uppercase hex digits (their value is Hex4RoundTrip) |
| Hex.Hex2RoundTrip | src/e8086/disasm.c:156-160 | reading back the two `%02X` digits of a byte gives the byte |
| Hex.Hex4RoundTrip | src/e8086/disasm.c:150-154 | reading back the four `%04X` digits of a word gives the word |
| Hex.Hex4Injective | src/e8086/disasm.c:150-154 | distinct words print distinct four-digit texts |
| Hex.MkUint16 | src/e8086/disasm.c:173-177 | the word built from (lo, hi) has lo as its low byte and hi as its high byte |
| Hex.Hex4LittleEndian | src/e8086/disasm.c:173-177 | the printed word is the high byte's digits followed by the low byte's |
| Hex.SignExt8 | src/e8086/disasm.c:162-171 | the signed value of a byte lies in -128..127, agrees with the byte modulo 256, and is negative exactly when the byte is at least 0x80 |
| Hex.AddSInt8 | src/e8086/disasm.c:889-900 | the result differs from w plus the signed byte by a multiple of 2^16 |
| Hex.SignExt16 | src/e8086/disasm.c:1497-1523 | the signed value of a word lies in -2^15..2^15-1, agrees with the word modulo 2^16, and is negative exactly when the word is at least 0x8000 |
| Operands.RegNameInjective | src/e8086/disasm.c:37-45 | the eight register names of one width are pairwise distinct |
| Operands.RegName | src/e8086/disasm.c:129-141 | disasm_reg8/disasm_reg16: a two-letter name from the table of the width; the 8-bit names are exactly those ending in L or H |
| Operands.SRegName | src/e8086/disasm.c:143-148 | disasm_sreg: a two-letter segment register name ending in S |
| Operands.NegByte | src/e8086/disasm.c:162-171 | `(~b + 1) & 0xff` for a negative byte is its magnitude 0x100 - b |
| Operands.Imm8 | src/e8086/disasm.c:156-160 | two hex digits whose value is the byte |
| Operands.SImm8 | src/e8086/disasm.c:162-171 | three characters: the sign is '-' exactly when the byte is at least 0x80, and the signed value of the text is the byte's two's-complement value |
| Operands.Imm16 | src/e8086/disasm.c:173-177 | four hex digits whose value is src[0] + 256*src[1]; the high byte is printed first |
| Operands.Imm32 | src/e8086/disasm.c:179-186 | `SSSS:OOOO`, where the segment is the word at bytes 2-3 and the offset the word at bytes 0-1 |
| Operands.Addr16 | src/e8086/disasm.c:188-192 | the little-endian word as four hex digits between brackets |
| Operands.EaIndex | src/e8086/disasm.c:196-200 | the table index is below 32; its low 3 bits are the rm field and its high bits the mod field |
| Operands.EaEntryShape | src/e8086/disasm.c:57-126 | every entry of both tables takes 1 to 3 bytes and has one conversion per byte after the ModRM byte |
| Operands.EaCountByMode | src/e8086/disasm.c:57-126 | the byte count of every entry is 1 for mod 3 or for mod 0 with rm other than 6; 3 for mod 0 with rm 6 or for mod 2; 2 for mod 1 |
| Operands.Ea | src/e8086/disasm.c:194-247 | disasm_ea8/disasm_ea16: the count returned is FormBytes(ModRM); the text is stated by EaText |
| Operands.EaText | src/e8086/disasm.c:194-247 | a 1-byte form prints its template unchanged despite the missing `break`; a 2-byte form inserts Hex2(src[1]); a 3-byte form inserts Hex4 of the little-endian word at src[1..3] |
| Operands.EaRegisterDirect | src/e8086/disasm.c:57-126 | for mod 3 the operand is the register named by the rm field, and it takes one byte |
| Operands.UnsignedDisplacement | src/e8086/disasm.c:57-91 | ModRM 0x47 with displacement byte FF, a displacement of -1, prints "BYTE [BX + FF]": displacements are printed unsigned |
| Opcodes.ModRm | src/e8086/disasm.c:259-333 | the resolver consumes exactly FormBytes(ModRM) bytes |
| Opcodes.DataByte | src/e8086/disasm.c:249-257 | exactly `DB` with the single operand Hex2(opcode), length 1; the operand reads back as the opcode |
| Opcodes.EaRegForm | src/e8086/disasm.c:259-283 | the whole record: the given mnemonic, the resolver text of the r/m operand, then the register of the reg field; length 1 + FormBytes(ModRM) |
| Opcodes.RegEaForm | src/e8086/disasm.c:285-309 | the whole record: the given mnemonic, the register of the reg field, then the resolver text; length 1 + FormBytes(ModRM) |
| Opcodes.EaForm | src/e8086/disasm.c:311-333 | the whole record: the given mnemonic and the resolver text as the only operand; length 1 + FormBytes(ModRM) |
| Opcodes.AccImmForm | src/e8086/disasm.c:363-382 | the whole record: the mnemonic, then AL with Hex2(src[1]) and length 2, or AX with Hex4 of the little-endian word at src[1..3] and length 3 |
| Opcodes.ShortTarget | src/e8086/disasm.c:889-900 | the target is ip + 2 + the signed displacement, modulo 2^16 |
| Opcodes.JmpsTarget | src/e8086/disasm.c:1536-1547 | the target is ip + 2 + the signed displacement, modulo 2^16 |
| Opcodes.NearTarget | src/e8086/disasm.c:1497-1523 | adding the unsigned word modulo 2^16 lands at ip + 3 + the signed 16-bit displacement |
| Opcodes.GroupImm | src/e8086/disasm.c:902-944 | the immediate of the 80-83 group: Hex2 of the byte, Hex4 of the little-endian word, or a signed text of three characters, '-' exactly for bytes from 80 and '+' exactly below, whose value is the sign-extended byte |
| Opcodes.Group1Form | src/e8086/disasm.c:902-944 | the whole record: d_tab_80 at the reg field, the resolver text, then the immediate read at src[1 + FormBytes(ModRM)]; length 1 + FormBytes + the immediate size |
| Opcodes.SregOf | src/e8086/disasm.c:47-50 | the segment register named by the low 2 bits of the reg field |
| Opcodes.EaSregForm | src/e8086/disasm.c:983-993 | the whole record: MOV, the resolver text of the r/m word, then the segment register of the reg field; length 1 + FormBytes |
| Opcodes.SregEaForm | src/e8086/disasm.c:1002-1012 | the whole record: MOV, the segment register of the reg field, then the resolver text of the r/m word; length 1 + FormBytes |
| Opcodes.MovEaImmForm | src/e8086/disasm.c:1305-1324 | the whole record: MOV, the resolver text, then the byte or little-endian word read at src[1 + FormBytes(ModRM)]; length FormBytes + 2 or + 3 |
| Opcodes.ShiftForm | src/e8086/disasm.c:1366-1434 | the whole record: the shift table at the reg field, the resolver text, then "CL" or "1"; length 1 + FormBytes |
| Opcodes.Group3Form | src/e8086/disasm.c:1612-1711 | reg 0 is TEST of the resolver text and the immediate read at src[1 + FormBytes]; reg 1 is a data byte; reg 2-7 are NOT, NEG, MUL, IMUL, DIV, IDIV of the resolver text with length 1 + FormBytes |
| Opcodes.Group4Form | src/e8086/disasm.c:1727-1753 | reg 0-1 are INC and DEC of the byte resolver text with length 1 + FormBytes; reg 2-7 are a data byte |
| Opcodes.Group5Form | src/e8086/disasm.c:1755-1800 | reg 0-6 are INC, DEC, CALL, CALLF, JMP, JMPF, PUSH of the word resolver text with length 1 + FormBytes; reg 7 is a data byte |
| Opcodes.Run | src/e8086/disasm.c:1804-1838 | every non-prefix handler takes 1 to 6 bytes and yields at most two operands; the whole record of each family is stated by the family's handler function or by its DecodeProps lemma |
| Opcodes.PrefixSlots | src/e8086/disasm.c:1804-1838 | the dispatch table (DopList) holds a prefix handler in exactly the slots 26, 2E, 36, F2 and F3 |
| Opcodes.Decode | src/e8086/disasm.c:1840-1853 | every window decodes to length 1 up to the prefix run + 6, with at most two operands |
| DecodeProps.PrefixDecode | src/e8086/disasm.c:652-664 | a prefix decodes the rest at the same ip, puts its text before the inner mnemonic, keeps the operands and adds one to the length |
| DecodeProps.DecodeUnwinds | src/e8086/disasm.c:652-664 | k leading prefixes: the core instruction after them is decoded on its own at the same ip; its mnemonic follows all prefix texts in order; its length grows by k |
| DecodeProps.UdSlots | src/e8086/disasm.c:1804-1838 | the dispatch table (DopList) holds dop_ud in exactly the slots of the listed data-byte set |
| DecodeProps.DataByteSlot | src/e8086/disasm.c:249-257 | every dop_ud opcode decodes as its data byte |
| DecodeProps.DataByteGroup3 | src/e8086/disasm.c:1612-1711 | F6/F7 with reg 1 decode as a data byte |
| DecodeProps.DataByteGroup45 | src/e8086/disasm.c:1727-1800 | FE with reg 2-7 and FF with reg 7 decode as a data byte |
| DecodeProps.DataByteFallback | src/e8086/disasm.c:249-257 | every unassigned slot or extension decodes as `DB XX`, length 1, where XX reads back as the opcode |
| DecodeProps.DecodeRun | src/e8086/disasm.c:1840-1853 | an opcode without a prefix handler is decoded by its handler alone |
| DecodeProps.ModRmDecode | src/e8086/disasm.c:259-333 | an EaReg, RegEa or EaOp slot decodes as the slot's mnemonic with the resolver text and the reg-field register in the slot's order, length 1 + FormBytes |
| DecodeProps.AluSlot | src/e8086/disasm.c:1806-1813 | slots 0-3 of rows 00-38 hold the r/m-register forms of ADD, OR, ADC, SBB, AND, SUB, XOR, CMP (d_tab_80 order); bit 0 is the width and bit 1 the direction |
| DecodeProps.AluDecode | src/e8086/disasm.c:335-362 | 00-3B with low bits 0-3 decode as that operation on the resolver text and the reg-field register, register first when bit 1 is set, length 1 + FormBytes |
| DecodeProps.AluAccSlot | src/e8086/disasm.c:1806-1813 | slots 4 and 5 of rows 00-38 hold the accumulator-immediate forms of the same eight operations |
| DecodeProps.AluAccDecode | src/e8086/disasm.c:363-382 | slot 4 decodes as the operation on AL and Hex2(src[1]), length 2; slot 5 on AX and Hex4 of the word at src[1..3], length 3 |
| DecodeProps.MoveXchgDecode | src/e8086/disasm.c:946-981 | 86/87 decode as XCHG and 88-8B as MOV, byte width for even opcodes; 86-89 put the r/m operand first, 8A/8B the register; length 1 + FormBytes |
| DecodeProps.MoveXchgSlot | src/e8086/disasm.c:1804-1838 | dop_list holds at 86-8B the XCHG and MOV ModRM handlers with that width and operand order |
| DecodeProps.LoadAddressDecode | src/e8086/disasm.c:995-999 | 8D decodes as LEA, C4 (1292-1296) as LES and C5 (1298-1302) as LDS: the word register of the reg field, then the r/m operand, length 1 + FormBytes |
| DecodeProps.LoadAddressSlot | src/e8086/disasm.c:1804-1838 | dop_list holds at 8D, C4 and C5 the word register-first handlers LEA, LES and LDS |
| DecodeProps.PopEaDecode | src/e8086/disasm.c:1014-1018 | 8F decodes as POP of the r/m word, length 1 + FormBytes |
| DecodeProps.AccImmDecode | src/e8086/disasm.c:1189-1209 | A8 decodes as TEST AL, Hex2(src[1]) and A9 as TEST AX with the little-endian word; E4 (1474-1483) as IN AL, Hex2(src[1]); lengths 2, 3, 2 |
| DecodeProps.AccImmSlot | src/e8086/disasm.c:1804-1838 | dop_list holds at A8, A9 and E4 the accumulator-immediate handlers TEST (byte, word) and IN (byte) |
| DecodeProps.SregMoveDecode | src/e8086/disasm.c:983-1012 | 8C decodes as MOV r/m16, sreg and 8E as MOV sreg, r/m16, length 1 + FormBytes |
| DecodeProps.ShiftDecode | src/e8086/disasm.c:1366-1434 | D0-D3 decode as the shift of the reg field on the byte (even) or word (odd) resolver text, by "1" (D0, D1) or "CL" (D2, D3), length 1 + FormBytes |
| DecodeProps.Group1Slot | src/e8086/disasm.c:902-944 | any 80-83 kind slot decodes as Group1Form promises for its width and immediate |
| DecodeProps.ImmGroupDecode | src/e8086/disasm.c:902-944 | 80-83 decode as d_tab_80 at the reg field, the resolver text, then the immediate at src[1 + FormBytes]: a byte for 80/82, a little-endian word for 81, for 83 a signed byte of three characters, '-' exactly from 80 and '+' exactly below, whose value is the sign-extended byte; length 2 + FormBytes, or 3 + FormBytes for 81 |
| DecodeProps.Op82AsOp80 | src/e8086/disasm.c:1822 | 82 decodes exactly like 80 on the same bytes |
| DecodeProps.MovImmDecode | src/e8086/disasm.c:1305-1324 | C6 decodes as MOV of the resolver text and Hex2 of the byte after the addressing form, length FormBytes + 2; C7 the same with the little-endian word, length FormBytes + 3 |
| DecodeProps.Group3Decode | src/e8086/disasm.c:1612-1711 | F6/F7 with reg 0 decode as TEST with the immediate after the addressing form, length FormBytes + 2 or + 3; reg 2-7 as NOT, NEG, MUL, IMUL, DIV, IDIV with length 1 + FormBytes |
| DecodeProps.IncDecGroupDecode | src/e8086/disasm.c:1727-1800 | FE/0-1 and FF/0-6 decode as INC, DEC, CALL, CALLF, JMP, JMPF, PUSH of the byte (FE) or word (FF) resolver text, length 1 + FormBytes |
| DecodeProps.FixedSlots | src/e8086/disasm.c:1804-1838 | the dispatch table holds a constant-operand handler in exactly the 31 opcodes of the FixedRecord listing, each with the listed mnemonic and operands |
| DecodeProps.FixedDecode | src/e8086/disasm.c:385-402 | each of the 31 one-byte handlers with constant operands (PUSH ES and POP ES here, through CMC at 1603-1610) decodes to its listed mnemonic and operands, length 1 |
| DecodeProps.RegOpSlot | src/e8086/disasm.c:1804-1838 | slots 40-5F hold the register handlers INC, DEC, PUSH, POP by row |
| DecodeProps.RegOpDecode | src/e8086/disasm.c:844-881 | 40-5F decode as INC, DEC, PUSH or POP of the word register src[0] & 7, length 1 |
| DecodeProps.XchgAxDecode | src/e8086/disasm.c:1030-1038 | 91-97 decode as XCHG AX and the word register src[0] & 7, length 1 |
| DecodeProps.MovRegImmDecode | src/e8086/disasm.c:1252-1271 | B0-B7 decode as MOV of the byte register and Hex2(src[1]), length 2; B8-BF as MOV of the word register and the little-endian word, length 3 |
| DecodeProps.AccMemDecode | src/e8086/disasm.c:1106-1147 | A0-A3 decode as MOV between AL/AX and "[" + the little-endian address + "]", loads with the register first, stores with the address first, length 3 |
| DecodeProps.Imm8OpDecode | src/e8086/disasm.c:1347-1354 | CD decodes as INT and D4 (1437-1444) as AAM, with Hex2(src[1]), length 2 |
| DecodeProps.Imm16OpDecode | src/e8086/disasm.c:1274-1281 | C2 decodes as RETN and CA (1327-1334) as RETF, with the little-endian word, length 3 |
| DecodeProps.FarDecode | src/e8086/disasm.c:1060-1067 | 9A decodes as CALL and EA (1526-1533) as JMPF, with segment (bytes 3-4) ":" offset (bytes 1-2), length 5 |
| DecodeProps.OutImmDecode | src/e8086/disasm.c:1486-1494 | E6 decodes as OUT with Hex2(src[1]) and AL, length 2 |
| DecodeProps.FlagDecode | src/e8086/disasm.c:1713-1724 | F8-FD decode as CLC, STC, CLI, STI, CLD, STD by src[0] - 0xF8, no operands, length 1 |
| DecodeProps.AllPrefixRun | src/e8086/disasm.c:653-663 | a window of prefix bytes only is one prefix run as long as the window |
| DecodeProps.PrefixOverrun | src/e8086/disasm.c:1855-1865 | sixteen 26 bytes in the 16-byte window make the prefix recursion pass the end of the window, which the guard rejects |
| DecodeProps.JccDecode | src/e8086/disasm.c:883-900 | 70-7F decode as d_tab_70 at the low nibble, target ip + 2 + signext(src[1]) modulo 2^16 in four hex digits, length 2 |
| DecodeProps.LoopDecode | src/e8086/disasm.c:1456-1472 | E0-E3 decode as LOOPNZ/LOOPZ/LOOP/JCXZ with the same short target, length 2 |
| DecodeProps.JmpsDecode | src/e8086/disasm.c:1536-1547 | EB decodes as JMPS with the same short target, length 2 |
| DecodeProps.NearRelDecode | src/e8086/disasm.c:1497-1523 | E8/E9 decode as CALL/JMPN with target ip + 3 + the signed word modulo 2^16, length 3 |
| DecodeProps.DaaAsSub | src/e8086/disasm.c:667-673 | 0x27 decodes as SUB with no operands, length 1 |
| DecodeProps.PopCs | src/e8086/disasm.c:461-468 | 0x0F decodes as POP CS, length 1 |
| DecodeProps.DsIsData | src/e8086/disasm.c:1813 | 0x3E decodes as `DB 3E`, length 1 |
| DecodeProps.ShiftSlotSix | src/e8086/disasm.c:1366-1369 | D0-D3 with reg 6 print "???" and still take 1 + FormBytes bytes |
| DecodeProps.PrefixedJmpsDecode | src/e8086/disasm.c:652-664 | a prefixed JMPS keeps the prefix's ip, so its target is ip + 2 + the displacement and its length is 3 |
| DecodeProps.MovAxImmExample | src/e8086/disasm.c:1263-1271 | B8 34 12 decodes as MOV AX, 1234, length 3 |
| DecodeProps.JzExample | src/e8086/disasm.c:889-900 | 74 05 at 0100 decodes as JZ 0107 |
| DecodeProps.MovAlExample | src/e8086/disasm.c:285-296 | 8A 07 decodes as MOV AL, BYTE [BX], length 2 |
| DecodeProps.EsMovExample | src/e8086/disasm.c:652-664 | 26 8A 07 decodes as ES: MOV AL, BYTE [BX], length 3 |
| DecodeProps.JmpnWrapExample | src/e8086/disasm.c:1512-1523 | E9 FD FF at 0000 decodes as JMPN 0000: the target wraps modulo 2^16 |
| Bounded.Reach | src/e8086/disasm.c:1804-1838 | the bytes each handler decodes, 1 to 6, by strategy and ModRM byte |
| Bounded.RunWithinReach | src/e8086/disasm.c:1840-1853 | every handler's length is its reach, or it falls back to a data byte; never more than its reach |
| Bounded.EaFrame | src/e8086/disasm.c:194-247 | the resolver's result depends only on the bytes of its addressing form |
| Bounded.ModRmFrame | src/e8086/disasm.c:259-333 | a handler's r/m operand depends only on the opcode, the ModRM byte and its displacement |
| Bounded.RunFrame | src/e8086/disasm.c:1804-1838 | two windows that agree on a handler's reach decode alike |
| Bounded.DecodeBounded | src/e8086/disasm.c:653-663 | the decode that stops at the window's end: the length never exceeds the window, whatever its contents |
| Bounded.BoundedAgrees | src/e8086/disasm.c:1840-1853 | on every window the guard of Decode accepts, DecodeBounded equals Decode |
| Bounded.AllPrefixBounded | src/e8086/disasm.c:653-663 | a window of prefixes only decodes as all but the last prefix text, then DB of the last byte, over the whole window |
| Bounded.OverrunBounded | src/e8086/disasm.c:1855-1865 | the sixteen-26 window decodes as fifteen prefix texts and DB 26, length 16 |
| Record.DisasmRecord.Store | src/e8086/disasm.c:259-270 | a handler writes mnemonic, operands in use, count and length, and leaves unused operands alone |
| Record.DisasmRecord.ApplyPrefix | src/e8086/disasm.c:659-663 | the mnemonic becomes the prefix text followed by the old mnemonic, the length grows by one, nothing else changes |
| Record.DisasmRecord.CopyBytes | src/e8086/disasm.c:1850-1852 | dat[0..dat_n) equals src[0..dat_n), and the rest of dat is unchanged |
| Record.DisasmRecord.Disasm | src/e8086/disasm.c:1840-1853 | the record holds Decode(src, ip) with ip set, dat[0..dat_n) equals src[0..dat_n), and operands beyond arg_n keep their old values |

## Findings

| source | as written | input that shows it | evidently intended | confidence | as-written member | corrected member |
|---|---|---|---|---|---|---|
| src/e8086/disasm.c:653-663 | each prefix handler (26, 2E, 36, F2, F3) decodes `src + 1` with no bound, while `e86_disasm_mem` passes a 16-byte window | sixteen 26 bytes: the handler after them reads src[16]; eleven 26 bytes, then 81 with a mod 2 ModRM byte, read up to src[16] as well | decoding stops at the end of the window | not executed; the out-of-bounds read follows from the code | DecodeProps.PrefixOverrun | Bounded.DecodeBounded |

## Left out

- `e86_disasm_mem` and `e86_disasm_cur`: they read emulated memory through the CPU structure, which is state and calls outside this model. The byte window is a parameter instead.
- `src/devices/disk.h` holds only declarations for disk I/O and has no part in decoding. It is not part of this model.
- The headers `e8086.h` and `internal.h` are not part of this model. `e86_mk_uint16` is modelled as `lo + 256*hi` and `e86_add_sint8` as `(w + signext(b)) mod 2^16`. `E86_REG_CL` is taken to be 1, the index of "CL" in the 8-bit register table. The size of `dat` is a constructor parameter.
- C buffer mechanics: the `tmp[256]` copies and the `strcpy`/`strcat`/`sprintf` buffer sizes. Text is an unbounded `seq<char>`.
- Opcodes.MovEaImmForm: C6 and C7 first store the resolver's count in `dat_n`, read the immediate at `src + 1 + dat_n`, then add 2 or 3. The model folds the two steps into the one offset `1 + FormBytes(ModRM)`, which equals that count (Operands.Ea), and the one length.
- Decode: the source itself has no bound on the prefix recursion; see "## Findings" and Bounded.DecodeBounded, which decodes every window. Windows shorter than the prefix run plus 6 bytes are excluded, although most handlers read fewer bytes (90 reads one, 70 two). So a window that the source decodes in bounds is outside the model when it ends within 6 bytes of the opcode, for example 16 bytes holding eleven 26 prefixes followed by 90.
- Operands.EaEntryShape: the 24 memory-form templates of the EA tables (mod 0-2) are checked for their byte count and conversion count. Their register-pair texts are not compared against an independent reference.
