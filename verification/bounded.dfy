/**
 * A decoder that never looks past the end of its window. The prefix
 * handlers of the source decode `src + 1` with no bound, so a run of
 * prefixes can carry the decode past the 16 bytes the memory front end
 * fills (see PrefixOverrun). DecodeBounded stops instead: a prefix with
 * nothing after it, or an instruction whose bytes do not all fit, is
 * decoded as a data byte. On every window Decode accepts the two agree.
 */
module Bounded {
  import opened Hex
  import opened Operands
  import opened Opcodes
  import opened DecodeProps

  // ---------------------------------------------------------------------
  // How far a handler reads

  /**
   * The bytes the handler of `s` decodes, the opcode included, when `m` is
   * the byte after the opcode: the length it reports, except that the
   * data-byte fallbacks of F6/F7, FE and FF need the ModRM byte to choose
   * the fallback.
   */
  function Reach(s: Strategy, m: byte): (n: nat)
    requires !s.Prefix?
    ensures 1 <= n <= 6
  {
    var ea := 1 + FormBytes(m);
    match s
    case Ud => 1
    case Fixed(_, _) => 1
    case RegOp(_) => 1
    case XchgAx => 1
    case Flag(_) => 1
    case OutImm => 2
    case Imm8Op(_) => 2
    case Jcc => 2
    case Loop(_) => 2
    case ShortJmp => 2
    case AccImm(w, _) => if w == Byte then 2 else 3
    case MovRegImm(w) => if w == Byte then 2 else 3
    case AccMem(_, _) => 3
    case Imm16Op(_) => 3
    case NearRel(_) => 3
    case Far(_) => 5
    case EaReg(_, _) => ea
    case RegEa(_, _) => ea
    case EaOp(_, _) => ea
    case EaSreg => ea
    case SregEa => ea
    case Shift(_, _) => ea
    case Group1(_, k) => ea + ImmSize(k)
    case MovEaImm(w) => if w == Byte then ea + 1 else ea + 2
    case Group3(w) =>
      if RegField(m) == 0 then (if w == Byte then ea + 1 else ea + 2)
      else if RegField(m) == 1 then 2
      else ea
    case Group4 => if RegField(m) < 2 then ea else 2
    case Group5 => if RegField(m) < 7 then ea else 2
  }

  /** The handler takes exactly its reach, or falls back to a data byte. */
  lemma RunWithinReach(s: Strategy, src: seq<byte>, ip: u16)
    requires !s.Prefix? && |src| >= 6
    ensures Run(s, src, ip).len == Reach(s, src[1]) || Run(s, src, ip) == DataByte(src)
    ensures Run(s, src, ip).len <= Reach(s, src[1])
  {
  }

  /** Two windows that hold the same first `n` bytes. */
  predicate Agree(a: seq<byte>, b: seq<byte>, n: nat)
  {
    n <= |a| && n <= |b| && forall i :: 0 <= i < n ==> a[i] == b[i]
  }

  /** The resolver reads only the bytes of its addressing form. */
  lemma EaFrame(w: Width, x: seq<byte>, y: seq<byte>)
    requires |x| >= 3 && |y| >= 3 && Agree(x, y, FormBytes(x[0]))
    ensures Ea(w, x) == Ea(w, y)
  {
    assert x[0] == y[0];
    EaCountByMode(w, x[0]);
    EaEntryShape(w, EaIndex(x[0]));
    if FormBytes(x[0]) >= 2 {
      assert x[1] == y[1];
    }
    if FormBytes(x[0]) == 3 {
      assert x[2] == y[2];
    }
  }

  /** The ModRM operand of a handler reads only the opcode and its addressing form. */
  lemma ModRmFrame(w: Width, a: seq<byte>, b: seq<byte>)
    requires |a| >= 4 && |b| >= 4 && Agree(a, b, 1 + FormBytes(a[1]))
    ensures ModRm(w, a) == ModRm(w, b)
  {
    var n := FormBytes(a[1]);
    assert forall i :: 0 <= i < n ==> a[1..][i] == a[i + 1] && b[1..][i] == b[i + 1];
    EaFrame(w, a[1..], b[1..]);
  }

  /** A handler reads nothing beyond its reach. */
  lemma RunFrame(s: Strategy, a: seq<byte>, b: seq<byte>, ip: u16)
    requires !s.Prefix? && |a| >= 6 && |b| >= 6 && Agree(a, b, Reach(s, a[1]))
    ensures Run(s, a, ip) == Run(s, b, ip)
  {
    if s.Ud? || s.Fixed? || s.RegOp? || s.XchgAx? || s.Flag? {
      assert a[0] == b[0];
    } else if s.OutImm? || s.Imm8Op? || s.Jcc? || s.Loop? || s.ShortJmp? {
      assert a[0] == b[0] && a[1] == b[1];
    } else if s.AccImm? || s.MovRegImm? || s.AccMem? || s.Imm16Op? || s.NearRel? || s.Far? {
      ImmediateFrame(s, a, b, ip);
    } else if s.EaReg? || s.RegEa? || s.EaOp? || s.EaSreg? || s.SregEa? || s.Shift? {
      ModRmFormFrame(s, a, b, ip);
    } else if s.Group1? || s.MovEaImm? {
      ModRmImmFrame(s, a, b, ip);
    } else {
      GroupFrame(s, a, b, ip);
    }
  }

  /** The handlers with immediates right after the opcode. */
  lemma ImmediateFrame(s: Strategy, a: seq<byte>, b: seq<byte>, ip: u16)
    requires s.AccImm? || s.MovRegImm? || s.AccMem? || s.Imm16Op? || s.NearRel? || s.Far?
    requires |a| >= 6 && |b| >= 6 && Agree(a, b, Reach(s, a[1]))
    ensures Run(s, a, ip) == Run(s, b, ip)
  {
    assert a[0] == b[0] && a[1] == b[1];
    if Reach(s, a[1]) >= 3 {
      assert a[2] == b[2];
    }
    if s.Far? {
      assert a[3] == b[3] && a[4] == b[4];
      assert a[1..][..4] == b[1..][..4];
    }
  }

  /** The handlers whose only bytes are the opcode and the addressing form. */
  lemma ModRmFormFrame(s: Strategy, a: seq<byte>, b: seq<byte>, ip: u16)
    requires s.EaReg? || s.RegEa? || s.EaOp? || s.EaSreg? || s.SregEa? || s.Shift?
    requires |a| >= 6 && |b| >= 6 && Agree(a, b, Reach(s, a[1]))
    ensures Run(s, a, ip) == Run(s, b, ip)
  {
    assert a[0] == b[0] && a[1] == b[1];
    ModRmFrame(Byte, a, b);
    ModRmFrame(Word, a, b);
  }

  /** The 80-83 group and C6/C7: an immediate after the addressing form. */
  lemma ModRmImmFrame(s: Strategy, a: seq<byte>, b: seq<byte>, ip: u16)
    requires s.Group1? || s.MovEaImm?
    requires |a| >= 6 && |b| >= 6 && Agree(a, b, Reach(s, a[1]))
    ensures Run(s, a, ip) == Run(s, b, ip)
  {
    var n := FormBytes(a[1]);
    assert a[0] == b[0] && a[1] == b[1] && a[1 + n] == b[1 + n];
    ModRmFrame(Byte, a, b);
    ModRmFrame(Word, a, b);
    if Reach(s, a[1]) == n + 3 {
      assert a[2 + n] == b[2 + n];
    }
  }

  /** The extension groups F6/F7, FE and FF. */
  lemma GroupFrame(s: Strategy, a: seq<byte>, b: seq<byte>, ip: u16)
    requires s.Group3? || s.Group4? || s.Group5?
    requires |a| >= 6 && |b| >= 6 && Agree(a, b, Reach(s, a[1]))
    ensures Run(s, a, ip) == Run(s, b, ip)
  {
    var n := FormBytes(a[1]);
    assert a[0] == b[0] && a[1] == b[1];
    if Reach(s, a[1]) >= 1 + n {
      ModRmFrame(Byte, a, b);
      ModRmFrame(Word, a, b);
    }
    if s.Group3? && RegField(a[1]) == 0 {
      assert a[1 + n] == b[1 + n];
      if s.w == Word {
        assert a[2 + n] == b[2 + n];
      }
    }
  }

  // ---------------------------------------------------------------------
  // The bounded decode

  /** The bytes a short window is padded with before its handler runs; RunFrame shows a handler that fits never reads them. */
  const Filler: seq<byte> := [0, 0, 0, 0, 0, 0]

  /**
   * The decode of `src` that stays inside `src`: prefixes recurse as in
   * Decode while a byte follows them; a bare prefix at the end, or an
   * opcode whose reach passes the end, is a data byte.
   */
  function DecodeBounded(src: seq<byte>, ip: u16): (r: Instr)
    requires |src| >= 1
    ensures 1 <= r.len <= |src| && |r.args| <= 2
    decreases |src|
  {
    var s, x := DopList(src[0]), src + Filler;
    if s.Prefix? then
      if |src| == 1 then DataByte(src)
      else
        var inner := DecodeBounded(src[1..], ip);
        Instr(s.text + inner.op, inner.args, inner.len + 1)
    else if Reach(s, x[1]) <= |src| then
      RunWithinReach(s, x, ip);
      Run(s, x, ip)
    else
      DataByte(src)
  }

  /** On every window Decode accepts, the bounded decode is Decode. */
  lemma {:induction false} BoundedAgrees(src: seq<byte>, ip: u16)
    requires WindowOk(src)
    ensures DecodeBounded(src, ip) == Decode(src, ip)
    decreases |src|
  {
    var s := DopList(src[0]);
    PrefixSlots(src[0]);
    if s.Prefix? {
      assert WindowOk(src[1..]);
      BoundedAgrees(src[1..], ip);
    } else {
      var x := src + Filler;
      assert x[1] == src[1];
      assert forall i :: 0 <= i < |src| ==> x[i] == src[i];
      RunFrame(s, x, src, ip);
    }
  }

  /**
   * A window of prefixes only: every prefix but the last goes before the
   * mnemonic, and the last one, with nothing after it, is a data byte;
   * the length is the whole window.
   */
  lemma {:induction false} AllPrefixBounded(src: seq<byte>, ip: u16)
    requires |src| >= 1 && forall i :: 0 <= i < |src| ==> IsPrefix(src[i])
    ensures DecodeBounded(src, ip) == Instr(PrefixTexts(src[..|src| - 1]) + "DB", [Hex2(src[|src| - 1])], |src|)
    decreases |src|
  {
    var n := |src|;
    assert DopList(src[0]) == Prefix(PrefixMnemonic(src[0]));
    if n == 1 {
      assert PrefixTexts(src[..0]) == "";
    } else {
      var rest := src[1..];
      assert forall i :: 0 <= i < |rest| ==> rest[i] == src[i + 1];
      AllPrefixBounded(rest, ip);
      assert rest[..n - 2] == src[..n - 1][1..];
      assert PrefixTexts(src[..n - 1]) == PrefixMnemonic(src[0]) + PrefixTexts(rest[..n - 2]);
      Associative(PrefixMnemonic(src[0]), PrefixTexts(rest[..n - 2]), "DB");
    }
  }

  /**
   * The window of PrefixOverrun, sixteen 26 bytes: the bounded decode
   * prints fifteen ES prefixes and the last 26 as a data byte, all sixteen
   * bytes and no more.
   */
  lemma OverrunBounded(src: seq<byte>, ip: u16)
    requires |src| == 16 && forall i :: 0 <= i < 16 ==> src[i] == 0x26
    ensures DecodeBounded(src, ip) == Instr(PrefixTexts(src[..15]) + "DB", [Hex2(0x26)], 16)
  {
    AllPrefixBounded(src, ip);
  }
}
