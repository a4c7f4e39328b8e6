/**
 * The disassembly record `e86_disasm_t` and the entry point `e86_disasm`,
 * which fills it in place: the strategy of the first byte writes the
 * mnemonic, the operands, their count and the length, a prefix handler
 * decodes the rest first and then edits the mnemonic and the length, and
 * a final loop copies the consumed bytes into `dat`.
 */
module Record {
  import opened Hex
  import opened Operands
  import opened Opcodes

  class DisasmRecord {
    var ip: u16
    var datN: nat
    const dat: array<byte>
    var op: string
    var argN: nat
    var arg1: string
    var arg2: string

    /** A record whose byte buffer has room for `size` bytes. */
    constructor (size: nat)
      ensures fresh(dat) && dat.Length == size
      ensures ip == 0 && datN == 0 && op == "" && argN == 0 && arg1 == "" && arg2 == ""
    {
      ip := 0;
      datN := 0;
      dat := new byte[size];
      op := "";
      argN := 0;
      arg1 := "";
      arg2 := "";
    }

    /** The record holds the decode `r`: its mnemonic, the operands in use, their count and the length. */
    predicate Holds(r: Instr)
      reads this
    {
      && op == r.op
      && argN == |r.args|
      && (argN >= 1 ==> arg1 == r.args[0])
      && (argN >= 2 ==> arg2 == r.args[1])
      && datN == r.len
    }

    /** A handler other than a prefix: it writes the fields it uses and leaves the unused operands alone. */
    method Store(r: Instr)
      requires |r.args| <= 2
      modifies this
      ensures Holds(r) && ip == old(ip)
      ensures |r.args| < 1 ==> arg1 == old(arg1)
      ensures |r.args| < 2 ==> arg2 == old(arg2)
    {
      op := r.op;
      argN := |r.args|;
      if argN >= 1 {
        arg1 := r.args[0];
      }
      if argN >= 2 {
        arg2 := r.args[1];
      }
      datN := r.len;
    }

    /**
     * The tail of dop_26, dop_2e, dop_36, dop_f2 and dop_f3, once the
     * rest is decoded: the prefix text goes before the mnemonic
     * (`strcpy` to a temporary, `strcpy` of the text, `strcat`) and the
     * length grows by one.
     */
    method ApplyPrefix(text: string)
      modifies this
      ensures op == text + old(op) && datN == old(datN) + 1
      ensures ip == old(ip) && argN == old(argN) && arg1 == old(arg1) && arg2 == old(arg2)
    {
      var tmp := op;
      op := text;
      op := op + tmp;
      datN := datN + 1;
    }

    /**
     * e86_disasm: decode the instruction at `src` for address `ip` into
     * this record. A prefix handler calls back into e86_disasm on the rest
     * of the window with the same ip. The buffer must hold the decoded
     * length.
     */
    method Disasm(src: seq<byte>, ip: u16)
      requires WindowOk(src) && Decode(src, ip).len <= dat.Length
      modifies this, dat
      ensures Holds(Decode(src, ip)) && this.ip == ip
      ensures dat[..datN] == src[..datN]
      ensures forall j :: datN <= j < dat.Length ==> dat[j] == old(dat[j])
      ensures argN < 1 ==> arg1 == old(arg1)
      ensures argN < 2 ==> arg2 == old(arg2)
      decreases |src|
    {
      this.ip := ip;
      var s := DopList(src[0]);
      PrefixSlots(src[0]);
      if s.Prefix? {
        Disasm(src[1..], this.ip);
        ApplyPrefix(s.text);
      } else {
        Store(Run(s, src, ip));
      }
      CopyBytes(src);
    }

    /** The loop at the end of e86_disasm: `dat[i] = src[i]` for every consumed byte. */
    method CopyBytes(src: seq<byte>)
      requires datN <= dat.Length && datN <= |src|
      modifies dat
      ensures dat[..datN] == src[..datN]
      ensures forall j :: datN <= j < dat.Length ==> dat[j] == old(dat[j])
    {
      var i := 0;
      while i < datN
        invariant 0 <= i <= datN
        invariant dat[..i] == src[..i]
        invariant forall j :: datN <= j < dat.Length ==> dat[j] == old(dat[j])
      {
        dat[i] := src[i];
        i := i + 1;
      }
    }
  }
}
