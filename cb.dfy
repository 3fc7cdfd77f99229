/** The CB-prefixed opcode table `cb_prefix`, a method of the CPU object that owns the
    register file. `CbExec` gives the effect of one second opcode byte on the value
    of the registers and memory; `Cpu.CbPrefix` performs it in place and is proved to
    agree with it. A second byte missing from the table is a panic in the source and
    the `UnsupportedCb` status here. */
module Cb {
  import opened Bytes
  import opened Registers
  import opened Alu
  import opened Mmu
  import opened Interp = Cpu

  /** The shift `1 << b` in `alu_bit` needs `b < 8`; the handler of 0x6F passes A as
      the bit number, so it needs A below 8. Every other entry is total. */
  predicate CbFits(op: u8, s: Regs) {
    op == 0x6F ==> s.a < 8
  }

  /** `cb_prefix` on values. */
  function CbExec(op: u8, s: Regs, m: Memory): Outcome
    requires CbFits(op, s)
  {
    match op
    // RLC (HL): rotate the byte at HL, write it back.
    case 0x06 =>
      var adr := s.HL();
      var r := Rlc(s, ReadByte(adr, m));
      Done(r.regs, StoreByte(adr, r.value, m), 4)
    case 0x27 => var r := Sla(s, s.a); Done(r.regs.(a := r.value), m, 2)
    case 0x37 => var r := Swap(s, s.a); Done(r.regs.(a := r.value), m, 2)
    case 0x41 => Done(BitTest(s, 0, s.c), m, 2)
    // Labelled BIT 5,A, but A is passed as the bit number and 5 as the operand.
    case 0x6F => Done(BitTest(s, s.a, 5), m, 2)
    case 0x77 => Done(BitTest(s, 6, s.a), m, 2)
    case 0x87 => Done(s.(a := And(s.a, 0xFE)), m, 2)
    case 0xFE =>
      var adr := s.HL();
      Done(s, StoreByte(adr, Or(ReadByte(adr, m), 0x80), m), 4)
    case _ => Outcome(s, m, UnsupportedCb(op))
  }

  /** The processor object that `cb_prefix` belongs to: it owns the register file. */
  class Cpu {
    var reg: Registers

    constructor(reg: Registers)
      ensures this.reg == reg
    {
      this.reg := reg;
    }

    /** `cb_prefix`: execute the CB-prefixed opcode `op` and return its cost. */
    method CbPrefix(op: u8, mem: array<u8>) returns (status: Status)
      requires mem.Length == 0x10000 && CbFits(op, reg.Value())
      modifies reg, mem
      ensures Outcome(reg.Value(), mem[..], status) == CbExec(op, old(reg.Value()), old(mem[..]))
    {
      match op
      case 0x06 =>
        var adr := reg.HL();
        var val := AluRlc(reg, ReadByte(adr, mem[..]));
        WriteByte(adr, val, mem);
        status := Cycles(4);
      case 0x27 =>
        var n := reg.a;
        var val := AluSla(reg, n);
        reg.a := val;
        status := Cycles(2);
      case 0x37 =>
        var n := reg.a;
        reg.a := AluSwap(reg, n);
        status := Cycles(2);
      case 0x41 =>
        var r := reg.c;
        AluBit(reg, 0, r);
        status := Cycles(2);
      case 0x6F =>
        var b := reg.a;
        AluBit(reg, b, 5);
        status := Cycles(2);
      case 0x77 =>
        var r := reg.a;
        AluBit(reg, 6, r);
        status := Cycles(2);
      case 0x87 =>
        reg.a := And(reg.a, 0xFE);
        status := Cycles(2);
      case 0xFE =>
        var adr := reg.HL();
        var val := Or(ReadByte(adr, mem[..]), 0x80);
        WriteByte(adr, val, mem);
        status := Cycles(4);
      case _ =>
        status := UnsupportedCb(op);
    }
  }

  /** The cost table of `cb_prefix`, written out independently of the handlers. */
  function CbCost(op: u8): Status {
    match op
    case 0x06 | 0xFE => Cycles(4)
    case 0x27 | 0x37 | 0x41 | 0x6F | 0x77 | 0x87 => Cycles(2)
    case _ => UnsupportedCb(op)
  }

  /** Every second byte reports the cycles of the cost table; the table panics exactly
      on the bytes it does not list, and then changes nothing. */
  lemma CbStatusTable(op: u8, s: Regs, m: Memory)
    requires CbFits(op, s)
    ensures CbExec(op, s, m).status == CbCost(op)
    ensures CbExec(op, s, m).status.UnsupportedCb? ==> CbExec(op, s, m) == Outcome(s, m, CbCost(op))
  {
  }

  /** RLC (HL) rotates the byte at HL left by one, bit 7 coming round to bit 0 and into
      C, sets Z exactly when that byte is 0, and changes no other byte or register. */
  lemma RlcHlRotates(s: Regs, m: Memory)
    ensures CbExec(0x06, s, m).mem[s.HL()] == 2 * (m[s.HL()] % 0x80) + m[s.HL()] / 0x80
    ensures forall adr: u16 | adr != s.HL() :: CbExec(0x06, s, m).mem[adr] == m[adr]
    ensures CbExec(0x06, s, m).regs
      == s.(f := Flags(m[s.HL()] == 0, false, false, m[s.HL()] >= 0x80))
    ensures CbExec(0x06, s, m).status == Cycles(4)
  {
    var v := m[s.HL()];
    var r := Rlc(s, v);
    assert r.value == 2 * (r.value / 2) + r.value % 2;
  }

  /** SLA A doubles A modulo 0x100, moving bit 7 into C; Z reports the result. */
  lemma SlaADoubles(s: Regs, m: Memory)
    ensures CbExec(0x27, s, m).regs.a == (2 * s.a) % 0x100
    ensures CbExec(0x27, s, m).regs
      == s.(a := (2 * s.a) % 0x100, f := Flags((2 * s.a) % 0x100 == 0, false, false, s.a >= 0x80))
    ensures CbExec(0x27, s, m).mem == m
  {
    var r := Sla(s, s.a);
    assert r.value == 2 * (r.value / 2) + r.value % 2;
    DoubleMod(s.a);
  }

  /** Doubling a byte modulo 0x100 drops its bit 7. */
  lemma DoubleMod(n: u8)
    ensures (2 * n) % 0x100 == 2 * (n % 0x80)
  {
    var x := 2 * (n % 0x80);
    assert 2 * n == x + 0x100 * (n / 0x80);
  }

  /** SWAP A exchanges the nibbles of A, sets Z exactly when A is 0 and clears the
      other flags; swapping twice gives A back. */
  lemma SwapAInvolution(s: Regs, m: Memory)
    ensures CbExec(0x37, s, m).regs.a / 0x10 == s.a % 0x10
    ensures CbExec(0x37, s, m).regs.a % 0x10 == s.a / 0x10
    ensures CbExec(0x37, s, m).regs.f == Flags(s.a == 0, false, false, false)
    ensures CbExec(0x37, CbExec(0x37, s, m).regs, m).regs.a == s.a
  {
    SwapTwice(s, s.a);
  }

  /** BIT 0,C and BIT 6,A set Z exactly when the tested bit is clear, clear N, set H
      and keep C and every register. */
  lemma BitTests(s: Regs, m: Memory)
    ensures CbExec(0x41, s, m).regs == s.(f := Flags(s.c % 2 == 0, false, true, s.FlagSet(C)))
    ensures CbExec(0x77, s, m).regs == s.(f := Flags(!Bit(s.a, 6), false, true, s.FlagSet(C)))
    ensures CbExec(0x41, s, m).mem == m && CbExec(0x77, s, m).mem == m
  {
    BitTestFlags(s, 0, s.c);
    BitTestFlags(s, 6, s.a);
  }

  /** As written, 0x6F tests bit A of the constant 5 (0b101): Z is set exactly when A
      is neither 0 nor 2. With A = 0 bit 5 of A is clear, yet Z ends up clear. */
  lemma Bit5AAsWritten(s: Regs, m: Memory)
    requires s.a < 8
    ensures CbExec(0x6F, s, m).regs.FlagSet(Z) <==> !(s.a == 0 || s.a == 2)
    ensures s.a == 0 ==> !Bit(s.a, 5) && !CbExec(0x6F, s, m).regs.FlagSet(Z)
  {
    BitTestFlags(s, s.a, 5);
    BitsOfFive(s.a);
    ZeroBit(5);
  }

  /** The constant 5 has exactly bits 0 and 2 set. */
  lemma BitsOfFive(k: nat)
    requires k < 8
    ensures Bit(5, k) <==> k == 0 || k == 2
  {
    assert Shr(5, 1) == 2 && Shr(5, 2) == 1 && Shr(5, 3) == 0;
    if k > 3 {
      assert Shr(5, k) == Shr(2, k - 1) == Shr(1, k - 2) == Shr(0, k - 3);
      ZeroBit(k - 3);
    }
  }

  /** BIT 5,A as the label says: Z is set exactly when bit 5 of A is clear, and every
      value of A is accepted. */
  function Bit5AIntended(s: Regs): (t: Regs)
    ensures t == s.(f := Flags(!Bit(s.a, 5), false, true, s.FlagSet(C)))
  {
    BitTestFlags(s, 5, s.a);
    BitTest(s, 5, s.a)
  }

  /** With A = 0 the corrected BIT 5,A sets Z where the table entry clears it. */
  lemma Bit5ADiffers(s: Regs, m: Memory)
    requires s.a == 0
    ensures Bit5AIntended(s).FlagSet(Z) && !CbExec(0x6F, s, m).regs.FlagSet(Z)
  {
    Bit5AAsWritten(s, m);
  }

  /** RES 0,A clears bit 0 of A and keeps everything else, F included. */
  lemma Res0A(s: Regs, m: Memory)
    ensures CbExec(0x87, s, m) == Done(s.(a := s.a - s.a % 2), m, 2)
  {
    ClearLowBit(s.a);
  }

  /** SET 7,(HL) sets bit 7 of the byte at HL, keeps its other bits, and changes no
      other byte and no register. */
  lemma Set7Hl(s: Regs, m: Memory, k: nat)
    requires k < 8
    ensures Bit(CbExec(0xFE, s, m).mem[s.HL()], k) <==> k == 7 || Bit(m[s.HL()], k)
    ensures forall adr: u16 | adr != s.HL() :: CbExec(0xFE, s, m).mem[adr] == m[adr]
    ensures CbExec(0xFE, s, m).regs == s && CbExec(0xFE, s, m).status == Cycles(4)
  {
    assert Pow2(7) == 0x80;
    assert SetBit(m[s.HL()], 7) == Or(m[s.HL()], 0x80);
    SetBitBits(m[s.HL()], 7, k);
  }
}
