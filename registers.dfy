/** The register file: eight 8-bit registers A, B, C, D, E, F, H, L, the 16-bit
    program counter and stack pointer, the pairs BC, DE, HL (high register first)
    and the four condition flags of F (kept as a record; `Pack` gives the byte).

    `Regs` is the value of a register file; `Registers` is the mutable object the
    instruction handlers update in place. */
module Registers {
  import opened Bytes

  /** The condition flags: zero, subtract, half-carry, carry. */
  datatype Flag = Z | N | H | C

  /** The four flags, as F holds them. */
  datatype Flags = Flags(zero: bool, subtract: bool, halfCarry: bool, carry: bool)
  {
    /** True when flag `fl` is set (`get_flag`). */
    predicate Get(fl: Flag) {
      match fl
      case Z => zero
      case N => subtract
      case H => halfCarry
      case C => carry
    }

    /** These flags with `fl` set to `v` and the other three kept (`set_flag`). */
    function Set(fl: Flag, v: bool): (r: Flags)
      ensures r.Get(fl) == v
      ensures forall other: Flag :: other != fl ==> r.Get(other) == Get(other)
    {
      match fl
      case Z => this.(zero := v)
      case N => this.(subtract := v)
      case H => this.(halfCarry := v)
      case C => this.(carry := v)
    }
  }

  /** The F byte: Z in bit 7, N in bit 6, H in bit 5, C in bit 4, the low nibble 0. */
  function Pack(fl: Flags): (f: u8)
    ensures f % 0x10 == 0
  {
    (if fl.zero then 0x80 else 0) + (if fl.subtract then 0x40 else 0)
    + (if fl.halfCarry then 0x20 else 0) + (if fl.carry then 0x10 else 0)
  }

  /** The flags held in an F byte: bits 7, 6, 5 and 4. */
  function Unpack(f: u8): Flags {
    Flags(f / 0x80 % 2 == 1, f / 0x40 % 2 == 1, f / 0x20 % 2 == 1, f / 0x10 % 2 == 1)
  }

  /** Unpacking a packed byte gives the flags back, and packing the flags of a byte
      whose low nibble is clear gives the byte back. */
  lemma PackUnpack(fl: Flags, f: u8)
    ensures Unpack(Pack(fl)) == fl
    ensures f % 0x10 == 0 ==> Pack(Unpack(f)) == f
  {
  }

  /** The value of a register file. */
  datatype Regs = Regs(a: u8, b: u8, c: u8, d: u8, e: u8, f: Flags, h: u8, l: u8,
                       pc: u16, sp: u16)
  {
    function BC(): u16 { Pair(b, c) }
    function DE(): u16 { Pair(d, e) }
    function HL(): u16 { Pair(h, l) }

    function WithBC(v: u16): (r: Regs)
      ensures r.BC() == v && r == this.(b := r.b, c := r.c)
    {
      this.(b := High(v), c := Low(v))
    }

    function WithDE(v: u16): (r: Regs)
      ensures r.DE() == v && r == this.(d := r.d, e := r.e)
    {
      this.(d := High(v), e := Low(v))
    }

    function WithHL(v: u16): (r: Regs)
      ensures r.HL() == v && r == this.(h := r.h, l := r.l)
    {
      this.(h := High(v), l := Low(v))
    }

    /** Whether a flag is set (`get_flag`). */
    predicate FlagSet(fl: Flag) { f.Get(fl) }

    /** One flag changed, the other three kept (`set_flag`). */
    function WithFlag(fl: Flag, v: bool): Regs {
      this.(f := f.Set(fl, v))
    }

    /** All four flags replaced (`set_flags`). */
    function WithFlags(fl: Flags): Regs {
      this.(f := fl)
    }

    /** A flag as the byte 0 or 1 (`get_flag_bit`). */
    function FlagBit(fl: Flag): (v: u8)
      ensures v == 0 || v == 1
    {
      if FlagSet(fl) then 1 else 0
    }
  }

  /** The register file updated in place by the ALU and the instruction handlers. */
  class Registers {
    var a: u8
    var b: u8
    var c: u8
    var d: u8
    var e: u8
    var f: Flags
    var h: u8
    var l: u8
    var pc: u16
    var sp: u16

    /** Every register 0. */
    constructor ()
      ensures Value() == Regs(0, 0, 0, 0, 0, Flags(false, false, false, false), 0, 0, 0, 0)
    {
      a, b, c, d, e, h, l, pc, sp := 0, 0, 0, 0, 0, 0, 0, 0, 0;
      f := Flags(false, false, false, false);
    }

    function Value(): Regs
      reads this
    {
      Regs(a, b, c, d, e, f, h, l, pc, sp)
    }

    function BC(): u16 reads this { Pair(b, c) }
    function DE(): u16 reads this { Pair(d, e) }
    function HL(): u16 reads this { Pair(h, l) }

    method SetBC(v: u16)
      modifies this
      ensures Value() == old(Value()).WithBC(v)
    {
      b, c := High(v), Low(v);
    }

    method SetDE(v: u16)
      modifies this
      ensures Value() == old(Value()).WithDE(v)
    {
      d, e := High(v), Low(v);
    }

    method SetHL(v: u16)
      modifies this
      ensures Value() == old(Value()).WithHL(v)
    {
      h, l := High(v), Low(v);
    }

    predicate GetFlag(fl: Flag)
      reads this
    {
      f.Get(fl)
    }

    method SetFlag(fl: Flag, v: bool)
      modifies this
      ensures Value() == old(Value()).WithFlag(fl, v)
    {
      f := f.Set(fl, v);
    }

    method SetFlags(zero: bool, subtract: bool, halfCarry: bool, carry: bool)
      modifies this
      ensures Value() == old(Value()).WithFlags(Flags(zero, subtract, halfCarry, carry))
    {
      f := Flags(zero, subtract, halfCarry, carry);
    }

    function GetFlagBit(fl: Flag): (v: u8)
      reads this
      ensures v == Value().FlagBit(fl)
    {
      if f.Get(fl) then 1 else 0
    }
  }
}
