/** Properties of the primary opcode table: the status and cost of every opcode, the
    meaning of the rotates and of the 16-bit increments, the conditional jumps, what
    the high-page stores touch, and CALL followed by RET. */
module CpuFacts {
  import opened Bytes
  import opened Registers
  import opened Alu
  import opened Mmu
  import opened Cpu

  /** The cost table of `call_instruction`, written out independently of the handlers:
      the cycles each implemented opcode reports (the conditional ones by their flag),
      the second byte's verdict for the CB prefix, and the panic for every opcode the
      table leaves out. */
  function ExpectedStatus(op: u8, zero: bool, carry: bool, next: u8): Status {
    match op
    case 0x00 | 0x04 | 0x05 | 0x07 | 0x0C | 0x0D | 0x10 | 0x14 | 0x15 | 0x1D | 0x1F
      | 0x25 | 0x2C | 0x2F | 0x41 | 0x47 | 0x4F | 0x67 | 0x78 | 0x79 | 0x7B | 0x7C
      | 0x7F | 0x8A | 0x93 | 0xA1 | 0xA9 | 0xAF | 0xB0 | 0xB1 | 0xBF | 0xF3 | 0xFB
      => Cycles(1)
    case 0x02 | 0x03 | 0x06 | 0x0A | 0x0B | 0x0E | 0x16 | 0x19 | 0x1E | 0x23 | 0x29
      | 0x2A | 0x32 | 0x36 | 0x38 | 0x3E | 0x77 | 0xE2 | 0xE6 | 0xFE
      => Cycles(2)
    case 0x01 | 0x11 | 0x18 | 0x21 | 0x31 | 0xE0 | 0xF0 => Cycles(3)
    case 0xC3 | 0xC9 | 0xEA => Cycles(4)
    case 0x08 => Cycles(5)
    case 0xCD => Cycles(6)
    case 0x20 => Cycles(if zero then 2 else 3)
    case 0xD2 => Cycles(if carry then 4 else 3)
    case 0xCB => if next == 0x37 then Cycles(2) else UnsupportedCb(next)
    case _ => Unsupported(op)
  }

  lemma StatusImmediateLow(op: u8, s: Regs, m: Memory)
    requires IsImmediate(op) && op < 0x30 && Fits(op, s, m)
    ensures ExecImmediate(op, s, m).status == ExpectedStatus(op, s.FlagSet(Z), s.FlagSet(C), m[s.pc])
  {
  }

  lemma StatusImmediateHigh(op: u8, s: Regs, m: Memory)
    requires IsImmediate(op) && 0x30 <= op && Fits(op, s, m)
    ensures ExecImmediate(op, s, m).status == ExpectedStatus(op, s.FlagSet(Z), s.FlagSet(C), m[s.pc])
  {
  }

  lemma StatusImmediate(op: u8, s: Regs, m: Memory)
    requires IsImmediate(op) && Fits(op, s, m)
    ensures ExecImmediate(op, s, m).status == ExpectedStatus(op, s.FlagSet(Z), s.FlagSet(C), m[s.pc])
  {
    if op < 0x30 {
      StatusImmediateLow(op, s, m);
    } else {
      StatusImmediateHigh(op, s, m);
    }
  }


  lemma StatusMoveLow(op: u8, s: Regs, m: Memory)
    requires IsMove(op) && op < 0x70 && Fits(op, s, m)
    ensures ExecMove(op, s, m).status == ExpectedStatus(op, s.FlagSet(Z), s.FlagSet(C), m[s.pc])
  {
  }

  lemma StatusMoveHigh(op: u8, s: Regs, m: Memory)
    requires IsMove(op) && 0x70 <= op && Fits(op, s, m)
    ensures ExecMove(op, s, m).status == ExpectedStatus(op, s.FlagSet(Z), s.FlagSet(C), m[s.pc])
  {
  }

  lemma StatusMove(op: u8, s: Regs, m: Memory)
    requires IsMove(op) && Fits(op, s, m)
    ensures ExecMove(op, s, m).status == ExpectedStatus(op, s.FlagSet(Z), s.FlagSet(C), m[s.pc])
  {
    if op < 0x70 {
      StatusMoveLow(op, s, m);
    } else {
      StatusMoveHigh(op, s, m);
    }
  }


  lemma StatusIncDec(op: u8, s: Regs, m: Memory)
    requires IsIncDec(op) && Fits(op, s, m)
    ensures ExecIncDec(op, s, m).status == ExpectedStatus(op, s.FlagSet(Z), s.FlagSet(C), m[s.pc])
  {
  }

  lemma StatusAluLow(op: u8, s: Regs, m: Memory)
    requires IsAluOp(op) && op < 0x80 && Fits(op, s, m)
    ensures ExecAlu(op, s, m).status == ExpectedStatus(op, s.FlagSet(Z), s.FlagSet(C), m[s.pc])
  {
  }

  lemma StatusAluHigh(op: u8, s: Regs, m: Memory)
    requires IsAluOp(op) && 0x80 <= op && Fits(op, s, m)
    ensures ExecAlu(op, s, m).status == ExpectedStatus(op, s.FlagSet(Z), s.FlagSet(C), m[s.pc])
  {
  }

  lemma StatusAlu(op: u8, s: Regs, m: Memory)
    requires IsAluOp(op) && Fits(op, s, m)
    ensures ExecAlu(op, s, m).status == ExpectedStatus(op, s.FlagSet(Z), s.FlagSet(C), m[s.pc])
  {
    if op < 0x80 {
      StatusAluLow(op, s, m);
    } else {
      StatusAluHigh(op, s, m);
    }
  }


  lemma StatusControlLow(op: u8, s: Regs, m: Memory)
    requires IsControl(op) && op < 0xC0 && Fits(op, s, m)
    ensures ExecControl(op, s, m).status == ExpectedStatus(op, s.FlagSet(Z), s.FlagSet(C), m[s.pc])
  {
  }

  lemma StatusControlHigh(op: u8, s: Regs, m: Memory)
    requires IsControl(op) && 0xC0 <= op && Fits(op, s, m)
    ensures ExecControl(op, s, m).status == ExpectedStatus(op, s.FlagSet(Z), s.FlagSet(C), m[s.pc])
  {
  }

  lemma StatusControl(op: u8, s: Regs, m: Memory)
    requires IsControl(op) && Fits(op, s, m)
    ensures ExecControl(op, s, m).status == ExpectedStatus(op, s.FlagSet(Z), s.FlagSet(C), m[s.pc])
  {
    if op < 0xC0 {
      StatusControlLow(op, s, m);
    } else {
      StatusControlHigh(op, s, m);
    }
  }


  /** Every opcode reports the cycles of the cost table; the table panics exactly on
      the opcodes it does not list, and then changes nothing. */
  lemma StatusTable(op: u8, s: Regs, m: Memory)
    requires Fits(op, s, m)
    ensures Exec(op, s, m).status == ExpectedStatus(op, s.FlagSet(Z), s.FlagSet(C), m[s.pc])
    ensures Exec(op, s, m).status.Unsupported? ==> Exec(op, s, m) == Outcome(s, m, Unsupported(op))
  {
    if IsImmediate(op) {
      StatusImmediate(op, s, m);
    } else if IsMove(op) {
      StatusMove(op, s, m);
    } else if IsIncDec(op) {
      StatusIncDec(op, s, m);
    } else if IsAluOp(op) {
      StatusAlu(op, s, m);
    } else if IsControl(op) {
      StatusControl(op, s, m);
    }
  }

  // Register and accumulator instructions.

  /** INC BC adds one to BC modulo 0x10000 in two cycles and leaves F, every other
      register and memory alone; DEC BC right after it gives the registers back. */
  lemma IncDecBc(s: Regs, m: Memory)
    ensures Exec(0x03, s, m).status == Cycles(2) && Exec(0x03, s, m).mem == m
    ensures Exec(0x03, s, m).regs.BC() == (s.BC() + 1) % 0x10000
    ensures Exec(0x03, s, m).regs == s.(b := Exec(0x03, s, m).regs.b, c := Exec(0x03, s, m).regs.c)
    ensures Exec(0x0B, Exec(0x03, s, m).regs, m).regs == s
  {
    var t := Exec(0x03, s, m).regs;
    WrappingInverse(s.BC());
    var u := Exec(0x0B, t, m).regs;
    assert u.BC() == s.BC();
    assert u.b == High(u.BC()) && s.b == High(s.BC());
    assert u.c == Low(u.BC()) && s.c == Low(s.BC());
  }

  /** INC HL adds one to HL modulo 0x10000 in two cycles and leaves F, every other
      register and memory alone. */
  lemma IncHl(s: Regs, m: Memory)
    ensures Exec(0x23, s, m).status == Cycles(2) && Exec(0x23, s, m).mem == m
    ensures Exec(0x23, s, m).regs.HL() == (s.HL() + 1) % 0x10000
    ensures Exec(0x23, s, m).regs == s.(h := Exec(0x23, s, m).regs.h, l := Exec(0x23, s, m).regs.l)
  {
  }

  /** RLCA rotates A left by one, bit 7 coming round to bit 0 and into C, and clears
      Z, N and H even when A becomes 0; the rotation is the one CB RLC applies. */
  lemma RlcaRotates(s: Regs, m: Memory)
    ensures Exec(0x07, s, m)
      == Done(s.(a := 2 * (s.a % 0x80) + s.a / 0x80,
                 f := Flags(false, false, false, s.a >= 0x80)), m, 1)
    ensures Exec(0x07, s, m).regs.a == Rlc(s, s.a).value
  {
    RotateHalves(s.a);
  }

  /** RRA rotates A right through C: the old C becomes bit 7, bit 0 goes into C, and
      Z, N and H are cleared. */
  lemma RraRotates(s: Regs, m: Memory)
    ensures Exec(0x1F, s, m)
      == Done(s.(a := s.a / 2 + 0x80 * s.FlagBit(C),
                 f := Flags(false, false, false, s.a % 2 == 1)), m, 1)
  {
    LowBit(s.a);
    RotateInHigh(s.a / 2, s.FlagBit(C));
  }

  /** Or-ing a 7-bit value with a carry moved to bit 7 is their sum. */
  lemma RotateInHigh(x: u8, c: u8)
    requires x < 0x80 && c < 2
    ensures Or(x, c * 0x80) == x + c * 0x80
  {
    assert Pow2(7) == 0x80 && Pow2(8) == 0x100;
    assert LowZero(0, 7) && LowZero(0x80, 7);
    OrDisjoint(x, c * 0x80, 7, 8);
  }

  /** CPL complements A, sets N and H and keeps the other flags; twice it gives A back. */
  lemma CplTwice(s: Regs, m: Memory)
    ensures Exec(0x2F, s, m).regs.a + s.a == 0xFF
    ensures Exec(0x2F, s, m).regs.f == s.f.(subtract := true, halfCarry := true)
    ensures Exec(0x2F, Exec(0x2F, s, m).regs, m).regs.a == s.a
  {
  }

  /** XOR A clears A and leaves exactly Z set, which is what `alu_xor` with A as the
      operand computes. */
  lemma XorAClears(s: Regs, m: Memory)
    ensures Exec(0xAF, s, m) == Done(XorA(s, s.a), m, 1)
    ensures Exec(0xAF, s, m).regs.a == 0 && Exec(0xAF, s, m).regs.f == Flags(true, false, false, false)
  {
    XorSelf(s);
    XorBitsSelf(s.a, 8);
  }

  // Jumps.

  /** JR NZ changes only PC: when Z is clear it jumps like JR r8 by the signed offset
      counted from the byte after the operand (3 cycles), otherwise it steps over the
      operand (2 cycles). */
  lemma JrNzBranches(s: Regs, m: Memory)
    requires s.pc < 0xFFFF
    ensures Exec(0x20, s, m).regs == s.(pc := Exec(0x20, s, m).regs.pc) && Exec(0x20, s, m).mem == m
    ensures Exec(0x20, s, m).status == Cycles(if s.FlagSet(Z) then 2 else 3)
    ensures s.FlagSet(Z) ==> Exec(0x20, s, m).regs.pc == s.pc + 1
    ensures !s.FlagSet(Z) ==> Exec(0x20, s, m) == Exec(0x18, s, m)
    ensures !s.FlagSet(Z) && 0 <= s.pc + 1 + Signed(m[s.pc]) < 0x10000
            ==> Exec(0x20, s, m).regs.pc == s.pc + 1 + Signed(m[s.pc])
  {
    SignedAddExact(s.pc + 1, m[s.pc]);
  }

  /** As written, JR C leaves PC on the offset byte when C is clear, so the offset is
      then decoded as the next opcode, and it reports 2 cycles when taken. */
  lemma JrCAsWritten(s: Regs, m: Memory)
    requires Fits(0x38, s, m)
    ensures !s.FlagSet(C) ==> Exec(0x38, s, m) == Done(s, m, 2)
    ensures s.FlagSet(C) ==> Exec(0x38, s, m) == Done(Exec(0x18, s, m).regs, m, 2)
  {
  }

  /** JR C as the JR NZ handler shows it was meant: taken when C is set (3 cycles),
      otherwise stepping over the offset byte (2 cycles). */
  function JrCIntended(s: Regs, m: Memory): (r: Outcome)
    requires s.pc < 0xFFFF
    ensures r.regs == s.(pc := r.regs.pc) && r.mem == m
    ensures r.status == Cycles(if s.FlagSet(C) then 3 else 2)
    ensures s.FlagSet(C) ==> r == Exec(0x18, s, m)
    ensures !s.FlagSet(C) ==> r.regs.pc == s.pc + 1
  {
    if s.FlagSet(C) then
      var f := FetchByte(s, m); Done(f.regs.(pc := SignedAdd(f.regs.pc, f.value)), m, 3)
    else
      Done(s.(pc := s.pc + 1), m, 2)
  }

  /** The corrected JR C is JR NZ with the condition taken from C instead of Z. */
  lemma JrCIntendedMirrorsJrNz(s: Regs, m: Memory)
    requires s.pc < 0xFFFF
    ensures JrCIntended(s, m).regs.pc == Exec(0x20, s.WithFlag(Z, !s.FlagSet(C)), m).regs.pc
    ensures JrCIntended(s, m).status == Exec(0x20, s.WithFlag(Z, !s.FlagSet(C)), m).status
  {
  }

  /** As written, JP NC jumps to the operand when C is set, and when C is clear it
      leaves PC on the operand's first byte. */
  lemma JpNcAsWritten(s: Regs, m: Memory)
    requires Fits(0xD2, s, m)
    ensures s.FlagSet(C) ==> Exec(0xD2, s, m) == Done(s.(pc := ReadWord(s.pc, m)), m, 4)
    ensures !s.FlagSet(C) ==> Exec(0xD2, s, m) == Done(s, m, 3)
  {
  }

  /** JP NC as its name says: jump to the operand when C is clear (4 cycles), otherwise
      step over the operand (3 cycles). */
  function JpNcIntended(s: Regs, m: Memory): (r: Outcome)
    requires s.pc < 0xFFFE
    ensures r.regs == s.(pc := r.regs.pc) && r.mem == m
    ensures r.regs.pc == if s.FlagSet(C) then s.pc + 2 else ReadWord(s.pc, m)
    ensures r.status == Cycles(if s.FlagSet(C) then 3 else 4)
  {
    var w := FetchWord(s, m);
    if !s.FlagSet(C) then Done(w.regs.(pc := w.value), m, 4) else Done(w.regs, m, 3)
  }

  /** The two disagree on every input whose operand does not happen to point where the
      other version goes. */
  lemma JpNcDiffers(s: Regs, m: Memory)
    requires s.pc < 0xFFFE
    requires ReadWord(s.pc, m) != s.pc && ReadWord(s.pc, m) != s.pc + 2
    ensures Exec(0xD2, s, m).regs.pc != JpNcIntended(s, m).regs.pc
  {
  }

  // Calls.

  /** As written, CALL pushes the address two bytes past the instruction that follows
      it, so the matching RET (with SP and memory as CALL left them) resumes at
      PC + 4 rather than PC + 2, where PC is the CALL's operand address. */
  lemma CallThenRet(s: Regs, m: Memory)
    requires s.pc < 0xFFFC && 2 <= s.sp
    ensures Exec(0xCD, s, m).regs == s.(pc := ReadWord(s.pc, m), sp := s.sp - 2)
    ensures Exec(0xCD, s, m).status == Cycles(6)
    ensures Fits(0xC9, Exec(0xCD, s, m).regs, Exec(0xCD, s, m).mem)
    ensures Exec(0xC9, Exec(0xCD, s, m).regs, Exec(0xCD, s, m).mem).regs == s.(pc := s.pc + 4)
  {
    var w := FetchWord(s, m);
    PushPop(s.pc + 4, w.regs, m);
  }

  /** CALL pushing the address of the instruction after it. */
  function CallIntended(s: Regs, m: Memory): (r: Outcome)
    requires s.pc < 0xFFFE && 2 <= s.sp
    ensures r.regs == s.(pc := ReadWord(s.pc, m), sp := s.sp - 2)
    ensures r.status == Cycles(6)
  {
    var w := FetchWord(s, m);
    var pushed := Push(w.regs.pc, w.regs, m);
    Done(pushed.regs.(pc := w.value), pushed.mem, 6)
  }

  /** With the corrected CALL, RET resumes right after the CALL with SP restored. */
  lemma CallIntendedThenRet(s: Regs, m: Memory)
    requires s.pc < 0xFFFE && 2 <= s.sp
    ensures Fits(0xC9, CallIntended(s, m).regs, CallIntended(s, m).mem)
    ensures Exec(0xC9, CallIntended(s, m).regs, CallIntended(s, m).mem).regs == s.(pc := s.pc + 2)
  {
    var w := FetchWord(s, m);
    PushPop(s.pc + 2, w.regs, m);
  }

  /** RET, from any state: PC becomes the word popped from the stack, SP moves up two
      bytes, memory is unchanged and the cost is 4. */
  lemma RetPops(s: Regs, m: Memory)
    requires s.sp < 0xFFFE
    ensures Exec(0xC9, s, m) == Done(s.(pc := ReadWord(s.sp, m), sp := s.sp + 2), m, 4)
  {
  }

  // The high-page loads and stores.

  /** LDH A,(a8), from any state: A is loaded from 0xFF00 plus the operand byte, PC
      steps over the operand, memory is unchanged and the cost is 3. */
  lemma LdhLoads(s: Regs, m: Memory)
    requires s.pc < 0xFFFF
    ensures Exec(0xF0, s, m) == Done(s.(pc := s.pc + 1, a := m[0xFF00 + m[s.pc] as int]), m, 3)
  {
  }

  /** LDH (a8),A stores A at 0xFF00 plus the operand and changes no other byte; only
      PC moves, past the operand. */
  lemma LdhStores(s: Regs, m: Memory)
    requires s.pc < 0xFFFF
    ensures Exec(0xE0, s, m).regs == s.(pc := s.pc + 1) && Exec(0xE0, s, m).status == Cycles(3)
    ensures Exec(0xE0, s, m).mem[0xFF00 + m[s.pc]] == s.a
    ensures forall adr: u16 | adr != 0xFF00 + m[s.pc] as int :: Exec(0xE0, s, m).mem[adr] == m[adr]
  {
  }

  /** LD (C),A stores A at 0xFF00 plus C and changes nothing else. */
  lemma LdCStores(s: Regs, m: Memory)
    ensures Exec(0xE2, s, m).regs == s && Exec(0xE2, s, m).status == Cycles(2)
    ensures Exec(0xE2, s, m).mem[0xFF00 + s.c] == s.a
    ensures forall adr: u16 | adr != 0xFF00 + s.c as int :: Exec(0xE2, s, m).mem[adr] == m[adr]
  {
  }

  /** `E0 n F0 n`: storing A to the high page and loading it back from the same offset
      gives A back, provided the program itself lies below the high page. */
  lemma LdhRoundTrip(s: Regs, m: Memory)
    requires s.pc + 2 < 0xFF00 && m[s.pc + 2] == m[s.pc]
    ensures Exec(0xF0, Exec(0xE0, s, m).regs.(pc := s.pc + 2), Exec(0xE0, s, m).mem).regs.a == s.a
  {
  }

  // The CB prefix of the primary table.

  /** Shifting a byte left by four and truncating keeps its low nibble, moved up. */
  lemma NibbleShift(n: u8)
    ensures (n * 0x10) % 0x100 == (n % 0x10) * 0x10
  {
    var q, r := n / 0x10, n % 0x10;
    assert n * 0x10 == q * 0x100 + r * 0x10;
  }

  /** `call_cb` swaps the nibbles of A as `alu_swap` does but always clears Z, so the
      two disagree exactly when A is 0. Any other second byte panics, with PC past it. */
  lemma CbSwapClearsZero(s: Regs, m: Memory)
    requires s.pc < 0xFFFF
    ensures m[s.pc] == 0x37 ==>
      Exec(0xCB, s, m) == Done(s.(pc := s.pc + 1, a := Swap(s, s.a).value,
                                  f := Flags(false, false, false, false)), m, 2)
    ensures m[s.pc] == 0x37 ==> (Exec(0xCB, s, m).regs.FlagSet(Z) != Swap(s, s.a).regs.FlagSet(Z) <==> s.a == 0)
    ensures m[s.pc] != 0x37 ==> Exec(0xCB, s, m) == Outcome(s.(pc := s.pc + 1), m, UnsupportedCb(m[s.pc]))
  {
    NibbleShift(s.a);
    SwapHalves(s.a);
  }

  // The opcode labelled ADD A,D.

  /** 0x8A, labelled ADD A,D, adds D without the carry; on the Game Boy 0x8A is
      ADC A,D, which adds the carry in. */
  lemma Op8AIgnoresCarry(s: Regs, m: Memory)
    requires s.FlagSet(C)
    ensures Exec(0x8A, s, m).regs.a == (s.a + s.d) % 0x100
    ensures AdcExact(s, s.d).a == (s.a + s.d + 1) % 0x100
    ensures Exec(0x8A, s, m).regs.a != AdcExact(s, s.d).a
  {
    AddFlags(s, s.d);
  }
}

