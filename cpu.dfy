/** The instruction interpreter: operand fetch through the program counter, the
    stack, and the primary opcode table `call_instruction` with its one-entry
    `call_cb`.

    `Exec` gives the effect of one opcode on the value of the registers and memory;
    `CallInstruction` performs it in place on a `Registers` object and the memory
    array, and is proved to agree with `Exec`. Each handler returns its cost in
    machine cycles. An opcode missing from the table is a panic in the source and the
    `Unsupported` status here. Arithmetic that would overflow a Rust `u16` (and so
    panic) is excluded by `Fits`. */
module Cpu {
  import opened Bytes
  import opened Registers
  import opened Alu
  import opened Mmu

  /** How an instruction ended: its cost in machine cycles, or the opcode the table
      does not implement. */
  datatype Status = Cycles(n: nat) | Unsupported(opcode: u8) | UnsupportedCb(opcode: u8)

  /** The registers and memory after an instruction, with its status. */
  datatype Outcome = Outcome(regs: Regs, mem: Memory, status: Status)

  /** A word together with the register file it leaves behind. */
  datatype WordOut = WordOut(value: u16, regs: Regs)

  /** The registers and memory a stack push leaves behind. */
  datatype Machine = Machine(regs: Regs, mem: Memory)

  /** A completed instruction costing `n` cycles. */
  function Done(s: Regs, m: Memory, n: nat): Outcome {
    Outcome(s, m, Cycles(n))
  }

  /** The value of a byte read as an `i8`. */
  function Signed(n: u8): int {
    if n < 0x80 then n else n - 0x100
  }

  /** `signed_add`: the word plus the byte read as an `i8`, computed in `i32` and
      truncated back to `u16`, which is arithmetic modulo 0x10000. */
  function SignedAdd(pc: u16, n: u8): u16 {
    (pc + Signed(n)) % 0x10000
  }

  /** The offset is in -128..127 and is added exactly whenever the sum stays inside
      the address space. */
  lemma SignedAddExact(pc: u16, n: u8)
    ensures -0x80 <= Signed(n) < 0x80
    ensures 0 <= pc + Signed(n) < 0x10000 ==> SignedAdd(pc, n) == pc + Signed(n)
  {
  }

  /** Jumping by `n` and then by the opposite offset comes back to the start; 0x80
      (-128) has no opposite in `i8`. */
  lemma SignedAddInverse(pc: u16, n: u8)
    requires n != 0x80
    ensures SignedAdd(SignedAdd(pc, n), (0x100 - n) % 0x100) == pc
  {
  }

  // Operand fetch and the stack, on values.

  function FetchByte(s: Regs, m: Memory): ByteOut
    requires s.pc < 0xFFFF
  {
    ByteOut(ReadByte(s.pc, m), s.(pc := s.pc + 1))
  }

  function FetchWord(s: Regs, m: Memory): WordOut
    requires s.pc < 0xFFFE
  {
    WordOut(ReadWord(s.pc, m), s.(pc := s.pc + 2))
  }

  /** `push_stack`: SP moves down two bytes, then the word is stored there. */
  function Push(v: u16, s: Regs, m: Memory): Machine
    requires 2 <= s.sp
  {
    Machine(s.(sp := s.sp - 2), StoreWord(s.sp - 2, v, m))
  }

  /** `pop_stack`: the word at SP is read, then SP moves up two bytes. */
  function Pop(s: Regs, m: Memory): WordOut
    requires s.sp < 0xFFFE
  {
    WordOut(ReadWord(s.sp, m), s.(sp := s.sp + 2))
  }

  /** Popping right after a push gives the pushed word back and restores SP and every
      other register. */
  lemma PushPop(v: u16, s: Regs, m: Memory)
    requires 2 <= s.sp
    ensures Push(v, s, m).regs.sp < 0xFFFE
    ensures Pop(Push(v, s, m).regs, Push(v, s, m).mem) == WordOut(v, s)
  {
    WordRoundTrip(s.sp - 2, v, m);
  }

  /** A push changes the two bytes just below SP and nothing else in memory. */
  lemma PushFrame(v: u16, s: Regs, m: Memory, adr: u16)
    requires 2 <= s.sp && adr != s.sp - 2 && adr != s.sp - 1
    ensures Push(v, s, m).mem[adr] == m[adr]
  {
  }

  // The opcode table, on values.

  /** The opcodes `call_instruction` implements, by group. */
  predicate IsImmediate(op: u8) {
    match op
    case 0x01 | 0x06 | 0x08 | 0x0E | 0x11 | 0x16 | 0x1E | 0x21 | 0x31 | 0x36 | 0x3E
      | 0xE0 | 0xEA | 0xF0 => true
    case _ => false
  }

  predicate IsMove(op: u8) {
    match op
    case 0x02 | 0x0A | 0x2A | 0x32 | 0x41 | 0x47 | 0x4F | 0x67 | 0x77 | 0x78 | 0x79
      | 0x7B | 0x7C | 0x7F | 0xE2 => true
    case _ => false
  }

  predicate IsIncDec(op: u8) {
    match op
    case 0x03 | 0x04 | 0x05 | 0x0B | 0x0C | 0x0D | 0x14 | 0x15 | 0x1D | 0x23 | 0x25
      | 0x2C => true
    case _ => false
  }

  predicate IsAluOp(op: u8) {
    match op
    case 0x07 | 0x19 | 0x1F | 0x29 | 0x2F | 0x8A | 0x93 | 0xA1 | 0xA9 | 0xAF | 0xB0
      | 0xB1 | 0xBF | 0xE6 | 0xFE => true
    case _ => false
  }

  predicate IsControl(op: u8) {
    match op
    case 0x00 | 0x10 | 0x18 | 0x20 | 0x38 | 0xC3 | 0xC9 | 0xCB | 0xCD | 0xD2 | 0xF3
      | 0xFB => true
    case _ => false
  }

  /** The condition under which executing `op` does not overflow a `u16`: fetching a
      byte needs PC below 0xFFFF, fetching a word PC below 0xFFFE (`adr + 1` in
      `read_word` and `pc += 2`), CALL also SP at least 2 and PC + 4 within range
      (`reg.pc + 2` after the operand), RET SP below 0xFFFE, and LD (a16),SP a
      target below 0xFFFF. */
  predicate Fits(op: u8, s: Regs, m: Memory) {
    match op
    case 0x01 | 0x11 | 0x21 | 0x31 | 0xC3 | 0xEA => s.pc < 0xFFFE
    case 0x08 => s.pc < 0xFFFE && ReadWord(s.pc, m) < 0xFFFF
    case 0x06 | 0x0E | 0x16 | 0x1E | 0x36 | 0x3E | 0x18 | 0x20 | 0xCB | 0xE0 | 0xE6
      | 0xF0 | 0xFE => s.pc < 0xFFFF
    case 0x38 => s.FlagSet(C) ==> s.pc < 0xFFFF
    case 0xD2 => s.FlagSet(C) ==> s.pc < 0xFFFE
    case 0xCD => s.pc < 0xFFFC && 2 <= s.sp
    case 0xC9 => s.sp < 0xFFFE
    case _ => true
  }

  /** The loads and stores with an immediate operand. */
  function ExecImmediate(op: u8, s: Regs, m: Memory): Outcome
    requires Fits(op, s, m)
  {
    match op
    case 0x01 => var w := FetchWord(s, m); Done(w.regs.WithBC(w.value), m, 3)
    case 0x06 => var f := FetchByte(s, m); Done(f.regs.(b := f.value), m, 2)
    case 0x08 => var w := FetchWord(s, m); Done(w.regs, StoreWord(w.value, s.sp, m), 5)
    case 0x0E => var f := FetchByte(s, m); Done(f.regs.(c := f.value), m, 2)
    case 0x11 => var w := FetchWord(s, m); Done(w.regs.WithDE(w.value), m, 3)
    case 0x16 => var f := FetchByte(s, m); Done(f.regs.(d := f.value), m, 2)
    case 0x1E => var f := FetchByte(s, m); Done(f.regs.(e := f.value), m, 2)
    case 0x21 => var w := FetchWord(s, m); Done(w.regs.WithHL(w.value), m, 3)
    case 0x31 => var w := FetchWord(s, m); Done(w.regs.(sp := w.value), m, 3)
    case 0x36 => var f := FetchByte(s, m); Done(f.regs, StoreByte(f.regs.HL(), f.value, m), 2)
    case 0x3E => var f := FetchByte(s, m); Done(f.regs.(a := f.value), m, 2)
    case 0xE0 => var f := FetchByte(s, m); Done(f.regs, StoreByte(0xFF00 + f.value, s.a, m), 3)
    case 0xEA => var w := FetchWord(s, m); Done(w.regs, StoreByte(w.value, s.a, m), 4)
    case 0xF0 => var f := FetchByte(s, m); Done(f.regs.(a := ReadByte(0xFF00 + f.value, m)), m, 3)
    case _ => Outcome(s, m, Unsupported(op))
  }

  /** The register-to-register and register-indirect loads and stores. */
  function ExecMove(op: u8, s: Regs, m: Memory): Outcome
    requires Fits(op, s, m)
  {
    match op
    case 0x02 => Done(s, StoreByte(s.BC(), s.a, m), 2)
    case 0x0A => Done(s.(a := ReadByte(s.BC(), m)), m, 2)
    case 0x2A =>
      var t := s.(a := ReadByte(s.HL(), m));
      Done(t.WithHL(WrappingAdd(t.HL(), 1)), m, 2)
    case 0x32 => Done(s.WithHL(WrappingSub(s.HL(), 1)), StoreByte(s.HL(), s.a, m), 2)
    case 0x41 => Done(s.(b := s.c), m, 1)
    case 0x47 => Done(s.(b := s.a), m, 1)
    case 0x4F => Done(s.(c := s.a), m, 1)
    case 0x67 => Done(s.(h := s.a), m, 1)
    case 0x77 => Done(s, StoreByte(s.HL(), s.a, m), 2)
    case 0x78 => Done(s.(a := s.b), m, 1)
    case 0x79 => Done(s.(a := s.c), m, 1)
    case 0x7B => Done(s.(a := s.e), m, 1)
    case 0x7C => Done(s.(a := s.h), m, 1)
    case 0x7F => Done(s, m, 1)
    case 0xE2 => Done(s, StoreByte(0xFF00 + s.c, s.a, m), 2)
    case _ => Outcome(s, m, Unsupported(op))
  }


  /** RLCA: A rotated left through bit 0; C is the old bit 7 and Z, N, H are cleared
      whatever the result. */
  function Rlca(s: Regs): Regs {
    var c := s.a / 0x80;
    s.(a := Or((s.a * 2) % 0x100, c))
      .WithFlag(Z, false).WithFlag(N, false).WithFlag(H, false).WithFlag(C, c == 1)
  }

  /** RRA: A rotated right through C; C is the old bit 0, the old C becomes bit 7 and
      Z, N, H are cleared whatever the result. */
  function Rra(s: Regs): Regs {
    var c := s.FlagBit(C);
    s.WithFlag(Z, false).WithFlag(H, false).WithFlag(N, false)
      .WithFlag(C, And(s.a, 0x01) == 0x01)
      .(a := Or(s.a / 2, c * 0x80))
  }

  /** The 8-bit and 16-bit increments and decrements. */
  function ExecIncDec(op: u8, s: Regs, m: Memory): Outcome
    requires Fits(op, s, m)
  {
    match op
    case 0x03 => Done(s.WithBC(WrappingAdd(s.BC(), 1)), m, 2)
    case 0x04 => var r := Inc(s, s.b); Done(r.regs.(b := r.value), m, 1)
    case 0x05 => var r := Dec(s, s.b); Done(r.regs.(b := r.value), m, 1)
    case 0x0B => Done(s.WithBC(WrappingSub(s.BC(), 1)), m, 2)
    case 0x0C => var r := Inc(s, s.c); Done(r.regs.(c := r.value), m, 1)
    case 0x0D => var r := Dec(s, s.c); Done(r.regs.(c := r.value), m, 1)
    case 0x14 => var r := Inc(s, s.d); Done(r.regs.(d := r.value), m, 1)
    case 0x15 => var r := Dec(s, s.d); Done(r.regs.(d := r.value), m, 1)
    case 0x1D => var r := Dec(s, s.e); Done(r.regs.(e := r.value), m, 1)
    case 0x23 => Done(s.WithHL(WrappingAdd(s.HL(), 1)), m, 2)
    case 0x25 => var r := Dec(s, s.h); Done(r.regs.(h := r.value), m, 1)
    case 0x2C => var r := Inc(s, s.l); Done(r.regs.(l := r.value), m, 1)
    case _ => Outcome(s, m, Unsupported(op))
  }

  /** The accumulator, rotate and 16-bit add instructions. */
  function ExecAlu(op: u8, s: Regs, m: Memory): Outcome
    requires Fits(op, s, m)
  {
    match op
    case 0x07 => Done(Rlca(s), m, 1)
    case 0x19 => Done(AddHl(s, s.DE()), m, 2)
    case 0x1F => Done(Rra(s), m, 1)
    case 0x29 => Done(AddHl(s, s.HL()), m, 2)
    // CPL: `!a` on a byte is 0xFF - a.
    case 0x2F => Done(s.(a := 0xFF - s.a).WithFlag(N, true).WithFlag(H, true), m, 1)
    // 0x8A, labelled ADD A,D, calls alu_add.
    case 0x8A => Done(Add(s, s.d), m, 1)
    case 0x93 => Done(Sub(s, s.e), m, 1)
    case 0xA1 => Done(AndA(s, s.c), m, 1)
    case 0xA9 => Done(XorA(s, s.c), m, 1)
    case 0xAF =>
      Done(s.(a := Xor(s.a, s.a)).WithFlag(Z, true).WithFlag(N, false)
             .WithFlag(H, false).WithFlag(C, false), m, 1)
    case 0xB0 => Done(OrA(s, s.b), m, 1)
    case 0xB1 => Done(OrA(s, s.c), m, 1)
    case 0xBF => Done(Cp(s, s.a), m, 1)
    case 0xE6 => var f := FetchByte(s, m); Done(AndA(f.regs, f.value), m, 2)
    case 0xFE => var f := FetchByte(s, m); Done(Cp(f.regs, f.value), m, 2)
    case _ => Outcome(s, m, Unsupported(op))
  }


  /** `call_cb` of the primary table: fetch the second opcode byte; only SWAP A is
      implemented, and it clears Z whatever the result. */
  function CallCbSwap(s: Regs, m: Memory): Outcome
    requires s.pc < 0xFFFF
  {
    var f := FetchByte(s, m);
    var t := f.regs;
    if f.value == 0x37 then
      Done(t.(a := Or(t.a / 0x10, (t.a * 0x10) % 0x100))
            .WithFlag(Z, false).WithFlag(N, false).WithFlag(H, false).WithFlag(C, false), m, 2)
    else
      Outcome(t, m, UnsupportedCb(f.value))
  }

  /** The jumps, calls, returns, the CB prefix and the no-ops. */
  function ExecControl(op: u8, s: Regs, m: Memory): Outcome
    requires Fits(op, s, m)
  {
    match op
    case 0x00 => Done(s, m, 1)
    case 0x10 => Done(s, m, 1)
    case 0x18 => var f := FetchByte(s, m); Done(f.regs.(pc := SignedAdd(f.regs.pc, f.value)), m, 3)
    case 0x20 =>
      if !s.FlagSet(Z) then
        var f := FetchByte(s, m); Done(f.regs.(pc := SignedAdd(f.regs.pc, f.value)), m, 3)
      else
        Done(s.(pc := s.pc + 1), m, 2)
    case 0x38 =>
      if s.FlagSet(C) then
        var f := FetchByte(s, m); Done(f.regs.(pc := SignedAdd(f.regs.pc, f.value)), m, 2)
      else
        Done(s, m, 2)
    case 0xC3 => var w := FetchWord(s, m); Done(w.regs.(pc := w.value), m, 4)
    case 0xC9 => var p := Pop(s, m); Done(p.regs.(pc := p.value), m, 4)
    case 0xCB => CallCbSwap(s, m)
    case 0xCD =>
      var w := FetchWord(s, m);
      var pushed := Push(w.regs.pc + 2, w.regs, m);
      Done(pushed.regs.(pc := w.value), pushed.mem, 6)
    case 0xD2 =>
      if s.FlagSet(C) then
        var w := FetchWord(s, m); Done(w.regs.(pc := w.value), m, 4)
      else
        Done(s, m, 3)
    case 0xF3 => Done(s, m, 1)
    case 0xFB => Done(s, m, 1)
    case _ => Outcome(s, m, Unsupported(op))
  }

  /** `call_instruction` on values. */
  function Exec(op: u8, s: Regs, m: Memory): Outcome
    requires Fits(op, s, m)
  {
    if IsImmediate(op) then ExecImmediate(op, s, m)
    else if IsMove(op) then ExecMove(op, s, m)
    else if IsIncDec(op) then ExecIncDec(op, s, m)
    else if IsAluOp(op) then ExecAlu(op, s, m)
    else if IsControl(op) then ExecControl(op, s, m)
    else Outcome(s, m, Unsupported(op))
  }

  // The interpreter on the mutable state.

  /** `next_byte`: the byte at PC, and PC advanced by one; memory is only read. */
  method NextByte(reg: Registers, mem: array<u8>) returns (v: u8)
    requires mem.Length == 0x10000 && reg.pc < 0xFFFF
    modifies reg
    ensures v == mem[old(reg.pc)] && reg.Value() == old(reg.Value()).(pc := old(reg.pc) + 1)
  {
    v := ReadByte(reg.pc, mem[..]);
    reg.pc := reg.pc + 1;
  }

  /** `next_word`: the little-endian word at PC, and PC advanced by two; memory is only
      read. */
  method NextWord(reg: Registers, mem: array<u8>) returns (v: u16)
    requires mem.Length == 0x10000 && reg.pc < 0xFFFE
    modifies reg
    ensures v == ReadWord(old(reg.pc), mem[..])
    ensures reg.Value() == old(reg.Value()).(pc := old(reg.pc) + 2)
  {
    v := ReadWord(reg.pc, mem[..]);
    reg.pc := reg.pc + 2;
  }

  /** `push_stack`: SP lowered by two, then the word stored at the new SP. */
  method PushStack(v: u16, reg: Registers, mem: array<u8>)
    requires mem.Length == 0x10000 && 2 <= reg.sp
    modifies reg, mem
    ensures Machine(reg.Value(), mem[..]) == Push(v, old(reg.Value()), old(mem[..]))
  {
    reg.sp := reg.sp - 2;
    WriteWord(reg.sp, v, mem);
  }

  /** `pop_stack`: the word at SP, then SP raised by two. */
  method PopStack(reg: Registers, mem: array<u8>) returns (v: u16)
    requires mem.Length == 0x10000 && reg.sp < 0xFFFE
    modifies reg
    ensures WordOut(v, reg.Value()) == Pop(old(reg.Value()), mem[..])
  {
    v := ReadWord(reg.sp, mem[..]);
    reg.sp := reg.sp + 2;
  }

  /** The loads and stores of `call_instruction` with an immediate operand. */
  method CallImmediate(op: u8, reg: Registers, mem: array<u8>) returns (status: Status)
    requires mem.Length == 0x10000 && Fits(op, reg.Value(), mem[..])
    modifies reg, mem
    ensures Outcome(reg.Value(), mem[..], status) == ExecImmediate(op, old(reg.Value()), old(mem[..]))
  {
    match op
    case 0x01 => var w := NextWord(reg, mem); reg.SetBC(w); status := Cycles(3);
    case 0x06 => var v := NextByte(reg, mem); reg.b := v; status := Cycles(2);
    case 0x08 => var adr := NextWord(reg, mem); WriteWord(adr, reg.sp, mem); status := Cycles(5);
    case 0x0E => var v := NextByte(reg, mem); reg.c := v; status := Cycles(2);
    case 0x11 => var w := NextWord(reg, mem); reg.SetDE(w); status := Cycles(3);
    case 0x16 => var v := NextByte(reg, mem); reg.d := v; status := Cycles(2);
    case 0x1E => var v := NextByte(reg, mem); reg.e := v; status := Cycles(2);
    case 0x21 => var w := NextWord(reg, mem); reg.SetHL(w); status := Cycles(3);
    case 0x31 => var w := NextWord(reg, mem); reg.sp := w; status := Cycles(3);
    case 0x36 => var v := NextByte(reg, mem); WriteByte(reg.HL(), v, mem); status := Cycles(2);
    case 0x3E => var v := NextByte(reg, mem); reg.a := v; status := Cycles(2);
    case 0xE0 =>
      var v := NextByte(reg, mem);
      var adr: u16 := 0xFF00 + v as int;
      WriteByte(adr, reg.a, mem);
      status := Cycles(3);
    case 0xEA => var adr := NextWord(reg, mem); WriteByte(adr, reg.a, mem); status := Cycles(4);
    case 0xF0 =>
      var v := NextByte(reg, mem);
      var adr: u16 := 0xFF00 + v as int;
      reg.a := ReadByte(adr, mem[..]);
      status := Cycles(3);
    case _ => status := Unsupported(op);
  }

  /** The register-to-register and register-indirect loads and stores of `call_instruction`. */
  method CallMove(op: u8, reg: Registers, mem: array<u8>) returns (status: Status)
    requires mem.Length == 0x10000 && Fits(op, reg.Value(), mem[..])
    modifies reg, mem
    ensures Outcome(reg.Value(), mem[..], status) == ExecMove(op, old(reg.Value()), old(mem[..]))
  {
    match op
    case 0x02 => WriteByte(reg.BC(), reg.a, mem); status := Cycles(2);
    case 0x0A => reg.a := ReadByte(reg.BC(), mem[..]); status := Cycles(2);
    case 0x2A =>
      reg.a := ReadByte(reg.HL(), mem[..]);
      reg.SetHL(WrappingAdd(reg.HL(), 1));
      status := Cycles(2);
    case 0x32 =>
      WriteByte(reg.HL(), reg.a, mem);
      reg.SetHL(WrappingSub(reg.HL(), 1));
      status := Cycles(2);
    case 0x41 => reg.b := reg.c; status := Cycles(1);
    case 0x47 => reg.b := reg.a; status := Cycles(1);
    case 0x4F => reg.c := reg.a; status := Cycles(1);
    case 0x67 => reg.h := reg.a; status := Cycles(1);
    case 0x77 => WriteByte(reg.HL(), reg.a, mem); status := Cycles(2);
    case 0x78 => reg.a := reg.b; status := Cycles(1);
    case 0x79 => reg.a := reg.c; status := Cycles(1);
    case 0x7B => reg.a := reg.e; status := Cycles(1);
    case 0x7C => reg.a := reg.h; status := Cycles(1);
    case 0x7F => reg.a := reg.a; status := Cycles(1);
    case 0xE2 =>
      var adr: u16 := 0xFF00 + reg.c as int;
      WriteByte(adr, reg.a, mem);
      status := Cycles(2);
    case _ => status := Unsupported(op);
  }


  /** The increments and decrements of `call_instruction`. */
  method CallIncDec(op: u8, reg: Registers, mem: array<u8>) returns (status: Status)
    requires mem.Length == 0x10000 && Fits(op, reg.Value(), mem[..])
    modifies reg
    ensures Outcome(reg.Value(), mem[..], status) == ExecIncDec(op, old(reg.Value()), mem[..])
  {
    match op
    case 0x03 => reg.SetBC(WrappingAdd(reg.BC(), 1)); status := Cycles(2);
    case 0x04 => var v := AluInc(reg, reg.b); reg.b := v; status := Cycles(1);
    case 0x05 => var v := AluDec(reg, reg.b); reg.b := v; status := Cycles(1);
    case 0x0B => reg.SetBC(WrappingSub(reg.BC(), 1)); status := Cycles(2);
    case 0x0C => var v := AluInc(reg, reg.c); reg.c := v; status := Cycles(1);
    case 0x0D => var v := AluDec(reg, reg.c); reg.c := v; status := Cycles(1);
    case 0x14 => var v := AluInc(reg, reg.d); reg.d := v; status := Cycles(1);
    case 0x15 => var v := AluDec(reg, reg.d); reg.d := v; status := Cycles(1);
    case 0x1D => var v := AluDec(reg, reg.e); reg.e := v; status := Cycles(1);
    case 0x23 => reg.SetHL(WrappingAdd(reg.HL(), 1)); status := Cycles(2);
    case 0x25 => var v := AluDec(reg, reg.h); reg.h := v; status := Cycles(1);
    case 0x2C => var v := AluInc(reg, reg.l); reg.l := v; status := Cycles(1);
    case _ => status := Unsupported(op);
  }

  /** The accumulator, rotate and 16-bit add instructions of `call_instruction`. */
  method CallAlu(op: u8, reg: Registers, mem: array<u8>) returns (status: Status)
    requires mem.Length == 0x10000 && Fits(op, reg.Value(), mem[..])
    modifies reg
    ensures Outcome(reg.Value(), mem[..], status) == ExecAlu(op, old(reg.Value()), mem[..])
  {
    match op
    case 0x07 =>
      var c := reg.a / 0x80;
      reg.a := Or((reg.a * 2) % 0x100, c);
      reg.SetFlag(Z, false);
      reg.SetFlag(N, false);
      reg.SetFlag(H, false);
      reg.SetFlag(C, c == 1);
      status := Cycles(1);
    case 0x19 => AluAddHl(reg, reg.DE()); status := Cycles(2);
    case 0x1F =>
      var c := reg.GetFlagBit(C);
      reg.SetFlag(Z, false);
      reg.SetFlag(H, false);
      reg.SetFlag(N, false);
      reg.SetFlag(C, And(reg.a, 0x01) == 0x01);
      reg.a := Or(reg.a / 2, c * 0x80);
      status := Cycles(1);
    case 0x29 => AluAddHl(reg, reg.HL()); status := Cycles(2);
    case 0x2F =>
      reg.a := 0xFF - reg.a;
      reg.SetFlag(N, true);
      reg.SetFlag(H, true);
      status := Cycles(1);
    case 0x8A => AluAdd(reg, reg.d); status := Cycles(1);
    case 0x93 => AluSub(reg, reg.e); status := Cycles(1);
    case 0xA1 => AluAnd(reg, reg.c); status := Cycles(1);
    case 0xA9 => AluXor(reg, reg.c); status := Cycles(1);
    case 0xAF =>
      reg.a := Xor(reg.a, reg.a);
      reg.SetFlag(Z, true);
      reg.SetFlag(N, false);
      reg.SetFlag(H, false);
      reg.SetFlag(C, false);
      status := Cycles(1);
    case 0xB0 => AluOr(reg, reg.b); status := Cycles(1);
    case 0xB1 => AluOr(reg, reg.c); status := Cycles(1);
    case 0xBF => AluCp(reg, reg.a); status := Cycles(1);
    case 0xE6 => var v := NextByte(reg, mem); AluAnd(reg, v); status := Cycles(2);
    case 0xFE => var v := NextByte(reg, mem); AluCp(reg, v); status := Cycles(2);
    case _ => status := Unsupported(op);
  }


  /** `call_cb` of the primary table. */
  method CallCb(reg: Registers, mem: array<u8>) returns (status: Status)
    requires mem.Length == 0x10000 && reg.pc < 0xFFFF
    modifies reg
    ensures Outcome(reg.Value(), mem[..], status) == CallCbSwap(old(reg.Value()), mem[..])
  {
    var op := NextByte(reg, mem);
    if op == 0x37 {
      reg.a := Or(reg.a / 0x10, (reg.a * 0x10) % 0x100);
      reg.SetFlag(Z, false);
      reg.SetFlag(N, false);
      reg.SetFlag(H, false);
      reg.SetFlag(C, false);
      status := Cycles(2);
    } else {
      status := UnsupportedCb(op);
    }
  }

  /** The jumps, calls and returns of `call_instruction`. */
  method CallControl(op: u8, reg: Registers, mem: array<u8>) returns (status: Status)
    requires mem.Length == 0x10000 && Fits(op, reg.Value(), mem[..])
    modifies reg, mem
    ensures Outcome(reg.Value(), mem[..], status) == ExecControl(op, old(reg.Value()), old(mem[..]))
  {
    match op
    case 0x00 => status := Cycles(1);
    case 0x10 => status := Cycles(1);
    case 0x18 =>
      var n := NextByte(reg, mem);
      reg.pc := SignedAdd(reg.pc, n);
      status := Cycles(3);
    case 0x20 =>
      if !reg.GetFlag(Z) {
        var n := NextByte(reg, mem);
        reg.pc := SignedAdd(reg.pc, n);
        status := Cycles(3);
      } else {
        reg.pc := reg.pc + 1;
        status := Cycles(2);
      }
    case 0x38 =>
      if reg.GetFlag(C) {
        var n := NextByte(reg, mem);
        reg.pc := SignedAdd(reg.pc, n);
      }
      status := Cycles(2);
    case 0xC3 => var w := NextWord(reg, mem); reg.pc := w; status := Cycles(4);
    case 0xC9 => var adr := PopStack(reg, mem); reg.pc := adr; status := Cycles(4);
    case 0xCB => status := CallCb(reg, mem);
    case 0xCD =>
      var adr := NextWord(reg, mem);
      PushStack(reg.pc + 2, reg, mem);
      reg.pc := adr;
      status := Cycles(6);
    case 0xD2 =>
      if reg.GetFlag(C) {
        var w := NextWord(reg, mem);
        reg.pc := w;
        status := Cycles(4);
      } else {
        status := Cycles(3);
      }
    case 0xF3 => status := Cycles(1);
    case 0xFB => status := Cycles(1);
    case _ => status := Unsupported(op);
  }

  /** `call_instruction`: executes one opcode in place and returns its cost in machine
      cycles, or `Unsupported` for an opcode the table lacks. */
  method CallInstruction(op: u8, reg: Registers, mem: array<u8>) returns (status: Status)
    requires mem.Length == 0x10000 && Fits(op, reg.Value(), mem[..])
    modifies reg, mem
    ensures Outcome(reg.Value(), mem[..], status) == Exec(op, old(reg.Value()), old(mem[..]))
  {
    if IsImmediate(op) {
      status := CallImmediate(op, reg, mem);
    } else if IsMove(op) {
      status := CallMove(op, reg, mem);
    } else if IsIncDec(op) {
      status := CallIncDec(op, reg, mem);
    } else if IsAluOp(op) {
      status := CallAlu(op, reg, mem);
    } else if IsControl(op) {
      status := CallControl(op, reg, mem);
    } else {
      status := Unsupported(op);
    }
  }
}
