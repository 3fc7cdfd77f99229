/** The arithmetic unit: carry and half-carry derivation, the 8-bit operations on A,
    the 16-bit add into HL, nibble swap, rotate/shift and bit test/set.

    Each operation that updates the register file is a method over `Registers`,
    specified by a function over `Regs` that the instruction tables also use. */
module Alu {
  import opened Bytes
  import opened Registers

  /** A byte result with its half-carry (out of bit 3) and carry (out of bit 7). */
  datatype CarryResult = CarryResult(value: u8, half: bool, carry: bool)

  /** A byte result together with the register file it leaves behind. */
  datatype ByteOut = ByteOut(value: u8, regs: Regs)

  /** `carry_add`: wrapping sum with its carries. The half-carry tests bit 4 of the sum
      of the two low nibbles, which is below 0x20. */
  function CarryAdd(x: u8, y: u8): CarryResult {
    var r := (x + y) % 0x100;
    var h := (x % 0x10 + y % 0x10) / 0x10 % 2 == 1;
    var c := x + y > 0xFF;
    CarryResult(r, h, c)
  }

  /** The carry is the ninth bit of the exact sum; the half-carry is set exactly when
      the low nibble of the result wrapped below the low nibble of `x`, and the carry
      exactly when the whole byte wrapped below `x`. */
  lemma CarryAddExact(x: u8, y: u8)
    ensures (if CarryAdd(x, y).carry then 0x100 else 0) + CarryAdd(x, y).value == x + y
    ensures CarryAdd(x, y).half <==> CarryAdd(x, y).value % 0x10 < x % 0x10
    ensures CarryAdd(x, y).carry <==> CarryAdd(x, y).value < x
  {
  }

  /** `carry_sub`: wrapping difference with its borrows. */
  function CarrySub(x: u8, y: u8): CarryResult {
    var r := (x - y) % 0x100;
    var h := x % 0x10 < y % 0x10;
    var c := x < y;
    CarryResult(r, h, c)
  }

  /** The carry is the borrow out of bit 7: the difference plus `y` gives `x` back,
      with 0x100 added when the subtraction wrapped; the half-carry is set exactly
      when the low nibble of the result wrapped above the low nibble of `x`. */
  lemma CarrySubExact(x: u8, y: u8)
    ensures CarrySub(x, y).value + y == x + (if CarrySub(x, y).carry then 0x100 else 0)
    ensures CarrySub(x, y).half <==> CarrySub(x, y).value % 0x10 > x % 0x10
    ensures CarrySub(x, y).carry <==> CarrySub(x, y).value > x
  {
  }

  /** The unit tests' fixed values for `carry_add` and `carry_sub`. */
  lemma CarryExamples()
    ensures CarryAdd(0xFF, 0x01) == CarryResult(0x00, true, true)
    ensures CarrySub(0x00, 0xFF) == CarryResult(0x01, true, true)
  {
  }

  /** ADD A,n: A and F replaced, nothing else touched. */
  function Add(s: Regs, n: u8): (t: Regs)
    ensures t == s.(a := t.a, f := t.f)
  {
    var r := CarryAdd(s.a, n);
    s.WithFlags(Flags(r.value == 0, false, r.half, r.carry)).(a := r.value)
  }

  /** ADD A,n: A is the sum modulo 0x100 with C its ninth bit, Z reports a zero sum,
      N is clear and H reports the wrap of the low nibble. */
  lemma {:induction false} AddFlags(s: Regs, n: u8)
    ensures (if Add(s, n).FlagSet(C) then 0x100 else 0) + Add(s, n).a == s.a + n
    ensures Add(s, n).FlagSet(Z) <==> (s.a + n) % 0x100 == 0
    ensures !Add(s, n).FlagSet(N)
    ensures Add(s, n).FlagSet(H) <==> s.a % 0x10 + n % 0x10 >= 0x10
  {
    CarryAddExact(s.a, n);
  }

  /** ADC A,n: the carry is added to the operand first; the Rust `u8` sum `n + c`
      overflows (a panic) when `n` is 0xFF and the carry is set. */
  function Adc(s: Regs, n: u8): (t: Regs)
    requires !(n == 0xFF && s.FlagSet(C))
    ensures t == s.(a := t.a, f := t.f)
  {
    Add(s, n + s.FlagBit(C))
  }

  /** ADC A,n as written: A is `A + n + c` modulo 0x100 and C its ninth bit, but H is
      the nibble carry of `A + (n + c)`, so a carry-in that only carries within the
      operand's low nibble is lost. */
  lemma {:induction false} AdcFlags(s: Regs, n: u8)
    requires !(n == 0xFF && s.FlagSet(C))
    ensures (if Adc(s, n).FlagSet(C) then 0x100 else 0) + Adc(s, n).a == s.a + n + s.FlagBit(C)
    ensures Adc(s, n).FlagSet(Z) <==> (s.a + n + s.FlagBit(C)) % 0x100 == 0
    ensures !Adc(s, n).FlagSet(N)
    ensures Adc(s, n).FlagSet(H) <==> s.a % 0x10 + (n + s.FlagBit(C)) % 0x10 >= 0x10
  {
    AddFlags(s, n + s.FlagBit(C));
  }

  /** ADC A,n as the instruction is meant to work: the three-way sum `A + n + c`,
      defined for every operand, with H the carry out of the three low nibbles. */
  function AdcExact(s: Regs, n: u8): (t: Regs)
    ensures (if t.FlagSet(C) then 0x100 else 0) + t.a == s.a + n + s.FlagBit(C)
    ensures t.FlagSet(Z) <==> (s.a + n + s.FlagBit(C)) % 0x100 == 0
    ensures !t.FlagSet(N)
    ensures t.FlagSet(H) <==> s.a % 0x10 + n % 0x10 + s.FlagBit(C) >= 0x10
    ensures t == s.(a := t.a, f := t.f)
  {
    var c := s.FlagBit(C);
    var sum := s.a + n + c;
    s.WithFlags(Flags(sum % 0x100 == 0, false, s.a % 0x10 + n % 0x10 + c >= 0x10, sum > 0xFF))
      .(a := sum % 0x100)
  }

  /** With A = 0, n = 0x0F and the carry set, ADC as written leaves H clear, where the
      three-way sum 0 + 0x0F + 1 carries out of the low nibble. */
  lemma AdcHalfCarryLost(s: Regs)
    requires s.a == 0 && s.FlagSet(C)
    ensures !Adc(s, 0x0F).FlagSet(H) && AdcExact(s, 0x0F).FlagSet(H)
  {
    AdcFlags(s, 0x0F);
  }

  /** Wherever ADC as written is defined, it agrees with the three-way sum on A and on
      every flag except H. */
  lemma {:induction false} AdcAgreesExceptHalf(s: Regs, n: u8)
    requires !(n == 0xFF && s.FlagSet(C))
    ensures Adc(s, n).a == AdcExact(s, n).a
    ensures Adc(s, n).f.(halfCarry := false) == AdcExact(s, n).f.(halfCarry := false)
  {
    AdcFlags(s, n);
  }

  /** SUB n: A and F replaced, nothing else touched. */
  function Sub(s: Regs, n: u8): (t: Regs)
    ensures t == s.(a := t.a, f := t.f)
  {
    var r := CarrySub(s.a, n);
    s.WithFlags(Flags(r.value == 0, true, r.half, r.carry)).(a := r.value)
  }

  /** SUB n: A is the difference modulo 0x100, Z is set exactly when the operands are
      equal, N is set, H is the borrow from the low nibble and C the borrow from the
      byte. */
  lemma {:induction false} SubFlags(s: Regs, n: u8)
    ensures Sub(s, n).a + n == s.a + (if Sub(s, n).FlagSet(C) then 0x100 else 0)
    ensures Sub(s, n).FlagSet(Z) <==> s.a == n
    ensures Sub(s, n).FlagSet(N)
    ensures Sub(s, n).FlagSet(H) <==> s.a % 0x10 < n % 0x10
    ensures Sub(s, n).FlagSet(C) <==> s.a < n
  {
    CarrySubExact(s.a, n);
  }

  /** SBC A,n: the carry is added to the operand first; the Rust `u8` sum `n + c`
      overflows (a panic) when `n` is 0xFF and the carry is set. */
  function Sbc(s: Regs, n: u8): (t: Regs)
    requires !(n == 0xFF && s.FlagSet(C))
    ensures t == s.(a := t.a, f := t.f)
  {
    Sub(s, n + s.FlagBit(C))
  }

  /** SBC A,n as written subtracts the operand and the old carry; C is the borrow of the
      whole subtraction, but H is the nibble borrow of `A - (n + c)`, so a carry-in
      that only carries within the operand's low nibble is lost. */
  lemma {:induction false} SbcFlags(s: Regs, n: u8)
    requires !(n == 0xFF && s.FlagSet(C))
    ensures Sbc(s, n).a + n + s.FlagBit(C) == s.a + (if Sbc(s, n).FlagSet(C) then 0x100 else 0)
    ensures Sbc(s, n).FlagSet(Z) <==> s.a == n + s.FlagBit(C)
    ensures Sbc(s, n).FlagSet(N)
    ensures Sbc(s, n).FlagSet(H) <==> s.a % 0x10 < (n + s.FlagBit(C)) % 0x10
    ensures Sbc(s, n).FlagSet(C) <==> s.a < n + s.FlagBit(C)
  {
    SubFlags(s, n + s.FlagBit(C));
  }

  /** SBC A,n as the instruction is meant to work: the three-way difference
      `A - n - c`, defined for every operand, with H the borrow of `n`'s low nibble
      and the carry from A's low nibble. */
  function SbcExact(s: Regs, n: u8): (t: Regs)
    ensures t.a + n + s.FlagBit(C) == s.a + (if t.FlagSet(C) then 0x100 else 0)
    ensures t.FlagSet(Z) <==> s.a == n + s.FlagBit(C)
    ensures t.FlagSet(N)
    ensures t.FlagSet(H) <==> s.a % 0x10 < n % 0x10 + s.FlagBit(C)
    ensures t == s.(a := t.a, f := t.f)
  {
    var c := s.FlagBit(C);
    var diff := s.a - n - c;
    s.WithFlags(Flags(diff == 0, true, s.a % 0x10 < n % 0x10 + c, diff < 0))
      .(a := diff % 0x100)
  }

  /** With A = 0x10, n = 0x0F and the carry set, SBC as written leaves H clear, where
      the three-way difference 0x10 - 0x0F - 1 borrows from the low nibble. */
  lemma SbcHalfBorrowLost(s: Regs)
    requires s.a == 0x10 && s.FlagSet(C)
    ensures !Sbc(s, 0x0F).FlagSet(H) && SbcExact(s, 0x0F).FlagSet(H)
  {
    SbcFlags(s, 0x0F);
  }

  /** Wherever SBC as written is defined, it agrees with the three-way difference on A
      and on every flag except H. */
  lemma {:induction false} SbcAgreesExceptHalf(s: Regs, n: u8)
    requires !(n == 0xFF && s.FlagSet(C))
    ensures Sbc(s, n).a == SbcExact(s, n).a
    ensures Sbc(s, n).f.(halfCarry := false) == SbcExact(s, n).f.(halfCarry := false)
  {
    SbcFlags(s, n);
  }

  /** AND n: A and F replaced, nothing else touched. */
  function AndA(s: Regs, n: u8): (t: Regs)
    ensures t == s.(a := t.a, f := t.f)
  {
    var a := And(s.a, n);
    s.(a := a).WithFlags(Flags(a == 0, false, true, false))
  }

  /** OR n: A and F replaced, nothing else touched. */
  function OrA(s: Regs, n: u8): (t: Regs)
    ensures t == s.(a := t.a, f := t.f)
  {
    var a := Or(s.a, n);
    s.(a := a).WithFlags(Flags(a == 0, false, false, false))
  }

  /** XOR n: A and F replaced, nothing else touched. */
  function XorA(s: Regs, n: u8): (t: Regs)
    ensures t == s.(a := t.a, f := t.f)
  {
    var a := Xor(s.a, n);
    s.(a := a).WithFlags(Flags(a == 0, false, false, false))
  }

  /** AND n keeps exactly the bits set in both A and n; Z reports a zero result, H is
      set, N and C are cleared. */
  lemma AndFlags(s: Regs, n: u8, k: nat)
    requires k < 8
    ensures Bit(AndA(s, n).a, k) <==> Bit(s.a, k) && Bit(n, k)
    ensures AndA(s, n).f == Flags(AndA(s, n).a == 0, false, true, false)
  {
    AndBitsBit(s.a, n, 8, k);
  }

  /** OR n keeps the bits set in either A or n; Z reports a zero result, N, H and C
      are cleared. */
  lemma OrFlags(s: Regs, n: u8, k: nat)
    requires k < 8
    ensures Bit(OrA(s, n).a, k) <==> Bit(s.a, k) || Bit(n, k)
    ensures OrA(s, n).f == Flags(OrA(s, n).a == 0, false, false, false)
  {
    OrBitsBit(s.a, n, 8, k);
  }

  /** XOR n keeps the bits set in exactly one of A and n; Z reports a zero result, N,
      H and C are cleared. */
  lemma XorFlags(s: Regs, n: u8, k: nat)
    requires k < 8
    ensures Bit(XorA(s, n).a, k) <==> Bit(s.a, k) != Bit(n, k)
    ensures XorA(s, n).f == Flags(XorA(s, n).a == 0, false, false, false)
  {
    XorBitsBit(s.a, n, 8, k);
  }

  /** XOR A with itself always clears A and leaves exactly Z set. */
  lemma XorSelf(s: Regs)
    ensures XorA(s, s.a).a == 0 && XorA(s, s.a).f == Flags(true, false, false, false)
  {
    XorBitsSelf(s.a, 8);
  }

  /** CP n: the flags of SUB n, with A left unchanged. */
  function Cp(s: Regs, n: u8): (t: Regs)
    ensures t == s.(f := t.f)
  {
    var r := CarrySub(s.a, n);
    s.WithFlags(Flags(r.value == 0, true, r.half, r.carry))
  }

  /** CP n sets the flags exactly as SUB n would, without storing the difference; Z is
      set exactly when A equals n and C exactly when A is below n. */
  lemma CpIsSubFlags(s: Regs, n: u8)
    ensures Cp(s, n) == Sub(s, n).(a := s.a)
    ensures Cp(s, n).FlagSet(Z) <==> s.a == n
    ensures Cp(s, n).FlagSet(C) <==> s.a < n
  {
  }

  /** INC n: the byte and F with Z, N, H replaced. */
  function Inc(s: Regs, n: u8): (r: ByteOut)
    ensures r.regs == s.(f := r.regs.f)
  {
    var sum := CarryAdd(n, 1);
    ByteOut(sum.value, s.WithFlag(Z, sum.value == 0).WithFlag(N, false).WithFlag(H, sum.half))
  }

  /** DEC n: the byte and F with Z, N, H replaced. */
  function Dec(s: Regs, n: u8): (r: ByteOut)
    ensures r.regs == s.(f := r.regs.f)
  {
    var diff := CarrySub(n, 1);
    ByteOut(diff.value, s.WithFlag(Z, diff.value == 0).WithFlag(N, true).WithFlag(H, diff.half))
  }

  /** INC steps the byte up by one with wrap-around, sets H exactly when the low nibble
      wraps, and never touches C. */
  lemma IncFlags(s: Regs, n: u8)
    ensures Inc(s, n).value == (n + 1) % 0x100
    ensures Inc(s, n).regs.FlagSet(Z) <==> n == 0xFF
    ensures !Inc(s, n).regs.FlagSet(N)
    ensures Inc(s, n).regs.FlagSet(H) <==> n % 0x10 == 0x0F
    ensures Inc(s, n).regs.FlagSet(C) == s.FlagSet(C)
  {
  }

  /** DEC steps the byte down by one with wrap-around, sets H exactly when the low
      nibble wraps, and never touches C. */
  lemma DecFlags(s: Regs, n: u8)
    ensures Dec(s, n).value == (n - 1) % 0x100
    ensures Dec(s, n).regs.FlagSet(Z) <==> n == 0x01
    ensures Dec(s, n).regs.FlagSet(N)
    ensures Dec(s, n).regs.FlagSet(H) <==> n % 0x10 == 0x00
    ensures Dec(s, n).regs.FlagSet(C) == s.FlagSet(C)
  {
  }

  /** DEC undoes INC on the byte, and INC undoes DEC. */
  lemma IncDecInverse(s: Regs, n: u8)
    ensures Dec(s, Inc(s, n).value).value == n
    ensures Inc(s, Dec(s, n).value).value == n
  {
    var up := Inc(s, n).value;
    var down := Dec(s, n).value;
    assert up == if n == 0xFF then 0 else n + 1;
    assert down == if n == 0 then 0xFF else n - 1;
  }

  /** The two carries `alu_add_hl` derives for the 16-bit sum `x + y`: out of bit 10
      (the sum of the 0x07FF-masked halves) and out of bit 15 (the sum widened to 32
      bits). */
  datatype WideCarries = WideCarries(half: bool, carry: bool)

  function CarryAdd16(x: u16, y: u16): WideCarries {
    WideCarries(x % 0x800 + y % 0x800 > 0x07FF, x + y > 0xFFFF)
  }

  /** ADD HL,n: F and HL replaced, nothing else touched. */
  function AddHl(s: Regs, n: u16): (t: Regs)
    ensures t == s.(f := t.f, h := t.h, l := t.l)
  {
    var hl := s.HL();
    var r := CarryAdd16(hl, n);
    s.WithFlag(N, false).WithFlag(H, r.half).WithFlag(C, r.carry).WithHL(WrappingAdd(hl, n))
  }

  /** ADD HL,n: HL is the sum modulo 0x10000 with C its seventeenth bit, H is set
      exactly when the low 11 bits wrapped, N is cleared and Z kept. */
  lemma {:induction false} AddHlFlags(s: Regs, n: u16)
    ensures (if AddHl(s, n).FlagSet(C) then 0x10000 else 0) + AddHl(s, n).HL() == s.HL() + n
    ensures AddHl(s, n).FlagSet(H) <==> AddHl(s, n).HL() % 0x800 < s.HL() % 0x800
    ensures !AddHl(s, n).FlagSet(N) && AddHl(s, n).FlagSet(Z) == s.FlagSet(Z)
  {
    var hl := s.HL();
    var r := CarryAdd16(hl, n);
    var t := AddHl(s, n);
    assert t.FlagSet(C) == r.carry && t.FlagSet(H) == r.half;
    assert t.HL() == WrappingAdd(hl, n);
    WideSum(hl, n);
  }

  /** The wrapped 16-bit sum and the two carries `CarryAdd16` derives for it: the carry
      is the seventeenth bit of the exact sum, and the carry out of bit 10 shows as a
      wrap of the low 11 bits. */
  lemma WideSum(x: u16, y: u16)
    ensures (if CarryAdd16(x, y).carry then 0x10000 else 0) + WrappingAdd(x, y) == x + y
    ensures CarryAdd16(x, y).half <==> WrappingAdd(x, y) % 0x800 < x % 0x800
  {
    var w := WrappingAdd(x, y);
    var low := x % 0x800 + y % 0x800;
    assert w == if x + y > 0xFFFF then x + y - 0x10000 else x + y;
    var q := x / 0x800 + y / 0x800 - (if x + y > 0xFFFF then 0x20 else 0);
    if low > 0x7FF {
      LowBitsOf(w, q + 1, low - 0x800);
    } else {
      LowBitsOf(w, q, low);
    }
  }

  /** The low 11 bits of `q * 0x800 + r` are `r`. */
  lemma LowBitsOf(x: int, q: int, r: int)
    requires x == q * 0x800 + r && 0 <= r < 0x800
    ensures x % 0x800 == r
  {
  }

  /** `(n & 0xF0) >> 4 | (n & 0x0F) << 4`: the two shifted nibbles have no bit in
      common, so the OR is their sum. */
  lemma SwapHalves(n: u8)
    ensures Or(n / 0x10, (n % 0x10) * 0x10) == n / 0x10 + (n % 0x10) * 0x10
  {
    var hi := (n % 0x10) * 0x10;
    var h1 := hi / 2;
    var h2 := h1 / 2;
    var h3 := h2 / 2;
    assert LowZero(h3, 1);
    assert LowZero(h2, 2);
    assert LowZero(h1, 3);
    assert LowZero(hi, 4);
    assert Pow2(4) == 0x10;
    assert Pow2(8) == 0x100;
    OrDisjoint(n / 0x10, hi, 4, 8);
  }

  /** SWAP n: the two nibbles exchanged; Z from the result, N, H, C cleared. */
  function Swap(s: Regs, n: u8): (r: ByteOut)
    ensures r.value / 0x10 == n % 0x10 && r.value % 0x10 == n / 0x10
    ensures r.regs == s.WithFlags(Flags(n == 0, false, false, false))
  {
    SwapHalves(n);
    var v := Or(n / 0x10, (n % 0x10) * 0x10);
    ByteOut(v, s.WithFlags(Flags(v == 0, false, false, false)))
  }

  /** Swapping twice gives the byte back. */
  lemma SwapTwice(s: Regs, n: u8)
    ensures Swap(Swap(s, n).regs, Swap(s, n).value).value == n
  {
  }

  /** `n << 1 | n >> 7`: the shifted byte has bit 0 clear and `n >> 7` is 0 or 1, so the
      OR is their sum. */
  lemma RotateHalves(n: u8)
    ensures Or((n * 2) % 0x100, n / 0x80) == 2 * (n % 0x80) + n / 0x80
  {
    assert (n * 2) % 0x100 == 2 * (n % 0x80);
    assert Pow2(1) == 2;
    assert Pow2(8) == 0x100;
    OrComm((n * 2) % 0x100, n / 0x80, 8);
    OrDisjoint(n / 0x80, (n * 2) % 0x100, 1, 8);
  }

  /** RLC n: rotate left; the new bit 0 and C are the old bit 7, Z from the result,
      N and H cleared. */
  function Rlc(s: Regs, n: u8): (r: ByteOut)
    ensures r.value / 2 == n % 0x80 && r.value % 2 == n / 0x80
    ensures r.regs == s.WithFlags(Flags(n == 0, false, false, n >= 0x80))
  {
    RotateHalves(n);
    HighMask(n);
    var v := Or((n * 2) % 0x100, n / 0x80);
    ByteOut(v, s.WithFlags(Flags(v == 0, false, false, And(n, 0x80) == 0x80)))
  }

  /** `(n << 1) & 0xFE`: the shifted byte already has bit 0 clear. */
  lemma ShiftedLeft(n: u8)
    ensures And((n * 2) % 0x100, 0xFE) == 2 * (n % 0x80)
  {
    var x := 2 * (n % 0x80);
    assert (n * 2) % 0x100 == x;
    ClearLowBit(x);
  }

  /** SLA n: shift left, bit 0 becomes 0; C is the old bit 7, Z from the result,
      N and H cleared. */
  function Sla(s: Regs, n: u8): (r: ByteOut)
    ensures r.value / 2 == n % 0x80 && r.value % 2 == 0
    ensures r.regs == s.WithFlags(Flags(n % 0x80 == 0, false, false, n >= 0x80))
  {
    ShiftedLeft(n);
    HighMask(n);
    var v := And((n * 2) % 0x100, 0xFE);
    ByteOut(v, s.WithFlags(Flags(v == 0, false, false, And(n, 0x80) == 0x80)))
  }

  /** BIT b,r: Z is set exactly when `r & (1 << b)` is 0; N cleared, H set, C and
      every register unchanged. The shift `1 << b` overflows unless `b < 8`. */
  function BitTest(s: Regs, b: u8, r: u8): (t: Regs)
    requires b < 8
    ensures t == s.(f := t.f)
  {
    Pow2Byte(b);
    s.WithFlag(Z, And(r, Pow2(b)) == 0).WithFlag(N, false).WithFlag(H, true)
  }

  /** BIT b,r sets Z exactly when bit `b` of `r` is 0, clears N, sets H and keeps C. */
  lemma BitTestFlags(s: Regs, b: u8, r: u8)
    requires b < 8
    ensures BitTest(s, b, r).FlagSet(Z) <==> !Bit(r, b)
    ensures !BitTest(s, b, r).FlagSet(N) && BitTest(s, b, r).FlagSet(H)
    ensures BitTest(s, b, r).FlagSet(C) == s.FlagSet(C)
  {
    MaskTest(r, b);
  }

  /** SET b,r (`alu_set`): `r | (1 << b)`. The shift requires `b < 8`. */
  function SetBit(r: u8, b: u8): u8
    requires b < 8
  {
    Pow2Byte(b);
    Or(r, Pow2(b))
  }

  /** SET b,r sets bit `b` and keeps every other bit. */
  lemma SetBitBits(r: u8, b: u8, k: nat)
    requires b < 8 && k < 8
    ensures Bit(SetBit(r, b), k) <==> k == b || Bit(r, k)
  {
    Pow2Byte(b);
    OrBitsBit(r, Pow2(b), 8, k);
    Pow2Bit(b, k);
  }

  /** SUB n undoes ADD n: A comes back, and the borrows of the subtraction are the
      carries of the addition. */
  lemma {:induction false} SubUndoesAdd(s: Regs, n: u8)
    ensures Sub(Add(s, n), n).a == s.a
    ensures Sub(Add(s, n), n).FlagSet(C) == Add(s, n).FlagSet(C)
    ensures Sub(Add(s, n), n).FlagSet(H) == Add(s, n).FlagSet(H)
  {
    var t := Add(s, n);
    AddFlags(s, n);
    SubFlags(t, n);
    var low := s.a % 0x10 + n % 0x10;
    var q := s.a / 0x10 + n / 0x10 - (if t.FlagSet(C) then 0x10 else 0);
    if low >= 0x10 {
      LowNibbleOf(t.a, q + 1, low - 0x10);
    } else {
      LowNibbleOf(t.a, q, low);
    }
  }

  /** The low nibble of `q * 0x10 + r` is `r`. */
  lemma LowNibbleOf(x: int, q: int, r: int)
    requires x == q * 0x10 + r && 0 <= r < 0x10
    ensures x % 0x10 == r
  {
  }

  /** The values fixed by the unit tests for the additive operations, starting from
      F = 0xF0 and A = 1; F is compared as its byte. */
  lemma UnitTestsArith(s: Regs)
    requires s.a == 0x01 && s.f == Flags(true, true, true, true)
    ensures Add(s, 0x02).a == 0x03 && Pack(Add(s, 0x02).f) == 0x00
    ensures Adc(s, 0x02).a == 0x04 && Pack(Adc(s, 0x02).f) == 0x00
    ensures Sub(s, 0x02).a == 0xFF && Pack(Sub(s, 0x02).f) == 0x70
    ensures Sbc(s, 0x02).a == 0xFE && Pack(Sbc(s, 0x02).f) == 0x70
    ensures Cp(s, 0x02).a == 0x01 && Pack(Cp(s, 0x02).f) == 0x70
  {
  }

  /** The values fixed by the unit tests for AND, OR and XOR. */
  lemma UnitTestsLogic(s: Regs)
    requires s.a == 0x01 && s.f == Flags(true, true, true, true)
    ensures AndA(s, 0x02).a == 0x00 && Pack(AndA(s, 0x02).f) == 0xA0
    ensures OrA(s, 0x03).a == 0x03 && Pack(OrA(s, 0x03).f) == 0x00
    ensures XorA(s, 0x03).a == 0x02 && Pack(XorA(s, 0x03).f) == 0x00
  {
  }

  /** The values fixed by the unit tests for INC and DEC of A. */
  lemma UnitTestsIncDec(s: Regs)
    requires s.a == 0x01 && s.f == Flags(true, true, true, true)
    ensures Inc(s, s.a).value == 0x02 && Pack(Inc(s, s.a).regs.f) == 0x10
    ensures Dec(s, s.a).value == 0x00 && Pack(Dec(s, s.a).regs.f) == 0xD0
  {
  }

  /** The values fixed by the unit tests for ADD HL (HL = 0x0FFF plus 0x0FFE). */
  lemma UnitTestAddHl(s: Regs)
    requires s.h == 0x0F && s.l == 0xFF
    ensures !AddHl(s, 0x0FFE).FlagSet(N) && AddHl(s, 0x0FFE).FlagSet(H) && !AddHl(s, 0x0FFE).FlagSet(C)
  {
    assert s.HL() == 0x0FFF;
    AddHlFlags(s, 0x0FFE);
  }

  /** The values fixed by the unit tests for SWAP, RLC and SLA (RLC starts from
      F = 0x80), BIT and SET. */
  lemma UnitTestsBits(s: Regs)
    requires s.a == 0x01 && s.f == Flags(true, true, true, true)
    ensures Swap(s, 0x01).value == 0x10 && Pack(Swap(s, 0x01).regs.f) == 0x00
    ensures Rlc(s.WithFlags(Flags(true, false, false, false)), 0x81).value == 0x03
    ensures Pack(Rlc(s.WithFlags(Flags(true, false, false, false)), 0x81).regs.f) == 0x10
    ensures Sla(s, 0x81).value == 0x02 && Pack(Sla(s, 0x81).regs.f) == 0x10
    ensures Pack(BitTest(s, 0, 0x01).f) == 0x30
    ensures SetBit(0x01, 1) == 0x03
  {
    assert Pow2(1) == 2;
  }

  // The operations as the handlers call them: each updates the register file in place.

  method AluAdd(reg: Registers, n: u8)
    modifies reg
    ensures reg.Value() == Add(old(reg.Value()), n)
  {
    var r := CarryAdd(reg.a, n);
    reg.SetFlags(r.value == 0, false, r.half, r.carry);
    reg.a := r.value;
  }

  method AluAdc(reg: Registers, n: u8)
    requires !(n == 0xFF && reg.GetFlag(C))
    modifies reg
    ensures reg.Value() == Adc(old(reg.Value()), n)
  {
    var c := reg.GetFlagBit(C);
    AluAdd(reg, n + c);
  }

  method AluSub(reg: Registers, n: u8)
    modifies reg
    ensures reg.Value() == Sub(old(reg.Value()), n)
  {
    var r := CarrySub(reg.a, n);
    reg.SetFlags(r.value == 0, true, r.half, r.carry);
    reg.a := r.value;
  }

  method AluSbc(reg: Registers, n: u8)
    requires !(n == 0xFF && reg.GetFlag(C))
    modifies reg
    ensures reg.Value() == Sbc(old(reg.Value()), n)
  {
    var c := reg.GetFlagBit(C);
    AluSub(reg, n + c);
  }

  method AluAnd(reg: Registers, n: u8)
    modifies reg
    ensures reg.Value() == AndA(old(reg.Value()), n)
  {
    reg.a := And(reg.a, n);
    reg.SetFlags(reg.a == 0, false, true, false);
  }

  method AluOr(reg: Registers, n: u8)
    modifies reg
    ensures reg.Value() == OrA(old(reg.Value()), n)
  {
    reg.a := Or(reg.a, n);
    reg.SetFlags(reg.a == 0, false, false, false);
  }

  method AluXor(reg: Registers, n: u8)
    modifies reg
    ensures reg.Value() == XorA(old(reg.Value()), n)
  {
    reg.a := Xor(reg.a, n);
    reg.SetFlags(reg.a == 0, false, false, false);
  }

  method AluCp(reg: Registers, n: u8)
    modifies reg
    ensures reg.Value() == Cp(old(reg.Value()), n)
  {
    var r := CarrySub(reg.a, n);
    reg.SetFlags(r.value == 0, true, r.half, r.carry);
  }

  method AluInc(reg: Registers, n: u8) returns (v: u8)
    modifies reg
    ensures ByteOut(v, reg.Value()) == Inc(old(reg.Value()), n)
  {
    var r := CarryAdd(n, 1);
    reg.SetFlag(Z, r.value == 0);
    reg.SetFlag(N, false);
    reg.SetFlag(H, r.half);
    v := r.value;
  }

  method AluDec(reg: Registers, n: u8) returns (v: u8)
    modifies reg
    ensures ByteOut(v, reg.Value()) == Dec(old(reg.Value()), n)
  {
    var r := CarrySub(n, 1);
    reg.SetFlag(Z, r.value == 0);
    reg.SetFlag(N, true);
    reg.SetFlag(H, r.half);
    v := r.value;
  }

  method AluAddHl(reg: Registers, n: u16)
    modifies reg
    ensures reg.Value() == AddHl(old(reg.Value()), n)
  {
    var hl := reg.HL();
    var r := WrappingAdd(hl, n);
    var carries := CarryAdd16(hl, n);
    reg.SetFlag(N, false);
    reg.SetFlag(H, carries.half);
    reg.SetFlag(C, carries.carry);
    reg.SetHL(r);
  }

  method AluSwap(reg: Registers, n: u8) returns (v: u8)
    modifies reg
    ensures ByteOut(v, reg.Value()) == Swap(old(reg.Value()), n)
  {
    v := Or(n / 0x10, (n % 0x10) * 0x10);
    reg.SetFlags(v == 0, false, false, false);
  }

  method AluRlc(reg: Registers, n: u8) returns (v: u8)
    modifies reg
    ensures ByteOut(v, reg.Value()) == Rlc(old(reg.Value()), n)
  {
    v := Or((n * 2) % 0x100, n / 0x80);
    reg.SetFlags(v == 0, false, false, And(n, 0x80) == 0x80);
  }

  method AluSla(reg: Registers, n: u8) returns (v: u8)
    modifies reg
    ensures ByteOut(v, reg.Value()) == Sla(old(reg.Value()), n)
  {
    v := And((n * 2) % 0x100, 0xFE);
    reg.SetFlags(v == 0, false, false, And(n, 0x80) == 0x80);
  }

  method AluBit(reg: Registers, b: u8, r: u8)
    requires b < 8
    modifies reg
    ensures reg.Value() == BitTest(old(reg.Value()), b, r)
  {
    Pow2Byte(b);
    reg.SetFlag(Z, And(r, Pow2(b)) == 0);
    reg.SetFlag(N, false);
    reg.SetFlag(H, true);
  }
}
