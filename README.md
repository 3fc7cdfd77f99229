# rustboy core in Dafny

A model of the processor core of the rustboy Game Boy emulator, with proofs about it. The model covers:

- the arithmetic and logic unit (`alu.rs`), which updates the register file and its Z, N, H and C flags;
- the 64 KiB memory and its power-on contents (`mmu.rs`);
- the primary opcode table `call_instruction`, with operand fetch, the stack and the one-entry `call_cb` (`cpu.rs`);
- the CB-prefixed table `cb_prefix` (`cb.rs`);
- the display controller's tick, which advances the line counter LY and raises the V-blank request (`gpu.rs`).

Bytes and words are the integer subtypes `u8` and `u16`. Wrap-around is written out as `%`. AND, OR and XOR are defined bit by bit (`Bytes.AndBits` and its siblings), and shifts are multiplication and division by powers of two. Rust's debug-mode overflow panics become preconditions. An opcode missing from a table is a panic in the source and a `Status` here (`Unsupported`, `UnsupportedCb`).

Every part of the source that updates state in place is modelled twice:

- a function on values: `Alu.Add`, `Cpu.Exec`, `Cb.CbExec`, `Gpu.Ticked`;
- a method on the mutable objects, proved to agree with that function: `Alu.AluAdd`, `Cpu.CallInstruction`, `Cb.Cpu.CbPrefix`, `Gpu.Gpu.Tick`.

The mutable objects are the `Registers.Registers` class, the memory array and the `Gpu` class. The properties are then proved about the value functions.

Files:

- `bytes.dfy`: bytes and words, halves, bitwise operations.
- `registers.dfy`: the register file. `registers.rs` is not part of this model; the register file is rebuilt from the way the core uses it (fields a–l, f, pc, sp; `bc`/`de`/`hl` pairs; `get_flag`/`set_flag`).
- `alu.dfy`, `mmu.dfy`, `cpu.dfy`, `cb.dfy`, `gpu.dfy`: the five core files.
- `cpu_facts.dfy`: properties of the primary opcode table.

The instruction tables follow the code as written, including the entries listed under "## Findings". The corrected definitions stand beside them and are proved to have the intended property.

## Model

| member | source | states |
|---|---|---|
| Bytes.Pair | src/mmu.rs:39-43 | a word built from two bytes has them as its high and low halves |
| Bytes.PairOfHalves | src/mmu.rs:39-51 | splitting a word into its halves and joining them gives the word back |
| Bytes.WrappingInverse | src/cpu.rs:50-102 | `wrapping_sub(1)` undoes `wrapping_add(1)` on a word, and the other way round |
| Alu.CarryAddExact | src/alu.rs:9-15 | the 9-bit sum is the carry times 0x100 plus the byte; H is a carry out of the low nibble; C is set exactly when the byte wrapped |
| Alu.CarrySubExact | src/alu.rs:17-22 | the byte plus the subtrahend is the minuend plus 0x100 when borrowing; H and C mean a borrow from the nibble and from the byte |
| Alu.CarryExamples | src/alu.rs:150-168 | 0xFF + 0x01 gives 0x00 with H and C; 0x00 − 0xFF gives 0x01 with H and C |
| Alu.AddFlags | src/alu.rs:28-32 | ADD: C·0x100 + A' = A + n; Z iff the sum is 0 mod 0x100; N clear; H iff the nibbles carry |
| Alu.AdcFlags | src/alu.rs:35-38 | ADC, as written: A' is A + n + C mod 0x100 with C out; H is the half carry of n + C added to A |
| Alu.AdcExact | src/alu.rs:35-38 | ADC as intended: H is the carry out of A's nibble + n's nibble + C; C, Z, N as for the exact sum |
| Alu.AdcHalfCarryLost | src/alu.rs:35-38 | with A = 0, C set, n = 0x0F the as-written H is clear while the exact H is set |
| Alu.AdcAgreesExceptHalf | src/alu.rs:35-38 | as written and as intended, ADC agree on A and on every flag but H |
| Alu.SubFlags | src/alu.rs:41-45 | SUB: A' + n = A + C·0x100; Z iff A = n; N set; H iff the low nibble borrows; C iff A < n |
| Alu.SbcFlags | src/alu.rs:48-51 | SBC, as written: A' + n + C = A + C'·0x100; Z iff A = n + C; N set; C' iff A < n + C; H is the nibble borrow of n + C taken from A |
| Alu.SbcExact | src/alu.rs:48-51 | SBC as intended: H is the borrow of n's nibble + C from A's nibble; A, Z, N, C as for the exact difference A − n − C |
| Alu.SbcHalfBorrowLost | src/alu.rs:48-51 | with A = 0x10, C set, n = 0x0F the as-written H is clear while the exact H is set |
| Alu.SbcAgreesExceptHalf | src/alu.rs:48-51 | as written and as intended, SBC agree on A and on every flag but H |
| Alu.SubUndoesAdd | src/alu.rs:28-45 | SUB n after ADD n gives A back, and its borrow equals the add's carry |
| Alu.AndFlags | src/alu.rs:54-57 | AND: bit k of A' is bit k of A and of n; F is Z(A' = 0), N clear, H set, C clear |
| Alu.OrFlags | src/alu.rs:60-63 | OR: bit k of A' is bit k of A or of n; F is Z(A' = 0) with N, H, C clear |
| Alu.XorFlags | src/alu.rs:66-69 | XOR: bit k of A' is set iff the bits of A and n differ; F is Z(A' = 0) with N, H, C clear |
| Alu.XorSelf | src/alu.rs:66-69 | XOR of A with itself gives 0 with only Z set |
| Alu.CpIsSubFlags | src/alu.rs:72-75 | CP sets the flags of SUB and keeps A; Z iff A = n; C iff A < n |
| Alu.IncFlags | src/alu.rs:78-84 | INC: the value is n + 1 mod 0x100; Z iff n = 0xFF; N clear; H iff the low nibble was 0xF; C kept |
| Alu.DecFlags | src/alu.rs:87-93 | DEC: the value is n − 1 mod 0x100; Z iff n = 1; N set; H iff the low nibble was 0; C kept |
| Alu.IncDecInverse | src/alu.rs:78-93 | DEC undoes INC and INC undoes DEC on the value |
| Alu.AddHlFlags | src/alu.rs:98-104 | ADD HL: C·0x10000 + HL' = HL + n; H iff bits 0–10 carry out; N clear; Z kept |
| Alu.WideSum | src/alu.rs:98-104 | the two carries of `alu_add_hl`: C·0x10000 plus the wrapped sum is the exact sum, and H is set exactly when the low 11 bits of the sum wrap below those of HL |
| Alu.Swap | src/alu.rs:109-113 | SWAP: the high nibble of the result is n's low nibble and the other way round; F is Z(n = 0) with N, H, C clear |
| Alu.SwapTwice | src/alu.rs:109-113 | swapping twice gives the byte back |
| Alu.Rlc | src/alu.rs:118-122 | RLC: the result is n rotated left by one (bit 7 into bit 0); F is Z(n = 0), N, H clear, C = bit 7 of n |
| Alu.Sla | src/alu.rs:125-129 | SLA: the result is n shifted left with bit 0 clear; Z iff the result is 0; C = bit 7 of n |
| Alu.BitTestFlags | src/alu.rs:134-138 | BIT b,r: Z iff bit b of r is clear; N clear; H set; C and the registers kept |
| Alu.SetBitBits | src/alu.rs:141-143 | SET b,r: bit k of the result is set iff k = b or bit k of r is set |
| Alu.UnitTestsArith | src/alu.rs:170-209 | the values the unit tests of ADD, ADC, SUB and SBC fix, and CP on the same inputs |
| Alu.UnitTestsLogic | src/alu.rs:210-239 | the values the unit tests of AND, OR and XOR fix |
| Alu.UnitTestsIncDec | src/alu.rs:250-270 | the values the unit tests of INC and DEC fix |
| Alu.UnitTestAddHl | src/alu.rs:272-281 | HL = 0x0FFF plus 0x0FFE sets H and leaves N and C clear |
| Alu.UnitTestsBits | src/alu.rs:283-323 | the values the unit tests of SWAP, RLC, SLA, BIT and SET fix |
| Alu.AluAdd | src/alu.rs:28-32 | `alu_add` in place: the register file becomes `Add` of the old one |
| Alu.AluAdc | src/alu.rs:35-38 | `alu_adc` in place, as `Adc` |
| Alu.AluSub | src/alu.rs:41-45 | `alu_sub` in place, as `Sub` |
| Alu.AluSbc | src/alu.rs:48-51 | `alu_sbc` in place, as `Sbc` |
| Alu.AluAnd | src/alu.rs:54-57 | `alu_and` in place, as `AndA` |
| Alu.AluOr | src/alu.rs:60-63 | `alu_or` in place, as `OrA` |
| Alu.AluXor | src/alu.rs:66-69 | `alu_xor` in place, as `XorA` |
| Alu.AluCp | src/alu.rs:72-75 | `alu_cp` in place, as `Cp` |
| Alu.AluInc | src/alu.rs:78-84 | `alu_inc`: returns the incremented byte and updates F, as `Inc` |
| Alu.AluDec | src/alu.rs:87-93 | `alu_dec`: returns the decremented byte and updates F, as `Dec` |
| Alu.AluAddHl | src/alu.rs:98-104 | `alu_add_hl` in place, as `AddHl` |
| Alu.AluSwap | src/alu.rs:109-113 | `alu_swap`: returns the swapped byte and updates F, as `Swap` |
| Alu.AluRlc | src/alu.rs:118-122 | `alu_rlc`: returns the rotated byte and updates F, as `Rlc` |
| Alu.AluSla | src/alu.rs:125-129 | `alu_sla`: returns the shifted byte and updates F, as `Sla` |
| Alu.AluBit | src/alu.rs:134-138 | `alu_bit` in place, as `BitTest`; the shift needs b < 8 |
| Mmu.StoreByte | src/mmu.rs:32-36 | a store puts the byte at its address and changes no other byte |
| Mmu.ReadAfterWrite | src/mmu.rs:82-89 | reading an address just written gives the value written |
| Mmu.ReadOtherAfterWrite | src/mmu.rs:25-36 | a store leaves every other address reading as before |
| Mmu.ReadWord | src/mmu.rs:39-43 | a word read is little-endian: its low byte from `adr`, its high byte from `adr + 1` |
| Mmu.StoreWord | src/mmu.rs:46-51 | a word store writes the low byte at `adr`, the high byte at `adr + 1`, nothing else |
| Mmu.WordRoundTrip | src/mmu.rs:39-51 | reading back a stored word gives the word |
| Mmu.ReadBit | src/mmu.rs:53-57 | `read_bit` (shift right, test bit 0) is true iff the byte AND the mask 1 << bit is non-zero; bit < 8 |
| Mmu.WriteByte | src/mmu.rs:32-36 | `write_byte` on the array, as `StoreByte` |
| Mmu.WriteWord | src/mmu.rs:46-51 | `write_word` on the array, as `StoreWord` |
| Mmu.RegionOfExact | src/mmu.rs:63-74 | an address is classified as region r exactly when it lies in r's range |
| MmuInit.InitMemory | src/mmu.rs:3-22 | `init_memory` zeroes the array and then writes the I/O defaults, which gives `PowerOn()` |
| MmuInit.IoDefaultsInIoPage | src/mmu.rs:6-17 | every default lies in the I/O page 0xFF00–0xFF7F |
| MmuInit.IoDefaultsIncreasing | src/mmu.rs:6-17 | the default addresses strictly increase, so no default overwrites another |
| MmuInit.PowerOnListed | src/mmu.rs:3-22 | after power-on every listed register holds its listed value |
| MmuInit.PowerOnUnlisted | src/mmu.rs:3-22 | every address not in the list reads 0 after power-on |
| MmuInit.PowerOnExamples | src/mmu.rs:91-99 | 0x7FFF reads 0x00, 0xFF00 reads 0xCF, 0xFF02 reads 0x7E, 0xFFFF reads 0x00 |
| Cpu.SignedAddExact | src/cpu.rs:9-13 | the byte is read as an offset in −128..127 and added exactly whenever the sum stays in range |
| Cpu.SignedAddInverse | src/cpu.rs:9-13 | adding an offset and then its opposite returns to the start (except for −128) |
| Cpu.PushPop | src/cpu.rs:507-516 | popping right after a push gives the word back and restores SP and every other register |
| Cpu.PushFrame | src/cpu.rs:507-510 | a push changes only the two bytes just below SP |
| Cpu.NextByte | src/cpu.rs:16-20 | `next_byte` returns the byte at PC and advances PC by one |
| Cpu.NextWord | src/cpu.rs:23-27 | `next_word` returns the little-endian word at PC and advances PC by two |
| Cpu.PushStack | src/cpu.rs:507-510 | `push_stack` in place, as `Push` |
| Cpu.PopStack | src/cpu.rs:512-516 | `pop_stack` in place, as `Pop` |
| Cpu.CallImmediate | src/cpu.rs:36-460 | the loads and stores with an immediate operand, in place, as `ExecImmediate` |
| Cpu.CallMove | src/cpu.rs:44-438 | the register and register-indirect loads and stores, in place, as `ExecMove` |
| Cpu.CallIncDec | src/cpu.rs:50-229 | the 8- and 16-bit increments and decrements, in place, as `ExecIncDec` |
| Cpu.CallAlu | src/cpu.rs:74-479 | the accumulator, rotate and 16-bit add entries, in place, as `ExecAlu` |
| Cpu.CallCb | src/cpu.rs:487-505 | `call_cb` in place, as `CallCbSwap` |
| Cpu.CallControl | src/cpu.rs:35-471 | the jumps, CALL, RET, the CB prefix and the no-ops, in place, as `ExecControl` |
| Cpu.CallInstruction | src/cpu.rs:31-485 | `call_instruction` in place: registers, memory and returned cost are those of `Exec` |
| CpuFacts.StatusTable | src/cpu.rs:31-485 | every opcode reports the cycles of an independently written cost table (by flag for JR NZ and JP NC, by second byte for CB); exactly the unlisted opcodes panic, and then nothing changes |
| CpuFacts.IncDecBc | src/cpu.rs:50-102 | INC BC adds 1 mod 0x10000 in 2 cycles and keeps F and everything else; DEC BC after it restores the registers |
| CpuFacts.IncHl | src/cpu.rs:205-209 | INC HL adds 1 mod 0x10000 in 2 cycles and keeps F, every other register and memory |
| CpuFacts.RlcaRotates | src/cpu.rs:74-83 | RLCA rotates A left with bit 7 into bit 0 and C, and clears Z, N, H; the rotation equals CB RLC's |
| CpuFacts.RraRotates | src/cpu.rs:175-184 | RRA gives A / 2 + 0x80·C, puts bit 0 in C and clears Z, N, H |
| CpuFacts.CplTwice | src/cpu.rs:236-242 | CPL gives 0xFF − A, sets N and H, keeps Z and C; twice it gives A back |
| CpuFacts.XorAClears | src/cpu.rs:363-371 | XOR A equals `alu_xor` with A and gives A = 0 with only Z set |
| CpuFacts.JrNzBranches | src/cpu.rs:186-196 | JR NZ changes only PC; when Z is clear it equals JR r8 (PC after the operand plus the signed offset, 3 cycles), otherwise it steps over the operand (2 cycles) |
| CpuFacts.JrCAsWritten | src/cpu.rs:264-271 | JR C as written: with C clear PC stays on the offset byte; taken, it costs 2 cycles |
| CpuFacts.JrCIntended | src/cpu.rs:264-271 | JR C corrected: changes only PC; with C set it is JR r8 (3 cycles), otherwise PC steps over the offset (2 cycles) |
| CpuFacts.JrCIntendedMirrorsJrNz | src/cpu.rs:186-196 | the corrected JR C is JR NZ with the condition taken from C |
| CpuFacts.JpNcAsWritten | src/cpu.rs:417-424 | JP NC as written jumps when C is set, and with C clear leaves PC on the operand |
| CpuFacts.JpNcIntended | src/cpu.rs:417-424 | JP NC corrected: changes only PC, jumping when C is clear (4 cycles) and stepping over the operand otherwise (3 cycles) |
| CpuFacts.JpNcDiffers | src/cpu.rs:417-424 | the two disagree on PC whenever the target is neither PC nor PC + 2 |
| CpuFacts.CallThenRet | src/cpu.rs:397-415 | CALL jumps to the operand, pushes, costs 6; RET after it restores SP but resumes at PC + 4, two bytes past the next instruction |
| CpuFacts.CallIntended | src/cpu.rs:409-415 | CALL corrected: jumps to the operand with SP two lower, 6 cycles |
| CpuFacts.CallIntendedThenRet | src/cpu.rs:397-415 | with the corrected CALL, RET resumes at the instruction after the CALL with SP restored |
| CpuFacts.RetPops | src/cpu.rs:397-402 | RET from any state: PC becomes the word popped from SP, SP goes up by two, memory is unchanged, 4 cycles |
| CpuFacts.LdhLoads | src/cpu.rs:454-459 | LDH A,(a8) from any state: A is loaded from 0xFF00 + a8, PC steps over the operand, memory is unchanged, 3 cycles |
| CpuFacts.LdhStores | src/cpu.rs:426-431 | LDH (a8),A stores A at 0xFF00 + a8, changes no other byte and moves only PC |
| CpuFacts.LdCStores | src/cpu.rs:433-438 | LD (C),A stores A at 0xFF00 + C and changes nothing else |
| CpuFacts.LdhRoundTrip | src/cpu.rs:426-459 | LDH (n),A then LDH A,(n) loads back the stored A |
| CpuFacts.CbSwapClearsZero | src/cpu.rs:487-505 | `call_cb` SWAP A swaps like `alu_swap` but clears Z, so the two differ exactly when A = 0; any other second byte panics |
| CpuFacts.Op8AIgnoresCarry | src/cpu.rs:339-343 | with C set, 0x8A gives A + D mod 0x100 where ADC A,D gives A + D + 1 |
| Cb.Cpu.CbPrefix | src/cb.rs:6-72 | `cb_prefix` in place: registers, memory and cost are those of `CbExec` |
| Cb.CbStatusTable | src/cb.rs:6-72 | every second byte reports the cycles of an independently written cost table; exactly the unlisted bytes panic, and then nothing changes |
| Cb.RlcHlRotates | src/cb.rs:10-16 | RLC (HL) rotates the byte at HL, changes no other byte, sets Z iff the byte was 0 and C = its bit 7 |
| Cb.SlaADoubles | src/cb.rs:18-24 | SLA A gives 2·A mod 0x100 with Z iff that is 0 and C = bit 7 of A |
| Cb.SwapAInvolution | src/cb.rs:26-31 | SWAP A exchanges the nibbles, sets Z iff A = 0, and twice gives A back |
| Cb.BitTests | src/cb.rs:33-52 | BIT 0,C and BIT 6,A: Z iff the bit is clear, N clear, H set, C and the registers kept |
| Cb.Bit5AAsWritten | src/cb.rs:40-45 | 0x6F as written tests bit A of the constant 5: Z iff A is neither 0 nor 2; with A = 0 Z is clear though bit 5 of A is clear |
| Cb.Bit5AIntended | src/cb.rs:40-45 | BIT 5,A corrected: Z iff bit 5 of A is clear, for every A |
| Cb.Bit5ADiffers | src/cb.rs:40-45 | with A = 0 the corrected entry sets Z where the table entry clears it |
| Cb.Res0A | src/cb.rs:54-58 | RES 0,A clears bit 0 of A and keeps everything else |
| Cb.Set7Hl | src/cb.rs:60-66 | SET 7,(HL) sets bit 7 of the byte at HL, keeps its other bits, and changes no other byte or register |
| Gpu.Gpu.constructor | src/gpu.rs:10-15 | a new controller has `clocks` 0 and the LCD off |
| Gpu.Gpu.Tick | src/gpu.rs:17-40 | `tick` in place: `clocks`, `lcd_enabled` and memory become those of `Ticked` |
| Gpu.LcdBit | src/gpu.rs:18 | the LCD is on iff bit 7 of LCDC is set |
| Gpu.TickLcdOff | src/gpu.rs:18-22 | with the LCD off a tick writes LY = 0 and changes nothing else |
| Gpu.TickLcdOn | src/gpu.rs:24-33 | with the LCD on, on every 114th count LY becomes LY + 1, or 0 once that would pass 153 (also for an LY above 153 written by the program); within the frame that is (LY + 1) mod 154; `clocks` goes up by 1, or back by 455 when LY wraps |
| Gpu.TickKeepsLine | src/gpu.rs:25-33 | the in-frame bound LY ≤ 153 is preserved by a tick (an LY above 153 stays until the next 114th count, see TickLcdOn) |
| Gpu.TickVBlank | src/gpu.rs:29-33 | a tick writes only LY and IF; IF gets bit 0 set with its other bits kept exactly when LY wraps, and is untouched otherwise |
| Gpu.RunClosedForm | src/gpu.rs:24-33 | after n ≤ 66903 ticks from `Gpu::new` with the LCD on and LY = 0, `clocks` is n − 456·(n div 17556) and LY is (n mod 17556) div 114 |
| Gpu.ClocksOverflow | src/gpu.rs:24-33 | that run reaches `clocks` = 0xFFFF after 66903 ticks, and the next tick overflows |
| Gpu.PowerOnOverflow | src/gpu.rs:10-33 | from the power-on memory a new controller overflows on its 66904th tick |
| Gpu.IntendedStaysInFrame | src/gpu.rs:24-33 | with the count restarting each frame, `clocks` stays = 114·LY + (ticks into the line) < 17556, so a tick never overflows |
| Gpu.NewInFrame | src/gpu.rs:10-15 | a new controller with LY = 0 starts in that invariant |

## Left out

- I/O and diagnostics: the `print_debug` trace on every memory access, `Registers::print` and the main loop's file loading are not modelled.
- The opcode fetch that precedes `call_instruction` in the main loop is outside the tables; every table starts with PC on the first operand byte.
- The unsupported-opcode panics are outcomes (`Unsupported`, `UnsupportedCb`), not aborts.
- Debug-build overflow panics are preconditions (`Fits`, `CbFits`, `TickFits`); the wrap-around a release build would perform instead is not modelled.
- Registers.Registers: `registers.rs` is not part of this model. F is kept as four flags rather than a byte, so its low nibble is always 0 (`Pack` gives the byte).
- Cb.Cpu: the struct `Cpu` that `cb_prefix` belongs to is not defined in the source. It is a class owning a `Registers` object.
- `cb.rs` and `gpu.rs` are not declared as modules in `main.rs`, so nothing in the source calls `cb_prefix` or `tick`; they are modelled on their own.
- Gpu.Ticked: `read_bit(...) == 1` in `gpu.rs` compares a `bool` with an integer; the model reads it as the boolean itself.
- Alu.AddHl keeps the source's 0x07FF mask, so H is the carry out of bit 10; the usual hardware convention for ADD HL tests bit 11 (mask 0x0FFF).
- Interrupts (DI and EI are no-ops in the source), timers, audio and rendering are not part of the core.

## Findings

| source | as written | input that shows it | evidently intended | confidence | as-written member | corrected member |
|---|---|---|---|---|---|---|
| src/alu.rs:35-38 | ADC adds C into n before the half-carry test, and `n + c` overflows `u8` when n = 0xFF and C is set | A = 0, C set, n = 0x0F: H is computed from 0x10 and stays clear | H from A's nibble + n's nibble + C, and no overflow | not executed; high | Alu.AdcHalfCarryLost | Alu.AdcExact |
| src/alu.rs:48-51 | SBC adds C into n before the half-borrow test, and `n + c` overflows `u8` when n = 0xFF and C is set | A = 0x10, C set, n = 0x0F: H is computed from 0x10 − 0x10 and stays clear | H from the borrow of n's nibble + C from A's nibble, and no overflow | not executed; high | Alu.SbcHalfBorrowLost | Alu.SbcExact |
| src/cb.rs:40-45 | BIT 5,A passes A as the bit number and 5 as the operand | A = 0: Z ends clear though bit 5 of A is clear (and A ≥ 8 overflows the shift) | Z iff bit 5 of A is clear | not executed; high | Cb.Bit5AAsWritten | Cb.Bit5AIntended |
| src/cpu.rs:487-505 | SWAP A via `call_cb` always clears Z | A = 0: Z clear | Z iff the result is 0, as `alu_swap` does | not executed; high | CpuFacts.CbSwapClearsZero | Alu.Swap |
| src/cpu.rs:264-271 | JR C does not skip the offset byte when not taken, and reports 2 cycles when taken | C clear: PC stays on the offset byte | as JR NZ: skip the operand; 3 cycles when taken | not executed; high | CpuFacts.JrCAsWritten | CpuFacts.JrCIntended |
| src/cpu.rs:417-424 | JP NC jumps when C is set and does not skip the operand otherwise | C clear: PC stays on the operand | jump when C is clear; otherwise skip the two operand bytes | not executed; high | CpuFacts.JpNcAsWritten | CpuFacts.JpNcIntended |
| src/cpu.rs:409-415 | CALL pushes the address after the operand plus 2 | CALL then RET resumes at PC + 4 | push the address after the operand | not executed; high | CpuFacts.CallThenRet | CpuFacts.CallIntended |
| src/cpu.rs:339-343 | 0x8A, labelled ADD A,D, calls `alu_add`; on the Game Boy 0x8A is ADC A,D | C set: A + D instead of A + D + 1 | add with carry | not executed; medium | CpuFacts.Op8AIgnoresCarry | Alu.AdcExact |
| src/gpu.rs:24-33 | at the end of a frame (17556 ticks) `clocks` goes back by only 456, so it grows by 17100 per frame | power-on memory: the 66904th tick overflows `clocks += 1` | `clocks` restarts with each frame | not executed; medium | Gpu.ClocksOverflow | Gpu.IntendedStaysInFrame |
