/** The display controller's clock: `Gpu::tick` advances the line counter LY (0xFF44)
    once every 114 ticks while the LCD is on (bit 7 of LCDC, 0xFF40), raises the
    V-blank request (bit 0 of IF, 0xFF0F) when LY passes 153, and forces LY to 0 while
    the LCD is off.

    `Ticked` gives one tick on values; `Gpu.Tick` performs it in place and is proved to
    agree with it. The `u16` counter `clocks` panics in the source when an increment
    or decrement leaves its range; `TickFits` says when that does not happen. */
module Gpu {
  import opened Bytes
  import opened Mmu
  import MmuInit

  /** The LCD control register; its bit 7 switches the display on. */
  const LCDC: u16 := 0xFF40
  /** The current line register. */
  const LY: u16 := 0xFF44
  /** The interrupt request register; bit 0 requests the V-blank interrupt. */
  const IF: u16 := 0xFF0F

  /** The controller's fields together with memory. */
  datatype GpuState = GpuState(clocks: u16, lcdEnabled: bool, mem: Memory)

  /** Whether a tick keeps `clocks` inside `u16` and the increment of LY inside `u8`. */
  predicate TickFits(clocks: u16, m: Memory) {
    ReadBit(LCDC, 7, m) ==>
      clocks < 0xFFFF
      && ((clocks + 1) % 114 == 0 ==> m[LY] < 0xFF && (m[LY] + 1 > 153 ==> clocks + 1 >= 456))
  }

  /** `tick` on values. */
  function Ticked(clocks: u16, m: Memory): GpuState
    requires TickFits(clocks, m)
  {
    if !ReadBit(LCDC, 7, m) then
      GpuState(clocks, false, StoreByte(LY, 0, m))
    else
      var c := clocks + 1;
      if c % 114 != 0 then
        GpuState(c, true, m)
      else
        var m1 := StoreByte(LY, m[LY] + 1, m);
        if m1[LY] > 153 then
          var m2 := StoreByte(LY, 0, m1);
          GpuState(c - 456, true, StoreByte(IF, Or(m2[IF], 0x01), m2))
        else
          GpuState(c, true, m1)
  }

  /** The display controller object. */
  class Gpu {
    var clocks: u16
    var lcdEnabled: bool

    /** `Gpu::new`: no clocks counted, LCD off. */
    constructor()
      ensures clocks == 0 && !lcdEnabled
    {
      clocks := 0;
      lcdEnabled := false;
    }

    /** `tick`: one step of the display clock. */
    method Tick(mem: array<u8>)
      requires mem.Length == 0x10000 && TickFits(clocks, mem[..])
      modifies this, mem
      ensures GpuState(clocks, lcdEnabled, mem[..]) == Ticked(old(clocks), old(mem[..]))
    {
      lcdEnabled := ReadBit(LCDC, 7, mem[..]);
      if !lcdEnabled {
        mem[LY] := 0;
        return;
      }

      clocks := clocks + 1;
      if clocks % 114 == 0 {
        mem[LY] := mem[LY] + 1;
        if mem[LY] > 153 {
          mem[LY] := 0;
          mem[IF] := Or(mem[IF], 0x01);
          clocks := clocks - 456;
        }
      }
    }
  }

  /** The LCD is on exactly when LCDC is 0x80 or more. */
  lemma LcdBit(m: Memory)
    ensures ReadBit(LCDC, 7, m) <==> m[LCDC] >= 0x80
  {
    assert Pow2(7) == 0x80;
    HighMask(m[LCDC]);
  }

  /** With the LCD off a tick forces LY to 0, keeps `clocks`, and changes nothing else. */
  lemma TickLcdOff(clocks: u16, m: Memory)
    requires m[LCDC] < 0x80
    ensures TickFits(clocks, m)
    ensures Ticked(clocks, m).clocks == clocks && !Ticked(clocks, m).lcdEnabled
    ensures Ticked(clocks, m).mem[LY] == 0
    ensures forall adr: u16 | adr != LY :: Ticked(clocks, m).mem[adr] == m[adr]
  {
    LcdBit(m);
  }

  /** With the LCD on, LY moves on exactly on every 114th count: to the next line, or
      to 0 once it would pass 153, which also covers an LY above 153 written by the
      program. `clocks` goes up by one except when LY wraps, where it goes back by 455.
      Within the frame (LY at most 153) the step is LY + 1 modulo 154. */
  lemma TickLcdOn(clocks: u16, m: Memory)
    requires m[LCDC] >= 0x80 && TickFits(clocks, m)
    ensures Ticked(clocks, m).lcdEnabled
    ensures Ticked(clocks, m).mem[LY]
      == if (clocks + 1) % 114 != 0 then m[LY] else if m[LY] + 1 > 153 then 0 else m[LY] + 1
    ensures m[LY] <= 153 ==>
      Ticked(clocks, m).mem[LY] == if (clocks + 1) % 114 == 0 then (m[LY] + 1) % 154 else m[LY]
    ensures Ticked(clocks, m).clocks
      == if (clocks + 1) % 114 == 0 && m[LY] >= 153 then clocks + 1 - 456 else clocks + 1
  {
    LcdBit(m);
  }

  /** A tick never moves LY past 153 when it starts at 153 or below. */
  lemma TickKeepsLine(clocks: u16, m: Memory)
    requires m[LY] <= 153 && TickFits(clocks, m)
    ensures Ticked(clocks, m).mem[LY] <= 153
  {
    LcdBit(m);
  }

  /** Whether this tick moves LY past line 153 (with the LCD on). */
  predicate Wraps(clocks: u16, m: Memory) {
    m[LCDC] >= 0x80 && (clocks + 1) % 114 == 0 && m[LY] >= 153
  }

  /** A tick writes only LY and IF. It raises the V-blank request exactly when LY wraps,
      keeping every other bit of IF; otherwise IF is left as it was. */
  lemma TickVBlank(clocks: u16, m: Memory, k: nat)
    requires TickFits(clocks, m) && k < 8
    ensures forall adr: u16 | adr != LY && adr != IF :: Ticked(clocks, m).mem[adr] == m[adr]
    ensures !Wraps(clocks, m) ==> Ticked(clocks, m).mem[IF] == m[IF]
    ensures Wraps(clocks, m) ==> (Bit(Ticked(clocks, m).mem[IF], k) <==> k == 0 || Bit(m[IF], k))
  {
    LcdBit(m);
    assert Pow2(0) == 1;
    OrBitsBit(m[IF], 1, 8, k);
    Pow2Bit(0, k);
  }

  // Runs of ticks.

  /** The end of a run of ticks: the state reached, or an arithmetic overflow. */
  datatype Run = Running(state: GpuState) | Overflowed

  /** `n` ticks in a row from `g`, stopping at the first one that would overflow. */
  function RunTicks(n: nat, g: GpuState): Run {
    if n == 0 then Running(g)
    else
      match RunTicks(n - 1, g)
      case Overflowed => Overflowed
      case Running(h) =>
        if TickFits(h.clocks, h.mem) then Running(Ticked(h.clocks, h.mem)) else Overflowed
  }

  lemma Split114(x: int, q: int, r: int)
    requires x == 114 * q + r && 0 <= r < 114
    ensures x / 114 == q && x % 114 == r
  {
  }

  lemma SplitFrame(x: int, q: int, r: int)
    requires x == 17556 * q + r && 0 <= r < 17556
    ensures x / 17556 == q && x % 17556 == r
  {
  }

  /** The state `n` ticks after `Gpu::new` with the LCD on and LY at 0 (`m` is the
      memory it started from): `clocks` is `n` less 456 per completed frame of 154
      lines of 114 ticks, and LY is the line within the current frame. */
  predicate AfterTicks(n: nat, h: GpuState, m: Memory) {
    h.clocks == n - 456 * (n / 17556) && h.mem[LY] == (n % 17556) / 114
    && h.mem[LCDC] == m[LCDC]
  }

  /** One more tick keeps the closed form, as long as `clocks` has not reached 0xFFFF. */
  lemma TickAdvances(k: nat, h: GpuState, m: Memory)
    requires m[LCDC] >= 0x80 && k < 66903 && AfterTicks(k, h, m)
    ensures TickFits(h.clocks, h.mem) && AfterTicks(k + 1, Ticked(h.clocks, h.mem), m)
  {
    var w, r := k / 17556, k % 17556;
    var l, q := r / 114, r % 114;
    assert h.clocks == 17100 * w + 114 * l + q;
    LcdBit(h.mem);
    if q < 113 {
      Split114(h.clocks + 1, 150 * w + l, q + 1);
      SplitFrame(k + 1, w, r + 1);
      Split114(r + 1, l, q + 1);
    } else if l < 153 {
      Split114(h.clocks + 1, 150 * w + l + 1, 0);
      SplitFrame(k + 1, w, r + 1);
      Split114(r + 1, l + 1, 0);
    } else {
      Split114(h.clocks + 1, 150 * w + l + 1, 0);
      SplitFrame(k + 1, w + 1, 0);
    }
  }

  /** A frame is 154 lines of 114 ticks, 17556 ticks, but at its end `clocks` only goes
      back by 456, so it gains 17100 per frame. */
  lemma {:induction false} RunClosedForm(n: nat, m: Memory)
    requires m[LCDC] >= 0x80 && m[LY] == 0 && n <= 66903
    ensures RunTicks(n, GpuState(0, false, m)).Running?
    ensures AfterTicks(n, RunTicks(n, GpuState(0, false, m)).state, m)
  {
    if n > 0 {
      RunClosedForm(n - 1, m);
      TickAdvances(n - 1, RunTicks(n - 1, GpuState(0, false, m)).state, m);
    }
  }

  /** With the LCD on and LY at 0, as at power-on, `clocks` reaches 0xFFFF after 66903
      ticks (during the fourth frame), and the next tick overflows it. */
  lemma ClocksOverflow(m: Memory)
    requires m[LCDC] >= 0x80 && m[LY] == 0
    ensures RunTicks(66903, GpuState(0, false, m)).Running?
    ensures RunTicks(66903, GpuState(0, false, m)).state.clocks == 0xFFFF
    ensures RunTicks(66904, GpuState(0, false, m)) == Overflowed
  {
    RunClosedForm(66903, m);
    var h := RunTicks(66903, GpuState(0, false, m)).state;
    LcdBit(h.mem);
  }

  /** The power-on memory has the LCD on and LY at 0, so a controller created by
      `Gpu::new` overflows on its 66904th tick. */
  lemma PowerOnOverflow()
    ensures RunTicks(66904, GpuState(0, false, MmuInit.PowerOn())) == Overflowed
  {
    var m := MmuInit.PowerOn();
    MmuInit.PowerOnListed(23);
    MmuInit.PowerOnUnlisted(LY);
    ClocksOverflow(m);
  }

  // The frame counter as evidently intended.

  /** Whether the intended tick stays within `u16` and `u8`. */
  predicate IntendedFits(clocks: u16, m: Memory) {
    ReadBit(LCDC, 7, m) ==> clocks < 0xFFFF && ((clocks + 1) % 114 == 0 ==> m[LY] < 0xFF)
  }

  /** `tick` with the count restarting with every frame: at 0 while the LCD is off, and
      back to 0 when LY wraps, so that `clocks` counts the ticks of the current frame. */
  function TickedIntended(clocks: u16, m: Memory): GpuState
    requires IntendedFits(clocks, m)
  {
    if !ReadBit(LCDC, 7, m) then
      GpuState(0, false, StoreByte(LY, 0, m))
    else
      var c := clocks + 1;
      if c % 114 != 0 then
        GpuState(c, true, m)
      else
        var m1 := StoreByte(LY, m[LY] + 1, m);
        if m1[LY] > 153 then
          var m2 := StoreByte(LY, 0, m1);
          GpuState(0, true, StoreByte(IF, Or(m2[IF], 0x01), m2))
        else
          GpuState(c, true, m1)
  }

  /** `clocks` is the position within the frame: line LY, and fewer than 114 ticks
      into it. */
  predicate InFrame(clocks: u16, m: Memory) {
    m[LY] <= 153 && clocks / 114 == m[LY]
  }

  /** The intended tick keeps `clocks` in step with LY, so it stays below 17556 and
      never overflows. */
  lemma IntendedStaysInFrame(clocks: u16, m: Memory)
    requires InFrame(clocks, m)
    ensures clocks < 17556
    ensures IntendedFits(clocks, m)
    ensures InFrame(TickedIntended(clocks, m).clocks, TickedIntended(clocks, m).mem)
  {
    LcdBit(m);
    var l, q := m[LY], clocks % 114;
    assert clocks == 114 * l + q;
    if q < 113 {
      Split114(clocks + 1, l, q + 1);
    } else {
      Split114(clocks + 1, l + 1, 0);
    }
  }

  /** `Gpu::new` starts in frame when LY is 0, as in the power-on memory. */
  lemma NewInFrame(m: Memory)
    requires m[LY] == 0
    ensures InFrame(0, m)
  {
  }
}

