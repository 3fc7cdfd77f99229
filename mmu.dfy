/** The memory bus: one flat array of 65536 bytes covering the whole 16-bit address
    space, with byte and little-endian word access, single-bit reads, the power-on
    values of the I/O registers and the classification of addresses into regions. */
module Mmu {
  import opened Bytes

  /** `Memory`: one byte for every 16-bit address. */
  type Memory = m: seq<u8> | |m| == 0x10000 witness seq(0x10000, _ => 0)

  /** `read_byte`: the byte at `adr`. */
  function ReadByte(adr: u16, mem: Memory): u8 {
    mem[adr]
  }

  /** The memory after `write_byte(adr, v)`: `adr` holds `v`, every other byte is kept. */
  function StoreByte(adr: u16, v: u8, mem: Memory): (m: Memory)
    ensures m[adr] == v
    ensures forall i | 0 <= i < 0x10000 && i != adr :: m[i] == mem[i]
  {
    mem[adr := v]
  }

  /** Reading a byte back after writing it gives the written value. */
  lemma ReadAfterWrite(adr: u16, v: u8, mem: Memory)
    ensures ReadByte(adr, StoreByte(adr, v, mem)) == v
  {
  }

  /** Writing a byte leaves every other address as it was. */
  lemma {:induction false} ReadOtherAfterWrite(adr: u16, other: u16, v: u8, mem: Memory)
    requires other != adr
    ensures ReadByte(other, StoreByte(adr, v, mem)) == ReadByte(other, mem)
  {
  }

  /** `read_word`: the little-endian word at `adr`, low byte first. The address of the
      high byte is computed as `adr + 1`, which overflows for `adr == 0xFFFF`. */
  function ReadWord(adr: u16, mem: Memory): (w: u16)
    requires adr < 0xFFFF
    ensures Low(w) == mem[adr] && High(w) == mem[adr + 1]
  {
    Pair(mem[adr + 1], mem[adr])
  }

  /** The memory after `write_word(adr, v)`: the low byte of `v` at `adr`, the high byte
      at `adr + 1`, every other byte kept. */
  function StoreWord(adr: u16, v: u16, mem: Memory): (m: Memory)
    requires adr < 0xFFFF
    ensures m[adr] == Low(v) && m[adr + 1] == High(v)
    ensures forall i | 0 <= i < 0x10000 && i != adr && i != adr + 1 :: m[i] == mem[i]
  {
    mem[adr := Low(v)][adr + 1 := High(v)]
  }

  /** Reading a word back after writing it at the same address gives the written word. */
  lemma {:induction false} WordRoundTrip(adr: u16, v: u16, mem: Memory)
    requires adr < 0xFFFF
    ensures ReadWord(adr, StoreWord(adr, v, mem)) == v
  {
    PairOfHalves(v);
  }

  /** `read_bit`: whether bit `bit` of the byte at `adr` is 1. A shift by 8 or more
      overflows, so the bit index is below 8. */
  function ReadBit(adr: u16, bit: u8, mem: Memory): (r: bool)
    requires bit < 8
    ensures Pow2(bit) < 0x100
    ensures r <==> And(mem[adr], Pow2(bit)) != 0
  {
    MaskTest(mem[adr], bit);
    Shr(mem[adr], bit) % 2 == 1
  }

  /** `write_byte` on the mutable memory array. */
  method WriteByte(adr: u16, v: u8, mem: array<u8>)
    requires mem.Length == 0x10000
    modifies mem
    ensures mem[..] == StoreByte(adr, v, old(mem[..]))
  {
    mem[adr] := v;
  }

  /** `write_word` on the mutable memory array. */
  method WriteWord(adr: u16, v: u16, mem: array<u8>)
    requires mem.Length == 0x10000 && adr < 0xFFFF
    modifies mem
    ensures mem[..] == StoreWord(adr, v, old(mem[..]))
  {
    mem[adr] := Low(v);
    mem[adr + 1] := High(v);
  }

  /** The labels of the address map. */
  datatype Region = Rom | Vram | Ram | Wram | Forbidden | Oam | Io | Hram | Ie

  /** The region of an address, as the match in `print_debug` labels it. */
  function RegionOf(adr: u16): Region {
    if adr <= 0x7FFF then Rom
    else if adr <= 0x9FFF then Vram
    else if adr <= 0xBFFF then Ram
    else if adr <= 0xDFFF then Wram
    else if adr <= 0xFDFF then Forbidden
    else if adr <= 0xFE9F then Oam
    else if adr <= 0xFEFF then Forbidden
    else if adr <= 0xFF7F then Io
    else if adr <= 0xFFFE then Hram
    else Ie
  }

  /** The address ranges of each label, arm by arm; the two forbidden arms share one
      label. */
  predicate InRegion(adr: u16, r: Region) {
    match r
    case Rom => adr <= 0x7FFF
    case Vram => 0x8000 <= adr <= 0x9FFF
    case Ram => 0xA000 <= adr <= 0xBFFF
    case Wram => 0xC000 <= adr <= 0xDFFF
    case Forbidden => 0xE000 <= adr <= 0xFDFF || 0xFEA0 <= adr <= 0xFEFF
    case Oam => 0xFE00 <= adr <= 0xFE9F
    case Io => 0xFF00 <= adr <= 0xFF7F
    case Hram => 0xFF80 <= adr <= 0xFFFE
    case Ie => adr == 0xFFFF
  }

  /** The match is exhaustive and its arms do not overlap: every address gets the one
      label whose range holds it. */
  lemma RegionOfExact(adr: u16, r: Region)
    ensures RegionOf(adr) == r <==> InRegion(adr, r)
  {
  }
}

/** `init_memory`: the power-on contents of memory. */
module MmuInit {
  import opened Bytes
  import opened Mmu

  /** The I/O registers given a non-zero value at power-on, as (address, value); the
      addresses are memory indices. */
  const IO_DEFAULTS: seq<(u16, u8)> := [
    (0xFF00, 0xCF), (0xFF02, 0x7E), (0xFF04, 0x18), (0xFF07, 0xF8),
    (0xFF0F, 0xE1), (0xFF10, 0x80), (0xFF11, 0xBF), (0xFF12, 0xF3),
    (0xFF13, 0xFF), (0xFF14, 0xBF), (0xFF16, 0x3F), (0xFF18, 0xFF),
    (0xFF19, 0xBF), (0xFF1A, 0x7F), (0xFF1B, 0xFF), (0xFF1C, 0x9F),
    (0xFF1D, 0xFF), (0xFF1E, 0xBF), (0xFF20, 0xFF), (0xFF23, 0xBF),
    (0xFF24, 0x77), (0xFF25, 0xF3), (0xFF26, 0xF1), (0xFF40, 0x91),
    (0xFF41, 0x85), (0xFF46, 0xFF), (0xFF47, 0xFC), (0xFF4D, 0xFF),
    (0xFF4F, 0xFF), (0xFF51, 0xFF), (0xFF52, 0xFF), (0xFF53, 0xFF),
    (0xFF54, 0xFF), (0xFF55, 0xFF), (0xFF56, 0xFF), (0xFF68, 0xFF),
    (0xFF69, 0xFF), (0xFF6A, 0xFF), (0xFF6B, 0xFF), (0xFF70, 0xFF)
  ]

  /** The memory with every byte 0. */
  function Zeroes(): Memory {
    seq(0x10000, _ => 0)
  }

  /** The memory after writing the entries of `t` into `mem` one after another. */
  function WriteAll(t: seq<(u16, u8)>, mem: Memory): Memory
    decreases |t|
  {
    if t == [] then mem
    else WriteAll(t[..|t| - 1], mem)[t[|t| - 1].0 := t[|t| - 1].1]
  }

  /** The memory `init_memory` produces: all zero, then the I/O defaults. */
  function PowerOn(): Memory {
    WriteAll(IO_DEFAULTS, Zeroes())
  }

  /** `init_memory`: clears the whole array, then writes the I/O defaults in order. */
  method InitMemory(mem: array<u8>)
    requires mem.Length == 0x10000
    modifies mem
    ensures mem[..] == PowerOn()
  {
    for i := 0 to 0x10000
      invariant forall j | 0 <= j < i :: mem[j] == 0
    {
      mem[i] := 0;
    }
    assert mem[..] == Zeroes();
    IoDefaultsIncreasing();
    for k := 0 to |IO_DEFAULTS|
      invariant mem[..] == WriteAll(IO_DEFAULTS[..k], Zeroes())
    {
      assert IO_DEFAULTS[..k + 1][..k] == IO_DEFAULTS[..k];
      mem[IO_DEFAULTS[k].0] := IO_DEFAULTS[k].1;
    }
    assert IO_DEFAULTS[..|IO_DEFAULTS|] == IO_DEFAULTS;
  }

  /** The addresses of a table are strictly increasing, hence pairwise distinct. */
  predicate Increasing(t: seq<(u16, u8)>) {
    forall i, j | 0 <= i < j < |t| :: t[i].0 < t[j].0
  }

  /** An address no entry names keeps its old byte. */
  lemma {:induction false} WriteAllUnlisted(t: seq<(u16, u8)>, mem: Memory, adr: u16)
    requires forall j | 0 <= j < |t| :: t[j].0 != adr
    ensures WriteAll(t, mem)[adr] == mem[adr]
    decreases |t|
  {
    if t != [] {
      WriteAllUnlisted(t[..|t| - 1], mem, adr);
    }
  }

  /** When the addresses are distinct, every entry's address holds the entry's value. */
  lemma {:induction false} WriteAllListed(t: seq<(u16, u8)>, mem: Memory, j: nat)
    requires Increasing(t) && j < |t|
    ensures WriteAll(t, mem)[t[j].0] == t[j].1
    decreases |t|
  {
    if j < |t| - 1 {
      assert t[..|t| - 1][j] == t[j];
      WriteAllListed(t[..|t| - 1], mem, j);
    }
  }

  /** Each address of the table is below the next one. */
  predicate StepsUp(t: seq<(u16, u8)>) {
    forall k | 0 <= k < |t| - 1 :: t[k].0 < t[k + 1].0
  }

  /** A table whose neighbouring addresses increase is increasing throughout. */
  lemma {:induction false} StepsUpIncreasing(t: seq<(u16, u8)>)
    requires StepsUp(t)
    ensures Increasing(t)
    decreases |t|
  {
    if |t| > 1 {
      var u := t[1..];
      assert StepsUp(u) by {
        forall k | 0 <= k < |u| - 1
          ensures u[k].0 < u[k + 1].0
        {
          assert u[k] == t[k + 1] && u[k + 1] == t[k + 2];
        }
      }
      StepsUpIncreasing(u);
      forall i, j | 0 <= i < j < |t|
        ensures t[i].0 < t[j].0
      {
        if i > 0 {
          assert t[i] == u[i - 1] && t[j] == u[j - 1];
        } else if j > 1 {
          assert t[1] == u[0] && t[j] == u[j - 1];
        }
      }
    }
  }

  /** Every address of the defaults table is in the I/O page 0xFF00-0xFF7F. */
  lemma IoDefaultsInIoPage()
    ensures forall j | 0 <= j < |IO_DEFAULTS| :: 0xFF00 <= IO_DEFAULTS[j].0 <= 0xFF7F
  {
  }

  /** The defaults table lists each address once, in increasing order. */
  lemma IoDefaultsIncreasing()
    ensures Increasing(IO_DEFAULTS)
  {
    IoDefaultsInIoPage();
    assert StepsUp(IO_DEFAULTS);
    StepsUpIncreasing(IO_DEFAULTS);
  }

  /** After `init_memory` every listed I/O register holds its default. */
  lemma PowerOnListed(j: nat)
    requires j < |IO_DEFAULTS|
    ensures PowerOn()[IO_DEFAULTS[j].0] == IO_DEFAULTS[j].1
  {
    IoDefaultsIncreasing();
    WriteAllListed(IO_DEFAULTS, Zeroes(), j);
  }

  /** After `init_memory` every address the table does not list holds 0. */
  lemma PowerOnUnlisted(adr: u16)
    requires forall j | 0 <= j < |IO_DEFAULTS| :: IO_DEFAULTS[j].0 != adr
    ensures ReadByte(adr, PowerOn()) == 0
  {
    IoDefaultsIncreasing();
    WriteAllUnlisted(IO_DEFAULTS, Zeroes(), adr);
  }

  /** The values the unit test reads after `init_memory`. */
  lemma PowerOnExamples()
    ensures ReadByte(0x7FFF, PowerOn()) == 0x00
    ensures ReadByte(0xFF00, PowerOn()) == 0xCF
    ensures ReadByte(0xFF02, PowerOn()) == 0x7E
    ensures ReadByte(0xFFFF, PowerOn()) == 0x00
  {
    PowerOnUnlisted(0x7FFF);
    PowerOnListed(0);
    PowerOnListed(1);
    PowerOnUnlisted(0xFFFF);
  }
}
