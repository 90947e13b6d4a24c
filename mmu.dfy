/** The memory unit: 4 KiB of RAM holding the hexadecimal font at 0x050 and the
    program image at 0x200.

    Memory map:
      0x000-0x1FF  interpreter area; the font occupies 0x050-0x09F
      0x200-0xFFF  program image and work RAM */
module Mmu {
  import opened Bytes

  const FONT_BASE_ADDR: nat := 0x050
  const ROM_BASE_ADDR: nat := 0x200
  const RAM_SIZE: nat := 0x1000

  /** The largest image that fits between ROM_BASE_ADDR and the end of RAM. */
  const MAX_ROM_SIZE: nat := RAM_SIZE - ROM_BASE_ADDR

  /** Sixteen glyphs, 0 to F, five rows of four pixels each. */
  const FONT: seq<Byte> := [
    0xF0, 0x90, 0x90, 0x90, 0xF0, // 0
    0x20, 0x60, 0x20, 0x20, 0x70, // 1
    0xF0, 0x10, 0xF0, 0x80, 0xF0, // 2
    0xF0, 0x10, 0xF0, 0x10, 0xF0, // 3
    0x90, 0x90, 0xF0, 0x10, 0x10, // 4
    0xF0, 0x80, 0xF0, 0x10, 0xF0, // 5
    0xF0, 0x80, 0xF0, 0x90, 0xF0, // 6
    0xF0, 0x10, 0x20, 0x40, 0x40, // 7
    0xF0, 0x90, 0xF0, 0x90, 0xF0, // 8
    0xF0, 0x90, 0xF0, 0x10, 0xF0, // 9
    0xF0, 0x90, 0xF0, 0x90, 0x90, // A
    0xE0, 0x90, 0xE0, 0x90, 0xE0, // B
    0xF0, 0x80, 0x80, 0x80, 0xF0, // C
    0xE0, 0x90, 0x90, 0x90, 0xE0, // D
    0xF0, 0x80, 0xF0, 0x80, 0xF0, // E
    0xF0, 0x80, 0xF0, 0x80, 0x80  // F
  ]

  /** `n` zero bytes. */
  function Zeros(n: nat): (z: seq<Byte>)
    ensures |z| == n
  {
    seq(n, _ => 0)
  }

  /** The effect of the loop `for (i, b) in data { mem[base + i] = b }`:
      the bytes of `data` written one after the other from `base` on. */
  function Fill(mem: seq<Byte>, base: nat, data: seq<Byte>): (r: seq<Byte>)
    requires base + |data| <= |mem|
    ensures |r| == |mem|
    decreases |data|
  {
    if data == [] then mem
    else Fill(mem, base, data[..|data| - 1])[base + |data| - 1 := data[|data| - 1]]
  }

  /** Filling keeps the length, places `data` at `base` and leaves every other
      address alone. */
  lemma {:induction false} FillAt(mem: seq<Byte>, base: nat, data: seq<Byte>, a: nat)
    requires base + |data| <= |mem|
    requires a < |mem|
    ensures |Fill(mem, base, data)| == |mem|
    ensures Fill(mem, base, data)[a] ==
      if base <= a < base + |data| then data[a - base] else mem[a]
    decreases |data|
  {
    if data != [] {
      FillAt(mem, base, data[..|data| - 1], a);
    }
  }

  /** Filling one byte more extends the previous fill by one write; this is
      the step of the filling loops. */
  lemma FillSnoc(mem: seq<Byte>, base: nat, data: seq<Byte>, k: nat)
    requires k < |data| && base + |data| <= |mem|
    ensures |Fill(mem, base, data[..k])| == |mem|
    ensures Fill(mem, base, data[..k + 1]) == Fill(mem, base, data[..k])[base + k := data[k]]
  {
    assert data[..k + 1][..k] == data[..k];
    FillAt(mem, base, data[..k], 0);
  }

  /** The RAM image that `reset` builds: zeroes, then the font at
      FONT_BASE_ADDR, then the ROM at ROM_BASE_ADDR. */
  function ResetImage(rom: seq<Byte>): (ram: seq<Byte>)
    requires |rom| <= MAX_ROM_SIZE
  {
    Fill(Fill(Zeros(RAM_SIZE), FONT_BASE_ADDR, FONT), ROM_BASE_ADDR, rom)
  }

  /** The memory map after a reset: 4096 bytes, the font glyphs at
      0x050..0x09F, the ROM from 0x200 on, and zero everywhere else. */
  lemma ResetLayout(rom: seq<Byte>, a: nat)
    requires |rom| <= MAX_ROM_SIZE
    requires a < RAM_SIZE
    ensures |ResetImage(rom)| == RAM_SIZE
    ensures FONT_BASE_ADDR <= a < FONT_BASE_ADDR + |FONT| ==>
      ResetImage(rom)[a] == FONT[a - FONT_BASE_ADDR]
    ensures ROM_BASE_ADDR <= a < ROM_BASE_ADDR + |rom| ==>
      ResetImage(rom)[a] == rom[a - ROM_BASE_ADDR]
    ensures !(FONT_BASE_ADDR <= a < FONT_BASE_ADDR + |FONT|) &&
            !(ROM_BASE_ADDR <= a < ROM_BASE_ADDR + |rom|) ==>
      ResetImage(rom)[a] == 0
  {
    var withFont := Fill(Zeros(RAM_SIZE), FONT_BASE_ADDR, FONT);
    FillAt(Zeros(RAM_SIZE), FONT_BASE_ADDR, FONT, a);
    FillAt(withFont, ROM_BASE_ADDR, rom, a);
  }

  /** The memory unit. `rom` is the program image it was built with; `ram` is
      the fixed 4096-byte buffer. */
  class MMU {
    var rom: seq<Byte>
    const ram: array<Byte>

    ghost predicate Valid()
      reads this
    {
      ram.Length == RAM_SIZE && |rom| <= MAX_ROM_SIZE
    }

    /** `MMU::new`: store the image and reset. */
    constructor (rom: seq<Byte>)
      requires |rom| <= MAX_ROM_SIZE
      ensures Valid() && fresh(ram)
      ensures this.rom == rom && ram[..] == ResetImage(rom)
    {
      this.rom := rom;
      ram := new Byte[RAM_SIZE](_ => 0);
      new;
      Reset();
    }

    /** `load_rom`: replace the image and reset; the result is the state
        `MMU::new(rom)` builds. */
    method LoadRom(rom: seq<Byte>)
      requires Valid() && |rom| <= MAX_ROM_SIZE
      modifies this, ram
      ensures Valid()
      ensures this.rom == rom && ram[..] == ResetImage(rom)
    {
      this.rom := rom;
      Reset();
    }

    /** `reset`: zero the RAM, copy the font, copy the ROM. What it leaves
        depends on the stored image only, so resetting twice is resetting
        once. */
    method Reset()
      requires Valid()
      modifies ram
      ensures Valid()
      ensures ram[..] == ResetImage(rom)
    {
      forall a | 0 <= a < ram.Length {
        ram[a] := 0;
      }
      assert ram[..] == Zeros(RAM_SIZE);
      for k := 0 to |FONT|
        invariant ram[..] == Fill(Zeros(RAM_SIZE), FONT_BASE_ADDR, FONT[..k])
      {
        FillSnoc(Zeros(RAM_SIZE), FONT_BASE_ADDR, FONT, k);
        ram[FONT_BASE_ADDR + k] := FONT[k];
      }
      assert FONT[..|FONT|] == FONT;
      ghost var withFont := ram[..];
      assert |withFont| == RAM_SIZE;
      for k := 0 to |rom|
        invariant ram[..] == Fill(withFont, ROM_BASE_ADDR, rom[..k])
      {
        FillSnoc(withFont, ROM_BASE_ADDR, rom, k);
        ram[ROM_BASE_ADDR + k] := rom[k];
      }
      assert rom[..|rom|] == rom;
    }

    /** `read_byte`: the byte at `addr`; the RAM is left as it was. */
    method ReadByte(addr: nat) returns (b: Byte)
      requires Valid() && addr < RAM_SIZE
      ensures b == ram[addr]
    {
      b := ram[addr];
    }

    /** `write_byte`: `addr` now holds `value`; every other byte is unchanged,
        so reading `addr` back yields `value`. */
    method WriteByte(addr: nat, value: Byte)
      requires Valid() && addr < RAM_SIZE
      modifies ram
      ensures ram[..] == old(ram[..])[addr := value]
      ensures ram[addr] == value
    {
      ram[addr] := value;
    }

    /** `read_word`: the big-endian word at `addr`, `addr + 1`. */
    method ReadWord(addr: nat) returns (w: Word)
      requires Valid() && addr + 1 < RAM_SIZE
      ensures w == ram[addr] as int * 0x100 + ram[addr + 1] as int
    {
      var hi := ReadByte(addr);
      var lo := ReadByte(addr + 1);
      w := WordOf(hi, lo);
    }
  }
}
