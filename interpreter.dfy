/** The interpreter facade the front ends drive: it owns the CPU, latches the
    host's keypad snapshot, and forwards stepping, timers, queries and reset. */
module Chip8 {
  import opened Bytes
  import opened Mmu
  import opened Semantics
  import opened Cpu

  class Interpreter {
    const cpu: CPU
    /** The keypad snapshot every step uses until the host replaces it. */
    var keypad: seq<bool>

    ghost predicate Valid()
      reads this, cpu, cpu.mmu, cpu.mmu.ram, cpu.vram, cpu.stack
    {
      cpu.Valid() && |keypad| == KEY_COUNT
    }

    /** `Interpreter::new`: a memory unit holding `rom`, a CPU reset over it,
        and no key pressed. */
    constructor (rom: seq<Byte>)
      requires |rom| <= MAX_ROM_SIZE
      ensures Valid() && fresh(cpu) && fresh(cpu.mmu) && fresh(cpu.mmu.ram)
      ensures cpu.mmu.rom == rom && cpu.State() == Boot(rom)
      ensures keypad == Released()
    {
      var mmu := new MMU(rom);
      cpu := new CPU(mmu);
      keypad := Released();
    }

    /** `update_keypad`: replace the latched snapshot; the CPU is untouched. */
    method UpdateKeypad(keys: seq<bool>)
      requires Valid() && |keys| == KEY_COUNT
      modifies this
      ensures Valid() && keypad == keys
    {
      keypad := keys;
    }

    /** `step`: one CPU step with the latched snapshot, which stays latched
        for the next step. */
    method Step(rnd: Byte) returns (status: Status)
      requires Valid()
      modifies cpu, cpu.mmu.ram, cpu.vram, cpu.stack
      ensures keypad == old(keypad)
      ensures status == StatusOf(Semantics.Step(old(cpu.State()), keypad, rnd))
      ensures status.Running? ==> Valid() && cpu.State() == Semantics.Step(old(cpu.State()), keypad, rnd).value
    {
      status := cpu.Step(keypad, rnd);
    }

    /** `should_redraw`. */
    method ShouldRedraw() returns (b: bool)
      requires Valid()
      ensures b == cpu.State().vramChanged
    {
      b := cpu.ShouldRedraw();
    }

    /** `should_beep`. */
    method ShouldBeep() returns (b: bool)
      requires Valid()
      ensures b == Semantics.ShouldBeep(cpu.State())
    {
      b := cpu.ShouldBeep();
    }

    /** `update_timers`. */
    method UpdateTimers()
      requires Valid()
      modifies cpu
      ensures Valid() && cpu.State() == Semantics.UpdateTimers(old(cpu.State()))
    {
      cpu.UpdateTimers();
    }

    /** `get_vram`: a copy of the framebuffer. */
    method GetVram() returns (pixels: seq<Byte>)
      requires Valid()
      ensures pixels == cpu.State().vram && |pixels| == VRAM_SIZE
    {
      pixels := cpu.vram[..];
    }

    /** `reset`: the CPU's reset; the latched keypad is kept. */
    method Reset()
      requires Valid()
      modifies cpu, cpu.mmu.ram, cpu.vram, cpu.stack
      ensures Valid() && keypad == old(keypad)
      ensures cpu.State() == Boot(cpu.mmu.rom)
    {
      cpu.Reset();
    }

    /** `load_rom`: the CPU's `load_rom`; afterwards the machine is the one
        `Interpreter::new` builds for the new image. */
    method LoadRom(rom: seq<Byte>)
      requires Valid() && |rom| <= MAX_ROM_SIZE
      modifies cpu, cpu.mmu, cpu.mmu.ram, cpu.vram, cpu.stack
      ensures Valid() && keypad == old(keypad)
      ensures cpu.mmu.rom == rom && cpu.State() == Boot(rom)
    {
      cpu.LoadRom(rom);
    }
  }
}
