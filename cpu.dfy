/** The processor as the source builds it: an object that owns the memory
    unit, the framebuffer and the return stack as fixed-size arrays, and
    updates its registers and keypad state in place. Every operation is
    proved to have exactly the effect the function of the same name in
    module Semantics gives it. */
module Cpu {
  import opened Bytes
  import opened Mmu
  import opened Semantics
  import opened SemanticsProps

  /** How an operation ended: normally, or at a point where the source
      panics. After a panic the source process is gone, so nothing is said
      about the state. */
  datatype Status = Running | Panicked(fault: Fault)

  function StatusOf<T>(r: Result<T>): Status {
    if r.Ok? then Running else Panicked(r.fault)
  }

  /** Index of framebuffer cell (`x`, `y`) in the row-major buffer. */
  lemma CellIndex(x: nat, y: nat)
    requires x < WIDTH && y < HEIGHT
    ensures x + y * WIDTH < VRAM_SIZE
    ensures (x + y * WIDTH) % WIDTH == x && (x + y * WIDTH) / WIDTH == y
  {
  }

  class CPU {
    const mmu: MMU
    const vram: array<Byte>
    var vramChanged: bool
    var registers: Registers
    const stack: array<Word>
    var keypad: Keypad

    /** The machine state this object holds. */
    ghost function State(): Machine
      reads this, mmu, mmu.ram, vram, stack
    {
      Machine(mmu.ram[..], vram[..], vramChanged, registers, stack[..], keypad)
    }

    ghost predicate Valid()
      reads this, mmu, mmu.ram, vram, stack
    {
      && mmu.Valid()
      && vram.Length == VRAM_SIZE && stack.Length == STACK_SIZE
      && vram != mmu.ram
      && WellFormed(State())
    }

    /** `CPU::new`: take ownership of the memory unit and reset. */
    constructor (mmu: MMU)
      requires mmu.Valid()
      modifies mmu.ram
      ensures this.mmu == mmu && fresh(vram) && fresh(stack)
      ensures Valid() && State() == Boot(mmu.rom)
    {
      this.mmu := mmu;
      vram := new Byte[VRAM_SIZE](_ => 0);
      stack := new Word[STACK_SIZE](_ => 0);
      vramChanged := false;
      registers := Registers(Zeros(REGISTER_COUNT), 0, ROM_BASE_ADDR, 0, 0, 0);
      keypad := Keypad(Released(), false, 0);
      new;
      Reset();
    }

    /** `reset`: reset the memory unit to its stored image, blank the
        screen, zero the registers with the program counter at
        ROM_BASE_ADDR, empty the stack and drop any key-wait. */
    method Reset()
      requires Valid()
      modifies this, mmu.ram, vram, stack
      ensures Valid() && State() == Boot(mmu.rom)
    {
      mmu.Reset();
      forall p | 0 <= p < vram.Length {
        vram[p] := 0;
      }
      vramChanged := false;
      registers := Registers(Zeros(REGISTER_COUNT), 0, ROM_BASE_ADDR, 0, 0, 0);
      forall k | 0 <= k < stack.Length {
        stack[k] := 0;
      }
      keypad := Keypad(Released(), false, 0);
      assert vram[..] == Zeros(VRAM_SIZE);
      assert stack[..] == seq(STACK_SIZE, _ => 0);
      BootWellFormed(mmu.rom);
    }

    /** `load_rom`: reset, then give the memory unit the new image, which
        resets it again; the result is the state `CPU::new` builds. */
    method LoadRom(rom: seq<Byte>)
      requires Valid() && |rom| <= MAX_ROM_SIZE
      modifies this, mmu, mmu.ram, vram, stack
      ensures Valid() && mmu.rom == rom && State() == Boot(rom)
    {
      Reset();
      mmu.LoadRom(rom);
      BootWellFormed(rom);
    }

    /** `read_byte`: the byte at a 16-bit address; addresses past the end of
        RAM are out of range. */
    method ReadByte(addr: Word) returns (r: Result<Byte>)
      requires Valid()
      ensures r.Ok? <==> addr < RAM_SIZE
      ensures r.Ok? ==> r.value == State().ram[addr]
      ensures r.Err? ==> r.fault == AddressOutOfRange(addr)
    {
      if addr < RAM_SIZE {
        var b := mmu.ReadByte(addr);
        r := Ok(b);
      } else {
        r := Err(AddressOutOfRange(addr));
      }
    }

    /** `fetch_instruction`: the big-endian word at the program counter. */
    method FetchInstruction() returns (r: Result<Word>)
      requires Valid()
      ensures r == Fetch(State())
    {
      var pc := registers.pc;
      if pc + 1 < RAM_SIZE {
        var w := mmu.ReadWord(pc);
        r := Ok(w);
      } else {
        r := Err(AddressOutOfRange(FirstInvalidAddr(pc)));
      }
    }

    /** `update_timers`: both timers count down, stopping at zero. */
    method UpdateTimers()
      requires Valid()
      modifies this
      ensures Valid() && State() == Semantics.UpdateTimers(old(State()))
    {
      if registers.delay > 0 {
        registers := registers.(delay := registers.delay - 1);
      }
      if registers.sound > 0 {
        registers := registers.(sound := registers.sound - 1);
      }
    }

    /** `should_redraw`: whether the last step changed the framebuffer. */
    method ShouldRedraw() returns (b: bool)
      requires Valid()
      ensures b == State().vramChanged
    {
      b := vramChanged;
    }

    /** `should_beep`: the sound timer is running. */
    method ShouldBeep() returns (b: bool)
      requires Valid()
      ensures b == Semantics.ShouldBeep(State())
    {
      b := registers.sound > 0;
    }

    /** `step`: one instruction, or one poll of the keypad while FX0A waits.
        `rnd` is the byte the random number generator would yield. */
    method Step(keys: seq<bool>, rnd: Byte) returns (status: Status)
      requires Valid() && |keys| == KEY_COUNT
      modifies this, mmu.ram, vram, stack
      ensures status == StatusOf(Semantics.Step(old(State()), keys, rnd))
      ensures status.Running? ==> Valid() && State() == Semantics.Step(old(State()), keys, rnd).value
    {
      ghost var m := State();
      StepWellFormed(m, keys, rnd);
      vramChanged := false;
      keypad := keypad.(state := keys);
      assert State() == Latch(m, keys);
      if keypad.waiting {
        var i := 0;
        while i < KEY_COUNT
          invariant 0 <= i <= KEY_COUNT
          invariant forall j :: 0 <= j < i ==> !keys[j]
          invariant State() == Latch(m, keys)
        {
          if keypad.state[i] {
            keypad := keypad.(waiting := false);
            registers := registers.(v := registers.v[keypad.register := i]);
            registers := registers.(pc := registers.pc + 2);
            assert FirstPressed(keys, 0) == i;
            return Running;
          }
          i := i + 1;
        }
        assert FirstPressed(keys, 0) == KEY_COUNT;
        status := Running;
      } else {
        var op := FetchInstruction();
        if op.Err? {
          return Panicked(op.fault);
        }
        registers := registers.(pc := registers.pc + 2);
        assert State() == Advance(m, keys);
        status := Execute(op.value, rnd);
      }
    }

    /** `execute`: one opcode, with the program counter already past it. */
    method Execute(op: Word, rnd: Byte) returns (status: Status)
      requires Valid()
      modifies this, mmu.ram, vram, stack
      ensures status == StatusOf(Semantics.Execute(old(State()), op, rnd))
      ensures status.Running? ==> Valid() && State() == Semantics.Execute(old(State()), op, rnd).value
    {
      ghost var m := State();
      ExecuteWellFormed(m, op, rnd);
      var x := X(op);
      var y := Y(op);
      status := Running;
      match Family(op)
      case 0x0 =>
        if N(op) == 0x0 {
          ClearDisplay();
          vramChanged := true;
        } else if N(op) == 0xE {
          if registers.sp == 0 {
            return Panicked(StackUnderflow);
          }
          registers := registers.(sp := registers.sp - 1);
          registers := registers.(pc := stack[registers.sp]);
        } else {
          status := Panicked(UnsupportedOpcode(op, registers.pc));
        }
      case 0x1 =>
        registers := registers.(pc := NNN(op));
      case 0x2 =>
        if registers.sp >= STACK_SIZE {
          return Panicked(StackOverflow);
        }
        stack[registers.sp] := registers.pc % 0x1_0000;
        registers := registers.(sp := registers.sp + 1);
        registers := registers.(pc := NNN(op));
      case 0x3 =>
        if registers.v[x] == NN(op) {
          registers := registers.(pc := registers.pc + 2);
        }
      case 0x4 =>
        if registers.v[x] != NN(op) {
          registers := registers.(pc := registers.pc + 2);
        }
      case 0x5 =>
        if registers.v[x] == registers.v[y] {
          registers := registers.(pc := registers.pc + 2);
        }
      case 0x6 =>
        registers := registers.(v := registers.v[x := NN(op)]);
      case 0x7 =>
        var sum := registers.v[x] as int + NN(op);
        registers := registers.(v := registers.v[x := Truncate8(sum)]);
      case 0x8 =>
        status := Op8xy(op, x, y);
      case 0x9 =>
        if registers.v[x] != registers.v[y] {
          registers := registers.(pc := registers.pc + 2);
        }
      case 0xA =>
        registers := registers.(i := NNN(op));
      case 0xB =>
        registers := registers.(pc := registers.v[0] + NNN(op));
      case 0xC =>
        registers := registers.(v := registers.v[x := And(rnd, NN(op))]);
      case 0xD =>
        status := Draw(x, y, N(op));
      case 0xE =>
        status := OpEx(op, x);
      case _ =>
        status := OpFx(op, x);
    }

    /** 00E0: blank every cell, column by column. */
    method ClearDisplay()
      requires Valid()
      modifies vram
      ensures vram[..] == Zeros(VRAM_SIZE)
    {
      for cx := 0 to WIDTH
        invariant forall p :: 0 <= p < VRAM_SIZE && p % WIDTH < cx ==> vram[p] == 0
      {
        for cy := 0 to HEIGHT
          invariant forall p :: 0 <= p < VRAM_SIZE && p % WIDTH < cx ==> vram[p] == 0
          invariant forall p :: 0 <= p < VRAM_SIZE && p % WIDTH == cx && p / WIDTH < cy ==> vram[p] == 0
        {
          CellIndex(cx, cy);
          vram[cx + cy * WIDTH] := 0;
        }
      }
      assert vram[..] == Zeros(VRAM_SIZE);
    }

    /** `op_8xy`: register-to-register arithmetic and logic. */
    method Op8xy(op: Word, x: nat, y: nat) returns (status: Status)
      requires Valid() && x < REGISTER_COUNT && y < REGISTER_COUNT
      modifies this
      ensures status == StatusOf(Semantics.Op8xy(old(State()), op, x, y))
      ensures status.Running? ==> State() == Semantics.Op8xy(old(State()), op, x, y).value
    {
      status := Running;
      match N(op)
      case 0x0 =>
        registers := registers.(v := registers.v[x := registers.v[y]]);
      case 0x1 =>
        registers := registers.(v := registers.v[x := Or(registers.v[x], registers.v[y])]);
      case 0x2 =>
        registers := registers.(v := registers.v[x := And(registers.v[x], registers.v[y])]);
      case 0x3 =>
        registers := registers.(v := registers.v[x := Xor(registers.v[x], registers.v[y])]);
      case 0x4 =>
        var sum := registers.v[x] as int + registers.v[y] as int;
        registers := registers.(v := registers.v[x := Truncate8(sum)]);
        registers := registers.(v := registers.v[VF := if sum > 0xFF then 1 else 0]);
      case 0x5 =>
        registers := registers.(v := registers.v[VF := if registers.v[x] > registers.v[y] then 1 else 0]);
        registers := registers.(v := registers.v[x := WrappingSub(registers.v[x], registers.v[y])]);
      case 0x6 =>
        registers := registers.(v := registers.v[VF := And(registers.v[x], 1)]);
        registers := registers.(v := registers.v[x := Shr(registers.v[x], 1)]);
      case 0x7 =>
        registers := registers.(v := registers.v[VF := if registers.v[x] > registers.v[y] then 0 else 1]);
        registers := registers.(v := registers.v[x := WrappingSub(registers.v[y], registers.v[x])]);
      case 0xE =>
        registers := registers.(v := registers.v[VF := And(Shr(registers.v[x], 7), 1)]);
        registers := registers.(v := registers.v[x := Shl(registers.v[x], 1)]);
      case _ =>
        status := Panicked(UnsupportedOpcode(op, registers.pc));
    }

    /** `op_ex`: skip on the key whose index is in VX. */
    method OpEx(op: Word, x: nat) returns (status: Status)
      requires Valid() && x < REGISTER_COUNT
      modifies this
      ensures status == StatusOf(Semantics.OpEx(old(State()), op, x))
      ensures status.Running? ==> State() == Semantics.OpEx(old(State()), op, x).value
    {
      status := Running;
      var key := registers.v[x];
      match NN(op)
      case 0x9E =>
        if key >= KEY_COUNT {
          return Panicked(KeyOutOfRange(key));
        }
        if keypad.state[key] {
          registers := registers.(pc := registers.pc + 2);
        }
      case 0xA1 =>
        if key >= KEY_COUNT {
          return Panicked(KeyOutOfRange(key));
        }
        if !keypad.state[key] {
          registers := registers.(pc := registers.pc + 2);
        }
      case _ =>
        status := Panicked(UnsupportedOpcode(op, registers.pc));
    }

    /** `op_fx`: timers, key-wait, index arithmetic, BCD and bulk register
        transfer. */
    method OpFx(op: Word, x: nat) returns (status: Status)
      requires Valid() && x < REGISTER_COUNT
      modifies this, mmu.ram
      ensures status == StatusOf(Semantics.OpFx(old(State()), op, x))
      ensures status.Running? ==> State() == Semantics.OpFx(old(State()), op, x).value
    {
      status := Running;
      match NN(op)
      case 0x07 =>
        registers := registers.(v := registers.v[x := registers.delay]);
      case 0x0A =>
        keypad := keypad.(waiting := true, register := x);
      case 0x15 =>
        registers := registers.(delay := registers.v[x]);
      case 0x18 =>
        registers := registers.(sound := registers.v[x]);
      case 0x1E =>
        registers := registers.(i := registers.i + registers.v[x]);
        registers := registers.(v := registers.v[VF := if registers.i > INDEX_OVERFLOW then 1 else 0]);
      case 0x29 =>
        registers := registers.(i := FONT_BASE_ADDR + registers.v[x] as int * 5);
      case 0x33 =>
        status := StoreBcd(op, x);
      case 0x55 =>
        status := StoreRegisters(op, x);
      case 0x65 =>
        status := LoadRegisters(op, x);
      case _ =>
        status := Panicked(UnsupportedOpcode(op, registers.pc));
    }

    /** FX33: the three decimal digits of VX at I, I + 1 and I + 2, each
        write faulting when its address is past the end of RAM. */
    method StoreBcd(op: Word, x: nat) returns (status: Status)
      requires Valid() && x < REGISTER_COUNT && NN(op) == 0x33
      modifies mmu.ram
      ensures status == StatusOf(Semantics.OpFx(old(State()), op, x))
      ensures status.Running? ==> State() == Semantics.OpFx(old(State()), op, x).value
    {
      var value := registers.v[x];
      var i := registers.i;
      if i >= RAM_SIZE {
        return Panicked(AddressOutOfRange(i));
      }
      mmu.WriteByte(i, value / 100);
      if i + 1 >= RAM_SIZE {
        return Panicked(AddressOutOfRange(i + 1));
      }
      mmu.WriteByte(i + 1, (value % 100) / 10);
      if i + 2 >= RAM_SIZE {
        return Panicked(AddressOutOfRange(i + 2));
      }
      mmu.WriteByte(i + 2, value % 10);
      status := Running;
    }

    /** FX55: V0..VX written to I, I + 1, ..., faulting at the first address
        past the end of RAM. */
    method StoreRegisters(op: Word, x: nat) returns (status: Status)
      requires Valid() && x < REGISTER_COUNT && NN(op) == 0x55
      modifies mmu.ram
      ensures status == StatusOf(Semantics.OpFx(old(State()), op, x))
      ensures status.Running? ==> State() == Semantics.OpFx(old(State()), op, x).value
    {
      var i := registers.i;
      ghost var ram0 := mmu.ram[..];
      ghost var data := registers.v[..x + 1];
      for k := 0 to x + 1
        invariant k == 0 || i + k <= RAM_SIZE
        invariant k == 0 ==> mmu.ram[..] == ram0
        invariant k > 0 ==> mmu.ram[..] == Fill(ram0, i, data[..k])
      {
        if i + k >= RAM_SIZE {
          return Panicked(AddressOutOfRange(i + k));
        }
        FillSnoc(ram0, i, data[..k + 1], k);
        assert data[..k + 1][..k] == data[..k];
        mmu.WriteByte(i + k, registers.v[k]);
      }
      assert data[..x + 1] == data;
      status := Running;
    }

    /** FX65: V0..VX read from I, I + 1, ..., faulting at the first address
        past the end of RAM. */
    method LoadRegisters(op: Word, x: nat) returns (status: Status)
      requires Valid() && x < REGISTER_COUNT && NN(op) == 0x65
      modifies this
      ensures status == StatusOf(Semantics.OpFx(old(State()), op, x))
      ensures status.Running? ==> State() == Semantics.OpFx(old(State()), op, x).value
    {
      var i := registers.i;
      ghost var v0 := registers.v;
      for k := 0 to x + 1
        invariant k == 0 || i + k <= RAM_SIZE
        invariant registers == old(registers).(v := registers.v)
        invariant k == 0 ==> registers.v == v0
        invariant k > 0 ==> registers.v == Fill(v0, 0, mmu.ram[i..i + k])
        invariant keypad == old(keypad) && vramChanged == old(vramChanged)
      {
        if i + k >= RAM_SIZE {
          return Panicked(AddressOutOfRange(i + k));
        }
        FillSnoc(v0, 0, mmu.ram[i..i + k + 1], k);
        assert mmu.ram[i..i + k + 1][..k] == mmu.ram[i..i + k];
        var b := mmu.ReadByte(i + k);
        registers := registers.(v := registers.v[k := b]);
      }
      status := Running;
    }

    /** DXYN: read VX and VY, clear VF, then XOR each of the `height` sprite
        rows at I onto the screen, setting VF on a collision; a row past the
        end of RAM faults. */
    method Draw(x: nat, y: nat, height: nat) returns (status: Status)
      requires Valid() && x < REGISTER_COUNT && y < REGISTER_COUNT && height < 0x10
      modifies this`registers, this`vramChanged, vram
      ensures status == StatusOf(Semantics.Draw(old(State()), x, y, height))
      ensures status.Running? ==> State() == Semantics.Draw(old(State()), x, y, height).value
    {
      var vx := registers.v[x];
      var vy := registers.v[y];
      registers := registers.(v := registers.v[VF := 0]);
      ghost var sprite := SpriteAt(mmu.ram[..], registers.i, height);
      ghost var orig := vram[..];
      var yline := 0;
      while yline < height
        invariant 0 <= yline <= height
        invariant yline == 0 || registers.i + yline <= RAM_SIZE
        invariant |registers.v| == REGISTER_COUNT
        invariant vram[..] == DrawnUpTo(orig, sprite, vx, vy, yline * 8)
        invariant registers.v[VF] == if CollidesUpTo(orig, sprite, vx, vy, yline * 8) then 1 else 0
        invariant registers == old(registers).(v := old(registers).v[VF := registers.v[VF]])
        invariant vramChanged == old(vramChanged)
      {
        var addr := registers.i + yline;
        if addr >= RAM_SIZE {
          return Panicked(AddressOutOfRange(addr));
        }
        var pixel := mmu.ReadByte(addr);
        DrawRow(vx, vy, yline, pixel, orig, sprite);
        yline := yline + 1;
      }
      DrawnAll(orig, sprite, vx, vy);
      vramChanged := true;
      status := Running;
    }

    /** One sprite row of DXYN: the eight bits of `pixel`, most significant
        first, each toggling its cell when set and raising VF when that cell
        was lit. */
    method DrawRow(vx: Byte, vy: Byte, row: nat, pixel: Byte, ghost orig: seq<Byte>, ghost sprite: seq<Byte>)
      requires vram.Length == VRAM_SIZE && |orig| == VRAM_SIZE && |registers.v| == REGISTER_COUNT
      requires row < |sprite| && row < HEIGHT && sprite[row] == pixel
      requires vram[..] == DrawnUpTo(orig, sprite, vx, vy, row * 8)
      requires registers.v[VF] == if CollidesUpTo(orig, sprite, vx, vy, row * 8) then 1 else 0
      modifies this`registers, vram
      ensures |registers.v| == REGISTER_COUNT
      ensures vram[..] == DrawnUpTo(orig, sprite, vx, vy, row * 8 + 8)
      ensures registers.v[VF] == if CollidesUpTo(orig, sprite, vx, vy, row * 8 + 8) then 1 else 0
      ensures registers == old(registers).(v := old(registers).v[VF := registers.v[VF]])
    {
      for xline := 0 to 8
        invariant |registers.v| == REGISTER_COUNT
        invariant vram[..] == DrawnUpTo(orig, sprite, vx, vy, row * 8 + xline)
        invariant registers.v[VF] == if CollidesUpTo(orig, sprite, vx, vy, row * 8 + xline) then 1 else 0
        invariant registers == old(registers).(v := old(registers).v[VF := registers.v[VF]])
      {
        ghost var before := vram[..];
        DrawnStep(orig, sprite, vx, vy, row, xline);
        var cell := (vx + xline) % WIDTH + ((vy + row) % HEIGHT) * WIDTH;
        assert cell == Pos(vx, vy, row, xline) && before[cell] == orig[cell];
        if Bit(pixel, xline) {
          if vram[cell] == 1 {
            OrOneOfFlag(registers.v[VF]);
            registers := registers.(v := registers.v[VF := Or(registers.v[VF], 1)]);
          }
          vram[cell] := Xor(vram[cell], 1);
          assert vram[..] == before[cell := Xor(orig[cell], 1)];
        } else {
          assert before[cell := orig[cell]] == vram[..];
        }
      }
    }
  }
}
