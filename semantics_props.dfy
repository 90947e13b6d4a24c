/** What the CPU semantics guarantees: the invariants a step keeps, the
    key-wait state machine, the program-counter effect of skips, the
    arithmetic flags, sprite drawing, the call stack, BCD and register
    transfer, and the timers. */
module SemanticsProps {
  import opened Bytes
  import opened Mmu
  import opened Semantics

  // Invariants.

  /** The instruction word at `a` in `ram`. */
  function WordAt(ram: seq<Byte>, a: nat): (w: Word)
    requires a + 1 < |ram|
    ensures w == ram[a] as int * 0x100 + ram[a + 1] as int
  {
    WordOf(ram[a], ram[a + 1])
  }

  /** The machine a non-waiting step executes its opcode on. */
  function Advance(m: Machine, keys: seq<bool>): (r: Machine)
    requires WellFormed(m) && |keys| == KEY_COUNT
    ensures WellFormed(r)
  {
    var m1 := Latch(m, keys);
    m1.(regs := m1.regs.(pc := m1.regs.pc + 2))
  }

  /** A step that is not waiting and whose fetch succeeds executes the
      big-endian word at the program counter with the program counter already
      moved past it; a fetch beyond the end of RAM faults. */
  lemma StepExecutes(m: Machine, keys: seq<bool>, rnd: Byte)
    requires WellFormed(m) && |keys| == KEY_COUNT && !m.keypad.waiting
    ensures m.regs.pc + 1 < RAM_SIZE ==>
      Step(m, keys, rnd) == Execute(Advance(m, keys), WordAt(m.ram, m.regs.pc), rnd)
    ensures m.regs.pc + 1 >= RAM_SIZE ==>
      Step(m, keys, rnd) == Err(AddressOutOfRange(FirstInvalidAddr(m.regs.pc)))
  {
    var m1 := Latch(m, keys);
    assert m1.ram == m.ram && m1.regs == m.regs;
  }


  /** `CPU::new` and `reset` produce a well-formed machine with the program
      counter at the start of the program image and nothing pending. */
  lemma BootWellFormed(rom: seq<Byte>)
    requires |rom| <= MAX_ROM_SIZE
    ensures WellFormed(Boot(rom))
    ensures Boot(rom).regs.pc == ROM_BASE_ADDR && Boot(rom).regs.sp == 0 && Boot(rom).regs.i == 0
    ensures !Boot(rom).keypad.waiting && !Boot(rom).vramChanged
    ensures forall p :: 0 <= p < VRAM_SIZE ==> Boot(rom).vram[p] == 0
    ensures forall j :: 0 <= j < REGISTER_COUNT ==> Boot(rom).regs.v[j] == 0
  {
    ResetLayout(rom, 0);
  }

  lemma Op8xyWellFormed(m: Machine, op: Word)
    requires WellFormed(m)
    ensures Op8xy(m, op, X(op), Y(op)).Ok? ==> WellFormed(Op8xy(m, op, X(op), Y(op)).value)
  {
    var r := Op8xy(m, op, X(op), Y(op));
    if r.Ok? {
      assert r.value == m.(regs := m.regs.(v := r.value.regs.v));
      assert |r.value.regs.v| == REGISTER_COUNT;
    }
  }

  lemma OpFxWellFormed(m: Machine, op: Word)
    requires WellFormed(m)
    ensures OpFx(m, op, X(op)).Ok? ==> WellFormed(OpFx(m, op, X(op)).value)
  {
    var x := X(op);
    var r := m.regs;
    if OpFx(m, op, x).Ok? {
      if NN(op) == 0x55 {
        assert |Fill(m.ram, r.i, r.v[..x + 1])| == RAM_SIZE;
      } else if NN(op) == 0x65 {
        assert |Fill(r.v, 0, m.ram[r.i..r.i + x + 1])| == REGISTER_COUNT;
      }
    }
  }

  /** A successful opcode keeps every size and range of the machine, so the
      stack pointer stays within 0..16. */
  lemma ExecuteWellFormed(m: Machine, op: Word, rnd: Byte)
    requires WellFormed(m)
    ensures Execute(m, op, rnd).Ok? ==> WellFormed(Execute(m, op, rnd).value)
  {
    if Family(op) == 0x8 {
      Op8xyWellFormed(m, op);
    } else if Family(op) == 0xF {
      OpFxWellFormed(m, op);
    }
  }

  /** A successful step keeps the machine well formed. */
  lemma StepWellFormed(m: Machine, keys: seq<bool>, rnd: Byte)
    requires WellFormed(m) && |keys| == KEY_COUNT
    ensures Step(m, keys, rnd).Ok? ==> WellFormed(Step(m, keys, rnd).value)
  {
    if !m.keypad.waiting && m.regs.pc + 1 < RAM_SIZE {
      StepExecutes(m, keys, rnd);
      ExecuteWellFormed(Advance(m, keys), WordAt(m.ram, m.regs.pc), rnd);
    }
  }

  /** Only a screen clear (any 0NN0) and a sprite draw touch the screen. */
  predicate TouchesScreen(op: Word) {
    (Family(op) == 0x0 && N(op) == 0x0) || Family(op) == 0xD
  }

  lemma Op8xyKeepsScreen(m: Machine, op: Word)
    requires WellFormed(m)
    ensures Op8xy(m, op, X(op), Y(op)).Ok? ==>
      Op8xy(m, op, X(op), Y(op)).value.vram == m.vram && Op8xy(m, op, X(op), Y(op)).value.vramChanged == m.vramChanged
  {
  }

  lemma OpFxKeepsScreen(m: Machine, op: Word)
    requires WellFormed(m)
    ensures OpFx(m, op, X(op)).Ok? ==>
      OpFx(m, op, X(op)).value.vram == m.vram && OpFx(m, op, X(op)).value.vramChanged == m.vramChanged
  {
  }

  /** An opcode that succeeds sets the redraw flag when it touches the
      screen, and otherwise leaves the screen and the flag as they were. */
  lemma ExecuteScreen(m: Machine, op: Word, rnd: Byte)
    requires WellFormed(m)
    ensures Execute(m, op, rnd).Ok? && TouchesScreen(op) ==> Execute(m, op, rnd).value.vramChanged
    ensures Execute(m, op, rnd).Ok? && !TouchesScreen(op) ==>
      Execute(m, op, rnd).value.vram == m.vram && Execute(m, op, rnd).value.vramChanged == m.vramChanged
  {
    if Family(op) == 0x8 {
      Op8xyKeepsScreen(m, op);
    } else if Family(op) == 0xF {
      OpFxKeepsScreen(m, op);
    }
  }

  /** Every pixel of the framebuffer is 0 or 1. */
  ghost predicate PixelsBinary(vram: seq<Byte>) {
    forall p :: 0 <= p < |vram| ==> vram[p] <= 1
  }

  /** Clearing gives a binary screen, and drawing toggles 0 and 1. */
  lemma ExecutePixelsBinary(m: Machine, op: Word, rnd: Byte)
    requires WellFormed(m) && PixelsBinary(m.vram)
    ensures Execute(m, op, rnd).Ok? ==> PixelsBinary(Execute(m, op, rnd).value.vram)
  {
    ExecuteScreen(m, op, rnd);
    if Family(op) == 0xD && Execute(m, op, rnd).Ok? {
      var sprite := SpriteAt(m.ram, m.regs.i, N(op));
      var vx := m.regs.v[X(op)];
      var vy := m.regs.v[Y(op)];
      assert Execute(m, op, rnd).value.vram == DrawSprite(m.vram, sprite, vx, vy);
      forall p | 0 <= p < VRAM_SIZE
        ensures DrawSprite(m.vram, sprite, vx, vy)[p] <= 1
      {
        XorOneOfFlag(m.vram[p]);
      }
    }
  }

  /** The framebuffer holds only 0 and 1 after any sequence of steps from
      boot. */
  lemma StepPixelsBinary(m: Machine, keys: seq<bool>, rnd: Byte)
    requires WellFormed(m) && |keys| == KEY_COUNT && PixelsBinary(m.vram)
    ensures Step(m, keys, rnd).Ok? ==> PixelsBinary(Step(m, keys, rnd).value.vram)
  {
    if !m.keypad.waiting && m.regs.pc + 1 < RAM_SIZE {
      StepExecutes(m, keys, rnd);
      ExecutePixelsBinary(Advance(m, keys), WordAt(m.ram, m.regs.pc), rnd);
    }
  }

  // The key-wait state machine.

  /** Whatever else it does, a step first clears the redraw flag and installs
      the new keypad snapshot; while waiting with no key pressed that is all
      it does. */
  lemma WaitingWithoutKey(m: Machine, keys: seq<bool>, rnd: Byte)
    requires WellFormed(m) && |keys| == KEY_COUNT
    requires m.keypad.waiting
    requires forall k :: 0 <= k < KEY_COUNT ==> !keys[k]
    ensures Step(m, keys, rnd) == Ok(m.(vramChanged := false, keypad := m.keypad.(state := keys)))
  {
    assert FirstPressed(keys, 0) == KEY_COUNT;
  }

  /** While waiting, the lowest pressed key is stored in the register FX0A
      named, the wait ends and the program counter moves past the FX0A; RAM,
      framebuffer, stack and every other register are unchanged. */
  lemma WaitingWithKey(m: Machine, keys: seq<bool>, rnd: Byte, k: nat)
    requires WellFormed(m) && |keys| == KEY_COUNT
    requires m.keypad.waiting
    requires k < KEY_COUNT && keys[k] && forall j :: 0 <= j < k ==> !keys[j]
    ensures Step(m, keys, rnd).Ok?
    ensures var r := Step(m, keys, rnd).value;
      && r.regs.v == m.regs.v[m.keypad.register := k]
      && r.regs.pc == m.regs.pc + 2
      && r.regs.(v := m.regs.v, pc := m.regs.pc) == m.regs
      && r.keypad == Keypad(keys, false, m.keypad.register)
      && r.ram == m.ram && r.vram == m.vram && r.stack == m.stack && !r.vramChanged
  {
  }

  /** An FX0A at address `a` makes the machine wait; the first step that sees
      a key resumes at `a + 4`, because the program counter was advanced both
      by the fetch and by the key poll. */
  lemma KeyWaitResumesAfterInstruction(m: Machine, keys1: seq<bool>, keys2: seq<bool>, rnd: Byte, k: nat)
    requires WellFormed(m) && |keys1| == KEY_COUNT && |keys2| == KEY_COUNT
    requires !m.keypad.waiting && m.regs.pc + 1 < RAM_SIZE
    requires Family(WordAt(m.ram, m.regs.pc)) == 0xF && NN(WordAt(m.ram, m.regs.pc)) == 0x0A
    requires k < KEY_COUNT && keys2[k] && forall j :: 0 <= j < k ==> !keys2[j]
    ensures Step(m, keys1, rnd).Ok?
    ensures var w := Step(m, keys1, rnd).value;
      && w.keypad.waiting && w.keypad.register == X(WordAt(m.ram, m.regs.pc))
      && w.regs.pc == m.regs.pc + 2
    ensures var w := Step(m, keys1, rnd).value;
      WellFormed(w) && Step(w, keys2, rnd).Ok? &&
      Step(w, keys2, rnd).value.regs.pc == m.regs.pc + 4 &&
      Step(w, keys2, rnd).value.regs.v[X(WordAt(m.ram, m.regs.pc))] == k
  {
    var op := WordAt(m.ram, m.regs.pc);
    StepExecutes(m, keys1, rnd);
    assert Execute(Advance(m, keys1), op, rnd) ==
      Ok(Advance(m, keys1).(keypad := Advance(m, keys1).keypad.(waiting := true, register := X(op))));
    var w := Step(m, keys1, rnd).value;
    WaitingWithKey(w, keys2, rnd, k);
  }

  // Skips.

  /** The six conditional skips: 3XNN, 4XNN, 5XY?, 9XY?, EX9E and EXA1. */
  predicate IsSkip(op: Word) {
    || Family(op) == 0x3 || Family(op) == 0x4 || Family(op) == 0x5 || Family(op) == 0x9
    || (Family(op) == 0xE && (NN(op) == 0x9E || NN(op) == 0xA1))
  }

  /** The condition under which each skip skips, read from its mnemonic:
      SE VX, NN; SNE VX, NN; SE VX, VY; SNE VX, VY; SKP VX; SKNP VX. */
  predicate SkipTaken(v: seq<Byte>, keys: seq<bool>, op: Word)
    requires |v| == REGISTER_COUNT && |keys| == KEY_COUNT && IsSkip(op)
    requires Family(op) == 0xE ==> v[X(op)] < KEY_COUNT
  {
    if Family(op) == 0x3 then v[X(op)] == NN(op)
    else if Family(op) == 0x4 then v[X(op)] != NN(op)
    else if Family(op) == 0x5 then v[X(op)] == v[Y(op)]
    else if Family(op) == 0x9 then v[X(op)] != v[Y(op)]
    else if NN(op) == 0x9E then keys[v[X(op)]]
    else !keys[v[X(op)]]
  }

  /** A skip whose condition holds ends at the old program counter plus 4, one
      whose condition fails at plus 2, and nothing else changes beyond what
      every step does. A key skip on a register holding 16 or more faults. */
  lemma SkipAdvancesPc(m: Machine, keys: seq<bool>, rnd: Byte)
    requires WellFormed(m) && |keys| == KEY_COUNT && !m.keypad.waiting
    requires m.regs.pc + 1 < RAM_SIZE && IsSkip(WordAt(m.ram, m.regs.pc))
    ensures var op := WordAt(m.ram, m.regs.pc);
      Family(op) == 0xE && m.regs.v[X(op)] >= KEY_COUNT ==>
        Step(m, keys, rnd) == Err(KeyOutOfRange(m.regs.v[X(op)]))
    ensures var op := WordAt(m.ram, m.regs.pc);
      (Family(op) == 0xE ==> m.regs.v[X(op)] < KEY_COUNT) ==>
        Step(m, keys, rnd) == Ok(Latch(m, keys).(regs := m.regs.(pc :=
          m.regs.pc + if SkipTaken(m.regs.v, keys, op) then 4 else 2)))
  {
    var op := WordAt(m.ram, m.regs.pc);
    var a := Advance(m, keys);
    StepExecutes(m, keys, rnd);
    assert a.regs.v == m.regs.v && a.keypad.state == keys;
    if Family(op) == 0xE && m.regs.v[X(op)] >= KEY_COUNT {
      assert Execute(a, op, rnd) == OpEx(a, op, X(op));
    } else {
      ExecuteSkip(a, op, rnd);
      assert a == Latch(m, keys).(regs := m.regs.(pc := m.regs.pc + 2));
    }
  }

  /** A skip executed on `a` adds 2 to its program counter exactly when its
      condition holds on `a`'s registers and keypad snapshot. */
  lemma ExecuteSkip(a: Machine, op: Word, rnd: Byte)
    requires WellFormed(a) && IsSkip(op)
    requires Family(op) == 0xE ==> a.regs.v[X(op)] < KEY_COUNT
    ensures Execute(a, op, rnd) == Ok(SkipIf(a, SkipTaken(a.regs.v, a.keypad.state, op)))
  {
    if Family(op) == 0xE {
      assert Execute(a, op, rnd) == OpEx(a, op, X(op));
    }
  }

  // Register arithmetic.

  /** A successful 8XY? changes only VX and VF; an unlisted low nibble is an
      unsupported opcode. */
  lemma AluFrame(m: Machine, op: Word, rnd: Byte)
    requires WellFormed(m) && Family(op) == 0x8
    ensures Execute(m, op, rnd).Ok? <==> N(op) <= 0x7 || N(op) == 0xE
    ensures Execute(m, op, rnd).Err? ==> Execute(m, op, rnd).fault == UnsupportedOpcode(op, m.regs.pc)
    ensures Execute(m, op, rnd).Ok? ==>
      var r := Execute(m, op, rnd).value;
      && r == m.(regs := m.regs.(v := r.regs.v))
      && |r.regs.v| == REGISTER_COUNT
      && forall j :: 0 <= j < REGISTER_COUNT && j != X(op) && j != VF ==> r.regs.v[j] == m.regs.v[j]
  {
  }

  /** 7XNN adds modulo 256 and sets no flag: only VX changes, VF included
      when X is not F. */
  lemma AddImmediate(m: Machine, op: Word, rnd: Byte)
    requires WellFormed(m) && Family(op) == 0x7
    ensures Execute(m, op, rnd) ==
      Ok(m.(regs := m.regs.(v := m.regs.v[X(op) := (m.regs.v[X(op)] + NN(op)) % 0x100])))
  {
  }

  /** The VF value of a successful 8XY? other than the logic ones. */
  function FlagAfter(m: Machine, op: Word, rnd: Byte): int
    requires WellFormed(m) && Family(op) == 0x8 && Execute(m, op, rnd).Ok?
  {
    AluFrame(m, op, rnd);
    Execute(m, op, rnd).value.regs.v[VF]
  }

  /** The VX value of a successful 8XY?. */
  function ResultAfter(m: Machine, op: Word, rnd: Byte): int
    requires WellFormed(m) && Family(op) == 0x8 && Execute(m, op, rnd).Ok?
  {
    AluFrame(m, op, rnd);
    Execute(m, op, rnd).value.regs.v[X(op)]
  }

  /** 6XNN writes NN to VX and changes nothing else. */
  lemma LoadImmediate(m: Machine, op: Word, rnd: Byte)
    requires WellFormed(m) && Family(op) == 0x6
    ensures Execute(m, op, rnd) == Ok(m.(regs := m.regs.(v := m.regs.v[X(op) := NN(op)])))
  {
  }

  /** 8XY0 to 8XY3 write only VX: the copy, OR, AND and XOR set no flag, so
      VF is left alone unless it is the target. */
  lemma RegisterMoves(m: Machine, op: Word, rnd: Byte)
    requires WellFormed(m) && Family(op) == 0x8 && N(op) <= 0x3
    ensures var v := m.regs.v; var x := X(op); var y := Y(op);
      Execute(m, op, rnd) == Ok(m.(regs := m.regs.(v := v[x :=
        match N(op)
        case 0x0 => v[y]
        case 0x1 => Or(v[x], v[y])
        case 0x2 => And(v[x], v[y])
        case _ => Xor(v[x], v[y])])))
    ensures X(op) != VF ==> Execute(m, op, rnd).Ok? && Execute(m, op, rnd).value.regs.v[VF] == m.regs.v[VF]
  {
  }

  /** FX07 copies the delay timer into VX; FX15 and FX18 load the delay and
      the sound timer from VX. Each changes only the one register. */
  lemma TimerMoves(m: Machine, op: Word, rnd: Byte)
    requires WellFormed(m) && Family(op) == 0xF && NN(op) in {0x07, 0x15, 0x18}
    ensures NN(op) == 0x07 ==>
      Execute(m, op, rnd) == Ok(m.(regs := m.regs.(v := m.regs.v[X(op) := m.regs.delay])))
    ensures NN(op) == 0x15 ==>
      Execute(m, op, rnd) == Ok(m.(regs := m.regs.(delay := m.regs.v[X(op)])))
    ensures NN(op) == 0x18 ==>
      Execute(m, op, rnd) == Ok(m.(regs := m.regs.(sound := m.regs.v[X(op)])))
  {
  }

  /** 8XY4 with X other than F: VX and the carry in VF together hold the
      full nine-bit sum. */
  lemma AddWithCarry(m: Machine, op: Word, rnd: Byte)
    requires WellFormed(m) && Family(op) == 0x8 && N(op) == 0x4 && X(op) != VF
    ensures Execute(m, op, rnd).Ok?
    ensures FlagAfter(m, op, rnd) <= 1
    ensures ResultAfter(m, op, rnd) + 0x100 * FlagAfter(m, op, rnd) == m.regs.v[X(op)] as int + m.regs.v[Y(op)] as int
  {
  }

  /** 8FY4: the carry is written after the sum, so VF ends as the carry and
      the sum is lost. */
  lemma AddWithCarryIntoFlag(m: Machine, op: Word, rnd: Byte)
    requires WellFormed(m) && Family(op) == 0x8 && N(op) == 0x4 && X(op) == VF
    ensures Execute(m, op, rnd).Ok?
    ensures FlagAfter(m, op, rnd) == if m.regs.v[VF] as int + m.regs.v[Y(op)] as int > 0xFF then 1 else 0
  {
  }

  /** 8XY5 with neither X nor Y F: VX wraps to VX - VY and VF is set exactly
      when VX was greater than VY. */
  lemma SubtractWithFlag(m: Machine, op: Word, rnd: Byte)
    requires WellFormed(m) && Family(op) == 0x8 && N(op) == 0x5 && X(op) != VF && Y(op) != VF
    ensures Execute(m, op, rnd).Ok?
    ensures FlagAfter(m, op, rnd) <= 1
    ensures FlagAfter(m, op, rnd) == 1 <==> m.regs.v[X(op)] > m.regs.v[Y(op)]
    ensures ResultAfter(m, op, rnd) == (m.regs.v[X(op)] as int - m.regs.v[Y(op)] as int) % 0x100
  {
  }

  /** 8XY7 with neither X nor Y F: VX wraps to VY - VX and VF is set exactly
      when VX was not greater than VY. */
  lemma ReverseSubtractWithFlag(m: Machine, op: Word, rnd: Byte)
    requires WellFormed(m) && Family(op) == 0x8 && N(op) == 0x7 && X(op) != VF && Y(op) != VF
    ensures Execute(m, op, rnd).Ok?
    ensures FlagAfter(m, op, rnd) <= 1
    ensures FlagAfter(m, op, rnd) == 1 <==> !(m.regs.v[X(op)] > m.regs.v[Y(op)])
    ensures ResultAfter(m, op, rnd) == (m.regs.v[Y(op)] as int - m.regs.v[X(op)] as int) % 0x100
  {
  }

  /** 8XY6 with X other than F: VF receives the bit shifted out, so the old
      VX is recovered from the new VX and VF. */
  lemma ShiftRightWithFlag(m: Machine, op: Word, rnd: Byte)
    requires WellFormed(m) && Family(op) == 0x8 && N(op) == 0x6 && X(op) != VF
    ensures Execute(m, op, rnd).Ok?
    ensures FlagAfter(m, op, rnd) <= 1
    ensures m.regs.v[X(op)] == 2 * ResultAfter(m, op, rnd) + FlagAfter(m, op, rnd)
  {
    ShiftsAsArithmetic(m.regs.v[X(op)]);
  }

  /** 8XYE with X other than F: VF receives the bit shifted out of the top,
      so twice the old VX is the new VX plus 256 times VF. */
  lemma ShiftLeftWithFlag(m: Machine, op: Word, rnd: Byte)
    requires WellFormed(m) && Family(op) == 0x8 && N(op) == 0xE && X(op) != VF
    ensures Execute(m, op, rnd).Ok?
    ensures FlagAfter(m, op, rnd) <= 1
    ensures 2 * m.regs.v[X(op)] as int == ResultAfter(m, op, rnd) + 0x100 * FlagAfter(m, op, rnd)
  {
    var a := m.regs.v[X(op)];
    ShiftsAsArithmetic(a);
    var v1 := m.regs.v[VF := And(Shr(a, 7), 1)];
    assert Execute(m, op, rnd) == Ok(m.(regs := m.regs.(v := v1[X(op) := Shl(a, 1)])));
    assert FlagAfter(m, op, rnd) == a / 0x80;
    assert ResultAfter(m, op, rnd) == (a as int * 2) % 0x100;
    assert (a as int * 2) / 0x100 == a / 0x80;
  }

  /** 8XY5 with X or Y F. The flag is written before the difference is
      taken, so 8XF5 subtracts the new flag rather than the old VF, 8FY5
      leaves VF holding the flag less VY, and 8FF5 clears VF. */
  lemma SubtractWithFlagRegister(m: Machine, op: Word, rnd: Byte)
    requires WellFormed(m) && Family(op) == 0x8 && N(op) == 0x5 && (X(op) == VF || Y(op) == VF)
    ensures Execute(m, op, rnd).Ok?
    ensures var flag := if m.regs.v[X(op)] > m.regs.v[Y(op)] then 1 else 0;
      && (X(op) != VF ==>
            FlagAfter(m, op, rnd) == flag
            && ResultAfter(m, op, rnd) == (m.regs.v[X(op)] as int - flag) % 0x100)
      && (X(op) == VF && Y(op) != VF ==>
            FlagAfter(m, op, rnd) == (flag - m.regs.v[Y(op)] as int) % 0x100)
      && (X(op) == VF && Y(op) == VF ==> FlagAfter(m, op, rnd) == 0)
  {
  }

  /** 8XY7 with X or Y F. The flag is written before the difference is
      taken, so 8XF7 subtracts VX from the new flag rather than from the old
      VF, 8FY7 leaves VF holding VY less the flag, and 8FF7 clears VF. */
  lemma ReverseSubtractWithFlagRegister(m: Machine, op: Word, rnd: Byte)
    requires WellFormed(m) && Family(op) == 0x8 && N(op) == 0x7 && (X(op) == VF || Y(op) == VF)
    ensures Execute(m, op, rnd).Ok?
    ensures var flag := if m.regs.v[X(op)] > m.regs.v[Y(op)] then 0 else 1;
      && (X(op) != VF ==>
            FlagAfter(m, op, rnd) == flag
            && ResultAfter(m, op, rnd) == (flag - m.regs.v[X(op)] as int) % 0x100)
      && (X(op) == VF && Y(op) != VF ==>
            FlagAfter(m, op, rnd) == (m.regs.v[Y(op)] as int - flag) % 0x100)
      && (X(op) == VF && Y(op) == VF ==> FlagAfter(m, op, rnd) == 0)
  {
  }

  /** 8FY6: the low bit is written to VF and then VF itself is shifted, so
      VF always ends as 0 and the bit shifted out is lost. */
  lemma ShiftRightIntoFlag(m: Machine, op: Word, rnd: Byte)
    requires WellFormed(m) && Family(op) == 0x8 && N(op) == 0x6 && X(op) == VF
    ensures Execute(m, op, rnd).Ok?
    ensures FlagAfter(m, op, rnd) == 0
  {
    var bit := And(m.regs.v[VF], 1);
    ShiftsAsArithmetic(m.regs.v[VF]);
    ShiftsAsArithmetic(bit);
  }

  /** 8FYE: the high bit is written to VF and then VF itself is shifted, so
      VF ends as twice the old high bit (0 or 2), not as the bit. */
  lemma ShiftLeftIntoFlag(m: Machine, op: Word, rnd: Byte)
    requires WellFormed(m) && Family(op) == 0x8 && N(op) == 0xE && X(op) == VF
    ensures Execute(m, op, rnd).Ok?
    ensures FlagAfter(m, op, rnd) == 2 * (m.regs.v[VF] / 0x80)
  {
    var bit := And(Shr(m.regs.v[VF], 7), 1);
    ShiftsAsArithmetic(m.regs.v[VF]);
    ShiftsAsArithmetic(bit);
  }

  /** CXNN: whatever byte the generator yields, VX has no bit outside NN; and
      every such byte is the result for some generator output. */
  lemma RandomIsMasked(m: Machine, op: Word, rnd: Byte, b: Byte)
    requires WellFormed(m) && Family(op) == 0xC
    ensures Execute(m, op, rnd)
         == Ok(m.(regs := m.regs.(v := m.regs.v[X(op) := And(rnd, NN(op))])))
    ensures And(Execute(m, op, rnd).value.regs.v[X(op)], NN(op)) == Execute(m, op, rnd).value.regs.v[X(op)]
    ensures And(b, NN(op)) == b ==> Execute(m, op, b).value.regs.v[X(op)] == b
  {
    AndMask(rnd, NN(op));
  }

  /** 1NNN sets the program counter to NNN and changes nothing else. */
  lemma Jump(m: Machine, op: Word, rnd: Byte)
    requires WellFormed(m) && Family(op) == 0x1
    ensures Execute(m, op, rnd) == Ok(m.(regs := m.regs.(pc := op % 0x1000)))
  {
  }

  /** ANNN sets I to NNN and changes nothing else. */
  lemma SetIndex(m: Machine, op: Word, rnd: Byte)
    requires WellFormed(m) && Family(op) == 0xA
    ensures Execute(m, op, rnd) == Ok(m.(regs := m.regs.(i := op % 0x1000)))
  {
  }

  /** BNNN jumps to V0 + NNN, which can lie beyond RAM, up to 0x10FE, and
      changes nothing else. */
  lemma JumpWithOffsetBound(m: Machine, op: Word, rnd: Byte)
    requires WellFormed(m) && Family(op) == 0xB
    ensures Execute(m, op, rnd) == Ok(m.(regs := m.regs.(pc := m.regs.v[0] + NNN(op))))
    ensures Execute(m, op, rnd).value.regs.pc == m.regs.v[0] + NNN(op) <= 0x10FE
  {
  }

  // Subroutines.

  /** 2NNN faults exactly when all sixteen stack entries are in use; otherwise
      it pushes the return address and jumps. 00EE (any 0NNE) faults exactly
      when the stack is empty; otherwise it pops the top entry into PC. The
      pushed return address is the PC truncated to 16 bits, and nothing else
      changes. */
  lemma StackBounds(m: Machine, op: Word, rnd: Byte)
    requires WellFormed(m)
    ensures Family(op) == 0x2 ==>
      (Execute(m, op, rnd).Err? <==> m.regs.sp == STACK_SIZE) &&
      (Execute(m, op, rnd).Err? ==> Execute(m, op, rnd).fault == StackOverflow)
    ensures Family(op) == 0x2 && m.regs.sp < STACK_SIZE ==>
      Execute(m, op, rnd)
        == Ok(m.(stack := m.stack[m.regs.sp := m.regs.pc % 0x1_0000],
                 regs := m.regs.(sp := m.regs.sp + 1, pc := op % 0x1000)))
    ensures Family(op) == 0x0 && N(op) == 0xE ==>
      (Execute(m, op, rnd).Err? <==> m.regs.sp == 0) &&
      (Execute(m, op, rnd).Err? ==> Execute(m, op, rnd).fault == StackUnderflow)
    ensures Family(op) == 0x0 && N(op) == 0xE && m.regs.sp > 0 ==>
      Execute(m, op, rnd)
        == Ok(m.(regs := m.regs.(sp := m.regs.sp - 1, pc := m.stack[m.regs.sp - 1])))
  {
  }

  /** A call followed by a return, with any subroutine in between that leaves
      the stack pointer and the pushed entry as it found them, comes back to
      the instruction after the call with the stack pointer restored. */
  lemma CallThenReturn(m: Machine, call: Word, body: Machine, ret: Word, rnd: Byte)
    requires WellFormed(m) && Family(call) == 0x2 && m.regs.sp < STACK_SIZE && m.regs.pc < 0x1_0000
    requires Family(ret) == 0x0 && N(ret) == 0xE
    ensures Execute(m, call, rnd).Ok?
    ensures var c := Execute(m, call, rnd).value;
      c.regs.pc == NNN(call) && c.regs.sp == m.regs.sp + 1 && c.stack[m.regs.sp] == m.regs.pc
    ensures var c := Execute(m, call, rnd).value;
      WellFormed(body) && body.regs.sp == c.regs.sp && body.stack[m.regs.sp] == c.stack[m.regs.sp] ==>
        Execute(body, ret, rnd).Ok? &&
        Execute(body, ret, rnd).value.regs.pc == m.regs.pc &&
        Execute(body, ret, rnd).value.regs.sp == m.regs.sp
  {
  }

  // Memory transfers.

  /** FX33 faults exactly when I + 2 lies outside RAM; otherwise the three
      bytes at I are the decimal digits of VX, most significant first, every
      register (I included) is unchanged and so is every other byte. */
  lemma BcdDigits(m: Machine, op: Word, rnd: Byte)
    requires WellFormed(m) && Family(op) == 0xF && NN(op) == 0x33
    ensures Execute(m, op, rnd).Ok? <==> m.regs.i + 2 < RAM_SIZE
    ensures Execute(m, op, rnd).Err? ==>
      Execute(m, op, rnd).fault == AddressOutOfRange(FirstInvalidAddr(m.regs.i))
    ensures Execute(m, op, rnd).Ok? ==>
      var r := Execute(m, op, rnd).value;
      var i := m.regs.i;
      && |r.ram| == RAM_SIZE
      && r.ram[i] < 10 && r.ram[i + 1] < 10 && r.ram[i + 2] < 10
      && r.ram[i] * 100 + r.ram[i + 1] * 10 + r.ram[i + 2] == m.regs.v[X(op)]
      && r.regs == m.regs
      && forall a :: 0 <= a < RAM_SIZE && !(i <= a < i + 3) ==> r.ram[a] == m.ram[a]
  {
  }

  /** FX55 stores V0..VX at I, byte by byte, without moving I. */
  lemma StoreRegisters(m: Machine, op: Word, rnd: Byte)
    requires WellFormed(m) && Family(op) == 0xF && NN(op) == 0x55 && m.regs.i + X(op) < RAM_SIZE
    ensures Execute(m, op, rnd).Ok?
    ensures var s := Execute(m, op, rnd).value;
      && s == m.(ram := s.ram) && |s.ram| == RAM_SIZE
      && s.ram[m.regs.i..m.regs.i + X(op) + 1] == m.regs.v[..X(op) + 1]
      && forall a :: 0 <= a < RAM_SIZE && !(m.regs.i <= a <= m.regs.i + X(op)) ==> s.ram[a] == m.ram[a]
  {
    var x := X(op);
    var i := m.regs.i;
    var data := m.regs.v[..x + 1];
    assert Execute(m, op, rnd) == Ok(m.(ram := Fill(m.ram, i, data)));
    var ram' := Fill(m.ram, i, data);
    forall a | 0 <= a < RAM_SIZE
      ensures ram'[a] == if i <= a <= i + x then data[a - i] else m.ram[a]
    {
      FillAt(m.ram, i, data, a);
    }
    assert ram'[i..i + x + 1] == data;
  }

  /** FX65 loads V0..VX from I, byte by byte, without moving I; the other
      registers keep their values. */
  lemma LoadRegisters(m: Machine, op: Word, rnd: Byte)
    requires WellFormed(m) && Family(op) == 0xF && NN(op) == 0x65 && m.regs.i + X(op) < RAM_SIZE
    ensures Execute(m, op, rnd).Ok?
    ensures var r := Execute(m, op, rnd).value;
      && r == m.(regs := m.regs.(v := r.regs.v))
      && r.regs.v == m.ram[m.regs.i..m.regs.i + X(op) + 1] + m.regs.v[X(op) + 1..]
  {
    var x := X(op);
    var i := m.regs.i;
    var data := m.ram[i..i + x + 1];
    assert Execute(m, op, rnd) == Ok(m.(regs := m.regs.(v := Fill(m.regs.v, 0, data))));
    var v' := Fill(m.regs.v, 0, data);
    forall j | 0 <= j < REGISTER_COUNT
      ensures v'[j] == (data + m.regs.v[x + 1..])[j]
    {
      FillAt(m.regs.v, 0, data, j);
    }
  }

  /** Storing with FX55 and loading back with FX65 from the same I, whatever
      the registers hold in between, restores V0..VX, keeps the registers
      above VX and never moves I. */
  lemma StoreThenLoad(m: Machine, store: Word, load: Word, w: seq<Byte>, rnd: Byte)
    requires WellFormed(m) && |w| == REGISTER_COUNT
    requires Family(store) == 0xF && NN(store) == 0x55 && Family(load) == 0xF && NN(load) == 0x65
    requires X(store) == X(load) && m.regs.i + X(store) < RAM_SIZE
    ensures Execute(m, store, rnd).Ok?
    ensures var s := Execute(m, store, rnd).value;
      var s2 := s.(regs := s.regs.(v := w));
      Execute(s2, load, rnd).Ok? &&
      Execute(s2, load, rnd).value.regs.i == m.regs.i &&
      Execute(s2, load, rnd).value.regs.v == m.regs.v[..X(store) + 1] + w[X(store) + 1..]
  {
    StoreRegisters(m, store, rnd);
    var s := Execute(m, store, rnd).value;
    ExecuteWellFormed(m, store, rnd);
    LoadRegisters(s.(regs := s.regs.(v := w)), load, rnd);
  }

  /** FX55 and FX65 fault exactly when I + X lies outside RAM. */
  lemma TransferBounds(m: Machine, op: Word, rnd: Byte)
    requires WellFormed(m) && Family(op) == 0xF && (NN(op) == 0x55 || NN(op) == 0x65)
    ensures Execute(m, op, rnd).Ok? <==> m.regs.i + X(op) < RAM_SIZE
    ensures Execute(m, op, rnd).Err? ==>
      Execute(m, op, rnd).fault == AddressOutOfRange(FirstInvalidAddr(m.regs.i))
  {
  }

  /** FX1E adds VX to I without wrapping at 16 bits or at the RAM size, and
      VF tells whether I now lies beyond 0x0F00. */
  lemma AddToIndex(m: Machine, op: Word, rnd: Byte)
    requires WellFormed(m) && Family(op) == 0xF && NN(op) == 0x1E
    ensures Execute(m, op, rnd).Ok?
    ensures var i := m.regs.i + m.regs.v[X(op)];
      Execute(m, op, rnd)
        == Ok(m.(regs := m.regs.(i := i, v := m.regs.v[VF := if i > INDEX_OVERFLOW then 1 else 0])))
    ensures var r := Execute(m, op, rnd).value.regs;
      && r.i - m.regs.i == m.regs.v[X(op)]
      && |r.v| == REGISTER_COUNT
      && (r.v[VF] == 1 <==> r.i > INDEX_OVERFLOW)
      && r.v[VF] <= 1
      && r.v == m.regs.v[VF := r.v[VF]]
  {
  }

  /** FX29 sets I to 0x50 + 5 VX and changes nothing else, which points I at
      the five-row glyph of the digit in VX as long as the font is intact. VX
      is not masked to a nibble: from 16 on, I lands past the font. */
  lemma FontGlyph(m: Machine, op: Word, rnd: Byte)
    requires WellFormed(m) && Family(op) == 0xF && NN(op) == 0x29
    ensures Execute(m, op, rnd)
         == Ok(m.(regs := m.regs.(i := FONT_BASE_ADDR + 5 * m.regs.v[X(op)] as int)))
    ensures var i := Execute(m, op, rnd).value.regs.i;
      && (m.ram[FONT_BASE_ADDR..FONT_BASE_ADDR + |FONT|] == FONT && m.regs.v[X(op)] < 16 ==>
           i + 5 <= RAM_SIZE &&
           m.ram[i..i + 5] == FONT[5 * m.regs.v[X(op)]..5 * m.regs.v[X(op)] + 5])
      && (m.regs.v[X(op)] >= 16 ==> i >= FONT_BASE_ADDR + |FONT|)
  {
    var d := m.regs.v[X(op)];
    assert Execute(m, op, rnd) == OpFx(m, op, X(op));
    assert Execute(m, op, rnd).value.regs.i == FONT_BASE_ADDR + 5 * d as int;
    if m.ram[FONT_BASE_ADDR..FONT_BASE_ADDR + |FONT|] == FONT && d < 16 {
      SliceOfSlice(m.ram, FONT_BASE_ADDR, FONT_BASE_ADDR + |FONT|, 5 * d, 5 * d + 5);
    }
  }

  /** A slice of a slice is a slice of the whole. */
  lemma SliceOfSlice<T>(s: seq<T>, a: nat, b: nat, lo: nat, hi: nat)
    requires a <= b <= |s| && lo <= hi <= b - a
    ensures s[a..b][lo..hi] == s[a + lo..a + hi]
  {
    forall j | 0 <= j < hi - lo
      ensures s[a..b][lo..hi][j] == s[a + lo..a + hi][j]
    {
      assert s[a..b][lo..hi][j] == s[a..b][lo + j];
    }
  }

  // Timers.

  /** `n` timer ticks. */
  function Ticks(m: Machine, n: nat): Machine {
    if n == 0 then m else UpdateTimers(Ticks(m, n - 1))
  }

  /** After `n` ticks both timers have counted down by `n`, stopping at zero,
      nothing else has changed, and the beeper sounds exactly when the sound
      timer started above `n`. */
  lemma {:induction false} TimersSaturate(m: Machine, n: nat)
    ensures Ticks(m, n).regs.delay == if m.regs.delay > n then m.regs.delay - n else 0
    ensures Ticks(m, n).regs.sound == if m.regs.sound > n then m.regs.sound - n else 0
    ensures Ticks(m, n) == m.(regs := m.regs.(delay := Ticks(m, n).regs.delay, sound := Ticks(m, n).regs.sound))
    ensures ShouldBeep(Ticks(m, n)) <==> m.regs.sound > n
  {
    if n > 0 {
      TimersSaturate(m, n - 1);
    }
  }
}
