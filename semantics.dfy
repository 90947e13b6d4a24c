/** The processor of the CHIP-8 virtual machine as functions on a value of the
    whole machine state: what one `step` of the CPU does, opcode by opcode.
    The imperative CPU class (module Cpu) is proved to do exactly this. */
module Semantics {
  import opened Bytes
  import opened Mmu

  const WIDTH: nat := 64
  const HEIGHT: nat := 32
  const VRAM_SIZE: nat := 2048      // HEIGHT * WIDTH
  const STACK_SIZE: nat := 16
  const KEY_COUNT: nat := 16
  const REGISTER_COUNT: nat := 16

  /** VF, the register that doubles as carry, borrow, shift-out and collision
      flag. */
  const VF: nat := 0xF

  /** FX1E sets VF when I grows beyond this value. */
  const INDEX_OVERFLOW: nat := 0x0F00

  /** The register file. `i`, `pc` and `sp` are Rust `usize` values and do not
      wrap; the others are bytes. */
  datatype Registers = Registers(v: seq<Byte>, i: nat, pc: nat, sp: nat, delay: Byte, sound: Byte)

  /** The keypad snapshot of the current step and the key-wait state set up by
      FX0A: while `waiting`, a step stores the first pressed key in
      `V[register]`. */
  datatype Keypad = Keypad(state: seq<bool>, waiting: bool, register: nat)

  /** Everything a step can read or change. */
  datatype Machine = Machine(
    ram: seq<Byte>,
    vram: seq<Byte>,
    vramChanged: bool,
    regs: Registers,
    stack: seq<Word>,
    keypad: Keypad)

  /** The conditions under which the source panics, as values. */
  datatype Fault =
    | UnsupportedOpcode(opcode: Word, pc: nat)
    | AddressOutOfRange(addr: nat)
    | StackOverflow
    | StackUnderflow
    | KeyOutOfRange(key: Byte)

  datatype Result<T> = Ok(value: T) | Err(fault: Fault)

  /** Sizes and ranges every reachable machine has. */
  ghost predicate WellFormed(m: Machine) {
    && |m.ram| == RAM_SIZE
    && |m.vram| == VRAM_SIZE
    && |m.regs.v| == REGISTER_COUNT
    && m.regs.sp <= STACK_SIZE
    && |m.stack| == STACK_SIZE
    && |m.keypad.state| == KEY_COUNT
    && m.keypad.register < REGISTER_COUNT
  }

  /** No key pressed. */
  function Released(): (keys: seq<bool>)
    ensures |keys| == KEY_COUNT
  {
    seq(KEY_COUNT, _ => false)
  }

  /** The state `CPU::new` and `reset` establish for a given program image:
      RAM as `MMU::reset` leaves it, a blank screen, zeroed registers with the
      program counter at ROM_BASE_ADDR, an empty stack and no key-wait. */
  function Boot(rom: seq<Byte>): (m: Machine)
    requires |rom| <= MAX_ROM_SIZE
  {
    Machine(
      ResetImage(rom),
      Zeros(VRAM_SIZE),
      false,
      Registers(Zeros(REGISTER_COUNT), 0, ROM_BASE_ADDR, 0, 0, 0),
      seq(STACK_SIZE, _ => 0),
      Keypad(Released(), false, 0))
  }

  // Opcode fields.

  function Family(op: Word): nat { op / 0x1000 }          // opcode & 0xF000
  function X(op: Word): nat { (op / 0x100) % 0x10 }       // (opcode & 0x0F00) >> 8
  function Y(op: Word): nat { (op / 0x10) % 0x10 }        // (opcode & 0x00F0) >> 4
  function N(op: Word): nat { op % 0x10 }                 // opcode & 0x000F
  function NN(op: Word): Byte { op % 0x100 }              // opcode & 0x00FF
  function NNN(op: Word): nat { op % 0x1000 }             // opcode & 0x0FFF

  /** The low byte is the Y nibble above the N nibble. */
  lemma LowByteFields(op: Word)
    ensures NN(op) == Y(op) * 0x10 + N(op)
  {
    var q := op / 0x10;
    assert op == 0x10 * q + N(op);
    assert q == 0x10 * (q / 0x10) + Y(op);
    assert op == 0x100 * (q / 0x10) + (Y(op) * 0x10 + N(op));
  }

  /** The address a sequential access from `base` faults on, once it runs past
      the end of RAM: `base` itself, or the first address past the end. */
  function FirstInvalidAddr(base: nat): nat {
    if base < RAM_SIZE then RAM_SIZE else base
  }

  function SetV(r: Registers, x: nat, b: Byte): Registers
    requires x < |r.v|
  {
    r.(v := r.v[x := b])
  }

  /** Skip the next instruction when `cond` holds. */
  function SkipIf(m: Machine, cond: bool): Machine {
    if cond then m.(regs := m.regs.(pc := m.regs.pc + 2)) else m
  }

  /** `fetch_instruction`: the big-endian word at the program counter. */
  function Fetch(m: Machine): (r: Result<Word>)
    requires WellFormed(m)
    ensures r.Ok? <==> m.regs.pc + 1 < RAM_SIZE
    ensures r.Ok? ==> r.value == m.ram[m.regs.pc] as int * 0x100 + m.ram[m.regs.pc + 1] as int
    ensures r.Err? ==> r.fault == AddressOutOfRange(FirstInvalidAddr(m.regs.pc))
  {
    var pc := m.regs.pc;
    if pc + 1 < RAM_SIZE then Ok(WordOf(m.ram[pc], m.ram[pc + 1]))
    else Err(AddressOutOfRange(FirstInvalidAddr(pc)))
  }

  /** `execute`: one decoded opcode. The program counter has already been
      advanced past it. */
  function Execute(m: Machine, op: Word, rnd: Byte): Result<Machine>
    requires WellFormed(m)
  {
    var r := m.regs;
    var x := X(op);
    var y := Y(op);
    match Family(op)
    case 0x0 =>
      // The low nibble alone selects: any 0NN0 clears, any 0NNE returns.
      if N(op) == 0x0 then
        Ok(m.(vram := Zeros(VRAM_SIZE), vramChanged := true))
      else if N(op) == 0xE then
        if r.sp == 0 then Err(StackUnderflow)
        else Ok(m.(regs := r.(sp := r.sp - 1, pc := m.stack[r.sp - 1])))
      else Err(UnsupportedOpcode(op, r.pc))
    case 0x1 => Ok(m.(regs := r.(pc := NNN(op))))
    case 0x2 =>
      if r.sp >= STACK_SIZE then Err(StackOverflow)
      else Ok(m.(stack := m.stack[r.sp := r.pc % 0x1_0000],
                 regs := r.(sp := r.sp + 1, pc := NNN(op))))
    case 0x3 => Ok(SkipIf(m, r.v[x] == NN(op)))
    case 0x4 => Ok(SkipIf(m, r.v[x] != NN(op)))
    case 0x5 => Ok(SkipIf(m, r.v[x] == r.v[y]))
    case 0x6 => Ok(m.(regs := SetV(r, x, NN(op))))
    case 0x7 => Ok(m.(regs := SetV(r, x, Truncate8(r.v[x] + NN(op)))))
    case 0x8 => Op8xy(m, op, x, y)
    case 0x9 => Ok(SkipIf(m, r.v[x] != r.v[y]))
    case 0xA => Ok(m.(regs := r.(i := NNN(op))))
    case 0xB => Ok(m.(regs := r.(pc := r.v[0] + NNN(op))))
    case 0xC => Ok(m.(regs := SetV(r, x, And(rnd, NN(op)))))
    case 0xD => Draw(m, x, y, N(op))
    case 0xE => OpEx(m, op, x)
    case _ => OpFx(m, op, x)
  }

  /** `op_8xy`: register-to-register arithmetic and logic. The flag is written
      in the order the source writes it, so when X is F the flag can be
      overwritten by the result, or feed into it. */
  function Op8xy(m: Machine, op: Word, x: nat, y: nat): Result<Machine>
    requires WellFormed(m) && x < REGISTER_COUNT && y < REGISTER_COUNT
  {
    var v := m.regs.v;
    match N(op)
    case 0x0 => Ok(m.(regs := m.regs.(v := v[x := v[y]])))
    case 0x1 => Ok(m.(regs := m.regs.(v := v[x := Or(v[x], v[y])])))
    case 0x2 => Ok(m.(regs := m.regs.(v := v[x := And(v[x], v[y])])))
    case 0x3 => Ok(m.(regs := m.regs.(v := v[x := Xor(v[x], v[y])])))
    case 0x4 =>
      var sum := v[x] as int + v[y] as int;
      var v1 := v[x := Truncate8(sum)];
      Ok(m.(regs := m.regs.(v := v1[VF := if sum > 0xFF then 1 else 0])))
    case 0x5 =>
      var v1 := v[VF := if v[x] > v[y] then 1 else 0];
      Ok(m.(regs := m.regs.(v := v1[x := WrappingSub(v1[x], v1[y])])))
    case 0x6 =>
      var v1 := v[VF := And(v[x], 1)];
      Ok(m.(regs := m.regs.(v := v1[x := Shr(v1[x], 1)])))
    case 0x7 =>
      var v1 := v[VF := if v[x] > v[y] then 0 else 1];
      Ok(m.(regs := m.regs.(v := v1[x := WrappingSub(v1[y], v1[x])])))
    case 0xE =>
      var v1 := v[VF := And(Shr(v[x], 7), 1)];
      Ok(m.(regs := m.regs.(v := v1[x := Shl(v1[x], 1)])))
    case _ => Err(UnsupportedOpcode(op, m.regs.pc))
  }

  /** `op_ex`: skip on the state of the key whose index is in VX. */
  function OpEx(m: Machine, op: Word, x: nat): Result<Machine>
    requires WellFormed(m) && x < REGISTER_COUNT
  {
    var key := m.regs.v[x];
    match NN(op)
    case 0x9E =>
      if key >= KEY_COUNT then Err(KeyOutOfRange(key))
      else Ok(SkipIf(m, m.keypad.state[key]))
    case 0xA1 =>
      if key >= KEY_COUNT then Err(KeyOutOfRange(key))
      else Ok(SkipIf(m, !m.keypad.state[key]))
    case _ => Err(UnsupportedOpcode(op, m.regs.pc))
  }

  /** `op_fx`: timers, key-wait, index arithmetic, BCD and bulk register
      transfer. */
  function OpFx(m: Machine, op: Word, x: nat): Result<Machine>
    requires WellFormed(m) && x < REGISTER_COUNT
  {
    var r := m.regs;
    var v := r.v;
    match NN(op)
    case 0x07 => Ok(m.(regs := SetV(r, x, r.delay)))
    case 0x0A => Ok(m.(keypad := m.keypad.(waiting := true, register := x)))
    case 0x15 => Ok(m.(regs := r.(delay := v[x])))
    case 0x18 => Ok(m.(regs := r.(sound := v[x])))
    case 0x1E =>
      var i := r.i + v[x];
      Ok(m.(regs := r.(i := i, v := v[VF := if i > INDEX_OVERFLOW then 1 else 0])))
    case 0x29 => Ok(m.(regs := r.(i := FONT_BASE_ADDR + v[x] as int * 5)))
    case 0x33 =>
      if r.i + 2 >= RAM_SIZE then Err(AddressOutOfRange(FirstInvalidAddr(r.i)))
      else Ok(m.(ram := m.ram[r.i := v[x] / 100][r.i + 1 := (v[x] % 100) / 10][r.i + 2 := v[x] % 10]))
    case 0x55 =>
      if r.i + x >= RAM_SIZE then Err(AddressOutOfRange(FirstInvalidAddr(r.i)))
      else Ok(m.(ram := Fill(m.ram, r.i, v[..x + 1])))
    case 0x65 =>
      if r.i + x >= RAM_SIZE then Err(AddressOutOfRange(FirstInvalidAddr(r.i)))
      else Ok(m.(regs := r.(v := Fill(v, 0, m.ram[r.i..r.i + x + 1]))))
    case _ => Err(UnsupportedOpcode(op, m.regs.pc))
  }

  // Sprite drawing (DXYN).

  /** The framebuffer index of sprite pixel (`row`, `col`) drawn at (`vx`,
      `vy`): both coordinates wrap around the screen. */
  function Pos(vx: Byte, vy: Byte, row: nat, col: nat): nat {
    (vx + col) % WIDTH + ((vy + row) % HEIGHT) * WIDTH
  }

  /** The sprite column that lands on framebuffer index `p`. */
  function ColOf(vx: Byte, p: nat): nat { (p % WIDTH - vx) % WIDTH }

  /** The sprite row that lands on framebuffer index `p`. */
  function RowOf(vy: Byte, p: nat): nat { (p / WIDTH - vy) % HEIGHT }

  /** Pixel `p` lies under a set bit of the sprite. */
  predicate Hit(sprite: seq<Byte>, vx: Byte, vy: Byte, p: nat) {
    RowOf(vy, p) < |sprite| && ColOf(vx, p) < 8 && Bit(sprite[RowOf(vy, p)], ColOf(vx, p))
  }

  /** The framebuffer after XOR-drawing `sprite` at (`vx`, `vy`). */
  function DrawSprite(vram: seq<Byte>, sprite: seq<Byte>, vx: Byte, vy: Byte): (r: seq<Byte>)
    requires |vram| == VRAM_SIZE
  {
    seq(VRAM_SIZE, p requires 0 <= p < VRAM_SIZE =>
      if Hit(sprite, vx, vy, p) then Xor(vram[p], 1) else vram[p])
  }

  /** Some pixel under a set sprite bit is lit before drawing. */
  predicate Collides(vram: seq<Byte>, sprite: seq<Byte>, vx: Byte, vy: Byte)
    requires |vram| == VRAM_SIZE
  {
    exists p :: 0 <= p < VRAM_SIZE && Hit(sprite, vx, vy, p) && vram[p] == 1
  }

  /** Stepping `v` forward by `(a - v) mod m` lands on `a`; stepping `v`
      forward by `c` and back by `v` gives `c` again. */
  lemma WrapWidth(a: int, v: int)
    requires 0 <= a < WIDTH
    ensures (v + (a - v) % WIDTH) % WIDTH == a
    ensures ((v + a) % WIDTH - v) % WIDTH == a
  {
    var q := (a - v) / WIDTH;
    assert a - v == WIDTH * q + (a - v) % WIDTH;
    assert v + (a - v) % WIDTH == a + WIDTH * -q;
    var q2 := (v + a) / WIDTH;
    assert v + a == WIDTH * q2 + (v + a) % WIDTH;
    assert (v + a) % WIDTH - v == a + WIDTH * -q2;
  }

  lemma WrapHeight(a: int, v: int)
    requires 0 <= a < HEIGHT
    ensures (v + (a - v) % HEIGHT) % HEIGHT == a
    ensures ((v + a) % HEIGHT - v) % HEIGHT == a
  {
    var q := (a - v) / HEIGHT;
    assert a - v == HEIGHT * q + (a - v) % HEIGHT;
    assert v + (a - v) % HEIGHT == a + HEIGHT * -q;
    var q2 := (v + a) / HEIGHT;
    assert v + a == HEIGHT * q2 + (v + a) % HEIGHT;
    assert (v + a) % HEIGHT - v == a + HEIGHT * -q2;
  }

  /** A framebuffer index splits into its column and its row. */
  lemma SplitIndex(p: nat, c: nat, r: nat)
    requires c < WIDTH && r < HEIGHT && p == c + r * WIDTH
    ensures p < VRAM_SIZE && p % WIDTH == c && p / WIDTH == r
  {
  }

  /** Row and column of a sprite pixel are recovered from where it lands, as
      long as the row is within the screen height. */
  lemma PosInverse(vx: Byte, vy: Byte, row: nat, col: nat)
    requires row < HEIGHT && col < WIDTH
    ensures Pos(vx, vy, row, col) < VRAM_SIZE
    ensures RowOf(vy, Pos(vx, vy, row, col)) == row && ColOf(vx, Pos(vx, vy, row, col)) == col
  {
    var c := (vx + col) % WIDTH;
    var r := (vy + row) % HEIGHT;
    SplitIndex(Pos(vx, vy, row, col), c, r);
    WrapWidth(col, vx);
    WrapHeight(row, vy);
  }

  /** Every framebuffer index is where its own sprite row and column land. */
  lemma CoordsInverse(vx: Byte, vy: Byte, p: nat)
    requires p < VRAM_SIZE
    ensures RowOf(vy, p) < HEIGHT && ColOf(vx, p) < WIDTH
    ensures Pos(vx, vy, RowOf(vy, p), ColOf(vx, p)) == p
  {
    var c := p % WIDTH;
    var r := p / WIDTH;
    assert p == c + r * WIDTH;
    WrapWidth(c, vx);
    WrapHeight(r, vy);
  }

  /** The position, in drawing order, of the sprite bit that lands on `p`:
      rows top to bottom, eight bits per row. */
  function BitIndex(vx: Byte, vy: Byte, p: nat): nat {
    RowOf(vy, p) * 8 + ColOf(vx, p)
  }

  /** The framebuffer once the first `k` sprite bits, in drawing order, have
      been drawn: the state of the drawing loop. */
  function DrawnUpTo(vram: seq<Byte>, sprite: seq<Byte>, vx: Byte, vy: Byte, k: nat): (r: seq<Byte>)
    requires |vram| == VRAM_SIZE
    ensures |r| == VRAM_SIZE
  {
    seq(VRAM_SIZE, p requires 0 <= p < VRAM_SIZE =>
      if Hit(sprite, vx, vy, p) && BitIndex(vx, vy, p) < k then Xor(vram[p], 1) else vram[p])
  }

  /** One of the first `k` sprite bits hit a lit pixel. */
  predicate CollidesUpTo(vram: seq<Byte>, sprite: seq<Byte>, vx: Byte, vy: Byte, k: nat)
    requires |vram| == VRAM_SIZE
  {
    exists p :: 0 <= p < VRAM_SIZE && Hit(sprite, vx, vy, p) && BitIndex(vx, vy, p) < k && vram[p] == 1
  }

  /** Before any bit is drawn nothing has changed and nothing collided. */
  lemma DrawnNone(vram: seq<Byte>, sprite: seq<Byte>, vx: Byte, vy: Byte)
    requires |vram| == VRAM_SIZE
    ensures DrawnUpTo(vram, sprite, vx, vy, 0) == vram
    ensures !CollidesUpTo(vram, sprite, vx, vy, 0)
  {
  }

  /** Drawing bit `col` of row `row` (the bit with index `row * 8 + col`)
      touches only the pixel it lands on, which is still untouched, toggles it
      when the bit is set, and records a collision when that pixel was lit. */
  lemma DrawnStep(vram: seq<Byte>, sprite: seq<Byte>, vx: Byte, vy: Byte, row: nat, col: nat)
    requires |vram| == VRAM_SIZE
    requires row < |sprite| && row < HEIGHT && col < 8
    ensures Pos(vx, vy, row, col) < VRAM_SIZE
    ensures DrawnUpTo(vram, sprite, vx, vy, row * 8 + col)[Pos(vx, vy, row, col)] == vram[Pos(vx, vy, row, col)]
    ensures DrawnUpTo(vram, sprite, vx, vy, row * 8 + col + 1) ==
      DrawnUpTo(vram, sprite, vx, vy, row * 8 + col)[Pos(vx, vy, row, col) :=
        if Bit(sprite[row], col) then Xor(vram[Pos(vx, vy, row, col)], 1) else vram[Pos(vx, vy, row, col)]]
    ensures CollidesUpTo(vram, sprite, vx, vy, row * 8 + col + 1) <==>
      CollidesUpTo(vram, sprite, vx, vy, row * 8 + col) ||
      (Bit(sprite[row], col) && vram[Pos(vx, vy, row, col)] == 1)
  {
    PosInverse(vx, vy, row, col);
    DrawnStepVram(vram, sprite, vx, vy, row, col);
    DrawnStepCollides(vram, sprite, vx, vy, row, col);
  }

  /** Only the pixel under bit (`row`, `col`) has that bit's drawing index. */
  lemma BitIndexUnique(vx: Byte, vy: Byte, row: nat, col: nat, q: nat)
    requires row < HEIGHT && col < 8 && q < VRAM_SIZE && ColOf(vx, q) < 8
    requires BitIndex(vx, vy, q) == row * 8 + col
    ensures q == Pos(vx, vy, row, col)
  {
    CoordsInverse(vx, vy, q);
    assert RowOf(vy, q) == row && ColOf(vx, q) == col;
  }

  lemma DrawnStepVram(vram: seq<Byte>, sprite: seq<Byte>, vx: Byte, vy: Byte, row: nat, col: nat)
    requires |vram| == VRAM_SIZE
    requires row < |sprite| && row < HEIGHT && col < 8
    requires Pos(vx, vy, row, col) < VRAM_SIZE
    requires RowOf(vy, Pos(vx, vy, row, col)) == row && ColOf(vx, Pos(vx, vy, row, col)) == col
    ensures DrawnUpTo(vram, sprite, vx, vy, row * 8 + col)[Pos(vx, vy, row, col)] == vram[Pos(vx, vy, row, col)]
    ensures DrawnUpTo(vram, sprite, vx, vy, row * 8 + col + 1) ==
      DrawnUpTo(vram, sprite, vx, vy, row * 8 + col)[Pos(vx, vy, row, col) :=
        if Bit(sprite[row], col) then Xor(vram[Pos(vx, vy, row, col)], 1) else vram[Pos(vx, vy, row, col)]]
  {
    var k := row * 8 + col;
    var p := Pos(vx, vy, row, col);
    var before := DrawnUpTo(vram, sprite, vx, vy, k);
    var after := DrawnUpTo(vram, sprite, vx, vy, k + 1);
    assert BitIndex(vx, vy, p) == k;
    forall q | 0 <= q < VRAM_SIZE
      ensures after[q] == before[p := if Bit(sprite[row], col) then Xor(vram[p], 1) else vram[p]][q]
    {
      if q != p && Hit(sprite, vx, vy, q) && BitIndex(vx, vy, q) == k {
        BitIndexUnique(vx, vy, row, col, q);
      }
    }
  }

  lemma DrawnStepCollides(vram: seq<Byte>, sprite: seq<Byte>, vx: Byte, vy: Byte, row: nat, col: nat)
    requires |vram| == VRAM_SIZE
    requires row < |sprite| && row < HEIGHT && col < 8
    requires Pos(vx, vy, row, col) < VRAM_SIZE
    requires RowOf(vy, Pos(vx, vy, row, col)) == row && ColOf(vx, Pos(vx, vy, row, col)) == col
    ensures CollidesUpTo(vram, sprite, vx, vy, row * 8 + col + 1) <==>
      CollidesUpTo(vram, sprite, vx, vy, row * 8 + col) ||
      (Bit(sprite[row], col) && vram[Pos(vx, vy, row, col)] == 1)
  {
    var k := row * 8 + col;
    var p := Pos(vx, vy, row, col);
    assert BitIndex(vx, vy, p) == k;
    if CollidesUpTo(vram, sprite, vx, vy, k + 1) && !CollidesUpTo(vram, sprite, vx, vy, k) {
      var q :| 0 <= q < VRAM_SIZE && Hit(sprite, vx, vy, q) && BitIndex(vx, vy, q) < k + 1 && vram[q] == 1;
      BitIndexUnique(vx, vy, row, col, q);
    }
    if Bit(sprite[row], col) && vram[p] == 1 {
      assert Hit(sprite, vx, vy, p);
    }
  }

  /** Once every bit of every row is drawn, the loop has drawn the sprite and
      found exactly its collisions. */
  lemma DrawnAll(vram: seq<Byte>, sprite: seq<Byte>, vx: Byte, vy: Byte)
    requires |vram| == VRAM_SIZE
    ensures DrawnUpTo(vram, sprite, vx, vy, |sprite| * 8) == DrawSprite(vram, sprite, vx, vy)
    ensures CollidesUpTo(vram, sprite, vx, vy, |sprite| * 8) <==> Collides(vram, sprite, vx, vy)
  {
    forall p | 0 <= p < VRAM_SIZE && Hit(sprite, vx, vy, p)
      ensures BitIndex(vx, vy, p) < |sprite| * 8
    {
    }
  }

  /** The `height` sprite rows at `i`, as far as they lie in RAM. */
  function SpriteAt(ram: seq<Byte>, i: nat, height: nat): (s: seq<Byte>)
    ensures |s| == height
  {
    seq(height, row requires 0 <= row < height => if i + row < |ram| then ram[i + row] else 0)
  }

  /** DXYN: VX and VY are read first, VF is cleared, the sprite rows are read
      from I onwards, and VF ends as the collision flag. */
  function Draw(m: Machine, x: nat, y: nat, height: nat): Result<Machine>
    requires WellFormed(m) && x < REGISTER_COUNT && y < REGISTER_COUNT
  {
    var vx := m.regs.v[x];
    var vy := m.regs.v[y];
    var i := m.regs.i;
    if height > 0 && i + height > RAM_SIZE then Err(AddressOutOfRange(FirstInvalidAddr(i)))
    else
      var sprite := SpriteAt(m.ram, i, height);
      var flag := if Collides(m.vram, sprite, vx, vy) then 1 else 0;
      Ok(m.(vram := DrawSprite(m.vram, sprite, vx, vy),
            vramChanged := true,
            regs := SetV(m.regs, VF, flag)))
  }

  // Stepping.

  /** The lowest pressed key at or after `from`, or `|keys|` when none is. */
  function FirstPressed(keys: seq<bool>, from: nat): (k: nat)
    requires from <= |keys|
    ensures from <= k <= |keys|
    ensures k < |keys| ==> keys[k]
    ensures forall j :: from <= j < k ==> !keys[j]
    decreases |keys| - from
  {
    if from == |keys| then |keys|
    else if keys[from] then from
    else FirstPressed(keys, from + 1)
  }

  /** A waiting step: the lowest pressed key goes to the target register and
      ends the wait; with no key pressed nothing happens. */
  function PollKeypad(m: Machine): Machine
    requires WellFormed(m)
  {
    var k := FirstPressed(m.keypad.state, 0);
    if k < KEY_COUNT then
      m.(keypad := m.keypad.(waiting := false),
         regs := SetV(m.regs, m.keypad.register, k).(pc := m.regs.pc + 2))
    else m
  }

  /** The first thing every step does: clear the redraw flag and take the
      keypad snapshot. */
  function Latch(m: Machine, keys: seq<bool>): (r: Machine)
    requires WellFormed(m) && |keys| == KEY_COUNT
    ensures WellFormed(r) && r.keypad.state == keys && !r.vramChanged
    ensures r.(vramChanged := m.vramChanged, keypad := m.keypad) == m
    ensures r.keypad.waiting == m.keypad.waiting && r.keypad.register == m.keypad.register
  {
    m.(vramChanged := false, keypad := m.keypad.(state := keys))
  }

  /** `step`: clear the redraw flag, take the keypad snapshot, then either
      poll the keypad (while waiting) or fetch, advance the program counter
      by 2 and execute. `rnd` is the byte the random number generator yields
      for CXNN. */
  function Step(m: Machine, keys: seq<bool>, rnd: Byte): Result<Machine>
    requires WellFormed(m) && |keys| == KEY_COUNT
  {
    var m1 := Latch(m, keys);
    if m1.keypad.waiting then Ok(PollKeypad(m1))
    else
      match Fetch(m1)
      case Err(f) => Err(f)
      case Ok(op) => Execute(m1.(regs := m1.regs.(pc := m1.regs.pc + 2)), op, rnd)
  }

  /** `update_timers`: both timers count down and stop at zero. */
  function UpdateTimers(m: Machine): Machine {
    var r := m.regs;
    m.(regs := r.(delay := if r.delay > 0 then r.delay - 1 else 0,
                  sound := if r.sound > 0 then r.sound - 1 else 0))
  }

  /** `should_beep`. */
  predicate ShouldBeep(m: Machine) {
    m.regs.sound > 0
  }
}
