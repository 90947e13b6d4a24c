/** What XOR sprite drawing guarantees: which pixels change, when VF reports
    a collision, and that drawing twice erases. */
module DisplayProps {
  import opened Bytes
  import opened Mmu
  import opened Semantics

  /** Sprite bit (`row`, `col`) is set and lands on pixel `p`. */
  predicate Covers(sprite: seq<Byte>, vx: Byte, vy: Byte, row: nat, col: nat, p: nat) {
    row < |sprite| && col < 8 && Bit(sprite[row], col) && Pos(vx, vy, row, col) == p
  }

  /** Drawing toggles the pixel under each set bit of each row, at
      ((VX + col) mod 64, (VY + row) mod 32), and leaves it alone under a clear
      bit. */
  lemma DrawTogglesUnderSetBits(vram: seq<Byte>, sprite: seq<Byte>, vx: Byte, vy: Byte, row: nat, col: nat)
    requires |vram| == VRAM_SIZE && row < |sprite| && row < HEIGHT && col < 8
    ensures Pos(vx, vy, row, col) < VRAM_SIZE
    ensures Pos(vx, vy, row, col) == (vx + col) % WIDTH + ((vy + row) % HEIGHT) * WIDTH
    ensures DrawSprite(vram, sprite, vx, vy)[Pos(vx, vy, row, col)] ==
      if Bit(sprite[row], col) then Xor(vram[Pos(vx, vy, row, col)], 1) else vram[Pos(vx, vy, row, col)]
  {
    PosInverse(vx, vy, row, col);
  }

  /** A pixel changes exactly when some set sprite bit lands on it. */
  lemma DrawChangesExactlyCovered(vram: seq<Byte>, sprite: seq<Byte>, vx: Byte, vy: Byte, p: nat)
    requires |vram| == VRAM_SIZE && |sprite| <= HEIGHT && p < VRAM_SIZE
    ensures DrawSprite(vram, sprite, vx, vy)[p] != vram[p] <==>
      exists row, col :: Covers(sprite, vx, vy, row, col, p)
  {
    if DrawSprite(vram, sprite, vx, vy)[p] != vram[p] {
      CoordsInverse(vx, vy, p);
      assert Covers(sprite, vx, vy, RowOf(vy, p), ColOf(vx, p), p);
    }
    if exists row, col :: Covers(sprite, vx, vy, row, col, p) {
      var row, col :| Covers(sprite, vx, vy, row, col, p);
      PosInverse(vx, vy, row, col);
      XorOneDiffers(vram[p]);
    }
  }

  /** Drawing reports a collision exactly when some set sprite bit lands on a
      lit pixel. */
  lemma CollisionExactlyOnLitPixel(vram: seq<Byte>, sprite: seq<Byte>, vx: Byte, vy: Byte)
    requires |vram| == VRAM_SIZE && |sprite| <= HEIGHT
    ensures Collides(vram, sprite, vx, vy) <==>
      exists row, col :: Covers(sprite, vx, vy, row, col, Pos(vx, vy, row, col)) && vram[Pos(vx, vy, row, col)] == 1
  {
    if Collides(vram, sprite, vx, vy) {
      var p :| 0 <= p < VRAM_SIZE && Hit(sprite, vx, vy, p) && vram[p] == 1;
      CoordsInverse(vx, vy, p);
      assert Covers(sprite, vx, vy, RowOf(vy, p), ColOf(vx, p), Pos(vx, vy, RowOf(vy, p), ColOf(vx, p)));
    }
    if exists row, col :: Covers(sprite, vx, vy, row, col, Pos(vx, vy, row, col)) && vram[Pos(vx, vy, row, col)] == 1 {
      var row, col :| Covers(sprite, vx, vy, row, col, Pos(vx, vy, row, col)) && vram[Pos(vx, vy, row, col)] == 1;
      PosInverse(vx, vy, row, col);
      assert Hit(sprite, vx, vy, Pos(vx, vy, row, col));
    }
  }

  /** Drawing the same sprite at the same place twice restores the screen. */
  lemma DrawTwiceRestores(vram: seq<Byte>, sprite: seq<Byte>, vx: Byte, vy: Byte)
    requires |vram| == VRAM_SIZE
    ensures DrawSprite(DrawSprite(vram, sprite, vx, vy), sprite, vx, vy) == vram
  {
    var once := DrawSprite(vram, sprite, vx, vy);
    forall p | 0 <= p < VRAM_SIZE
      ensures DrawSprite(once, sprite, vx, vy)[p] == vram[p]
    {
      XorOneInvolutive(vram[p]);
    }
  }

  /** On a blank screen the first drawing never collides, and drawing the
      same sprite again collides exactly when the sprite has a set bit. */
  lemma SecondDrawCollides(sprite: seq<Byte>, vx: Byte, vy: Byte)
    requires |sprite| <= HEIGHT
    ensures !Collides(Zeros(VRAM_SIZE), sprite, vx, vy)
    ensures Collides(DrawSprite(Zeros(VRAM_SIZE), sprite, vx, vy), sprite, vx, vy) <==>
      exists row: nat, col: nat :: row < |sprite| && col < 8 && Bit(sprite[row], col)
  {
    var once := DrawSprite(Zeros(VRAM_SIZE), sprite, vx, vy);
    XorOneOfFlag(0);
    if exists row: nat, col: nat :: row < |sprite| && col < 8 && Bit(sprite[row], col) {
      var row: nat, col: nat :| row < |sprite| && col < 8 && Bit(sprite[row], col);
      PosInverse(vx, vy, row, col);
      var p := Pos(vx, vy, row, col);
      assert Hit(sprite, vx, vy, p) && once[p] == 1;
    }
    if Collides(once, sprite, vx, vy) {
      var p :| 0 <= p < VRAM_SIZE && Hit(sprite, vx, vy, p) && once[p] == 1;
      assert Bit(sprite[RowOf(vy, p)], ColOf(vx, p));
    }
  }

  /** DXYN faults exactly when the sprite rows run past the end of RAM.
      Otherwise it draws the N bytes at I at the position held in VX and VY
      before VF was cleared, sets VF to the collision flag and the redraw
      flag, and changes nothing else. */
  lemma DrawOpcode(m: Machine, op: Word, rnd: Byte)
    requires WellFormed(m) && Family(op) == 0xD
    ensures Execute(m, op, rnd).Ok? <==> N(op) == 0 || m.regs.i + N(op) <= RAM_SIZE
    ensures Execute(m, op, rnd).Err? ==>
      Execute(m, op, rnd).fault == AddressOutOfRange(FirstInvalidAddr(m.regs.i))
    ensures Execute(m, op, rnd).Ok? ==>
      var r := Execute(m, op, rnd).value;
      var sprite := if N(op) == 0 then [] else m.ram[m.regs.i..m.regs.i + N(op)];
      var flag := if Collides(m.vram, sprite, m.regs.v[X(op)], m.regs.v[Y(op)]) then 1 else 0;
      r == m.(vram := DrawSprite(m.vram, sprite, m.regs.v[X(op)], m.regs.v[Y(op)]),
              vramChanged := true,
              regs := m.regs.(v := m.regs.v[VF := flag]))
  {
    if N(op) > 0 && m.regs.i + N(op) <= RAM_SIZE {
      assert SpriteAt(m.ram, m.regs.i, N(op)) == m.ram[m.regs.i..m.regs.i + N(op)];
    }
  }
}
