/** Which opcodes the CPU executes, as a table of opcode patterns, and which
    of them ask for a redraw. */
module DecodeProps {
  import opened Bytes
  import opened Mmu
  import opened Semantics
  import opened SemanticsProps

  /** Nibble `k` of an opcode, counting from the most significant. */
  function NibbleAt(op: Word, k: nat): (d: nat)
    requires k < 4
    ensures d < 0x10
  {
    if k == 0 then op / 0x1000
    else if k == 1 then (op / 0x100) % 0x10
    else if k == 2 then (op / 0x10) % 0x10
    else op % 0x10
  }

  /** One position of an opcode pattern: a fixed nibble or any nibble. */
  datatype Nib = Any | Is(d: nat)

  /** A four-nibble opcode pattern, most significant nibble first, as opcode
      tables write them (`8XY4` is `8..4`). */
  datatype Pattern = Pattern(n0: Nib, n1: Nib, n2: Nib, n3: Nib)

  predicate Fits(p: Nib, d: nat) {
    p.Any? || p.d == d
  }

  predicate Matches(op: Word, p: Pattern) {
    && Fits(p.n0, NibbleAt(op, 0)) && Fits(p.n1, NibbleAt(op, 1))
    && Fits(p.n2, NibbleAt(op, 2)) && Fits(p.n3, NibbleAt(op, 3))
  }

  /** `f...`: a whole family. */
  function Fam(f: nat): Pattern { Pattern(Is(f), Any, Any, Any) }

  /** `f..n`: a family and its last nibble. */
  function Last(f: nat, n: nat): Pattern { Pattern(Is(f), Any, Any, Is(n)) }

  /** `f.hl`: a family and its low byte. */
  function Low(f: nat, h: nat, l: nat): Pattern { Pattern(Is(f), Any, Is(h), Is(l)) }

  /** The 34 opcode patterns the CPU executes, as the source decodes them:
      family 0 looks at the last nibble only and 5XY? and 9XY? at none. */
  const EXECUTED: set<Pattern> := {
    Last(0x0, 0x0), Last(0x0, 0xE),
    Fam(0x1), Fam(0x2), Fam(0x3), Fam(0x4), Fam(0x5), Fam(0x6), Fam(0x7),
    Last(0x8, 0x0), Last(0x8, 0x1), Last(0x8, 0x2), Last(0x8, 0x3), Last(0x8, 0x4),
    Last(0x8, 0x5), Last(0x8, 0x6), Last(0x8, 0x7), Last(0x8, 0xE),
    Fam(0x9), Fam(0xA), Fam(0xB), Fam(0xC), Fam(0xD),
    Low(0xE, 0x9, 0xE), Low(0xE, 0xA, 0x1),
    Low(0xF, 0x0, 0x7), Low(0xF, 0x0, 0xA), Low(0xF, 0x1, 0x5), Low(0xF, 0x1, 0x8), Low(0xF, 0x1, 0xE),
    Low(0xF, 0x2, 0x9), Low(0xF, 0x3, 0x3), Low(0xF, 0x5, 0x5), Low(0xF, 0x6, 0x5)
  }

  predicate Listed(op: Word) {
    exists p :: p in EXECUTED && Matches(op, p)
  }

  /** The decoding `execute` and its `op_*` helpers perform, family by
      family: the shape the table above lists. */
  predicate Decoded(op: Word) {
    match Family(op)
    case 0x0 => N(op) == 0x0 || N(op) == 0xE
    case 0x8 => N(op) <= 0x7 || N(op) == 0xE
    case 0xE => NN(op) == 0x9E || NN(op) == 0xA1
    case 0xF => NN(op) in {0x07, 0x0A, 0x15, 0x18, 0x1E, 0x29, 0x33, 0x55, 0x65}
    case _ => true
  }

  lemma UnsupportedExactlyUndecoded(m: Machine, op: Word, rnd: Byte)
    requires WellFormed(m)
    ensures Execute(m, op, rnd) == Err(UnsupportedOpcode(op, m.regs.pc)) <==> !Decoded(op)
  {
  }

  /** The pattern of the table that an opcode with first nibble `f`, third
      nibble `h` and last nibble `n` fits. */
  function Witness(f: nat, h: nat, n: nat): Pattern {
    if f == 0x0 || f == 0x8 then Last(f, n)
    else if f == 0xE || f == 0xF then Low(f, h, n)
    else Fam(f)
  }

  lemma WitnessListed(f: nat, h: nat, n: nat)
    requires f < 0x10 && h < 0x10 && n < 0x10 && DecodedNibbles(f, h, n)
    ensures Witness(f, h, n) in EXECUTED
  {
    if f == 0x0 {
      if n == 0x0 { assert Last(0x0, 0x0) in EXECUTED; }
      else { assert Last(0x0, 0xE) in EXECUTED; }
    } else if f == 0x8 {
      WitnessListed8(n);
    } else if f == 0xE {
      if h == 0x9 { assert Low(0xE, 0x9, 0xE) in EXECUTED; }
      else { assert Low(0xE, 0xA, 0x1) in EXECUTED; }
    } else if f == 0xF {
      WitnessListedF(h, n);
    } else {
      WitnessListedFam(f);
    }
  }

  lemma WitnessListed8(n: nat)
    requires n <= 0x7 || n == 0xE
    ensures Last(0x8, n) in EXECUTED
  {
    if n == 0x0 { assert Last(0x8, 0x0) in EXECUTED; }
    else if n == 0x1 { assert Last(0x8, 0x1) in EXECUTED; }
    else if n == 0x2 { assert Last(0x8, 0x2) in EXECUTED; }
    else if n == 0x3 { assert Last(0x8, 0x3) in EXECUTED; }
    else if n == 0x4 { assert Last(0x8, 0x4) in EXECUTED; }
    else if n == 0x5 { assert Last(0x8, 0x5) in EXECUTED; }
    else if n == 0x6 { assert Last(0x8, 0x6) in EXECUTED; }
    else if n == 0x7 { assert Last(0x8, 0x7) in EXECUTED; }
    else { assert Last(0x8, 0xE) in EXECUTED; }
  }

  lemma WitnessListedF(h: nat, n: nat)
    requires h < 0x10 && n < 0x10
    requires h * 0x10 + n in {0x07, 0x0A, 0x15, 0x18, 0x1E, 0x29, 0x33, 0x55, 0x65}
    ensures Low(0xF, h, n) in EXECUTED
  {
    var b := h * 0x10 + n;
    assert h == b / 0x10 && n == b % 0x10;
    if b == 0x07 { assert Low(0xF, 0x0, 0x7) in EXECUTED; }
    else if b == 0x0A { assert Low(0xF, 0x0, 0xA) in EXECUTED; }
    else if b == 0x15 { assert Low(0xF, 0x1, 0x5) in EXECUTED; }
    else if b == 0x18 { assert Low(0xF, 0x1, 0x8) in EXECUTED; }
    else if b == 0x1E { assert Low(0xF, 0x1, 0xE) in EXECUTED; }
    else if b == 0x29 { assert Low(0xF, 0x2, 0x9) in EXECUTED; }
    else if b == 0x33 { assert Low(0xF, 0x3, 0x3) in EXECUTED; }
    else if b == 0x55 { assert Low(0xF, 0x5, 0x5) in EXECUTED; }
    else { assert Low(0xF, 0x6, 0x5) in EXECUTED; }
  }

  lemma WitnessListedFam(f: nat)
    requires f < 0x10 && f !in {0x0, 0x8, 0xE, 0xF}
    ensures Fam(f) in EXECUTED
  {
    if f == 0x1 { assert Fam(0x1) in EXECUTED; }
    else if f == 0x2 { assert Fam(0x2) in EXECUTED; }
    else if f == 0x3 { assert Fam(0x3) in EXECUTED; }
    else if f == 0x4 { assert Fam(0x4) in EXECUTED; }
    else if f == 0x5 { assert Fam(0x5) in EXECUTED; }
    else if f == 0x6 { assert Fam(0x6) in EXECUTED; }
    else if f == 0x7 { assert Fam(0x7) in EXECUTED; }
    else if f == 0x9 { assert Fam(0x9) in EXECUTED; }
    else if f == 0xA { assert Fam(0xA) in EXECUTED; }
    else if f == 0xB { assert Fam(0xB) in EXECUTED; }
    else if f == 0xC { assert Fam(0xC) in EXECUTED; }
    else { assert Fam(0xD) in EXECUTED; }
  }

  lemma DecodedIsListed(op: Word)
    requires Decoded(op)
    ensures Listed(op)
  {
    var f, h, n := NibbleAt(op, 0), NibbleAt(op, 2), NibbleAt(op, 3);
    DecodedAsNibbles(op);
    WitnessListed(f, h, n);
    var p := Witness(f, h, n);
    assert Matches(op, p);
  }

  /** `Decoded`, read off the first, third and last nibble. */
  predicate DecodedNibbles(f: nat, h: nat, n: nat) {
    if f == 0x0 then n == 0x0 || n == 0xE
    else if f == 0x8 then n <= 0x7 || n == 0xE
    else if f == 0xE then (h == 0x9 && n == 0xE) || (h == 0xA && n == 0x1)
    else if f == 0xF then h * 0x10 + n in {0x07, 0x0A, 0x15, 0x18, 0x1E, 0x29, 0x33, 0x55, 0x65}
    else f < 0x10
  }

  lemma NibbleFields(op: Word)
    ensures NibbleAt(op, 0) == Family(op) && NibbleAt(op, 3) == N(op)
    ensures NN(op) == NibbleAt(op, 2) * 0x10 + N(op)
  {
    LowByteFields(op);
    assert NibbleAt(op, 2) == Y(op);
  }

  lemma DecodedAsNibbles(op: Word)
    ensures Decoded(op) <==> DecodedNibbles(NibbleAt(op, 0), NibbleAt(op, 2), NibbleAt(op, 3))
  {
    NibbleFields(op);
    var f, h, n := Family(op), NibbleAt(op, 2), N(op);
    assert f < 0x10;
    if f == 0xE {
      assert NN(op) == 0x9E <==> h == 0x9 && n == 0xE;
      assert NN(op) == 0xA1 <==> h == 0xA && n == 0x1;
    }
  }

  lemma PatternDecoded(p: Pattern, f: nat, g: nat, h: nat, n: nat)
    requires p in EXECUTED && Fits(p.n0, f) && Fits(p.n1, g) && Fits(p.n2, h) && Fits(p.n3, n)
    ensures DecodedNibbles(f, h, n)
  {
  }

  lemma ListedIsDecoded(op: Word)
    requires Listed(op)
    ensures Decoded(op)
  {
    var p :| p in EXECUTED && Matches(op, p);
    PatternDecoded(p, NibbleAt(op, 0), NibbleAt(op, 1), NibbleAt(op, 2), NibbleAt(op, 3));
    DecodedAsNibbles(op);
  }

  /** An opcode is reported as unsupported exactly when it fits no pattern of
      the table; every other fault is of a different kind. */
  lemma UnsupportedExactlyUnlisted(m: Machine, op: Word, rnd: Byte)
    requires WellFormed(m)
    ensures Execute(m, op, rnd) == Err(UnsupportedOpcode(op, m.regs.pc)) <==> !Listed(op)
  {
    UnsupportedExactlyUndecoded(m, op, rnd);
    if Decoded(op) {
      DecodedIsListed(op);
    }
    if Listed(op) {
      ListedIsDecoded(op);
    }
  }

  /** After a successful step the redraw flag is set exactly when the step
      executed a screen clear (any 0NN0) or a sprite draw. */
  lemma RedrawExactlyAfterClearOrDraw(m: Machine, keys: seq<bool>, rnd: Byte)
    requires WellFormed(m) && |keys| == KEY_COUNT
    ensures Step(m, keys, rnd).Ok? ==>
      (Step(m, keys, rnd).value.vramChanged <==>
        && !m.keypad.waiting
        && m.regs.pc + 1 < RAM_SIZE
        && var op := WordAt(m.ram, m.regs.pc);
           (Family(op) == 0x0 && N(op) == 0x0) || Family(op) == 0xD)
  {
    if !m.keypad.waiting && m.regs.pc + 1 < RAM_SIZE {
      StepExecutes(m, keys, rnd);
      var op := WordAt(m.ram, m.regs.pc);
      ExecuteScreen(Advance(m, keys), op, rnd);
      assert TouchesScreen(op) <==> (Family(op) == 0x0 && N(op) == 0x0) || Family(op) == 0xD;
    }
  }
}
