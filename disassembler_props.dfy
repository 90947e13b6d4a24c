/** What the disassembler's listing looks like, and how its mnemonics line up
    with the opcodes the CPU executes. */
module DisassemblerProps {
  import opened Bytes
  import opened Disassembler
  import S = Semantics
  import D = DecodeProps

  // ---------------------------------------------------------------------
  // The listing

  /** The listing has 1792 entries; entry `k` describes the word at
      `0x201 + 2k`, so the addresses are the odd ones from 0x201 to 0xFFF, in
      increasing order. */
  lemma ListingShape(hex: HexFormat, toNumber: ToNumber, ram: seq<Byte>)
    ensures |Listing(hex, toNumber, ram)| == 1792
    ensures forall k :: 0 <= k < 1792 ==>
      Listing(hex, toNumber, ram)[k] == Entry(hex, LISTING_START + 2 * k, Mnemonic(hex, toNumber, OpcodeAt(ram, LISTING_START + 2 * k)))
  {
  }

  /** Two entries carry the same class name exactly when they are for the
      same address. */
  lemma ClassNameInjective(a: nat, b: nat)
    ensures ClassName(a) == ClassName(b) <==> a == b
  {
    if ClassName(a) == ClassName(b) {
      assert Decimal(a) == ClassName(a)[5..];
      assert Decimal(b) == ClassName(b)[5..];
      DecimalRoundTrip(a);
      DecimalRoundTrip(b);
    }
  }

  /** No entry of the listing is marked with an even address, so a lookup of
      the entry for an even program counter finds none. */
  lemma EvenAddressNotListed(hex: HexFormat, toNumber: ToNumber, ram: seq<Byte>, pc: nat, k: nat)
    requires pc % 2 == 0 && k < 1792
    ensures ClassName(pc) != ClassName(LISTING_START + 2 * k)
  {
    ClassNameInjective(pc, LISTING_START + 2 * k);
  }

  // ---------------------------------------------------------------------
  // Mnemonics

  /** In family 0 only the exact opcodes 00E0 and 00EE are named. */
  lemma MnemonicFamily0(hex: HexFormat, toNumber: ToNumber, op: Word)
    requires op < 0x1000
    ensures Mnemonic(hex, toNumber, op) == "CLS" <==> op == 0x00E0
    ensures Mnemonic(hex, toNumber, op) == "RET" <==> op == 0x00EE
    ensures Mnemonic(hex, toNumber, op) == "-" <==> op != 0x00E0 && op != 0x00EE
  {
    assert "CLS" != "-" && "RET" != "-" && "CLS" != "RET" by {
      assert "CLS"[0] != "-"[0] && "RET"[0] != "-"[0] && "CLS"[0] != "RET"[0];
    }
  }

  /** The CPU decodes more of family 0 than the disassembler names: 0120
      clears the screen but is shown as "-". */
  lemma Family0NamesFewer(hex: HexFormat, toNumber: ToNumber)
    ensures D.Decoded(0x0120) && Mnemonic(hex, toNumber, 0x0120) == "-"
  {
  }

  /** Outside families 0 and E, the mnemonic is "-" exactly when the CPU
      does not decode the opcode. */
  lemma DashExactlyUndecoded(hex: HexFormat, toNumber: ToNumber, op: Word)
    requires op / 0x1000 != 0 && op / 0x1000 != 0xE
    ensures Mnemonic(hex, toNumber, op) == "-" <==> !D.Decoded(op)
  {
    var x := Reg(X(op));
    var y := Reg(Y(op));
    var f := op / 0x1000;
    assert S.Family(op) == f && S.N(op) == Nibble(op) && S.NN(op) == op % 0x100;
    if f == 0x8 {
      if Nibble(op) <= 7 || Nibble(op) == 0xE {
        assert |Mnemonic(hex, toNumber, op)| >= 3;
      }
    } else if f == 0xF {
      if op % 0x100 in {0x07, 0x0A, 0x15, 0x18, 0x1E, 0x29, 0x33, 0x55, 0x65} {
        assert |Mnemonic(hex, toNumber, op)| >= 3;
      }
    } else {
      assert |Mnemonic(hex, toNumber, op)| >= 3;
    }
  }

  /** In family 8 the low nibble chooses the mnemonic: 0-7 and E are named,
      8-D and F are shown as "-". */
  lemma MnemonicFamily8(hex: HexFormat, toNumber: ToNumber, op: Word)
    requires op / 0x1000 == 0x8
    ensures Mnemonic(hex, toNumber, op) == "-" <==> 8 <= Nibble(op) <= 0xD || Nibble(op) == 0xF
  {
    DashExactlyUndecoded(hex, toNumber, op);
  }

  /** In family F the low byte chooses the mnemonic, from 07, 0A, 15, 18,
      1E, 29, 33, 55 and 65; any other low byte is shown as "-". */
  lemma MnemonicFamilyF(hex: HexFormat, toNumber: ToNumber, op: Word)
    requires op / 0x1000 == 0xF
    ensures Mnemonic(hex, toNumber, op) == "-" <==> op % 0x100 !in {0x07, 0x0A, 0x15, 0x18, 0x1E, 0x29, 0x33, 0x55, 0x65}
  {
    DashExactlyUndecoded(hex, toNumber, op);
    assert S.NN(op) == op % 0x100;
  }

  /** Outside families 0 and E, an opcode is shown as "-" exactly when the
      CPU stops on it as unsupported. */
  lemma DashExactlyUnsupported(hex: HexFormat, toNumber: ToNumber, m: S.Machine, op: Word, rnd: Byte)
    requires S.WellFormed(m)
    requires op / 0x1000 != 0 && op / 0x1000 != 0xE
    ensures Mnemonic(hex, toNumber, op) == "-"
        <==> S.Execute(m, op, rnd) == S.Err(S.UnsupportedOpcode(op, m.regs.pc))
  {
    DashExactlyUndecoded(hex, toNumber, op);
    D.UnsupportedExactlyUndecoded(m, op, rnd);
  }

  /** In family E the key-skip mnemonics are chosen by reading the formatted
      low byte back as a number; when that reading gives back the low byte,
      the disassembler and the CPU agree on which E opcodes exist. */
  lemma FamilyEAgreesWhenHexReadsBack(hex: HexFormat, toNumber: ToNumber, m: S.Machine, op: Word, rnd: Byte)
    requires S.WellFormed(m)
    requires op / 0x1000 == 0xE
    requires toNumber(hex(op % 0x100, 2)) == Some(op % 0x100)
    ensures Mnemonic(hex, toNumber, op) == "-"
        <==> S.Execute(m, op, rnd) == S.Err(S.UnsupportedOpcode(op, m.regs.pc))
  {
    D.UnsupportedExactlyUndecoded(m, op, rnd);
    assert S.Family(op) == 0xE && S.NN(op) == op % 0x100;
    if op % 0x100 == 0x9E || op % 0x100 == 0xA1 {
      assert |Mnemonic(hex, toNumber, op)| >= 4;
    }
  }

  /** Families 1, 2, A and B show, as four hex digits, the address the CPU
      then uses: the new program counter for JP and CALL (when the stack has
      room), the new index register for LD I, and the new program counter
      less V0 for JP V0. */
  lemma AddressOperand(hex: HexFormat, toNumber: ToNumber, m: S.Machine, op: Word, rnd: Byte)
    requires S.WellFormed(m) && op / 0x1000 in {0x1, 0x2, 0xA, 0xB}
    ensures op / 0x1000 == 0x1 ==>
      S.Execute(m, op, rnd).Ok?
      && Mnemonic(hex, toNumber, op) == "JP " + hex(S.Execute(m, op, rnd).value.regs.pc, 4)
    ensures op / 0x1000 == 0x2 && m.regs.sp < S.STACK_SIZE ==>
      S.Execute(m, op, rnd).Ok?
      && Mnemonic(hex, toNumber, op) == "CALL " + hex(S.Execute(m, op, rnd).value.regs.pc, 4)
    ensures op / 0x1000 == 0xA ==>
      S.Execute(m, op, rnd).Ok?
      && Mnemonic(hex, toNumber, op) == "LD I, " + hex(S.Execute(m, op, rnd).value.regs.i, 4)
    ensures op / 0x1000 == 0xB ==>
      S.Execute(m, op, rnd).Ok?
      && S.Execute(m, op, rnd).value.regs.pc >= m.regs.v[0]
      && Mnemonic(hex, toNumber, op) == "JP V0, " + hex(S.Execute(m, op, rnd).value.regs.pc - m.regs.v[0], 4)
  {
    assert S.Family(op) == op / 0x1000 && S.NNN(op) == op % 0x1000;
  }

  /** The word the listing shows at an address is the word the CPU fetches
      there. */
  lemma OpcodeMatchesFetch(m: S.Machine)
    requires S.WellFormed(m) && m.regs.pc + 1 < END
    ensures S.Fetch(m).Ok? && OpcodeAt(m.ram, m.regs.pc) == S.Fetch(m).value
  {
  }

  /** The listing's last entry, at 0xFFF, reads one byte past the end of
      RAM: its low byte is taken as 0, where the CPU faults instead. */
  lemma LastEntryReadsPastEnd(hex: HexFormat, toNumber: ToNumber, m: S.Machine)
    requires S.WellFormed(m) && m.regs.pc == 0xFFF
    ensures OpcodeAt(m.ram, 0xFFF) == m.ram[0xFFF] as int * 0x100
    ensures Listing(hex, toNumber, m.ram)[1791]
         == Entry(hex, 0xFFF, Mnemonic(hex, toNumber, m.ram[0xFFF] as int * 0x100))
    ensures S.Fetch(m).Err?
  {
    ListingShape(hex, toNumber, m.ram);
  }

  /** DRW shows the whole low byte (Y and N together) as its second operand,
      not the register Vy the CPU draws at. */
  lemma DrawOperands(hex: HexFormat, toNumber: ToNumber, op: Word)
    requires op / 0x1000 == 0xD
    ensures Mnemonic(hex, toNumber, op)
         == "DRW " + Reg(S.X(op)) + ", " + hex(S.Y(op) * 0x10 + S.N(op), 2) + ", " + hex(S.N(op), 1)
  {
    S.LowByteFields(op);
    assert Kk(hex, op) == hex(S.Y(op) * 0x10 + S.N(op), 2);
    assert Reg(X(op)) == Reg(S.X(op)) && Nibble(op) == S.N(op);
  }
}
