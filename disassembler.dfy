/** The web front end's disassembler: each opcode of a RAM image rendered as
    a mnemonic, and the whole program area rendered as one HTML fragment with
    one `<div>` per entry.

    `hexformat(value, width)` comes from a file that is not part of this
    model, so it is a parameter. The E family compares the string it returns
    with a number using JavaScript's `==`, which converts the string to a
    number first; that conversion is the second parameter. */
module Disassembler {
  import opened Bytes

  datatype Option<T> = None | Some(value: T)

  /** `hexformat(value, width)`. */
  type HexFormat = (nat, nat) -> string

  /** JavaScript's string-to-number conversion; `None` is NaN. */
  type ToNumber = string -> Option<int>

  /** The end of the listing: one past the last RAM address. */
  const END: nat := 0x1000

  /** The address `disassemble` starts at. */
  const LISTING_START: nat := 0x201

  /** `program[a]` as a bitwise operand: past the end of the array the
      element is `undefined`, which a shift or an or reads as 0. */
  function ByteAt(program: seq<Byte>, a: nat): Byte
  {
    if a < |program| then program[a] else 0
  }

  /** `(program[addr] << 8) | program[addr + 1]`: the big-endian word at
      `addr`. */
  function OpcodeAt(program: seq<Byte>, addr: nat): (op: Word)
    ensures op == ByteAt(program, addr) as int * 0x100 + ByteAt(program, addr + 1) as int
  {
    WordOf(ByteAt(program, addr), ByteAt(program, addr + 1))
  }

  // The field extractors.

  function Nnn(hex: HexFormat, op: Word): string { hex(op % 0x1000, 4) }   // opcode & 0x0fff
  function X(op: Word): nat { (op / 0x100) % 0x10 }                         // (opcode & 0x0f00) >> 8
  function Y(op: Word): nat { (op / 0x10) % 0x10 }                          // (opcode & 0x00f0) >> 4
  function Kk(hex: HexFormat, op: Word): string { hex(op % 0x100, 2) }     // opcode & 0x00ff
  function Nibble(op: Word): nat { op % 0x10 }                              // opcode & 0x000f

  function DigitChar(d: nat): (c: char)
    requires d < 10
  {
    ('0' as int + d) as char
  }

  /** A non-negative integer in a template literal: its decimal digits, no
      leading zero. */
  function Decimal(n: nat): (s: string)
    ensures |s| >= 1
    ensures forall k :: 0 <= k < |s| ==> '0' <= s[k] <= '9'
    decreases n
  {
    if n < 10 then [DigitChar(n)] else Decimal(n / 10) + [DigitChar(n % 10)]
  }

  /** Reading decimal digits back, for stating what `Decimal` writes. */
  function ParseDecimal(s: string): nat
    decreases |s|
  {
    if s == [] then 0
    else ParseDecimal(s[..|s| - 1]) * 10 + (if '0' <= s[|s| - 1] <= '9' then s[|s| - 1] as int - '0' as int else 0)
  }

  /** The decimal rendering reads back as the number it renders, so two
      different numbers never render alike. */
  lemma {:induction false} DecimalRoundTrip(n: nat)
    ensures ParseDecimal(Decimal(n)) == n
    decreases n
  {
    var s := Decimal(n);
    if n >= 10 {
      DecimalRoundTrip(n / 10);
      assert s[..|s| - 1] == Decimal(n / 10);
    }
  }

  /** `V${r}`: a register name, its number in decimal. */
  function Reg(r: nat): string { "V" + Decimal(r) }

  /** The mnemonic the `switch` of `disassembleAddr` selects; "-" when none. */
  function Mnemonic(hex: HexFormat, toNumber: ToNumber, op: Word): string {
    var x := Reg(X(op));
    var y := Reg(Y(op));
    match op / 0x1000
    case 0x0 => if op == 0x00E0 then "CLS" else if op == 0x00EE then "RET" else "-"
    case 0x1 => "JP " + Nnn(hex, op)
    case 0x2 => "CALL " + Nnn(hex, op)
    case 0x3 => "SE " + x + ", " + Kk(hex, op)
    case 0x4 => "SNE " + x + ", " + Kk(hex, op)
    case 0x5 => "SE " + x + ", " + y
    case 0x6 => "LD " + x + ", " + Kk(hex, op)
    case 0x7 => "ADD " + x + ", " + Kk(hex, op)
    case 0x8 =>
      (match Nibble(op)
       case 0x0 => "LD " + x + ", " + y
       case 0x1 => "OR " + x + ", " + y
       case 0x2 => "AND " + x + ", " + y
       case 0x3 => "XOR " + x + ", " + y
       case 0x4 => "ADD " + x + ", " + y
       case 0x5 => "SUB " + x + ", " + y
       case 0x6 => "SHR " + x + " {, " + y + "}"
       case 0x7 => "SUBN " + x + ", " + y
       case 0xE => "SHL " + x + " {, " + y + "}"
       case _ => "-")
    case 0x9 => "SNE " + x + ", " + y
    case 0xA => "LD I, " + Nnn(hex, op)
    case 0xB => "JP V0, " + Nnn(hex, op)
    case 0xC => "RND " + x + ", " + Kk(hex, op)
    case 0xD => "DRW " + x + ", " + Kk(hex, op) + ", " + hex(Nibble(op), 1)
    case 0xE =>
      if toNumber(Kk(hex, op)) == Some(0x9E) then "SKP " + x
      else if toNumber(Kk(hex, op)) == Some(0xA1) then "SKNP " + x
      else "-"
    case _ =>
      (match op % 0x100
       case 0x07 => "LD " + x + ", DT"
       case 0x0A => "LD " + x + ", K"
       case 0x15 => "LD DT, " + x
       case 0x18 => "LD ST, " + x
       case 0x1E => "ADD I, " + x
       case 0x29 => "LD F, " + x
       case 0x33 => "LD B, " + x
       case 0x55 => "LD [I], " + x
       case 0x65 => "LD " + x + ", [I]"
       case _ => "-")
  }

  /** `disassembleAddr(program, addr)`: a one-element array holding the
      mnemonic of the word at `addr`. */
  function DisassembleAddr(hex: HexFormat, toNumber: ToNumber, program: seq<Byte>, addr: nat): seq<string>
  {
    [Mnemonic(hex, toNumber, OpcodeAt(program, addr))]
  }

  /** The class name that marks the entry for `addr`. */
  function ClassName(addr: nat): string { "addr-" + Decimal(addr) }

  /** One line of the listing. */
  function Entry(hex: HexFormat, addr: nat, instr: string): string {
    "<div class=\"" + ClassName(addr) + "\">" + hex(addr, 4) + ": " + instr + "</div>"
  }

  /** How many of `a, a + 2, …` lie below the end of RAM. */
  function Count(a: nat): (n: nat)
    ensures a < END ==> a + 2 * (n - 1) < END <= a + 2 * n
    ensures a >= END ==> n == 0
  {
    if a >= END then 0 else (END - a + 1) / 2
  }

  /** `f(a), f(a + 2), …` for every such address below the end of RAM. */
  function EveryOther<T>(f: nat -> T, a: nat): seq<T>
  {
    seq(Count(a), k requires 0 <= k < Count(a) => f(a + 2 * k))
  }

  /** The entry `disassemble` pushes for each address. */
  function Line(hex: HexFormat, toNumber: ToNumber, ram: seq<Byte>): nat -> string {
    (addr: nat) => Entry(hex, addr, DisassembleAddr(hex, toNumber, ram, addr)[0])
  }

  /** The entries `disassemble` builds, before they are joined. */
  function Listing(hex: HexFormat, toNumber: ToNumber, ram: seq<Byte>): seq<string> {
    EveryOther(Line(hex, toNumber, ram), LISTING_START)
  }

  /** `lines.join("")`. */
  function Join(lines: seq<string>): string
    decreases |lines|
  {
    if lines == [] then "" else Join(lines[..|lines| - 1]) + lines[|lines| - 1]
  }

  /** The loop of `disassemble`: from `start` on, push the entry for every
      second address below the end of RAM. */
  method PushEntries<T>(entry: nat -> T, start: nat) returns (lines: seq<T>)
    ensures lines == EveryOther(entry, start)
  {
    lines := [];
    var addr := start;
    while addr < END
      invariant addr == start + 2 * |lines|
      invariant |lines| <= Count(start)
      invariant addr < END ==> |lines| < Count(start)
      invariant forall k :: 0 <= k < |lines| ==> lines[k] == entry(start + 2 * k)
      decreases END - addr
    {
      lines := lines + [entry(addr)];
      addr := addr + 2;
    }
  }

  /** `disassemble(ram)`: the entries from 0x201 on, joined. */
  method Disassemble(hex: HexFormat, toNumber: ToNumber, ram: seq<Byte>) returns (html: string)
    ensures html == Join(Listing(hex, toNumber, ram))
  {
    var lines := PushEntries(Line(hex, toNumber, ram), LISTING_START);
    html := Join(lines);
  }
}
