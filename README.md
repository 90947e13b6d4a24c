# CHIP-8 interpreter core, modelled in Dafny

This project models the core of a CHIP-8 interpreter written in Rust, together
with the opcode disassembler of its web front end, which is written in
JavaScript.

- **Memory unit (`MMU`).** 4 KiB of RAM. Reset clears the RAM, places the
  80-byte hexadecimal font at 0x050 and copies the program image to 0x200. The
  unit offers byte reads and writes and a big-endian word read.
- **Processor (`CPU`).** It holds:
  - sixteen 8-bit registers V0–VF, the index I, the program counter, the stack
    pointer, and the delay and sound timers;
  - a 16-entry return stack;
  - a 64×32 framebuffer of 0/1 bytes, stored row-major;
  - the keypad snapshot and the FX0A key-wait state.

  A `step` either polls the keypad while FX0A waits, or fetches the word at
  the program counter, moves the counter past it and executes it.
- **Interpreter facade.** It owns the processor, latches the host's keypad
  snapshot, and forwards stepping, timers, queries and reset.
- **Disassembler.** It renders each opcode of a RAM image as a mnemonic. It also
  renders the program area as one HTML fragment, with one `<div>` per entry.

The model has three layers:

- `Semantics` states the effect of each operation as pure functions on a
  `Machine` value: `Execute`, `Op8xy`, `OpEx`, `OpFx`, `Draw`, `PollKeypad`,
  `Step` and `UpdateTimers`.
  - Where the Rust code panics, these functions return an explicit `Fault`
    instead: an unsupported opcode, a RAM index at or past 0x1000, stack
    overflow or underflow, or a key index above 15.
- The classes `Mmu.MMU`, `Cpu.CPU` and `Chip8.Interpreter` are imperative,
  like the source. They use arrays for the RAM, the framebuffer and the stack,
  and in-place updates of the registers and the keypad. Each method is proved
  to have exactly the effect of its `Semantics` function.
- The `*Props` modules prove what the semantics guarantees. This includes:
  - the memory map after reset;
  - the key-wait state machine;
  - the program-counter effect of skips;
  - every arithmetic flag rule;
  - XOR drawing and collisions;
  - calls and returns, BCD, and the bulk register transfers;
  - the timers;
  - an opcode table that is exactly the set of opcodes the CPU accepts.

The disassembler is modelled as functions plus the loop of `disassemble`.
Some properties tie its mnemonics to the processor's decoder:

- The disassembler names fewer family-0 opcodes than the CPU executes.
- Outside families 0 and E, it shows "-" exactly for the opcodes the CPU
  rejects.
- Its listing starts at the odd address 0x201. So every entry is marked with an
  odd address, and no entry matches an even program counter. The front end
  looks entries up by the program counter (`web/chip8/index.js:94`).

## Model

| member | source | states |
|---|---|---|
| `Mmu.ResetLayout` | src/chip8/mmu.rs:31-61 | After a reset, RAM is 4096 bytes. It holds font byte `a - 0x050` at 0x050..0x09F and ROM byte `a - 0x200` at 0x200..0x200+\|rom\|. Every other byte is zero. |
| `Mmu.FillAt` | src/chip8/mmu.rs:54-60 | A copy loop puts byte `a - base` of its data at every address `a` it covers and leaves every other address as it was. |
| `Mmu.FillSnoc` | src/chip8/mmu.rs:55 | One more iteration of a copy loop is one more single-byte write on top of the previous iterations. |
| `Mmu.MMU.constructor` | src/chip8/mmu.rs:17-24 | The new unit stores the image, and its RAM is the reset memory map of that image. |
| `Mmu.MMU.LoadRom` | src/chip8/mmu.rs:26-29 | Afterwards the unit holds the new image and the same RAM that `MMU::new` builds for it. |
| `Mmu.MMU.Reset` | src/chip8/mmu.rs:31-61 | The RAM becomes the memory map of the stored image. It depends on nothing else, so a second reset changes nothing. |
| `Mmu.MMU.ReadByte` | src/chip8/mmu.rs:63-65 | Returns the byte at the address and changes nothing. |
| `Mmu.MMU.WriteByte` | src/chip8/mmu.rs:67-69 | The address now holds the value and every other byte is unchanged, so reading it back yields the value. |
| `Mmu.MMU.ReadWord` | src/chip8/mmu.rs:71-73 | Returns the big-endian word `ram[a] * 256 + ram[a + 1]`. |
| `Bytes.WordOf` | src/chip8/mmu.rs:72 | `(hi << 8) \| lo` on 16 bits is `hi * 256 + lo`. |
| `Semantics.Fetch` | src/chip8/cpu.rs:143-145 | Succeeds exactly when PC + 1 lies in RAM, and then yields the big-endian word at PC. Otherwise it faults at the first address outside RAM. |
| `Semantics.Latch` | src/chip8/cpu.rs:147-149 | Clears the redraw flag, installs the keypad snapshot and changes nothing else; in particular the key wait and its target register are kept. |
| `Semantics.FirstPressed` | src/chip8/cpu.rs:152-159 | Finds the lowest pressed key from `from` on: every key before it is released, and the result is `\|keys\|` when no key is pressed. |
| `Semantics.PosInverse` | src/chip8/cpu.rs:310-314 | The cell index for sprite bit (row, col) lies in the framebuffer. The column and row offsets are recovered from it. |
| `Semantics.CoordsInverse` | src/chip8/cpu.rs:310-314 | Every framebuffer cell is the cell of the sprite bit at its column and row offsets from (VX, VY). |
| `Semantics.DrawnNone` | src/chip8/cpu.rs:304-306 | Before the first sprite bit the screen is untouched and there is no collision. |
| `Semantics.DrawnStep` | src/chip8/cpu.rs:309-319 | One more sprite bit changes only its own cell: the cell is toggled when the bit is set. A collision is added exactly when that cell was lit. |
| `Semantics.DrawnAll` | src/chip8/cpu.rs:306-321 | After every bit of every row, the loop has drawn the whole sprite and found exactly its collisions. |
| `SemanticsProps.StepExecutes` | src/chip8/cpu.rs:160-172 | A step that is not waiting executes `read_word(pc)` with PC already advanced by 2. When PC + 1 lies outside RAM, it faults. |
| `SemanticsProps.BootWellFormed` | src/chip8/cpu.rs:194-204 | After reset: PC = 0x200, SP = I = 0, all V registers are 0, the screen is blank, and nothing is pending. |
| `SemanticsProps.Op8xyWellFormed` | src/chip8/cpu.rs:331-386 | A successful 8XY? keeps every size and range of the machine. |
| `SemanticsProps.OpFxWellFormed` | src/chip8/cpu.rs:406-460 | A successful FX?? keeps every size and range of the machine. |
| `SemanticsProps.ExecuteWellFormed` | src/chip8/cpu.rs:215-329 | A successful opcode keeps every size and range, so SP stays within 0..16. |
| `SemanticsProps.StepWellFormed` | src/chip8/cpu.rs:147-174 | A successful step keeps every size and range of the machine. |
| `SemanticsProps.Op8xyKeepsScreen` | src/chip8/cpu.rs:331-386 | 8XY? leaves the screen and the redraw flag alone. |
| `SemanticsProps.OpFxKeepsScreen` | src/chip8/cpu.rs:406-460 | FX?? leaves the screen and the redraw flag alone. |
| `SemanticsProps.ExecuteScreen` | src/chip8/cpu.rs:219-329 | A screen clear or a draw sets the redraw flag. Every other opcode leaves the screen and the flag unchanged. |
| `SemanticsProps.ExecutePixelsBinary` | src/chip8/cpu.rs:221-324 | If every pixel was 0 or 1 before an opcode, every pixel is 0 or 1 after it. |
| `SemanticsProps.StepPixelsBinary` | src/chip8/cpu.rs:147-174 | Pixels stay 0 or 1 across a step. |
| `SemanticsProps.WaitingWithoutKey` | src/chip8/cpu.rs:147-159 | While waiting with no key pressed, a step only clears the redraw flag and installs the snapshot. Registers, stack, RAM and screen are unchanged. |
| `SemanticsProps.WaitingWithKey` | src/chip8/cpu.rs:151-158 | While waiting, the lowest pressed key goes to the FX0A register, the wait ends and PC grows by 2. Everything else is unchanged. |
| `SemanticsProps.KeyWaitResumesAfterInstruction` | src/chip8/cpu.rs:147-172 | An FX0A at A leaves the machine waiting at A + 2 with the target register recorded. The first step that sees a key resumes at A + 4 with that key in the register. |
| `SemanticsProps.ExecuteSkip` | src/chip8/cpu.rs:248-285 | A skip adds 2 to PC exactly when its condition holds. |
| `SemanticsProps.SkipAdvancesPc` | src/chip8/cpu.rs:248-285 | A step through a taken skip ends at the old PC + 4, and through an untaken one at the old PC + 2. A key skip on VX > 15 faults. |
| `SemanticsProps.AluFrame` | src/chip8/cpu.rs:331-386 | 8XY? succeeds exactly for low nibbles 0–7 and E, and changes only VX and VF. Any other low nibble is an unsupported opcode. |
| `SemanticsProps.AddImmediate` | src/chip8/cpu.rs:274-277 | 7XNN sets VX to (VX + NN) mod 256, with no flag. |
| `SemanticsProps.LoadImmediate` | src/chip8/cpu.rs:270-272 | 6XNN sets VX to NN and leaves every other part of the machine unchanged. |
| `SemanticsProps.RegisterMoves` | src/chip8/cpu.rs:331-347 | 8XY0, 8XY1, 8XY2 and 8XY3 set VX to VY, VX \| VY, VX & VY or VX ^ VY and change nothing else; VF is kept when X ≠ F, so OR, AND and XOR do not reset it. |
| `SemanticsProps.TimerMoves` | src/chip8/cpu.rs:406-421 | FX07 sets VX to the delay timer; FX15 and FX18 set the delay or the sound timer to VX. Nothing else changes. |
| `SemanticsProps.AddWithCarry` | src/chip8/cpu.rs:350-355 | For 8XY4 with X ≠ F, VX + 256·VF equals the full sum, and VF ≤ 1. |
| `SemanticsProps.AddWithCarryIntoFlag` | src/chip8/cpu.rs:350-355 | For 8FY4 the carry overwrites the sum in VF. |
| `SemanticsProps.SubtractWithFlag` | src/chip8/cpu.rs:357-364 | For 8XY5 with X ≠ F and Y ≠ F, VX = (VX − VY) mod 256, and VF = 1 exactly when VX > VY. |
| `SemanticsProps.ReverseSubtractWithFlag` | src/chip8/cpu.rs:371-378 | For 8XY7 with X ≠ F and Y ≠ F, VX = (VY − VX) mod 256, and VF = 1 exactly when VX ≤ VY. |
| `SemanticsProps.ShiftRightWithFlag` | src/chip8/cpu.rs:366-369 | For 8XY6 with X ≠ F, the old VX = 2·(new VX) + VF, with VF ≤ 1. |
| `SemanticsProps.ShiftLeftWithFlag` | src/chip8/cpu.rs:380-383 | For 8XYE with X ≠ F, 2·(old VX) = new VX + 256·VF, with VF ≤ 1. |
| `SemanticsProps.SubtractWithFlagRegister` | src/chip8/cpu.rs:357-364 | The flag f = [VX > VY] is written first. 8XF5 leaves VF = f and VX = (VX − f) mod 256, subtracting the new flag and not the old VF. 8FY5 leaves VF = (f − VY) mod 256. 8FF5 leaves VF = 0. |
| `SemanticsProps.ReverseSubtractWithFlagRegister` | src/chip8/cpu.rs:371-378 | The flag f = [VX ≤ VY] is written first. 8XF7 leaves VF = f and VX = (f − VX) mod 256. 8FY7 leaves VF = (VY − f) mod 256. 8FF7 leaves VF = 0. |
| `SemanticsProps.ShiftRightIntoFlag` | src/chip8/cpu.rs:366-369 | 8FY6 always leaves VF = 0: the shifted-out bit written to VF is shifted away. |
| `SemanticsProps.ShiftLeftIntoFlag` | src/chip8/cpu.rs:380-383 | 8FYE leaves VF = 2·(old high bit of VF), that is 0 or 2, not the flag. |
| `SemanticsProps.RandomIsMasked` | src/chip8/cpu.rs:295-297 | CXNN sets VX to the generator's byte masked with NN and changes nothing else, so VX has no bit outside NN. Every such byte is the result for some generator output. |
| `SemanticsProps.Jump` | src/chip8/cpu.rs:237-240 | 1NNN sets PC = NNN and changes nothing else. |
| `SemanticsProps.SetIndex` | src/chip8/cpu.rs:286-289 | ANNN sets I = NNN and changes nothing else. |
| `SemanticsProps.JumpWithOffsetBound` | src/chip8/cpu.rs:291-293 | BNNN sets PC = V0 + NNN, which is at most 0x10FE, and changes nothing else. |
| `SemanticsProps.StackBounds` | src/chip8/cpu.rs:230-246 | 2NNN overflows exactly at SP = 16; otherwise it stores PC (truncated to 16 bits) at stack[SP], increments SP, jumps to NNN and changes nothing else. 0NNE underflows exactly at SP = 0; otherwise it decrements SP, sets PC to the entry there and changes nothing else. |
| `SemanticsProps.CallThenReturn` | src/chip8/cpu.rs:230-246 | 2NNN pushes PC, increments SP and jumps. A later return, with SP and the pushed entry intact, restores PC and SP. |
| `SemanticsProps.BcdDigits` | src/chip8/cpu.rs:438-444 | FX33 faults exactly when I + 2 lies outside RAM. Otherwise the three bytes at I are decimal digits that recombine to VX, and all registers (I included) and all other bytes are unchanged. |
| `SemanticsProps.StoreRegisters` | src/chip8/cpu.rs:446-451 | FX55 writes V0..VX to I..I+X, changes no register and no other byte. |
| `SemanticsProps.LoadRegisters` | src/chip8/cpu.rs:453-457 | FX65 loads V0..VX from I..I+X, keeps the higher registers, I and the rest of the machine. |
| `SemanticsProps.StoreThenLoad` | src/chip8/cpu.rs:446-457 | FX55 then FX65 with the same X and I restores V0..VX whatever happens to the registers in between, and I never moves. |
| `SemanticsProps.TransferBounds` | src/chip8/cpu.rs:446-457 | FX55 and FX65 fault exactly when I + X lies outside RAM, at the first address outside RAM. |
| `SemanticsProps.AddToIndex` | src/chip8/cpu.rs:426-429 | FX1E adds VX to I without wrapping, sets VF = 1 exactly when I > 0x0F00, and changes nothing else. |
| `SemanticsProps.FontGlyph` | src/chip8/cpu.rs:431-433 | FX29 sets I = 0x50 + 5·VX and changes nothing else. When the font is intact and VX < 16, this points I at the five font bytes of that digit. VX is not masked, so from 16 on I lies past the font. |
| `SemanticsProps.TimersSaturate` | src/chip8/cpu.rs:176-192 | After n ticks each timer has counted down by n, stopping at 0, and nothing else has changed. `should_beep` holds exactly when the sound timer started above n. |
| `DisplayProps.DrawTogglesUnderSetBits` | src/chip8/cpu.rs:309-319 | Sprite bit (row, col) lands on ((VX+col) mod 64, (VY+row) mod 32). That cell is toggled when the bit is set and kept when it is clear. |
| `DisplayProps.DrawChangesExactlyCovered` | src/chip8/cpu.rs:306-321 | A pixel changes exactly when some set sprite bit lands on it. |
| `DisplayProps.CollisionExactlyOnLitPixel` | src/chip8/cpu.rs:313-316 | The collision flag is raised exactly when some set bit lands on a lit pixel. |
| `DisplayProps.DrawTwiceRestores` | src/chip8/cpu.rs:318 | Drawing the same sprite at the same place twice restores the screen. |
| `DisplayProps.SecondDrawCollides` | src/chip8/cpu.rs:304-321 | On a blank screen a draw never collides. Redrawing collides exactly when the sprite has a set bit. |
| `DisplayProps.DrawOpcode` | src/chip8/cpu.rs:299-324 | DXYN faults exactly when its rows run past RAM. Otherwise it draws the N bytes at I at (VX, VY) read before VF is cleared, sets VF to the collision flag, sets the redraw flag, and changes nothing else. |
| `DecodeProps.UnsupportedExactlyUndecoded` | src/chip8/cpu.rs:219-327 | An opcode is reported as unsupported exactly when the family-by-family decoding rejects it. |
| `DecodeProps.DecodedIsListed` | src/chip8/cpu.rs:219-327 | Every decoded opcode fits one of the 34 patterns of the opcode table. |
| `DecodeProps.ListedIsDecoded` | src/chip8/cpu.rs:219-327 | Every opcode that fits the table is decoded. |
| `DecodeProps.UnsupportedExactlyUnlisted` | src/chip8/cpu.rs:219-327 | An opcode is reported as unsupported exactly when it fits no pattern of the table. This covers any 0NN0 clearing, any 0NNE returning, and 5XY?/9XY? ignoring N. |
| `DecodeProps.RedrawExactlyAfterClearOrDraw` | src/chip8/cpu.rs:147-174 | After a successful step, `should_redraw` holds exactly when the step executed a 0NN0 or a DXYN. |
| `Cpu.CellIndex` | src/chip8/cpu.rs:225 | Index `x + y * 64` lies in the framebuffer and gives back x and y. |
| `Cpu.CPU.constructor` | src/chip8/cpu.rs:120-133 | The new CPU owns the memory unit and is in the reset state for its image. |
| `Cpu.CPU.Reset` | src/chip8/cpu.rs:194-204 | The state becomes the boot state of the stored image. |
| `Cpu.CPU.LoadRom` | src/chip8/cpu.rs:210-213 | The state becomes the boot state of the new image, the state `CPU::new` builds. |
| `Cpu.CPU.ReadByte` | src/chip8/cpu.rs:206-208 | Returns the byte at a 16-bit address, and faults exactly when the address is 0x1000 or more. |
| `Cpu.CPU.FetchInstruction` | src/chip8/cpu.rs:143-145 | Returns the result of `Semantics.Fetch`. |
| `Cpu.CPU.UpdateTimers` | src/chip8/cpu.rs:176-184 | Both timers count down, stopping at 0, and nothing else changes. |
| `Cpu.CPU.ShouldRedraw` | src/chip8/cpu.rs:186-188 | Returns the redraw flag. |
| `Cpu.CPU.ShouldBeep` | src/chip8/cpu.rs:190-192 | Holds exactly when the sound timer is above 0. |
| `Cpu.CPU.Step` | src/chip8/cpu.rs:147-174 | The key scan and the fetch-advance-execute path together reach the state, or the fault, that `Semantics.Step` gives. |
| `Cpu.CPU.Execute` | src/chip8/cpu.rs:215-329 | Every opcode family reaches the state, or the fault, that `Semantics.Execute` gives. |
| `Cpu.CPU.ClearDisplay` | src/chip8/cpu.rs:222-227 | The column-by-column loop leaves every pixel 0. |
| `Cpu.CPU.Op8xy` | src/chip8/cpu.rs:331-386 | Reaches the state, or the fault, that `Semantics.Op8xy` gives, writing VF in the source's order. |
| `Cpu.CPU.OpEx` | src/chip8/cpu.rs:388-404 | Reaches the state, or the fault, that `Semantics.OpEx` gives, including the fault for a key index above 15. |
| `Cpu.CPU.OpFx` | src/chip8/cpu.rs:406-460 | Reaches the state, or the fault, that `Semantics.OpFx` gives. |
| `Cpu.CPU.StoreBcd` | src/chip8/cpu.rs:438-444 | The three byte writes reach FX33's result, or its fault. |
| `Cpu.CPU.StoreRegisters` | src/chip8/cpu.rs:446-451 | The store loop reaches FX55's result, or faults at the first address outside RAM. |
| `Cpu.CPU.LoadRegisters` | src/chip8/cpu.rs:453-457 | The load loop reaches FX65's result, or faults at the first address outside RAM. |
| `Cpu.CPU.Draw` | src/chip8/cpu.rs:299-324 | The row loop reaches DXYN's result: the sprite drawn, VF set to the collision flag, and the redraw flag set. It faults at the first row outside RAM. |
| `Cpu.CPU.DrawRow` | src/chip8/cpu.rs:309-320 | The bit loop of one row extends the drawing and the collision flag by that row's eight bits, and changes only VF among the registers. |
| `Chip8.Interpreter.constructor` | src/chip8/mod.rs:14-22 | Builds a memory unit holding the image and a CPU in its boot state, with no key latched. |
| `Chip8.Interpreter.UpdateKeypad` | src/chip8/mod.rs:24-26 | Replaces the latched snapshot and touches no CPU state. |
| `Chip8.Interpreter.Step` | src/chip8/mod.rs:28-30 | Performs exactly one CPU step with the latched snapshot, which stays latched. |
| `Chip8.Interpreter.ShouldRedraw` | src/chip8/mod.rs:32-34 | Returns the CPU's redraw flag. |
| `Chip8.Interpreter.ShouldBeep` | src/chip8/mod.rs:36-38 | Holds exactly when the CPU's sound timer is above 0. |
| `Chip8.Interpreter.UpdateTimers` | src/chip8/mod.rs:40-42 | Ticks the CPU's timers and nothing else. |
| `Chip8.Interpreter.GetVram` | src/chip8/mod.rs:44-46 | Returns a copy equal to the CPU's 2048-byte framebuffer. |
| `Chip8.Interpreter.Reset` | src/chip8/mod.rs:52-54 | Puts the CPU in the boot state of its image and keeps the latched snapshot. |
| `Chip8.Interpreter.LoadRom` | src/chip8/mod.rs:56-58 | Puts the CPU in the boot state of the new image and keeps the latched snapshot. |
| `Disassembler.OpcodeAt` | web/disassembler.js:10 | The opcode is the big-endian word `program[a] * 256 + program[a + 1]`, where an element past the end reads as 0. |
| `Disassembler.Decimal` | web/disassembler.js:141 | A number in a template literal is at least one decimal digit. |
| `Disassembler.DecimalRoundTrip` | web/disassembler.js:141 | The decimal rendering reads back as the number it renders. |
| `Disassembler.Count` | web/disassembler.js:138 | Counts the addresses `a, a + 2, …` below 0x1000. |
| `Disassembler.PushEntries` | web/disassembler.js:136-143 | The push loop builds exactly the entries for `start, start + 2, …` below 0x1000, in order. |
| `Disassembler.Disassemble` | web/disassembler.js:135-146 | Returns the joined listing from 0x201 on. |
| `DisassemblerProps.ListingShape` | web/disassembler.js:135-146 | The listing has 1792 entries. Entry k is for address 0x201 + 2k, so the addresses are 0x201, 0x203, …, 0xFFF in increasing order. |
| `DisassemblerProps.ClassNameInjective` | web/disassembler.js:141 | Two entries carry the same class name exactly when they are for the same address. |
| `DisassemblerProps.EvenAddressNotListed` | web/disassembler.js:138-141 | No entry carries the class name of an even address, so no entry matches an even PC. |
| `DisassemblerProps.MnemonicFamily0` | web/disassembler.js:15-22 | In family 0, exactly 00E0 is "CLS", exactly 00EE is "RET", and every other opcode is "-". |
| `DisassemblerProps.Family0NamesFewer` | web/disassembler.js:15-22 | 0120 is shown as "-", although the CPU executes it as a screen clear. |
| `DisassemblerProps.DashExactlyUndecoded` | web/disassembler.js:14-130 | Outside families 0 and E, the mnemonic is "-" exactly when the CPU does not decode the opcode. |
| `DisassemblerProps.MnemonicFamily8` | web/disassembler.js:44-74 | In family 8 the low nibble chooses the mnemonic. 8–D and F give "-". |
| `DisassemblerProps.MnemonicFamilyF` | web/disassembler.js:100-129 | In family F the low byte chooses the mnemonic from 07, 0A, 15, 18, 1E, 29, 33, 55 and 65. Every other low byte gives "-". |
| `DisassemblerProps.DashExactlyUnsupported` | web/disassembler.js:13-130 | Outside families 0 and E, "-" is shown exactly for the opcodes the CPU reports as unsupported. |
| `DisassemblerProps.FamilyEAgreesWhenHexReadsBack` | web/disassembler.js:93-99 | When the formatted low byte reads back as that byte, family E shows "-" exactly for the opcodes the CPU rejects. |
| `DisassemblerProps.AddressOperand` | web/disassembler.js:23-83 | JP NNN shows the PC the CPU jumps to, CALL NNN the PC after a call that fits on the stack, LD I the new I, and JP V0 the new PC less V0, each as four hex digits. |
| `DisassemblerProps.OpcodeMatchesFetch` | web/disassembler.js:10 | Wherever the CPU can fetch, the word the listing decodes is the word the CPU fetches. |
| `DisassemblerProps.LastEntryReadsPastEnd` | web/disassembler.js:10 | The last entry, at 0xFFF, decodes `ram[0xFFF] * 256`: the missing low byte reads as 0, while the CPU faults fetching there. |
| `DisassemblerProps.DrawOperands` | web/disassembler.js:87-91 | DRW shows VX, then the whole low byte (Y·16 + N) rather than VY, then N. |

## Left out

- `src/bin.rs`, `src/lib.rs`, `src/wasm_bindings.rs` and every web file other
  than `web/disassembler.js` are left out. They hold the window, audio, file
  reading, the debugger, the wasm embedding, the DOM and the render loop, all
  of them host I/O.
- The `fmt::Debug` impls, the debug `println!` in `step`, and
  `enable_debug`/`disable_debug` are left out: they only affect printing.
- `get_ram_ptr` and `get_vram_ptr` are left out: they hand out raw pointers.
- The random number generator of CXNN is not modelled. The byte it would
  yield is a parameter (`rnd`) of `Step` and `Execute`.
- `hexformat` lives in a file that is not part of this model, so it is a
  parameter. The E family compares its string result with a number through
  JavaScript's `==`. That string-to-number conversion is a second parameter,
  so the E-family mnemonic is stated only under an assumption about the two
  (`FamilyEAgreesWhenHexReadsBack`).
- `Cpu.CPU.Step`: after a fault, the contract states the fault but not the
  state. The source panics there, which ends the process, and writes made
  before the panic are not described (for FX33, FX55 and DXYN).
- `Mmu.MMU.constructor`: it requires an image of at most 0xE00 bytes, and
  so do `Mmu.MMU.LoadRom`, `Cpu.CPU.LoadRom`, `Chip8.Interpreter.constructor`
  and `Chip8.Interpreter.LoadRom`. The source panics inside the copy loop on a
  larger image.
- `Mmu.MMU.ReadByte`, `Mmu.MMU.WriteByte` and `Mmu.MMU.ReadWord`: the
  address must be below 0x1000 (for `ReadWord`, the address plus one). The
  source panics otherwise. The processor checks its own addresses and reports
  `AddressOutOfRange`.
- `Semantics.Execute`: I and PC are unbounded integers, and the source
  stores them as `usize`. PC stays below 0x1100. FX1E adds up to 255 to I
  with no bound. On a 32-bit target, such as the wasm build of
  `src/wasm_bindings.rs`, I overflows after about 2^32 / 255 (about 16.8
  million) FX1E steps with VX = 0xFF. A debug build then panics, and a release
  build wraps. The model does not capture this; I keeps growing.
- `Disassembler.PushEntries`: it is generic over the function that renders
  an entry. `Disassemble` instantiates it with the entry `disassemble` pushes.
- `Disassembler.Disassemble`: the DOM lookup of the current PC
  (`web/chip8/index.js:94`) is not modelled. Only the class names it searches
  are stated, by `EvenAddressNotListed`.
