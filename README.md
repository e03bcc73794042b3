# CHIP-8 virtual machine core, modelled in Dafny

This project models the core of a CHIP-8 emulator written in Rust. The core has two parts:

- the instruction word and its six field extractors (`Opcode`, src/opcode.rs);
- the `Chip8` machine (src/chip.rs): 4096 bytes of memory, with the font at 0..80 and the ROM
  from 0x200; a 16-entry stack with its pointer; pc; the index register I; sixteen byte registers
  V0..VF; sixteen key bytes; the delay and sound timers; and a 64 x 32 screen indexed `[x][y]`.
  It has one handler per instruction, `decode_opcode` to pick the handler, and `emulate_cycle`
  (fetch, execute, tick both timers).

The model has two layers.

- `Machine` describes the machine as a value. `State` holds every field of `Chip8`. There is one
  function per handler, `Dispatch` from words to instructions, `Execute` for `decode_opcode`, and
  `Cycle` for `emulate_cycle`. A Rust panic (an index out of bounds, or `sp - 1` below zero)
  becomes an `Err` carrying a `Fault`.
- `Chip` models `Chip8` as a class whose arrays the handlers update in place.
  - Every method is proved to leave exactly the state its `Machine` function describes.
  - Every method that can panic reports the same fault.
  - The loops (the ROM and font copy, the nested sprite loop, the key scan, register dump and
    load) carry their invariants.

The property modules state what each instruction does, for every word that decodes to it:

- `Opcodes`: the field extractors;
- `Decoding`: which words reach which handler;
- `ControlFlow`: jumps, calls and skips;
- `Arithmetic`: the register instructions;
- `Storage`: I, the timers, BCD, and register dump and load;
- `Keypad`: the key wait;
- `Drawing`: clearing and sprites;
- `Startup`: the state a new machine starts in.

`Bits` holds `&`, `|`, `^`, the shifts and the byte helpers, over unbounded naturals.

The code has these quirks, several of them unlike the usual CHIP-8 interpreters, and the
model keeps them:

- BNNN jumps to the full 16-bit sum `V0 + NNN`, so the target can lie past memory.
- FX0A scans all sixteen keys, and every key that is down stores its index in Vx and adds 2 to
  pc. With several keys down, pc moves by twice their number and the highest index is left in
  Vx. With none down, nothing changes, so the same word is fetched again on the next cycle.
- A word that no handler claims leaves the state unchanged. `emulate_cycle` then only ticks the
  timers, and the same word is fetched again.
- 5XYN and 9XYN are decoded whatever their low nibble is.
- FX29 multiplies the whole byte Vx by 5, so a Vx above 15 points past the font.
- The timers tick once per cycle, at the end of `emulate_cycle`; the Rust has no tick function
  of its own. `Chip.Chip8.TickTimers` is that last step of `EmulateCycle`, split out as a method.
- Keys are bytes. EX9E skips when a key reads 1 and EXA1 when it reads 0, so a key byte holding
  any other value makes both fall through.

## Model

| member | source | states |
|---|---|---|
| Opcodes.HighestNibble | src/opcode.rs:8-10 | the family nibble left in place: the word rounded down to a multiple of 0x1000 |
| Opcodes.LowestNibble | src/opcode.rs:12-14 | the word mod 16 |
| Opcodes.LowestByte | src/opcode.rs:16-18 | the word mod 256 |
| Opcodes.Nnn | src/opcode.rs:20-23 | the word mod 0x1000, the 12-bit address |
| Opcodes.X | src/opcode.rs:25-28 | bits 8-11 of the word, always a register index below 16 |
| Opcodes.Y | src/opcode.rs:30-33 | bits 4-7 of the word, always a register index below 16 |
| Opcodes.FieldsReassemble | src/opcode.rs:8-33 | the fields put back together give the word: value = family + 256 X + 16 Y + N, NNN = 256 X + NN, NN = 16 Y + N |
| Opcodes.ComposeFields | src/opcode.rs:8-33 | a word built from four nibbles yields exactly those nibbles from each extractor |
| Opcodes.ExampleWord | src/opcode.rs:41-80 | 0x1234 splits into 0x1000, 4, 0x34, 0x234, 2 and 3 |
| Decoding.DispatchEncode | src/chip.rs:380-536 | every instruction's canonical word decodes to that instruction |
| Decoding.EncodeDispatch | src/chip.rs:380-536 | every recognised word is the canonical word of the instruction it selects, with its own low 12 bits as operand (5XYN and 9XYN up to their ignored low nibble) |
| Decoding.SkipIgnoresLowNibble | src/chip.rs:413-416 | 5XYN and 9XYN select the register skips for every N |
| Machine.Tick | src/chip.rs:79-85 | a timer drops by one when above zero and otherwise stays at zero |
| Machine.PressedCount | src/chip.rs:321-327 | the number of keys the scan finds down is at most 16, and 0 exactly when no key reads 1 |
| Machine.LastPressed | src/chip.rs:321-327 | the scan leaves the highest key index that reads 1, or Vx unchanged when none does |
| Machine.Execute | src/chip.rs:380-536 | every instruction that does not fault keeps the array sizes and sp within 16 |
| Machine.Cycle | src/chip.rs:75-86 | a cycle that does not fault keeps the array sizes and sp within 16 |
| Chip.LoadFileIntoMemory | src/chip.rs:60-73 | the two copy loops leave the ROM at 0x200, the font at 0..80 and zeros elsewhere |
| Chip.Chip8.constructor | src/chip.rs:44-58 | a new machine is the boot state of its ROM |
| Chip.Chip8.FetchOpcode | src/chip.rs:88-90 | the big-endian word at pc: its bytes are memory[pc] then memory[pc + 1] |
| Chip.Chip8.ClearScreen | src/chip.rs:92-95 | the state becomes the 00E0 state: blank screen, pc + 2 |
| Chip.Chip8.ReturnFromSubroutine | src/chip.rs:97-100 | the 00EE state (pc from stack[sp - 1], sp - 1), or the underflow fault with nothing changed |
| Chip.Chip8.JumpToNnn | src/chip.rs:102-105 | the 1NNN state |
| Chip.Chip8.CallSubroutineAtNnn | src/chip.rs:107-113 | the 2NNN state (pc + 2 pushed as u16, sp + 1, pc := NNN), or the overflow fault |
| Chip.Chip8.SkipIfVxEqualsNn | src/chip.rs:115-122 | the 3XNN state |
| Chip.Chip8.SkipIfVxNotEqualsNn | src/chip.rs:124-131 | the 4XNN state |
| Chip.Chip8.SkipIfVxEqualsVy | src/chip.rs:133-140 | the 5XY0 state |
| Chip.Chip8.SetVxToNn | src/chip.rs:142-147 | the 6XNN state |
| Chip.Chip8.AddNnToVx | src/chip.rs:149-154 | the 7XNN state |
| Chip.Chip8.SetVxToVy | src/chip.rs:156-161 | the 8XY0 state |
| Chip.Chip8.SetVxToVxOrVy | src/chip.rs:163-169 | the 8XY1 state |
| Chip.Chip8.SetVxToVxAndVy | src/chip.rs:171-177 | the 8XY2 state |
| Chip.Chip8.SetVxToVxXorVy | src/chip.rs:179-185 | the 8XY3 state |
| Chip.Chip8.AddVyToVx | src/chip.rs:187-196 | the 8XY4 state, VF written before Vx |
| Chip.Chip8.SubtractVyFromVx | src/chip.rs:198-208 | the 8XY5 state, VF written before Vx |
| Chip.Chip8.StoreLeastSignificantVxBitInVf | src/chip.rs:210-215 | the 8XY6 state, VF written before Vx is shifted |
| Chip.Chip8.SetVxToVyMinusVx | src/chip.rs:217-226 | the 8XY7 state, VF written before Vx |
| Chip.Chip8.StoreMostSignificantVxBitInVf | src/chip.rs:228-233 | the 8XYE state, VF written before Vx is shifted |
| Chip.Chip8.SkipIfVxNotEqualsVy | src/chip.rs:235-242 | the 9XY0 state |
| Chip.Chip8.SetIToNnn | src/chip.rs:244-248 | the ANNN state |
| Chip.Chip8.JumpToNnnPlusV0 | src/chip.rs:250-253 | the BNNN state |
| Chip.Chip8.SetVxToBitwiseAndWithRand | src/chip.rs:255-260 | the CXNN state for the given random byte |
| Chip.Chip8.DrawSpriteAtVxVy | src/chip.rs:262-295 | the DXYN state (screen XOR-ed with the sprite, VF the collision flag, pc + 2), or the fault when the sprite rows run past memory |
| Chip.Chip8.DrawSpriteRows | src/chip.rs:270-292 | the row loop leaves the drawn screen, and VF 1 exactly when some cell collided |
| Chip.Chip8.DrawSpriteRow | src/chip.rs:273-291 | the column loop draws one row and keeps the scan invariant |
| Chip.Chip8.DrawSpritePixel | src/chip.rs:274-290 | one loop step: clipped cells are skipped, and a cell on screen is XOR-ed with its bit, setting VF on a collision |
| Chip.Chip8.SkipIfVxKeyIsPressed | src/chip.rs:297-303 | the EX9E state, or the fault when Vx is not a key index |
| Chip.Chip8.SkipIfVxKeyIsNotPressed | src/chip.rs:305-311 | the EXA1 state, or the fault when Vx is not a key index |
| Chip.Chip8.SetVxToDelayTimerValue | src/chip.rs:313-317 | the FX07 state |
| Chip.Chip8.AwaitKeyPressAndStoreInVx | src/chip.rs:319-328 | the key scan leaves the FX0A state: Vx the last key down, pc + 2 per key down |
| Chip.Chip8.SetDelayTimerToVx | src/chip.rs:330-334 | the FX15 state |
| Chip.Chip8.SetSoundTimerToVx | src/chip.rs:336-340 | the FX18 state |
| Chip.Chip8.AddVxToI | src/chip.rs:342-346 | the FX1E state |
| Chip.Chip8.SetIToSpriteLocation | src/chip.rs:348-352 | the FX29 state |
| Chip.Chip8.SetBcdOfVx | src/chip.rs:354-361 | the FX33 state, or the fault when I + 2 is past memory |
| Chip.Chip8.RegisterDump | src/chip.rs:363-370 | the copy loop leaves the FX55 state, or the fault when I + X is past memory |
| Chip.Chip8.RegisterLoad | src/chip.rs:372-378 | the copy loop leaves the FX65 state, or the fault when I + X is past memory |
| Chip.Chip8.DecodeOpcode | src/chip.rs:380-536 | the state and status are those `Execute` gives for the word; an unrecognised word changes nothing |
| Chip.Chip8.EmulateCycle | src/chip.rs:75-86 | the state and status are those `Cycle` gives: fetch, execute, tick both timers |
| Chip.Chip8.TickTimers | src/chip.rs:79-85 | both timers tick and nothing else changes |
| ControlFlow.Jump | src/chip.rs:102-105 | 1NNN sets pc to NNN, below 0x1000, and changes nothing else |
| ControlFlow.JumpPlusV0 | src/chip.rs:250-253 | BNNN sets pc to V0 + NNN unwrapped, and a target past memory makes the next cycle fault |
| ControlFlow.CallThenReturn | src/chip.rs:97-113 | 2NNN pushes pc + 2 cut to 16 bits and jumps; 00EE right after returns to that address with sp restored, the pushed entry left in the stack; below 0x10000 it is pc + 2 itself |
| ControlFlow.StackBounds | src/chip.rs:97-113 | a call faults exactly when sp is 16 and a return exactly when sp is 0 |
| ControlFlow.SkipsOnByte | src/chip.rs:115-131 | 3XNN and 4XNN change only pc, by 4 when Vx equals (does not equal) NN, by 2 otherwise |
| ControlFlow.SkipsOnRegisters | src/chip.rs:133-140 | 5XY0 and 9XY0 change only pc, by 4 when Vx equals (does not equal) Vy, by 2 otherwise |
| ControlFlow.KeySkips | src/chip.rs:297-311 | EX9E skips when key Vx reads 1 and EXA1 when it reads 0; Vx of 16 or more faults |
| ControlFlow.Unrecognised | src/chip.rs:380-536 | a cycle over an unrecognised word only ticks the timers |
| ControlFlow.FetchPastMemory | src/chip.rs:88-90 | a fetch at the last byte of memory or beyond faults |
| Arithmetic.AddWithCarry | src/chip.rs:187-196 | 8XY4 gives Vx = (Vx + Vy) mod 256 and VF = 1 exactly when the sum reaches 256; with X = F the sum wins |
| Arithmetic.SubtractWithBorrow | src/chip.rs:198-208 | 8XY5 gives Vx = (Vx - Vy) mod 256 and VF = 1 exactly when Vx >= Vy |
| Arithmetic.ReverseSubtractWithBorrow | src/chip.rs:217-226 | 8XY7 gives Vx = (Vy - Vx) mod 256 and VF = 1 exactly when Vy >= Vx |
| Arithmetic.AddExamples | src/chip.rs:682-698 | 50 + 60 = 110 with VF = 0, and 110 + 200 = 54 with VF = 1 |
| Arithmetic.ShiftRight | src/chip.rs:210-215 | 8XY6 gives VF = the old low bit and Vx = Vx / 2; with X = F, VF ends as 0 |
| Arithmetic.ShiftLeft | src/chip.rs:228-233 | 8XYE gives VF = the old high bit and Vx = 2 Vx mod 256; with X = F, VF ends as twice that bit |
| Arithmetic.SetByte | src/chip.rs:142-147 | 6XNN sets Vx to NN and only that |
| Arithmetic.AddByte | src/chip.rs:149-154 | 7XNN adds NN to Vx mod 256 and leaves VF alone |
| Arithmetic.Logic | src/chip.rs:156-185 | 8XY0 copies Vy; OR never lowers Vx, AND never raises it, and XOR with Vy undoes itself |
| Arithmetic.LogicOnItself | src/chip.rs:163-185 | 8XX1 and 8XX2 leave Vx as it is, and 8XX3 clears it |
| Arithmetic.RandomMasked | src/chip.rs:255-260 | CXNN leaves at most NN in Vx, and exactly the random byte when NN = 0xFF |
| Storage.Bcd | src/chip.rs:354-361 | FX33 writes three decimal digits a, b, c with 100a + 10b + c = Vx and no other byte; it faults exactly when I + 2 is past memory |
| Storage.Digits | src/chip.rs:357-359 | the three digit expressions are each at most 9 and add back up to the value |
| Storage.BcdExample | src/chip.rs:937-948 | 243 is stored as 2, 4, 3 |
| Storage.DumpThenLoad | src/chip.rs:363-378 | FX55 stores V0..VX at I..I + X and nothing else, I included; FX65 right after leaves the registers as they were |
| Storage.Load | src/chip.rs:372-378 | FX65 loads V0..VX from I..I + X and keeps the rest; it faults exactly when I + X is past memory |
| Storage.Timers | src/chip.rs:313-340 | FX07 reads the delay timer into Vx; FX15 and FX18 set the timers from Vx |
| Storage.SetIndex | src/chip.rs:244-248 | ANNN sets I to NNN |
| Storage.AddToIndex | src/chip.rs:342-346 | FX1E adds Vx to I mod 65536, exactly when no wrap occurs, and leaves VF alone |
| Storage.GlyphAddress | src/chip.rs:348-352 | FX29 sets I to 5 Vx, past the font once Vx is 16 or more |
| Keypad.PressedCountIsSize | src/chip.rs:321-327 | the scan counts each key that is down exactly once |
| Keypad.AwaitKey | src/chip.rs:319-328 | FX0A moves pc by 2 per key down and leaves the highest such key in Vx; with none down it changes nothing, and with exactly one key k down it stores k and moves on by 2 |
| Drawing.Clear | src/chip.rs:92-95 | 00E0 turns every pixel off and changes only the screen and pc |
| Drawing.CollisionErases | src/chip.rs:285-290 | the collision flag is set exactly when some lit pixel is turned off |
| Drawing.DrawFault | src/chip.rs:270-271 | DXYN faults exactly when N > 0 and I + N is past memory |
| Drawing.DrawCells | src/chip.rs:262-295 | DXYN changes only the screen, VF and pc; each cell within 8 columns and N rows of (Vx mod 64, Vy mod 32) becomes the old pixel XOR its sprite bit from memory, and every other cell keeps its value |
| Drawing.DrawnCellFromMemory | src/chip.rs:270-290 | one drawn cell, given by the sprite byte at I + row |
| Drawing.DrawFlag | src/chip.rs:268-288 | after DXYN, VF is 0 or 1, and 1 exactly when some lit pixel was turned off |
| Drawing.DrawnOnBlank | src/chip.rs:809-831 | on a blank screen nothing collides, and the covered cells show the sprite's bits while the rest stay off |
| Drawing.DrawnKeepsPixelsBinary | src/chip.rs:282-290 | drawing keeps every pixel 0 or 1 |
| Drawing.DrawnTwice | src/chip.rs:282-290 | drawing the same sprite at the same place twice gives back the screen |
| Drawing.DrawTwiceErases | src/chip.rs:262-295 | DXYN twice in a row, with neither coordinate register VF, restores the screen and moves pc by 4 |
| Startup.BootLayout | src/chip.rs:44-73 | a new machine starts at 0x200 with registers, stack, keys and timers at zero, a blank screen, the font at 0..80, the ROM at 0x200 and zeros elsewhere |
| Startup.FirstFetch | src/chip.rs:75-90 | the first cycle fetches the ROM's first two bytes, high byte first, and leaves exactly the result of executing that word on the new machine, the timer tick included |
| Startup.TimersStayZero | src/chip.rs:313-340 | with both timers and every register at zero, no instruction leaves a timer above zero |
| Startup.FirstJump | src/chip.rs:75-105 | a ROM that starts with 1NNN is at pc NNN after one cycle, with nothing else changed |
| Startup.EmptyRomIdles | src/chip.rs:385-395 | with an empty ROM the word at 0x200 is 0x0000, which nothing claims, so each cycle leaves the machine as it was |
| Startup.GlyphInMemory | src/chip.rs:69-71 | after boot the five bytes at 5 d are the font rows of hex digit d |

## Left out

- src/display.rs (SDL rendering), src/main.rs (event loop, argument parsing, pacing) and
  src/keypad.rs (host key table) are not part of this model. They only read the screen or write
  the key bytes.
- Reading the ROM file (`fs::read`) is not modelled. The ROM's bytes are a parameter of the
  constructor. A ROM longer than 3584 bytes would make the copy loop panic, so the constructor
  requires one that fits.
- `rand::random` in CXNN is not modelled. The random byte is a parameter of `Execute`, `Cycle`,
  `DecodeOpcode` and `EmulateCycle`.
- The "No Match" message printed for an unrecognised word is left out. Only its effect on the
  state is modelled: none.
- A handler that panics after writing part of the state (a sprite drawn partly before its rows
  run past memory, BCD digits written before I + 2 runs past memory, a dump cut short, 2NNN's
  pc + 2 before the stack index fails) is modelled as a fault that leaves the state as it was. The
  process aborts on such a panic, so nothing observes the partial state.
- Overflow checks that exist only in a debug build (such as `i + 1` past 0xFFFF in FX33) are not
  modelled separately. In each case the access they guard is already past memory and faults the
  same way.
- pc is an unbounded natural, like a `usize` that never reaches its limit. Only the value pushed by
  2NNN is cut to 16 bits, as the code does.
- Machine.Execute: its own contract states only that the state stays well formed. What each
  instruction does is stated by the lemmas in ControlFlow, Arithmetic, Storage, Keypad and Drawing.
- Machine.Cycle: its own contract states only that the state stays well formed. What a cycle
  does is stated for the first cycle after boot by Startup.FirstFetch and Startup.FirstJump,
  and for any state by ControlFlow.Unrecognised and ControlFlow.FetchPastMemory, and by
  Chip.Chip8.EmulateCycle for the class.
