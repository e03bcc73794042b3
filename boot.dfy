/** What `Chip8::new` sets up: the memory layout of the font and the ROM, the registers at zero,
    a blank screen, and the first word the machine runs. */
module Startup {
  import opened Bits
  import opened Opcodes
  import opened Machine
  import opened Decoding
  import opened ControlFlow

  /** A fresh machine is well formed and starts at 0x200 with every register, the stack, the
      keys and both timers at zero and the screen blank. Memory holds the font at 0..80, the
      ROM at 0x200.., and zeros everywhere else. */
  lemma BootLayout(rom: seq<Byte>)
    requires |rom| <= MemorySize - ProgramStart
    ensures var s := Boot(rom);
      Valid(s) && s.pc == ProgramStart && s.sp == 0 && s.i == 0
      && s.delayTimer == 0 && s.soundTimer == 0 && s.graphics == BlankScreen()
      && (forall r :: 0 <= r < NumRegisters ==> s.v[r] == 0)
      && (forall k :: 0 <= k < NumKeys ==> s.keys[k] == 0)
      && (forall d :: 0 <= d < StackLevels ==> s.stack[d] == 0)
    ensures var m := Boot(rom).memory;
      m[..|FontSet|] == FontSet && m[ProgramStart..ProgramStart + |rom|] == rom
      && forall a :: |FontSet| <= a < MemorySize && !(ProgramStart <= a < ProgramStart + |rom|) ==> m[a] == 0
  {
    var m := Boot(rom).memory;
    assert m[..|FontSet|] == FontSet by {
      forall a | 0 <= a < |FontSet| ensures m[a] == FontSet[a] { }
    }
    assert m[ProgramStart..ProgramStart + |rom|] == rom by {
      forall k | 0 <= k < |rom| ensures m[ProgramStart + k] == rom[k] { }
    }
  }

  /** The first cycle after boot runs the word made of the ROM's first two bytes, high byte
      first, and leaves exactly what that word leaves: the timers start at zero and every
      register is zero, so no instruction can set a timer and the tick changes nothing. */
  lemma FirstFetch(rom: seq<Byte>, random: Byte)
    requires 2 <= |rom| <= MemorySize - ProgramStart
    ensures var s := Boot(rom);
      s.memory[s.pc] == rom[0] && s.memory[s.pc + 1] == rom[1]
      && Cycle(s, random) == Execute(s, Opcode(JoinBytes(rom[0], rom[1])), random)
  {
    var s := Boot(rom);
    BootLayout(rom);
    TimersStayZero(s, Opcode(JoinBytes(rom[0], rom[1])), random);
  }

  /** With both timers and every register at zero, no instruction leaves a timer above zero. */
  lemma TimersStayZero(s: State, op: Opcode, random: Byte)
    requires Valid(s) && s.delayTimer == 0 && s.soundTimer == 0
    requires forall r :: 0 <= r < NumRegisters ==> s.v[r] == 0
    ensures var t := Execute(s, op, random);
      t.Ok? ==> t.value.delayTimer == 0 && t.value.soundTimer == 0
  {
    assert s.v[X(op)] == 0;
  }

  /** A ROM that starts with 1NNN jumps to NNN on its first cycle, and nothing else changes. */
  lemma FirstJump(rom: seq<Byte>, target: nat, random: Byte)
    requires 2 <= |rom| <= MemorySize - ProgramStart && target < 0x1000
    requires 256 * (rom[0] as int) + rom[1] as int == Encode(Op1NNN, target)
    ensures Cycle(Boot(rom), random) == Ok(Boot(rom).(pc := target))
  {
    var op := Opcode(JoinBytes(rom[0], rom[1]));
    assert op.value == Encode(Op1NNN, target);
    FirstFetch(rom, random);
    DispatchEncode(Op1NNN, target);
    EncodeFields(Op1NNN, target);
    Jump(Boot(rom), op, random);
  }

  /** An empty ROM leaves 0x0000 at 0x200, a word `decode_opcode` does not recognise, so the
      fresh machine idles: each cycle gives back the same state. */
  lemma EmptyRomIdles(random: Byte)
    ensures Cycle(Boot([]), random) == Ok(Boot([]))
  {
    var s := Boot([]);
    BootLayout([]);
    assert JoinBytes(s.memory[s.pc], s.memory[s.pc + 1]) == 0;
    assert HighestNibble(Opcode(0)) == 0 && LowestByte(Opcode(0)) == 0;
    assert Dispatch(Opcode(0)) == NoMatch;
  }

  /** After boot the glyph of hex digit d, which FX29 addresses as 5 d, is the five font rows
      for d. */
  lemma GlyphInMemory(rom: seq<Byte>, d: nat)
    requires |rom| <= MemorySize - ProgramStart && d < 16
    ensures |FontSet| == 5 * 16
    ensures Boot(rom).memory[5 * d..5 * d + 5] == FontSet[5 * d..5 * d + 5]
  {
    BootLayout(rom);
    var m := Boot(rom).memory;
    assert m[5 * d..5 * d + 5] == m[..|FontSet|][5 * d..5 * d + 5];
  }
}
