/** Jumps, calls, returns and skips, stated for every word that decodes to them (which words
    those are is stated in Decoding). */
module ControlFlow {
  import opened Bits
  import opened Opcodes
  import opened Machine

  /** 1NNN sets pc to NNN and changes nothing else. */
  lemma Jump(s: State, op: Opcode, random: Byte)
    requires Valid(s) && Dispatch(op) == Op1NNN
    ensures Execute(s, op, random) == Ok(s.(pc := Nnn(op)))
    ensures Execute(s, op, random).value.pc < 0x1000
  {
  }

  /** BNNN jumps to V0 + NNN, a sum that is not cut to 12 bits: it can point past memory, and
      then the next fetch faults. */
  lemma JumpPlusV0(s: State, op: Opcode, random: Byte)
    requires Valid(s) && Dispatch(op) == OpBNNN
    ensures Execute(s, op, random) == Ok(s.(pc := s.v[0] + Nnn(op)))
    ensures s.v[0] + Nnn(op) >= MemorySize - 1 ==>
      Cycle(s.(pc := s.v[0] + Nnn(op)), random) == Err(MemoryOutOfBounds)
  {
    DivModUnique(s.v[0] + Nnn(op), 0x1_0000, 0, s.v[0] + Nnn(op));
  }

  /** 2NNN pushes the address after the call, cut to 16 bits, and jumps; 00EE then comes back
      to that address with the stack pointer restored. The pushed entry stays in the stack
      array. */
  lemma CallThenReturn(s: State, call: Opcode, ret: Opcode, random: Byte)
    requires Valid(s) && Dispatch(call) == Op2NNN && Dispatch(ret) == Op00EE
    requires s.sp < StackLevels
    ensures var called, back := Execute(s, call, random), (s.pc + 2) % 0x1_0000;
      called.Ok? && called.value.pc == Nnn(call) && called.value.sp == s.sp + 1
      && called.value.stack[s.sp] == back
      && Execute(called.value, ret, random) == Ok(s.(pc := back, stack := s.stack[s.sp := back]))
    ensures s.pc + 2 < 0x1_0000 ==>
      Execute(Execute(s, call, random).value, ret, random).value.pc == s.pc + 2
  {
    var back := (s.pc + 2) % 0x1_0000;
    if s.pc + 2 < 0x1_0000 {
      DivModUnique(s.pc + 2, 0x1_0000, 0, s.pc + 2);
    }
    var t := s.(stack := s.stack[s.sp := back], sp := s.sp + 1, pc := Nnn(call));
    assert Execute(s, call, random) == Ok(t);
  }

  /** A seventeenth nested call faults, and so does a return with nothing on the stack. */
  lemma StackBounds(s: State, op: Opcode, random: Byte)
    requires Valid(s)
    ensures Dispatch(op) == Op2NNN ==>
      (Execute(s, op, random).Err? <==> s.sp == StackLevels)
      && (s.sp == StackLevels ==> Execute(s, op, random) == Err(StackOverflow))
    ensures Dispatch(op) == Op00EE ==>
      (Execute(s, op, random).Err? <==> s.sp == 0)
      && (s.sp == 0 ==> Execute(s, op, random) == Err(StackUnderflow))
  {
  }

  /** 3XNN and 4XNN change only pc, and advance it by 4 exactly when Vx equals (does not
      equal) NN, by 2 otherwise. */
  lemma SkipsOnByte(s: State, op: Opcode, random: Byte)
    requires Valid(s)
    ensures Dispatch(op) == Op3XNN ==>
      Execute(s, op, random) == Ok(s.(pc := s.pc + if s.v[X(op)] == LowestByte(op) then 4 else 2))
    ensures Dispatch(op) == Op4XNN ==>
      Execute(s, op, random) == Ok(s.(pc := s.pc + if s.v[X(op)] != LowestByte(op) then 4 else 2))
  {
  }

  /** 5XYN and 9XYN, whatever N, change only pc, and advance it by 4 exactly when Vx equals
      (does not equal) Vy, by 2 otherwise. */
  lemma SkipsOnRegisters(s: State, op: Opcode, random: Byte)
    requires Valid(s)
    ensures Dispatch(op) == Op5XY0 ==>
      Execute(s, op, random) == Ok(s.(pc := s.pc + if s.v[X(op)] == s.v[Y(op)] then 4 else 2))
    ensures Dispatch(op) == Op9XY0 ==>
      Execute(s, op, random) == Ok(s.(pc := s.pc + if s.v[X(op)] != s.v[Y(op)] then 4 else 2))
  {
  }

  /** EX9E skips when key Vx reads 1 and EXA1 when it reads 0, so a key value that is neither
      makes both fall through; Vx past the last key faults. */
  lemma KeySkips(s: State, op: Opcode, random: Byte)
    requires Valid(s) && Dispatch(op) in {OpEX9E, OpEXA1}
    ensures var k := s.v[X(op)];
      k < NumKeys && Dispatch(op) == OpEX9E ==>
        Execute(s, op, random) == Ok(s.(pc := s.pc + if s.keys[k] == 1 then 4 else 2))
    ensures var k := s.v[X(op)];
      k < NumKeys && Dispatch(op) == OpEXA1 ==>
        Execute(s, op, random) == Ok(s.(pc := s.pc + if s.keys[k] == 0 then 4 else 2))
    ensures s.v[X(op)] >= NumKeys ==> Execute(s, op, random) == Err(KeyOutOfBounds)
  {
  }

  /** A word the decoder does not recognise leaves the state as it is, so a cycle over it only
      ticks the timers and the same word is fetched again. */
  lemma Unrecognised(s: State, random: Byte)
    requires Valid(s) && s.pc + 1 < MemorySize
    requires Dispatch(Opcode(JoinBytes(s.memory[s.pc], s.memory[s.pc + 1]))) == NoMatch
    ensures Cycle(s, random) == Ok(s.(delayTimer := Tick(s.delayTimer), soundTimer := Tick(s.soundTimer)))
  {
  }

  /** A fetch from the last byte of memory, or past it, faults. */
  lemma FetchPastMemory(s: State, random: Byte)
    requires Valid(s) && s.pc >= MemorySize - 1
    ensures Cycle(s, random) == Err(MemoryOutOfBounds)
  {
  }
}
