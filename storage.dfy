/** The instructions that move values between registers, memory, the index register and the
    timers (ANNN and FX07 to FX65), stated for every word that decodes to them. */
module Storage {
  import opened Bits
  import opened Opcodes
  import opened Machine

  /** FX33 writes the hundreds, tens and ones digits of Vx at I, I + 1 and I + 2, each a decimal
      digit, and nothing else; when I + 2 is past memory it faults. */
  lemma Bcd(s: State, op: Opcode, random: Byte)
    requires Valid(s) && Dispatch(op) == OpFX33
    ensures var t := Execute(s, op, random);
      (t.Err? <==> s.i + 2 >= MemorySize) && (t.Err? ==> t.fault == MemoryOutOfBounds)
    ensures var t := Execute(s, op, random);
      t.Ok? ==>
        var m := t.value.memory;
        t.value == s.(memory := m, pc := s.pc + 2)
        && m[s.i] <= 9 && m[s.i + 1] <= 9 && m[s.i + 2] <= 9
        && 100 * (m[s.i] as int) + 10 * (m[s.i + 1] as int) + m[s.i + 2] == s.v[X(op)]
        && forall a :: 0 <= a < MemorySize && (a < s.i || a > s.i + 2) ==> m[a] == s.memory[a]
  {
    Digits(s.v[X(op)]);
  }

  /** The three digits FX33 computes are decimal digits and make up the value. */
  lemma Digits(vx: Byte)
    ensures vx / 100 <= 9 && vx / 10 % 10 <= 9 && vx % 100 % 10 <= 9
    ensures 100 * (vx / 100) + 10 * (vx / 10 % 10) + vx % 100 % 10 == vx
  {
    var h, t, o := vx / 100, vx / 10 % 10, vx % 100 % 10;
    DivModUnique(vx, 100, h, vx % 100);
    DivModUnique(vx / 10, 10, h, t);
    DivModUnique(vx % 100, 10, t, o);
  }

  /** 243 is stored as the digits 2, 4, 3. */
  lemma BcdExample(s: State, op: Opcode, random: Byte)
    requires Valid(s) && Dispatch(op) == OpFX33 && s.v[X(op)] == 243 && s.i + 2 < MemorySize
    ensures var t := Execute(s, op, random);
      t.Ok? && t.value.memory[s.i..s.i + 3] == [2, 4, 3]
  {
    var m := s.memory[s.i := 2][s.i + 1 := 4][s.i + 2 := 3];
    assert SetBcdOfVx(s, op) == Ok(s.(memory := m, pc := s.pc + 2));
    assert m[s.i..s.i + 3] == [2, 4, 3];
  }

  /** FX55 copies V0..Vx to memory at I..I + x and changes nothing else (I included); FX65 with
      the same X then reads back exactly the registers that were stored. */
  lemma DumpThenLoad(s: State, dump: Opcode, load: Opcode, random: Byte)
    requires Valid(s) && Dispatch(dump) == OpFX55 && Dispatch(load) == OpFX65 && X(dump) == X(load)
    requires s.i + X(dump) < MemorySize
    ensures var d := Execute(s, dump, random);
      d.Ok? && d.value == s.(memory := d.value.memory, pc := s.pc + 2)
      && (forall k :: 0 <= k <= X(dump) ==> d.value.memory[s.i + k] == s.v[k])
      && (forall a :: 0 <= a < MemorySize && (a < s.i || a > s.i + X(dump)) ==> d.value.memory[a] == s.memory[a])
      && Execute(d.value, load, random) == Ok(d.value.(pc := s.pc + 4))
  {
    var x := X(dump);
    var t := s.(memory := s.memory[..s.i] + s.v[..x + 1] + s.memory[s.i + x + 1..], pc := s.pc + 2);
    assert Execute(s, dump, random) == Ok(t);
    assert t.memory[s.i..s.i + x + 1] == s.v[..x + 1];
    assert s.v[..x + 1] + s.v[x + 1..] == s.v;
    assert Execute(t, load, random) == Ok(t.(pc := s.pc + 4));
  }

  /** FX65 sets V0..Vx from memory at I..I + x, keeps the other registers, and leaves I as it
      is; an I + x past memory faults. */
  lemma Load(s: State, op: Opcode, random: Byte)
    requires Valid(s) && Dispatch(op) == OpFX65
    ensures var t := Execute(s, op, random);
      (t.Err? <==> s.i + X(op) >= MemorySize) && (t.Err? ==> t.fault == MemoryOutOfBounds)
    ensures var t := Execute(s, op, random);
      t.Ok? ==>
        t.value == s.(v := t.value.v, pc := s.pc + 2)
        && (forall k :: 0 <= k <= X(op) ==> t.value.v[k] == s.memory[s.i + k])
        && (forall k :: X(op) < k < NumRegisters ==> t.value.v[k] == s.v[k])
  {
  }

  /** FX07 copies the delay timer into Vx; FX15 and FX18 set the delay and sound timers to Vx. */
  lemma Timers(s: State, op: Opcode, random: Byte)
    requires Valid(s)
    ensures Dispatch(op) == OpFX07 ==>
      Execute(s, op, random) == Ok(s.(v := s.v[X(op) := s.delayTimer], pc := s.pc + 2))
    ensures Dispatch(op) == OpFX15 ==>
      Execute(s, op, random) == Ok(s.(delayTimer := s.v[X(op)], pc := s.pc + 2))
    ensures Dispatch(op) == OpFX18 ==>
      Execute(s, op, random) == Ok(s.(soundTimer := s.v[X(op)], pc := s.pc + 2))
  {
  }

  /** ANNN sets I := NNN. */
  lemma SetIndex(s: State, op: Opcode, random: Byte)
    requires Valid(s) && Dispatch(op) == OpANNN
    ensures Execute(s, op, random) == Ok(s.(i := Nnn(op), pc := s.pc + 2))
  {
  }

  /** FX1E adds Vx to I modulo 2^16 and leaves VF alone. */
  lemma AddToIndex(s: State, op: Opcode, random: Byte)
    requires Valid(s) && Dispatch(op) == OpFX1E
    ensures Execute(s, op, random) == Ok(s.(i := (s.v[X(op)] as int + s.i) % 0x1_0000, pc := s.pc + 2))
    ensures s.v[X(op)] as int + s.i < 0x1_0000 ==> Execute(s, op, random).value.i == s.v[X(op)] as int + s.i
  {
    var sum := s.v[X(op)] as int + s.i;
    if sum < 0x1_0000 {
      DivModUnique(sum, 0x1_0000, 0, sum);
    }
  }

  /** FX29 sets I to 5 Vx, the address of the glyph for digit Vx when Vx < 16; a larger Vx is
      not reduced to its low nibble, so I then points past the font. */
  lemma GlyphAddress(s: State, op: Opcode, random: Byte)
    requires Valid(s) && Dispatch(op) == OpFX29
    ensures Execute(s, op, random) == Ok(s.(i := 5 * (s.v[X(op)] as int), pc := s.pc + 2))
    ensures s.v[X(op)] >= 16 ==> 5 * (s.v[X(op)] as int) >= |FontSet|
  {
    var vx: nat := s.v[X(op)];
    DivModUnique(5 * vx, 0x1_0000, 0, 5 * vx);
  }
}
