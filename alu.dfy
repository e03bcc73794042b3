/** The register instructions 6XNN, 7XNN, 8XYK and CXNN, stated as arithmetic on the register
    values for every word that decodes to them (which words those are is stated in Decoding). */
module Arithmetic {
  import opened Bits
  import opened Opcodes
  import opened Machine

  /** 8XY4: Vx := (Vx + Vy) mod 256 and VF := the carry. VF is written first, so with X = F
      the sum overwrites the carry. */
  lemma AddWithCarry(s: State, op: Opcode, random: Byte)
    requires Valid(s) && Dispatch(op) == Op8XY4
    ensures var x, y := X(op), Y(op);
      var sum := s.v[x] as int + s.v[y];
      Execute(s, op, random)
        == Ok(s.(v := s.v[Flag := if sum >= 256 then 1 else 0][x := sum % 256], pc := s.pc + 2))
  {
    var sum := s.v[X(op)] as int + s.v[Y(op)];
    if sum >= 256 {
      DivModUnique(sum, 256, 1, sum - 256);
    } else {
      DivModUnique(sum, 256, 0, sum);
    }
  }

  /** 8XY5: Vx := (Vx - Vy) mod 256 and VF := 1 when Vx >= Vy (no borrow), else 0. */
  lemma SubtractWithBorrow(s: State, op: Opcode, random: Byte)
    requires Valid(s) && Dispatch(op) == Op8XY5
    ensures var x, y := X(op), Y(op);
      var diff := s.v[x] as int - s.v[y];
      Execute(s, op, random)
        == Ok(s.(v := s.v[Flag := if diff >= 0 then 1 else 0][x := diff % 256], pc := s.pc + 2))
  {
    var diff := s.v[X(op)] as int - s.v[Y(op)];
    if diff < 0 {
      DivModUnique(diff, 256, -1, diff + 256);
    } else {
      DivModUnique(diff, 256, 0, diff);
    }
  }

  /** 8XY7: Vx := (Vy - Vx) mod 256 and VF := 1 when Vy >= Vx (no borrow), else 0. */
  lemma ReverseSubtractWithBorrow(s: State, op: Opcode, random: Byte)
    requires Valid(s) && Dispatch(op) == Op8XY7
    ensures var x, y := X(op), Y(op);
      var diff := s.v[y] as int - s.v[x];
      Execute(s, op, random)
        == Ok(s.(v := s.v[Flag := if diff >= 0 then 1 else 0][x := diff % 256], pc := s.pc + 2))
  {
    var diff := s.v[Y(op)] as int - s.v[X(op)];
    if diff < 0 {
      DivModUnique(diff, 256, -1, diff + 256);
    } else {
      DivModUnique(diff, 256, 0, diff);
    }
  }

  /** The carry examples: 50 + 60 = 110 with VF = 0, and 110 + 200 = 54 with VF = 1, in any
      two distinct registers below VF. */
  lemma AddExamples(s: State, op: Opcode, random: Byte)
    requires Valid(s) && Dispatch(op) == Op8XY4 && X(op) < Flag && Y(op) < Flag && X(op) != Y(op)
    ensures s.v[X(op)] == 50 && s.v[Y(op)] == 60 ==>
      var t := Execute(s, op, random);
      t.Ok? && t.value.v[X(op)] == 110 && t.value.v[Flag] == 0
    ensures s.v[X(op)] == 110 && s.v[Y(op)] == 200 ==>
      var t := Execute(s, op, random);
      t.Ok? && t.value.v[X(op)] == 54 && t.value.v[Flag] == 1
  {
    AddWithCarry(s, op, random);
  }

  /** 8XY6: VF := the low bit of Vx, then Vx := Vx / 2. With X = F the shift applies to the bit
      just stored, so VF ends as 0. Y is not read. */
  lemma ShiftRight(s: State, op: Opcode, random: Byte)
    requires Valid(s) && Dispatch(op) == Op8XY6
    ensures var x := X(op);
      x != Flag ==>
        Execute(s, op, random) == Ok(s.(v := s.v[Flag := s.v[x] % 2][x := s.v[x] / 2], pc := s.pc + 2))
    ensures X(op) == Flag ==>
      Execute(s, op, random) == Ok(s.(v := s.v[Flag := 0], pc := s.pc + 2))
  {
    var vx := s.v[X(op)];
    Pow2Values();
    AndLowMask(vx, 1);
    assert AndByte(vx, 1) == vx % 2;
    assert Shr(vx % 2, 1) == 0;
    assert s.v[Flag := vx % 2][Flag := 0] == s.v[Flag := 0];
  }

  /** 8XYE: VF := the high bit of Vx, then Vx := 2 Vx mod 256. With X = F the shift applies to
      the bit just stored, so VF ends as 2 or 0. Y is not read. */
  lemma ShiftLeft(s: State, op: Opcode, random: Byte)
    requires Valid(s) && Dispatch(op) == Op8XYE
    ensures var x := X(op);
      x != Flag ==>
        Execute(s, op, random)
          == Ok(s.(v := s.v[Flag := s.v[x] / 128][x := 2 * (s.v[x] as int) % 256], pc := s.pc + 2))
    ensures X(op) == Flag ==>
      Execute(s, op, random) == Ok(s.(v := s.v[Flag := 2 * (s.v[Flag] / 128)], pc := s.pc + 2))
  {
    var vx := s.v[X(op)];
    Pow2Values();
    var hi := vx / 128;
    assert Shr(vx, 7) == hi;
    AndLowMask(hi, 1);
    assert AndByte(hi, 1) == hi;
    assert Shl(hi, 1) == 2 * hi;
    DivModUnique(2 * hi, 256, 0, 2 * hi);
    assert s.v[Flag := hi][Flag := 2 * hi] == s.v[Flag := 2 * hi];
  }

  /** 6XNN sets Vx := NN. */
  lemma SetByte(s: State, op: Opcode, random: Byte)
    requires Valid(s) && Dispatch(op) == Op6XNN
    ensures Execute(s, op, random) == Ok(s.(v := s.v[X(op) := LowestByte(op)], pc := s.pc + 2))
  {
  }

  /** 7XNN adds NN to Vx modulo 256 and leaves VF alone. */
  lemma AddByte(s: State, op: Opcode, random: Byte)
    requires Valid(s) && Dispatch(op) == Op7XNN
    ensures var x := X(op);
      Execute(s, op, random) == Ok(s.(v := s.v[x := (s.v[x] as int + LowestByte(op)) % 256], pc := s.pc + 2))
  {
  }

  /** 8XY0 copies Vy; 8XY1, 8XY2 and 8XY3 combine Vx and Vy bitwise into Vx and leave VF alone.
      OR never makes a value smaller, AND never larger, and XOR undoes itself. */
  lemma Logic(s: State, op: Opcode, random: Byte)
    requires Valid(s)
    ensures var x, y, t := X(op), Y(op), Execute(s, op, random);
      Dispatch(op) == Op8XY0 ==> t == Ok(s.(v := s.v[x := s.v[y]], pc := s.pc + 2))
    ensures var x, y, t := X(op), Y(op), Execute(s, op, random);
      Dispatch(op) == Op8XY1 ==>
        t.Ok? && t.value == s.(v := s.v[x := OrByte(s.v[x], s.v[y])], pc := s.pc + 2)
        && s.v[x] <= t.value.v[x] && s.v[y] <= t.value.v[x]
    ensures var x, y, t := X(op), Y(op), Execute(s, op, random);
      Dispatch(op) == Op8XY2 ==>
        t.Ok? && t.value == s.(v := s.v[x := AndByte(s.v[x], s.v[y])], pc := s.pc + 2)
        && t.value.v[x] <= s.v[x] && t.value.v[x] <= s.v[y]
    ensures var x, y, t := X(op), Y(op), Execute(s, op, random);
      Dispatch(op) == Op8XY3 ==>
        t.Ok? && t.value == s.(v := s.v[x := XorByte(s.v[x], s.v[y])], pc := s.pc + 2)
        && Xor(t.value.v[x], s.v[y]) == s.v[x]
  {
  }

  /** With Y = X, 8XX1 and 8XX2 leave Vx as it is and 8XX3 clears it. */
  lemma LogicOnItself(s: State, op: Opcode, random: Byte)
    requires Valid(s) && X(op) == Y(op)
    ensures Dispatch(op) in {Op8XY1, Op8XY2} ==> Execute(s, op, random) == Ok(s.(pc := s.pc + 2))
    ensures Dispatch(op) == Op8XY3 ==> Execute(s, op, random) == Ok(s.(v := s.v[X(op) := 0], pc := s.pc + 2))
  {
    Logic(s, op, random);
    SelfOperations(s.v[X(op)]);
    assert s.v[X(op) := s.v[X(op)]] == s.v;
  }

  /** CXNN: Vx := random AND NN, which is at most NN; with NN = 0xFF it is the random byte. */
  lemma RandomMasked(s: State, op: Opcode, random: Byte)
    requires Valid(s) && Dispatch(op) == OpCXNN
    ensures var t, x, nn := Execute(s, op, random), X(op), LowestByte(op);
      t.Ok? && t.value == s.(v := s.v[x := AndByte(random, nn)], pc := s.pc + 2)
      && t.value.v[x] <= nn && (nn == 0xFF ==> t.value.v[x] == random)
  {
    var nn := LowestByte(op);
    AndBound(random, nn);
    if nn == 0xFF {
      Pow2Values();
      AndLowMask(random, 8);
      DivModUnique(random, 256, 0, random);
    }
  }
}
