/** Which instruction words `decode_opcode` sends to which handler (src/chip.rs), stated against
    an encoder that builds the canonical word of each instruction from its 12-bit operand. */
module Decoding {
  import opened Bits
  import opened Opcodes
  import opened Machine

  /** The nibbles of the canonical word of `ins` below X: its family nibble on top, then the
      operand's Y and N, or in their place the selector that tells apart the instructions of a
      family sharing a nibble or byte. NoMatch gets 0X00, which no handler claims. */
  function Shape(ins: Instruction, operand: nat): (f: (nat, nat, nat))
    requires operand < 0x1000
    ensures f.0 < 16 && f.1 < 16 && f.2 < 16
  {
    var y, n := operand / 16 % 16, operand % 16;
    match ins
    case Op00E0 => (0x0, 0xE, 0x0)
    case Op00EE => (0x0, 0xE, 0xE)
    case Op1NNN => (0x1, y, n)
    case Op2NNN => (0x2, y, n)
    case Op3XNN => (0x3, y, n)
    case Op4XNN => (0x4, y, n)
    case Op5XY0 => (0x5, y, 0x0)
    case Op6XNN => (0x6, y, n)
    case Op7XNN => (0x7, y, n)
    case Op8XY0 => (0x8, y, 0x0)
    case Op8XY1 => (0x8, y, 0x1)
    case Op8XY2 => (0x8, y, 0x2)
    case Op8XY3 => (0x8, y, 0x3)
    case Op8XY4 => (0x8, y, 0x4)
    case Op8XY5 => (0x8, y, 0x5)
    case Op8XY6 => (0x8, y, 0x6)
    case Op8XY7 => (0x8, y, 0x7)
    case Op8XYE => (0x8, y, 0xE)
    case Op9XY0 => (0x9, y, 0x0)
    case OpANNN => (0xA, y, n)
    case OpBNNN => (0xB, y, n)
    case OpCXNN => (0xC, y, n)
    case OpDXYN => (0xD, y, n)
    case OpEX9E => (0xE, 0x9, 0xE)
    case OpEXA1 => (0xE, 0xA, 0x1)
    case OpFX07 => (0xF, 0x0, 0x7)
    case OpFX0A => (0xF, 0x0, 0xA)
    case OpFX15 => (0xF, 0x1, 0x5)
    case OpFX18 => (0xF, 0x1, 0x8)
    case OpFX1E => (0xF, 0x1, 0xE)
    case OpFX29 => (0xF, 0x2, 0x9)
    case OpFX33 => (0xF, 0x3, 0x3)
    case OpFX55 => (0xF, 0x5, 0x5)
    case OpFX65 => (0xF, 0x6, 0x5)
    case NoMatch => (0x0, 0x0, 0x0)
  }

  /** The canonical word of `ins` whose operand bits (NNN, or X and NN, or X, Y and N) are
      `operand`. */
  function Encode(ins: Instruction, operand: nat): (w: U16)
    requires operand < 0x1000
  {
    var (f, y, n) := Shape(ins, operand);
    Compose(f, operand / 256, y, n)
  }

  /** The fields the handlers read from a canonical word: X is the operand's, Y and N are what
      Shape put there, so for the instructions that take them they are the operand's too. */
  lemma EncodeFields(ins: Instruction, operand: nat)
    requires operand < 0x1000
    ensures var op := Opcode(Encode(ins, operand));
      X(op) == operand / 256 && Y(op) == Shape(ins, operand).1 && LowestNibble(op) == Shape(ins, operand).2
      && LowestByte(op) == 16 * Shape(ins, operand).1 + Shape(ins, operand).2
      && Nnn(op) == 256 * (operand / 256) + LowestByte(op)
    ensures Shape(ins, operand).1 == operand / 16 % 16 && Shape(ins, operand).2 == operand % 16 ==>
      Nnn(Opcode(Encode(ins, operand))) == operand && LowestByte(Opcode(Encode(ins, operand))) == operand % 256
  {
    var (f, y, n) := Shape(ins, operand);
    ComposeFields(f, operand / 256, y, n);
    Nibbles(operand);
  }

  /** Decoding the canonical word of an instruction selects that instruction. */
  lemma DispatchEncode(ins: Instruction, operand: nat)
    requires operand < 0x1000
    ensures Dispatch(Opcode(Encode(ins, operand))) == ins
  {
    var (f, y, n) := Shape(ins, operand);
    ComposeFields(f, operand / 256, y, n);
  }

  /** The nibbles Shape gives a decoded word's instruction are the word's own (bar the ignored
      low nibble of 5XYN and 9XYN). */
  lemma ShapeOfDispatch(op: Opcode)
    requires Dispatch(op) != NoMatch
    ensures Shape(Dispatch(op), Nnn(op)).0 == op.value / 4096
    ensures Shape(Dispatch(op), Nnn(op)).1 == Y(op)
    ensures Shape(Dispatch(op), Nnn(op)).2 == if Dispatch(op) in {Op5XY0, Op9XY0} then 0 else LowestNibble(op)
  {
    var f := op.value / 4096;
    OperandNibbles(op);
    FieldsReassemble(op);
    assert HighestNibble(op) == f * 4096;
    assert LowestByte(op) == 16 * Y(op) + LowestNibble(op);
    if f == 0x0 || f == 0xE {
      ShapeOfSystemOrKey(op);
    } else if f == 0x8 {
      ShapeOfRegisterOp(op);
    } else if f == 0xF {
      ShapeOfMisc(op);
    } else if f == 0x5 || f == 0x9 {
      ShapeOfSkip(op);
    } else {
      ShapeOfOperand(op);
    }
  }

  /** Families 0 and E: the selector byte Shape puts back is the one the word carries. */
  lemma ShapeOfSystemOrKey(op: Opcode)
    requires Dispatch(op) != NoMatch && op.value / 4096 in {0x0, 0xE}
    requires HighestNibble(op) == op.value / 4096 * 4096 && LowestByte(op) == 16 * Y(op) + LowestNibble(op)
    requires Nnn(op) / 16 % 16 == Y(op) && Nnn(op) % 16 == LowestNibble(op)
    ensures Dispatch(op) !in {Op5XY0, Op9XY0}
    ensures Shape(Dispatch(op), Nnn(op)) == (op.value / 4096, Y(op), LowestNibble(op))
  {
  }

  /** Family 8: the selector nibble Shape puts back is the one the word carries. */
  lemma ShapeOfRegisterOp(op: Opcode)
    requires Dispatch(op) != NoMatch && op.value / 4096 == 0x8
    requires HighestNibble(op) == 0x8000 && Nnn(op) / 16 % 16 == Y(op) && Nnn(op) % 16 == LowestNibble(op)
    ensures Dispatch(op) !in {Op5XY0, Op9XY0}
    ensures Shape(Dispatch(op), Nnn(op)) == (op.value / 4096, Y(op), LowestNibble(op))
  {
  }

  /** Family F: the selector byte Shape puts back is the one the word carries. */
  lemma ShapeOfMisc(op: Opcode)
    requires Dispatch(op) != NoMatch && op.value / 4096 == 0xF
    requires HighestNibble(op) == 0xF000 && LowestByte(op) == 16 * Y(op) + LowestNibble(op)
    requires Nnn(op) / 16 % 16 == Y(op) && Nnn(op) % 16 == LowestNibble(op)
    ensures Dispatch(op) !in {Op5XY0, Op9XY0}
    ensures Shape(Dispatch(op), Nnn(op)) == (op.value / 4096, Y(op), LowestNibble(op))
  {
  }

  /** Families 5 and 9: Shape puts 0 where the word's ignored low nibble was. */
  lemma ShapeOfSkip(op: Opcode)
    requires op.value / 4096 in {0x5, 0x9}
    requires HighestNibble(op) == op.value / 4096 * 4096 && Nnn(op) / 16 % 16 == Y(op)
    ensures Dispatch(op) in {Op5XY0, Op9XY0}
    ensures Shape(Dispatch(op), Nnn(op)) == (op.value / 4096, Y(op), 0)
  {
  }

  /** The other families: Shape keeps the operand's own nibbles. */
  lemma ShapeOfOperand(op: Opcode)
    requires op.value / 4096 in {0x1, 0x2, 0x3, 0x4, 0x6, 0x7, 0xA, 0xB, 0xC, 0xD}
    requires HighestNibble(op) == op.value / 4096 * 4096
    requires Nnn(op) / 16 % 16 == Y(op) && Nnn(op) % 16 == LowestNibble(op)
    ensures Dispatch(op) !in {Op5XY0, Op9XY0}
    ensures Shape(Dispatch(op), Nnn(op)) == (op.value / 4096, Y(op), LowestNibble(op))
  {
  }

  /** The operand's nibbles are the word's lower three. */
  lemma OperandNibbles(op: Opcode)
    ensures Nnn(op) / 256 == X(op) && Nnn(op) / 16 % 16 == Y(op) && Nnn(op) % 16 == LowestNibble(op)
    ensures op.value / 4096 < 16
  {
    Nibbles(op.value);
    FieldsReassemble(op);
    Nibbles(Nnn(op));
  }

  /** Every recognised word is the canonical word of the instruction it decodes to, with its own
      low 12 bits as operand, except that 5XYN and 9XYN are decoded whatever their low nibble N. */
  lemma EncodeDispatch(op: Opcode)
    requires Dispatch(op) != NoMatch
    ensures Dispatch(op) !in {Op5XY0, Op9XY0} ==> Encode(Dispatch(op), Nnn(op)) == op.value
    ensures Dispatch(op) in {Op5XY0, Op9XY0} ==> Encode(Dispatch(op), Nnn(op)) == op.value / 16 * 16
  {
    ShapeOfDispatch(op);
    OperandNibbles(op);
    FieldsReassemble(op);
  }

  /** 5XYN and 9XYN decode as 5XY0 and 9XY0 whatever N is: the low nibble is not checked. */
  lemma SkipIgnoresLowNibble(x: nat, y: nat, n: nat)
    requires x < 16 && y < 16 && n < 16
    ensures Dispatch(Opcode(Compose(5, x, y, n))) == Op5XY0
    ensures Dispatch(Opcode(Compose(9, x, y, n))) == Op9XY0
  {
    ComposeFields(5, x, y, n);
    ComposeFields(9, x, y, n);
  }
}
