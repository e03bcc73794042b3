/** The instruction word and its six field extractors (src/opcode.rs). */
module Opcodes {
  import opened Bits

  /** A 16-bit CHIP-8 instruction word. */
  datatype Opcode = Opcode(value: U16)

  /** `value & 0xF000`: the instruction family, left in place. */
  function HighestNibble(op: Opcode): (r: U16)
    ensures r == op.value / 0x1000 * 0x1000
  {
    Pow2Values();
    NibbleMask(op.value, 12);
    assert Shl(15, 12) == 0xF000;
    And(op.value, 0xF000)
  }

  /** `value & 0x000F`. */
  function LowestNibble(op: Opcode): (r: U16)
    ensures r == op.value % 16
  {
    Pow2Values();
    AndLowMask(op.value, 4);
    And(op.value, 0x000F)
  }

  /** `(value & 0x00FF).to_be_bytes()[1]`. */
  function LowestByte(op: Opcode): (r: Byte)
    ensures r == op.value % 256
  {
    Pow2Values();
    AndLowMask(op.value, 8);
    ToBeBytes(And(op.value, 0x00FF))[1]
  }

  /** `value & 0x0FFF`: the 12-bit address operand. */
  function Nnn(op: Opcode): (r: U16)
    ensures r == op.value % 0x1000
  {
    Pow2Values();
    AndLowMask(op.value, 12);
    And(op.value, 0x0FFF)
  }

  /** `(value & 0x0F00).to_be_bytes()[0]`: the first register operand. */
  function X(op: Opcode): (r: nat)
    ensures r == op.value / 256 % 16 && r < 16
  {
    Pow2Values();
    NibbleMask(op.value, 8);
    assert Shl(15, 8) == 0x0F00;
    ToBeBytes(And(op.value, 0x0F00))[0]
  }

  /** `(value & 0x00F0).to_be_bytes()[1] >> 4`: the second register operand. */
  function Y(op: Opcode): (r: nat)
    ensures r == op.value / 16 % 16 && r < 16
  {
    Pow2Values();
    NibbleMask(op.value, 4);
    assert Shl(15, 4) == 0x00F0;
    var y := op.value / 16 % 16;
    DivModUnique(16 * y, 256, 0, 16 * y);
    DivModUnique(16 * y, 16, y, 0);
    assert ToBeBytes(And(op.value, 0x00F0))[1] == 16 * y;
    Shr(ToBeBytes(And(op.value, 0x00F0))[1], 4)
  }

  /** The word with the given four nibbles, most significant first. */
  function Compose(family: nat, x: nat, y: nat, n: nat): (r: U16)
    requires family < 16 && x < 16 && y < 16 && n < 16
  {
    family * 0x1000 + x * 0x100 + y * 0x10 + n
  }

  /** The extractors split a word into nibbles that put back together give the word again. */
  lemma FieldsReassemble(op: Opcode)
    ensures op.value == HighestNibble(op) + 256 * X(op) + 16 * Y(op) + LowestNibble(op)
    ensures Nnn(op) == 256 * X(op) + LowestByte(op)
    ensures LowestByte(op) == 16 * Y(op) + LowestNibble(op)
  {
    var v := op.value;
    Nibbles(v);
  }

  lemma Nibbles(v: U16)
    ensures v == v / 4096 * 4096 + 256 * (v / 256 % 16) + 16 * (v / 16 % 16) + v % 16
    ensures v % 4096 == 256 * (v / 256 % 16) + v % 256
    ensures v % 256 == 16 * (v / 16 % 16) + v % 16
  {
    var h, q := v / 16, v / 256;
    DivModUnique(v, 256, h / 16, 16 * (h % 16) + v % 16);
    DivModUnique(v, 4096, q / 16, 256 * (q % 16) + v % 256);
  }

  /** Composing nibbles and extracting them again gives back each nibble. */
  lemma ComposeFields(family: nat, x: nat, y: nat, n: nat)
    requires family < 16 && x < 16 && y < 16 && n < 16
    ensures var op := Opcode(Compose(family, x, y, n));
      HighestNibble(op) == family * 0x1000 && X(op) == x && Y(op) == y && LowestNibble(op) == n
      && LowestByte(op) == 16 * y + n && Nnn(op) == 256 * x + 16 * y + n
  {
    var v := Compose(family, x, y, n);
    ComposeDivMod(family, x, y, n);
  }

  lemma ComposeDivMod(family: nat, x: nat, y: nat, n: nat)
    requires family < 16 && x < 16 && y < 16 && n < 16
    ensures var v := family * 0x1000 + x * 0x100 + y * 0x10 + n;
      v / 4096 == family && v / 256 % 16 == x && v / 16 % 16 == y && v % 16 == n
      && v % 256 == 16 * y + n && v % 4096 == 256 * x + 16 * y + n
  {
    var v := family * 0x1000 + x * 0x100 + y * 0x10 + n;
    DivModUnique(v, 4096, family, 256 * x + 16 * y + n);
    DivModUnique(v, 256, 16 * family + x, 16 * y + n);
    DivModUnique(16 * family + x, 16, family, x);
    DivModUnique(v, 16, 256 * family + 16 * x + y, n);
    DivModUnique(256 * family + 16 * x + y, 16, 16 * family + x, y);
  }

  /** The word 0x1234 splits as the decoder's unit tests expect. */
  lemma ExampleWord()
    ensures var op := Opcode(0x1234);
      HighestNibble(op) == 0x1000 && LowestNibble(op) == 0x4 && LowestByte(op) == 0x34
      && Nnn(op) == 0x234 && X(op) == 0x2 && Y(op) == 0x3
  {
    ComposeFields(1, 2, 3, 4);
  }
}
