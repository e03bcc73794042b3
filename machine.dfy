/** The CHIP-8 machine as a value (src/chip.rs): its state, the memory layout built from a ROM,
    what every recognised instruction does to the state, the dispatch from instruction words to
    instructions, and one fetch-execute-tick cycle. The class in module Chip updates the same
    state in place and is proved against these functions. */
module Machine {
  import opened Bits
  import opened Opcodes

  const MemorySize: nat := 4096
  const StackLevels: nat := 16
  const NumRegisters: nat := 16
  const NumKeys: nat := 16
  const ScreenWidth: nat := 64
  const ScreenHeight: nat := 32
  /** Where the ROM is loaded and where execution starts. */
  const ProgramStart: nat := 0x200
  /** Register VF, the carry, borrow and collision flag. */
  const Flag: nat := 0xF

  /** The sixteen hexadecimal digit glyphs, five rows of one byte each. */
  const FontSet: seq<Byte> := [
    0xF0, 0x90, 0x90, 0x90, 0xF0,  // 0
    0x20, 0x60, 0x20, 0x20, 0x70,  // 1
    0xF0, 0x10, 0xF0, 0x80, 0xF0,  // 2
    0xF0, 0x10, 0xF0, 0x10, 0xF0,  // 3
    0x90, 0x90, 0xF0, 0x10, 0x10,  // 4
    0xF0, 0x80, 0xF0, 0x10, 0xF0,  // 5
    0xF0, 0x80, 0xF0, 0x90, 0xF0,  // 6
    0xF0, 0x10, 0x20, 0x40, 0x40,  // 7
    0xF0, 0x90, 0xF0, 0x90, 0xF0,  // 8
    0xF0, 0x90, 0xF0, 0x10, 0xF0,  // 9
    0xF0, 0x90, 0xF0, 0x90, 0x90,  // A
    0xE0, 0x90, 0xE0, 0x90, 0xE0,  // B
    0xF0, 0x80, 0x80, 0x80, 0xF0,  // C
    0xE0, 0x90, 0x90, 0x90, 0xE0,  // D
    0xF0, 0x80, 0xF0, 0x80, 0xF0,  // E
    0xF0, 0x80, 0xF0, 0x80, 0x80   // F
  ]

  /** Why the program would panic: an index outside an array, or `sp - 1` below zero. */
  datatype Fault = StackOverflow | StackUnderflow | MemoryOutOfBounds | KeyOutOfBounds

  datatype Result<T> = Ok(value: T) | Err(fault: Fault)

  /** What a step reports to its caller. */
  datatype Status = Running | Panicked(fault: Fault)

  /** All of `Chip8`'s fields; `graphics` is indexed `[x][y]`. */
  datatype State = State(
    memory: seq<Byte>,
    stack: seq<U16>,
    pc: nat,
    sp: nat,
    i: U16,
    v: seq<Byte>,
    keys: seq<Byte>,
    delayTimer: Byte,
    soundTimer: Byte,
    graphics: seq<seq<Byte>>)

  predicate IsScreen(g: seq<seq<Byte>>)
  {
    |g| == ScreenWidth && forall cx :: 0 <= cx < |g| ==> |g[cx]| == ScreenHeight
  }

  /** The fixed sizes of the arrays and the stack pointer's bound. */
  predicate Valid(s: State)
  {
    |s.memory| == MemorySize && |s.stack| == StackLevels && s.sp <= StackLevels
    && |s.v| == NumRegisters && |s.keys| == NumKeys && IsScreen(s.graphics)
  }

  /** Every pixel is 0 or 1. */
  predicate PixelsBinary(g: seq<seq<Byte>>)
    requires IsScreen(g)
  {
    forall cx, cy :: 0 <= cx < ScreenWidth && 0 <= cy < ScreenHeight ==> g[cx][cy] <= 1
  }

  /** Every pixel off. */
  function BlankScreen(): (g: seq<seq<Byte>>)
    ensures IsScreen(g)
  {
    seq(ScreenWidth, _ => seq(ScreenHeight, _ => 0))
  }

  /** Two screens with the same pixels are the same screen. */
  lemma SameScreen(g: seq<seq<Byte>>, h: seq<seq<Byte>>)
    requires IsScreen(g) && IsScreen(h)
    requires forall cx, cy :: 0 <= cx < ScreenWidth && 0 <= cy < ScreenHeight ==> g[cx][cy] == h[cx][cy]
    ensures g == h
  {
    forall cx | 0 <= cx < ScreenWidth
      ensures g[cx] == h[cx]
    {
    }
  }

  // ---------------------------------------------------------------- construction

  /** Memory after `load_file_into_memory`: the font at 0..80, the ROM from 0x200, zero elsewhere. */
  function InitialMemory(rom: seq<Byte>): (m: seq<Byte>)
    requires |rom| <= MemorySize - ProgramStart
  {
    seq(MemorySize, a requires 0 <= a < MemorySize =>
      if a < |FontSet| then FontSet[a]
      else if ProgramStart <= a < ProgramStart + |rom| then rom[a - ProgramStart]
      else 0)
  }

  /** The state `Chip8::new` builds around a ROM. */
  function Boot(rom: seq<Byte>): (s: State)
    requires |rom| <= MemorySize - ProgramStart
  {
    State(InitialMemory(rom), seq(StackLevels, _ => 0), ProgramStart, 0, 0,
          seq(NumRegisters, _ => 0), seq(NumKeys, _ => 0), 0, 0, BlankScreen())
  }

  // ---------------------------------------------------------------- timers

  /** One timer decrement, stopping at zero. */
  function Tick(t: Byte): (r: Byte)
    ensures r <= t && (t > 0 ==> r == t - 1) && (r == t ==> t == 0)
  {
    if t > 0 then t - 1 else t
  }

  // ---------------------------------------------------------------- instructions

  /** 00E0 */
  function ClearScreen(s: State): State
  {
    s.(graphics := BlankScreen(), pc := s.pc + 2)
  }

  /** 00EE: pops the return address; `sp - 1` panics when the stack is empty. */
  function ReturnFromSubroutine(s: State): Result<State>
    requires Valid(s)
  {
    if s.sp == 0 then Err(StackUnderflow)
    else Ok(s.(pc := s.stack[s.sp - 1], sp := s.sp - 1))
  }

  /** 1NNN */
  function JumpToNnn(s: State, op: Opcode): State
  {
    s.(pc := Nnn(op))
  }

  /** 2NNN: pushes pc + 2, truncated to `u16`; indexing `stack[16]` panics. */
  function CallSubroutineAtNnn(s: State, op: Opcode): Result<State>
    requires Valid(s)
  {
    if s.sp >= StackLevels then Err(StackOverflow)
    else Ok(s.(stack := s.stack[s.sp := (s.pc + 2) % 0x1_0000], sp := s.sp + 1, pc := Nnn(op)))
  }

  /** 3XNN */
  function SkipIfVxEqualsNn(s: State, op: Opcode): State
    requires Valid(s)
  {
    s.(pc := s.pc + (if s.v[X(op)] == LowestByte(op) then 4 else 2))
  }

  /** 4XNN */
  function SkipIfVxNotEqualsNn(s: State, op: Opcode): State
    requires Valid(s)
  {
    s.(pc := s.pc + (if s.v[X(op)] != LowestByte(op) then 4 else 2))
  }

  /** 5XY0 (any low nibble) */
  function SkipIfVxEqualsVy(s: State, op: Opcode): State
    requires Valid(s)
  {
    s.(pc := s.pc + (if s.v[X(op)] == s.v[Y(op)] then 4 else 2))
  }

  /** 6XNN */
  function SetVxToNn(s: State, op: Opcode): State
    requires Valid(s)
  {
    s.(v := s.v[X(op) := LowestByte(op)], pc := s.pc + 2)
  }

  /** 7XNN: `wrapping_add`, VF untouched. */
  function AddNnToVx(s: State, op: Opcode): State
    requires Valid(s)
  {
    s.(v := s.v[X(op) := (s.v[X(op)] as int + LowestByte(op)) % 256], pc := s.pc + 2)
  }

  /** 8XY0 */
  function SetVxToVy(s: State, op: Opcode): State
    requires Valid(s)
  {
    s.(v := s.v[X(op) := s.v[Y(op)]], pc := s.pc + 2)
  }

  /** 8XY1 */
  function SetVxToVxOrVy(s: State, op: Opcode): State
    requires Valid(s)
  {
    s.(v := s.v[X(op) := OrByte(s.v[X(op)], s.v[Y(op)])], pc := s.pc + 2)
  }

  /** 8XY2 */
  function SetVxToVxAndVy(s: State, op: Opcode): State
    requires Valid(s)
  {
    s.(v := s.v[X(op) := AndByte(s.v[X(op)], s.v[Y(op)])], pc := s.pc + 2)
  }

  /** 8XY3 */
  function SetVxToVxXorVy(s: State, op: Opcode): State
    requires Valid(s)
  {
    s.(v := s.v[X(op) := XorByte(s.v[X(op)], s.v[Y(op)])], pc := s.pc + 2)
  }

  /** 8XY4: VF is written first, then Vx, so for X = F the sum wins. */
  function AddVyToVx(s: State, op: Opcode): State
    requires Valid(s)
  {
    var r := OverflowingAdd(s.v[X(op)], s.v[Y(op)]);
    s.(v := s.v[Flag := if r.1 then 1 else 0][X(op) := r.0], pc := s.pc + 2)
  }

  /** 8XY5: VF = 1 when there is no borrow; written before Vx. */
  function SubtractVyFromVx(s: State, op: Opcode): State
    requires Valid(s)
  {
    var r := OverflowingSub(s.v[X(op)], s.v[Y(op)]);
    s.(v := s.v[Flag := if !r.1 then 1 else 0][X(op) := r.0], pc := s.pc + 2)
  }

  /** 8XY6: VF = Vx & 1, then Vx >>= 1 (re-reading Vx, which is VF when X = F). */
  function StoreLeastSignificantVxBitInVf(s: State, op: Opcode): State
    requires Valid(s)
  {
    var v1 := s.v[Flag := AndByte(s.v[X(op)], 1)];
    s.(v := v1[X(op) := Shr(v1[X(op)], 1)], pc := s.pc + 2)
  }

  /** 8XY7: VF = 1 when there is no borrow; written before Vx. */
  function SetVxToVyMinusVx(s: State, op: Opcode): State
    requires Valid(s)
  {
    var r := OverflowingSub(s.v[Y(op)], s.v[X(op)]);
    s.(v := s.v[Flag := if !r.1 then 1 else 0][X(op) := r.0], pc := s.pc + 2)
  }

  /** 8XYE: VF = Vx >> 7 & 1, then Vx <<= 1 on `u8` (re-reading Vx). */
  function StoreMostSignificantVxBitInVf(s: State, op: Opcode): State
    requires Valid(s)
  {
    var v1 := s.v[Flag := AndByte(Shr(s.v[X(op)], 7), 1)];
    s.(v := v1[X(op) := Shl(v1[X(op)], 1) % 256], pc := s.pc + 2)
  }

  /** 9XY0 (any low nibble) */
  function SkipIfVxNotEqualsVy(s: State, op: Opcode): State
    requires Valid(s)
  {
    s.(pc := s.pc + (if s.v[X(op)] != s.v[Y(op)] then 4 else 2))
  }

  /** ANNN */
  function SetIToNnn(s: State, op: Opcode): State
  {
    s.(i := Nnn(op), pc := s.pc + 2)
  }

  /** BNNN: `(V0 as u16).wrapping_add(nnn)`, a 16-bit sum. */
  function JumpToNnnPlusV0(s: State, op: Opcode): State
    requires Valid(s)
  {
    s.(pc := (s.v[0] as int + Nnn(op)) % 0x1_0000)
  }

  /** CXNN, with the random byte supplied by the caller. */
  function SetVxToBitwiseAndWithRand(s: State, op: Opcode, random: Byte): State
    requires Valid(s)
  {
    s.(v := s.v[X(op) := AndByte(random, LowestByte(op))], pc := s.pc + 2)
  }

  /** Bit `w` of a sprite row, counted from the left: `(row >> (7 - w)) & 0x1`. */
  function SpriteBit(row: Byte, w: nat): (b: Byte)
    requires w < 8
    ensures b == row / Pow2(7 - w) % 2
  {
    AndLowMask(Shr(row, 7 - w), 1);
    AndByte(Shr(row, 7 - w), 1)
  }

  /** The `n` sprite rows read from memory at `i`. */
  function SpriteRows(memory: seq<Byte>, i: nat, n: nat): (rows: seq<Byte>)
    requires n == 0 || i + n <= |memory|
    ensures |rows| == n
  {
    seq(n, r requires 0 <= r < n => memory[i + r])
  }

  /** The sprite placed at (xv, yv) lies over screen cell (cx, cy); cells past the edge are not
      on the screen at all, so the sprite is clipped rather than wrapped. */
  predicate Covers(rows: seq<Byte>, xv: nat, yv: nat, cx: int, cy: int)
  {
    xv <= cx < xv + 8 && yv <= cy < yv + |rows|
  }

  /** The screen after XOR-ing the sprite onto it. */
  function DrawnScreen(g: seq<seq<Byte>>, rows: seq<Byte>, xv: nat, yv: nat): (g': seq<seq<Byte>>)
    requires IsScreen(g)
    ensures IsScreen(g')
  {
    seq(ScreenWidth, cx requires 0 <= cx < ScreenWidth =>
      seq(ScreenHeight, cy requires 0 <= cy < ScreenHeight =>
        if Covers(rows, xv, yv, cx, cy) then XorByte(g[cx][cy], SpriteBit(rows[cy - yv], cx - xv))
        else g[cx][cy]))
  }

  /** Sprite bit (r, c) is set and lands on a visible pixel that is already 1. */
  predicate Hit(g: seq<seq<Byte>>, rows: seq<Byte>, xv: nat, yv: nat, r: nat, c: nat)
    requires IsScreen(g) && r < |rows| && c < 8
  {
    xv + c < ScreenWidth && yv + r < ScreenHeight
    && g[xv + c][yv + r] == 1 && SpriteBit(rows[r], c) == 1
  }

  predicate Collides(g: seq<seq<Byte>>, rows: seq<Byte>, xv: nat, yv: nat)
    requires IsScreen(g)
  {
    exists r: nat, c: nat :: r < |rows| && c < 8 && Hit(g, rows, xv, yv, r, c)
  }

  /** DXYN: clears VF, XORs n rows from memory[i..] onto the screen at (Vx % 64, Vy % 32),
      and sets VF when a set bit hits a pixel that was 1. Reading memory[i + r] past the end
      panics. */
  function DrawSpriteAtVxVy(s: State, op: Opcode): Result<State>
    requires Valid(s)
  {
    var n := LowestNibble(op);
    if n > 0 && s.i + n > MemorySize then Err(MemoryOutOfBounds)
    else
      var xv := s.v[X(op)] % ScreenWidth;
      var yv := s.v[Y(op)] % ScreenHeight;
      var rows := SpriteRows(s.memory, s.i, n);
      Ok(s.(graphics := DrawnScreen(s.graphics, rows, xv, yv),
            v := s.v[Flag := if Collides(s.graphics, rows, xv, yv) then 1 else 0],
            pc := s.pc + 2))
  }

  /** EX9E: `keys[Vx]` panics when Vx >= 16. */
  function SkipIfVxKeyIsPressed(s: State, op: Opcode): Result<State>
    requires Valid(s)
  {
    var k := s.v[X(op)];
    if k >= NumKeys then Err(KeyOutOfBounds)
    else Ok(s.(pc := s.pc + (if s.keys[k] == 1 then 4 else 2)))
  }

  /** EXA1: `keys[Vx]` panics when Vx >= 16. */
  function SkipIfVxKeyIsNotPressed(s: State, op: Opcode): Result<State>
    requires Valid(s)
  {
    var k := s.v[X(op)];
    if k >= NumKeys then Err(KeyOutOfBounds)
    else Ok(s.(pc := s.pc + (if s.keys[k] == 0 then 4 else 2)))
  }

  /** FX07 */
  function SetVxToDelayTimerValue(s: State, op: Opcode): State
    requires Valid(s)
  {
    s.(v := s.v[X(op) := s.delayTimer], pc := s.pc + 2)
  }

  /** How many keys read as down (value 1). */
  function PressedCount(keys: seq<Byte>): (n: nat)
    ensures n <= |keys|
    ensures n == 0 <==> forall k :: 0 <= k < |keys| ==> keys[k] != 1
  {
    if keys == [] then 0
    else PressedCount(keys[..|keys| - 1]) + (if keys[|keys| - 1] == 1 then 1 else 0)
  }

  /** What the key scan leaves in Vx: the last (highest) key index that is down, or Vx as it
      was when no key is down. */
  function LastPressed(keys: seq<Byte>, vx: Byte): (r: Byte)
    requires |keys| <= 256
    ensures (forall k :: 0 <= k < |keys| ==> keys[k] != 1) ==> r == vx
    ensures (exists k :: 0 <= k < |keys| && keys[k] == 1) ==>
      r < |keys| && keys[r] == 1 && forall k :: r < k < |keys| ==> keys[k] != 1
  {
    if keys == [] then vx
    else if keys[|keys| - 1] == 1 then |keys| - 1
    else LastPressed(keys[..|keys| - 1], vx)
  }

  /** FX0A: for every key that is down, Vx := its index and pc += 2; with no key down nothing
      changes, so the same instruction is fetched again. */
  function AwaitKeyPressAndStoreInVx(s: State, op: Opcode): State
    requires Valid(s)
  {
    s.(v := s.v[X(op) := LastPressed(s.keys, s.v[X(op)])], pc := s.pc + 2 * PressedCount(s.keys))
  }

  /** FX15 */
  function SetDelayTimerToVx(s: State, op: Opcode): State
    requires Valid(s)
  {
    s.(delayTimer := s.v[X(op)], pc := s.pc + 2)
  }

  /** FX18 */
  function SetSoundTimerToVx(s: State, op: Opcode): State
    requires Valid(s)
  {
    s.(soundTimer := s.v[X(op)], pc := s.pc + 2)
  }

  /** FX1E: `wrapping_add` on `u16`, VF untouched. */
  function AddVxToI(s: State, op: Opcode): State
    requires Valid(s)
  {
    s.(i := (s.v[X(op)] as int + s.i) % 0x1_0000, pc := s.pc + 2)
  }

  /** FX29: `wrapping_mul(5)` of the whole byte Vx. */
  function SetIToSpriteLocation(s: State, op: Opcode): State
    requires Valid(s)
  {
    s.(i := (s.v[X(op)] as int * 5) % 0x1_0000, pc := s.pc + 2)
  }

  /** FX33: hundreds, tens and ones of Vx at memory[i], [i + 1], [i + 2]. */
  function SetBcdOfVx(s: State, op: Opcode): Result<State>
    requires Valid(s)
  {
    var vx := s.v[X(op)];
    if s.i + 2 >= MemorySize then Err(MemoryOutOfBounds)
    else Ok(s.(memory := s.memory[s.i := vx / 100][s.i + 1 := vx / 10 % 10][s.i + 2 := vx % 100 % 10],
               pc := s.pc + 2))
  }

  /** FX55: memory[i..=i+x] := v[0..=x]; i is not changed. */
  function RegisterDump(s: State, op: Opcode): Result<State>
    requires Valid(s)
  {
    var x := X(op);
    if s.i + x >= MemorySize then Err(MemoryOutOfBounds)
    else Ok(s.(memory := s.memory[..s.i] + s.v[..x + 1] + s.memory[s.i + x + 1..], pc := s.pc + 2))
  }

  /** FX65: v[0..=x] := memory[i..=i+x]; i is not changed. */
  function RegisterLoad(s: State, op: Opcode): Result<State>
    requires Valid(s)
  {
    var x := X(op);
    if s.i + x >= MemorySize then Err(MemoryOutOfBounds)
    else Ok(s.(v := s.memory[s.i..s.i + x + 1] + s.v[x + 1..], pc := s.pc + 2))
  }

  // ---------------------------------------------------------------- dispatch

  /** The handler `decode_opcode` selects; NoMatch is its "No Match" arm. */
  datatype Instruction =
    | Op00E0 | Op00EE | Op1NNN | Op2NNN | Op3XNN | Op4XNN | Op5XY0 | Op6XNN | Op7XNN
    | Op8XY0 | Op8XY1 | Op8XY2 | Op8XY3 | Op8XY4 | Op8XY5 | Op8XY6 | Op8XY7 | Op8XYE
    | Op9XY0 | OpANNN | OpBNNN | OpCXNN | OpDXYN | OpEX9E | OpEXA1
    | OpFX07 | OpFX0A | OpFX15 | OpFX18 | OpFX1E | OpFX29 | OpFX33 | OpFX55 | OpFX65
    | NoMatch

  /** `decode_opcode`'s choice: the highest nibble, then the lowest byte (families 0, E, F)
      or the lowest nibble (family 8). */
  function Dispatch(op: Opcode): Instruction
  {
    match HighestNibble(op)
    case 0x0000 =>
      (match LowestByte(op)
       case 0xE0 => Op00E0
       case 0xEE => Op00EE
       case _ => NoMatch)
    case 0x1000 => Op1NNN
    case 0x2000 => Op2NNN
    case 0x3000 => Op3XNN
    case 0x4000 => Op4XNN
    case 0x5000 => Op5XY0
    case 0x6000 => Op6XNN
    case 0x7000 => Op7XNN
    case 0x8000 =>
      (match LowestNibble(op)
       case 0x0 => Op8XY0
       case 0x1 => Op8XY1
       case 0x2 => Op8XY2
       case 0x3 => Op8XY3
       case 0x4 => Op8XY4
       case 0x5 => Op8XY5
       case 0x6 => Op8XY6
       case 0x7 => Op8XY7
       case 0xE => Op8XYE
       case _ => NoMatch)
    case 0x9000 => Op9XY0
    case 0xA000 => OpANNN
    case 0xB000 => OpBNNN
    case 0xC000 => OpCXNN
    case 0xD000 => OpDXYN
    case 0xE000 =>
      (match LowestByte(op)
       case 0x9E => OpEX9E
       case 0xA1 => OpEXA1
       case _ => NoMatch)
    case 0xF000 =>
      (match LowestByte(op)
       case 0x07 => OpFX07
       case 0x0A => OpFX0A
       case 0x15 => OpFX15
       case 0x18 => OpFX18
       case 0x1E => OpFX1E
       case 0x29 => OpFX29
       case 0x33 => OpFX33
       case 0x55 => OpFX55
       case 0x65 => OpFX65
       case _ => NoMatch)
    case _ => NoMatch
  }

  /** `decode_opcode` applied to a state; an unrecognised word changes nothing. */
  function Execute(s: State, op: Opcode, random: Byte): (r: Result<State>)
    requires Valid(s)
    ensures r.Ok? ==> Valid(r.value)
  {
    match Dispatch(op)
    case Op00E0 => Ok(ClearScreen(s))
    case Op00EE => ReturnFromSubroutine(s)
    case Op1NNN => Ok(JumpToNnn(s, op))
    case Op2NNN => CallSubroutineAtNnn(s, op)
    case Op3XNN => Ok(SkipIfVxEqualsNn(s, op))
    case Op4XNN => Ok(SkipIfVxNotEqualsNn(s, op))
    case Op5XY0 => Ok(SkipIfVxEqualsVy(s, op))
    case Op6XNN => Ok(SetVxToNn(s, op))
    case Op7XNN => Ok(AddNnToVx(s, op))
    case Op8XY0 => Ok(SetVxToVy(s, op))
    case Op8XY1 => Ok(SetVxToVxOrVy(s, op))
    case Op8XY2 => Ok(SetVxToVxAndVy(s, op))
    case Op8XY3 => Ok(SetVxToVxXorVy(s, op))
    case Op8XY4 => Ok(AddVyToVx(s, op))
    case Op8XY5 => Ok(SubtractVyFromVx(s, op))
    case Op8XY6 => Ok(StoreLeastSignificantVxBitInVf(s, op))
    case Op8XY7 => Ok(SetVxToVyMinusVx(s, op))
    case Op8XYE => Ok(StoreMostSignificantVxBitInVf(s, op))
    case Op9XY0 => Ok(SkipIfVxNotEqualsVy(s, op))
    case OpANNN => Ok(SetIToNnn(s, op))
    case OpBNNN => Ok(JumpToNnnPlusV0(s, op))
    case OpCXNN => Ok(SetVxToBitwiseAndWithRand(s, op, random))
    case OpDXYN => DrawSpriteAtVxVy(s, op)
    case OpEX9E => SkipIfVxKeyIsPressed(s, op)
    case OpEXA1 => SkipIfVxKeyIsNotPressed(s, op)
    case OpFX07 => Ok(SetVxToDelayTimerValue(s, op))
    case OpFX0A => Ok(AwaitKeyPressAndStoreInVx(s, op))
    case OpFX15 => Ok(SetDelayTimerToVx(s, op))
    case OpFX18 => Ok(SetSoundTimerToVx(s, op))
    case OpFX1E => Ok(AddVxToI(s, op))
    case OpFX29 => Ok(SetIToSpriteLocation(s, op))
    case OpFX33 => SetBcdOfVx(s, op)
    case OpFX55 => RegisterDump(s, op)
    case OpFX65 => RegisterLoad(s, op)
    case NoMatch => Ok(s)
  }

  /** `emulate_cycle`: fetch the word at pc, execute it, then tick both timers. */
  function Cycle(s: State, random: Byte): (r: Result<State>)
    requires Valid(s)
    ensures r.Ok? ==> Valid(r.value)
  {
    if s.pc + 1 >= MemorySize then Err(MemoryOutOfBounds)
    else
      match Execute(s, Opcode(JoinBytes(s.memory[s.pc], s.memory[s.pc + 1])), random)
      case Err(f) => Err(f)
      case Ok(t) => Ok(t.(delayTimer := Tick(t.delayTimer), soundTimer := Tick(t.soundTimer)))
  }

  /** The status a step reports and the state it leaves, given the semantics' result: on a fault
      the state is left as it was. */
  predicate Reflects(r: Result<State>, status: Status, before: State, after: State)
  {
    match r
    case Ok(t) => status == Running && after == t
    case Err(f) => status == Panicked(f) && after == before
  }
}
