/** `Chip8` (src/chip.rs) as an object whose arrays and registers the handlers update in place.
    Every method is proved to leave exactly the state that the function of the same name in
    module Machine gives, and to report the fault that function reports. */
module Chip {
  import opened Bits
  import opened Opcodes
  import M = Machine

  /** `load_file_into_memory`, with the file's contents passed in: copies the ROM to 0x200 and
      then the font to 0..80 of a zeroed buffer. */
  method LoadFileIntoMemory(rom: seq<Byte>) returns (memory: seq<Byte>)
    requires |rom| <= M.MemorySize - M.ProgramStart
    ensures memory == M.InitialMemory(rom)
  {
    var buffer := new Byte[M.MemorySize](_ => 0);
    var idx := 0;
    while idx < |rom|
      invariant 0 <= idx <= |rom|
      invariant forall a :: 0 <= a < M.MemorySize ==>
        buffer[a] == if M.ProgramStart <= a < M.ProgramStart + idx then rom[a - M.ProgramStart] else 0
    {
      buffer[idx + M.ProgramStart] := rom[idx];
      idx := idx + 1;
    }
    var f := 0;
    while f < |M.FontSet|
      invariant 0 <= f <= |M.FontSet|
      invariant forall a :: 0 <= a < M.MemorySize ==>
        buffer[a] == if a < f then M.FontSet[a]
                     else if M.ProgramStart <= a < M.ProgramStart + |rom| then rom[a - M.ProgramStart]
                     else 0
    {
      buffer[f] := M.FontSet[f];
      f := f + 1;
    }
    memory := buffer[..];
  }

  /** Sprite cell (r, c) is scanned before cell (h, w): rows top to bottom, each left to right. */
  ghost predicate Before(r: int, c: int, h: int, w: int)
  {
    r < h || (r == h && c < w)
  }

  /** Pixel (cx, cy) once the scan of `draw_sprite_at_vx_vy` has reached sprite cell (h, w). */
  ghost function PartlyDrawn(g: seq<seq<Byte>>, rows: seq<Byte>, xv: nat, yv: nat, h: nat, w: nat, cx: nat, cy: nat): Byte
    requires M.IsScreen(g) && cx < M.ScreenWidth && cy < M.ScreenHeight
  {
    if M.Covers(rows, xv, yv, cx, cy) && Before(cy - yv, cx - xv, h, w)
    then XorByte(g[cx][cy], M.SpriteBit(rows[cy - yv], cx - xv))
    else g[cx][cy]
  }

  /** Some sprite cell scanned before (h, w) hits a lit pixel. */
  ghost predicate CollidesBefore(g: seq<seq<Byte>>, rows: seq<Byte>, xv: nat, yv: nat, h: nat, w: nat)
    requires M.IsScreen(g)
  {
    exists r: nat, c: nat :: r < |rows| && c < 8 && Before(r, c, h, w) && M.Hit(g, rows, xv, yv, r, c)
  }

  /** Scanning cell (h, w) changes only pixel (xv + w, yv + h), and only when it is on screen. */
  lemma ScanCell(g: seq<seq<Byte>>, rows: seq<Byte>, xv: nat, yv: nat, h: nat, w: nat)
    requires M.IsScreen(g) && h < |rows| && w < 8
    ensures forall cx: nat, cy: nat {:trigger PartlyDrawn(g, rows, xv, yv, h, w + 1, cx, cy)} ::
      cx < M.ScreenWidth && cy < M.ScreenHeight ==>
        PartlyDrawn(g, rows, xv, yv, h, w + 1, cx, cy) ==
          if cx == xv + w && cy == yv + h then XorByte(g[cx][cy], M.SpriteBit(rows[h], w))
          else PartlyDrawn(g, rows, xv, yv, h, w, cx, cy)
    ensures xv + w < M.ScreenWidth && yv + h < M.ScreenHeight ==>
      PartlyDrawn(g, rows, xv, yv, h, w, xv + w, yv + h) == g[xv + w][yv + h]
    ensures CollidesBefore(g, rows, xv, yv, h, w + 1) <==>
      CollidesBefore(g, rows, xv, yv, h, w) || M.Hit(g, rows, xv, yv, h, w)
  {
    if CollidesBefore(g, rows, xv, yv, h, w + 1) && !M.Hit(g, rows, xv, yv, h, w) {
      var r: nat, c: nat :| r < |rows| && c < 8 && Before(r, c, h, w + 1) && M.Hit(g, rows, xv, yv, r, c);
      assert Before(r, c, h, w);
    }
  }

  /** Finishing row h is starting row h + 1. */
  lemma ScanRow(g: seq<seq<Byte>>, rows: seq<Byte>, xv: nat, yv: nat, h: nat)
    requires M.IsScreen(g)
    ensures forall cx: nat, cy: nat {:trigger PartlyDrawn(g, rows, xv, yv, h + 1, 0, cx, cy)} ::
      cx < M.ScreenWidth && cy < M.ScreenHeight ==>
        PartlyDrawn(g, rows, xv, yv, h + 1, 0, cx, cy) == PartlyDrawn(g, rows, xv, yv, h, 8, cx, cy)
    ensures CollidesBefore(g, rows, xv, yv, h + 1, 0) == CollidesBefore(g, rows, xv, yv, h, 8)
  {
    if CollidesBefore(g, rows, xv, yv, h + 1, 0) {
      var r: nat, c: nat :| r < |rows| && c < 8 && Before(r, c, h + 1, 0) && M.Hit(g, rows, xv, yv, r, c);
      assert Before(r, c, h, 8);
    }
    if CollidesBefore(g, rows, xv, yv, h, 8) {
      var r: nat, c: nat :| r < |rows| && c < 8 && Before(r, c, h, 8) && M.Hit(g, rows, xv, yv, r, c);
      assert Before(r, c, h + 1, 0);
    }
  }

  /** Once every row is scanned, the partial picture is the drawn screen and the collision is
      the whole sprite's. */
  lemma ScanComplete(g: seq<seq<Byte>>, rows: seq<Byte>, xv: nat, yv: nat)
    requires M.IsScreen(g)
    ensures forall cx: nat, cy: nat {:trigger PartlyDrawn(g, rows, xv, yv, |rows|, 0, cx, cy)} ::
      cx < M.ScreenWidth && cy < M.ScreenHeight ==>
        PartlyDrawn(g, rows, xv, yv, |rows|, 0, cx, cy) == M.DrawnScreen(g, rows, xv, yv)[cx][cy]
    ensures CollidesBefore(g, rows, xv, yv, |rows|, 0) == M.Collides(g, rows, xv, yv)
  {
    if M.Collides(g, rows, xv, yv) {
      var r: nat, c: nat :| r < |rows| && c < 8 && M.Hit(g, rows, xv, yv, r, c);
      assert Before(r, c, |rows|, 0);
    }
  }

  /** Before the scan starts nothing is drawn and nothing collides. */
  lemma ScanStart(g: seq<seq<Byte>>, rows: seq<Byte>, xv: nat, yv: nat)
    requires M.IsScreen(g)
    ensures forall cx: nat, cy: nat {:trigger PartlyDrawn(g, rows, xv, yv, 0, 0, cx, cy)} ::
      cx < M.ScreenWidth && cy < M.ScreenHeight ==> PartlyDrawn(g, rows, xv, yv, 0, 0, cx, cy) == g[cx][cy]
    ensures !CollidesBefore(g, rows, xv, yv, 0, 0)
  {
  }

  class Chip8 {
    const memory: array<Byte>
    const stack: array<U16>
    var pc: nat
    var sp: nat
    var i: U16
    const v: array<Byte>
    const keys: array<Byte>
    var delayTimer: Byte
    var soundTimer: Byte
    /** Indexed `[x, y]`, 64 columns of 32 pixels. */
    var graphics: array2<Byte>

    ghost predicate Valid()
      reads this
    {
      memory.Length == M.MemorySize && stack.Length == M.StackLevels && sp <= M.StackLevels
      && v.Length == M.NumRegisters && keys.Length == M.NumKeys
      && graphics.Length0 == M.ScreenWidth && graphics.Length1 == M.ScreenHeight
      && memory != v && memory != keys && v != keys
    }

    ghost function Screen(): (g: seq<seq<Byte>>)
      reads this, graphics
      requires Valid()
      ensures M.IsScreen(g)
      ensures forall cx, cy :: 0 <= cx < M.ScreenWidth && 0 <= cy < M.ScreenHeight ==>
        g[cx][cy] == graphics[cx, cy]
    {
      var g := graphics;
      seq(M.ScreenWidth, cx requires 0 <= cx < M.ScreenWidth reads g =>
        seq(M.ScreenHeight, cy requires 0 <= cy < M.ScreenHeight reads g => g[cx, cy]))
    }

    /** The object's fields as a Machine state. */
    ghost function State(): (s: M.State)
      reads this, memory, stack, v, keys, graphics
      requires Valid()
      ensures M.Valid(s)
    {
      M.State(memory[..], stack[..], pc, sp, i, v[..], keys[..], delayTimer, soundTimer, Screen())
    }

    /** `Chip8::new`, with the ROM file's contents passed in. */
    constructor (rom: seq<Byte>)
      requires |rom| <= M.MemorySize - M.ProgramStart
      ensures Valid() && State() == M.Boot(rom)
    {
      var buffer := LoadFileIntoMemory(rom);
      memory := new Byte[M.MemorySize](a requires 0 <= a < M.MemorySize => buffer[a]);
      stack := new U16[M.StackLevels](_ => 0);
      keys := new Byte[M.NumKeys](_ => 0);
      v := new Byte[M.NumRegisters](_ => 0);
      graphics := new Byte[M.ScreenWidth, M.ScreenHeight]((_, _) => 0);
      pc := M.ProgramStart;
      sp := 0;
      i := 0;
      delayTimer := 0;
      soundTimer := 0;
      new;
      assert memory[..] == buffer;
      M.SameScreen(Screen(), M.BlankScreen());
    }

    /** `fetch_opcode`: the big-endian word at pc. */
    function FetchOpcode(): (w: U16)
      reads this, memory
      requires Valid() && pc + 1 < M.MemorySize
      ensures w == 256 * (memory[pc] as int) + memory[pc + 1] as int
      ensures ToBeBytes(w) == [memory[pc], memory[pc + 1]]
    {
      JoinBytes(memory[pc], memory[pc + 1])
    }

    method ClearScreen(op: Opcode)
      requires Valid()
      modifies this`graphics, this`pc
      ensures Valid() && State() == M.ClearScreen(old(State()))
    {
      graphics := new Byte[M.ScreenWidth, M.ScreenHeight]((_, _) => 0);
      pc := pc + 2;
      M.SameScreen(Screen(), M.BlankScreen());
    }

    method ReturnFromSubroutine(op: Opcode) returns (status: M.Status)
      requires Valid()
      modifies this`pc, this`sp
      ensures Valid() && M.Reflects(M.ReturnFromSubroutine(old(State())), status, old(State()), State())
    {
      if sp == 0 {
        return M.Panicked(M.StackUnderflow);
      }
      pc := stack[sp - 1];
      sp := sp - 1;
      status := M.Running;
    }

    method JumpToNnn(op: Opcode)
      requires Valid()
      modifies this`pc
      ensures Valid() && State() == M.JumpToNnn(old(State()), op)
    {
      var address := Nnn(op);
      pc := address;
    }

    method CallSubroutineAtNnn(op: Opcode) returns (status: M.Status)
      requires Valid()
      modifies this`pc, this`sp, stack
      ensures Valid() && M.Reflects(M.CallSubroutineAtNnn(old(State()), op), status, old(State()), State())
    {
      if sp >= M.StackLevels {
        return M.Panicked(M.StackOverflow);
      }
      pc := pc + 2;
      var address := Nnn(op);
      stack[sp] := pc % 0x1_0000;
      sp := sp + 1;
      pc := address;
      status := M.Running;
    }

    method SkipIfVxEqualsNn(op: Opcode)
      requires Valid()
      modifies this`pc
      ensures Valid() && State() == M.SkipIfVxEqualsNn(old(State()), op)
    {
      var value := LowestByte(op);
      if v[X(op)] == value {
        pc := pc + 2;
      }
      pc := pc + 2;
    }

    method SkipIfVxNotEqualsNn(op: Opcode)
      requires Valid()
      modifies this`pc
      ensures Valid() && State() == M.SkipIfVxNotEqualsNn(old(State()), op)
    {
      var value := LowestByte(op);
      if v[X(op)] != value {
        pc := pc + 2;
      }
      pc := pc + 2;
    }

    method SkipIfVxEqualsVy(op: Opcode)
      requires Valid()
      modifies this`pc
      ensures Valid() && State() == M.SkipIfVxEqualsVy(old(State()), op)
    {
      if v[X(op)] == v[Y(op)] {
        pc := pc + 2;
      }
      pc := pc + 2;
    }

    method SetVxToNn(op: Opcode)
      requires Valid()
      modifies this`pc, v
      ensures Valid() && State() == M.SetVxToNn(old(State()), op)
    {
      v[X(op)] := LowestByte(op);
      pc := pc + 2;
    }

    method AddNnToVx(op: Opcode)
      requires Valid()
      modifies this`pc, v
      ensures Valid() && State() == M.AddNnToVx(old(State()), op)
    {
      var x := X(op);
      v[x] := (v[x] as int + LowestByte(op)) % 256;
      pc := pc + 2;
    }

    method SetVxToVy(op: Opcode)
      requires Valid()
      modifies this`pc, v
      ensures Valid() && State() == M.SetVxToVy(old(State()), op)
    {
      v[X(op)] := v[Y(op)];
      pc := pc + 2;
    }

    method SetVxToVxOrVy(op: Opcode)
      requires Valid()
      modifies this`pc, v
      ensures Valid() && State() == M.SetVxToVxOrVy(old(State()), op)
    {
      var x, y := X(op), Y(op);
      v[x] := OrByte(v[x], v[y]);
      pc := pc + 2;
    }

    method SetVxToVxAndVy(op: Opcode)
      requires Valid()
      modifies this`pc, v
      ensures Valid() && State() == M.SetVxToVxAndVy(old(State()), op)
    {
      var x, y := X(op), Y(op);
      v[x] := AndByte(v[x], v[y]);
      pc := pc + 2;
    }

    method SetVxToVxXorVy(op: Opcode)
      requires Valid()
      modifies this`pc, v
      ensures Valid() && State() == M.SetVxToVxXorVy(old(State()), op)
    {
      var x, y := X(op), Y(op);
      v[x] := XorByte(v[x], v[y]);
      pc := pc + 2;
    }

    method AddVyToVx(op: Opcode)
      requires Valid()
      modifies this`pc, v
      ensures Valid() && State() == M.AddVyToVx(old(State()), op)
    {
      var x, y := X(op), Y(op);
      var (addition, overflow) := OverflowingAdd(v[x], v[y]);
      v[M.Flag] := if overflow then 1 else 0;
      v[x] := addition;
      pc := pc + 2;
    }

    method SubtractVyFromVx(op: Opcode)
      requires Valid()
      modifies this`pc, v
      ensures Valid() && State() == M.SubtractVyFromVx(old(State()), op)
    {
      var x, y := X(op), Y(op);
      var (difference, overflow) := OverflowingSub(v[x], v[y]);
      v[M.Flag] := if !overflow then 1 else 0;
      v[x] := difference;
      pc := pc + 2;
    }

    method StoreLeastSignificantVxBitInVf(op: Opcode)
      requires Valid()
      modifies this`pc, v
      ensures Valid() && State() == M.StoreLeastSignificantVxBitInVf(old(State()), op)
    {
      var x := X(op);
      v[M.Flag] := AndByte(v[x], 1);
      v[x] := Shr(v[x], 1);
      pc := pc + 2;
    }

    method SetVxToVyMinusVx(op: Opcode)
      requires Valid()
      modifies this`pc, v
      ensures Valid() && State() == M.SetVxToVyMinusVx(old(State()), op)
    {
      var x, y := X(op), Y(op);
      var (difference, overflow) := OverflowingSub(v[y], v[x]);
      v[M.Flag] := if !overflow then 1 else 0;
      v[x] := difference;
      pc := pc + 2;
    }

    method StoreMostSignificantVxBitInVf(op: Opcode)
      requires Valid()
      modifies this`pc, v
      ensures Valid() && State() == M.StoreMostSignificantVxBitInVf(old(State()), op)
    {
      var x := X(op);
      v[M.Flag] := AndByte(Shr(v[x], 7), 1);
      v[x] := Shl(v[x], 1) % 256;
      pc := pc + 2;
    }

    method SkipIfVxNotEqualsVy(op: Opcode)
      requires Valid()
      modifies this`pc
      ensures Valid() && State() == M.SkipIfVxNotEqualsVy(old(State()), op)
    {
      if v[X(op)] != v[Y(op)] {
        pc := pc + 2;
      }
      pc := pc + 2;
    }

    method SetIToNnn(op: Opcode)
      requires Valid()
      modifies this`pc, this`i
      ensures Valid() && State() == M.SetIToNnn(old(State()), op)
    {
      i := Nnn(op);
      pc := pc + 2;
    }

    method JumpToNnnPlusV0(op: Opcode)
      requires Valid()
      modifies this`pc
      ensures Valid() && State() == M.JumpToNnnPlusV0(old(State()), op)
    {
      pc := (v[0] as int + Nnn(op)) % 0x1_0000;
    }

    /** CXNN; `random` stands for `rand::random::<u8>()`. */
    method SetVxToBitwiseAndWithRand(op: Opcode, random: Byte)
      requires Valid()
      modifies this`pc, v
      ensures Valid() && State() == M.SetVxToBitwiseAndWithRand(old(State()), op, random)
    {
      v[X(op)] := AndByte(random, LowestByte(op));
      pc := pc + 2;
    }

    method SkipIfVxKeyIsPressed(op: Opcode) returns (status: M.Status)
      requires Valid()
      modifies this`pc
      ensures Valid() && M.Reflects(M.SkipIfVxKeyIsPressed(old(State()), op), status, old(State()), State())
    {
      var k := v[X(op)];
      if k >= M.NumKeys {
        return M.Panicked(M.KeyOutOfBounds);
      }
      if keys[k] == 1 {
        pc := pc + 2;
      }
      pc := pc + 2;
      status := M.Running;
    }

    method SkipIfVxKeyIsNotPressed(op: Opcode) returns (status: M.Status)
      requires Valid()
      modifies this`pc
      ensures Valid() && M.Reflects(M.SkipIfVxKeyIsNotPressed(old(State()), op), status, old(State()), State())
    {
      var k := v[X(op)];
      if k >= M.NumKeys {
        return M.Panicked(M.KeyOutOfBounds);
      }
      if keys[k] == 0 {
        pc := pc + 2;
      }
      pc := pc + 2;
      status := M.Running;
    }

    method SetVxToDelayTimerValue(op: Opcode)
      requires Valid()
      modifies this`pc, v
      ensures Valid() && State() == M.SetVxToDelayTimerValue(old(State()), op)
    {
      v[X(op)] := delayTimer;
      pc := pc + 2;
    }

    method SetDelayTimerToVx(op: Opcode)
      requires Valid()
      modifies this`pc, this`delayTimer
      ensures Valid() && State() == M.SetDelayTimerToVx(old(State()), op)
    {
      delayTimer := v[X(op)];
      pc := pc + 2;
    }

    method SetSoundTimerToVx(op: Opcode)
      requires Valid()
      modifies this`pc, this`soundTimer
      ensures Valid() && State() == M.SetSoundTimerToVx(old(State()), op)
    {
      soundTimer := v[X(op)];
      pc := pc + 2;
    }

    method AddVxToI(op: Opcode)
      requires Valid()
      modifies this`pc, this`i
      ensures Valid() && State() == M.AddVxToI(old(State()), op)
    {
      i := (v[X(op)] as int + i) % 0x1_0000;
      pc := pc + 2;
    }

    method SetIToSpriteLocation(op: Opcode)
      requires Valid()
      modifies this`pc, this`i
      ensures Valid() && State() == M.SetIToSpriteLocation(old(State()), op)
    {
      i := (v[X(op)] as int * 5) % 0x1_0000;
      pc := pc + 2;
    }

    method SetBcdOfVx(op: Opcode) returns (status: M.Status)
      requires Valid()
      modifies this`pc, memory
      ensures Valid() && M.Reflects(M.SetBcdOfVx(old(State()), op), status, old(State()), State())
    {
      var vx := v[X(op)];
      if i + 2 >= M.MemorySize {
        return M.Panicked(M.MemoryOutOfBounds);
      }
      memory[i] := vx / 100;
      memory[i + 1] := vx / 10 % 10;
      memory[i + 2] := vx % 100 % 10;
      pc := pc + 2;
      status := M.Running;
    }
    /** DXYN. */
    method DrawSpriteAtVxVy(op: Opcode) returns (status: M.Status)
      requires Valid()
      modifies this`pc, v, graphics
      ensures Valid() && M.Reflects(M.DrawSpriteAtVxVy(old(State()), op), status, old(State()), State())
    {
      ghost var s0 := State();
      var height := LowestNibble(op);
      if height > 0 && i + height > M.MemorySize {
        return M.Panicked(M.MemoryOutOfBounds);
      }
      var xv := v[X(op)] % M.ScreenWidth;
      var yv := v[Y(op)] % M.ScreenHeight;
      v[M.Flag] := 0;
      ghost var cleared := v[..];
      assert cleared == s0.v[M.Flag := 0];
      assert Screen() == s0.graphics;
      ghost var rows := M.SpriteRows(s0.memory, s0.i, height);
      DrawSpriteRows(height, xv, yv, rows);
      pc := pc + 2;
      status := M.Running;
      ghost var flag := if M.Collides(s0.graphics, rows, xv, yv) then 1 else 0;
      assert v[..] == cleared[M.Flag := flag];
      assert cleared[M.Flag := flag] == s0.v[M.Flag := flag];
      assert memory[..] == s0.memory && stack[..] == s0.stack && keys[..] == s0.keys;
      assert State() == s0.(graphics := M.DrawnScreen(s0.graphics, rows, xv, yv), v := s0.v[M.Flag := flag], pc := s0.pc + 2);
    }

    /** The outer loop of DXYN: XORs the `height` rows at memory[i..] onto the screen at
        (xv, yv) and leaves VF as 1 exactly when a set bit hit a lit pixel. */
    method DrawSpriteRows(height: nat, xv: nat, yv: nat, ghost rows: seq<Byte>)
      requires Valid() && (height == 0 || i + height <= M.MemorySize)
      requires rows == M.SpriteRows(memory[..], i, height) && v[M.Flag] == 0
      modifies v, graphics
      ensures Screen() == M.DrawnScreen(old(Screen()), rows, xv, yv)
      ensures v[..] == old(v[..])[M.Flag := if M.Collides(old(Screen()), rows, xv, yv) then 1 else 0]
    {
      ghost var g0 := Screen();
      ghost var v0 := v[..];
      ScanStart(g0, rows, xv, yv);
      assert v0[M.Flag := 0] == v0;
      var h := 0;
      while h < height
        invariant 0 <= h <= height
        invariant forall cx: nat, cy: nat :: cx < M.ScreenWidth && cy < M.ScreenHeight ==>
          graphics[cx, cy] == PartlyDrawn(g0, rows, xv, yv, h, 0, cx, cy)
        invariant v[..] == v0[M.Flag := if CollidesBefore(g0, rows, xv, yv, h, 0) then 1 else 0]
      {
        var spriteRow := memory[i + h];
        DrawSpriteRow(spriteRow, xv, yv, h, g0, rows, v0);
        ScanRow(g0, rows, xv, yv, h);
        h := h + 1;
      }
      ScanComplete(g0, rows, xv, yv);
      M.SameScreen(Screen(), M.DrawnScreen(g0, rows, xv, yv));
    }

    /** The inner loop of DXYN for sprite row h: XORs the row's eight bits onto the screen at
        (xv, yv + h), skipping cells past the right or bottom edge, and sets VF on a hit. */
    method DrawSpriteRow(spriteRow: Byte, xv: nat, yv: nat, h: nat,
                         ghost g0: seq<seq<Byte>>, ghost rows: seq<Byte>, ghost v0: seq<Byte>)
      requires Valid() && M.IsScreen(g0) && h < |rows| && spriteRow == rows[h] && |v0| == M.NumRegisters
      requires forall cx: nat, cy: nat :: cx < M.ScreenWidth && cy < M.ScreenHeight ==>
        graphics[cx, cy] == PartlyDrawn(g0, rows, xv, yv, h, 0, cx, cy)
      requires v[..] == v0[M.Flag := if CollidesBefore(g0, rows, xv, yv, h, 0) then 1 else 0]
      modifies v, graphics
      ensures forall cx: nat, cy: nat :: cx < M.ScreenWidth && cy < M.ScreenHeight ==>
        graphics[cx, cy] == PartlyDrawn(g0, rows, xv, yv, h, 8, cx, cy)
      ensures v[..] == v0[M.Flag := if CollidesBefore(g0, rows, xv, yv, h, 8) then 1 else 0]
    {
      var w := 0;
      while w < 8
        invariant 0 <= w <= 8
        invariant forall cx: nat, cy: nat :: cx < M.ScreenWidth && cy < M.ScreenHeight ==>
          graphics[cx, cy] == PartlyDrawn(g0, rows, xv, yv, h, w, cx, cy)
        invariant v[..] == v0[M.Flag := if CollidesBefore(g0, rows, xv, yv, h, w) then 1 else 0]
      {
        DrawSpritePixel(spriteRow, xv, yv, h, w, g0, rows, v0);
        w := w + 1;
      }
    }

    /** One step of the inner loop of DXYN: XORs bit w of the sprite row onto pixel
        (xv + w, yv + h) when that pixel is on screen, and sets VF when it was lit and the bit
        is set. */
    method DrawSpritePixel(spriteRow: Byte, xv: nat, yv: nat, h: nat, w: nat,
                           ghost g0: seq<seq<Byte>>, ghost rows: seq<Byte>, ghost v0: seq<Byte>)
      requires Valid() && M.IsScreen(g0) && h < |rows| && w < 8 && spriteRow == rows[h] && |v0| == M.NumRegisters
      requires forall cx: nat, cy: nat :: cx < M.ScreenWidth && cy < M.ScreenHeight ==>
        graphics[cx, cy] == PartlyDrawn(g0, rows, xv, yv, h, w, cx, cy)
      requires v[..] == v0[M.Flag := if CollidesBefore(g0, rows, xv, yv, h, w) then 1 else 0]
      modifies v, graphics
      ensures forall cx: nat, cy: nat :: cx < M.ScreenWidth && cy < M.ScreenHeight ==>
        graphics[cx, cy] == PartlyDrawn(g0, rows, xv, yv, h, w + 1, cx, cy)
      ensures v[..] == v0[M.Flag := if CollidesBefore(g0, rows, xv, yv, h, w + 1) then 1 else 0]
    {
      ScanCell(g0, rows, xv, yv, h, w);
      if xv + w < M.ScreenWidth && yv + h < M.ScreenHeight {
        var pixel := graphics[xv + w, yv + h];
        var bit := M.SpriteBit(spriteRow, w);
        if pixel == 1 && bit == 1 {
          v[M.Flag] := 1;
        }
        graphics[xv + w, yv + h] := XorByte(pixel, bit);
      }
      forall cx: nat, cy: nat | cx < M.ScreenWidth && cy < M.ScreenHeight
        ensures graphics[cx, cy] == PartlyDrawn(g0, rows, xv, yv, h, w + 1, cx, cy)
      {
        if cx != xv + w || cy != yv + h {
          assert graphics[cx, cy] == old(graphics[cx, cy]);
        }
      }
    }

    /** FX0A: scans every key; each one that is down sets Vx to its index and advances pc. */
    method AwaitKeyPressAndStoreInVx(op: Opcode)
      requires Valid()
      modifies this`pc, v
      ensures Valid() && State() == M.AwaitKeyPressAndStoreInVx(old(State()), op)
    {
      var x := X(op);
      var idx := 0;
      while idx < M.NumKeys
        invariant 0 <= idx <= M.NumKeys
        invariant pc == old(pc) + 2 * M.PressedCount(keys[..idx])
        invariant v[..] == old(v[..])[x := M.LastPressed(keys[..idx], old(v[x]))]
      {
        if keys[idx] == 1 {
          v[x] := idx;
          pc := pc + 2;
        }
        assert keys[..idx + 1][..idx] == keys[..idx];
        idx := idx + 1;
      }
      assert keys[..M.NumKeys] == keys[..];
    }

    /** FX55 */
    method RegisterDump(op: Opcode) returns (status: M.Status)
      requires Valid()
      modifies this`pc, memory
      ensures Valid() && M.Reflects(M.RegisterDump(old(State()), op), status, old(State()), State())
    {
      var x := X(op);
      if i + x >= M.MemorySize {
        return M.Panicked(M.MemoryOutOfBounds);
      }
      var idx := 0;
      while idx <= x
        invariant 0 <= idx <= x + 1
        invariant pc == old(pc)
        invariant forall a :: 0 <= a < M.MemorySize ==>
          memory[a] == if i <= a < i + idx then v[a - i] else old(memory[a])
      {
        memory[i + idx] := v[idx];
        idx := idx + 1;
      }
      pc := pc + 2;
      status := M.Running;
      assert memory[..] == old(memory[..i]) + v[..x + 1] + old(memory[i + x + 1..]);
    }

    /** FX65 */
    method RegisterLoad(op: Opcode) returns (status: M.Status)
      requires Valid()
      modifies this`pc, v
      ensures Valid() && M.Reflects(M.RegisterLoad(old(State()), op), status, old(State()), State())
    {
      var x := X(op);
      if i + x >= M.MemorySize {
        return M.Panicked(M.MemoryOutOfBounds);
      }
      var idx := 0;
      while idx <= x
        invariant 0 <= idx <= x + 1
        invariant pc == old(pc)
        invariant forall r :: 0 <= r < M.NumRegisters ==>
          v[r] == if r < idx then memory[i + r] else old(v[r])
      {
        v[idx] := memory[i + idx];
        idx := idx + 1;
      }
      pc := pc + 2;
      status := M.Running;
      assert v[..] == memory[i..i + x + 1] + old(v[x + 1..]);
    }

    /** `decode_opcode`: runs the handler `Dispatch` selects; a word it does not recognise
        changes nothing. */
    method DecodeOpcode(opcode: U16, random: Byte) returns (status: M.Status)
      requires Valid()
      modifies this, memory, stack, v, graphics
      ensures Valid() && M.Reflects(M.Execute(old(State()), Opcode(opcode), random), status, old(State()), State())
    {
      var op := Opcode(opcode);
      status := M.Running;
      match M.Dispatch(op)
      case Op00E0 => ClearScreen(op);
      case Op00EE => status := ReturnFromSubroutine(op);
      case Op1NNN => JumpToNnn(op);
      case Op2NNN => status := CallSubroutineAtNnn(op);
      case Op3XNN => SkipIfVxEqualsNn(op);
      case Op4XNN => SkipIfVxNotEqualsNn(op);
      case Op5XY0 => SkipIfVxEqualsVy(op);
      case Op6XNN => SetVxToNn(op);
      case Op7XNN => AddNnToVx(op);
      case Op8XY0 => SetVxToVy(op);
      case Op8XY1 => SetVxToVxOrVy(op);
      case Op8XY2 => SetVxToVxAndVy(op);
      case Op8XY3 => SetVxToVxXorVy(op);
      case Op8XY4 => AddVyToVx(op);
      case Op8XY5 => SubtractVyFromVx(op);
      case Op8XY6 => StoreLeastSignificantVxBitInVf(op);
      case Op8XY7 => SetVxToVyMinusVx(op);
      case Op8XYE => StoreMostSignificantVxBitInVf(op);
      case Op9XY0 => SkipIfVxNotEqualsVy(op);
      case OpANNN => SetIToNnn(op);
      case OpBNNN => JumpToNnnPlusV0(op);
      case OpCXNN => SetVxToBitwiseAndWithRand(op, random);
      case OpDXYN => status := DrawSpriteAtVxVy(op);
      case OpEX9E => status := SkipIfVxKeyIsPressed(op);
      case OpEXA1 => status := SkipIfVxKeyIsNotPressed(op);
      case OpFX07 => SetVxToDelayTimerValue(op);
      case OpFX0A => AwaitKeyPressAndStoreInVx(op);
      case OpFX15 => SetDelayTimerToVx(op);
      case OpFX18 => SetSoundTimerToVx(op);
      case OpFX1E => AddVxToI(op);
      case OpFX29 => SetIToSpriteLocation(op);
      case OpFX33 => status := SetBcdOfVx(op);
      case OpFX55 => status := RegisterDump(op);
      case OpFX65 => status := RegisterLoad(op);
      case NoMatch =>
    }

    /** `emulate_cycle`: fetch, execute, then tick both timers; `random` is the byte CXNN would
        draw. */
    method EmulateCycle(random: Byte) returns (status: M.Status)
      requires Valid()
      modifies this, memory, stack, v, graphics
      ensures Valid() && M.Reflects(M.Cycle(old(State()), random), status, old(State()), State())
    {
      if pc + 1 >= M.MemorySize {
        return M.Panicked(M.MemoryOutOfBounds);
      }
      ghost var s0 := State();
      var opcode := FetchOpcode();
      assert opcode == JoinBytes(s0.memory[s0.pc], s0.memory[s0.pc + 1]);
      status := DecodeOpcode(opcode, random);
      if status.Panicked? {
        return;
      }
      ghost var mid := State();
      assert M.Execute(s0, Opcode(opcode), random) == M.Ok(mid);
      TickTimers();
    }

    /** The end of `emulate_cycle`: each timer above zero counts down by one. */
    method TickTimers()
      requires Valid()
      modifies this`delayTimer, this`soundTimer
      ensures Valid() && State() == old(State()).(delayTimer := M.Tick(old(delayTimer)), soundTimer := M.Tick(old(soundTimer)))
    {
      if delayTimer > 0 {
        delayTimer := delayTimer - 1;
      }
      if soundTimer > 0 {
        soundTimer := soundTimer - 1;
      }
    }
  }
}
