/** 00E0 and DXYN: what clearing and drawing do to the screen and to VF. */
module Drawing {
  import opened Bits
  import opened Opcodes
  import opened Machine

  /** XOR on single pixels. */
  lemma XorBits(a: Byte, b: Byte)
    requires a <= 1 && b <= 1
    ensures XorByte(a, b) == if a == b then 0 else 1
  {
    assert Xor(1, 1) == 2 * Xor(0, 0);
  }

  /** A sprite bit is a single pixel value. */
  lemma SpriteBitIsPixel(row: Byte, w: nat)
    requires w < 8
    ensures SpriteBit(row, w) <= 1
  {
  }

  /** 00E0 turns every pixel off and changes nothing else but pc. */
  lemma Clear(s: State, op: Opcode, random: Byte)
    requires Valid(s) && Dispatch(op) == Op00E0
    ensures var t := Execute(s, op, random);
      t == Ok(s.(graphics := t.value.graphics, pc := s.pc + 2))
      && forall cx, cy :: 0 <= cx < ScreenWidth && 0 <= cy < ScreenHeight ==> t.value.graphics[cx][cy] == 0
  {
  }

  /** One cell of the drawn screen. */
  lemma DrawnCell(g: seq<seq<Byte>>, rows: seq<Byte>, xv: nat, yv: nat, cx: nat, cy: nat)
    requires IsScreen(g) && cx < ScreenWidth && cy < ScreenHeight
    ensures Covers(rows, xv, yv, cx, cy) ==>
      DrawnScreen(g, rows, xv, yv)[cx][cy] == XorByte(g[cx][cy], SpriteBit(rows[cy - yv], cx - xv))
    ensures !Covers(rows, xv, yv, cx, cy) ==> DrawnScreen(g, rows, xv, yv)[cx][cy] == g[cx][cy]
  {
  }

  /** VF after DXYN reads 1 exactly when some pixel that was lit is turned off. */
  lemma CollisionErases(g: seq<seq<Byte>>, rows: seq<Byte>, xv: nat, yv: nat)
    requires IsScreen(g)
    ensures Collides(g, rows, xv, yv) <==>
      exists cx, cy :: 0 <= cx < ScreenWidth && 0 <= cy < ScreenHeight
        && g[cx][cy] == 1 && DrawnScreen(g, rows, xv, yv)[cx][cy] == 0
  {
    if Collides(g, rows, xv, yv) {
      HitErases(g, rows, xv, yv);
    }
    if exists cx, cy :: 0 <= cx < ScreenWidth && 0 <= cy < ScreenHeight
         && g[cx][cy] == 1 && DrawnScreen(g, rows, xv, yv)[cx][cy] == 0 {
      var cx, cy :| 0 <= cx < ScreenWidth && 0 <= cy < ScreenHeight
        && g[cx][cy] == 1 && DrawnScreen(g, rows, xv, yv)[cx][cy] == 0;
      ErasedWasHit(g, rows, xv, yv, cx, cy);
    }
  }

  /** A hit turns its pixel off. */
  lemma HitErases(g: seq<seq<Byte>>, rows: seq<Byte>, xv: nat, yv: nat)
    requires IsScreen(g) && Collides(g, rows, xv, yv)
    ensures exists cx, cy ::
              0 <= cx < ScreenWidth && 0 <= cy < ScreenHeight
              && g[cx][cy] == 1 && DrawnScreen(g, rows, xv, yv)[cx][cy] == 0
  {
    var r: nat, c: nat :| r < |rows| && c < 8 && Hit(g, rows, xv, yv, r, c);
    var cx, cy := xv + c, yv + r;
    DrawnCell(g, rows, xv, yv, cx, cy);
    XorBits(1, 1);
    assert g[cx][cy] == 1 && DrawnScreen(g, rows, xv, yv)[cx][cy] == 0;
  }

  /** A lit pixel the sprite turns off is a hit. */
  lemma ErasedWasHit(g: seq<seq<Byte>>, rows: seq<Byte>, xv: nat, yv: nat, cx: nat, cy: nat)
    requires IsScreen(g) && cx < ScreenWidth && cy < ScreenHeight
    requires g[cx][cy] == 1 && DrawnScreen(g, rows, xv, yv)[cx][cy] == 0
    ensures Collides(g, rows, xv, yv)
  {
    DrawnCell(g, rows, xv, yv, cx, cy);
    assert Covers(rows, xv, yv, cx, cy);
    var r: nat, c: nat := cy - yv, cx - xv;
    var bit := SpriteBit(rows[r], c);
    SpriteBitIsPixel(rows[r], c);
    XorBits(1, bit);
    assert Hit(g, rows, xv, yv, r, c);
  }

  /** DXYN faults exactly when the sprite has rows and they run past the end of memory. */
  lemma DrawFault(s: State, op: Opcode, random: Byte)
    requires Valid(s) && Dispatch(op) == OpDXYN
    ensures var t, n := Execute(s, op, random), LowestNibble(op);
      (t.Err? <==> n > 0 && s.i + n > MemorySize) && (t.Err? ==> t.fault == MemoryOutOfBounds)
  {
  }

  /** Otherwise DXYN changes only the screen, VF and pc. Each screen cell the sprite covers,
      counted from (Vx mod 64, Vy mod 32) and clipped at the right and bottom edges, is XOR-ed
      with its sprite bit from memory at I, and every other cell is left as it is. */
  lemma DrawCells(s: State, op: Opcode, random: Byte)
    requires Valid(s) && Dispatch(op) == OpDXYN && Execute(s, op, random).Ok?
    ensures var t := Execute(s, op, random).value;
      var n, xv, yv := LowestNibble(op), s.v[X(op)] % ScreenWidth, s.v[Y(op)] % ScreenHeight;
      t == s.(graphics := t.graphics, v := s.v[Flag := t.v[Flag]], pc := s.pc + 2)
      && forall cx, cy :: 0 <= cx < ScreenWidth && 0 <= cy < ScreenHeight ==>
           t.graphics[cx][cy] == if xv <= cx < xv + 8 && yv <= cy < yv + n
                                 then XorByte(s.graphics[cx][cy], SpriteBit(s.memory[s.i + (cy - yv)], cx - xv))
                                 else s.graphics[cx][cy]
  {
    var t := Execute(s, op, random).value;
    var n, xv, yv := LowestNibble(op), s.v[X(op)] % ScreenWidth, s.v[Y(op)] % ScreenHeight;
    var rows := SpriteRows(s.memory, s.i, n);
    assert t.graphics == DrawnScreen(s.graphics, rows, xv, yv);
    forall cx, cy | 0 <= cx < ScreenWidth && 0 <= cy < ScreenHeight
      ensures t.graphics[cx][cy] == if xv <= cx < xv + 8 && yv <= cy < yv + n
                                    then XorByte(s.graphics[cx][cy], SpriteBit(s.memory[s.i + (cy - yv)], cx - xv))
                                    else s.graphics[cx][cy]
    {
      DrawnCellFromMemory(s.graphics, s.memory, s.i, n, xv, yv, cx, cy);
    }
  }

  /** One cell of the screen drawn from the sprite rows in memory at `i`. */
  lemma DrawnCellFromMemory(g: seq<seq<Byte>>, memory: seq<Byte>, i: nat, n: nat, xv: nat, yv: nat, cx: nat, cy: nat)
    requires IsScreen(g) && (n == 0 || i + n <= |memory|) && cx < ScreenWidth && cy < ScreenHeight
    ensures DrawnScreen(g, SpriteRows(memory, i, n), xv, yv)[cx][cy]
      == if xv <= cx < xv + 8 && yv <= cy < yv + n
         then XorByte(g[cx][cy], SpriteBit(memory[i + (cy - yv)], cx - xv))
         else g[cx][cy]
  {
    DrawnCell(g, SpriteRows(memory, i, n), xv, yv, cx, cy);
  }

  /** After DXYN, VF is 1 exactly when some pixel that was lit has been turned off, and 0
      otherwise. */
  lemma DrawFlag(s: State, op: Opcode, random: Byte)
    requires Valid(s) && Dispatch(op) == OpDXYN && Execute(s, op, random).Ok?
    ensures var t := Execute(s, op, random).value;
      t.v[Flag] <= 1
      && (t.v[Flag] == 1 <==>
            exists cx, cy :: 0 <= cx < ScreenWidth && 0 <= cy < ScreenHeight
              && s.graphics[cx][cy] == 1 && t.graphics[cx][cy] == 0)
  {
    var n, xv, yv := LowestNibble(op), s.v[X(op)] % ScreenWidth, s.v[Y(op)] % ScreenHeight;
    var rows := SpriteRows(s.memory, s.i, n);
    var t := Execute(s, op, random).value;
    assert t.graphics == DrawnScreen(s.graphics, rows, xv, yv);
    assert t.v[Flag] == if Collides(s.graphics, rows, xv, yv) then 1 else 0;
    CollisionErases(s.graphics, rows, xv, yv);
  }

  /** Drawn on a blank screen, a sprite collides with nothing, and the cells it covers show its
      bits while the rest stay off. */
  lemma DrawnOnBlank(rows: seq<Byte>, xv: nat, yv: nat)
    ensures !Collides(BlankScreen(), rows, xv, yv)
    ensures forall cx, cy :: 0 <= cx < ScreenWidth && 0 <= cy < ScreenHeight ==>
      DrawnScreen(BlankScreen(), rows, xv, yv)[cx][cy]
        == if Covers(rows, xv, yv, cx, cy) then SpriteBit(rows[cy - yv], cx - xv) else 0
  {
    var g := BlankScreen();
    forall cx, cy | 0 <= cx < ScreenWidth && 0 <= cy < ScreenHeight && Covers(rows, xv, yv, cx, cy)
      ensures DrawnScreen(g, rows, xv, yv)[cx][cy] == SpriteBit(rows[cy - yv], cx - xv)
    {
      DrawnCell(g, rows, xv, yv, cx, cy);
      SpriteBitIsPixel(rows[cy - yv], cx - xv);
      XorBits(0, SpriteBit(rows[cy - yv], cx - xv));
    }
  }

  /** Drawing keeps a screen of zeros and ones a screen of zeros and ones. */
  lemma DrawnKeepsPixelsBinary(g: seq<seq<Byte>>, rows: seq<Byte>, xv: nat, yv: nat)
    requires IsScreen(g) && PixelsBinary(g)
    ensures PixelsBinary(DrawnScreen(g, rows, xv, yv))
  {
    forall cx, cy | 0 <= cx < ScreenWidth && 0 <= cy < ScreenHeight
      ensures DrawnScreen(g, rows, xv, yv)[cx][cy] <= 1
    {
      DrawnCell(g, rows, xv, yv, cx, cy);
      if Covers(rows, xv, yv, cx, cy) {
        SpriteBitIsPixel(rows[cy - yv], cx - xv);
        XorBits(g[cx][cy], SpriteBit(rows[cy - yv], cx - xv));
      }
    }
  }

  /** Drawing the same sprite at the same place twice gives back the screen. */
  lemma DrawnTwice(g: seq<seq<Byte>>, rows: seq<Byte>, xv: nat, yv: nat)
    requires IsScreen(g)
    ensures DrawnScreen(DrawnScreen(g, rows, xv, yv), rows, xv, yv) == g
  {
    var once := DrawnScreen(g, rows, xv, yv);
    var twice := DrawnScreen(once, rows, xv, yv);
    forall cx, cy | 0 <= cx < ScreenWidth && 0 <= cy < ScreenHeight
      ensures twice[cx][cy] == g[cx][cy]
    {
      DrawnCell(g, rows, xv, yv, cx, cy);
      DrawnCell(once, rows, xv, yv, cx, cy);
      if Covers(rows, xv, yv, cx, cy) {
        var bit := SpriteBit(rows[cy - yv], cx - xv);
        assert Xor(XorByte(g[cx][cy], bit), bit) == g[cx][cy];
      }
    }
    SameScreen(twice, g);
  }

  /** DXYN twice in a row, with neither coordinate held in VF, restores the screen: this is how
      programs erase a sprite before moving it. */
  lemma DrawTwiceErases(s: State, op: Opcode, random: Byte)
    requires Valid(s) && Dispatch(op) == OpDXYN && X(op) != Flag && Y(op) != Flag
    requires Execute(s, op, random).Ok?
    ensures var t := Execute(s, op, random).value;
      var u := Execute(t, op, random);
      u.Ok? && u.value.graphics == s.graphics && u.value.pc == s.pc + 4
  {
    var t := Execute(s, op, random).value;
    var n, xv, yv := LowestNibble(op), s.v[X(op)] % ScreenWidth, s.v[Y(op)] % ScreenHeight;
    var rows := SpriteRows(s.memory, s.i, n);
    assert t.graphics == DrawnScreen(s.graphics, rows, xv, yv);
    assert t.v[X(op)] == s.v[X(op)] && t.v[Y(op)] == s.v[Y(op)];
    assert Execute(t, op, random).value.graphics == DrawnScreen(t.graphics, rows, xv, yv);
    DrawnTwice(s.graphics, rows, xv, yv);
  }
}
