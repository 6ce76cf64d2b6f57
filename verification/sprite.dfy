/** The sprite blitter behind the DRW instruction: rows of 8 pixels are read
    from memory at I and XORed onto the screen at wrapped coordinates, and VF
    reports whether a lit pixel was switched off.
 */
module Sprite {
  import opened Bits
  import opened Machine

  const SpriteWidth := 8

  /** Pixel j of a sprite row, counted from the left: `(slice >> (7 - j)) & 1`. */
  predicate SpriteBit(slice: Byte, j: int)
    requires 0 <= j < SpriteWidth
  {
    Bit(slice, 7 - j)
  }

  /** The colour a pixel takes when a sprite bit is drawn over it. */
  function Blit(p: U32, bit: bool): (q: U32)
    ensures IsOn(q) == (bit != IsOn(p))
    ensures q == ColorWhite || q == ColorBlack
  {
    if bit != IsOn(p) then ColorWhite else ColorBlack
  }

  /** Which sprite column lands on screen column col when drawing at x. */
  function ColumnOffset(col: int, x: int): int
  {
    (col - x) % ScreenWidth
  }

  /** Which sprite row lands on screen row row when drawing at y. */
  function RowOffset(row: int, y: int): int
  {
    (row - y) % ScreenHeight
  }

  /** The screen column of sprite column j drawn at x, wrapping at the right edge. */
  function ScreenColumn(x: int, j: int): int
  {
    (x + j) % ScreenWidth
  }

  /** The screen row of sprite row i drawn at y, wrapping at the bottom edge. */
  function ScreenRow(y: int, i: int): int
  {
    (y + i) % ScreenHeight
  }

  /** ColumnOffset and ScreenColumn undo each other. */
  lemma ColumnWrap(x: int)
    ensures forall j | 0 <= j < ScreenWidth :: ColumnOffset(ScreenColumn(x, j), x) == j
    ensures forall c, j | 0 <= c < ScreenWidth && ColumnOffset(c, x) == j :: c == ScreenColumn(x, j)
  {
    forall j | 0 <= j < ScreenWidth
      ensures ColumnOffset(ScreenColumn(x, j), x) == j
    {
      WrapBack(x, j, ScreenWidth);
    }
    forall c, j | 0 <= c < ScreenWidth && ColumnOffset(c, x) == j
      ensures c == ScreenColumn(x, j)
    {
      WrapForward(x, c, ScreenWidth);
    }
  }

  /** RowOffset and ScreenRow undo each other. */
  lemma RowWrap(y: int)
    ensures forall i | 0 <= i < ScreenHeight :: RowOffset(ScreenRow(y, i), y) == i
    ensures forall r, i | 0 <= r < ScreenHeight && RowOffset(r, y) == i :: r == ScreenRow(y, i)
  {
    forall i | 0 <= i < ScreenHeight
      ensures RowOffset(ScreenRow(y, i), y) == i
    {
      WrapBack(y, i, ScreenHeight);
    }
    forall r, i | 0 <= r < ScreenHeight && RowOffset(r, y) == i
      ensures r == ScreenRow(y, i)
    {
      WrapForward(y, r, ScreenHeight);
    }
  }

  /** Stepping j places on from x around a circle of m places and measuring
      the distance back to x gives j. */
  lemma WrapBack(x: int, j: int, m: int)
    requires m == ScreenWidth || m == ScreenHeight
    requires 0 <= j < m
    ensures (((x + j) % m) - x) % m == j
  {
    if m == ScreenWidth {
      var q := (x + j) / ScreenWidth;
      assert (x + j) % ScreenWidth - x == j - ScreenWidth * q;
    } else {
      var q := (x + j) / ScreenHeight;
      assert (x + j) % ScreenHeight - x == j - ScreenHeight * q;
    }
  }

  /** A place c on a circle of m places is its distance from x, stepped on from x. */
  lemma WrapForward(x: int, c: int, m: int)
    requires m == ScreenWidth || m == ScreenHeight
    requires 0 <= c < m
    ensures (x + (c - x) % m) % m == c
  {
    if m == ScreenWidth {
      var q := (c - x) / ScreenWidth;
      assert x + (c - x) % ScreenWidth == c - ScreenWidth * q;
    } else {
      var q := (c - x) / ScreenHeight;
      assert x + (c - x) % ScreenHeight == c - ScreenHeight * q;
    }
  }

  /** Drawing bit j of a row onto screen row row switches a lit pixel off. */
  predicate RowCollides(s: Screen, slice: Byte, x: Byte, row: int, j: int)
    requires 0 <= row < ScreenHeight && 0 <= j < SpriteWidth
  {
    SpriteBit(slice, j) && IsOn(s[row][ScreenColumn(x, j)])
  }

  /** The inner loop: columns j..7 of one sprite row drawn onto screen row row.
      The result is the new screen and the collision flag so far. */
  function DrawRow(s: Screen, slice: Byte, x: Byte, row: int, j: int, hit: bool): (res: (Screen, bool))
    requires 0 <= row < ScreenHeight && 0 <= j <= SpriteWidth
    decreases SpriteWidth - j
    ensures forall r, c {:trigger res.0[r][c]} | 0 <= r < ScreenHeight && 0 <= c < ScreenWidth ::
      res.0[r][c] ==
        if r == row && j <= ColumnOffset(c, x) < SpriteWidth
        then Blit(s[r][c], SpriteBit(slice, ColumnOffset(c, x)))
        else s[r][c]
    ensures res.1 <==> hit || exists jj | j <= jj < SpriteWidth :: RowCollides(s, slice, x, row, jj)
  {
    if j == SpriteWidth then (s, hit)
    else
      var col := ScreenColumn(x, j);
      var bit := SpriteBit(slice, j);
      var on := IsOn(s[row][col]);
      var pixel: U32 := if bit != on then ColorWhite else ColorBlack;
      var line: seq<U32> := s[row][col := pixel];
      var s': Screen := s[row := line];
      var hit' := if bit != on then hit else hit || on;
      var res := DrawRow(s', slice, x, row, j + 1, hit');
      ColumnWrap(x);
      assert forall jj | j < jj < SpriteWidth :: RowCollides(s', slice, x, row, jj) == RowCollides(s, slice, x, row, jj);
      assert hit' == (hit || RowCollides(s, slice, x, row, j));
      res
  }

  /** Sprite row i drawn at (x, y) switches a lit pixel off in column j. */
  predicate Collides(s: Screen, memory: Memory, base: int, x: Byte, y: Byte, i: int, j: int)
    requires 0 <= base && 0 <= i && base + i < MemorySize && 0 <= j < SpriteWidth
  {
    RowCollides(s, memory[base + i], x, ScreenRow(y, i), j)
  }

  /** The outer loop: sprite rows i..height-1, read from memory at base. */
  function DrawRows(s: Screen, memory: Memory, base: int, x: Byte, y: Byte, i: int, height: int, hit: bool): (res: (Screen, bool))
    requires 0 <= i <= height <= ScreenHeight
    requires 0 <= base && (i == height || base + height <= MemorySize)
    decreases height - i
    ensures forall r, c {:trigger res.0[r][c]} | 0 <= r < ScreenHeight && 0 <= c < ScreenWidth ::
      res.0[r][c] ==
        if i <= RowOffset(r, y) < height && ColumnOffset(c, x) < SpriteWidth
        then Blit(s[r][c], SpriteBit(memory[base + RowOffset(r, y)], ColumnOffset(c, x)))
        else s[r][c]
    ensures res.1 <==> hit || exists ii, jj | i <= ii < height && 0 <= jj < SpriteWidth :: Collides(s, memory, base, x, y, ii, jj)
  {
    if i == height then (s, hit)
    else
      var row := ScreenRow(y, i);
      var first := DrawRow(s, memory[base + i], x, row, 0, hit);
      var res := DrawRows(first.0, memory, base, x, y, i + 1, height, first.1);
      RowsScreenStep(s, first.0, res.0, memory, base, x, y, i, height);
      RowsHitStep(s, first.0, memory, base, x, y, i, height, memory[base + i], hit, first.1, res.1);
      res
  }

  /** Drawing row i and then rows i+1.. covers rows i.. of the sprite. */
  lemma RowsScreenStep(s: Screen, s1: Screen, s2: Screen, memory: Memory, base: int, x: Byte, y: Byte, i: int, height: int)
    requires 0 <= i < height <= ScreenHeight
    requires 0 <= base && base + height <= MemorySize
    requires forall r, c {:trigger s1[r][c]} | 0 <= r < ScreenHeight && 0 <= c < ScreenWidth ::
      s1[r][c] ==
        if r == ScreenRow(y, i) && 0 <= ColumnOffset(c, x) < SpriteWidth
        then Blit(s[r][c], SpriteBit(memory[base + i], ColumnOffset(c, x)))
        else s[r][c]
    requires forall r, c {:trigger s2[r][c]} | 0 <= r < ScreenHeight && 0 <= c < ScreenWidth ::
      s2[r][c] ==
        if i + 1 <= RowOffset(r, y) < height && ColumnOffset(c, x) < SpriteWidth
        then Blit(s1[r][c], SpriteBit(memory[base + RowOffset(r, y)], ColumnOffset(c, x)))
        else s1[r][c]
    ensures forall r, c {:trigger s2[r][c]} | 0 <= r < ScreenHeight && 0 <= c < ScreenWidth ::
      s2[r][c] ==
        if i <= RowOffset(r, y) < height && ColumnOffset(c, x) < SpriteWidth
        then Blit(s[r][c], SpriteBit(memory[base + RowOffset(r, y)], ColumnOffset(c, x)))
        else s[r][c]
  {
    RowWrap(y);
  }

  /** The collision flag after row i and then rows i+1.. */
  lemma RowsHitStep(s: Screen, s1: Screen, memory: Memory, base: int, x: Byte, y: Byte, i: int, height: int,
                    slice: Byte, hit: bool, hit1: bool, hit2: bool)
    requires 0 <= i < height <= ScreenHeight
    requires 0 <= base && base + height <= MemorySize && slice == memory[base + i]
    requires forall r, c {:trigger s1[r][c]} | 0 <= r < ScreenHeight && 0 <= c < ScreenWidth ::
      s1[r][c] ==
        if r == ScreenRow(y, i) && 0 <= ColumnOffset(c, x) < SpriteWidth
        then Blit(s[r][c], SpriteBit(memory[base + i], ColumnOffset(c, x)))
        else s[r][c]
    requires hit1 <==> hit || exists jj | 0 <= jj < SpriteWidth :: RowCollides(s, slice, x, ScreenRow(y, i), jj)
    requires hit2 <==> hit1 || exists ii, jj | i + 1 <= ii < height && 0 <= jj < SpriteWidth :: Collides(s1, memory, base, x, y, ii, jj)
    ensures hit2 <==> hit || exists ii, jj | i <= ii < height && 0 <= jj < SpriteWidth :: Collides(s, memory, base, x, y, ii, jj)
  {
    forall ii, jj | i < ii < height && 0 <= jj < SpriteWidth
      ensures Collides(s1, memory, base, x, y, ii, jj) == Collides(s, memory, base, x, y, ii, jj)
    {
      RowWrap(y);
      var r, c := ScreenRow(y, ii), ScreenColumn(x, jj);
      assert RowOffset(r, y) == ii;
      assert RowOffset(ScreenRow(y, i), y) == i;
      assert r != ScreenRow(y, i);
      assert 0 <= r < ScreenHeight;
      assert 0 <= c < ScreenWidth;
      assert s1[r][c] == s[r][c];
    }
    if jj :| 0 <= jj < SpriteWidth && RowCollides(s, slice, x, ScreenRow(y, i), jj) {
      assert Collides(s, memory, base, x, y, i, jj);
    }
    if ii, jj :| i <= ii < height && 0 <= jj < SpriteWidth && Collides(s, memory, base, x, y, ii, jj) {
      if ii == i {
        assert RowCollides(s, slice, x, ScreenRow(y, i), jj);
      } else {
        assert Collides(s1, memory, base, x, y, ii, jj);
      }
    }
  }

  /** Screen pixel (row, col) lies under a sprite of the given height drawn at (x, y). */
  predicate InSprite(row: int, col: int, x: Byte, y: Byte, height: int)
  {
    RowOffset(row, y) < height && ColumnOffset(col, x) < SpriteWidth
  }

  /** Drawing switched the lit pixel (row, col) off. */
  predicate TurnedOff(before: Screen, after: Screen, row: int, col: int)
    requires 0 <= row < ScreenHeight && 0 <= col < ScreenWidth
  {
    IsOn(before[row][col]) && !IsOn(after[row][col])
  }

  /** DRW Vx, Vy, n with x and y the values of Vx and Vy: VF is cleared, the
      sprite is XORed on, and VF is set when a lit pixel goes dark. */
  function DrawSprite(c: Cpu, x: Byte, y: Byte, height: int): (r: Cpu)
    requires 0 <= height < 0x10
    requires height == 0 || c.i + height <= MemorySize
    ensures r == c.(bitScreen := r.bitScreen, registers := c.registers[Flag := r.registers[Flag]])
    ensures r.registers[Flag] == 0 || r.registers[Flag] == 1
    ensures r.registers[Flag] == 1 <==>
      exists row, col | 0 <= row < ScreenHeight && 0 <= col < ScreenWidth :: TurnedOff(c.bitScreen, r.bitScreen, row, col)
    ensures forall row, col {:trigger r.bitScreen[row][col]} | 0 <= row < ScreenHeight && 0 <= col < ScreenWidth ::
      r.bitScreen[row][col] ==
        if InSprite(row, col, x, y, height)
        then Blit(c.bitScreen[row][col], SpriteBit(c.memory[c.i + RowOffset(row, y)], ColumnOffset(col, x)))
        else c.bitScreen[row][col]
  {
    var cleared := c.registers[Flag := 0];
    var res := DrawRows(c.bitScreen, c.memory, c.i, x, y, 0, height, false);
    CollisionIsTurnOff(c.bitScreen, res.0, c.memory, c.i, x, y, height);
    assert forall row, col {:trigger res.0[row][col]} | 0 <= row < ScreenHeight && 0 <= col < ScreenWidth ::
      res.0[row][col] ==
        if InSprite(row, col, x, y, height)
        then Blit(c.bitScreen[row][col], SpriteBit(c.memory[c.i + RowOffset(row, y)], ColumnOffset(col, x)))
        else c.bitScreen[row][col];
    c.(registers := cleared[Flag := if res.1 then 1 else 0], bitScreen := res.0)
  }

  /** A collision of some sprite bit is the same as some lit pixel going dark. */
  lemma CollisionIsTurnOff(s: Screen, s': Screen, memory: Memory, base: int, x: Byte, y: Byte, height: int)
    requires 0 <= height <= ScreenHeight
    requires 0 <= base && (height == 0 || base + height <= MemorySize)
    requires forall r, c {:trigger s'[r][c]} | 0 <= r < ScreenHeight && 0 <= c < ScreenWidth ::
      s'[r][c] ==
        if 0 <= RowOffset(r, y) < height && ColumnOffset(c, x) < SpriteWidth
        then Blit(s[r][c], SpriteBit(memory[base + RowOffset(r, y)], ColumnOffset(c, x)))
        else s[r][c]
    ensures (exists ii, jj | 0 <= ii < height && 0 <= jj < SpriteWidth :: Collides(s, memory, base, x, y, ii, jj))
        <==> exists row, col | 0 <= row < ScreenHeight && 0 <= col < ScreenWidth :: TurnedOff(s, s', row, col)
  {
    if ii, jj :| 0 <= ii < height && 0 <= jj < SpriteWidth && Collides(s, memory, base, x, y, ii, jj) {
      var row, col := ScreenRow(y, ii), ScreenColumn(x, jj);
      RowWrap(y);
      ColumnWrap(x);
      assert TurnedOff(s, s', row, col);
    }
    if row, col :| 0 <= row < ScreenHeight && 0 <= col < ScreenWidth && TurnedOff(s, s', row, col) {
      var ii, jj := RowOffset(row, y), ColumnOffset(col, x);
      RowWrap(y);
      ColumnWrap(x);
      assert Collides(s, memory, base, x, y, ii, jj);
    }
  }

  /** Screen pixel (row, col) lies under a set bit of the sprite of the given
      height read from memory at base and drawn at (x, y). */
  predicate SpritePixel(m: Memory, base: int, x: Byte, y: Byte, height: int, row: int, col: int)
    requires 0 <= row < ScreenHeight && 0 <= col < ScreenWidth
    requires 0 <= height <= ScreenHeight && 0 <= base && (height == 0 || base + height <= MemorySize)
  {
    InSprite(row, col, x, y, height) && SpriteBit(m[base + RowOffset(row, y)], ColumnOffset(col, x))
  }

  /** Every pixel holds one of the two colours the interpreter writes. */
  predicate Normalised(s: Screen)
  {
    forall row, col | 0 <= row < ScreenHeight && 0 <= col < ScreenWidth ::
      s[row][col] == ColorWhite || s[row][col] == ColorBlack
  }

  /** VF after a draw says whether some set sprite bit landed on a lit pixel. */
  lemma DrawFlag(c: Cpu, x: Byte, y: Byte, height: int)
    requires 0 <= height < 0x10
    requires height == 0 || c.i + height <= MemorySize
    ensures DrawSprite(c, x, y, height).registers[Flag] == 1 <==>
      exists row, col | 0 <= row < ScreenHeight && 0 <= col < ScreenWidth ::
        SpritePixel(c.memory, c.i, x, y, height, row, col) && IsOn(c.bitScreen[row][col])
  {
    var r := DrawSprite(c, x, y, height);
    if r.registers[Flag] == 1 {
      var row, col :| 0 <= row < ScreenHeight && 0 <= col < ScreenWidth && TurnedOff(c.bitScreen, r.bitScreen, row, col);
      assert SpritePixel(c.memory, c.i, x, y, height, row, col);
    }
    if row, col :| (0 <= row < ScreenHeight && 0 <= col < ScreenWidth &&
        SpritePixel(c.memory, c.i, x, y, height, row, col) && IsOn(c.bitScreen[row][col])) {
      assert TurnedOff(c.bitScreen, r.bitScreen, row, col);
    }
  }

  /** Drawing the same sprite twice at the same place gives every pixel its
      on/off state back, and the very colours back on a screen that holds only
      the two interpreter colours. Only VF is left changed. */
  lemma DrawTwiceRestores(c: Cpu, x: Byte, y: Byte, height: int)
    requires 0 <= height < 0x10
    requires height == 0 || c.i + height <= MemorySize
    ensures var d := DrawSprite(DrawSprite(c, x, y, height), x, y, height);
      && (forall row, col | 0 <= row < ScreenHeight && 0 <= col < ScreenWidth ::
            IsOn(d.bitScreen[row][col]) == IsOn(c.bitScreen[row][col]))
      && (Normalised(c.bitScreen) ==> d == c.(registers := c.registers[Flag := d.registers[Flag]]))
  {
    var d1 := DrawSprite(c, x, y, height);
    var d := DrawSprite(d1, x, y, height);
    forall row, col | 0 <= row < ScreenHeight && 0 <= col < ScreenWidth
      ensures IsOn(d.bitScreen[row][col]) == IsOn(c.bitScreen[row][col])
    {
      DrawTwicePixel(c, x, y, height, row, col);
    }
    if Normalised(c.bitScreen) {
      SameScreen(c.bitScreen, d.bitScreen, c, x, y, height);
      assert d == c.(registers := c.registers[Flag := d.registers[Flag]]);
    }
  }

  /** On a normalised screen two identical draws give every row back. */
  lemma SameScreen(s: Screen, s2: Screen, c: Cpu, x: Byte, y: Byte, height: int)
    requires 0 <= height < 0x10
    requires height == 0 || c.i + height <= MemorySize
    requires s == c.bitScreen && Normalised(s)
    requires s2 == DrawSprite(DrawSprite(c, x, y, height), x, y, height).bitScreen
    ensures s2 == s
  {
    forall row | 0 <= row < ScreenHeight
      ensures s2[row] == s[row]
    {
      forall col | 0 <= col < ScreenWidth
        ensures s2[row][col] == s[row][col]
      {
        DrawTwicePixel(c, x, y, height, row, col);
      }
    }
  }

  /** One pixel under two identical draws. */
  lemma DrawTwicePixel(c: Cpu, x: Byte, y: Byte, height: int, row: int, col: int)
    requires 0 <= height < 0x10
    requires height == 0 || c.i + height <= MemorySize
    requires 0 <= row < ScreenHeight && 0 <= col < ScreenWidth
    ensures var d := DrawSprite(DrawSprite(c, x, y, height), x, y, height);
      && IsOn(d.bitScreen[row][col]) == IsOn(c.bitScreen[row][col])
      && (c.bitScreen[row][col] == ColorWhite || c.bitScreen[row][col] == ColorBlack ==>
            d.bitScreen[row][col] == c.bitScreen[row][col])
  {
    var d1 := DrawSprite(c, x, y, height);
    var d := DrawSprite(d1, x, y, height);
    assert d1.bitScreen[row][col] ==
      if InSprite(row, col, x, y, height)
      then Blit(c.bitScreen[row][col], SpriteBit(c.memory[c.i + RowOffset(row, y)], ColumnOffset(col, x)))
      else c.bitScreen[row][col];
    assert d.bitScreen[row][col] ==
      if InSprite(row, col, x, y, height)
      then Blit(d1.bitScreen[row][col], SpriteBit(c.memory[c.i + RowOffset(row, y)], ColumnOffset(col, x)))
      else d1.bitScreen[row][col];
  }

  /** The flags of two identical draws: the first reports set bits landing on
      lit pixels, the second set bits landing on dark ones. So a sprite with
      any set bit raises VF in at least one of the two, and in the second
      whenever its footprint started dark. */
  lemma DrawTwiceFlags(c: Cpu, x: Byte, y: Byte, height: int)
    requires 0 <= height < 0x10
    requires height == 0 || c.i + height <= MemorySize
    ensures var d1 := DrawSprite(c, x, y, height);
      var d2 := DrawSprite(d1, x, y, height);
      && (d2.registers[Flag] == 1 <==>
            exists row, col | 0 <= row < ScreenHeight && 0 <= col < ScreenWidth ::
              SpritePixel(c.memory, c.i, x, y, height, row, col) && !IsOn(c.bitScreen[row][col]))
      && ((exists row, col | 0 <= row < ScreenHeight && 0 <= col < ScreenWidth ::
              SpritePixel(c.memory, c.i, x, y, height, row, col)) ==>
            d1.registers[Flag] == 1 || d2.registers[Flag] == 1)
      && ((forall row, col | 0 <= row < ScreenHeight && 0 <= col < ScreenWidth ::
              !IsOn(c.bitScreen[row][col])) ==>
            (d2.registers[Flag] == 1 <==>
              exists row, col | 0 <= row < ScreenHeight && 0 <= col < ScreenWidth ::
                SpritePixel(c.memory, c.i, x, y, height, row, col)))
  {
    var d1 := DrawSprite(c, x, y, height);
    DrawFlag(c, x, y, height);
    DrawFlag(d1, x, y, height);
    assert d1.memory == c.memory && d1.i == c.i;
    forall row, col | 0 <= row < ScreenHeight && 0 <= col < ScreenWidth &&
        SpritePixel(c.memory, c.i, x, y, height, row, col)
      ensures IsOn(d1.bitScreen[row][col]) == !IsOn(c.bitScreen[row][col])
    {
    }
  }
}
