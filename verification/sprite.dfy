/**
  The sprite draw of instruction Dxyn (`_dxyn`): rows of 8 pixels read from
  memory at the index register, XOR-ed into the framebuffer at an origin taken
  from two registers, with VF reporting whether a lit pixel was turned off.

  The origin wraps around the screen, but the pixels of the sprite do not:
  a set bit that lands past column 63 or row 31 indexes the framebuffer out
  of range, and the tick panics.
 */
module Sprite {
  import opened Bits
  import opened Machine

  /** Flips one pixel. */
  function Toggle(px: Frame, x: nat, y: nat): (f: Frame)
    requires x < CHIP8_WIDTH && y < CHIP8_HEIGHT
  {
    px[x := px[x][y := !px[x][y]]]
  }

  /**
    The inner loop over bits `j..7` of one sprite row drawn at `(x0, y)`:
    the new frame, and whether a toggled pixel was on before.
   */
  function DrawRow(px: Frame, row: u8, x0: nat, y: nat, j: nat): (r: Result<(Frame, bool)>)
    requires j <= 8
    ensures r.Fault? ==> r.panic == IndexOutOfBounds
    decreases 8 - j
  {
    if j == 8 then Ok((px, false))
    else if !BitSet(row, j) then DrawRow(px, row, x0, y, j + 1)
    else if x0 + j >= CHIP8_WIDTH || y >= CHIP8_HEIGHT then Fault(IndexOutOfBounds)
    else
      var rest :- DrawRow(Toggle(px, x0 + j, y), row, x0, y, j + 1);
      Ok((rest.0, rest.1 || px[x0 + j][y]))
  }

  /** The outer loop over sprite rows `i..n-1`, row `i` read from `memory[index + i]` and drawn at `y0 + i`. */
  function DrawRows(px: Frame, mem: Memory, index: u16, x0: nat, y0: nat, i: nat, n: nat): (r: Result<(Frame, bool)>)
    requires i <= n
    ensures r.Fault? ==> r.panic == IndexOutOfBounds
    decreases n - i
  {
    if i == n then Ok((px, false))
    else if index + i >= RAM_SIZE then Fault(IndexOutOfBounds)
    else
      var row :- DrawRow(px, mem[index + i], x0, y0 + i, 0);
      var rest :- DrawRows(row.0, mem, index, x0, y0, i + 1, n);
      Ok((rest.0, row.1 || rest.1))
  }

  // ---------------------------------------------------------------------------
  // What a draw does, stated pixel by pixel

  /** Pixel `(px, py)` lies under a set bit `j..7` of a row drawn at `(x0, y)`. */
  predicate RowCovers(row: u8, x0: nat, y: nat, j: nat, px: int, py: int) {
    py == y && x0 + j <= px < x0 + 8 && BitSet(row, px - x0)
  }

  /** Every set bit `j..7` of the row lands on the screen. */
  predicate RowFits(row: u8, x0: nat, y: nat, j: nat) {
    forall k | j <= k < 8 :: BitSet(row, k) ==> x0 + k < CHIP8_WIDTH && y < CHIP8_HEIGHT
  }

  /** Sprite row `i` can be read from memory and all its set bits land on the screen. */
  predicate RowDrawable(mem: Memory, index: u16, x0: nat, y0: nat, i: nat) {
    index + i < RAM_SIZE && RowFits(mem[index + i], x0, y0 + i, 0)
  }

  /** Rows `lo..n-1` of the sprite can all be drawn: the draw does not panic. */
  predicate SpriteFits(mem: Memory, index: u16, x0: nat, y0: nat, lo: nat, n: nat) {
    forall i | lo <= i < n :: RowDrawable(mem, index, x0, y0, i)
  }

  /** Pixel `(px, py)` lies under a set bit of one of the sprite rows `lo..n-1`. */
  predicate Covers(mem: Memory, index: u16, x0: nat, y0: nat, lo: nat, n: nat, px: int, py: int) {
    && y0 + lo <= py < y0 + n
    && index + (py - y0) < RAM_SIZE
    && RowCovers(mem[index + (py - y0)], x0, py, 0, px, py)
  }

  /** A lit pixel lies under a set bit `j..7` of a row drawn at `(x0, y)`. */
  predicate RowHit(px: Frame, row: u8, x0: nat, y: nat, j: nat) {
    exists X, Y | 0 <= X < CHIP8_WIDTH && 0 <= Y < CHIP8_HEIGHT :: RowCovers(row, x0, y, j, X, Y) && px[X][Y]
  }

  /** A lit pixel lies under one of the sprite rows `lo..n-1`. */
  predicate Hit(px: Frame, mem: Memory, index: u16, x0: nat, y0: nat, lo: nat, n: nat) {
    exists X, Y | 0 <= X < CHIP8_WIDTH && 0 <= Y < CHIP8_HEIGHT :: Covers(mem, index, x0, y0, lo, n, X, Y) && px[X][Y]
  }

  /** Frame `t` is `px` with exactly the pixels under a whole row flipped. */
  predicate RowFlipped(px: Frame, t: Frame, row: u8, x0: nat, y: nat) {
    forall X, Y | 0 <= X < CHIP8_WIDTH && 0 <= Y < CHIP8_HEIGHT :: t[X][Y] == (px[X][Y] != RowCovers(row, x0, y, 0, X, Y))
  }

  // ---------------------------------------------------------------------------
  // The loops meet the pixel-by-pixel statement

  /** Drawing bits `j..7` of a row panics exactly when one of them lands off screen. */
  lemma {:induction false} DrawRowOk(px: Frame, row: u8, x0: nat, y: nat, j: nat)
    requires j <= 8
    ensures DrawRow(px, row, x0, y, j).Ok? <==> RowFits(row, x0, y, j)
    decreases 8 - j
  {
    if j < 8 {
      RowFitsSplit(row, x0, y, j);
      if !BitSet(row, j) {
        DrawRowOk(px, row, x0, y, j + 1);
      } else if x0 + j < CHIP8_WIDTH && y < CHIP8_HEIGHT {
        var t := Toggle(px, x0 + j, y);
        DrawRowOk(t, row, x0, y, j + 1);
        assert DrawRow(px, row, x0, y, j).Ok? == DrawRow(t, row, x0, y, j + 1).Ok?;
      }
    }
  }

  /** Bits `j..7` fit when bit `j` does and bits `j+1..7` do. */
  lemma RowFitsSplit(row: u8, x0: nat, y: nat, j: nat)
    requires j < 8
    ensures RowFits(row, x0, y, j) <==>
      (BitSet(row, j) ==> x0 + j < CHIP8_WIDTH && y < CHIP8_HEIGHT) && RowFits(row, x0, y, j + 1)
  {
  }

  /** A draw of bits `j..7` of a row that does not panic flips pixel `(X, Y)` iff it lies under one of them. */
  lemma {:induction false} DrawRowPixel(px: Frame, row: u8, x0: nat, y: nat, j: nat, X: nat, Y: nat)
    requires j <= 8 && X < CHIP8_WIDTH && Y < CHIP8_HEIGHT
    requires DrawRow(px, row, x0, y, j).Ok?
    ensures DrawRow(px, row, x0, y, j).value.0[X][Y] == (px[X][Y] != RowCovers(row, x0, y, j, X, Y))
    decreases 8 - j
  {
    if j < 8 {
      RowCoversStep(row, x0, y, j, X, Y);
      if !BitSet(row, j) {
        DrawRowPixel(px, row, x0, y, j + 1, X, Y);
      } else {
        var t := Toggle(px, x0 + j, y);
        DrawRowPixel(t, row, x0, y, j + 1, X, Y);
        ToggleAt(px, x0 + j, y, X, Y);
      }
    }
  }

  /** The pixels under bits `j..7` are those under bits `j+1..7` and, if bit `j` is set, pixel `(x0 + j, y)`. */
  lemma RowCoversStep(row: u8, x0: nat, y: nat, j: nat, X: int, Y: int)
    requires j < 8
    ensures RowCovers(row, x0, y, j, X, Y) ==
      (RowCovers(row, x0, y, j + 1, X, Y) || (X == x0 + j && Y == y && BitSet(row, j)))
  {
  }

  /** Toggling flips exactly the one pixel. */
  lemma ToggleAt(px: Frame, x: nat, y: nat, X: nat, Y: nat)
    requires x < CHIP8_WIDTH && y < CHIP8_HEIGHT && X < CHIP8_WIDTH && Y < CHIP8_HEIGHT
    ensures Toggle(px, x, y)[X][Y] == (px[X][Y] != (X == x && Y == y))
  {
  }

  /** A draw of bits `j..7` of a row that does not panic reports a collision iff a pixel under them was on. */
  lemma {:induction false} DrawRowHit(px: Frame, row: u8, x0: nat, y: nat, j: nat)
    requires j <= 8
    ensures DrawRow(px, row, x0, y, j).Ok? ==> (DrawRow(px, row, x0, y, j).value.1 <==> RowHit(px, row, x0, y, j))
    decreases 8 - j
  {
    if j < 8 && DrawRow(px, row, x0, y, j).Ok? {
      if !BitSet(row, j) {
        DrawRowHit(px, row, x0, y, j + 1);
        forall X, Y ensures RowCovers(row, x0, y, j, X, Y) == RowCovers(row, x0, y, j + 1, X, Y) {
          RowCoversStep(row, x0, y, j, X, Y);
        }
      } else {
        var t := Toggle(px, x0 + j, y);
        DrawRowHit(t, row, x0, y, j + 1);
        var hit := DrawRow(t, row, x0, y, j + 1).value.1;
        assert DrawRow(px, row, x0, y, j).value.1 == (hit || px[x0 + j][y]);
        RowHitStep(px, t, row, x0, y, j, hit);
      }
    }
  }

  /**
    The collision flag of bits `j..7` when bit `j` is set: the flag `hit` of
    bits `j+1..7` drawn after pixel `(x0 + j, y)` is toggled, or that pixel.
   */
  lemma RowHitStep(px: Frame, t: Frame, row: u8, x0: nat, y: nat, j: nat, hit: bool)
    requires j < 8 && BitSet(row, j) && x0 + j < CHIP8_WIDTH && y < CHIP8_HEIGHT
    requires t == Toggle(px, x0 + j, y)
    requires hit <==> RowHit(t, row, x0, y, j + 1)
    ensures (hit || px[x0 + j][y]) <==> RowHit(px, row, x0, y, j)
  {
    if hit {
      var X, Y :| 0 <= X < CHIP8_WIDTH && 0 <= Y < CHIP8_HEIGHT && RowCovers(row, x0, y, j + 1, X, Y) && t[X][Y];
      ToggleAt(px, x0 + j, y, X, Y);
      assert RowCovers(row, x0, y, j, X, Y) && px[X][Y];
    }
    if px[x0 + j][y] {
      assert RowCovers(row, x0, y, j, x0 + j, y);
    }
    if RowHit(px, row, x0, y, j) {
      var X, Y :| 0 <= X < CHIP8_WIDTH && 0 <= Y < CHIP8_HEIGHT && RowCovers(row, x0, y, j, X, Y) && px[X][Y];
      if X != x0 + j {
        ToggleAt(px, x0 + j, y, X, Y);
        assert RowCovers(row, x0, y, j + 1, X, Y) && t[X][Y];
      }
    }
  }

  /** Drawing rows `i..n-1` panics exactly when one of them cannot be read or has a set bit off screen. */
  lemma {:induction false} DrawRowsOk(px: Frame, mem: Memory, index: u16, x0: nat, y0: nat, i: nat, n: nat)
    requires i <= n
    ensures DrawRows(px, mem, index, x0, y0, i, n).Ok? <==> SpriteFits(mem, index, x0, y0, i, n)
    decreases n - i
  {
    if i < n {
      SpriteFitsSplit(mem, index, x0, y0, i, n);
      if index + i < RAM_SIZE {
        var first := DrawRow(px, mem[index + i], x0, y0 + i, 0);
        DrawRowOk(px, mem[index + i], x0, y0 + i, 0);
        if first.Ok? {
          DrawRowsOk(first.value.0, mem, index, x0, y0, i + 1, n);
          assert DrawRows(px, mem, index, x0, y0, i, n).Ok? == DrawRows(first.value.0, mem, index, x0, y0, i + 1, n).Ok?;
        }
      }
    }
  }

  /** Rows `i..n-1` fit when row `i` does and rows `i+1..n-1` do. */
  lemma SpriteFitsSplit(mem: Memory, index: u16, x0: nat, y0: nat, i: nat, n: nat)
    requires i < n
    ensures SpriteFits(mem, index, x0, y0, i, n) <==>
      RowDrawable(mem, index, x0, y0, i) && SpriteFits(mem, index, x0, y0, i + 1, n)
  {
  }

  /** A draw of rows `i..n-1` that does not panic flips pixel `(X, Y)` iff the rows cover it. */
  lemma {:induction false} DrawRowsPixel(px: Frame, mem: Memory, index: u16, x0: nat, y0: nat, i: nat, n: nat, X: nat, Y: nat)
    requires i <= n && X < CHIP8_WIDTH && Y < CHIP8_HEIGHT
    requires DrawRows(px, mem, index, x0, y0, i, n).Ok?
    ensures DrawRows(px, mem, index, x0, y0, i, n).value.0[X][Y] == (px[X][Y] != Covers(mem, index, x0, y0, i, n, X, Y))
    decreases n - i
  {
    if i < n {
      var t, h1 := DrawRowsStep(px, mem, index, x0, y0, i, n);
      DrawRowsPixel(t, mem, index, x0, y0, i + 1, n, X, Y);
      PixelStep(px, t, DrawRows(t, mem, index, x0, y0, i + 1, n).value.0, mem, index, x0, y0, i, n, X, Y);
    }
  }

  /** A draw of rows `i..n-1` that does not panic reports a collision iff a covered pixel was on. */
  lemma {:induction false} DrawRowsHit(px: Frame, mem: Memory, index: u16, x0: nat, y0: nat, i: nat, n: nat)
    requires i <= n
    ensures DrawRows(px, mem, index, x0, y0, i, n).Ok? ==>
      (DrawRows(px, mem, index, x0, y0, i, n).value.1 <==> Hit(px, mem, index, x0, y0, i, n))
    decreases n - i
  {
    if i < n && DrawRows(px, mem, index, x0, y0, i, n).Ok? {
      var t, h1 := DrawRowsStep(px, mem, index, x0, y0, i, n);
      DrawRowsHit(t, mem, index, x0, y0, i + 1, n);
      HitStep(px, t, mem, index, x0, y0, i, n, h1, DrawRows(t, mem, index, x0, y0, i + 1, n).value.1);
    }
  }

  /** A whole-row draw that does not panic flips exactly the pixels under the row. */
  lemma DrawRowFrame(px: Frame, row: u8, x0: nat, y: nat, t: Frame)
    requires DrawRow(px, row, x0, y, 0).Ok? && t == DrawRow(px, row, x0, y, 0).value.0
    ensures RowFlipped(px, t, row, x0, y)
  {
    forall X, Y | 0 <= X < CHIP8_WIDTH && 0 <= Y < CHIP8_HEIGHT
      ensures t[X][Y] == (px[X][Y] != RowCovers(row, x0, y, 0, X, Y))
    {
      DrawRowPixel(px, row, x0, y, 0, X, Y);
    }
  }

  /**
    The collision flag of rows `i..n-1` from the flag `h1` of row `i`, drawn
    from `px` to `t`, and the flag `h2` of rows `i+1..n-1` drawn from `t`.
   */
  lemma HitStep(px: Frame, t: Frame, mem: Memory, index: u16, x0: nat, y0: nat, i: nat, n: nat, h1: bool, h2: bool)
    requires i < n && index + i < RAM_SIZE
    requires RowFlipped(px, t, mem[index + i], x0, y0 + i)
    requires h1 <==> RowHit(px, mem[index + i], x0, y0 + i, 0)
    requires h2 <==> Hit(t, mem, index, x0, y0, i + 1, n)
    ensures (h1 || h2) <==> Hit(px, mem, index, x0, y0, i, n)
  {
    var row := mem[index + i];
    if h2 {
      var X, Y :| 0 <= X < CHIP8_WIDTH && 0 <= Y < CHIP8_HEIGHT && Covers(mem, index, x0, y0, i + 1, n, X, Y) && t[X][Y];
      CoversSplit(mem, index, x0, y0, i, n, X, Y);
      assert Covers(mem, index, x0, y0, i, n, X, Y) && px[X][Y];
    }
    if h1 {
      var X, Y :| 0 <= X < CHIP8_WIDTH && 0 <= Y < CHIP8_HEIGHT && RowCovers(row, x0, y0 + i, 0, X, Y) && px[X][Y];
      CoversSplit(mem, index, x0, y0, i, n, X, Y);
      assert Covers(mem, index, x0, y0, i, n, X, Y) && px[X][Y];
    }
    if Hit(px, mem, index, x0, y0, i, n) {
      var X, Y :| 0 <= X < CHIP8_WIDTH && 0 <= Y < CHIP8_HEIGHT && Covers(mem, index, x0, y0, i, n, X, Y) && px[X][Y];
      CoversSplit(mem, index, x0, y0, i, n, X, Y);
      if !RowCovers(row, x0, y0 + i, 0, X, Y) {
        assert Covers(mem, index, x0, y0, i + 1, n, X, Y) && t[X][Y];
      } else {
        assert RowCovers(row, x0, y0 + i, 0, X, Y) && px[X][Y];
      }
    }
  }

  /**
    One step of the row loop: row `i` is drawn from `px` to `t`, flipping the
    pixels under it, with flag `h1` telling whether one of them was lit; then
    rows `i+1..n-1` are drawn from `t`.
   */
  lemma DrawRowsStep(px: Frame, mem: Memory, index: u16, x0: nat, y0: nat, i: nat, n: nat) returns (t: Frame, h1: bool)
    requires i < n && DrawRows(px, mem, index, x0, y0, i, n).Ok?
    ensures index + i < RAM_SIZE
    ensures RowFlipped(px, t, mem[index + i], x0, y0 + i)
    ensures h1 <==> RowHit(px, mem[index + i], x0, y0 + i, 0)
    ensures DrawRows(t, mem, index, x0, y0, i + 1, n).Ok?
    ensures DrawRows(px, mem, index, x0, y0, i, n).value
      == (DrawRows(t, mem, index, x0, y0, i + 1, n).value.0, h1 || DrawRows(t, mem, index, x0, y0, i + 1, n).value.1)
  {
    var row := mem[index + i];
    var first := DrawRow(px, row, x0, y0 + i, 0).value;
    t, h1 := first.0, first.1;
    DrawRowFrame(px, row, x0, y0 + i, t);
    DrawRowHit(px, row, x0, y0 + i, 0);
  }

  /** The pixel step of `DrawRowsPixel`: row `i` flips `px` into `t`, and rows `i+1..n-1` flip `t` into `u`. */
  lemma PixelStep(px: Frame, t: Frame, u: Frame, mem: Memory, index: u16, x0: nat, y0: nat, i: nat, n: nat, X: nat, Y: nat)
    requires i < n && index + i < RAM_SIZE && X < CHIP8_WIDTH && Y < CHIP8_HEIGHT
    requires RowFlipped(px, t, mem[index + i], x0, y0 + i)
    requires u[X][Y] == (t[X][Y] != Covers(mem, index, x0, y0, i + 1, n, X, Y))
    ensures u[X][Y] == (px[X][Y] != Covers(mem, index, x0, y0, i, n, X, Y))
  {
    CoversSplit(mem, index, x0, y0, i, n, X, Y);
    if RowCovers(mem[index + i], x0, y0 + i, 0, X, Y) {
      assert !Covers(mem, index, x0, y0, i + 1, n, X, Y);
    }
  }

  /** A pixel under rows `i..n-1` is under row `i` or, and then not under row `i`, under rows `i+1..n-1`. */
  lemma CoversSplit(mem: Memory, index: u16, x0: nat, y0: nat, i: nat, n: nat, X: int, Y: int)
    requires i < n && index + i < RAM_SIZE
    ensures Covers(mem, index, x0, y0, i, n, X, Y) ==
      (RowCovers(mem[index + i], x0, y0 + i, 0, X, Y) || Covers(mem, index, x0, y0, i + 1, n, X, Y))
    ensures !(RowCovers(mem[index + i], x0, y0 + i, 0, X, Y) && Covers(mem, index, x0, y0, i + 1, n, X, Y))
  {
  }

  // ---------------------------------------------------------------------------
  // The Dxyn handler

  /** The column of the sprite origin: `Vx % 64`, read before the draw. */
  function OriginX(s: State, x: Nibble): nat {
    s.registers[x] % CHIP8_WIDTH
  }

  /** The row of the sprite origin: `Vy % 32`, read before the draw. */
  function OriginY(s: State, y: Nibble): nat {
    s.registers[y] % CHIP8_HEIGHT
  }

  /** Pixel `(X, Y)` lies under the `n`-row sprite at the index register drawn by `Dxyn`. */
  predicate Under(s: State, x: Nibble, y: Nibble, n: Nibble, X: int, Y: int) {
    Covers(s.memory, s.index, OriginX(s, x), OriginY(s, y), 0, n, X, Y)
  }

  /** `Dxyn` can run without a panic: every row is in memory and every set bit lands on the screen. */
  predicate Drawable(s: State, x: Nibble, y: Nibble, n: Nibble) {
    SpriteFits(s.memory, s.index, OriginX(s, x), OriginY(s, y), 0, n)
  }

  /** A pixel under the sprite is lit before the draw: the draw turns it off. */
  predicate Collides(s: State, x: Nibble, y: Nibble, n: Nibble) {
    exists X, Y | 0 <= X < CHIP8_WIDTH && 0 <= Y < CHIP8_HEIGHT :: Under(s, x, y, n, X, Y) && s.pixels[X][Y]
  }

  /**
    `_dxyn`: VF is cleared, each set bit of the `n` sprite rows toggles its
    pixel, and VF becomes 1 when a toggled pixel was lit. A row outside memory
    or a set bit off the screen panics.
   */
  function DrawSprite(s: State, x: Nibble, y: Nibble, n: Nibble): Result<State> {
    var drawn :- DrawRows(s.pixels, s.memory, s.index, OriginX(s, x), OriginY(s, y), 0, n);
    Ok(s.(pixels := drawn.0, registers := s.registers[VF := if drawn.1 then 1 else 0]))
  }

  /**
    The draw succeeds exactly when the sprite fits; it then XORs the sprite
    into the frame, sets VF to 1 iff a lit pixel was turned off and to 0
    otherwise, and changes nothing else.
   */
  lemma DrawSpriteSpec(s: State, x: Nibble, y: Nibble, n: Nibble)
    ensures DrawSprite(s, x, y, n).Ok? <==> Drawable(s, x, y, n)
    ensures DrawSprite(s, x, y, n).Fault? ==> DrawSprite(s, x, y, n).panic == IndexOutOfBounds
    ensures DrawSprite(s, x, y, n).Ok? ==>
      var t := DrawSprite(s, x, y, n).value;
      && (forall X, Y | 0 <= X < CHIP8_WIDTH && 0 <= Y < CHIP8_HEIGHT ::
            t.pixels[X][Y] == (s.pixels[X][Y] != Under(s, x, y, n, X, Y)))
      && t.registers[VF] == (if Collides(s, x, y, n) then 1 else 0)
      && (forall k | 0 <= k < NUM_REGISTERS && k != VF :: t.registers[k] == s.registers[k])
      && t == s.(pixels := t.pixels, registers := t.registers)
  {
    DrawSpriteOk(s, x, y, n);
    if DrawSprite(s, x, y, n).Ok? {
      DrawSpritePixels(s, x, y, n);
      DrawSpriteFlag(s, x, y, n);
    }
  }

  /** The success and panic part of `DrawSpriteSpec`. */
  lemma DrawSpriteOk(s: State, x: Nibble, y: Nibble, n: Nibble)
    ensures DrawSprite(s, x, y, n).Ok? <==> Drawable(s, x, y, n)
    ensures DrawSprite(s, x, y, n).Fault? ==> DrawSprite(s, x, y, n).panic == IndexOutOfBounds
  {
    DrawRowsOk(s.pixels, s.memory, s.index, OriginX(s, x), OriginY(s, y), 0, n);
  }

  /** The framebuffer part of `DrawSpriteSpec`. */
  lemma DrawSpritePixels(s: State, x: Nibble, y: Nibble, n: Nibble)
    requires DrawSprite(s, x, y, n).Ok?
    ensures forall X, Y | 0 <= X < CHIP8_WIDTH && 0 <= Y < CHIP8_HEIGHT ::
      DrawSprite(s, x, y, n).value.pixels[X][Y] == (s.pixels[X][Y] != Under(s, x, y, n, X, Y))
  {
    var x0, y0 := OriginX(s, x), OriginY(s, y);
    forall X, Y | 0 <= X < CHIP8_WIDTH && 0 <= Y < CHIP8_HEIGHT
      ensures DrawSprite(s, x, y, n).value.pixels[X][Y] == (s.pixels[X][Y] != Under(s, x, y, n, X, Y))
    {
      DrawRowsPixel(s.pixels, s.memory, s.index, x0, y0, 0, n, X, Y);
    }
  }

  /** The VF part of `DrawSpriteSpec`. */
  lemma DrawSpriteFlag(s: State, x: Nibble, y: Nibble, n: Nibble)
    requires DrawSprite(s, x, y, n).Ok?
    ensures DrawSprite(s, x, y, n).value.registers[VF] == (if Collides(s, x, y, n) then 1 else 0)
  {
    DrawRowsHit(s.pixels, s.memory, s.index, OriginX(s, x), OriginY(s, y), 0, n);
  }

  /** Two frames that agree on every pixel are the same frame. */
  lemma FrameExt(a: Frame, b: Frame)
    requires forall X, Y | 0 <= X < CHIP8_WIDTH && 0 <= Y < CHIP8_HEIGHT :: a[X][Y] == b[X][Y]
    ensures a == b
  {
    forall X | 0 <= X < CHIP8_WIDTH
      ensures a[X] == b[X]
    {
      assert forall Y | 0 <= Y < CHIP8_HEIGHT :: a[X][Y] == b[X][Y];
    }
  }

  /**
    Drawing the same sprite twice, from registers other than VF, restores the
    frame: XOR is its own inverse. The second draw reports a collision iff
    some pixel under the sprite was dark before the first one.
   */
  lemma DrawTwice(s: State, x: Nibble, y: Nibble, n: Nibble)
    requires x != VF && y != VF
    requires DrawSprite(s, x, y, n).Ok?
    ensures var s1 := DrawSprite(s, x, y, n).value;
      && DrawSprite(s1, x, y, n).Ok?
      && DrawSprite(s1, x, y, n).value.pixels == s.pixels
      && (DrawSprite(s1, x, y, n).value.registers[VF] == 1 <==>
          exists X, Y | 0 <= X < CHIP8_WIDTH && 0 <= Y < CHIP8_HEIGHT :: Under(s, x, y, n, X, Y) && !s.pixels[X][Y])
  {
    DrawSpriteSpec(s, x, y, n);
    var s1 := DrawSprite(s, x, y, n).value;
    assert OriginX(s1, x) == OriginX(s, x) && OriginY(s1, y) == OriginY(s, y);
    assert Drawable(s1, x, y, n) == Drawable(s, x, y, n);
    forall X, Y ensures Under(s1, x, y, n, X, Y) == Under(s, x, y, n, X, Y) {
    }
    DrawSpriteSpec(s1, x, y, n);
    var s2 := DrawSprite(s1, x, y, n).value;
    FrameExt(s2.pixels, s.pixels);
    if Collides(s1, x, y, n) {
      var X, Y :| 0 <= X < CHIP8_WIDTH && 0 <= Y < CHIP8_HEIGHT && Under(s1, x, y, n, X, Y) && s1.pixels[X][Y];
      assert Under(s, x, y, n, X, Y) && !s.pixels[X][Y];
    }
    if exists X, Y | 0 <= X < CHIP8_WIDTH && 0 <= Y < CHIP8_HEIGHT :: Under(s, x, y, n, X, Y) && !s.pixels[X][Y] {
      var X, Y :| 0 <= X < CHIP8_WIDTH && 0 <= Y < CHIP8_HEIGHT && Under(s, x, y, n, X, Y) && !s.pixels[X][Y];
      assert Under(s1, x, y, n, X, Y) && s1.pixels[X][Y];
    }
  }
}
