/**
 * Level construction: the enemy grid of a wave and the five shields.
 * The source builds both with nested loops pushing into a fresh list;
 * here each is a sequence indexed in the same row-major order.
 */
module Level {
  import opened Geometry
  import opened Entities

  /** Enemy sprite size on screen (two times the 16x8 sprite frame). */
  const EnemyW: real := 32.0
  const EnemyH: real := 16.0

  function Rows(wave: nat): nat { 2 + wave }
  function Cols(wave: nat): nat { 6 + wave }

  /** The enemy in row `r`, column `c` of a grid with `cols` columns. */
  function EnemyAt(r: nat, c: nat, cols: nat): Enemy
    requires cols > 0
  {
    var gapX := GameW / cols as real;
    Enemy(gapX * c as real + (gapX - EnemyW) / 2.0, 40.0 * r as real + 30.0, EnemyW, EnemyH, true)
  }

  /** A non-zero multiple of `d` is at least `d` away from zero. */
  lemma MulAwayFromZero(d: nat, x: int)
    ensures x >= 1 ==> d * x >= d
    ensures x <= -1 ==> d * x + d <= 0
  {
  }

  /** `q * d + rem` with `rem < d` divides back into `q` and `rem`. */
  lemma DivModOf(q: nat, rem: nat, d: nat)
    requires rem < d
    ensures (q * d + rem) / d == q && (q * d + rem) % d == rem
  {
    var k := q * d + rem;
    var q': int, r': int := k / d, k % d;
    assert d * (q - q') == r' - rem by {
      assert k == d * q' + r';
      assert d * (q - q') == d * q - d * q';
    }
    MulAwayFromZero(d, q - q');
    assert q == q';
  }

  /**
   * `createEnemies`: a `(2+wave) x (6+wave)` grid of living enemies, row by
   * row, so that index `k` holds row `k / cols`, column `k % cols`.
   */
  function EnemyGrid(wave: nat): (s: seq<Enemy>)
    ensures |s| == Rows(wave) * Cols(wave)
    ensures forall k :: 0 <= k < |s| ==> s[k].alive
  {
    var cols := Cols(wave);
    seq(Rows(wave) * cols, k requires 0 <= k => EnemyAt(k / cols, k % cols, cols))
  }

  /** Enemy `(r, c)` of a wave's grid is at index `r * cols + c`, placed as `createEnemies` places it. */
  lemma EnemyGridCell(wave: nat, r: nat, c: nat)
    requires r < Rows(wave) && c < Cols(wave)
    ensures r * Cols(wave) + c < |EnemyGrid(wave)|
    ensures EnemyGrid(wave)[r * Cols(wave) + c] == EnemyAt(r, c, Cols(wave))
  {
    var rows, cols := Rows(wave), Cols(wave);
    var k := r * cols + c;
    CellIndexInRange(r, c, rows, cols);
    DivModOf(r, c, cols);
    assert EnemyGrid(wave)[k] == EnemyAt(k / cols, k % cols, cols);
  }

  /** Row-major index `r * cols + c` of a cell lies inside a `rows x cols` grid. */
  lemma CellIndexInRange(r: nat, c: nat, rows: nat, cols: nat)
    requires r < rows && c < cols
    ensures r * cols + c < rows * cols
  {
    MulAwayFromZero(cols, rows - r);
    assert cols * (rows - r) == rows * cols - r * cols;
  }

  /** Shield geometry: 5 shields of 60x30, each 6 columns by 4 rows of blocks. */
  const ShieldCount: nat := 5
  const ShieldCols: nat := 6
  const ShieldRows: nat := 4
  const BlockW: real := 10.0
  const BlockH: real := 7.5
  const ShieldTop: real := 480.0

  /** Left edge of shield `i`: equal gaps between and around the five shields. */
  function ShieldLeft(i: nat): real
  {
    var gap := (GameW - 5.0 * 60.0) / 6.0;
    gap * (i + 1) as real + 60.0 * i as real
  }

  /** Block `(ry, cx)` of shield `i`. */
  function BlockAt(i: nat, ry: nat, cx: nat): Block
  {
    Block(ShieldLeft(i) + cx as real * BlockW, ShieldTop + ry as real * BlockH, BlockW, BlockH)
  }

  /** Blocks per shield. */
  const ShieldBlocks: nat := ShieldRows * ShieldCols

  /**
   * `createShields`: 120 blocks of 10 x 7.5, shield by shield, row by row,
   * so that index `k` holds shield `k / 24`, row `(k % 24) / 6`, column `k % 6`.
   */
  function Shields(): (s: seq<Block>)
    ensures |s| == ShieldCount * ShieldBlocks == 120
  {
    seq(ShieldCount * ShieldBlocks, k requires 0 <= k =>
      BlockAt(k / ShieldBlocks, (k % ShieldBlocks) / ShieldCols, k % ShieldCols))
  }

  /** Block `(ry, cx)` of shield `i` is at index `24 * i + 6 * ry + cx` of `Shields()`. */
  lemma ShieldsCell(i: nat, ry: nat, cx: nat)
    requires i < ShieldCount && ry < ShieldRows && cx < ShieldCols
    ensures 24 * i + 6 * ry + cx < |Shields()|
    ensures Shields()[24 * i + 6 * ry + cx] == BlockAt(i, ry, cx)
  {
    DivModOf(ry, cx, 6);
    DivModOf(i, 6 * ry + cx, 24);
    assert (24 * i + 6 * ry + cx) % 6 == cx by {
      DivModOf(4 * i + ry, cx, 6);
      assert (4 * i + ry) * 6 + cx == 24 * i + 6 * ry + cx;
    }
  }
}
