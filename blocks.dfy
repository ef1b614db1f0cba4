/** The block grid: its closed-form layout (initBlocks, brickgame.c++
    lines 44-55) and the value-level meaning of the block scan of one frame
    (lines 183-199). The grid is a sequence of ROWS rows of COLS blocks. */
module Blocks {
  import opened Entities

  datatype Option<T> = None | Some(value: T)

  /** The block at row i, column j as initBlocks lays it out, not destroyed. */
  function Layout(i: nat, j: nat): Block
  {
    Block(j as real * (BW + GAP) + MARGIN, i as real * (BH + GAP) + MARGIN, BW, BH, false)
  }

  /** Same rectangle, whatever the destroyed flags. */
  predicate SameRect(a: Block, b: Block)
  {
    a.x == b.x && a.y == b.y && a.w == b.w && a.h == b.h
  }

  /** The point (x, y) lies strictly inside the block's rectangle. */
  predicate Inside(b: Block, x: real, y: real)
  {
    b.x < x < b.x + b.w && b.y < y < b.y + b.h
  }

  /** The scan's test (lines 186-190): a block still present whose
      rectangle strictly contains the ball centre (x, y). */
  predicate Hits(b: Block, x: real, y: real)
  {
    !b.destroyed && Inside(b, x, y)
  }

  /** A block that this frame destroyed. */
  predicate Newly(before: Block, after: Block)
  {
    !before.destroyed && after.destroyed
  }

  /** The grid has ROWS rows of COLS blocks at the positions initBlocks
      gives them; destroyed flags are free. */
  predicate LaidOut(g: seq<seq<Block>>)
  {
    |g| == ROWS &&
    (forall i :: 0 <= i < ROWS ==> |g[i]| == COLS) &&
    (forall i, j :: 0 <= i < ROWS && 0 <= j < COLS ==> SameRect(g[i][j], Layout(i, j)))
  }

  /** Every laid-out block lies inside the W x H playfield. */
  lemma LayoutInField(i: nat, j: nat)
    requires i < ROWS && j < COLS
    ensures var b := Layout(i, j);
      0.0 < b.x && b.x + b.w <= W && 0.0 < b.y && b.y + b.h <= H
  {
  }

  /** Two different laid-out blocks are separated by a gap along at least
      one axis, so as open rectangles they are disjoint. */
  lemma LayoutDisjoint(i1: nat, j1: nat, i2: nat, j2: nat)
    requires i1 < ROWS && j1 < COLS && i2 < ROWS && j2 < COLS
    requires i1 != i2 || j1 != j2
    ensures var a, b := Layout(i1, j1), Layout(i2, j2);
      a.x + a.w < b.x || b.x + b.w < a.x || a.y + a.h < b.y || b.y + b.h < a.y
  {
    if j1 < j2 {
      assert j1 as real + 1.0 <= j2 as real;
    } else if j2 < j1 {
      assert j2 as real + 1.0 <= j1 as real;
    } else if i1 < i2 {
      assert i1 as real + 1.0 <= i2 as real;
    } else {
      assert i2 as real + 1.0 <= i1 as real;
    }
  }

  /** A point lies strictly inside at most one laid-out block. */
  lemma LayoutOneContains(i1: nat, j1: nat, i2: nat, j2: nat, x: real, y: real)
    requires i1 < ROWS && j1 < COLS && i2 < ROWS && j2 < COLS
    requires Inside(Layout(i1, j1), x, y) && Inside(Layout(i2, j2), x, y)
    ensures i1 == i2 && j1 == j2
  {
    if i1 != i2 || j1 != j2 {
      LayoutDisjoint(i1, j1, i2, j2);
    }
  }

  /** The column loop (lines 184-197) from column j on: the first column
      whose block the ball hits, if any. */
  function FirstHitFrom(row: seq<Block>, x: real, y: real, j: nat): (r: Option<nat>)
    decreases |row| - j
    ensures r.Some? ==> j <= r.value < |row| && Hits(row[r.value], x, y)
    ensures r.Some? ==> forall k :: j <= k < r.value ==> !Hits(row[k], x, y)
    ensures r.None? ==> forall k :: j <= k < |row| ==> !Hits(row[k], x, y)
  {
    if j >= |row| then None
    else if Hits(row[j], x, y) then Some(j)
    else FirstHitFrom(row, x, y, j + 1)
  }

  function FirstHit(row: seq<Block>, x: real, y: real): Option<nat>
  {
    FirstHitFrom(row, x, y, 0)
  }

  /** One row after the column loop: the first block hit, and only it, is
      destroyed (the loop breaks after it); every rectangle is kept. */
  function ScanRow(row: seq<Block>, x: real, y: real): (r: seq<Block>)
    ensures |r| == |row|
    ensures forall k :: 0 <= k < |row| ==> SameRect(r[k], row[k])
    ensures forall k :: 0 <= k < |row| ==>
      (r[k].destroyed <==> row[k].destroyed ||
                           (Hits(row[k], x, y) && forall m :: 0 <= m < k ==> !Hits(row[m], x, y)))
  {
    match FirstHit(row, x, y)
    case None => row
    case Some(k) => row[k := row[k].(destroyed := true)]
  }

  /** How many of the first n rows contain a block the ball hits. */
  function HitRows(g: seq<seq<Block>>, x: real, y: real, n: nat): nat
    requires n <= |g|
  {
    if n == 0 then 0
    else HitRows(g, x, y, n - 1) + (if FirstHit(g[n - 1], x, y).Some? then 1 else 0)
  }

  /** v negated n times. */
  function FlipN(v: real, n: nat): (r: real)
    ensures Abs(r) == Abs(v)
    ensures n == 0 ==> r == v
    ensures n == 1 ==> r == -v
  {
    if n % 2 == 0 then v else -v
  }

  datatype Scanned = Scanned(grid: seq<seq<Block>>, ball: Ball)

  /** The row-major block scan (lines 183-199). The break leaves only the
      column loop, so every row destroys its own first hit block, and each
      destruction negates vy once. The ball's centre is not moved, so every
      row tests the same point. */
  function Scan(g: seq<seq<Block>>, b: Ball): (r: Scanned)
    ensures |r.grid| == |g|
    ensures forall i :: 0 <= i < |g| ==> |r.grid[i]| == |g[i]|
    ensures forall i, j :: 0 <= i < |g| && 0 <= j < |g[i]| ==> SameRect(r.grid[i][j], g[i][j])
    ensures forall i, j :: 0 <= i < |g| && 0 <= j < |g[i]| ==>
      g[i][j].destroyed ==> r.grid[i][j].destroyed
    ensures forall i, j :: 0 <= i < |g| && 0 <= j < |g[i]| ==>
      Newly(g[i][j], r.grid[i][j]) ==> Hits(g[i][j], b.x, b.y)
    ensures r.ball.(vy := b.vy) == b && Abs(r.ball.vy) == Abs(b.vy)
  {
    Scanned(seq(|g|, i requires 0 <= i < |g| => ScanRow(g[i], b.x, b.y)),
            b.(vy := FlipN(b.vy, HitRows(g, b.x, b.y, |g|))))
  }

  /** No hit row among the first n: no flip. */
  lemma {:induction false} HitRowsZero(g: seq<seq<Block>>, x: real, y: real, n: nat)
    requires n <= |g|
    requires forall i :: 0 <= i < n ==> FirstHit(g[i], x, y).None?
    ensures HitRows(g, x, y, n) == 0
  {
    if n > 0 {
      HitRowsZero(g, x, y, n - 1);
    }
  }

  /** A hit row among the first n: at least one flip. */
  lemma {:induction false} HitRowsPositive(g: seq<seq<Block>>, x: real, y: real, n: nat, i: nat)
    requires i < n <= |g|
    requires FirstHit(g[i], x, y).Some?
    ensures HitRows(g, x, y, n) >= 1
  {
    if i < n - 1 {
      HitRowsPositive(g, x, y, n - 1, i);
    }
  }

  /** In a laid-out grid a row hit lies inside that row's laid-out block. */
  lemma RowHitInside(g: seq<seq<Block>>, x: real, y: real, i: nat)
    requires LaidOut(g) && i < ROWS
    requires FirstHit(g[i], x, y).Some?
    ensures FirstHit(g[i], x, y).value < COLS
    ensures Inside(Layout(i, FirstHit(g[i], x, y).value), x, y)
  {
  }

  /** In a laid-out grid at most one row holds a block the ball hits. */
  lemma OneHitRow(g: seq<seq<Block>>, x: real, y: real, i1: nat, i2: nat)
    requires LaidOut(g) && i1 < ROWS && i2 < ROWS
    requires FirstHit(g[i1], x, y).Some? && FirstHit(g[i2], x, y).Some?
    ensures i1 == i2
  {
    RowHitInside(g, x, y, i1);
    RowHitInside(g, x, y, i2);
    LayoutOneContains(i1, FirstHit(g[i1], x, y).value, i2, FirstHit(g[i2], x, y).value, x, y);
  }

  /** In a laid-out grid the ball hits blocks in at most one row. */
  lemma {:induction false} HitRowsAtMostOne(g: seq<seq<Block>>, x: real, y: real, n: nat)
    requires LaidOut(g) && n <= ROWS
    ensures HitRows(g, x, y, n) <= 1
  {
    if n > 0 {
      if FirstHit(g[n - 1], x, y).Some? {
        forall i | 0 <= i < n - 1
          ensures FirstHit(g[i], x, y).None?
        {
          if FirstHit(g[i], x, y).Some? {
            OneHitRow(g, x, y, i, n - 1);
          }
        }
        HitRowsZero(g, x, y, n - 1);
      } else {
        HitRowsAtMostOne(g, x, y, n - 1);
      }
    }
  }

  /** The scan of a laid-out grid keeps it laid out, destroys every block
      the ball hits and at most one block, and negates vy exactly when it
      destroys one. */
  lemma ScanLaidOut(g: seq<seq<Block>>, b: Ball)
    requires LaidOut(g)
    ensures var r := Scan(g, b); LaidOut(r.grid)
    ensures var r := Scan(g, b);
      forall i1, j1, i2, j2 ::
        0 <= i1 < ROWS && 0 <= j1 < COLS && 0 <= i2 < ROWS && 0 <= j2 < COLS &&
        Newly(g[i1][j1], r.grid[i1][j1]) && Newly(g[i2][j2], r.grid[i2][j2]) ==>
        i1 == i2 && j1 == j2
    ensures var r := Scan(g, b);
      forall i, j :: 0 <= i < ROWS && 0 <= j < COLS && Hits(g[i][j], b.x, b.y) ==>
        r.grid[i][j].destroyed
    ensures var r := Scan(g, b);
      (exists i, j :: 0 <= i < ROWS && 0 <= j < COLS && Newly(g[i][j], r.grid[i][j])) ==>
        r.ball.vy == -b.vy
    ensures var r := Scan(g, b);
      (forall i, j :: 0 <= i < ROWS && 0 <= j < COLS ==> !Newly(g[i][j], r.grid[i][j])) ==>
        r.ball == b
  {
    var r := Scan(g, b);
    forall i1, j1, i2, j2 |
      0 <= i1 < ROWS && 0 <= j1 < COLS && 0 <= i2 < ROWS && 0 <= j2 < COLS &&
      Newly(g[i1][j1], r.grid[i1][j1]) && Newly(g[i2][j2], r.grid[i2][j2])
      ensures i1 == i2 && j1 == j2
    {
      LayoutOneContains(i1, j1, i2, j2, b.x, b.y);
    }
    forall i, j | 0 <= i < ROWS && 0 <= j < COLS && Hits(g[i][j], b.x, b.y)
      ensures r.grid[i][j].destroyed
    {
      forall m | 0 <= m < j ensures !Hits(g[i][m], b.x, b.y) {
        LayoutDisjoint(i, m, i, j);
      }
    }
    HitRowsAtMostOne(g, b.x, b.y, ROWS);
    if exists i, j :: 0 <= i < ROWS && 0 <= j < COLS && Newly(g[i][j], r.grid[i][j]) {
      var i, j :| 0 <= i < ROWS && 0 <= j < COLS && Newly(g[i][j], r.grid[i][j]);
      assert FirstHit(g[i], b.x, b.y).Some?;
      HitRowsPositive(g, b.x, b.y, ROWS, i);
    } else {
      assert forall i :: 0 <= i < ROWS ==> FirstHit(g[i], b.x, b.y).None?;
      HitRowsZero(g, b.x, b.y, ROWS);
    }
  }

  /** The first row, from row i on, holding a block the ball hits. */
  function FirstHitRowFrom(g: seq<seq<Block>>, x: real, y: real, i: nat): (r: Option<nat>)
    decreases |g| - i
    ensures r.Some? ==> i <= r.value < |g| && FirstHit(g[r.value], x, y).Some?
    ensures r.None? ==> forall k :: i <= k < |g| ==> FirstHit(g[k], x, y).None?
  {
    if i >= |g| then None
    else if FirstHit(g[i], x, y).Some? then Some(i)
    else FirstHitRowFrom(g, x, y, i + 1)
  }

  /** The scan that stops at the first block hit in row-major order: it
      destroys that block, negates vy once and stops. */
  function ScanStopAtFirst(g: seq<seq<Block>>, b: Ball): Scanned
  {
    match FirstHitRowFrom(g, b.x, b.y, 0)
    case None => Scanned(g, b)
    case Some(i) =>
      var j := FirstHit(g[i], b.x, b.y).value;
      Scanned(g[i := g[i][j := g[i][j].(destroyed := true)]], b.(vy := -b.vy))
  }

  /** On a laid-out grid, the source's scan (whose break leaves only the
      column loop) agrees with stopping the whole scan at the first hit. */
  lemma ScanIsStopAtFirst(g: seq<seq<Block>>, b: Ball)
    requires LaidOut(g)
    ensures Scan(g, b) == ScanStopAtFirst(g, b)
  {
    var r, s := Scan(g, b), ScanStopAtFirst(g, b);
    HitRowsAtMostOne(g, b.x, b.y, ROWS);
    match FirstHitRowFrom(g, b.x, b.y, 0)
    case None =>
      HitRowsZero(g, b.x, b.y, ROWS);
      forall i | 0 <= i < ROWS ensures r.grid[i] == g[i] {
        assert FirstHit(g[i], b.x, b.y).None?;
      }
      assert r.grid == s.grid;
    case Some(i0) =>
      HitRowsPositive(g, b.x, b.y, ROWS, i0);
      forall i | 0 <= i < ROWS ensures r.grid[i] == s.grid[i] {
        if i != i0 {
          if FirstHit(g[i], b.x, b.y).Some? {
            OneHitRow(g, b.x, b.y, i, i0);
          }
        }
      }
      assert r.grid == s.grid;
  }
}
