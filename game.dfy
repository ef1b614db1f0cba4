/** The frame loop's game state as one object: the paddle, the ball, the
    5 x 10 block array and the play flag that main (brickgame.c++ lines
    103-121) keeps as locals, with the key handler and the physics step
    that update them in place. Each method is proved against the value-level
    meaning of the same operation in module Simulation. */
module Game {
  import opened Entities
  import opened Physics
  import opened Blocks
  import opened Simulation

  /** initBlocks (lines 44-55): fills the array row by row with the layout,
      every block present. */
  method InitBlocks(a: array2<Block>)
    requires a.Length0 == ROWS && a.Length1 == COLS
    modifies a
    ensures forall i, j :: 0 <= i < ROWS && 0 <= j < COLS ==> a[i, j] == Layout(i, j)
  {
    for i := 0 to ROWS
      invariant forall r, c :: 0 <= r < i && 0 <= c < COLS ==> a[r, c] == Layout(r, c)
    {
      for j := 0 to COLS
        invariant forall r, c :: 0 <= r < i && 0 <= c < COLS ==> a[r, c] == Layout(r, c)
        invariant forall c :: 0 <= c < j ==> a[i, c] == Layout(i, c)
      {
        a[i, j] := Block(j as real * (BW + GAP) + MARGIN, i as real * (BH + GAP) + MARGIN, BW, BH, false);
      }
    }
  }

  /** Two grids with the same shape and the same blocks are equal. */
  lemma GridExt(a: seq<seq<Block>>, b: seq<seq<Block>>)
    requires |a| == |b|
    requires forall i :: 0 <= i < |a| ==> |a[i]| == |b[i]|
    requires forall i, j :: 0 <= i < |a| && 0 <= j < |a[i]| ==> a[i][j] == b[i][j]
    ensures a == b
  {
    forall i | 0 <= i < |a|
      ensures a[i] == b[i]
    {
      assert forall j :: 0 <= j < |a[i]| ==> a[i][j] == b[i][j];
    }
  }

  class BrickGame {
    var pdl: Paddle
    var ball: Ball
    const blocks: array2<Block>
    var play: bool

    /** The block array as a grid of rows. */
    ghost function Grid(): (g: seq<seq<Block>>)
      reads blocks
      ensures |g| == blocks.Length0
      ensures forall i :: 0 <= i < |g| ==> |g[i]| == blocks.Length1
      ensures forall i, j :: 0 <= i < blocks.Length0 && 0 <= j < blocks.Length1 ==> g[i][j] == blocks[i, j]
    {
      seq(blocks.Length0, i requires 0 <= i < blocks.Length0 reads blocks =>
        seq(blocks.Length1, j requires 0 <= j < blocks.Length1 reads blocks => blocks[i, j]))
    }

    /** The whole game state as a value. */
    ghost function State(): Snapshot
      reads this, blocks
    {
      Snapshot(pdl, ball, Grid(), play)
    }

    ghost predicate Valid()
      reads this, blocks
    {
      blocks.Length0 == ROWS && blocks.Length1 == COLS && Simulation.Valid(State())
    }

    /** Game start (lines 103-121): the initial state, playing. */
    constructor ()
      ensures Valid() && State() == Initial() && fresh(blocks)
    {
      pdl := InitPdl(W / 2.0, H - PH - 10.0);
      ball := InitBall(W / 2.0, H / 2.0);
      play := true;
      blocks := new Block[ROWS, COLS];
      new;
      InitBlocks(blocks);
      GridExt(Grid(), InitialGrid());
      InitialState();
    }

    /** The space key (lines 137-144): a finished game restarts from the
      initial state; while playing the key is ignored. */
    method OnSpace()
      requires Valid()
      modifies this, blocks
      ensures Valid() && State() == Restart(old(State()))
    {
      if !play {
        play := true;
        pdl := InitPdl(W / 2.0, H - PH - 10.0);
        ball := InitBall(W / 2.0, H / 2.0);
        InitBlocks(blocks);
        GridExt(Grid(), InitialGrid());
        InitialState();
      }
    }

    /** The column loop of the block scan for row i (lines 184-197): it
      destroys the first present block of the row strictly containing the
      ball centre, negates vy and breaks. An internal step of ScanBlocks:
      it says nothing about Valid(). */
    method ScanRowAt(i: nat, ghost row: seq<Block>)
      requires blocks.Length0 == ROWS && blocks.Length1 == COLS && i < ROWS
      requires |row| == COLS && forall c :: 0 <= c < COLS ==> blocks[i, c] == row[c]
      modifies this`ball, blocks
      ensures forall c :: 0 <= c < COLS ==> blocks[i, c] == ScanRow(row, old(ball).x, old(ball).y)[c]
      ensures forall r, c :: 0 <= r < ROWS && r != i && 0 <= c < COLS ==> blocks[r, c] == old(blocks[r, c])
      ensures ball == old(ball).(vy := if FirstHit(row, old(ball).x, old(ball).y).Some? then -old(ball).vy else old(ball).vy)
    {
      ghost var hitCol: Option<nat> := None;
      var j := 0;
      while j < COLS
        invariant 0 <= j <= COLS
        invariant hitCol == None && ball == old(ball)
        invariant FirstHitFrom(row, ball.x, ball.y, j) == FirstHit(row, ball.x, ball.y)
        invariant forall r, c :: 0 <= r < ROWS && 0 <= c < COLS ==> blocks[r, c] == old(blocks[r, c])
      {
        var b := blocks[i, j];
        if !b.destroyed && ball.x > b.x && ball.x < b.x + b.w && ball.y > b.y && ball.y < b.y + b.h {
          blocks[i, j] := b.(destroyed := true);
          ball := ball.(vy := -ball.vy);
          hitCol := Some(j);
          break;
        }
        j := j + 1;
      }
      assert FirstHit(row, old(ball).x, old(ball).y) == hitCol;
    }

    /** The block scan (lines 183-199): the row loop runs the column loop on
      every row; a break leaves only the column loop. An internal step of
      Step: it says nothing about Valid(), which Step re-establishes. */
    method ScanBlocks()
      requires blocks.Length0 == ROWS && blocks.Length1 == COLS
      modifies this`ball, blocks
      ensures Scanned(Grid(), ball) == Scan(old(Grid()), old(ball))
    {
      ghost var g0 := Grid();
      ghost var b0 := ball;
      var i := 0;
      while i < ROWS
        invariant 0 <= i <= ROWS
        invariant ball == b0.(vy := FlipN(b0.vy, HitRows(g0, b0.x, b0.y, i)))
        invariant forall r, c :: 0 <= r < i && 0 <= c < COLS ==>
          blocks[r, c] == ScanRow(g0[r], b0.x, b0.y)[c]
        invariant forall r, c :: i <= r < ROWS && 0 <= c < COLS ==> blocks[r, c] == g0[r][c]
      {
        ScanRowAt(i, g0[i]);
        i := i + 1;
      }
      GridExt(Grid(), Scan(g0, b0).grid);
    }

    /** Paddle control (lines 154-160). An internal step of Step: it says
      nothing about Valid(), which Step re-establishes. */
    method MovePdl(left: bool, right: bool, dt: real)
      requires dt >= 0.0
      modifies this`pdl
      ensures pdl == MovePaddle(old(pdl), left, right, dt)
    {
      if left && pdl.x - pdl.w / 2.0 > 0.0 {
        pdl := pdl.(x := pdl.x - PS * dt);
      }
      if right && pdl.x + pdl.w / 2.0 < W {
        pdl := pdl.(x := pdl.x + PS * dt);
      }
    }

    /** Ball integration and the wall, floor and paddle checks (lines
      163-181); the floor check ends play but the paddle check still runs.
      An internal step of Step: it says nothing about Valid(), which Step
      re-establishes. */
    method MoveBall(dt: real)
      modifies this`ball, this`play
      ensures ball == Collide(Integrate(old(ball), dt), pdl)
      ensures play == (old(play) && !BelowFloor(Integrate(old(ball), dt)))
    {
      ball := ball.(x := ball.x + ball.vx * dt);
      ball := ball.(y := ball.y + ball.vy * dt);
      assert ball == Integrate(old(ball), dt);
      if ball.y - ball.r < 0.0 {
        ball := ball.(vy := -ball.vy);
      }
      assert ball == TopWall(Integrate(old(ball), dt));
      if ball.x - ball.r < 0.0 || ball.x + ball.r > W {
        ball := ball.(vx := -ball.vx);
      }
      assert ball == SideWalls(TopWall(Integrate(old(ball), dt)));
      if ball.y + ball.r > H {
        play := false;
      }
      if ball.y + ball.r > pdl.y - pdl.h / 2.0 && ball.x > pdl.x - pdl.w / 2.0 && ball.x < pdl.x + pdl.w / 2.0 {
        ball := ball.(vy := -Abs(ball.vy));
      }
    }

    /** One physics step (lines 149-199), run only while playing. */
    method Step(left: bool, right: bool, dt: real)
      requires Valid() && dt >= 0.0
      modifies this, blocks
      ensures Valid() && State() == PhysicsStep(old(State()), left, right, dt)
    {
      if play {
        ghost var s0 := State();
        MovePdl(left, right, dt);
        MoveBall(dt);
        ghost var b1, g1 := ball, Grid();
        assert g1 == s0.grid;
        ScanBlocks();
        assert Scanned(Grid(), ball) == Scan(s0.grid, b1);
        assert PhysicsStep(s0, left, right, dt) == Snapshot(pdl, ball, Grid(), play);
      }
      StepKeepsValid(old(State()), left, right, dt);
    }

    /** One pass of the frame loop's game logic (lines 131-200): a space key
      event first, then the physics step. Several space events in one frame
      act as one, since a restart leaves the game playing. */
    method Frame(space: bool, left: bool, right: bool, dt: real)
      requires Valid() && dt >= 0.0
      modifies this, blocks
      ensures Valid() && State() == FrameStep(old(State()), space, left, right, dt)
    {
      if space {
        OnSpace();
      }
      Step(left, right, dt);
    }
  }
}
