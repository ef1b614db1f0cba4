/** The game state of the frame loop as a value, and the meaning of one
    frame: the restart event (brickgame.c++ lines 137-144) and the physics
    step that runs only while playing (lines 149-199). */
module Simulation {
  import opened Entities
  import opened Physics
  import opened Blocks

  /** Paddle, ball, block grid and the play flag (true while playing). */
  datatype Snapshot = Snapshot(pdl: Paddle, ball: Ball, grid: seq<seq<Block>>, play: bool)

  /** The grid initBlocks fills: the layout, every block present. */
  function InitialGrid(): (g: seq<seq<Block>>)
    ensures LaidOut(g)
    ensures forall i, j :: 0 <= i < ROWS && 0 <= j < COLS ==> !g[i][j].destroyed
  {
    seq(ROWS, i requires 0 <= i < ROWS => seq(COLS, j requires 0 <= j < COLS => Layout(i, j)))
  }

  /** The start-of-game state (lines 109-121). */
  function Initial(): Snapshot
  {
    Snapshot(InitPdl(W / 2.0, H - PH - 10.0), InitBall(W / 2.0, H / 2.0), InitialGrid(), true)
  }

  /** The state invariant kept by every frame: the grid stays laid out, the
      paddle keeps its size and height, the ball its radius. */
  predicate Valid(s: Snapshot)
  {
    LaidOut(s.grid) && s.pdl.y == H - PH - 10.0 && s.pdl.w == PW && s.pdl.h == PH &&
    s.ball.r == BALL_SIZE / 2.0
  }

  /** The space key (lines 137-144): restarts a finished game, and is
      ignored while playing. */
  function Restart(s: Snapshot): Snapshot
  {
    if s.play then s else Initial()
  }

  /** One physics step (lines 149-199), in the source's order: paddle,
      integration, top wall, side walls, floor, paddle, blocks. Reaching the
      floor ends play but does not cut the rest of the frame short. */
  function PhysicsStep(s: Snapshot, left: bool, right: bool, dt: real): Snapshot
    requires dt >= 0.0
  {
    if !s.play then s
    else
      var p := MovePaddle(s.pdl, left, right, dt);
      var b := Integrate(s.ball, dt);
      var sc := Scan(s.grid, Collide(b, p));
      Snapshot(p, sc.ball, sc.grid, !BelowFloor(b))
  }

  /** One pass of the frame loop: the key events first, then physics. */
  function FrameStep(s: Snapshot, space: bool, left: bool, right: bool, dt: real): Snapshot
    requires dt >= 0.0
  {
    PhysicsStep(if space then Restart(s) else s, left, right, dt)
  }

  /** The initial state: paddle (400, 570, 100, 20), ball at (400, 300) of
      radius 10 launched at 45 degrees down and right, all blocks present
      at their layout positions, playing. */
  lemma InitialState()
    ensures Initial().pdl == Paddle(400.0, 570.0, 100.0, 20.0)
    ensures Initial().ball == Ball(400.0, 300.0, LAUNCH, LAUNCH, 10.0) && LAUNCH > 0.0
    ensures Initial().play && Valid(Initial())
    ensures forall i, j :: 0 <= i < ROWS && 0 <= j < COLS ==>
      Initial().grid[i][j] == Block(j as real * 65.0 + 35.0, i as real * 35.0 + 35.0, 60.0, 30.0, false)
  {
  }

  /** Restart from game over forgets the prior game entirely; restart while
      playing is a no-op; the result is always playing. */
  lemma RestartResets(s: Snapshot, t: Snapshot)
    ensures Restart(s).play
    ensures !s.play && !t.play ==> Restart(s) == Restart(t) == Initial()
    ensures s.play ==> Restart(s) == s
    ensures Restart(Restart(s)) == Restart(s)
  {
  }

  /** While the game is over, physics changes nothing. */
  lemma StepIdleWhenOver(s: Snapshot, left: bool, right: bool, dt: real)
    requires dt >= 0.0 && !s.play
    ensures PhysicsStep(s, left, right, dt) == s
  {
  }

  /** A step moves the ball centre by exactly one Euler step (responses only
      change the velocity), and play ends iff that centre puts the ball's
      bottom edge below the floor. */
  lemma StepBallAndFloor(s: Snapshot, left: bool, right: bool, dt: real)
    requires dt >= 0.0 && s.play
    ensures var r := PhysicsStep(s, left, right, dt);
      r.ball.x == s.ball.x + s.ball.vx * dt && r.ball.y == s.ball.y + s.ball.vy * dt &&
      r.ball.r == s.ball.r &&
      (!r.play <==> s.ball.y + s.ball.vy * dt + s.ball.r > H)
  {
    var p := MovePaddle(s.pdl, left, right, dt);
    var b := Integrate(s.ball, dt);
    var c := Collide(b, p);
    assert b.x == c.x && b.y == c.y && b.r == c.r;
    var sc := Scan(s.grid, c);
    assert sc.ball.x == c.x && sc.ball.y == c.y && sc.ball.r == c.r;
    assert PhysicsStep(s, left, right, dt) == Snapshot(p, sc.ball, sc.grid, !BelowFloor(b));
    assert b.y == s.ball.y + s.ball.vy * dt;
  }

  /** Every collision response only changes the signs of vx and vy, so a
      whole step keeps both speed components. */
  lemma StepKeepsSpeed(s: Snapshot, left: bool, right: bool, dt: real)
    requires dt >= 0.0
    ensures var r := PhysicsStep(s, left, right, dt);
      Abs(r.ball.vx) == Abs(s.ball.vx) && Abs(r.ball.vy) == Abs(s.ball.vy)
  {
  }

  /** Blocks in a step: rectangles never move, destroyed flags only go from
      present to destroyed, a block is destroyed iff it was present and
      strictly contains the ball's new centre, and at most one block is
      destroyed per step. */
  lemma StepBlocks(s: Snapshot, left: bool, right: bool, dt: real)
    requires dt >= 0.0 && Valid(s)
    ensures var r := PhysicsStep(s, left, right, dt);
      LaidOut(r.grid) &&
      (forall i, j :: 0 <= i < ROWS && 0 <= j < COLS ==>
         (s.grid[i][j].destroyed ==> r.grid[i][j].destroyed) &&
         (Newly(s.grid[i][j], r.grid[i][j]) ==> Hits(s.grid[i][j], r.ball.x, r.ball.y))) &&
      (forall i1, j1, i2, j2 ::
         0 <= i1 < ROWS && 0 <= j1 < COLS && 0 <= i2 < ROWS && 0 <= j2 < COLS &&
         Newly(s.grid[i1][j1], r.grid[i1][j1]) && Newly(s.grid[i2][j2], r.grid[i2][j2]) ==>
         i1 == i2 && j1 == j2)
    ensures var r := PhysicsStep(s, left, right, dt);
      s.play ==>
        forall i, j :: 0 <= i < ROWS && 0 <= j < COLS ==>
          Hits(s.grid[i][j], r.ball.x, r.ball.y) ==> r.grid[i][j].destroyed
  {
    if s.play {
      var p := MovePaddle(s.pdl, left, right, dt);
      var b := Collide(Integrate(s.ball, dt), p);
      ScanLaidOut(s.grid, b);
    }
  }

  /** vy in a step, while playing: the block scan negates the vy that the
      wall and paddle responses leave iff a block is destroyed. */
  lemma StepBlockBounce(s: Snapshot, left: bool, right: bool, dt: real)
    requires dt >= 0.0 && Valid(s) && s.play
    ensures var r := PhysicsStep(s, left, right, dt);
      var c := Collide(Integrate(s.ball, dt), MovePaddle(s.pdl, left, right, dt));
      ((exists i, j :: 0 <= i < ROWS && 0 <= j < COLS && Newly(s.grid[i][j], r.grid[i][j])) ==>
         r.ball.vy == -c.vy) &&
      ((forall i, j :: 0 <= i < ROWS && 0 <= j < COLS ==> !Newly(s.grid[i][j], r.grid[i][j])) ==>
         r.ball.vy == c.vy)
  {
    var c := Collide(Integrate(s.ball, dt), MovePaddle(s.pdl, left, right, dt));
    ScanLaidOut(s.grid, c);
  }

  /** The physics step keeps the state invariant. */
  lemma StepKeepsValid(s: Snapshot, left: bool, right: bool, dt: real)
    requires dt >= 0.0 && Valid(s)
    ensures Valid(PhysicsStep(s, left, right, dt))
  {
    StepBlocks(s, left, right, dt);
  }

  /** A whole frame keeps the state invariant. */
  lemma FrameKeepsValid(s: Snapshot, space: bool, left: bool, right: bool, dt: real)
    requires dt >= 0.0 && Valid(s)
    ensures Valid(FrameStep(s, space, left, right, dt))
  {
    InitialState();
    StepKeepsValid(if space then Restart(s) else s, left, right, dt);
  }

  /** From the start position, one second without input carries the ball,
      which meets no wall, paddle or block, to (400 + LAUNCH, 300 + LAUNCH)
      at the same velocity, still playing. */
  lemma FirstSecond()
    ensures PhysicsStep(Initial(), false, false, 1.0).ball ==
            Ball(400.0 + LAUNCH, 300.0 + LAUNCH, LAUNCH, LAUNCH, 10.0)
    ensures PhysicsStep(Initial(), false, false, 1.0).play
  {
    var b := Integrate(Initial().ball, 1.0);
    forall i | 0 <= i < ROWS ensures FirstHit(Initial().grid[i], b.x, b.y).None? {
      assert forall j :: 0 <= j < COLS ==> !Hits(Initial().grid[i][j], b.x, b.y);
    }
    HitRowsZero(Initial().grid, b.x, b.y, ROWS);
  }
}
