/** Build-time constants and the three entities of the breakout game:
    the paddle, the ball and a block (brickgame.c++ lines 6-42).
    The C structs are plain values held by the frame loop, so they are
    datatypes here; coordinates and velocities are reals. */
module Entities {

  // Playfield size, in pixels.
  const W: real := 800.0
  const H: real := 600.0

  // Block size, grid shape, and the spacing and margin of the grid layout.
  const BW: real := 60.0
  const BH: real := 30.0
  const ROWS: nat := 5
  const COLS: nat := 10
  const GAP: real := 5.0
  const MARGIN: real := 35.0

  // Paddle size, ball diameter, paddle speed and ball speed (pixels per second).
  const PW: real := 100.0
  const PH: real := 20.0
  const BALL_SIZE: real := 20.0
  const PS: real := 400.0
  const BS: real := 300.0

  /** Each launch velocity component, BS * cos 45° == BS * sin 45°,
      written as a fixed positive real (the value to 17 digits). */
  const LAUNCH: real := 212.13203435596426

  /** Paddle: (x, y) is its centre; w and h its size. */
  datatype Paddle = Paddle(x: real, y: real, w: real, h: real)

  /** Ball: (x, y) is its centre, (vx, vy) its velocity, r its radius. */
  datatype Ball = Ball(x: real, y: real, vx: real, vy: real, r: real)

  /** Block: (x, y) is its top-left corner; destroyed suppresses it. */
  datatype Block = Block(x: real, y: real, w: real, h: real, destroyed: bool)

  /** The C library's fabs. */
  function Abs(v: real): (r: real)
    ensures r >= 0.0
    ensures r == v || r == -v
  {
    if v < 0.0 then -v else v
  }

  function Min(a: real, b: real): real { if a <= b then a else b }
  function Max(a: real, b: real): real { if a >= b then a else b }

  /** initPdl: a paddle of the standard size centred at (x, y). */
  function InitPdl(x: real, y: real): Paddle
  {
    Paddle(x, y, PW, PH)
  }

  /** initBall: a ball of the standard size at (x, y), launched down and to
      the right at 45 degrees. */
  function InitBall(x: real, y: real): Ball
  {
    Ball(x, y, LAUNCH, LAUNCH, BALL_SIZE / 2.0)
  }

  /** The speed components of the launch velocity are equal and positive,
      and their squares add up to BS * BS to within 1e-9. */
  lemma LaunchVelocity(x: real, y: real)
    ensures InitBall(x, y).vx == InitBall(x, y).vy > 0.0
    ensures InitBall(x, y).r == 10.0
    ensures -0.000000001 < 2.0 * LAUNCH * LAUNCH - BS * BS < 0.000000001
  {
  }
}
