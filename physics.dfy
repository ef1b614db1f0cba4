/** Paddle control, ball integration and the collision responses of one
    frame against the walls, the floor and the paddle (brickgame.c++
    lines 155-181). Each is a function of the entity values it reads. */
module Physics {
  import opened Entities

  /** Paddle control (lines 155, 159). Each direction's edge guard is tested
      before that direction's move, the right one on the paddle as already
      moved left, so the paddle is not clamped: it may overshoot an edge by
      one move of PS * dt. The paddle never moves vertically or resizes, and
      with neither key held it does not move. */
  function MovePaddle(p: Paddle, left: bool, right: bool, dt: real): (r: Paddle)
    requires dt >= 0.0
    ensures r.y == p.y && r.w == p.w && r.h == p.h
    ensures !left && !right ==> r == p
    ensures r.x - r.w / 2.0 >= Min(p.x - p.w / 2.0, -PS * dt)
    ensures r.x + r.w / 2.0 <= Max(p.x + p.w / 2.0, W + PS * dt)
  {
    var q := if left && p.x - p.w / 2.0 > 0.0 then p.(x := p.x - PS * dt) else p;
    if right && q.x + q.w / 2.0 < W then q.(x := q.x + PS * dt) else q
  }

  /** With only left held, the paddle moves left, by exactly PS * dt, iff its
      left edge was inside the playfield; otherwise it stays put. */
  lemma MoveLeftOnly(p: Paddle, dt: real)
    requires dt > 0.0
    ensures var r := MovePaddle(p, true, false, dt);
      (r.x < p.x <==> p.x - p.w / 2.0 > 0.0) &&
      (r.x < p.x ==> r.x == p.x - PS * dt) &&
      (r.x >= p.x ==> r == p)
  {
  }

  /** With only right held, the paddle moves right, by exactly PS * dt, iff
      its right edge was inside the playfield; otherwise it stays put. */
  lemma MoveRightOnly(p: Paddle, dt: real)
    requires dt > 0.0
    ensures var r := MovePaddle(p, false, true, dt);
      (r.x > p.x <==> p.x + p.w / 2.0 < W) &&
      (r.x > p.x ==> r.x == p.x + PS * dt) &&
      (r.x <= p.x ==> r == p)
  {
  }

  /** With both held, the right guard reads the position after the left
      move: away from both edges the two moves cancel, and at the left edge
      only the right move happens. */
  lemma MoveBoth(p: Paddle, dt: real)
    requires dt >= 0.0
    ensures p.x - p.w / 2.0 > 0.0 && p.x - PS * dt + p.w / 2.0 < W ==>
              MovePaddle(p, true, true, dt) == p
    ensures p.x - p.w / 2.0 > 0.0 && p.x - PS * dt + p.w / 2.0 >= W ==>
              MovePaddle(p, true, true, dt) == p.(x := p.x - PS * dt)
    ensures p.x - p.w / 2.0 <= 0.0 && p.x + p.w / 2.0 < W ==>
              MovePaddle(p, true, true, dt) == p.(x := p.x + PS * dt)
  {
  }

  /** Overshoot stays bounded: a paddle that lies within `slack` of both
      edges still does so after a move, as long as one move is no larger
      than the slack. */
  lemma MovePaddleKeepsSlack(p: Paddle, left: bool, right: bool, dt: real, slack: real)
    requires dt >= 0.0 && PS * dt <= slack
    requires p.x - p.w / 2.0 >= -slack && p.x + p.w / 2.0 <= W + slack
    ensures var r := MovePaddle(p, left, right, dt);
      r.x - r.w / 2.0 >= -slack && r.x + r.w / 2.0 <= W + slack
  {
  }

  /** Euler integration of the ball (lines 163-164): velocity and size are
      kept; the position moves along the velocity. */
  function Integrate(b: Ball, dt: real): (r: Ball)
    ensures r.vx == b.vx && r.vy == b.vy && r.r == b.r
  {
    b.(x := b.x + b.vx * dt, y := b.y + b.vy * dt)
  }

  /** Integration is additive in time: two steps of dt1 and dt2 land where
      one step of dt1 + dt2 does. */
  lemma IntegrateAdditive(b: Ball, dt1: real, dt2: real)
    ensures Integrate(Integrate(b, dt1), dt2) == Integrate(b, dt1 + dt2)
  {
    var b1 := Integrate(b, dt1);
    assert b1.x + b1.vx * dt2 == b.x + b.vx * (dt1 + dt2);
    assert b1.y + b1.vy * dt2 == b.y + b.vy * (dt1 + dt2);
  }

  /** Top wall (line 166): a ball whose top edge is above y = 0 has its
      vertical velocity reversed; nothing else changes. */
  function TopWall(b: Ball): (r: Ball)
    ensures r.(vy := b.vy) == b
    ensures Abs(r.vy) == Abs(b.vy)
    ensures b.y - b.r < 0.0 ==> r.vy == -b.vy
    ensures b.y - b.r >= 0.0 ==> r == b
  {
    if b.y - b.r < 0.0 then b.(vy := -b.vy) else b
  }

  /** Side walls (line 168): a ball whose left edge is left of x = 0 or whose
      right edge is right of x = W has its horizontal velocity reversed;
      nothing else changes. */
  function SideWalls(b: Ball): (r: Ball)
    ensures r.(vx := b.vx) == b
    ensures Abs(r.vx) == Abs(b.vx)
    ensures b.x - b.r < 0.0 || b.x + b.r > W ==> r.vx == -b.vx
    ensures 0.0 <= b.x - b.r && b.x + b.r <= W ==> r == b
  {
    if b.x - b.r < 0.0 || b.x + b.r > W then b.(vx := -b.vx) else b
  }

  /** Floor (line 170): the ball's bottom edge is below the playfield. */
  predicate BelowFloor(b: Ball)
  {
    b.y + b.r > H
  }

  /** The paddle test of lines 173-177: the ball's bottom edge is below the
      paddle's top edge and its centre is strictly between the paddle's
      left and right edges. */
  predicate OnPaddle(b: Ball, p: Paddle)
  {
    b.y + b.r > p.y - p.h / 2.0 && b.x > p.x - p.w / 2.0 && b.x < p.x + p.w / 2.0
  }

  /** Paddle response (line 179): a ball on the paddle leaves moving up (or
      level, if it had no vertical speed), whatever its prior direction,
      at the same vertical speed; a ball off the paddle is untouched. */
  function PaddleBounce(b: Ball, p: Paddle): (r: Ball)
    ensures r.(vy := b.vy) == b
    ensures Abs(r.vy) == Abs(b.vy)
    ensures OnPaddle(b, p) ==> r.vy <= 0.0
    ensures OnPaddle(b, p) && b.vy != 0.0 ==> r.vy < 0.0
    ensures !OnPaddle(b, p) ==> r == b
  {
    if OnPaddle(b, p) then b.(vy := -Abs(b.vy)) else b
  }

  /** The wall and paddle responses of one frame, in the source's order.
      None of them moves the ball, and each keeps both speed components. */
  function Collide(b: Ball, p: Paddle): (r: Ball)
    ensures r.x == b.x && r.y == b.y && r.r == b.r
    ensures Abs(r.vx) == Abs(b.vx) && Abs(r.vy) == Abs(b.vy)
  {
    PaddleBounce(SideWalls(TopWall(b)), p)
  }
}
