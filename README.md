# Breakout simulation core, in Dafny

This project models the per-frame simulation of a small SDL breakout game
(`brickgame.c++`). A paddle driven by the left and right arrow keys deflects a
ball that destroys a 5 × 10 grid of blocks. The game is lost when the ball's
bottom edge passes the floor, and the space key restarts a finished game.

The C program keeps its state as locals of `main`: a `Pdl`, a `Ball`, a
`Block blocks[ROWS][COLS]` array and an `int play`. Here that state is the
class `Game.BrickGame`:

- The paddle and the ball are value fields whose types are the datatypes
  `Paddle` and `Ball`. C structs are plain values, so each in-place field
  write is a datatype update.
- The blocks are an `array2<Block>` that is updated in place.
- The play flag is a `bool`.

Each method is proved against a value-level function of the same operation:

| module | what it holds |
|---|---|
| `Entities` | the build-time constants and the three structs |
| `Physics` | paddle control, Euler integration, and the wall, floor and paddle responses |
| `Blocks` | the closed-form grid layout, the first-hit column scan, and the row-major scan of the whole grid |
| `Simulation` | the game state as a value (`Snapshot`), the initial state, the restart, one physics step, one frame |
| `Game` | `InitBlocks` as a nested loop over the array, and the `BrickGame` class with its key handler, its step methods and the nested scan loop with its inner `break` |

Coordinates, velocities and `dt` are `real`s. `fabs` is `Entities.Abs`.
Elapsed time and key state are parameters: `dt >= 0`, and the booleans
`left`, `right` and `space`.

Points where the code's behaviour is easy to misread, and what the model does:

- The paddle is not clamped. Each edge is tested before its move
  (brickgame.c++:155, 159), so the paddle can overshoot an edge by
  `PS * dt`. `Physics.MovePaddle` bounds the overshoot by one move, and
  `Physics.MovePaddleKeepsSlack` gives an invariant that bounds it over
  many frames.
- After a paddle hit, `vy` becomes `-fabs(vy)`. This is `<= 0`, and
  strictly negative only when `vy` was not 0 (brickgame.c++:179).
- The `break` at brickgame.c++:195 leaves only the column loop, so every
  row may destroy its own first hit block. The grid is always laid out,
  so at most one block is destroyed per step anyway.
  `Blocks.ScanIsStopAtFirst` proves that on a laid-out grid the source's
  scan equals one that stops at the first hit in row-major order.
- Reaching the floor sets `play` to false but does not end the frame: the
  paddle check and the block scan still run (brickgame.c++:170-199).
- `pdl.x` and `pdl.y` are the paddle's centre, because that is how the
  collision and drawing code use them. The struct comment at line 19
  calls them the top-left corner.

## Model

| member | source | states |
|---|---|---|
| `Entities.Abs` | brickgame.c++:179 | fabs: the result is non-negative and is either v or -v |
| `Entities.InitPdl` | brickgame.c++:32-37 | no contract of its own: a paddle of size PW × PH centred at (x, y); its start values are proved by `Simulation.InitialState` |
| `Entities.InitBall` | brickgame.c++:39-42 | no contract of its own: a ball of radius BALL_SIZE / 2 at (x, y) with velocity (LAUNCH, LAUNCH); proved by `Entities.LaunchVelocity` and `Simulation.InitialState` |
| `Entities.LaunchVelocity` | brickgame.c++:39-42 | the launch velocity has equal positive components whose squares add to BS² (within 1e-9); the radius is BALL_SIZE / 2 = 10 |
| `Physics.MovePaddle` | brickgame.c++:155-160 | the paddle's y, w and h never change; with neither key held it does not move; the left edge ends no further left than min(old left edge, -PS·dt); the right edge ends no further right than max(old right edge, W + PS·dt); so any overshoot is at most one move |
| `Physics.MoveLeftOnly` | brickgame.c++:155 | with only left held and dt > 0: the paddle moves left iff its left edge was inside (x - w/2 > 0); if it moves, it moves by exactly PS·dt; otherwise it is unchanged |
| `Physics.MoveRightOnly` | brickgame.c++:159 | the mirror image, for x + w/2 < W |
| `Physics.MoveBoth` | brickgame.c++:155-159 | with both held, the right guard reads the already-moved x: away from the edges the moves cancel; past the right edge only the left move happens; at the left edge only the right move happens |
| `Physics.MovePaddleKeepsSlack` | brickgame.c++:155-159 | a paddle within `slack` of both edges stays within it, for any inputs, when PS·dt <= slack |
| `Physics.Integrate` | brickgame.c++:163-164 | integration keeps the velocity and the radius |
| `Physics.IntegrateAdditive` | brickgame.c++:163-164 | integrating for dt1 and then for dt2 equals integrating once for dt1 + dt2 |
| `Physics.TopWall` | brickgame.c++:166 | only vy may change, and its magnitude is kept; if the top edge is above 0, vy is negated; otherwise the ball is unchanged |
| `Physics.SideWalls` | brickgame.c++:168 | only vx may change, and its magnitude is kept; it is negated iff an edge is outside [0, W] |
| `Physics.PaddleBounce` | brickgame.c++:173-181 | only vy may change, and its magnitude is kept; a ball over the paddle ends with vy <= 0 whatever its prior sign (< 0 if vy was not 0); a ball not over the paddle is unchanged |
| `Physics.BelowFloor` | brickgame.c++:170 | no contract of its own: the floor test y + r > H; its effect on play is proved by `Simulation.StepBallAndFloor` |
| `Physics.OnPaddle` | brickgame.c++:173-177 | no contract of its own: the paddle test; its effect on vy is stated by `Physics.PaddleBounce` |
| `Physics.Collide` | brickgame.c++:166-181 | the wall and paddle responses, in the source's order, as `PhysicsStep` applies them: they keep the ball's centre, its radius, abs(vx) and abs(vy) |
| `Blocks.Layout` | brickgame.c++:48-51 | no contract of its own: the closed-form position of block (i, j); its properties are proved by `Blocks.LayoutInField`, `Blocks.LayoutDisjoint`, `Blocks.LayoutOneContains` and `Simulation.InitialState` |
| `Blocks.Hits` | brickgame.c++:186-190 | no contract of its own: the scan's test, a present block strictly containing the ball centre; its use is stated by `Blocks.FirstHitFrom`, `Blocks.ScanRow` and `Blocks.Scan` |
| `Blocks.LayoutInField` | brickgame.c++:48-51 | every laid-out block lies inside the 800 × 600 playfield |
| `Blocks.LayoutDisjoint` | brickgame.c++:48-51 | any two different laid-out blocks are separated along some axis, so as open rectangles they are disjoint |
| `Blocks.LayoutOneContains` | brickgame.c++:48-51 | a point lies strictly inside at most one laid-out block |
| `Blocks.FirstHitFrom` | brickgame.c++:184-197 | the column loop's first hit from column j: the block it returns is hit and no earlier one is; no result means no block from column j on is hit |
| `Blocks.ScanRow` | brickgame.c++:184-197 | a row after the column loop: rectangles are kept; a block is destroyed after the loop iff it already was, or it is hit and no block before it in the row is |
| `Blocks.FlipN` | brickgame.c++:192 | negating n times keeps the magnitude (0 times: the same; once: negated) |
| `Blocks.Scan` | brickgame.c++:183-199 | the full scan keeps the grid's shape and rectangles; a destroyed block stays destroyed; a block is newly destroyed only if it was present and strictly contains the ball centre; only vy changes, and its magnitude is kept |
| `Blocks.OneHitRow` | brickgame.c++:183-199 | on a laid-out grid, at most one row holds a block the ball hits |
| `Blocks.HitRowsAtMostOne` | brickgame.c++:183-199 | on a laid-out grid, at most one row's column loop finds a hit |
| `Blocks.ScanLaidOut` | brickgame.c++:183-199 | on a laid-out grid the scan keeps the layout; it destroys every block the ball centre hits, and at most one block; vy is negated if it destroys one; the ball is unchanged if it destroys none |
| `Blocks.ScanIsStopAtFirst` | brickgame.c++:183-199 | on a laid-out grid, the source's scan (whose break leaves only the column loop) equals destroying the first hit block in row-major order and stopping |
| `Simulation.InitialGrid` | brickgame.c++:44-55 | the initial grid is laid out and every block in it is present |
| `Simulation.Initial` | brickgame.c++:109-117 | no contract of its own: the start-of-game state; its values are proved by `Simulation.InitialState` |
| `Simulation.Restart` | brickgame.c++:137-144 | no contract of its own: the space key's effect; its properties are proved by `Simulation.RestartResets` |
| `Simulation.PhysicsStep` | brickgame.c++:149-199 | no contract of its own: one physics step in the source's order, gated by play; its properties are proved by the `Simulation.Step…` lemmas, and `Game.BrickGame.Step` is proved equal to it |
| `Simulation.FrameStep` | brickgame.c++:131-200 | no contract of its own: the key event, then physics; proved by `Simulation.FrameKeepsValid`, and `Game.BrickGame.Frame` is proved equal to it |
| `Simulation.InitialState` | brickgame.c++:109-117 | the start state: paddle (400, 570, 100, 20); ball at (400, 300) with r = 10 and vx = vy = LAUNCH > 0; block (i, j) = (65j + 35, 35i + 35, 60, 30, present); playing; state invariant holds |
| `Simulation.RestartResets` | brickgame.c++:137-144 | restart always leaves the game playing; from game over it yields the same initial state whatever the prior state; while playing it is a no-op; restarting twice equals restarting once |
| `Simulation.StepIdleWhenOver` | brickgame.c++:149 | while not playing, the physics step changes nothing |
| `Simulation.StepBallAndFloor` | brickgame.c++:163-170 | while playing, a step moves the ball centre by exactly (vx·dt, vy·dt); play ends iff the ball's new bottom edge is below H |
| `Simulation.StepKeepsSpeed` | brickgame.c++:163-199 | a whole step keeps abs(vx) and abs(vy) |
| `Simulation.StepBlocks` | brickgame.c++:183-199 | on a valid state a step keeps the layout; destroyed flags only go from present to destroyed; while playing, a block is newly destroyed iff it was present and strictly contains the ball's new centre; at most one block is destroyed per step |
| `Simulation.StepBlockBounce` | brickgame.c++:183-199 | while playing on a valid state, the scan negates the vy left by the wall and paddle responses iff it destroys a block, and keeps it otherwise |
| `Simulation.StepKeepsValid` | brickgame.c++:149-199 | the physics step keeps the state invariant (laid-out grid, paddle height and size, ball radius) |
| `Simulation.FrameKeepsValid` | brickgame.c++:131-200 | a whole frame (key event, then physics) keeps the state invariant |
| `Simulation.FirstSecond` | brickgame.c++:163-199 | from the start state, one second without input carries the ball, unbounced, to (400 + LAUNCH, 300 + LAUNCH), and the game is still playing |
| `Game.InitBlocks` | brickgame.c++:44-55 | after the nested loop, every array cell (i, j) holds the laid-out, present block |
| `Game.BrickGame.constructor` | brickgame.c++:103-121 | the new game's state is exactly the initial state, and the state invariant holds |
| `Game.BrickGame.OnSpace` | brickgame.c++:137-144 | the space key handler turns the state into the restarted state and keeps the invariant |
| `Game.BrickGame.MovePdl` | brickgame.c++:154-160 | the in-place paddle update yields the moved paddle |
| `Game.BrickGame.MoveBall` | brickgame.c++:163-181 | the in-place ball and play updates yield `Collide` of the integrated ball; play is cleared iff the integrated ball is below the floor |
| `Game.BrickGame.ScanRowAt` | brickgame.c++:184-197 | the column loop with its break leaves row i as the scanned row; other rows are unchanged; vy is negated iff the row had a hit |
| `Game.BrickGame.ScanBlocks` | brickgame.c++:183-199 | the nested loop leaves the array and the ball as the value-level scan gives them |
| `Game.BrickGame.Step` | brickgame.c++:149-199 | the in-place step yields the value-level physics step and keeps the invariant |
| `Game.BrickGame.Frame` | brickgame.c++:131-200 | one frame (space event, then physics) yields the value-level frame and keeps the invariant |

## Left out

- SDL initialisation, the window and the renderer, event polling, drawing and teardown (brickgame.c++:78-101, 124, 131-135, 202-233) are I/O against a library that is not part of this model. The frame's input is three booleans (`space`, `left`, `right`). Several space presses in one frame act as one, because a restart leaves the game playing (`Simulation.RestartResets`).
- `drawPdl`, `drawBall`, `drawBlock` and their `(int)` casts (brickgame.c++:57-75) are rendering only.
- `SDL_GetTicks` and the computation of `dt` (brickgame.c++:126, 143, 150-152) are wall-clock time. `dt >= 0` is a parameter of the step.
- Quit and escape (`run = 0`) only end the outer loop and do not touch the game state.
- Entities.InitBall: the launch velocity is the fixed real 212.13203435596426 (BS · cos 45°) for both components. It is not the result of single-precision `cosf`/`sinf`, and no IEEE float rounding is modelled anywhere.
- `play` and `destroyed` are C `int`s that only ever hold 0 or 1. They are `bool`s here.
- The C integer divisions `W / 2`, `H / 2` and `BALL_SIZE / 2` are exact for these constants, so they are written as real divisions.
