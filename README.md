# Galactic Bounce — a verified model of the game rules

Galactic Bounce is a one-button endless runner drawn on a 400 × 600 canvas.
The player is a 20 × 20 square in a fixed column at x = 200. Gravity pulls it
down and the Space key lifts it. Three pools of entities scroll in from the
right edge:

- platforms, which the player lands on for 1 point each time;
- orbs, each worth 50 points when picked up;
- obstacles, which end the game when hit.

Falling through the floor also ends the game. Space starts the game from the
start screen, restarts it after a game over, and makes the player jump while
the game runs.

This project models the game's state and every rule that changes it in
`scripts.js`:

- the player's physics step;
- the three pool updates (scroll, cull, spawn);
- the collision pass (platform landings, orb pickups, obstacle hits);
- the score and high-score updates;
- `endGame` and `resetGame`;
- the update half of `gameLoop`;
- the Space key handler.

The model has two layers:

- **`Game.Session`** (`session.dfy`) is a class with one field per game
  variable of the script. Its methods change those fields in place, in the
  script's own order. This includes the `forEach` walks, the `splice` inside
  the orb walk, and the `endGame` calls from inside a walk. Each method that
  mirrors a whole script function is proved to reach exactly the state that
  the matching function of module `Rules` computes from the state before.
  The pool helpers are tied to `Pools.Step` (the update methods) or to the
  pool with one fresh entity appended (the create methods), and `VisitOrb`,
  the body of the orb walk, states its effect directly.
- **`Rules`** (`rules.dfy`), **`Collision`**, **`Pools`** and **`Geometry`**
  state the same transitions as functions on values. Lemmas about those
  functions carry the properties of the game:
  - what a landing, a pickup or a hit does;
  - that the pools stay ordered and on the canvas;
  - what the frame that ends a game leaves behind;
  - the high-score rule;
  - an invariant kept by every frame and every Space press.

Each frame's random spawn heights are parameters: a draw `r` in [0, 1) gives
the height `r * 500 + 50`. Positions and speeds are exact reals.

Several of the script's exact behaviours are kept:

- **Orb distance.** The orb test measures from the player's top-left corner,
  not its centre.
- **Skipped orb.** Splicing an orb out during the `forEach` makes the walk
  skip the orb that slides into its slot (`SweepOrbs`, `SpliceWalkPicks`,
  `SuccessorOfPickupSurvives`).
- **Last landing wins.** Several landings in one pass each score, and the
  last one decides where the player stands (`LastMatchWins`,
  `TwoLandingsLastSnapWins`).
- **Game over mid-frame.** When the player falls through the floor, the rest
  of the frame still runs. The pools are emptied and then each spawns one
  entity at x = 400. The frame counter ends at 1 and the speed at 2.0005
  (`FloorBreachTick`).

The high score is kept up to date by `updateScore` after every award. At game
over `endGame` does not compare the score with the high score again; the model
follows the code here. This changes nothing, because the high score already
equals the maximum of itself and the score (`TickOutcome`).

## Model

| member | source | states |
|---|---|---|
| `Geometry.OverlapMeansSharedPoint` | scripts.js:160-163 | For boxes of positive size, the four strict comparisons of the overlap test hold iff the open interiors of the two boxes share a point. |
| `Pools.SpawnY` | scripts.js:76-79 | A spawn height drawn from any `Math.random()` value lies in [50, 550). |
| `Pools.Advance` | scripts.js:89-91 | The `forEach` that subtracts the pace from every x gives the pool scrolled by that pace: every entity moved by the same amount, heights and order kept. |
| `Pools.StepShape` | scripts.js:88-100 | One pool update: every survivor moves by the pace. Exactly the front entity is dropped, iff its moved trailing edge is below 0. Exactly one entity is appended at (400, spawn height), iff the frame counter is a multiple of the period. |
| `Pools.ScrolledKeepsWellFormed` | scripts.js:89-91 | Scrolling by a non-negative pace keeps the pool sorted by x and inside the field. |
| `Pools.CullKeepsWellFormed` | scripts.js:93-95 | Dropping the front entity keeps the pool sorted and inside the field. |
| `Pools.SpawnKeepsWellFormed` | scripts.js:97-99 | Appending a spawn at x = 400 keeps the pool sorted and inside the field. |
| `Pools.StepKeepsWellFormed` | scripts.js:88-100 | A whole update of any pool keeps it sorted and inside the field. |
| `Pools.FrontCullSuffices` | scripts.js:93-95 | In a sorted pool whose front trailing edge is on the canvas, no entity is off the left edge, so testing only the front is enough. |
| `Pools.SpawnHeightRange` | scripts.js:76-79 | A freshly created entity is inside the field: the height formula `r * 500 + 50` shared by `createPlatform`, `createOrb` (scripts.js:102-105) and `createObstacle` (scripts.js:130-133) gives 50 <= y < 550. |
| `Collision.LandExtend` | scripts.js:159-174 | Platform k's turn in the landing pass is tested against the player as platforms 0..k-1 left it. |
| `Collision.LandWhileRising` | scripts.js:164 | A rising player (dy < 0) lands on nothing and is left as it was. |
| `Collision.LandOutcome` | scripts.js:159-174 | The pass scores at most one hit per platform. It scores iff some platform matched at its turn. With no hit the player is untouched; after any hit dy = 0. |
| `Collision.LastMatchWins` | scripts.js:165-166 | If platform j is the last platform to match, the player ends with its bottom on platform j's top, stopped. |
| `Collision.TwoLandingsLastSnapWins` | scripts.js:159-174 | In a pass over exactly two platforms p, q that both match at their turns, the pass scores two points and the player ends on q's top, stopped. |
| `Collision.LandPosition` | scripts.js:159-174 | The landing pass leaves the player's y unchanged or on the top of some platform of the pool. |
| `Collision.NoLandingFromRight` | scripts.js:159-163 | Platforms entirely right of the player's column are never landed on. |
| `Collision.SquaredDistanceDecides` | scripts.js:187-190 | Comparing squared distances decides the same as the script's `Math.sqrt` comparison. |
| `Collision.SweepOrbs` | scripts.js:186-196 | The orbs kept plus the pickups paid for add up to the pool's size; which orbs are kept is stated by `Collision.SweepRemovesOnlyPaid`. |
| `Collision.SweepResumesStep` | scripts.js:186-196 | One step of the pickup pass: an orb out of reach is kept. A touched orb is removed, and its successor is kept without a test. |
| `Collision.SpliceWalkStarts` | scripts.js:186 | The index walk over the live array starts in agreement with the pickup pass. |
| `Collision.SpliceWalkPasses` | scripts.js:186-190 | A visit that finds the orb out of reach moves the index past it, still in agreement with the pickup pass. |
| `Collision.SpliceWalkPicks` | scripts.js:190-194 | A visit that picks up orb j splices it out and moves the index past its successor, still in agreement with the pickup pass. |
| `Collision.SpliceWalkEnds` | scripts.js:186-196 | When the index reaches the end of the live array, the array holds exactly the orbs the pickup pass keeps. |
| `Collision.SweepRemovesOnlyPaid` | scripts.js:186-196 | For every pool, ordered or not, the orbs kept are a sub-multiset of the pool, and the orbs removed are exactly as many as the pickups paid for. |
| `Collision.SweepKeepsOrder` | scripts.js:186-196 | In a pool ordered by x, the orbs the pass keeps stay in that order. |
| `Collision.SweepSparesUntouched` | scripts.js:186-196 | An orb out of reach always survives the pass. |
| `Collision.SweepPaysIffTouched` | scripts.js:186-196 | The pass pays out iff some orb of the pool is within reach. |
| `Collision.SuccessorOfPickupSurvives` | scripts.js:186-196 | Of two orbs both in reach, one behind the other, only the first pays; the second is skipped and survives. |
| `Collision.FarOrbUntouched` | scripts.js:187-190 | An orb at x >= 220 is out of reach whatever its height. |
| `Collision.NoPickupFromRight` | scripts.js:186-196 | A pool entirely right of the player's column pays nothing and stays as it is. |
| `Collision.NoHitFromRight` | scripts.js:198-206 | Obstacles entirely right of the player's column are never hit. |
| `Rules.UpdateScore` | scripts.js:209-215 | The high score becomes max(high score, score); nothing else changes. |
| `Rules.Credit` | scripts.js:168-169 | Awards of `gain` points, each followed by `updateScore`: the score grows by `gain`, and the high score becomes max(high score, new score), or stays as it is when nothing was awarded. |
| `Rules.CreditAgain` | scripts.js:156-207 | One more award after earlier awards equals crediting the total at once. |
| `Rules.EndGameFacts` | scripts.js:237-249 | `endGame` keeps the score, the high score, the player and the game-over flag. Running it again changes nothing, and it commutes with setting the game-over flag. |
| `Rules.LandStaysOnCanvas` | scripts.js:159-174 | Landing on platforms of the field keeps a player that is on the canvas on the canvas. |
| `Rules.PlayerPhysics` | scripts.js:222-235 | dy gains gravity, then y gains dy. A breach of the floor ends the game. A position above the canvas is clamped to 0 with the player stopped. Nothing else changes. |
| `Rules.Slide` | scripts.js:176-184 | The two-branch edge logic of the sliding flag always leaves it equal to "landed on some platform this frame". |
| `Rules.CollisionOutcome` | scripts.js:156-207 | The whole collision pass: see "Collision pass outcome" below. |
| `Rules.RestartKeepsInv` | scripts.js:251-261 | `resetGame`'s assignments, from any invariant state, give a running invariant state with score 0. |
| `Rules.InitialInv` | scripts.js:13-26 | The state the page loads in satisfies the session invariant. |
| `Rules.FloorBreachTick` | scripts.js:274-281 | The frame that falls through the floor leaves a stopped game with `over` set and `isSliding` false. Each pool holds one fresh entity at x = 400. The frame counter is 1 and the speed 2.0005. The score and high score are kept. |
| `Rules.FloorBreachOutcome` | scripts.js:274-281 | A floor-breach frame has the frame outcome, with the game-over marks, and leaves the score exactly as it was. |
| `Rules.InBoundsOutcome` | scripts.js:274-281 | A frame that stays above the floor has the frame outcome: pools well formed, and either an obstacle ended the game or the counter and speed advanced. |
| `Rules.TickOutcome` | scripts.js:263-285 | Any frame of a running game: see "Frame outcome" below. |
| `Rules.GameLoopKeepsInv` | scripts.js:263-285 | Every call of `gameLoop` keeps the session invariant: see "Session invariant" below. |
| `Rules.RestartStepStaysRight` | scripts.js:88-100 | A pool left by the game-over frame, one frame on at the start speed, is still entirely right of the player. |
| `Rules.SpaceStartsRun` | scripts.js:288-306 | Space pressed from the start screen or after a game over always leaves a running game: the frame it runs at once cannot end the game. |
| `Rules.SpaceKeepsInv` | scripts.js:288-306 | Every Space press keeps the session invariant. |
| `Rules.HighscoreRule` | scripts.js:209-215 | Across a frame or a Space press the high score never decreases. When it changes, it becomes the score, which has strictly passed the old high score. |
| `Game.Session.constructor` | scripts.js:13-26 | The variables start as the page declares them (idle, score 0, speed 2, empty pools) and satisfy the invariant. |
| `Game.Session.UpdateScore` | scripts.js:209-215 | In place: exactly the `Rules.UpdateScore` transition, touching only the high score. |
| `Game.Session.EndGame` | scripts.js:237-249 | In place: exactly the `Rules.EndGame` transition. |
| `Game.Session.UpdatePlayer` | scripts.js:222-235 | In place: exactly the `Rules.UpdatePlayer` transition, including `endGame` on a floor breach. |
| `Game.Session.CreatePlatform` | scripts.js:76-79 | Appends one platform at (400, 500r + 50) and changes nothing else. |
| `Game.Session.UpdatePlatforms` | scripts.js:88-100 | The platform pool becomes `Step(Platforms, …)` and nothing else changes. |
| `Game.Session.CreateOrb` | scripts.js:102-105 | Appends one orb at (400, 500r + 50) and changes nothing else. |
| `Game.Session.UpdateOrbs` | scripts.js:116-128 | The orb pool becomes `Step(Orbs, …)` and nothing else changes. |
| `Game.Session.CreateObstacle` | scripts.js:130-133 | Appends one obstacle at (400, 500r + 50) and changes nothing else. |
| `Game.Session.UpdateObstacles` | scripts.js:142-154 | The obstacle pool becomes `Step(Obstacles, …)`, at pace gameSpeed + 1, and nothing else changes. |
| `Game.Session.LandOnPlatforms` | scripts.js:159-174 | The platform `forEach` moves the player to where `Land` leaves it and awards one point per landing. It reports whether any landing happened. |
| `Game.Session.VisitOrb` | scripts.js:186-195 | The orb callback: a touched orb is spliced out at its index, and 50 points are awarded with the high score following. Otherwise nothing changes. |
| `Game.Session.CollectOrbs` | scripts.js:186-196 | The orb `forEach` over the array it splices from reaches exactly `Rules.OrbPass`: the orbs `SweepOrbs` keeps, and 50 points per pickup. |
| `Game.Session.HitObstacles` | scripts.js:198-206 | The obstacle `forEach` keeps walking the array it started with after `endGame` empties the pool. It reaches exactly `Rules.ObstaclePass`. |
| `Game.Session.CheckCollision` | scripts.js:156-207 | In place: exactly `Rules.CheckCollision`, the three passes in order with the sliding flag between the first two. |
| `Game.Session.UpdatePools` | scripts.js:276-278 | The three pool updates in order give exactly `Rules.UpdatePools`. |
| `Game.Session.Update` | scripts.js:274-281 | The update half of `gameLoop` gives exactly `Rules.Update`. |
| `Game.Session.GameLoop` | scripts.js:263-285 | Does nothing unless started; otherwise runs the update half. It gives exactly `Rules.GameLoop` and keeps the session invariant. |
| `Game.Session.ResetGame` | scripts.js:251-261 | Resets the player, the score and the speed, sets the phase to running, then runs a frame. It gives exactly `Rules.ResetGame` and keeps the invariant. |
| `Game.Session.Space` | scripts.js:288-306 | Start, restart or jump by phase. It gives exactly `Rules.Space` and keeps the invariant. |

### Collision pass outcome

`Rules.CollisionOutcome` states the following about the whole collision pass:

- the score grows by one per landing plus 50 per orb picked up;
- the high score is max(high score, score);
- the player ends where the landings put it;
- the pools stay well formed;
- the game is over iff it already was or an obstacle was hit;
- the exact resulting state is given for both the hit and the no-hit case.

### Frame outcome

`Rules.TickOutcome` states the following about any frame of a running game:

- the score never drops;
- the high score is max(high score, score);
- the pools stay well formed;
- a frame that ends the game leaves it stopped, with frame counter 1, speed 2.0005 and each pool holding at most one entity at x = 400;
- otherwise the game runs on with the counter and the speed advanced, and the player's y stays between 0 and 580, so the square is on the canvas.

### Session invariant

`Rules.GameLoopKeepsInv` shows that every call of `gameLoop` keeps this invariant:

- the session is idle (then exactly the initial state), running or over;
- 0 <= score <= high score;
- speed >= 2;
- while the game runs, 0 <= y <= 580 (the player's square is on the canvas);
- the pools are sorted and inside the field;
- the game-over marks above hold while the game is over.

## Left out

- Drawing, the particle effects (`Particle`, `handleParticles` and the particles pushed on each landing), the page's text and overlay updates, and all audio: they do not affect the game state.
- Scheduling with `requestAnimationFrame`: one call of `Game.Session.GameLoop` is one animation frame. The `if (!gameOver)` re-scheduling at the end of `gameLoop` is not modelled.
- Keys other than Space: the handler ignores them.
- `Math.random()`: each draw is a parameter `r` with 0 <= r < 1.
- IEEE double rounding: positions, speeds and the 0.0005 speed ramp are exact reals. The model does not capture accumulated rounding error in `gameSpeed` or x.
- Per-entity `width`, `height` and `radius` fields: the script always creates them with the same constants (80 × 10, radius 10, 30 × 30), so an entity is stored as its position only.
- Arrays as shared objects: pools are `seq` fields that the methods reassign. The live-array behaviour of `forEach` with `splice` and `endGame`'s reassignment are modelled explicitly. Other aliasing of the arrays does not occur in the script.
- The start and end screen elements and `drawScore`: display only.
