/**
 * The game session as a value, and each of its per-frame and per-key
 * transitions as a function of the state before it. The class Game.Session
 * carries out exactly these transitions in place; the lemmas here state what
 * they promise: the physics step, the scoring rules, the game-over tick, the
 * high-score rule and the invariant that every reachable state keeps.
 */
module Rules {
  import opened Geometry
  import opened Pools
  import opened Collision

  const StartSpeed: real := 2.0
  const SpeedRamp: real := 0.0005

  /** Everything one frame reads or writes, apart from cosmetic particles. */
  datatype State = State(
    y: real, dy: real,
    score: int, highscore: int,
    frameCount: nat, gameSpeed: real,
    started: bool, over: bool, isSliding: bool,
    platforms: seq<Body>, orbs: seq<Body>, obstacles: seq<Body>)

  /** The session as the page loads it: idle, waiting for the first Space. */
  const Initial: State := State(StartY, 0.0, 0, 0, 0, StartSpeed, false, false, false, [], [], [])

  function Max(a: int, b: int): int
  {
    if a < b then b else a
  }

  /** updateScore: the high score catches up with the score when the score is strictly ahead. */
  function UpdateScore(s: State): (r: State)
    ensures r.highscore == Max(s.highscore, s.score)
    ensures r == s.(highscore := r.highscore)
  {
    if s.score > s.highscore then s.(highscore := s.score) else s
  }

  /**
   * The score after `gain` points were added one award at a time, each award
   * followed by updateScore; no award means no updateScore call.
   */
  function Credit(s: State, gain: nat): (r: State)
    ensures r.score == s.score + gain
    ensures r.highscore == if gain == 0 then s.highscore else Max(s.highscore, r.score)
    ensures r == s.(score := r.score, highscore := r.highscore)
  {
    if gain == 0 then s else UpdateScore(s.(score := s.score + gain))
  }

  /** One more award of m points after n points of awards is the same as n + m points of awards. */
  lemma CreditAgain(s: State, n: nat, m: nat)
    requires m > 0
    ensures UpdateScore(Credit(s, n).(score := Credit(s, n).score + m)) == Credit(s, n + m)
  {
  }

  /** endGame (the caller has already set `over`). */
  function EndGame(s: State): State
  {
    s.(started := false, platforms := [], orbs := [], obstacles := [],
       frameCount := 0, gameSpeed := StartSpeed, isSliding := false)
  }

  /**
   * endGame keeps the score, the high score and the player, and running it a
   * second time changes nothing more.
   */
  lemma EndGameFacts(s: State)
    ensures var e := EndGame(s);
            && e.score == s.score && e.highscore == s.highscore
            && e.y == s.y && e.dy == s.dy && e.over == s.over
            && EndGame(e) == e
            && EndGame(s.(over := true)) == e.(over := true)
  {
  }

  /** updatePlayer: gravity, then the floor check (ends the game), then the ceiling clamp. */
  function UpdatePlayer(s: State): State
  {
    var dy := s.dy + Gravity;
    var y := s.y + dy;
    var moved := s.(y := y, dy := dy);
    var checked := if y + PlayerSize > CanvasHeight then EndGame(moved.(over := true)) else moved;
    if y < 0.0 then checked.(y := 0.0, dy := 0.0) else checked
  }

  /**
   * The physics step: velocity gains gravity and position gains the new
   * velocity; a position above the canvas is clamped to 0 with the player
   * stopped; falling through the floor ends the game; nothing else changes.
   */
  lemma PlayerPhysics(s: State)
    ensures var t := UpdatePlayer(s);
            var dy := s.dy + Gravity;
            var y := s.y + dy;
            && (y < 0.0 ==> t.y == 0.0 && t.dy == 0.0)
            && (y >= 0.0 ==> t.y == y && t.dy == dy)
            && (y + PlayerSize > CanvasHeight ==> t == EndGame(s.(over := true, y := y, dy := dy)))
            && (y + PlayerSize <= CanvasHeight ==> t == s.(y := t.y, dy := t.dy))
  {
  }

  /** updatePlatforms, updateOrbs and updateObstacles, which touch disjoint pools. */
  function UpdatePools(s: State, rp: real, ro: real, rb: real): State
    requires Draw(rp) && Draw(ro) && Draw(rb)
  {
    s.(platforms := Step(Platforms, s.platforms, s.gameSpeed, s.frameCount, rp),
       orbs := Step(Orbs, s.orbs, s.gameSpeed, s.frameCount, ro),
       obstacles := Step(Obstacles, s.obstacles, s.gameSpeed, s.frameCount, rb))
  }

  /** The sliding flag follows the edge logic of checkCollision; its net effect is to copy onPlatform. */
  function Slide(isSliding: bool, onPlatform: bool): (r: bool)
    ensures r == onPlatform
  {
    if onPlatform && !isSliding then true
    else if !onPlatform && isSliding then false
    else isSliding
  }

  /** The platform pass of checkCollision: every landing in array order, then the sliding flag. */
  function PlatformPass(s: State): State
  {
    var l := Land(s.platforms, s.y, s.dy);
    var landed := Credit(s.(y := l.y, dy := l.dy), l.hits);
    landed.(isSliding := Slide(landed.isSliding, l.hits > 0))
  }

  /** The orb pass of checkCollision: 50 points for every orb the forEach picks up. */
  function OrbPass(s: State): State
  {
    var w := SweepOrbs(s.orbs, s.y);
    Credit(s.(orbs := w.kept), 50 * w.picked)
  }

  /** The obstacle pass of checkCollision: any hit ends the game. */
  function ObstaclePass(s: State): State
  {
    if AnyObstacleHit(s.obstacles, s.y) then EndGame(s.(over := true)) else s
  }

  /** checkCollision: platforms, then the sliding flag, then orbs, then obstacles. */
  function CheckCollision(s: State): State
  {
    ObstaclePass(OrbPass(PlatformPass(s)))
  }

  predicate PoolsWellFormed(s: State)
  {
    WellFormed(s.platforms) && WellFormed(s.orbs) && WellFormed(s.obstacles)
  }

  /**
   * What the collision pass does: one point per landing and fifty per orb
   * picked, with the high score following; the player ends where the landings
   * put it; the sliding flag says whether anything was landed on; and any
   * obstacle overlap ends the game, whatever else happened in the pass.
   */
  lemma CollisionOutcome(s: State)
    requires PoolsWellFormed(s) && 0 <= s.score <= s.highscore
    ensures var t := CheckCollision(s);
            var l := Land(s.platforms, s.y, s.dy);
            var w := SweepOrbs(s.orbs, l.y);
            var hit := AnyObstacleHit(s.obstacles, l.y);
            && t.score == s.score + l.hits + 50 * w.picked
            && t.highscore == Max(s.highscore, t.score)
            && t.y == l.y && t.dy == l.dy
            && PoolsWellFormed(t)
            && (t.over <==> s.over || hit)
            && (!hit ==> t == s.(y := l.y, dy := l.dy, score := t.score, highscore := t.highscore,
                                 isSliding := l.hits > 0, orbs := w.kept))
            && (hit ==> t == EndGame(s.(y := l.y, dy := l.dy, score := t.score,
                                        highscore := t.highscore, over := true)))
  {
    var l := Land(s.platforms, s.y, s.dy);
    SweepKeepsOrder(s.orbs, l.y);
    SweepKeepsSubMultiset(s.orbs, l.y);
    forall o | o in SweepOrbs(s.orbs, l.y).kept ensures o in s.orbs {
      assert o in multiset(SweepOrbs(s.orbs, l.y).kept);
    }
  }

  /**
   * The update half of one frame of gameLoop: the player, the three pools,
   * the collision pass, then the frame counter and the speed ramp. It runs
   * to the end even when the player or an obstacle has just ended the game.
   */
  function Update(s: State, rp: real, ro: real, rb: real): State
    requires Draw(rp) && Draw(ro) && Draw(rb)
  {
    Ramp(CheckCollision(UpdatePools(UpdatePlayer(s), rp, ro, rb)))
  }

  /** The last two statements of a frame: count it and speed the game up a little. */
  function Ramp(s: State): State
  {
    s.(frameCount := s.frameCount + 1, gameSpeed := s.gameSpeed + SpeedRamp)
  }

  /** gameLoop without its drawing: nothing unless started, else the fixed update order. */
  function GameLoop(s: State, rp: real, ro: real, rb: real): State
    requires Draw(rp) && Draw(ro) && Draw(rb)
  {
    if !s.started then s else Update(s, rp, ro, rb)
  }

  /** resetGame: a fresh player and score, the speed reset, and the loop started again at once. */
  function ResetGame(s: State, rp: real, ro: real, rb: real): State
    requires Draw(rp) && Draw(ro) && Draw(rb)
  {
    GameLoop(Restart(s), rp, ro, rb)
  }

  /** The assignments resetGame makes before it calls gameLoop; the pools and the high score are kept. */
  function Restart(s: State): State
  {
    s.(y := StartY, dy := 0.0, score := 0, gameSpeed := StartSpeed, over := false, started := true)
  }

  /** The Space key: start from idle, reset after game over, jump while running. */
  function Space(s: State, rp: real, ro: real, rb: real): State
    requires Draw(rp) && Draw(ro) && Draw(rb)
  {
    if !s.started && !s.over then GameLoop(s.(started := true), rp, ro, rb)
    else if s.over then ResetGame(s, rp, ro, rb)
    else s.(dy := Lift)
  }

  /** A pool as the game-over frame leaves it: empty or a single entity just spawned at x = 400. */
  predicate AtSpawn(pool: seq<Body>)
  {
    |pool| <= 1 && forall b :: b in pool ==> b.x == CanvasWidth
  }

  /**
   * The invariant of every state reachable from Initial by frames and Space
   * presses. The phase is one of idle (only ever the initial state), running,
   * or over (in which case the game-over frame has left its marks). While
   * the game runs the player's square lies between the top of the canvas and
   * the floor.
   */
  predicate Inv(s: State)
  {
    && !(s.started && s.over)
    && 0 <= s.score <= s.highscore
    && s.gameSpeed >= StartSpeed
    && PoolsWellFormed(s)
    && (s.started ==> 0.0 <= s.y <= CanvasHeight - PlayerSize)
    && (!s.started && !s.over ==> s == Initial)
    && (s.over ==> && s.frameCount == 1 && s.gameSpeed == StartSpeed + SpeedRamp
                   && AtSpawn(s.platforms) && AtSpawn(s.orbs) && AtSpawn(s.obstacles))
  }

  lemma InitialInv()
    ensures Inv(Initial)
  {
  }

  /**
   * The frame that falls through the floor: endGame empties the pools and
   * resets the counters, and the rest of the frame still runs, so each pool
   * spawns one entity at x = 400 and the counters end at 1 and 2.0005.
   */
  lemma FloorBreachTick(s: State, rp: real, ro: real, rb: real)
    requires s.started && Draw(rp) && Draw(ro) && Draw(rb)
    requires s.y + s.dy + Gravity + PlayerSize > CanvasHeight
    ensures GameLoop(s, rp, ro, rb)
         == s.(y := s.y + s.dy + Gravity, dy := s.dy + Gravity,
               started := false, over := true, isSliding := false,
               frameCount := 1, gameSpeed := StartSpeed + SpeedRamp,
               platforms := [Body(CanvasWidth, SpawnY(rp))],
               orbs := [Body(CanvasWidth, SpawnY(ro))],
               obstacles := [Body(CanvasWidth, SpawnY(rb))])
  {
    var a := UpdatePlayer(s);
    var b := UpdatePools(a, rp, ro, rb);
    assert b.platforms == [Body(CanvasWidth, SpawnY(rp))];
    assert b.orbs == [Body(CanvasWidth, SpawnY(ro))];
    assert b.obstacles == [Body(CanvasWidth, SpawnY(rb))];
    NoLandingFromRight(b.platforms, b.y, b.dy);
    NoPickupFromRight(b.orbs, b.y);
    NoHitFromRight(b.obstacles, b.y);
  }

  /**
   * What one frame of a running game does to the state s it starts from, ending
   * in t: the score only grows and the high score follows it; either the frame
   * ended the game, leaving the game-over marks, or the game runs on with the
   * frame counted, the speed ramped up and the player still on the canvas.
   */
  predicate FrameOutcome(s: State, t: State)
  {
    && s.score <= t.score
    && t.highscore == Max(s.highscore, t.score)
    && PoolsWellFormed(t)
    && (t.over ==> && !t.started && t.frameCount == 1 && t.gameSpeed == StartSpeed + SpeedRamp
                   && AtSpawn(t.platforms) && AtSpawn(t.orbs) && AtSpawn(t.obstacles))
    && (!t.over ==> && t.started && t.frameCount == s.frameCount + 1
                    && t.gameSpeed == s.gameSpeed + SpeedRamp
                    && 0.0 <= t.y <= CanvasHeight - PlayerSize)
  }

  lemma FloorBreachOutcome(s: State, rp: real, ro: real, rb: real)
    requires Inv(s) && s.started && Draw(rp) && Draw(ro) && Draw(rb)
    requires s.y + s.dy + Gravity + PlayerSize > CanvasHeight
    ensures FrameOutcome(s, GameLoop(s, rp, ro, rb))
    ensures GameLoop(s, rp, ro, rb).score == s.score
  {
    FloorBreachTick(s, rp, ro, rb);
    SpawnHeightRange(rp);
    SpawnHeightRange(ro);
    SpawnHeightRange(rb);
  }

  lemma InBoundsOutcome(s: State, rp: real, ro: real, rb: real)
    requires Inv(s) && s.started && Draw(rp) && Draw(ro) && Draw(rb)
    requires s.y + s.dy + Gravity + PlayerSize <= CanvasHeight
    ensures FrameOutcome(s, GameLoop(s, rp, ro, rb))
  {
    var a := UpdatePlayer(s);
    assert a == s.(y := a.y, dy := a.dy);
    var b := UpdatePools(a, rp, ro, rb);
    StepKeepsWellFormed(Platforms, a.platforms, a.gameSpeed, a.frameCount, rp);
    StepKeepsWellFormed(Orbs, a.orbs, a.gameSpeed, a.frameCount, ro);
    StepKeepsWellFormed(Obstacles, a.obstacles, a.gameSpeed, a.frameCount, rb);
    CollisionOutcome(b);
    LandStaysOnCanvas(b.platforms, b.y, b.dy);
  }

  /**
   * Landing on platforms of the field never moves an on-canvas player off it:
   * it either stays put or snaps to a platform top, which is at least 30 below
   * the top of the canvas and 50 above the floor.
   */
  lemma LandStaysOnCanvas(ps: seq<Body>, y: real, dy: real)
    requires InField(ps) && 0.0 <= y <= CanvasHeight - PlayerSize
    ensures 0.0 <= Land(ps, y, dy).y <= CanvasHeight - PlayerSize
  {
    LandPosition(ps, y, dy);
  }

  /** Every frame of a running game has the outcome described by FrameOutcome. */
  lemma TickOutcome(s: State, rp: real, ro: real, rb: real)
    requires Inv(s) && s.started && Draw(rp) && Draw(ro) && Draw(rb)
    ensures FrameOutcome(s, GameLoop(s, rp, ro, rb))
  {
    if s.y + s.dy + Gravity + PlayerSize > CanvasHeight {
      FloorBreachOutcome(s, rp, ro, rb);
    } else {
      InBoundsOutcome(s, rp, ro, rb);
    }
  }

  /** The assignments of resetGame leave a running game with a fresh score and the pools it had. */
  lemma RestartKeepsInv(s: State)
    requires Inv(s)
    ensures Inv(Restart(s)) && Restart(s).started && Restart(s).score == 0
  {
  }

  lemma GameLoopKeepsInv(s: State, rp: real, ro: real, rb: real)
    requires Inv(s) && Draw(rp) && Draw(ro) && Draw(rb)
    ensures Inv(GameLoop(s, rp, ro, rb))
  {
    if s.started {
      TickOutcome(s, rp, ro, rb);
    }
  }

  /** A pool left by the game-over frame, one frame on at the start speed, is still right of the player. */
  lemma RestartStepStaysRight(k: Kind, pool: seq<Body>, frameCount: nat, r: real)
    requires AtSpawn(pool) && Draw(r)
    ensures RightOfPlayer(Step(k, pool, StartSpeed, frameCount, r))
  {
    var moved := Scrolled(pool, Pace(k, StartSpeed));
    assert forall b :: b in moved ==> b.x >= CanvasWidth - 3.0 by {
      forall b | b in moved ensures b.x >= CanvasWidth - 3.0 {
        assert pool[0] in pool;
      }
    }
  }

  /**
   * A Space press from idle or from game over always leaves a running game:
   * the frame it runs at once cannot end the game again.
   */
  lemma SpaceStartsRun(s: State, rp: real, ro: real, rb: real)
    requires Inv(s) && !s.started && Draw(rp) && Draw(ro) && Draw(rb)
    ensures Space(s, rp, ro, rb).started && !Space(s, rp, ro, rb).over
  {
    var r := if s.over then Restart(s) else s.(started := true);
    assert Space(s, rp, ro, rb) == GameLoop(r, rp, ro, rb);
    var a := UpdatePlayer(r);
    assert a == r.(y := StartY + Gravity, dy := Gravity);
    var b := UpdatePools(a, rp, ro, rb);
    RestartStepStaysRight(Platforms, r.platforms, r.frameCount, rp);
    RestartStepStaysRight(Orbs, r.orbs, r.frameCount, ro);
    RestartStepStaysRight(Obstacles, r.obstacles, r.frameCount, rb);
    NoLandingFromRight(b.platforms, b.y, b.dy);
    NoPickupFromRight(b.orbs, b.y);
    NoHitFromRight(b.obstacles, b.y);
  }

  lemma SpaceKeepsInv(s: State, rp: real, ro: real, rb: real)
    requires Inv(s) && Draw(rp) && Draw(ro) && Draw(rb)
    ensures Inv(Space(s, rp, ro, rb))
  {
    if !s.started && !s.over {
      GameLoopKeepsInv(s.(started := true), rp, ro, rb);
    } else if s.over {
      GameLoopKeepsInv(Restart(s), rp, ro, rb);
    }
  }

  /**
   * The high score never decreases and is never reset; when a frame or a key
   * press changes it, it becomes the score, which has strictly passed it.
   */
  lemma HighscoreRule(s: State, rp: real, ro: real, rb: real)
    requires Inv(s) && Draw(rp) && Draw(ro) && Draw(rb)
    ensures var t := GameLoop(s, rp, ro, rb);
            t.highscore >= s.highscore && (t.highscore != s.highscore ==> t.highscore == t.score > s.highscore)
    ensures var t := Space(s, rp, ro, rb);
            t.highscore >= s.highscore && (t.highscore != s.highscore ==> t.highscore == t.score > s.highscore)
  {
    if s.started {
      TickOutcome(s, rp, ro, rb);
    } else if !s.over {
      TickOutcome(s.(started := true), rp, ro, rb);
    } else {
      TickOutcome(Restart(s), rp, ro, rb);
    }
  }
}
