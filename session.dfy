/**
 * The running game as the page holds it: a handful of variables and three
 * arrays, changed in place, frame by frame, in a fixed order. Each method
 * below does what the game's function of the same name does (without its
 * drawing, sound and page updates) and is proved to reach exactly the state
 * that the matching function of module Rules computes from the state before.
 */
module Game {
  import opened Geometry
  import opened Pools
  import opened Collision
  import Rules

  class Session {
    var y: real
    var dy: real
    var score: int
    var highscore: int
    var frameCount: nat
    var gameSpeed: real
    var started: bool
    var over: bool
    var isSliding: bool
    var platforms: seq<Body>
    var orbs: seq<Body>
    var obstacles: seq<Body>

    /** The session's variables as one value. */
    function Snapshot(): Rules.State
      reads this
    {
      Rules.State(y, dy, score, highscore, frameCount, gameSpeed,
                  started, over, isSliding, platforms, orbs, obstacles)
    }

    ghost predicate Valid()
      reads this
    {
      Rules.Inv(Snapshot())
    }

    /** The variables as the page initialises them. */
    constructor ()
      ensures Snapshot() == Rules.Initial && Valid()
    {
      y, dy := StartY, 0.0;
      score, highscore := 0, 0;
      frameCount, gameSpeed := 0, Rules.StartSpeed;
      started, over, isSliding := false, false, false;
      platforms, orbs, obstacles := [], [], [];
    }

    method UpdateScore()
      modifies this`highscore
      ensures Snapshot() == Rules.UpdateScore(old(Snapshot()))
    {
      if score > highscore {
        highscore := score;
      }
    }

    method EndGame()
      modifies this`started, this`platforms, this`orbs, this`obstacles, this`frameCount, this`gameSpeed, this`isSliding
      ensures Snapshot() == Rules.EndGame(old(Snapshot()))
    {
      started := false;
      platforms, orbs, obstacles := [], [], [];
      frameCount := 0;
      gameSpeed := Rules.StartSpeed;
      isSliding := false;
    }

    method UpdatePlayer()
      modifies this`y, this`dy, this`over, this`started, this`platforms, this`orbs, this`obstacles, this`frameCount, this`gameSpeed, this`isSliding
      ensures Snapshot() == Rules.UpdatePlayer(old(Snapshot()))
    {
      dy := dy + Gravity;
      y := y + dy;
      if y + PlayerSize > CanvasHeight {
        over := true;
        EndGame();
      }
      if y < 0.0 {
        y := 0.0;
        dy := 0.0;
      }
    }

    method CreatePlatform(r: real)
      requires Draw(r)
      modifies this`platforms
      ensures platforms == old(platforms) + [Body(CanvasWidth, SpawnY(r))]
    {
      platforms := platforms + [Body(CanvasWidth, SpawnY(r))];
    }

    method UpdatePlatforms(r: real)
      requires Draw(r)
      modifies this`platforms
      ensures platforms == Step(Platforms, old(platforms), gameSpeed, frameCount, r)
    {
      platforms := Advance(platforms, gameSpeed);
      if |platforms| > 0 && platforms[0].x + PlatformWidth < 0.0 {
        platforms := platforms[1..];
      }
      if frameCount % 100 == 0 {
        CreatePlatform(r);
      }
    }

    method CreateOrb(r: real)
      requires Draw(r)
      modifies this`orbs
      ensures orbs == old(orbs) + [Body(CanvasWidth, SpawnY(r))]
    {
      orbs := orbs + [Body(CanvasWidth, SpawnY(r))];
    }

    method UpdateOrbs(r: real)
      requires Draw(r)
      modifies this`orbs
      ensures orbs == Step(Orbs, old(orbs), gameSpeed, frameCount, r)
    {
      orbs := Advance(orbs, gameSpeed);
      if |orbs| > 0 && orbs[0].x + OrbRadius < 0.0 {
        orbs := orbs[1..];
      }
      if frameCount % 200 == 0 {
        CreateOrb(r);
      }
    }

    method CreateObstacle(r: real)
      requires Draw(r)
      modifies this`obstacles
      ensures obstacles == old(obstacles) + [Body(CanvasWidth, SpawnY(r))]
    {
      obstacles := obstacles + [Body(CanvasWidth, SpawnY(r))];
    }

    method UpdateObstacles(r: real)
      requires Draw(r)
      modifies this`obstacles
      ensures obstacles == Step(Obstacles, old(obstacles), gameSpeed, frameCount, r)
    {
      obstacles := Advance(obstacles, gameSpeed + 1.0);
      if |obstacles| > 0 && obstacles[0].x + ObstacleSize < 0.0 {
        obstacles := obstacles[1..];
      }
      if frameCount % 300 == 0 {
        CreateObstacle(r);
      }
    }

    /**
     * The platform pass of checkCollision: platforms in array order, each
     * landing moving the player before the next platform is tested.
     */
    method LandOnPlatforms() returns (onPlatform: bool)
      modifies this`y, this`dy, this`score, this`highscore
      ensures var l := Land(old(platforms), old(y), old(dy));
              && Snapshot() == Rules.Credit(old(Snapshot()).(y := l.y, dy := l.dy), l.hits)
              && onPlatform == (l.hits > 0)
    {
      ghost var s0 := Snapshot();
      ghost var l := Landing(y, dy, 0);
      onPlatform := false;
      var i := 0;
      while i < |platforms|
        invariant 0 <= i <= |platforms|
        invariant l == Land(platforms[..i], s0.y, s0.dy)
        invariant y == l.y && dy == l.dy && score == s0.score + l.hits
        invariant highscore == if l.hits == 0 then s0.highscore else Rules.Max(s0.highscore, score)
        invariant onPlatform == (l.hits > 0)
      {
        var platform := platforms[i];
        LandExtend(platforms, i, s0.y, s0.dy);
        if LandsOn(y, dy, platform) {
          y := platform.y - PlayerSize;
          dy := 0.0;
          onPlatform := true;
          score := score + 1;
          UpdateScore();
          l := Landing(y, dy, l.hits + 1);
        }
        i := i + 1;
      }
      assert platforms[..i] == platforms;
    }

    /** The forEach callback of the orb pass, visiting the orb at `index`. */
    method VisitOrb(index: nat)
      requires index < |orbs|
      modifies this`orbs, this`score, this`highscore
      ensures var orb := old(orbs[index]);
              if TouchesOrb(y, orb) then
                && orbs == old(orbs[..index] + orbs[index + 1..])
                && score == old(score) + 50 && highscore == Rules.Max(old(highscore), score)
              else orbs == old(orbs) && score == old(score) && highscore == old(highscore)
    {
      var orb := orbs[index];
      if TouchesOrb(y, orb) {
        score := score + 50;
        orbs := orbs[..index] + orbs[index + 1..];
        UpdateScore();
      }
    }

    /**
     * The orb pass of checkCollision. A pickup splices the orb out, so the
     * next orb slides into the index just visited and the walk passes over it.
     */
    method CollectOrbs()
      modifies this`orbs, this`score, this`highscore
      ensures Snapshot() == Rules.OrbPass(old(Snapshot()))
    {
      ghost var s1 := Snapshot();
      ghost var picked: nat := 0;
      SpliceWalkStarts(orbs, s1.y);
      var j := 0;
      while j < |orbs|
        invariant j <= |orbs| + 1 && SpliceWalk(s1.orbs, s1.y, orbs, j, picked)
        invariant score == s1.score + 50 * picked
        invariant highscore == if picked == 0 then s1.highscore else Rules.Max(s1.highscore, score)
        decreases |orbs| + 1 - j
      {
        if TouchesOrb(s1.y, orbs[j]) {
          SpliceWalkPicks(s1.orbs, s1.y, orbs, j, picked);
          picked := picked + 1;
        } else {
          SpliceWalkPasses(s1.orbs, s1.y, orbs, j, picked);
        }
        VisitOrb(j);
        j := j + 1;
      }
      SpliceWalkEnds(s1.orbs, s1.y, orbs, j, picked);
    }

    /**
     * The obstacle pass of checkCollision. The walk runs over the array it
     * started with, even after endGame has replaced the pool with an empty one;
     * every hit runs endGame again.
     */
    method HitObstacles()
      modifies this`over, this`started, this`platforms, this`orbs, this`obstacles, this`frameCount, this`gameSpeed, this`isSliding
      ensures Snapshot() == Rules.ObstaclePass(old(Snapshot()))
    {
      ghost var s2 := Snapshot();
      var walked := obstacles;
      var k := 0;
      while k < |walked|
        invariant 0 <= k <= |walked| && walked == s2.obstacles
        invariant Snapshot() == if AnyObstacleHit(walked[..k], s2.y) then Rules.EndGame(s2.(over := true)) else s2
      {
        assert walked[..k + 1] == walked[..k] + [walked[k]];
        if HitsObstacle(y, walked[k]) {
          over := true;
          EndGame();
        }
        k := k + 1;
      }
      assert walked[..k] == walked;
    }

    method CheckCollision()
      modifies this
      ensures Snapshot() == Rules.CheckCollision(old(Snapshot()))
    {
      ghost var s0 := Snapshot();
      var onPlatform := LandOnPlatforms();
      if onPlatform && !isSliding {
        isSliding := true;
      } else if !onPlatform && isSliding {
        isSliding := false;
      }
      assert Snapshot() == Rules.PlatformPass(s0);
      CollectOrbs();
      HitObstacles();
    }

    /** updatePlatforms, updateOrbs and updateObstacles, in that order. */
    method UpdatePools(rp: real, ro: real, rb: real)
      requires Draw(rp) && Draw(ro) && Draw(rb)
      modifies this`platforms, this`orbs, this`obstacles
      ensures Snapshot() == Rules.UpdatePools(old(Snapshot()), rp, ro, rb)
    {
      UpdatePlatforms(rp);
      UpdateOrbs(ro);
      UpdateObstacles(rb);
    }

    /** The update half of gameLoop, from updatePlayer to the speed ramp. */
    method Update(rp: real, ro: real, rb: real)
      requires Draw(rp) && Draw(ro) && Draw(rb)
      modifies this
      ensures Snapshot() == Rules.Update(old(Snapshot()), rp, ro, rb)
    {
      UpdatePlayer();
      UpdatePools(rp, ro, rb);
      CheckCollision();
      ghost var checked := Snapshot();
      frameCount := frameCount + 1;
      gameSpeed := gameSpeed + Rules.SpeedRamp;
      assert Snapshot() == Rules.Ramp(checked);
    }

    method GameLoop(rp: real, ro: real, rb: real)
      requires Draw(rp) && Draw(ro) && Draw(rb) && Valid()
      modifies this
      ensures Snapshot() == Rules.GameLoop(old(Snapshot()), rp, ro, rb) && Valid()
    {
      if !started {
        return;
      }
      Rules.GameLoopKeepsInv(Snapshot(), rp, ro, rb);
      Update(rp, ro, rb);
    }

    method ResetGame(rp: real, ro: real, rb: real)
      requires Draw(rp) && Draw(ro) && Draw(rb) && Valid()
      modifies this
      ensures Snapshot() == Rules.ResetGame(old(Snapshot()), rp, ro, rb) && Valid()
    {
      Rules.RestartKeepsInv(Snapshot());
      ghost var restarted := Rules.Restart(Snapshot());
      y := StartY;
      dy := 0.0;
      score := 0;
      gameSpeed := Rules.StartSpeed;
      over := false;
      started := true;
      assert Snapshot() == restarted;
      GameLoop(rp, ro, rb);
    }

    /** The keydown handler for Space; rp, ro and rb feed any spawns of the frame a start or restart runs. */
    method Space(rp: real, ro: real, rb: real)
      requires Draw(rp) && Draw(ro) && Draw(rb) && Valid()
      modifies this
      ensures Snapshot() == Rules.Space(old(Snapshot()), rp, ro, rb) && Valid()
    {
      if !started && !over {
        started := true;
        GameLoop(rp, ro, rb);
      } else if over {
        ResetGame(rp, ro, rb);
      } else {
        dy := Lift;
      }
    }
  }
}
