/**
 * The three scrolling entity pools (platforms, orbs, obstacles). Each frame a
 * pool moves every entity left by its pace, drops the front entity once its
 * trailing edge has left the canvas, and appends a fresh entity at the right
 * edge when the frame counter hits the pool's period.
 */
module Pools {
  import opened Geometry

  datatype Kind = Platforms | Orbs | Obstacles

  /** The right-hand edge the cull test looks at: x + 80, x + radius, x + width. */
  function TrailingEdge(k: Kind, b: Body): real
  {
    match k
    case Platforms => b.x + PlatformWidth
    case Orbs => b.x + OrbRadius
    case Obstacles => b.x + ObstacleSize
  }

  /** How far a pool's entities move left in one frame: obstacles run one unit faster. */
  function Pace(k: Kind, gameSpeed: real): real
  {
    if k == Obstacles then gameSpeed + 1.0 else gameSpeed
  }

  /** A pool spawns on every frame whose counter is a multiple of its period. */
  function Period(k: Kind): nat
  {
    match k
    case Platforms => 100
    case Orbs => 200
    case Obstacles => 300
  }

  /** A value drawn by Math.random(). */
  predicate Draw(r: real)
  {
    0.0 <= r < 1.0
  }

  /** The height a spawned entity gets from the draw r. */
  function SpawnY(r: real): (y: real)
    requires Draw(r)
    ensures 50.0 <= y < CanvasHeight - 50.0
  {
    r * (CanvasHeight - 100.0) + 50.0
  }

  /** The pool with every entity moved left by d, order and heights kept. */
  function Scrolled(pool: seq<Body>, d: real): seq<Body>
  {
    seq(|pool|, i requires 0 <= i < |pool| => Body(pool[i].x - d, pool[i].y))
  }

  /** The forEach that subtracts the pace from every entity's x, one entity at a time. */
  method Advance(pool: seq<Body>, d: real) returns (r: seq<Body>)
    ensures r == Scrolled(pool, d)
  {
    r := pool;
    var i := 0;
    while i < |r|
      invariant 0 <= i <= |r| == |pool|
      invariant forall j :: 0 <= j < i ==> r[j] == Body(pool[j].x - d, pool[j].y)
      invariant forall j :: i <= j < |r| ==> r[j] == pool[j]
    {
      r := r[i := Body(r[i].x - d, r[i].y)];
      i := i + 1;
    }
  }

  /** At most one entity leaves per frame: the front one, if its trailing edge is left of 0. */
  function Cull(k: Kind, pool: seq<Body>): seq<Body>
  {
    if |pool| > 0 && TrailingEdge(k, pool[0]) < 0.0 then pool[1..] else pool
  }

  /** createPlatform / createOrb / createObstacle, gated by the frame counter. */
  function Spawn(k: Kind, pool: seq<Body>, frameCount: nat, r: real): seq<Body>
    requires Draw(r)
  {
    if frameCount % Period(k) == 0 then pool + [Body(CanvasWidth, SpawnY(r))] else pool
  }

  /** One frame of a pool: updatePlatforms, updateOrbs or updateObstacles. */
  function Step(k: Kind, pool: seq<Body>, gameSpeed: real, frameCount: nat, r: real): seq<Body>
    requires Draw(r)
  {
    Spawn(k, Cull(k, Scrolled(pool, Pace(k, gameSpeed))), frameCount, r)
  }

  /** Front to back, the pool is ordered by ascending x: the oldest entity is the leftmost. */
  predicate Sorted(pool: seq<Body>)
  {
    forall i, j :: 0 <= i < j < |pool| ==> pool[i].x <= pool[j].x
  }

  /** Every entity is at or left of the spawn edge, at a height a spawn can produce. */
  predicate InField(pool: seq<Body>)
  {
    forall b :: b in pool ==> b.x <= CanvasWidth && 50.0 <= b.y < CanvasHeight - 50.0
  }

  predicate WellFormed(pool: seq<Body>)
  {
    Sorted(pool) && InField(pool)
  }

  /**
   * A frame moves every surviving entity by the same pace and keeps its height
   * and order; it drops exactly the front entity iff the moved front's trailing
   * edge is below 0, and appends exactly one entity at x = 400 iff the frame
   * counter is a multiple of the period.
   */
  lemma StepShape(k: Kind, pool: seq<Body>, gameSpeed: real, frameCount: nat, r: real)
    requires Draw(r)
    ensures var s := Step(k, pool, gameSpeed, frameCount, r);
            var v := Pace(k, gameSpeed);
            var drop := if |pool| > 0 && TrailingEdge(k, pool[0]) - v < 0.0 then 1 else 0;
            var born := if frameCount % Period(k) == 0 then 1 else 0;
            && |s| == |pool| - drop + born
            && (forall i :: 0 <= i < |pool| - drop ==> s[i] == Body(pool[i + drop].x - v, pool[i + drop].y))
            && (born == 1 ==> s[|s| - 1] == Body(CanvasWidth, SpawnY(r)))
  {
  }

  /** Moving every entity left by the same non-negative pace keeps the pool ordered and inside the field. */
  lemma ScrolledKeepsWellFormed(pool: seq<Body>, d: real)
    requires WellFormed(pool) && d >= 0.0
    ensures WellFormed(Scrolled(pool, d))
  {
    var moved := Scrolled(pool, d);
    forall b | b in moved ensures b.x <= CanvasWidth && 50.0 <= b.y < CanvasHeight - 50.0 {
      var i :| 0 <= i < |moved| && moved[i] == b;
      assert pool[i] in pool;
    }
  }

  /** Dropping the front entity keeps the pool ordered and inside the field. */
  lemma CullKeepsWellFormed(k: Kind, pool: seq<Body>)
    requires WellFormed(pool)
    ensures WellFormed(Cull(k, pool))
  {
    var culled := Cull(k, pool);
    if culled != pool {
      forall b | b in culled ensures b in pool {
        var i :| 0 <= i < |culled| && culled[i] == b;
        assert pool[i + 1] == b;
      }
    }
  }

  /** A spawn lands at the right edge, behind every entity already in the field. */
  lemma SpawnKeepsWellFormed(k: Kind, pool: seq<Body>, frameCount: nat, r: real)
    requires WellFormed(pool) && Draw(r)
    ensures WellFormed(Spawn(k, pool, frameCount, r))
  {
    if frameCount % Period(k) == 0 {
      var s := pool + [Body(CanvasWidth, SpawnY(r))];
      forall i, j | 0 <= i < j < |s| ensures s[i].x <= s[j].x {
        if j == |s| - 1 {
          assert s[i] in pool;
        }
      }
    }
  }

  /**
   * Because entities shift uniformly and spawn at the right edge, a frame
   * keeps the pool ordered and inside the field, as long as the pace is not
   * negative.
   */
  lemma StepKeepsWellFormed(k: Kind, pool: seq<Body>, gameSpeed: real, frameCount: nat, r: real)
    requires WellFormed(pool) && gameSpeed >= 0.0 && Draw(r)
    ensures WellFormed(Step(k, pool, gameSpeed, frameCount, r))
  {
    ScrolledKeepsWellFormed(pool, Pace(k, gameSpeed));
    CullKeepsWellFormed(k, Scrolled(pool, Pace(k, gameSpeed)));
    SpawnKeepsWellFormed(k, Cull(k, Scrolled(pool, Pace(k, gameSpeed))), frameCount, r);
  }

  /**
   * Checking only the front is enough: in an ordered pool whose front is still
   * on the canvas, no entity is off the left edge.
   */
  lemma FrontCullSuffices(k: Kind, pool: seq<Body>)
    requires Sorted(pool) && |pool| > 0 && TrailingEdge(k, pool[0]) >= 0.0
    ensures forall i :: 0 <= i < |pool| ==> TrailingEdge(k, pool[i]) >= 0.0
  {
  }

  /** The height a spawn produces lies in [50, 550) for every possible draw. */
  lemma SpawnHeightRange(r: real)
    requires Draw(r)
    ensures InField([Body(CanvasWidth, SpawnY(r))])
  {
  }
}
