/**
 * The three tests of the collision pass: landing on platforms (which moves
 * and stops the player), picking up orbs (which removes them from their pool
 * while that pool is being walked) and hitting obstacles.
 */
module Collision {
  import opened Geometry
  import opened Pools

  // ---------------------------------------------------------------- platforms

  /** The player's box overlaps the platform's box while the player is not rising. */
  predicate LandsOn(y: real, dy: real, p: Body)
  {
    Overlap(PlayerX, y, PlayerSize, PlayerSize, p.x, p.y, PlatformWidth, PlatformHeight) && dy >= 0.0
  }

  /** Where the platform pass leaves the player, and how many landings it scored. */
  datatype Landing = Landing(y: real, dy: real, hits: nat)

  /**
   * The platform pass over ps in array order, from the player at (y, dy).
   * Each platform is tested against the player as the earlier platforms left
   * it; a landing snaps the player's bottom onto the platform's top, stops it,
   * and counts one hit.
   */
  function Land(ps: seq<Body>, y: real, dy: real): Landing
    decreases |ps|
  {
    if ps == [] then Landing(y, dy, 0)
    else
      var before := Land(ps[..|ps| - 1], y, dy);
      var p := ps[|ps| - 1];
      if LandsOn(before.y, before.dy, p) then Landing(p.y - PlayerSize, 0.0, before.hits + 1)
      else before
  }

  /** The pass over the first k + 1 platforms is the pass over the first k, then platform k's turn. */
  lemma LandExtend(ps: seq<Body>, k: nat, y: real, dy: real)
    requires k < |ps|
    ensures var before := Land(ps[..k], y, dy);
            Land(ps[..k + 1], y, dy)
              == if LandsOn(before.y, before.dy, ps[k]) then Landing(ps[k].y - PlayerSize, 0.0, before.hits + 1)
                 else before
  {
    assert ps[..k + 1][..k] == ps[..k];
  }

  /** Platform k is landed on when its turn in the pass comes. */
  predicate Matches(ps: seq<Body>, y: real, dy: real, k: nat)
    requires k < |ps|
  {
    var before := Land(ps[..k], y, dy);
    LandsOn(before.y, before.dy, ps[k])
  }

  /** A rising player lands on nothing: the pass leaves it where it was. */
  lemma {:induction false} LandWhileRising(ps: seq<Body>, y: real, dy: real)
    requires dy < 0.0
    ensures Land(ps, y, dy) == Landing(y, dy, 0)
  {
    if ps != [] {
      LandWhileRising(ps[..|ps| - 1], y, dy);
    }
  }

  /**
   * The pass scores at most one hit per platform; it scores some hit iff some
   * platform matched at its turn; with no hit the player is untouched, and
   * after any hit the player is stopped.
   */
  lemma {:induction false} LandOutcome(ps: seq<Body>, y: real, dy: real)
    ensures var l := Land(ps, y, dy);
            && l.hits <= |ps|
            && (l.hits > 0 <==> exists k :: 0 <= k < |ps| && Matches(ps, y, dy, k))
            && (l.hits == 0 ==> l.y == y && l.dy == dy)
            && (l.hits > 0 ==> l.dy == 0.0)
  {
    if ps != [] {
      var n := |ps| - 1;
      var front := ps[..n];
      LandOutcome(front, y, dy);
      forall k | 0 <= k < n ensures Matches(front, y, dy, k) == Matches(ps, y, dy, k) {
        assert front[..k] == ps[..k];
      }
      assert ps[..n] == front;
      if Land(ps, y, dy).hits > 0 && !Matches(ps, y, dy, n) {
        var k :| 0 <= k < n && Matches(front, y, dy, k);
        assert Matches(ps, y, dy, k);
      }
    }
  }

  /**
   * The last platform to match wins: if platform j matched at its turn and no
   * later one did, the pass ends with the player on top of platform j.
   */
  lemma {:induction false} LastMatchWins(ps: seq<Body>, y: real, dy: real, j: nat)
    requires j < |ps| && Matches(ps, y, dy, j)
    requires forall k :: j < k < |ps| ==> !Matches(ps, y, dy, k)
    ensures Land(ps, y, dy).y == ps[j].y - PlayerSize && Land(ps, y, dy).dy == 0.0
  {
    var n := |ps| - 1;
    assert ps[..n] == ps[..|ps| - 1];
    if j == n {
      assert Land(ps, y, dy) == Landing(ps[j].y - PlayerSize, 0.0, Land(ps[..j], y, dy).hits + 1);
    } else {
      var front := ps[..n];
      assert front[..j] == ps[..j];
      forall k | j < k < |front| ensures !Matches(front, y, dy, k) {
        assert front[..k] == ps[..k];
        assert !Matches(ps, y, dy, k);
      }
      LastMatchWins(front, y, dy, j);
      assert !Matches(ps, y, dy, n);
    }
  }

  /**
   * Two platforms that are both landed on in one pass both score, and the
   * second snap decides where the player ends up.
   */
  lemma TwoLandingsLastSnapWins(p: Body, q: Body, y: real, dy: real)
    requires Matches([p, q], y, dy, 0) && Matches([p, q], y, dy, 1)
    ensures Land([p, q], y, dy) == Landing(q.y - PlayerSize, 0.0, 2)
  {
    var ps := [p, q];
    LandExtend(ps, 0, y, dy);
    LandExtend(ps, 1, y, dy);
    assert ps[..0] == [] && ps[..2] == ps;
  }

  /**
   * The pass leaves the player where it was or on top of one of the
   * platforms of the pool.
   */
  lemma {:induction false} LandPosition(ps: seq<Body>, y: real, dy: real)
    ensures Land(ps, y, dy).y == y || exists p :: p in ps && Land(ps, y, dy).y == p.y - PlayerSize
  {
    if ps != [] {
      var front := ps[..|ps| - 1];
      LandPosition(front, y, dy);
      if Land(ps, y, dy) == Land(front, y, dy) && Land(front, y, dy).y != y {
        var p :| p in front && Land(front, y, dy).y == p.y - PlayerSize;
        assert p in ps;
      } else {
        assert ps[|ps| - 1] in ps;
      }
    }
  }

  /** Every entity of the pool starts at or right of the player's right edge. */
  predicate RightOfPlayer(pool: seq<Body>)
  {
    forall b :: b in pool ==> b.x >= PlayerX + PlayerSize
  }

  /** Platforms that have not reached the player's column are never landed on. */
  lemma {:induction false} NoLandingFromRight(ps: seq<Body>, y: real, dy: real)
    requires RightOfPlayer(ps)
    ensures Land(ps, y, dy) == Landing(y, dy, 0)
  {
    if ps != [] {
      var front := ps[..|ps| - 1];
      forall b | b in front ensures b in ps {
        var i :| 0 <= i < |front| && front[i] == b;
        assert ps[i] == b;
      }
      NoLandingFromRight(front, y, dy);
      assert ps[|ps| - 1] in ps;
    }
  }

  // --------------------------------------------------------------------- orbs

  /**
   * Orb pickup test: the orb's centre lies closer than half the player's width
   * plus the orb's radius to the player's TOP-LEFT corner (not its centre),
   * written with squared distances instead of a square root.
   */
  predicate TouchesOrb(y: real, o: Body)
  {
    var dx := PlayerX - o.x;
    var dy := y - o.y;
    dx * dx + dy * dy < (PlayerSize / 2.0 + OrbRadius) * (PlayerSize / 2.0 + OrbRadius)
  }

  /** Comparing squares decides the same as comparing the Euclidean distance itself. */
  lemma SquaredDistanceDecides(y: real, o: Body, distance: real)
    requires distance >= 0.0
    requires distance * distance == (PlayerX - o.x) * (PlayerX - o.x) + (y - o.y) * (y - o.y)
    ensures distance < PlayerSize / 2.0 + OrbRadius <==> TouchesOrb(y, o)
  {
    if distance < 20.0 {
      assert distance * distance <= 20.0 * distance;
    } else {
      assert distance * distance >= 20.0 * distance;
    }
  }

  /** What is left of the orb pool after the pickup pass, and how many orbs paid out. */
  datatype Sweep = Sweep(kept: seq<Body>, picked: nat)

  /**
   * The pickup pass over the orbs in array order. A touched orb is removed,
   * and the orb that then slides into its slot is NOT examined in this pass:
   * it is kept unconditionally, and the pass resumes after it.
   */
  function SweepOrbs(os: seq<Body>, y: real): (r: Sweep)
    ensures |r.kept| + r.picked == |os|
    decreases |os|
  {
    if os == [] then Sweep([], 0)
    else if !TouchesOrb(y, os[0]) then
      var rest := SweepOrbs(os[1..], y);
      Sweep([os[0]] + rest.kept, rest.picked)
    else if |os| == 1 then Sweep([], 1)
    else
      var rest := SweepOrbs(os[2..], y);
      Sweep([os[1]] + rest.kept, rest.picked + 1)
  }

  /** The pickup pass over os, midway: it has kept `passed` and paid `picked` times, with `todo` still ahead. */
  predicate SweepResumes(os: seq<Body>, y: real, passed: seq<Body>, todo: seq<Body>, picked: nat)
  {
    var rest := SweepOrbs(todo, y);
    SweepOrbs(os, y) == Sweep(passed + rest.kept, picked + rest.picked)
  }

  /** One visit of the pickup pass: an orb out of reach is passed; a touched one is removed and its successor skipped. */
  lemma SweepResumesStep(os: seq<Body>, y: real, passed: seq<Body>, todo: seq<Body>, picked: nat)
    requires SweepResumes(os, y, passed, todo, picked) && todo != []
    ensures !TouchesOrb(y, todo[0]) ==> SweepResumes(os, y, passed + [todo[0]], todo[1..], picked)
    ensures TouchesOrb(y, todo[0]) && |todo| > 1 ==> SweepResumes(os, y, passed + [todo[1]], todo[2..], picked + 1)
    ensures TouchesOrb(y, todo[0]) && |todo| == 1 ==> SweepResumes(os, y, passed, [], picked + 1)
  {
    var rest := SweepOrbs(todo, y);
    if !TouchesOrb(y, todo[0]) {
      assert passed + rest.kept == (passed + [todo[0]]) + SweepOrbs(todo[1..], y).kept;
    } else if |todo| > 1 {
      assert passed + rest.kept == (passed + [todo[1]]) + SweepOrbs(todo[2..], y).kept;
    } else {
      assert passed + rest.kept == passed + [];
    }
  }

  /**
   * The forEach over the live array `cur`, about to visit index j, agrees
   * with the pickup pass over the pool it started from: everything before j
   * is kept, everything from j on is still to be swept. After a pickup at the
   * last index the walk's index is one past the end.
   */
  predicate SpliceWalk(os: seq<Body>, y: real, cur: seq<Body>, j: nat, picked: nat)
  {
    && j <= |cur| + 1
    && var k := if j <= |cur| then j else |cur|;
       SweepResumes(os, y, cur[..k], cur[k..], picked)
  }

  lemma SpliceWalkStarts(os: seq<Body>, y: real)
    ensures SpliceWalk(os, y, os, 0, 0)
  {
    assert os[..0] + SweepOrbs(os[0..], y).kept == SweepOrbs(os, y).kept;
  }

  /** One visit of the forEach that finds the orb at index j out of reach: the index moves past it. */
  lemma SpliceWalkPasses(os: seq<Body>, y: real, cur: seq<Body>, j: nat, picked: nat)
    requires SpliceWalk(os, y, cur, j, picked) && j < |cur| && !TouchesOrb(y, cur[j])
    ensures SpliceWalk(os, y, cur, j + 1, picked)
  {
    SweepResumesStep(os, y, cur[..j], cur[j..], picked);
    assert cur[..j] + [cur[j..][0]] == cur[..j + 1];
    assert cur[j..][1..] == cur[j + 1..];
  }

  /**
   * One visit of the forEach that picks up the orb at index j: the orb is
   * spliced out, its successor moves into index j, and the index advances
   * past that successor without looking at it.
   */
  lemma SpliceWalkPicks(os: seq<Body>, y: real, cur: seq<Body>, j: nat, picked: nat)
    requires SpliceWalk(os, y, cur, j, picked) && j < |cur| && TouchesOrb(y, cur[j])
    ensures SpliceWalk(os, y, cur[..j] + cur[j + 1..], j + 1, picked + 1)
  {
    var todo := cur[j..];
    SweepResumesStep(os, y, cur[..j], todo, picked);
    var next := cur[..j] + cur[j + 1..];
    if |todo| > 1 {
      assert next[..j + 1] == cur[..j] + [todo[1]];
      assert next[j + 1..] == todo[2..];
    } else {
      assert next[..j] == cur[..j] && next[j..] == [];
    }
  }

  /** Once the walk's index reaches the end of the live array, the array is exactly what the pass keeps. */
  lemma SpliceWalkEnds(os: seq<Body>, y: real, cur: seq<Body>, j: nat, picked: nat)
    requires SpliceWalk(os, y, cur, j, picked) && j >= |cur|
    ensures SweepOrbs(os, y) == Sweep(cur, picked)
  {
    assert cur[..|cur|] == cur && cur[|cur|..] == [];
    assert cur + [] == cur;
  }

  /**
   * The pass only removes: the orbs it keeps are a sub-multiset of the pool,
   * and the orbs it removes are exactly as many as it paid for, so an orb is
   * either kept or paid for, never both.
   */
  lemma SweepRemovesOnlyPaid(os: seq<Body>, y: real)
    ensures var w := SweepOrbs(os, y);
            && multiset(w.kept) <= multiset(os)
            && |multiset(os) - multiset(w.kept)| == w.picked
  {
    SweepKeepsSubMultiset(os, y);
    var k := multiset(SweepOrbs(os, y).kept);
    assert multiset(os) == (multiset(os) - k) + k;
  }

  /** The induction behind SweepRemovesOnlyPaid: the kept orbs are among the pool's. */
  lemma {:induction false} SweepKeepsSubMultiset(os: seq<Body>, y: real)
    ensures multiset(SweepOrbs(os, y).kept) <= multiset(os)
  {
    if os != [] {
      if !TouchesOrb(y, os[0]) {
        SweepKeepsSubMultiset(os[1..], y);
        assert os == [os[0]] + os[1..];
      } else if |os| > 1 {
        SweepKeepsSubMultiset(os[2..], y);
        assert os == [os[0]] + ([os[1]] + os[2..]);
      }
    }
  }

  /** In a pool ordered by x, the pass keeps its orbs in that order. */
  lemma {:induction false} SweepKeepsOrder(os: seq<Body>, y: real)
    requires Sorted(os)
    ensures Sorted(SweepOrbs(os, y).kept)
  {
    if os != [] {
      var skip := if TouchesOrb(y, os[0]) then 1 else 0;
      if skip == 0 || |os| > 1 {
        var head := os[skip];
        var tail := os[skip + 1..];
        assert Sorted(tail);
        SweepKeepsOrder(tail, y);
        SweepKeepsSubMultiset(tail, y);
        var t := SweepOrbs(tail, y).kept;
        forall o | o in t ensures head.x <= o.x {
          assert o in multiset(t);
          var i :| 0 <= i < |tail| && tail[i] == o;
          assert os[skip + 1 + i] == o;
        }
        assert SweepOrbs(os, y).kept == [head] + t;
      }
    }
  }

  /** An orb out of reach is never removed by the pass. */
  lemma {:induction false} SweepSparesUntouched(os: seq<Body>, y: real, o: Body)
    requires o in os && !TouchesOrb(y, o)
    ensures o in SweepOrbs(os, y).kept
  {
    if os[0] != o {
      if !TouchesOrb(y, os[0]) {
        SweepSparesUntouched(os[1..], y, o);
      } else if os[1] != o {
        SweepSparesUntouched(os[2..], y, o);
      }
    }
  }

  /** The pass pays out iff some orb of the pool is within reach. */
  lemma {:induction false} SweepPaysIffTouched(os: seq<Body>, y: real)
    ensures SweepOrbs(os, y).picked > 0 <==> exists o :: o in os && TouchesOrb(y, o)
  {
    if os != [] && !TouchesOrb(y, os[0]) {
      SweepPaysIffTouched(os[1..], y);
      if exists o :: o in os && TouchesOrb(y, o) {
        var o :| o in os && TouchesOrb(y, o);
        assert o in os[1..];
      }
    }
  }

  /**
   * Two orbs both within reach, one behind the other: the first pays, the
   * second is skipped by the pass and survives it.
   */
  lemma SuccessorOfPickupSurvives(a: Body, b: Body, y: real)
    requires TouchesOrb(y, a) && TouchesOrb(y, b)
    ensures SweepOrbs([a, b], y) == Sweep([b], 1)
  {
    assert [a, b][2..] == [];
  }

  /** From x >= 220 the squared horizontal distance alone is at least 400. */
  lemma FarOrbUntouched(y: real, o: Body)
    requires o.x >= PlayerX + PlayerSize
    ensures !TouchesOrb(y, o)
  {
    var gap := o.x - PlayerX;
    assert gap * gap >= 20.0 * gap;
    assert (PlayerX - o.x) * (PlayerX - o.x) == gap * gap;
  }

  /** Orbs that have not reached the player's column are never picked up. */
  lemma {:induction false} NoPickupFromRight(os: seq<Body>, y: real)
    requires RightOfPlayer(os)
    ensures SweepOrbs(os, y) == Sweep(os, 0)
  {
    if os != [] {
      assert os[0] in os;
      FarOrbUntouched(y, os[0]);
      assert RightOfPlayer(os[1..]) by {
        forall b | b in os[1..] ensures b in os { }
      }
      NoPickupFromRight(os[1..], y);
      assert [os[0]] + os[1..] == os;
    }
  }

  // ---------------------------------------------------------------- obstacles

  /** The player's box overlaps the obstacle's box. */
  predicate HitsObstacle(y: real, o: Body)
  {
    Overlap(PlayerX, y, PlayerSize, PlayerSize, o.x, o.y, ObstacleSize, ObstacleSize)
  }

  predicate AnyObstacleHit(obs: seq<Body>, y: real)
  {
    exists o :: o in obs && HitsObstacle(y, o)
  }

  /** Obstacles that have not reached the player's column are never hit. */
  lemma NoHitFromRight(obs: seq<Body>, y: real)
    requires RightOfPlayer(obs)
    ensures !AnyObstacleHit(obs, y)
  {
  }
}
