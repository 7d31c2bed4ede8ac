/** Collisions and the damage rule: when two circles touch, which projectile an
    enemy meets first, and what a hit does to the enemy and the score. */
module Collisions {
  import opened Entities

  datatype Option<T> = None | Some(value: T)

  /** `Math.hypot(dx, dy) < reach`, stated without the square root. */
  predicate Touching(dx: real, dy: real, reach: real) {
    0.0 < reach && dx * dx + dy * dy < reach * reach
  }

  /** For any non-negative d with d * d == dx * dx + dy * dy (that is, d is the
      hypotenuse), Touching agrees with the comparison `d < reach` the source makes. */
  lemma TouchingIsDistance(dx: real, dy: real, reach: real, d: real)
    requires 0.0 <= d && d * d == dx * dx + dy * dy
    ensures Touching(dx, dy, reach) <==> d < reach
  {
    if 0.0 < reach {
      if d < reach {
        calc {
          dx * dx + dy * dy;
        ==
          d * d;
        <=
          d * reach;
        <
          reach * reach;
        }
      } else {
        assert reach * reach <= reach * d;
        assert reach * d <= d * d;
      }
    }
  }

  /** A projectile hits an enemy when their centres are closer than the sum of radii. */
  predicate Hits(p: Body, e: Body) {
    Touching(p.x - e.x, p.y - e.y, e.r + p.r)
  }

  /** An enemy reaches the player when their centres are closer than the sum of radii. */
  predicate Contact(player: Player, e: Body) {
    Touching(player.x - e.x, player.y - e.y, e.r + player.r)
  }

  /** The projectile an enemy collides with: the scan runs from the last index
      down and stops at the first hit, so it is the highest index that hits. */
  function LastHit(ps: seq<Body>, e: Body): (j: Option<nat>)
    ensures j.Some? ==> j.value < |ps| && Hits(ps[j.value], e)
    ensures j.Some? ==> forall k :: j.value < k < |ps| ==> !Hits(ps[k], e)
    ensures j.None? ==> forall k :: 0 <= k < |ps| ==> !Hits(ps[k], e)
  {
    LastHitBelow(ps, e, |ps|)
  }

  /** The same scan started at index n - 1. */
  function LastHitBelow(ps: seq<Body>, e: Body, n: nat): (j: Option<nat>)
    requires n <= |ps|
    ensures j.Some? ==> j.value < n && Hits(ps[j.value], e)
    ensures j.Some? ==> forall k :: j.value < k < n ==> !Hits(ps[k], e)
    ensures j.None? ==> forall k :: 0 <= k < n ==> !Hits(ps[k], e)
    decreases n
  {
    if n == 0 then None
    else if Hits(ps[n - 1], e) then Some(n - 1)
    else LastHitBelow(ps, e, n - 1)
  }

  /** Radius a hit takes off an enemy that survives it. */
  const SHRINK_STEP: real := 10.0
  const SHRINK_BONUS: int := 100
  const DESTROY_BONUS: int := 250

  /** What a hit does to an enemy: it shrinks to a new radius, or it is destroyed. */
  datatype Hit = Shrunk(radius: real) | Destroyed

  /** The decision on an enemy of radius r that has been hit. An enemy survives
      exactly when what it would shrink to is still above the minimum radius. */
  function HitOutcome(r: real): (h: Hit)
    ensures h.Shrunk? <==> r - SHRINK_STEP > ENEMY_MIN_RADIUS
    ensures h.Shrunk? ==> h.radius == r - SHRINK_STEP && h.radius > ENEMY_MIN_RADIUS
  {
    if r - SHRINK_STEP > ENEMY_MIN_RADIUS then Shrunk(r - SHRINK_STEP) else Destroyed
  }

  /** Points a hit earns. */
  function Bonus(h: Hit): (points: int)
    ensures points > 0 && points % 50 == 0
  {
    match h
    case Shrunk(_) => SHRINK_BONUS
    case Destroyed => DESTROY_BONUS
  }
}
