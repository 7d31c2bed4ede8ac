/** The enemy spawner's discrete choices: the radius clamp and the edge an
    enemy enters from. */
module Spawning {
  import opened Entities

  /** The four `Math.random()` draws of one spawn that decide size and place:
      the size, the axis (left/right or top/bottom), the side, and the offset
      along the edge. */
  datatype SpawnNoise = SpawnNoise(size: real, axis: real, side: real, offset: real)

  predicate UnitDraws(n: SpawnNoise) {
    0.0 <= n.size < 1.0 && 0.0 <= n.axis < 1.0 && 0.0 <= n.side < 1.0 && 0.0 <= n.offset < 1.0
  }

  /** `Math.max(10, random * AVERAGE_ENEMIES_RADIUS)`. */
  function SpawnRadius(size: real): (r: real)
    ensures r >= ENEMY_MIN_RADIUS && r >= size * AVERAGE_ENEMIES_RADIUS
    ensures r == ENEMY_MIN_RADIUS || r == size * AVERAGE_ENEMIES_RADIUS
  {
    if size * AVERAGE_ENEMIES_RADIUS > ENEMY_MIN_RADIUS then size * AVERAGE_ENEMIES_RADIUS else ENEMY_MIN_RADIUS
  }

  /** A new enemy: just outside the right or left edge at a random height, or
      just outside the bottom or top edge at a random x. Its velocity (the unit
      vector towards the player) and colour are given. */
  function Spawned(n: SpawnNoise, velocity: Velocity, color: string, width: real, height: real): Body {
    var r := SpawnRadius(n.size);
    if n.axis < 0.5 then
      Body(if n.side < 0.5 then width + r else -r, n.offset * height, r, color, velocity)
    else
      Body(n.offset * width, if n.side < 0.5 then height + r else -r, r, color, velocity)
  }

  /** With draws in [0, 1), a spawned enemy has radius in [10, 30) and sits on the
      line one radius outside one edge of the canvas, within the span of that edge. */
  lemma SpawnedOnEdge(n: SpawnNoise, velocity: Velocity, color: string, width: real, height: real)
    requires UnitDraws(n) && 0.0 < width && 0.0 < height
    ensures var b := Spawned(n, velocity, color, width, height);
      ENEMY_MIN_RADIUS <= b.r < AVERAGE_ENEMIES_RADIUS &&
      b.velocity == velocity && b.color == color &&
      (((b.x == width + b.r || b.x == -b.r) && 0.0 <= b.y < height) ||
       ((b.y == height + b.r || b.y == -b.r) && 0.0 <= b.x < width))
  {
    var b := Spawned(n, velocity, color, width, height);
    if n.axis < 0.5 {
      ScaleBelow(n.offset, height);
      assert b.y == n.offset * height;
    } else {
      ScaleBelow(n.offset, width);
      assert b.x == n.offset * width;
    }
  }

  /** A fraction in [0, 1) of a positive length lies in [0, length). */
  lemma ScaleBelow(a: real, b: real)
    requires 0.0 <= a < 1.0 && 0.0 < b
    ensures 0.0 <= a * b < b
  {
    assert b - a * b == (1.0 - a) * b;
  }
}
