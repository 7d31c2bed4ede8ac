/** Particles: the burst an enemy leaves when it is hit, and the per-frame
    fade-and-cull pass over the particle list. */
module Particles {
  import opened Entities

  /** The five `Math.random()` draws one new particle makes, in the order the
      source makes them: its size, then two per velocity component. */
  datatype SparkNoise = SparkNoise(size: real, dirX: real, spreadX: real, dirY: real, spreadY: real)

  /** How many times `for (let i = 0; i < r * 2; i++)` runs: the least n with n >= 2r. */
  function SparkCount(r: real): (n: nat)
    ensures (n as real) >= 2.0 * r
    ensures n == 0 || ((n - 1) as real) < 2.0 * r
  {
    if r <= 0.0 then 0
    else
      var f := (2.0 * r).Floor;
      if f as real == 2.0 * r then f else f + 1
  }

  /** The counter i passes the loop test exactly when i < SparkCount(r). */
  lemma SparkCountIsTripCount(r: real, i: nat)
    ensures i < SparkCount(r) <==> (i as real) < 2.0 * r
  {
    var n := SparkCount(r);
    if i < n {
      assert (i as real) <= ((n - 1) as real);
    }
  }

  /** One particle of a burst: at the enemy's centre, in the enemy's colour,
      fully opaque, with radius `random * 2` and each velocity component
      `(random - 0.5) * (random * 5)`. */
  function Scatter(e: Body, n: SparkNoise): Spark {
    Spark(Body(e.x, e.y, n.size * 2.0, e.color, Spray(n)), FULL_ALPHA)
  }

  /** A particle's velocity: each component is a draw centred on 0 times up to 5. */
  function Spray(n: SparkNoise): Velocity {
    Velocity((n.dirX - 0.5) * (n.spreadX * 5.0), (n.dirY - 0.5) * (n.spreadY * 5.0))
  }

  predicate UnitDraws(n: SparkNoise) {
    0.0 <= n.size < 1.0 && 0.0 <= n.dirX < 1.0 && 0.0 <= n.spreadX < 1.0 &&
    0.0 <= n.dirY < 1.0 && 0.0 <= n.spreadY < 1.0
  }

  /** With draws in [0, 1), as `Math.random()` gives, a particle's radius lies in
      [0, 2) and each velocity component in (-2.5, 2.5). */
  lemma ScatterBounds(e: Body, n: SparkNoise)
    requires UnitDraws(n)
    ensures var s := Scatter(e, n);
      0.0 <= s.body.r < 2.0 &&
      -2.5 < s.body.velocity.x < 2.5 && -2.5 < s.body.velocity.y < 2.5
  {
    var dx, sx := n.dirX - 0.5, n.spreadX * 5.0;
    var dy, sy := n.dirY - 0.5, n.spreadY * 5.0;
    ProductBound(dx, sx);
    ProductBound(dy, sy);
    assert Spray(n) == Velocity(dx * sx, dy * sy);
  }

  lemma ProductBound(a: real, b: real)
    requires -0.5 <= a < 0.5 && 0.0 <= b < 5.0
    ensures -2.5 < a * b < 2.5
  {
    if a >= 0.0 {
      assert a * b <= a * 5.0;
    } else {
      assert a * b >= a * 5.0;
    }
  }

  /** The particles one hit on enemy e pushes onto an array of `first` particles:
      the one that lands at index first + k of the array takes noise(first + k). */
  function Burst(e: Body, first: nat, noise: nat -> SparkNoise): seq<Spark> {
    seq(SparkCount(e.r), k requires 0 <= k => Scatter(e, noise(first + k)))
  }

  /** A burst is ceil(2r) particles, each at the enemy's position, in its colour,
      with alpha 1. */
  lemma BurstShape(e: Body, first: nat, noise: nat -> SparkNoise)
    ensures |Burst(e, first, noise)| == SparkCount(e.r)
    ensures forall s :: s in Burst(e, first, noise) ==>
      s.body.x == e.x && s.body.y == e.y && s.body.color == e.color && s.alpha == FULL_ALPHA
  {
    var b := Burst(e, first, noise);
    forall s | s in b
      ensures s.body.x == e.x && s.body.y == e.y && s.body.color == e.color && s.alpha == FULL_ALPHA
    {
      var k :| 0 <= k < |b| && b[k] == s;
      assert b[k] == Scatter(e, noise(first + k));
    }
  }

  predicate Alive(s: Spark) {
    s.alpha > 0.0
  }

  /** The particle pass of a frame: every particle is updated and those whose
      alpha has reached 0 are dropped, the others kept in order. */
  function Faded(s: seq<Spark>): seq<Spark> {
    if s == [] then []
    else (if Alive(Fade(s[0])) then [Fade(s[0])] else []) + Faded(s[1..])
  }

  /** After the pass every remaining particle has alpha > 0, and there are no more
      particles than before. */
  lemma {:induction false} FadedAlive(s: seq<Spark>)
    ensures |Faded(s)| <= |s|
    ensures forall p :: p in Faded(s) ==> Alive(p)
  {
    if s != [] {
      FadedAlive(s[1..]);
    }
  }

  /** The pass works particle by particle: on a list split in two it is the pass on
      each part, in the same order. So survivors keep their relative order. */
  lemma {:induction false} FadedSplits(s: seq<Spark>, t: seq<Spark>)
    ensures Faded(s + t) == Faded(s) + Faded(t)
  {
    if s == [] {
      assert s + t == t;
    } else {
      var head := if Alive(Fade(s[0])) then [Fade(s[0])] else [];
      assert (s + t)[0] == s[0] && (s + t)[1..] == s[1..] + t;
      FadedSplits(s[1..], t);
      calc {
        Faded(s + t);
        head + Faded(s[1..] + t);
        head + (Faded(s[1..]) + Faded(t));
        (head + Faded(s[1..])) + Faded(t);
      }
    }
  }

  /** A particle survives the pass exactly when its updated alpha is positive:
      the result is the updated particles that are alive, and only those. */
  lemma {:induction false} FadedMembers(s: seq<Spark>, p: Spark)
    ensures p in Faded(s) <==> Alive(p) && exists k :: 0 <= k < |s| && p == Fade(s[k])
  {
    if s != [] {
      FadedMembers(s[1..], p);
      if p in Faded(s[1..]) {
        var k :| 0 <= k < |s[1..]| && p == Fade(s[1..][k]);
        assert p == Fade(s[k + 1]);
      }
      if Alive(p) && exists k :: 0 <= k < |s| && p == Fade(s[k]) {
        var k :| 0 <= k < |s| && p == Fade(s[k]);
        if k > 0 {
          assert p == Fade(s[1..][k - 1]);
        }
      }
    }
  }
}
