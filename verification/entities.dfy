/** The moving things of the shooter: projectiles, enemies (a projectile that can
    change size) and particles (a projectile that slows down and fades), with the
    update rule each applies once per frame. Coordinates are reals; drawing is left out. */
module Entities {

  const PLAYER_RADIUS: real := 15.0
  const PROJECTILE_RADIUS: real := 7.0
  /** Speed of a projectile: the unit vector towards the click is scaled by this. */
  const PROJECTILE_SPD: real := 5.0
  const AVERAGE_ENEMIES_RADIUS: real := 30.0
  /** Factor applied to a particle's velocity on every update. */
  const FRICTION: real := 0.98
  /** Alpha a particle loses on every update. */
  const FADE_STEP: real := 0.01
  /** Alpha of a new particle. */
  const FULL_ALPHA: real := 1.0
  /** No enemy is ever smaller than this: the spawner clamps to it and a hit
      only shrinks an enemy that stays above it. */
  const ENEMY_MIN_RADIUS: real := 10.0

  datatype Velocity = Velocity(x: real, y: real)

  /** The state of a projectile or an enemy, as a value. */
  datatype Body = Body(x: real, y: real, r: real, color: string, velocity: Velocity)

  /** The state of a particle, as a value. */
  datatype Spark = Spark(body: Body, alpha: real)

  /** The player never moves; it is passed around as a value. */
  datatype Player = Player(x: real, y: real, r: real)

  /** One step of straight-line motion. */
  function Drift(b: Body): Body {
    b.(x := b.x + b.velocity.x, y := b.y + b.velocity.y)
  }

  /** One particle update: friction first, then the move with the slowed
      velocity, then the fade. */
  function Fade(s: Spark): Spark {
    var v := Velocity(s.body.velocity.x * FRICTION, s.body.velocity.y * FRICTION);
    Spark(Drift(s.body.(velocity := v)), s.alpha - FADE_STEP)
  }

  /** A drifting body keeps its size, colour and velocity: only the position
      changes. */
  lemma DriftIsTranslation(b: Body)
    ensures var d := Drift(b);
      d.r == b.r && d.color == b.color && d.velocity == b.velocity &&
      d.(x := b.x, y := b.y) == b
  {
  }

  /** A particle update lowers alpha by exactly FADE_STEP, never speeds either
      velocity component up nor flips its sign, and moves the particle by the
      slowed velocity. */
  lemma FadeSlowsAndDims(s: Spark)
    ensures var f := Fade(s);
      f.alpha == s.alpha - FADE_STEP && f.alpha < s.alpha &&
      f.body.r == s.body.r && f.body.color == s.body.color &&
      (s.body.velocity.x >= 0.0 ==> 0.0 <= f.body.velocity.x <= s.body.velocity.x) &&
      (s.body.velocity.x <= 0.0 ==> s.body.velocity.x <= f.body.velocity.x <= 0.0) &&
      (s.body.velocity.y >= 0.0 ==> 0.0 <= f.body.velocity.y <= s.body.velocity.y) &&
      (s.body.velocity.y <= 0.0 ==> s.body.velocity.y <= f.body.velocity.y <= 0.0) &&
      f.body.x == s.body.x + f.body.velocity.x && f.body.y == s.body.y + f.body.velocity.y
  {
  }

  /** `class Projectile`: position, radius, colour and velocity, moved in place. */
  class Projectile {
    var x: real
    var y: real
    var r: real
    var color: string
    var velocity: Velocity

    constructor (x0: real, y0: real, r0: real, color0: string, velocity0: Velocity)
      ensures View() == Body(x0, y0, r0, color0, velocity0)
    {
      x, y, r, color, velocity := x0, y0, r0, color0, velocity0;
    }

    function View(): Body
      reads this
    {
      Body(x, y, r, color, velocity)
    }

    /** `update()`: moves by the velocity. */
    method Update()
      modifies this
      ensures View() == Drift(old(View()))
    {
      x := x + velocity.x;
      y := y + velocity.y;
    }
  }

  /** `class Enemy extends Projectile`: moves like a projectile and can be resized. */
  class Enemy {
    var x: real
    var y: real
    var r: real
    var color: string
    var velocity: Velocity

    constructor (x0: real, y0: real, r0: real, color0: string, velocity0: Velocity)
      ensures View() == Body(x0, y0, r0, color0, velocity0)
    {
      x, y, r, color, velocity := x0, y0, r0, color0, velocity0;
    }

    function View(): Body
      reads this
    {
      Body(x, y, r, color, velocity)
    }

    /** The inherited `update()`: moves by the velocity. */
    method Update()
      modifies this
      ensures View() == Drift(old(View()))
    {
      x := x + velocity.x;
      y := y + velocity.y;
    }

    /** `changeSize(value)`: sets the radius and nothing else. */
    method ChangeSize(value: real)
      modifies this
      ensures View() == old(View()).(r := value)
    {
      r := value;
    }
  }

  /** `class Particle extends Projectile`: starts fully opaque, slows down and fades. */
  class Particle {
    var x: real
    var y: real
    var r: real
    var color: string
    var velocity: Velocity
    var alpha: real

    constructor (x0: real, y0: real, r0: real, color0: string, velocity0: Velocity)
      ensures View() == Spark(Body(x0, y0, r0, color0, velocity0), FULL_ALPHA)
    {
      x, y, r, color, velocity := x0, y0, r0, color0, velocity0;
      alpha := FULL_ALPHA;
    }

    function View(): Spark
      reads this
    {
      Spark(Body(x, y, r, color, velocity), alpha)
    }

    /** `update()`: friction on both velocity components, the inherited move, then the fade. */
    method Update()
      modifies this
      ensures View() == Fade(old(View()))
    {
      velocity := Velocity(velocity.x * FRICTION, velocity.y * FRICTION);
      x := x + velocity.x;
      y := y + velocity.y;
      alpha := alpha - FADE_STEP;
    }
  }
}
