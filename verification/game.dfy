/** The game the page's load handler sets up: the three live collections, the
    score and the phase, with the frame loop `animate()`, `gameReset()`, the
    spawner tick, the canvas click and the start button. Every method is proved
    against the pure function for the same event in module Frames. */
module Arena {
  import opened Entities
  import opened Seqs
  import opened Collisions
  import opened Particles
  import opened Projectiles
  import opened Spawning
  import opened Frames

  function SparksOf(ps: seq<Particle>): seq<Spark>
    reads ps
  {
    seq(|ps|, k requires 0 <= k < |ps| reads ps => ps[k].View())
  }

  function BodiesOf(ps: seq<Projectile>): seq<Body>
    reads ps
  {
    seq(|ps|, k requires 0 <= k < |ps| reads ps => ps[k].View())
  }

  function EnemiesOf(es: seq<Enemy>): seq<Body>
    reads es
  {
    seq(|es|, k requires 0 <= k < |es| reads es => es[k].View())
  }

  /** The collision scan of one enemy: projectiles from the last index down, the
      first that hits wins. */
  method FindHit(ps: seq<Projectile>, e: Body) returns (hit: Option<nat>)
    ensures hit == LastHit(BodiesOf(ps), e)
  {
    ghost var s := BodiesOf(ps);
    var j := |ps|;
    while j > 0
      invariant 0 <= j <= |ps|
      invariant LastHitBelow(s, e, j) == LastHit(s, e)
    {
      j := j - 1;
      if Hits(ps[j].View(), e) {
        return Some(j);
      }
    }
    return None;
  }

  /** One turn of the particle loop on the values: updating particle i and
      splicing it out when it has faded extends the processed suffix by one. */
  lemma FadeStep(s0: seq<Spark>, i: nat)
    requires i < |s0|
    ensures var s' := (s0[..i + 1] + Faded(s0[i + 1..]))[i := Fade(s0[i])];
      (Alive(Fade(s0[i])) ==> s' == s0[..i] + Faded(s0[i..])) &&
      (!Alive(Fade(s0[i])) ==> Remove(s', i) == s0[..i] + Faded(s0[i..]))
  {
    assert s0[i..][1..] == s0[i + 1..];
    assert (s0[..i + 1] + Faded(s0[i + 1..]))[i := Fade(s0[i])] == s0[..i] + [Fade(s0[i])] + Faded(s0[i + 1..]);
  }

  /** One turn of the projectile loop on the values: moving projectile i extends
      the moved suffix by one, and splicing it out leaves the cull's result. */
  lemma DriftStep(s0: seq<Body>, i: nat)
    requires i < |s0|
    ensures var s' := (s0[..i + 1] + DriftAll(s0[i + 1..]))[i := Drift(s0[i])];
      s' == s0[..i] + DriftAll(s0[i..]) && Remove(s', i) == s0[..i] + DriftAll(s0[i + 1..])
  {
    var s' := (s0[..i + 1] + DriftAll(s0[i + 1..]))[i := Drift(s0[i])];
    assert s' == s0[..i] + DriftAll(s0[i..]);
    assert Remove(s', i) == s0[..i] + DriftAll(s0[i + 1..]);
  }

  class Game {
    const width: real
    const height: real
    const player: Player
    var particles: seq<Particle>
    var projectiles: seq<Projectile>
    var enemies: seq<Enemy>
    var score: int
    var phase: Phase
    /** The score last written into the game-over modal. */
    var modalScore: int

    /** No collection holds an object twice. */
    ghost predicate Separate()
      reads this
    {
      Distinct(particles) && Distinct(projectiles) && Distinct(enemies)
    }

    ghost predicate Valid()
      reads this, particles, projectiles, enemies
    {
      Separate() && Healthy(Snapshot())
    }

    function Snapshot(): World
      reads this, particles, projectiles, enemies
    {
      World(SparksOf(particles), BodiesOf(projectiles), EnemiesOf(enemies), score, phase, modalScore)
    }

    /** Since the earlier state, each collection has only lost objects or gained
        objects created in between. */
    twostate predicate OnlyNewObjects()
      reads this
    {
      (forall i :: 0 <= i < |particles| ==> particles[i] in old(particles) || fresh(particles[i])) &&
      (forall i :: 0 <= i < |projectiles| ==> projectiles[i] in old(projectiles) || fresh(projectiles[i])) &&
      (forall i :: 0 <= i < |enemies| ==> enemies[i] in old(enemies) || fresh(enemies[i]))
    }

    function Layout(): Stage {
      Stage(width, height, player)
    }

    /** The state the enemy loop of a frame works on. */
    function SweepView(): Sweep
      reads this, particles, projectiles, enemies
    {
      Sweep(EnemiesOf(enemies), BodiesOf(projectiles), SparksOf(particles), score,
            phase == GameOver, modalScore)
    }

    /** The load handler: canvas of the given size, player at its centre,
        empty collections, score 0, nothing running yet. */
    constructor (canvasWidth: real, canvasHeight: real)
      ensures Valid()
      ensures Snapshot() == Loaded()
      ensures Layout() == StageFor(canvasWidth, canvasHeight)
    {
      width, height := canvasWidth, canvasHeight;
      player := Player(canvasWidth / 2.0, canvasHeight / 2.0, PLAYER_RADIUS);
      particles, projectiles, enemies := [], [], [];
      score, phase, modalScore := 0, Idle, 0;
    }

    /** `gameReset()`. */
    method Reset()
      modifies this`particles, this`projectiles, this`enemies, this`score
      ensures Valid() && OnlyNewObjects()
      ensures Snapshot() == Frames.Reset(old(Snapshot()))
    {
      projectiles := [];
      enemies := [];
      particles := [];
      score := 0;
    }

    /** The canvas click: a projectile leaves the player's centre with speed
        PROJECTILE_SPD along the given unit vector. */
    method Fire(direction: Velocity)
      requires Valid()
      modifies this`projectiles
      ensures Valid() && OnlyNewObjects()
      ensures Snapshot() == Step(Layout(), old(Snapshot()), Click(direction))
    {
      var p := new Projectile(player.x, player.y, PROJECTILE_RADIUS, "salmon",
                              Velocity(PROJECTILE_SPD * direction.x, PROJECTILE_SPD * direction.y));
      DistinctAppend(projectiles, p);
      projectiles := projectiles + [p];
      assert BodiesOf(projectiles) == old(BodiesOf(projectiles)) + [p.View()];
      StepHealthy(Layout(), old(Snapshot()), Click(direction));
    }

    /** One tick of the spawner: radius clamp, choice of edge, then the push. */
    method SpawnEnemy(n: SpawnNoise, heading: Velocity, color: string)
      requires Valid()
      modifies this`enemies
      ensures Valid() && OnlyNewObjects()
      ensures Snapshot() == Step(Layout(), old(Snapshot()), SpawnTick(n, heading, color))
    {
      var r := SpawnRadius(n.size);
      var x: real, y: real;
      if n.axis < 0.5 {
        x := if n.side < 0.5 then width + r else -r;
        y := n.offset * height;
      } else {
        y := if n.side < 0.5 then height + r else -r;
        x := n.offset * width;
      }
      var e := new Enemy(x, y, r, color, heading);
      assert e.View() == Spawned(n, heading, color, width, height);
      DistinctAppend(enemies, e);
      enemies := enemies + [e];
      assert EnemiesOf(enemies) == old(EnemiesOf(enemies)) + [e.View()];
      StepHealthy(Layout(), old(Snapshot()), SpawnTick(n, heading, color));
    }

    /** The start button: hide the modal, `gameReset()`, then `animate()`. */
    method Start(noise: nat -> SparkNoise)
      requires Valid()
      modifies this, particles, projectiles, enemies
      ensures Valid() && OnlyNewObjects()
      ensures Snapshot() == Step(Layout(), old(Snapshot()), StartClick(noise))
    {
      phase := Running;
      Reset();
      Frame(noise);
    }

    /** The page's reaction to one event: a display refresh runs a frame while
        the game runs, a spawner tick spawns, a click on the canvas fires, a
        click on the start button starts. */
    method Handle(ev: Event)
      requires Valid()
      modifies this, particles, projectiles, enemies
      ensures Valid() && OnlyNewObjects()
      ensures Snapshot() == Step(Layout(), old(Snapshot()), ev)
    {
      match ev
      case Refresh(noise) =>
        if phase == Running {
          Frame(noise);
        }
      case SpawnTick(n, heading, color) =>
        SpawnEnemy(n, heading, color);
      case Click(direction) =>
        Fire(direction);
      case StartClick(noise) =>
        Start(noise);
    }

    /** A whole session of events, handled one after another on the same objects. */
    method HandleAll(evs: seq<Event>)
      requires Valid()
      modifies this, particles, projectiles, enemies
      ensures Valid() && OnlyNewObjects()
      ensures Snapshot() == Run(Layout(), old(Snapshot()), evs)
    {
      var i := 0;
      while i < |evs|
        invariant 0 <= i <= |evs|
        invariant Valid() && OnlyNewObjects()
        invariant Run(Layout(), Snapshot(), evs[i..]) == Run(Layout(), old(Snapshot()), evs)
      {
        assert evs[i..][0] == evs[i] && evs[i..][1..] == evs[i + 1..];
        Handle(evs[i]);
        i := i + 1;
      }
    }

    /** `animate()`: one frame, scheduled only while the game runs. */
    method Frame(noise: nat -> SparkNoise)
      requires Valid() && phase == Running
      modifies this, particles, projectiles, enemies
      ensures Valid() && OnlyNewObjects()
      ensures Snapshot() == Tick(old(Snapshot()), width, height, player, noise)
    {
      ghost var w := Snapshot();
      FadeAndCull();
      SweepEnemies(noise);
      TickHealthy(w, width, height, player, noise);
    }

    /** The first two passes of `animate()`: the particle loop, then the
        projectile loop. They leave what the enemy loop starts from. */
    method FadeAndCull()
      requires Separate()
      modifies this`particles, this`projectiles, particles, projectiles
      ensures Separate() && OnlyNewObjects()
      ensures SweepView() == InitialSweep(old(Snapshot()), width, height)
    {
      ghost var w := Snapshot();
      FadeParticles();
      assert BodiesOf(projectiles) == w.projectiles;
      assert EnemiesOf(enemies) == w.enemies;
      ghost var faded := SparksOf(particles);
      CullProjectiles();
      assert SparksOf(particles) == faded;
      assert EnemiesOf(enemies) == w.enemies;
    }

    /** The particle loop of `animate()`: from the last index down, update the
        particle and splice it out if its alpha has reached 0. */
    method FadeParticles()
      requires Distinct(particles)
      modifies this`particles, particles
      ensures Distinct(particles) && forall k :: 0 <= k < |particles| ==> particles[k] in old(particles)
      ensures SparksOf(particles) == Faded(old(SparksOf(particles)))
    {
      ghost var s0 := SparksOf(particles);
      var i: nat := |particles|;
      while i > 0
        invariant Fading(i, old(particles), s0)
      {
        i := i - 1;
        FadeOne(i, old(particles), s0);
      }
      assert s0[0..] == s0;
    }

    /** What holds between two turns of the particle loop: the particles below
        i are untouched, and those from i on have been updated and filtered. */
    ghost predicate Fading(i: nat, p0: seq<Particle>, s0: seq<Spark>)
      reads this, particles
    {
      i <= |particles| && i <= |p0| && i <= |s0| && Distinct(particles) &&
      (forall m :: 0 <= m < i ==> particles[m] == p0[m]) &&
      (forall p :: p in particles ==> p in p0) &&
      SparksOf(particles) == s0[..i] + Faded(s0[i..])
    }

    /** One turn of the particle loop: particle i is updated and spliced out
        if its alpha has reached 0. */
    method FadeOne(i: nat, ghost p0: seq<Particle>, ghost s0: seq<Spark>)
      requires Fading(i + 1, p0, s0)
      modifies this`particles, p0[i]
      ensures Fading(i, p0, s0)
    {
      FadeStep(s0, i);
      assert SparksOf(particles)[i] == s0[i];
      FadeParticle(i);
      assert particles[i].View() == SparksOf(particles)[i] == Fade(s0[i]);
      if particles[i].alpha <= 0.0 {
        DropParticle(i);
      }
    }

    /** `particles[i].update()`. */
    method FadeParticle(i: nat)
      requires Distinct(particles) && i < |particles|
      modifies particles[i]
      ensures SparksOf(particles) == old(SparksOf(particles))[i := Fade(old(SparksOf(particles))[i])]
    {
      ghost var s := SparksOf(particles);
      particles[i].Update();
      assert forall m :: 0 <= m < |particles| && m != i ==> particles[m] != particles[i];
    }

    /** `particles.splice(i, 1)`. */
    method DropParticle(i: nat)
      requires Distinct(particles) && i < |particles|
      modifies this`particles
      ensures Distinct(particles) && particles == Remove(old(particles), i)
      ensures SparksOf(particles) == Remove(old(SparksOf(particles)), i)
    {
      DistinctRemove(particles, i);
      particles := Remove(particles, i);
    }

    /** The projectile loop of `animate()`: from the last index down, move the
        projectile; the first one found off the screen is spliced out and the
        loop stops there. */
    method CullProjectiles()
      requires Distinct(projectiles)
      modifies this`projectiles, projectiles
      ensures Distinct(projectiles) && forall k :: 0 <= k < |projectiles| ==> projectiles[k] in old(projectiles)
      ensures BodiesOf(projectiles) == CullOffscreen(old(BodiesOf(projectiles)), width, height)
    {
      ghost var s0 := BodiesOf(projectiles);
      var i := |projectiles|;
      while i > 0
        invariant 0 <= i <= |projectiles| == |s0|
        invariant projectiles == old(projectiles)
        invariant BodiesOf(projectiles) == s0[..i] + DriftAll(s0[i..])
        invariant forall k :: i <= k < |s0| ==> !OutOfBounds(Drift(s0[k]), width, height)
      {
        i := i - 1;
        var removed := CullStep(i, s0);
        if removed {
          return;
        }
      }
      NoExitMovesAll(s0, width, height);
      assert s0[0..] == s0;
    }

    /** One turn of the projectile loop: projectile i moves, and if it is now off
        the screen it is spliced out and the loop stops. */
    method CullStep(i: nat, ghost s0: seq<Body>) returns (removed: bool)
      requires Distinct(projectiles) && i < |projectiles| == |s0|
      requires BodiesOf(projectiles) == s0[..i + 1] + DriftAll(s0[i + 1..])
      requires forall k :: i < k < |s0| ==> !OutOfBounds(Drift(s0[k]), width, height)
      modifies this`projectiles, projectiles[i]
      ensures Distinct(projectiles)
      ensures removed ==> BodiesOf(projectiles) == CullOffscreen(s0, width, height)
      ensures removed ==> projectiles == Remove(old(projectiles), i)
      ensures !removed ==> projectiles == old(projectiles) && !OutOfBounds(Drift(s0[i]), width, height)
      ensures !removed ==> BodiesOf(projectiles) == s0[..i] + DriftAll(s0[i..])
    {
      DriftStep(s0, i);
      removed := MoveProjectile(i);
      if removed {
        LastOutIsLastExit(s0, width, height, i);
        DropProjectile(i);
      }
    }

    /** `projectiles[i].update()`, then the test against the canvas edges. */
    method MoveProjectile(i: nat) returns (offscreen: bool)
      requires Distinct(projectiles) && i < |projectiles|
      modifies projectiles[i]
      ensures BodiesOf(projectiles) == old(BodiesOf(projectiles))[i := Drift(old(BodiesOf(projectiles))[i])]
      ensures offscreen == OutOfBounds(Drift(old(BodiesOf(projectiles))[i]), width, height)
    {
      ghost var s := BodiesOf(projectiles);
      var p := projectiles[i];
      p.Update();
      assert forall m :: 0 <= m < |projectiles| && m != i ==> projectiles[m] != p;
      offscreen := OutOfBounds(p.View(), width, height);
    }

    /** `projectiles.splice(i, 1)`. */
    method DropProjectile(i: nat)
      requires Distinct(projectiles) && i < |projectiles|
      modifies this`projectiles
      ensures Distinct(projectiles) && projectiles == Remove(old(projectiles), i)
      ensures BodiesOf(projectiles) == Remove(old(BodiesOf(projectiles)), i)
    {
      DistinctRemove(projectiles, i);
      projectiles := Remove(projectiles, i);
    }

    /** The enemy loop of `animate()`, from the last enemy down. */
    method SweepEnemies(noise: nat -> SparkNoise)
      requires Separate()
      modifies this`enemies, this`projectiles, this`particles, this`score, this`phase, this`modalScore, enemies
      ensures Separate() && OnlyNewObjects()
      ensures phase == old(phase) || phase == GameOver
      ensures SweepView() == SweepFrom(old(SweepView()), |old(enemies)|, player, noise)
    {
      ghost var start := SweepView();
      var i: nat := |enemies|;
      while i > 0
        invariant Sweeping(i, old(enemies), old(phase), start, noise)
        invariant OnlyNewObjects()
      {
        i := i - 1;
        ghost var ps, qs, es := particles, projectiles, enemies;
        SweepOne(i, noise, old(enemies), old(phase), start);
        // An object this turn kept was held at entry or created since: chain the
        // turn's OnlyNewObjects with the loop's, one collection at a time.
        forall k | 0 <= k < |particles| && particles[k] in ps
          ensures particles[k] in old(particles) || fresh(particles[k])
        {
          var j :| 0 <= j < |ps| && ps[j] == particles[k];
        }
        forall k | 0 <= k < |projectiles| && projectiles[k] in qs
          ensures projectiles[k] in old(projectiles) || fresh(projectiles[k])
        {
          var j :| 0 <= j < |qs| && qs[j] == projectiles[k];
        }
        forall k | 0 <= k < |enemies| && enemies[k] in es
          ensures enemies[k] in old(enemies) || fresh(enemies[k])
        {
          var j :| 0 <= j < |es| && es[j] == enemies[k];
        }
      }
      assert SweepFrom(SweepView(), 0, player, noise) == SweepView();
    }

    /** What holds between two turns of the enemy loop with i enemies left to
        resolve: the enemies below i are those the loop started with, and the
        remaining work ends where the whole pass ends. */
    ghost predicate Sweeping(i: nat, e0: seq<Enemy>, phase0: Phase, start: Sweep, noise: nat -> SparkNoise)
      reads this, particles, projectiles, enemies
    {
      i <= |enemies| && i <= |e0| && Separate() &&
      (phase == phase0 || phase == GameOver) &&
      (forall m :: 0 <= m < i ==> enemies[m] == e0[m]) &&
      SweepFrom(SweepView(), i, player, noise) == SweepFrom(start, |start.enemies|, player, noise)
    }

    /** The loop body of SweepEnemies: resolving enemy i leaves the same
        remaining work to do. */
    method SweepOne(i: nat, noise: nat -> SparkNoise, ghost e0: seq<Enemy>, ghost phase0: Phase, ghost start: Sweep)
      requires Sweeping(i + 1, e0, phase0, start, noise)
      modifies this`enemies, this`projectiles, this`particles, this`score, this`phase, this`modalScore, enemies[i]
      ensures Sweeping(i, e0, phase0, start, noise) && OnlyNewObjects()
    {
      ghost var cur := SweepView();
      ResolveEnemy(i, noise);
      SweepAdvance(cur, i, start, |start.enemies|, player, noise);
    }

    /** One turn of the enemy loop: move enemy k, end the game if it touches the
        player, then resolve its collision with at most one projectile. */
    method ResolveEnemy(k: nat, noise: nat -> SparkNoise)
      requires Separate() && k < |enemies|
      modifies this`enemies, this`projectiles, this`particles, this`score, this`phase, this`modalScore, enemies[k]
      ensures Separate() && OnlyNewObjects()
      ensures phase == old(phase) || phase == GameOver
      ensures |enemies| >= k && forall m :: 0 <= m < k ==> enemies[m] == old(enemies)[m]
      ensures SweepView() == SweepStep(old(SweepView()), k, player, noise)
    {
      MoveEnemy(k);
      var hit := FindHit(projectiles, enemies[k].View());
      if hit.Some? {
        StrikeEnemy(k, hit.value, noise);
      }
    }

    /** Enemy k moves; touching the player shows the modal with the current score
        and cancels the next frame. */
    method MoveEnemy(k: nat)
      requires Separate() && k < |enemies|
      modifies this`phase, this`modalScore, enemies[k]
      ensures Separate()
      ensures phase == old(phase) || phase == GameOver
      ensures SweepView() == Approach(old(SweepView()), k, player)
    {
      var enemy := enemies[k];
      enemy.Update();
      assert forall m :: 0 <= m < |enemies| && m != k ==> enemies[m] != enemy;
      if Contact(player, enemy.View()) {
        phase := GameOver;
        modalScore := score;
      }
    }

    /** Projectile j hits enemy k: the damage, then `projectiles.splice(j, 1)`. */
    method StrikeEnemy(k: nat, j: nat, noise: nat -> SparkNoise)
      requires Separate() && k < |enemies| && j < |projectiles|
      modifies this`enemies, this`projectiles, this`particles, this`score, enemies[k]
      ensures Separate() && OnlyNewObjects()
      ensures |enemies| >= k && forall m :: 0 <= m < k ==> enemies[m] == old(enemies)[m]
      ensures SweepView() == Strike(old(SweepView()), k, j, noise)
    {
      DamageEnemy(k, noise);
      DropProjectile(j);
    }

    /** The burst of particles at the enemy, then the score and the shrink or
        removal of the enemy. */
    method DamageEnemy(k: nat, noise: nat -> SparkNoise)
      requires Separate() && k < |enemies|
      modifies this`enemies, this`particles, this`score, enemies[k]
      ensures Separate() && OnlyNewObjects()
      ensures |enemies| >= k && forall m :: 0 <= m < k ==> enemies[m] == old(enemies)[m]
      ensures SweepView() == Damage(old(SweepView()), k, noise)
    {
      EmitBurst(enemies[k].View(), |particles|, noise);
      ScoreHit(k);
    }

    /** The score for the hit, then the shrink or the removal of enemy k. */
    method ScoreHit(k: nat)
      requires Distinct(enemies) && k < |enemies|
      modifies this`enemies, this`score, enemies[k]
      ensures Distinct(enemies) && OnlyNewObjects()
      ensures |enemies| >= k && forall m :: 0 <= m < k ==> enemies[m] == old(enemies)[m]
      ensures EnemiesOf(enemies) == Resize(old(EnemiesOf(enemies)), k)
      ensures score == old(score) + Bonus(HitOutcome(old(enemies[k].r)))
    {
      var outcome := HitOutcome(enemies[k].r);
      score := score + Bonus(outcome);
      if outcome.Shrunk? {
        ShrinkEnemy(k, outcome.radius);
      } else {
        DropEnemy(k);
      }
    }

    /** `enemy.changeSize(r - 10)`, with the tween's end value applied at once. */
    method ShrinkEnemy(k: nat, radius: real)
      requires Distinct(enemies) && k < |enemies|
      modifies enemies[k]
      ensures EnemiesOf(enemies) == old(EnemiesOf(enemies))[k := old(EnemiesOf(enemies))[k].(r := radius)]
    {
      enemies[k].ChangeSize(radius);
      assert forall m :: 0 <= m < |enemies| && m != k ==> enemies[m] != enemies[k];
    }

    /** `enemies.splice(k, 1)`. */
    method DropEnemy(k: nat)
      requires Distinct(enemies) && k < |enemies|
      modifies this`enemies
      ensures Distinct(enemies) && enemies == Remove(old(enemies), k)
      ensures EnemiesOf(enemies) == Remove(old(EnemiesOf(enemies)), k)
    {
      DistinctRemove(enemies, k);
      enemies := Remove(enemies, k);
    }

    /** The particle push of a hit: `for (let i = 0; i < r * 2; i++)` pushes a new
        particle at the enemy's centre; the one that lands at index first + i of the
        particle array takes noise(first + i). */
    method EmitBurst(e: Body, first: nat, noise: nat -> SparkNoise)
      requires Distinct(particles)
      modifies this`particles
      ensures Distinct(particles) && OnlyNewObjects()
      ensures |particles| == |old(particles)| + SparkCount(e.r)
      ensures particles[..|old(particles)|] == old(particles)
      ensures SparksOf(particles) == old(SparksOf(particles)) + Burst(e, first, noise)
    {
      ghost var before := SparksOf(particles);
      ghost var burst := Burst(e, first, noise);
      var i: nat := 0;
      while (i as real) < e.r * 2.0
        invariant i <= SparkCount(e.r)
        invariant |particles| == |old(particles)| + i
        invariant particles[..|old(particles)|] == old(particles)
        invariant Distinct(particles) && OnlyNewObjects()
        invariant SparksOf(particles) == before + burst[..i]
        decreases SparkCount(e.r) - i
      {
        SparkCountIsTripCount(e.r, i);
        var n := noise(first + i);
        var p := new Particle(e.x, e.y, n.size * 2.0, e.color, Spray(n));
        assert burst[i] == Scatter(e, n);
        assert p.View() == burst[i];
        AddParticle(p);
        assert burst[..i + 1] == burst[..i] + [burst[i]];
        i := i + 1;
      }
      SparkCountIsTripCount(e.r, i);
      assert burst[..i] == burst;
    }

    /** `particles.push(p)` of a particle not yet in the array. */
    method AddParticle(p: Particle)
      requires Distinct(particles) && p !in particles
      modifies this`particles
      ensures Distinct(particles) && particles == old(particles) + [p]
      ensures SparksOf(particles) == old(SparksOf(particles)) + [p.View()]
    {
      DistinctAppend(particles, p);
      particles := particles + [p];
    }
  }
}
