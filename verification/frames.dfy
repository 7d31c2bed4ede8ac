/** One frame of `animate()` and the session around it, as pure functions over
    a snapshot of the game: the three collections, the score, the phase and the
    score shown in the game-over modal. */
module Frames {
  import opened Entities
  import opened Seqs
  import opened Collisions
  import opened Particles
  import opened Projectiles
  import opened Spawning

  /** Before the first start, while frames are scheduled, and after contact. */
  datatype Phase = Idle | Running | GameOver

  datatype World = World(
    particles: seq<Spark>,
    projectiles: seq<Body>,
    enemies: seq<Body>,
    score: int,
    phase: Phase,
    modalScore: int)

  /** The state the enemy pass works on: besides enemies, projectiles and score,
      the particles it has pushed so far, whether some enemy has reached the
      player, and the score last written into the modal. */
  datatype Sweep = Sweep(
    enemies: seq<Body>,
    projectiles: seq<Body>,
    sparks: seq<Spark>,
    score: int,
    over: bool,
    modalScore: int)

  /** Enemy k moves; if it then touches the player the game is over and the
      modal shows the score so far. */
  function Approach(st: Sweep, k: nat, player: Player): (r: Sweep)
    requires k < |st.enemies|
    ensures |r.enemies| == |st.enemies|
  {
    var e := Drift(st.enemies[k]);
    var touched := Contact(player, e);
    st.(enemies := st.enemies[k := e],
        over := st.over || touched,
        modalScore := if touched then st.score else st.modalScore)
  }

  /** The enemy list after enemy k is hit: it shrinks in place, or it is
      spliced out. The enemies below k stay where they are. */
  function Resize(es: seq<Body>, k: nat): (r: seq<Body>)
    requires k < |es|
    ensures |r| >= k && r[..k] == es[..k]
    ensures HitOutcome(es[k].r).Shrunk? ==> |r| == |es| && r[k].r == es[k].r - SHRINK_STEP
    ensures HitOutcome(es[k].r).Destroyed? ==> |r| == |es| - 1
  {
    var e := es[k];
    match HitOutcome(e.r)
    case Shrunk(radius) => es[k := e.(r := radius)]
    case Destroyed => Remove(es, k)
  }

  /** What a hit does to enemy k: a burst of particles is pushed, and the enemy
      either shrinks (100 points) or is removed (250 points). */
  function Damage(st: Sweep, k: nat, noise: nat -> SparkNoise): (r: Sweep)
    requires k < |st.enemies|
    ensures |r.enemies| >= k && r.enemies[..k] == st.enemies[..k]
  {
    var e := st.enemies[k];
    st.(enemies := Resize(st.enemies, k),
        sparks := st.sparks + Burst(e, |st.sparks|, noise),
        score := st.score + Bonus(HitOutcome(e.r)))
  }

  /** Projectile j hits enemy k: the damage, then the projectile is removed. */
  function Strike(st: Sweep, k: nat, j: nat, noise: nat -> SparkNoise): (r: Sweep)
    requires k < |st.enemies| && j < |st.projectiles|
    ensures |r.enemies| >= k && r.enemies[..k] == st.enemies[..k]
  {
    Damage(st, k, noise).(projectiles := Remove(st.projectiles, j))
  }

  /** The enemy pass on enemy k: it moves and is checked against the player, then
      the highest-index projectile hitting it, if any, strikes it. */
  function SweepStep(st: Sweep, k: nat, player: Player, noise: nat -> SparkNoise): (r: Sweep)
    requires k < |st.enemies|
    ensures |r.enemies| >= k && r.enemies[..k] == st.enemies[..k]
  {
    var seen := Approach(st, k, player);
    match LastHit(seen.projectiles, seen.enemies[k])
    case None => seen
    case Some(j) => Strike(seen, k, j, noise)
  }

  /** The enemy pass over indices i - 1 down to 0. */
  function SweepFrom(st: Sweep, i: nat, player: Player, noise: nat -> SparkNoise): Sweep
    requires i <= |st.enemies|
    decreases i
  {
    if i == 0 then st
    else SweepFrom(SweepStep(st, i - 1, player, noise), i - 1, player, noise)
  }

  /** One turn of the enemy loop leaves the same remaining work to do. */
  lemma SweepAdvance(cur: Sweep, i: nat, start: Sweep, n: nat, player: Player, noise: nat -> SparkNoise)
    requires i < |cur.enemies| && n <= |start.enemies|
    requires SweepFrom(cur, i + 1, player, noise) == SweepFrom(start, n, player, noise)
    ensures SweepFrom(SweepStep(cur, i, player, noise), i, player, noise) == SweepFrom(start, n, player, noise)
  {
  }

  /** What the enemy pass of a frame starts from: the particles after their own
      pass, the projectiles after theirs. */
  function InitialSweep(w: World, width: real, height: real): Sweep {
    Sweep(w.enemies, CullOffscreen(w.projectiles, width, height), Faded(w.particles),
          w.score, w.phase == GameOver, w.modalScore)
  }

  /** One frame: the particle pass, the projectile pass, then the enemy pass,
      which pushes its particles after the surviving ones. */
  function Tick(w: World, width: real, height: real, player: Player, noise: nat -> SparkNoise): World {
    var sw := SweepFrom(InitialSweep(w, width, height), |w.enemies|, player, noise);
    World(sw.sparks, sw.projectiles, sw.enemies, sw.score,
          if sw.over then GameOver else w.phase, sw.modalScore)
  }

  /** The hit rule. When the moved enemy k is hit by projectile j: exactly that
      projectile goes, ceil(2r) particles are pushed after the existing ones, and
      either r - 10 > 10, the score grows by exactly 100 and the enemy stays with
      radius r - 10, or the score grows by exactly 250 and the enemy is removed. */
  lemma HitRule(st: Sweep, k: nat, player: Player, noise: nat -> SparkNoise)
    requires k < |st.enemies|
    requires LastHit(st.projectiles, Drift(st.enemies[k])).Some?
    ensures var e := Drift(st.enemies[k]);
      var j := LastHit(st.projectiles, e).value;
      var r := SweepStep(st, k, player, noise);
      r.projectiles == Remove(st.projectiles, j) &&
      |r.sparks| == |st.sparks| + SparkCount(e.r) && r.sparks[..|st.sparks|] == st.sparks &&
      (e.r - 10.0 > 10.0 ==>
        r.score == st.score + 100 && r.enemies == st.enemies[k := e.(r := e.r - 10.0)]) &&
      (!(e.r - 10.0 > 10.0) ==>
        r.score == st.score + 250 && r.enemies == Remove(st.enemies, k))
  {
  }

  /** An enemy that no projectile hits only moves: projectiles, particles and
      score are untouched. */
  lemma MissRule(st: Sweep, k: nat, player: Player, noise: nat -> SparkNoise)
    requires k < |st.enemies|
    requires LastHit(st.projectiles, Drift(st.enemies[k])).None?
    ensures var r := SweepStep(st, k, player, noise);
      r.projectiles == st.projectiles && r.sparks == st.sparks && r.score == st.score &&
      r.enemies == st.enemies[k := Drift(st.enemies[k])]
  {
  }

  /** Score bookkeeping of the enemy pass. Each enemy uses up at most one
      projectile; each destroyed enemy is one hit; the score grows by 100 per hit
      that only shrank its enemy and 250 per destroyed enemy, so it never falls. */
  lemma {:induction false} SweepAccounting(st: Sweep, i: nat, player: Player, noise: nat -> SparkNoise)
    requires i <= |st.enemies|
    ensures var r := SweepFrom(st, i, player, noise);
      var kills := |st.enemies| - |r.enemies|;
      var hits := |st.projectiles| - |r.projectiles|;
      0 <= kills <= hits <= i &&
      r.score - st.score == SHRINK_BONUS * (hits - kills) + DESTROY_BONUS * kills &&
      r.score >= st.score
    decreases i
  {
    if i > 0 {
      var st' := SweepStep(st, i - 1, player, noise);
      StepAccounting(st, i - 1, player, noise);
      SweepAccounting(st', i - 1, player, noise);
    }
  }

  /** The same bookkeeping for one turn of the enemy loop. */
  lemma StepAccounting(st: Sweep, k: nat, player: Player, noise: nat -> SparkNoise)
    requires k < |st.enemies|
    ensures var r := SweepStep(st, k, player, noise);
      var kills := |st.enemies| - |r.enemies|;
      var hits := |st.projectiles| - |r.projectiles|;
      0 <= kills <= hits <= 1 && |r.enemies| >= k &&
      r.score - st.score == SHRINK_BONUS * (hits - kills) + DESTROY_BONUS * kills
  {
    if LastHit(st.projectiles, Drift(st.enemies[k])).Some? {
      HitRule(st, k, player, noise);
    } else {
      MissRule(st, k, player, noise);
    }
  }

  /** The game ends in a frame exactly when some enemy, once moved, touches the player. */
  lemma {:induction false} SweepContact(st: Sweep, i: nat, player: Player, noise: nat -> SparkNoise)
    requires i <= |st.enemies|
    ensures SweepFrom(st, i, player, noise).over <==>
      st.over || exists k :: 0 <= k < i && Contact(player, Drift(st.enemies[k]))
    decreases i
  {
    if i > 0 {
      var st' := SweepStep(st, i - 1, player, noise);
      SweepContact(st', i - 1, player, noise);
      forall k | 0 <= k < i - 1 ensures st'.enemies[k] == st.enemies[k] {
        assert st'.enemies[..i - 1][k] == st.enemies[..i - 1][k];
      }
    }
  }

  /** The modal is only written when an enemy touches the player, with the score
      at that moment: so it never shows more than the score at the end of the
      pass, nor less than the score at its start. */
  lemma {:induction false} SweepModal(st: Sweep, i: nat, player: Player, noise: nat -> SparkNoise)
    requires i <= |st.enemies|
    ensures var r := SweepFrom(st, i, player, noise);
      r.modalScore == st.modalScore || st.score <= r.modalScore <= r.score
    decreases i
  {
    if i > 0 {
      var st' := SweepStep(st, i - 1, player, noise);
      SweepModal(st', i - 1, player, noise);
      SweepAccounting(st', i - 1, player, noise);
    }
  }

  lemma StepKeepsEnemySize(st: Sweep, k: nat, player: Player, noise: nat -> SparkNoise)
    requires k < |st.enemies|
    requires forall e :: e in st.enemies ==> e.r >= ENEMY_MIN_RADIUS
    ensures forall e :: e in SweepStep(st, k, player, noise).enemies ==> e.r >= ENEMY_MIN_RADIUS
  {
    var r := SweepStep(st, k, player, noise);
    var e := Drift(st.enemies[k]);
    forall x | x in r.enemies ensures x.r >= ENEMY_MIN_RADIUS {
      var m :| 0 <= m < |r.enemies| && r.enemies[m] == x;
      match LastHit(st.projectiles, e)
      case None =>
        if m != k { assert x == st.enemies[m]; }
      case Some(j) =>
        if HitOutcome(e.r).Shrunk? {
          if m != k { assert x == st.enemies[m]; }
        } else {
          assert x == st.enemies[if m < k then m else m + 1];
        }
    }
  }

  lemma StepOnlyRemovesProjectiles(st: Sweep, k: nat, player: Player, noise: nat -> SparkNoise)
    requires k < |st.enemies|
    ensures forall b :: b in SweepStep(st, k, player, noise).projectiles ==> b in st.projectiles
  {
    var r := SweepStep(st, k, player, noise);
    match LastHit(st.projectiles, Drift(st.enemies[k]))
    case None =>
    case Some(j) =>
      forall b | b in r.projectiles ensures b in st.projectiles {
        var m :| 0 <= m < |r.projectiles| && r.projectiles[m] == b;
        assert b == st.projectiles[if m < j then m else m + 1];
      }
  }

  lemma StepPushesOpaque(st: Sweep, k: nat, player: Player, noise: nat -> SparkNoise)
    requires k < |st.enemies|
    ensures var r := SweepStep(st, k, player, noise);
      |r.sparks| >= |st.sparks| && r.sparks[..|st.sparks|] == st.sparks &&
      (forall m :: |st.sparks| <= m < |r.sparks| ==> r.sparks[m].alpha == FULL_ALPHA)
  {
    var r := SweepStep(st, k, player, noise);
    var e := Drift(st.enemies[k]);
    match LastHit(st.projectiles, e)
    case None =>
    case Some(j) =>
      forall m | |st.sparks| <= m < |r.sparks| ensures r.sparks[m].alpha == FULL_ALPHA {
        var i := m - |st.sparks|;
        assert r.sparks[m] == Burst(e, |st.sparks|, noise)[i] == Scatter(e, noise(|st.sparks| + i));
      }
  }

  /** The enemy pass keeps every enemy at radius 10 or more, only removes
      projectiles, keeps the particles it found and pushes only fully opaque ones. */
  lemma {:induction false} SweepKeepsShapes(st: Sweep, i: nat, player: Player, noise: nat -> SparkNoise)
    requires i <= |st.enemies|
    requires forall e :: e in st.enemies ==> e.r >= ENEMY_MIN_RADIUS
    ensures var r := SweepFrom(st, i, player, noise);
      (forall e :: e in r.enemies ==> e.r >= ENEMY_MIN_RADIUS) &&
      (forall b :: b in r.projectiles ==> b in st.projectiles) &&
      |r.sparks| >= |st.sparks| && r.sparks[..|st.sparks|] == st.sparks &&
      (forall m :: |st.sparks| <= m < |r.sparks| ==> r.sparks[m].alpha == FULL_ALPHA)
    decreases i
  {
    if i > 0 {
      var st' := SweepStep(st, i - 1, player, noise);
      StepKeepsEnemySize(st, i - 1, player, noise);
      StepOnlyRemovesProjectiles(st, i - 1, player, noise);
      StepPushesOpaque(st, i - 1, player, noise);
      SweepKeepsShapes(st', i - 1, player, noise);
      OpaqueSuffixCompose(st.sparks, st'.sparks, SweepFrom(st', i - 1, player, noise).sparks);
    }
  }

  /** Keeping a prefix and appending only opaque particles composes. */
  lemma OpaqueSuffixCompose(a: seq<Spark>, b: seq<Spark>, c: seq<Spark>)
    requires |b| >= |a| && b[..|a|] == a && forall m :: |a| <= m < |b| ==> b[m].alpha == FULL_ALPHA
    requires |c| >= |b| && c[..|b|] == b && forall m :: |b| <= m < |c| ==> c[m].alpha == FULL_ALPHA
    ensures |c| >= |a| && c[..|a|] == a && forall m :: |a| <= m < |c| ==> c[m].alpha == FULL_ALPHA
  {
    assert c[..|a|] == c[..|b|][..|a|];
    forall m | |a| <= m < |c| ensures c[m].alpha == FULL_ALPHA {
      if m < |b| {
        assert c[m] == c[..|b|][m] == b[m];
      }
    }
  }

  /** What holds between frames: every particle is visible, every projectile has
      the projectile radius, every enemy is at least the minimum radius, and the
      score is a non-negative multiple of 50. */
  ghost predicate Healthy(w: World) {
    (forall p :: p in w.particles ==> Alive(p)) &&
    (forall b :: b in w.projectiles ==> b.r == PROJECTILE_RADIUS) &&
    (forall e :: e in w.enemies ==> e.r >= ENEMY_MIN_RADIUS) &&
    0 <= w.score && w.score % 50 == 0
  }

  /** A frame never lowers the score: it rises by exactly 100 for every hit that
      only shrank an enemy and 250 for every enemy destroyed, each hit using up
      one projectile, at most one per enemy. */
  lemma TickScore(w: World, width: real, height: real, player: Player, noise: nat -> SparkNoise)
    ensures var w' := Tick(w, width, height, player, noise);
      var kills := |w.enemies| - |w'.enemies|;
      var hits := |CullOffscreen(w.projectiles, width, height)| - |w'.projectiles|;
      0 <= kills <= hits <= |w.enemies| &&
      w'.score - w.score == SHRINK_BONUS * (hits - kills) + DESTROY_BONUS * kills &&
      w'.score >= w.score
  {
    SweepAccounting(InitialSweep(w, width, height), |w.enemies|, player, noise);
  }

  /** A frame ends the game exactly when some enemy, after its move, touches the
      player (or the game was already over); otherwise the phase is unchanged. */
  lemma TickGameOver(w: World, width: real, height: real, player: Player, noise: nat -> SparkNoise)
    ensures var w' := Tick(w, width, height, player, noise);
      (w'.phase == GameOver <==>
        w.phase == GameOver || exists k :: 0 <= k < |w.enemies| && Contact(player, Drift(w.enemies[k]))) &&
      (w'.phase == w.phase || w'.phase == GameOver)
  {
    SweepContact(InitialSweep(w, width, height), |w.enemies|, player, noise);
  }

  /** The score in the modal lies between the score before the frame and after it. */
  lemma TickModal(w: World, width: real, height: real, player: Player, noise: nat -> SparkNoise)
    ensures var w' := Tick(w, width, height, player, noise);
      w'.modalScore == w.modalScore || w.score <= w'.modalScore <= w'.score
  {
    SweepModal(InitialSweep(w, width, height), |w.enemies|, player, noise);
  }

  /** Healthy, stated on the state of the enemy pass. */
  ghost predicate SweepHealthy(st: Sweep) {
    (forall p :: p in st.sparks ==> Alive(p)) &&
    (forall b :: b in st.projectiles ==> b.r == PROJECTILE_RADIUS) &&
    (forall e :: e in st.enemies ==> e.r >= ENEMY_MIN_RADIUS) &&
    0 <= st.score && st.score % 50 == 0
  }

  /** One turn of the enemy loop keeps the between-frames invariant. */
  lemma StepKeepsHealth(st: Sweep, k: nat, player: Player, noise: nat -> SparkNoise)
    requires k < |st.enemies| && SweepHealthy(st)
    ensures SweepHealthy(SweepStep(st, k, player, noise))
  {
    var r := SweepStep(st, k, player, noise);
    StepKeepsEnemySize(st, k, player, noise);
    StepOnlyRemovesProjectiles(st, k, player, noise);
    StepPushesOpaque(st, k, player, noise);
    assert r.sparks == st.sparks + r.sparks[|st.sparks|..];
    AllAliveAppend(st.sparks, r.sparks[|st.sparks|..]);
    var e := Drift(st.enemies[k]);
    if LastHit(st.projectiles, e).Some? {
      HitRule(st, k, player, noise);
      ScoreStaysMultiple(st.score, r.score, if e.r - 10.0 > 10.0 then 1 else 0, if e.r - 10.0 > 10.0 then 0 else 1);
    } else {
      MissRule(st, k, player, noise);
    }
  }

  /** The enemy pass keeps the between-frames invariant. */
  lemma {:induction false} SweepKeepsHealth(st: Sweep, i: nat, player: Player, noise: nat -> SparkNoise)
    requires i <= |st.enemies| && SweepHealthy(st)
    ensures SweepHealthy(SweepFrom(st, i, player, noise))
    decreases i
  {
    if i > 0 {
      StepKeepsHealth(st, i - 1, player, noise);
      SweepKeepsHealth(SweepStep(st, i - 1, player, noise), i - 1, player, noise);
    }
  }

  /** A frame keeps the between-frames invariant. */
  lemma TickHealthy(w: World, width: real, height: real, player: Player, noise: nat -> SparkNoise)
    requires Healthy(w)
    ensures Healthy(Tick(w, width, height, player, noise))
  {
    var st := InitialSweep(w, width, height);
    FadedAlive(w.particles);
    forall b | b in st.projectiles ensures b.r == PROJECTILE_RADIUS {
      CullKeepsProjectiles(w.projectiles, width, height, b);
    }
    SweepKeepsHealth(st, |w.enemies|, player, noise);
  }

  lemma ScoreStaysMultiple(before: int, after: int, shrinks: nat, kills: nat)
    requires 0 <= before && before % 50 == 0
    requires after - before == SHRINK_BONUS * shrinks + DESTROY_BONUS * kills
    ensures 0 <= after && after % 50 == 0
  {
    assert after == 50 * (before / 50 + 2 * shrinks + 5 * kills);
  }

  lemma AllAliveAppend(kept: seq<Spark>, pushed: seq<Spark>)
    requires forall p :: p in kept ==> Alive(p)
    requires forall m :: 0 <= m < |pushed| ==> pushed[m].alpha == FULL_ALPHA
    ensures forall p :: p in kept + pushed ==> Alive(p)
  {
    forall p | p in kept + pushed ensures Alive(p) {
      if p !in kept {
        var m :| 0 <= m < |pushed| && pushed[m] == p;
      }
    }
  }

  /** The first frame after a start finds nothing to do. */
  lemma TickOfEmpty(width: real, height: real, player: Player, noise: nat -> SparkNoise, modalScore: int)
    ensures var w := World([], [], [], 0, Running, modalScore);
      Tick(w, width, height, player, noise) == w
  {
    var w := World([], [], [], 0, Running, modalScore);
    assert CullOffscreen([], width, height) == [];
  }

  // ---- The session: what the page does between and around frames ----

  /** Where the player is and how big the canvas is, fixed at load time. */
  datatype Stage = Stage(width: real, height: real, player: Player)

  /** The player at the centre of the canvas. */
  function StageFor(width: real, height: real): Stage {
    Stage(width, height, Player(width / 2.0, height / 2.0, PLAYER_RADIUS))
  }

  /** The things that can happen to the page: a display refresh, a spawner tick,
      a click on the canvas (with the unit vector towards the click) and a click
      on the start button. */
  datatype Event =
    | Refresh(noise: nat -> SparkNoise)
    | SpawnTick(spawn: SpawnNoise, heading: Velocity, color: string)
    | Click(direction: Velocity)
    | StartClick(noise: nat -> SparkNoise)

  /** The page as it is right after loading. */
  function Loaded(): World {
    World([], [], [], 0, Idle, 0)
  }

  /** `gameReset()`: all three collections emptied, the score set to 0. */
  function Reset(w: World): (w': World)
    ensures w'.particles == [] && w'.projectiles == [] && w'.enemies == [] && w'.score == 0
    ensures w'.phase == w.phase && w'.modalScore == w.modalScore
  {
    w.(particles := [], projectiles := [], enemies := [], score := 0)
  }

  /** The effect of one event. A refresh runs a frame only while the game runs;
      the spawner and the canvas click work in every phase; the start button
      hides the modal, resets and runs the first frame at once. */
  function Step(st: Stage, w: World, ev: Event): World {
    match ev
    case Refresh(noise) =>
      if w.phase == Running then Tick(w, st.width, st.height, st.player, noise) else w
    case SpawnTick(n, heading, color) =>
      w.(enemies := w.enemies + [Spawned(n, heading, color, st.width, st.height)])
    case Click(dir) =>
      w.(projectiles := w.projectiles +
           [Body(st.player.x, st.player.y, PROJECTILE_RADIUS, "salmon",
                 Velocity(PROJECTILE_SPD * dir.x, PROJECTILE_SPD * dir.y))])
    case StartClick(noise) =>
      Tick(Reset(w).(phase := Running), st.width, st.height, st.player, noise)
  }

  function Run(st: Stage, w: World, evs: seq<Event>): World
    decreases |evs|
  {
    if evs == [] then w else Run(st, Step(st, w, evs[0]), evs[1..])
  }

  /** A start click always leads to an empty running game with score 0. */
  lemma StartClears(st: Stage, w: World, noise: nat -> SparkNoise)
    ensures Step(st, w, StartClick(noise)) == World([], [], [], 0, Running, w.modalScore)
  {
    TickOfEmpty(st.width, st.height, st.player, noise, w.modalScore);
  }

  /** Between two resets the score never decreases. */
  lemma {:induction false} ScoreNeverFallsBetweenResets(st: Stage, w: World, evs: seq<Event>)
    requires forall i :: 0 <= i < |evs| ==> !evs[i].StartClick?
    ensures Run(st, w, evs).score >= w.score
    decreases |evs|
  {
    if evs != [] {
      var w' := Step(st, w, evs[0]);
      if evs[0].Refresh? && w.phase == Running {
        TickScore(w, st.width, st.height, st.player, evs[0].noise);
      }
      ScoreNeverFallsBetweenResets(st, w', evs[1..]);
    }
  }

  /** Every event keeps the between-frames invariant. */
  lemma StepHealthy(st: Stage, w: World, ev: Event)
    requires Healthy(w)
    ensures Healthy(Step(st, w, ev))
  {
    match ev
    case Refresh(noise) =>
      if w.phase == Running {
        TickHealthy(w, st.width, st.height, st.player, noise);
      }
    case SpawnTick(n, heading, color) =>
    case Click(dir) =>
    case StartClick(noise) =>
      StartClears(st, w, noise);
  }

  /** From loading on, the invariant holds after any sequence of events. */
  lemma {:induction false} RunHealthy(st: Stage, w: World, evs: seq<Event>)
    requires Healthy(w)
    ensures Healthy(Run(st, w, evs))
    decreases |evs|
  {
    if evs != [] {
      StepHealthy(st, w, evs[0]);
      RunHealthy(st, Step(st, w, evs[0]), evs[1..]);
    }
  }
}
