/**
 * The sprites of the Star Wars arcade game (starwars/main.py): lasers,
 * thruster particles, explosions and enemy fighters, each as a value with
 * the per-frame `update` of its class, plus the sprite group that holds them
 * and the spawn formulas of the main loop.
 *
 * Positions are exact reals: the integer rounding of pygame's `Rect` is not
 * modelled, so a sprite's rectangle is centred exactly on its position.
 */
module Actors {

  const Width: int := 900
  const Height: int := 600

  datatype Option<T> = None | Some(value: T)

  datatype Vec = Vec(x: real, y: real) {
    function Plus(o: Vec): Vec { Vec(x + o.x, y + o.y) }
    function Times(k: real): Vec { Vec(x * k, y * k) }
  }

  /** Python's `int()` on a float: truncation toward zero. */
  function Trunc(x: real): (n: int)
    ensures 0.0 <= x ==> n as real <= x < n as real + 1.0
    ensures x <= 0.0 ==> n as real - 1.0 < x <= n as real
  {
    if x >= 0.0 then x.Floor else -((-x).Floor)
  }

  lemma TruncMonotone(x: real, y: real)
    requires x <= y
    ensures Trunc(x) <= Trunc(y)
  {
  }

  // ---------------------------------------------------------------- sprite groups

  /**
   * A pygame sprite group, in insertion order.  `kill()` of a member is its
   * removal from the group; group `update` steps every member and keeps the
   * ones that survive.
   */
  class Group<T> {
    var sprites: seq<T>

    constructor ()
      ensures sprites == []
    {
      sprites := [];
    }

    method Add(x: T)
      modifies this
      ensures sprites == old(sprites) + [x]
    {
      sprites := sprites + [x];
    }

    method Empty()
      modifies this
      ensures sprites == []
    {
      sprites := [];
    }

    method Update(step: T -> Option<T>)
      modifies this
      ensures sprites == Survivors(old(sprites), step)
    {
      sprites := Survivors(sprites, step);
    }
  }

  /** Step every sprite of `s` in order; keep the updated value of those not killed. */
  function Survivors<T>(s: seq<T>, step: T -> Option<T>): (r: seq<T>)
    ensures |r| <= |s|
  {
    if s == [] then []
    else (if step(s[0]).Some? then [step(s[0]).value] else []) + Survivors(s[1..], step)
  }

  /**
   * When the step takes every sprite with `p` that it keeps to one with `q`,
   * every survivor of a group whose sprites all have `p` has `q`.
   */
  lemma {:induction false} SurvivorsKeep<T>(s: seq<T>, step: T -> Option<T>, p: T -> bool, q: T -> bool)
    requires forall x :: p(x) && step(x).Some? ==> q(step(x).value)
    requires forall i :: 0 <= i < |s| ==> p(s[i])
    ensures forall i :: 0 <= i < |Survivors(s, step)| ==> q(Survivors(s, step)[i])
  {
    if s != [] {
      SurvivorsKeep(s[1..], step, p, q);
      var head := if step(s[0]).Some? then [step(s[0]).value] else [];
      var r := Survivors(s, step);
      assert r == head + Survivors(s[1..], step);
      forall i | 0 <= i < |r| ensures q(r[i]) {
        if i >= |head| {
          assert r[i] == Survivors(s[1..], step)[i - |head|];
        }
      }
    }
  }

  /** A sprite survives a group update exactly when its own update does not kill it. */
  lemma {:induction false} SurvivorsAllStay<T>(s: seq<T>, step: T -> Option<T>)
    requires forall i :: 0 <= i < |s| ==> step(s[i]).Some?
    ensures |Survivors(s, step)| == |s|
    ensures forall i :: 0 <= i < |s| ==> Survivors(s, step)[i] == step(s[i]).value
  {
    if s != [] {
      SurvivorsAllStay(s[1..], step);
      var r := Survivors(s, step);
      assert r == [step(s[0]).value] + Survivors(s[1..], step);
      forall i | 0 <= i < |s| ensures r[i] == step(s[i]).value {
        if i > 0 {
          assert r[i] == Survivors(s[1..], step)[i - 1];
          assert s[1..][i - 1] == s[i];
        }
      }
    }
  }

  // ---------------------------------------------------------------- lasers

  /** A laser bolt; its 6 by 26 image puts its edges 13 above and below its centre. */
  datatype Laser = Laser(pos: Vec, vel: Vec, damage: int)

  const LaserHalfHeight: real := 13.0

  function NewLaser(pos: Vec, vel: Vec): (l: Laser)
    ensures l.pos == pos && l.vel == vel && l.damage == 1
  {
    Laser(pos, vel, 1)
  }

  /** The kill test of `Laser.update`: bottom above -40 or top below the screen plus 40. */
  predicate LaserGone(l: Laser) {
    l.pos.y + LaserHalfHeight < -40.0 || l.pos.y - LaserHalfHeight > Height as real + 40.0
  }

  /** `Laser.update`: move by `velocity * dt`, then leave if far off the screen. */
  function LaserStep(dt: real): (Laser -> Option<Laser>) {
    (l: Laser) => var moved := LaserMoved(l, dt); if LaserGone(moved) then None else Some(moved)
  }

  function LaserMoved(l: Laser, dt: real): Laser {
    l.(pos := l.pos.Plus(l.vel.Times(dt)))
  }

  /** Every laser in the group lies in the band the kill test keeps. */
  predicate LaserInBand(l: Laser) {
    -53.0 <= l.pos.y <= 653.0 && l.damage == 1
  }

  /**
   * A laser survives its update exactly when its moved centre is within the
   * band from 53 above the screen to 53 below it (40 plus half its height);
   * the survivor has moved by `velocity * dt` and kept its velocity and damage.
   */
  lemma LaserStepBand(l: Laser, dt: real)
    ensures LaserStep(dt)(l).Some? <==> -53.0 <= LaserMoved(l, dt).pos.y <= 653.0
    ensures LaserStep(dt)(l).Some? ==> LaserStep(dt)(l).value == LaserMoved(l, dt)
    ensures LaserMoved(l, dt).vel == l.vel && LaserMoved(l, dt).damage == l.damage
    ensures l.damage == 1 && LaserStep(dt)(l).Some? ==> LaserInBand(LaserStep(dt)(l).value)
  {
  }

  // ---------------------------------------------------------------- thruster particles

  /** A thruster particle: it lives `life` seconds, counted by `timer`. */
  datatype Particle = Particle(pos: Vec, vel: Vec, life: real, timer: real)

  /** The random draws of a new particle: its velocity and its life span. */
  datatype ParticleDraw = ParticleDraw(vx: real, vy: real, life: real)

  predicate ParticleDrawInRange(d: ParticleDraw) {
    -45.0 <= d.vx <= 45.0 && 180.0 <= d.vy <= 260.0 && 0.32 <= d.life <= 0.52
  }

  function NewParticle(pos: Vec, d: ParticleDraw): (p: Particle)
    ensures p.pos == pos && p.vel == Vec(d.vx, d.vy) && p.life == d.life && p.timer == 0.0
  {
    Particle(pos, Vec(d.vx, d.vy), d.life, 0.0)
  }

  /** `ThrusterParticle.update`: age by `dt`, move, and die once the age reaches `life`. */
  function ParticleStep(dt: real): (Particle -> Option<Particle>) {
    (p: Particle) =>
      var aged := p.(timer := p.timer + dt, pos := p.pos.Plus(p.vel.Times(dt)));
      if aged.timer >= aged.life then None else Some(aged)
  }

  /** A live particle is younger than its life span. */
  predicate ParticleLive(p: Particle) {
    0.0 <= p.timer < p.life
  }

  /**
   * A particle survives a step exactly when its new age is below its life,
   * so a live particle stays live over any step of non-negative length; and
   * a step as long as the particle's remaining life always kills it.
   */
  lemma ParticleStepLive(p: Particle, dt: real)
    ensures ParticleStep(dt)(p).Some? <==> p.timer + dt < p.life
    ensures ParticleLive(p) && dt >= 0.0 && ParticleStep(dt)(p).Some? ==> ParticleLive(ParticleStep(dt)(p).value)
    ensures ParticleStep(dt)(p).Some? ==> ParticleStep(dt)(p).value.timer == p.timer + dt
  {
  }

  lemma NewParticleLive(pos: Vec, d: ParticleDraw)
    requires ParticleDrawInRange(d)
    ensures ParticleLive(NewParticle(pos, d))
  {
  }

  // ---------------------------------------------------------------- explosions

  /** An explosion shows the frames of radius 14, 24, ..., 64: `range(14, 70, 10)`. */
  const FrameCount: nat := 6

  function FrameRadius(i: nat): int {
    14 + 10 * i
  }

  /** The frames are exactly those of radius below 70 in steps of 10 from 14. */
  lemma FrameCountIsRange()
    ensures forall i: nat :: i < FrameCount <==> FrameRadius(i) < 70
  {
  }

  datatype Explosion = Explosion(center: Vec, index: nat, timer: real)

  function NewExplosion(center: Vec): (x: Explosion)
    ensures x.center == center && x.index == 0 && x.timer == 0.0
  {
    Explosion(center, 0, 0.0)
  }

  /**
   * `Explosion.update`: the timer runs 18 times as fast as the clock; when it
   * reaches 1 it restarts at 0 and the next frame is shown, and the explosion
   * is over once it moves past the last frame.  The frame is re-centred on the
   * same centre.
   */
  function ExplosionStep(dt: real): (Explosion -> Option<Explosion>) {
    (x: Explosion) =>
      var t := x.timer + dt * 18.0;
      if t >= 1.0 then
        if x.index + 1 >= FrameCount then None else Some(x.(index := x.index + 1, timer := 0.0))
      else Some(x.(timer := t))
  }

  /** A live explosion shows one of its frames and its timer is below 1. */
  predicate ExplosionLive(x: Explosion) {
    x.index < FrameCount && 0.0 <= x.timer < 1.0
  }

  /** Every step of non-negative length keeps a live explosion live, at the same centre, and never goes back a frame. */
  lemma ExplosionStepLive(x: Explosion, dt: real)
    requires ExplosionLive(x) && dt >= 0.0
    ensures ExplosionStep(dt)(x).Some? ==> ExplosionLive(ExplosionStep(dt)(x).value)
    ensures ExplosionStep(dt)(x).Some? ==> ExplosionStep(dt)(x).value.center == x.center
    ensures ExplosionStep(dt)(x).Some? ==> ExplosionStep(dt)(x).value.index in {x.index, x.index + 1}
    ensures ExplosionStep(dt)(x).None? <==> x.index == FrameCount - 1 && x.timer + dt * 18.0 >= 1.0
  {
  }

  /** `n` updates of length `dt` in a row, or `None` once the explosion is over. */
  function ExplosionRun(x: Explosion, dt: real, n: nat): Option<Explosion>
    decreases n
  {
    if n == 0 then Some(x)
    else match ExplosionStep(dt)(x)
      case None => None
      case Some(y) => ExplosionRun(y, dt, n - 1)
  }

  /**
   * With frames of at least 1/18 s, every update shows the next frame: a new
   * explosion shows frame `n` after `n` updates and is over after six.
   */
  lemma {:induction false} ExplosionLifetime(x: Explosion, dt: real, n: nat)
    requires dt * 18.0 >= 1.0 && x.timer == 0.0 && x.index + n <= FrameCount
    ensures x.index + n < FrameCount ==> ExplosionRun(x, dt, n) == Some(x.(index := x.index + n))
    ensures x.index + n == FrameCount && n > 0 ==> ExplosionRun(x, dt, n) == None
    decreases n
  {
    if n > 0 {
      if x.index + 1 < FrameCount {
        var y := x.(index := x.index + 1, timer := 0.0);
        assert ExplosionStep(dt)(x) == Some(y);
        ExplosionLifetime(y, dt, n - 1);
        assert y.(index := y.index + (n - 1)) == x.(index := x.index + n);
      } else {
        assert ExplosionStep(dt)(x) == None;
      }
    }
  }

  // ---------------------------------------------------------------- enemies

  /**
   * A TIE fighter: its centre and velocity, the size of its image, its
   * health, and the phase, speed and amplitude of its zig-zag.
   */
  datatype Enemy = Enemy(
    pos: Vec, vel: Vec, width: int, height: int, health: int,
    phase: real, zigzagSpeed: real, amplitude: real)

  /** `math.tau` as Python prints it: the shortest decimal that reads back as that double. */
  const Tau: real := 6.283185307179586

  /** The random draws of a new enemy, in the order `Enemy.__init__` draws them. */
  datatype EnemyDraw = EnemyDraw(
    scale: real, spawnX: real, vx: real, vy: real,
    phase: real, zigzagSpeed: real, amplitude: real)

  predicate EnemyDrawInRange(d: EnemyDraw) {
    0.7 <= d.scale <= 1.15 && 60.0 <= d.spawnX <= Width as real - 60.0
    && -35.0 <= d.vx <= 35.0 && 140.0 <= d.vy <= 200.0
    && 0.0 <= d.phase <= Tau && 1.4 <= d.zigzagSpeed <= 2.2 && 60.0 <= d.amplitude <= 110.0
  }

  function Left(e: Enemy): real { e.pos.x - e.width as real / 2.0 }
  function Right(e: Enemy): real { Left(e) + e.width as real }
  function Top(e: Enemy): real { e.pos.y - e.height as real / 2.0 }

  /**
   * `Enemy.__init__`: the image is 74 by 64 scaled and truncated; the
   * rectangle's top middle is at `(spawn_x, -height)`, so the fighter starts
   * just above the screen; its speed down is scaled by the difficulty, and
   * its health is `2 + int(difficulty * 0.6)`.
   */
  function NewEnemy(d: EnemyDraw, difficulty: real): (e: Enemy)
    ensures e.health == 2 + Trunc(difficulty * 0.6)
    ensures e.pos.x == d.spawnX && Top(e) == -(e.height as real)
    ensures e.vel == Vec(d.vx, d.vy * difficulty)
  {
    var w := Trunc(74.0 * d.scale);
    var h := Trunc(64.0 * d.scale);
    Enemy(Vec(d.spawnX, -(h as real) / 2.0), Vec(d.vx, d.vy * difficulty), w, h,
          2 + Trunc(difficulty * 0.6), d.phase, d.zigzagSpeed, d.amplitude)
  }

  /**
   * For draws in their ranges and a difficulty of at least 1, a new enemy is
   * 51 to 85 wide and 44 to 73 high, has at least 2 health and moves down at
   * 140 per second or more.
   */
  lemma NewEnemyBounds(d: EnemyDraw, difficulty: real)
    requires EnemyDrawInRange(d) && difficulty >= 1.0
    ensures 51 <= NewEnemy(d, difficulty).width <= 85
    ensures 44 <= NewEnemy(d, difficulty).height <= 73
    ensures NewEnemy(d, difficulty).health >= 2
    ensures NewEnemy(d, difficulty).vel.y >= 140.0
  {
    TruncMonotone(51.0, 74.0 * d.scale);
    TruncMonotone(74.0 * d.scale, 85.1);
    TruncMonotone(44.0, 64.0 * d.scale);
    TruncMonotone(64.0 * d.scale, 73.6);
    TruncMonotone(0.0, difficulty * 0.6);
    assert d.vy * difficulty >= d.vy * 1.0;
  }

  /** The kill test of `Enemy.update`: far below, far left or far right of the screen. */
  predicate EnemyGone(e: Enemy) {
    Top(e) > Height as real + 80.0 || Right(e) < -120.0 || Left(e) > Width as real + 120.0
  }

  /**
   * `Enemy.update`: advance the zig-zag phase, add `sin(phase) * amplitude
   * * dt` to the horizontal move, and leave once far off the screen.  The sine
   * is a parameter: floating-point `math.sin` is not modelled.
   */
  function EnemyStep(dt: real, sine: real -> real): (Enemy -> Option<Enemy>) {
    (e: Enemy) => var moved := EnemyMoved(e, dt, sine); if EnemyGone(moved) then None else Some(moved)
  }

  function EnemyMoved(e: Enemy, dt: real, sine: real -> real): Enemy {
    var phase := e.phase + e.zigzagSpeed * dt;
    var sway := sine(phase) * e.amplitude * dt;
    e.(pos := Vec(e.pos.x + e.vel.x * dt + sway, e.pos.y + e.vel.y * dt), phase := phase)
  }

  /**
   * An update advances the phase by `zigzagSpeed * dt`, moves the enemy by
   * its velocity plus the sway at the new phase, and changes nothing else;
   * the enemy leaves exactly when it is then far off the screen, and
   * otherwise stays as moved.
   */
  lemma EnemyStepKeeps(e: Enemy, dt: real, sine: real -> real)
    ensures EnemyMoved(e, dt, sine) == e.(
      pos := Vec(e.pos.x + e.vel.x * dt + sine(e.phase + e.zigzagSpeed * dt) * e.amplitude * dt,
                 e.pos.y + e.vel.y * dt),
      phase := e.phase + e.zigzagSpeed * dt)
    ensures var m := EnemyMoved(e, dt, sine);
      m.health == e.health && m.vel == e.vel && m.width == e.width && m.height == e.height
      && m.zigzagSpeed == e.zigzagSpeed && m.amplitude == e.amplitude
    ensures EnemyStep(dt, sine)(e).Some? ==>
      EnemyStep(dt, sine)(e).value == EnemyMoved(e, dt, sine) && !EnemyGone(EnemyMoved(e, dt, sine))
    ensures EnemyStep(dt, sine)(e).None? <==> EnemyGone(EnemyMoved(e, dt, sine))
  {
    var phase := e.phase + e.zigzagSpeed * dt;
    var sway := sine(phase) * e.amplitude * dt;
    assert EnemyMoved(e, dt, sine).pos == Vec(e.pos.x + e.vel.x * dt + sway, e.pos.y + e.vel.y * dt);
  }

  /** What `Enemy.hit` leaves: the enemy with less health and, if it was destroyed, its explosion. */
  datatype HitOutcome = HitOutcome(enemy: Enemy, blast: Option<Explosion>)

  /**
   * `Enemy.hit`: take `damage` off the health; at 0 or below add an explosion
   * at the centre and leave the group.  Nothing stops a second hit on an
   * enemy already destroyed: it loses health again and explodes again.
   */
  function Hit(e: Enemy, damage: int): HitOutcome {
    var hurt := e.(health := e.health - damage);
    HitOutcome(hurt, if hurt.health <= 0 then Some(NewExplosion(e.pos)) else None)
  }

  /**
   * A hit takes exactly `damage` off the health and changes nothing else
   * about the enemy; it explodes, at its centre, exactly when the health
   * gets to 0 or below.  A second hit on an enemy the first destroyed
   * explodes it again.
   */
  lemma HitEffect(e: Enemy, damage: int)
    ensures Hit(e, damage).enemy == e.(health := e.health - damage)
    ensures Hit(e, damage).blast.Some? <==> e.health <= damage
    ensures Hit(e, damage).blast.Some? ==> Hit(e, damage).blast.value == NewExplosion(e.pos)
    ensures damage >= 0 && Hit(e, damage).blast.Some? ==> Hit(Hit(e, damage).enemy, damage).blast.Some?
  {
  }

  // ---------------------------------------------------------------- spawning

  /** The time between two spawns: `max(0.38, 1.1 - score / 2400)`. */
  function SpawnInterval(score: real): real {
    if 1.1 - score / 2400.0 > 0.38 then 1.1 - score / 2400.0 else 0.38
  }

  /** The difficulty a new enemy gets: `1.0 + score / 780`. */
  function Difficulty(score: real): real {
    1.0 + score / 780.0
  }

  /** The health of an enemy spawned at `score`: `2 + int(difficulty * 0.6)`. */
  function SpawnHealth(score: real): int {
    2 + Trunc(Difficulty(score) * 0.6)
  }

  /**
   * The spawn interval starts at 1.1 s, never grows as the score grows, and
   * bottoms out at 0.38 s from a score of 1728 on.
   */
  lemma SpawnIntervalFalls(s: real, t: real)
    requires 0.0 <= s <= t
    ensures 0.38 <= SpawnInterval(t) <= SpawnInterval(s) <= 1.1
    ensures SpawnInterval(0.0) == 1.1
    ensures SpawnInterval(t) == 0.38 <==> t >= 1728.0
  {
  }

  /**
   * The health of a spawned enemy is `2 + floor(0.6 + score / 1300)`: it
   * starts at 2 and grows by one every 1300 points, first at 520.
   */
  lemma SpawnHealthFormula(score: real)
    requires score >= 0.0
    ensures forall d :: NewEnemy(d, Difficulty(score)).health == SpawnHealth(score)
    ensures SpawnHealth(score) == 2 + (0.6 + score / 1300.0).Floor
    ensures SpawnHealth(score) >= 2
    ensures SpawnHealth(score) >= 3 <==> score >= 520.0
  {
    assert Difficulty(score) * 0.6 == 0.6 + score / 1300.0;
  }

  /** The values at a few scores. */
  lemma SpawnTable()
    ensures SpawnInterval(0.0) == 1.1 && SpawnHealth(0.0) == 2
    ensures SpawnInterval(1200.0) == 0.6 && SpawnHealth(1200.0) == 3
    ensures SpawnInterval(2400.0) == 0.38 && SpawnHealth(2400.0) == 4
    ensures SpawnInterval(4800.0) == 0.38 && SpawnHealth(4800.0) == 6
  {
    SpawnHealthFormula(0.0);
    SpawnHealthFormula(1200.0);
    SpawnHealthFormula(2400.0);
    SpawnHealthFormula(4800.0);
  }
}
