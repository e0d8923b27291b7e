/**
 * The game state and the per-frame body of the main loop of
 * starwars/main.py: the sprite groups, the score, the spawn timer and the
 * game-over flag that `main` keeps, `reset_game_state`, and one pass of the
 * `while running` loop after the events have been read.
 *
 * Everything the frame needs from outside is an input: the frame time, the
 * restart key, the steered velocity and fire key, the random draws, and the
 * geometry of the frame (which laser rectangles overlap which enemy
 * rectangles, which enemy circles overlap the player's, and `math.sin`).
 */
module GameLoop {
  import opened Actors
  import opened Pilot

  /** Everything one frame changes: the ship, the four groups and the loop's own variables. */
  datatype World = World(
    pilot: Pilot, lasers: seq<Laser>, enemies: seq<Enemy>, explosions: seq<Explosion>,
    trails: seq<Particle>, score: real, spawnTimer: real, gameOver: bool, gameOverTime: real)

  /** The state `main` starts in and `reset_game_state` returns to. */
  const NewGame: World := World(Fresh, [], [], [], [], 0.0, 0.0, false, 0.0)

  /** The inputs of one frame: its length, whether SPACE or RETURN was pressed, the ship's controls and the random draws. */
  datatype Frame = Frame(dt: real, restart: bool, controls: Controls, spawn: EnemyDraw, recoilX: real)

  predicate FrameInRange(f: Frame) {
    f.dt >= 0.0 && ControlsInRange(f.controls) && EnemyDrawInRange(f.spawn) && -220.0 <= f.recoilX <= 220.0
  }

  /**
   * The geometry of a frame: `overlap(e, l)` when laser `l`'s rectangle meets
   * enemy `e`'s, `impact(p, e)` when circles around the ship at `p` and around
   * `e` meet, and the sine function of the zig-zag.
   */
  datatype Geometry = Geometry(overlap: (Enemy, Laser) -> bool, impact: (Vec, Enemy) -> bool, sine: real -> real)

  /**
   * The invariant of play: the ship is valid, the game is over exactly when
   * its shields are gone, and every laser is in its band, every enemy has
   * health and every explosion and trail particle is live.
   */
  ghost predicate WorldValid(w: World) {
    PilotValid(w.pilot)
    && (w.gameOver <==> w.pilot.shield == 0)
    && w.score >= 0.0 && w.spawnTimer >= 0.0 && w.gameOverTime >= 0.0
    && (forall i :: 0 <= i < |w.lasers| ==> LaserInBand(w.lasers[i]))
    && (forall i :: 0 <= i < |w.enemies| ==> w.enemies[i].health >= 1)
    && (forall i :: 0 <= i < |w.explosions| ==> ExplosionLive(w.explosions[i]))
    && (forall i :: 0 <= i < |w.trails| ==> ParticleLive(w.trails[i]))
  }

  // ---------------------------------------------------------------- generic filters

  function Not<T>(p: T -> bool): T -> bool {
    x => !p(x)
  }

  function Both<T>(p: T -> bool, q: T -> bool): T -> bool {
    x => p(x) && q(x)
  }

  /** The elements of `s` that satisfy `p`, in order. */
  function Keep<T>(s: seq<T>, p: T -> bool): (r: seq<T>)
    ensures |r| <= |s|
    ensures forall x :: x in r ==> x in s && p(x)
  {
    if s == [] then [] else (if p(s[0]) then [s[0]] else []) + Keep(s[1..], p)
  }

  lemma {:induction false} KeepSame<T>(s: seq<T>, p: T -> bool, q: T -> bool)
    requires forall x :: p(x) == q(x)
    ensures Keep(s, p) == Keep(s, q)
  {
    if s != [] {
      KeepSame(s[1..], p, q);
    }
  }

  lemma {:induction false} KeepTwice<T>(s: seq<T>, p: T -> bool, q: T -> bool)
    ensures Keep(Keep(s, p), q) == Keep(s, Both(p, q))
  {
    if s != [] {
      KeepTwice(s[1..], p, q);
      var head := if p(s[0]) then [s[0]] else [];
      WithHead(head, Keep(s[1..], p), q);
    }
  }

  lemma WithHead<T>(head: seq<T>, rest: seq<T>, q: T -> bool)
    requires |head| <= 1
    ensures Keep(head + rest, q) == Keep(head, q) + Keep(rest, q)
  {
    if head != [] {
      assert (head + rest)[1..] == rest;
      assert head[1..] == [];
    } else {
      assert head + rest == rest;
    }
  }

  /** Every element is kept by exactly one of `p` and its negation. */
  lemma {:induction false} KeepSplit<T>(s: seq<T>, p: T -> bool)
    ensures |Keep(s, p)| + |Keep(s, Not(p))| == |s|
  {
    if s != [] {
      KeepSplit(s[1..], p);
    }
  }

  function Sum(s: seq<nat>): nat {
    if s == [] then 0 else s[0] + Sum(s[1..])
  }

  function Repeat<T>(x: T, n: nat): (r: seq<T>)
    ensures |r| == n && forall i :: 0 <= i < n ==> r[i] == x
  {
    if n == 0 then [] else Repeat(x, n - 1) + [x]
  }

  // ---------------------------------------------------------------- lasers against enemies

  /** The result of `groupcollide(enemies, lasers, False, True)`: hits per enemy and the lasers left. */
  datatype Collisions = Collisions(hits: seq<nat>, lasers: seq<Laser>)

  /**
   * pygame's `groupcollide` with the second group's sprites killed: each
   * enemy in turn collects the remaining lasers that overlap it, and those
   * lasers leave the group at once, so no laser hits two enemies.
   */
  function GroupCollide(es: seq<Enemy>, ls: seq<Laser>, overlap: (Enemy, Laser) -> bool): (c: Collisions)
    ensures |c.hits| == |es|
  {
    if es == [] then Collisions([], ls)
    else
      var mine := Keep(ls, Meets(es[0], overlap));
      var rest := GroupCollide(es[1..], Keep(ls, Not(Meets(es[0], overlap))), overlap);
      Collisions([|mine|] + rest.hits, rest.lasers)
  }

  /** A laser that overlaps `e`, and one that does not. */
  function Meets(e: Enemy, overlap: (Enemy, Laser) -> bool): Laser -> bool {
    l => overlap(e, l)
  }

  /** A laser that overlaps none of `es`. */
  function Untouched(es: seq<Enemy>, overlap: (Enemy, Laser) -> bool): Laser -> bool {
    l => forall i :: 0 <= i < |es| ==> !overlap(es[i], l)
  }

  /** The lasers left after the collisions are exactly the lasers that overlap no enemy, in their order. */
  lemma {:induction false} CollideLasers(es: seq<Enemy>, ls: seq<Laser>, overlap: (Enemy, Laser) -> bool)
    ensures GroupCollide(es, ls, overlap).lasers == Keep(ls, Untouched(es, overlap))
  {
    if es == [] {
      KeepEvery(ls, Untouched(es, overlap));
    } else {
      var p := Not(Meets(es[0], overlap));
      var q := Untouched(es[1..], overlap);
      CollideLasers(es[1..], Keep(ls, p), overlap);
      KeepTwice(ls, p, q);
      forall l ensures (p(l) && q(l)) == Untouched(es, overlap)(l) {
        UntouchedCons(es, overlap, l);
      }
      KeepSame(ls, Both(p, q), Untouched(es, overlap));
    }
  }

  lemma UntouchedCons(es: seq<Enemy>, overlap: (Enemy, Laser) -> bool, l: Laser)
    requires es != []
    ensures Untouched(es, overlap)(l) == (Not(Meets(es[0], overlap))(l) && Untouched(es[1..], overlap)(l))
  {
    if Not(Meets(es[0], overlap))(l) && Untouched(es[1..], overlap)(l) {
      forall i | 0 <= i < |es| ensures !overlap(es[i], l) {
        if i > 0 {
          assert es[1..][i - 1] == es[i];
        }
      }
    }
    if Untouched(es, overlap)(l) {
      forall i | 0 <= i < |es[1..]| ensures !overlap(es[1..][i], l) {
        assert es[1..][i] == es[i + 1];
      }
    }
  }

  /** Every laser the collisions remove is counted as a hit on exactly one enemy. */
  lemma {:induction false} CollideCount(es: seq<Enemy>, ls: seq<Laser>, overlap: (Enemy, Laser) -> bool)
    ensures Sum(GroupCollide(es, ls, overlap).hits) + |GroupCollide(es, ls, overlap).lasers| == |ls|
  {
    if es != [] {
      CollideCount(es[1..], Keep(ls, Not(Meets(es[0], overlap))), overlap);
      KeepSplit(ls, Meets(es[0], overlap));
    }
  }

  lemma {:induction false} KeepEvery<T>(s: seq<T>, p: T -> bool)
    requires forall x :: p(x)
    ensures Keep(s, p) == s
  {
    if s != [] {
      KeepEvery(s[1..], p);
    }
  }

  // ---------------------------------------------------------------- the hits on one enemy

  /** What the hits on one enemy in a frame add up to. */
  datatype Strike = Strike(health: int, destroyed: bool, bonus: real, blasts: nat)

  /**
   * The outcome of `hits` lasers on an enemy with `health`, in closed form.
   * No hit: nothing.  A live enemy that takes at least as many hits as it
   * has health is destroyed by the hit that brings it to 0 and scores 120,
   * with one explosion; one that takes fewer scores 18 for the frame however
   * many hit it.  (An enemy already at 0 or below, which play never leaves
   * in the group, would explode at every hit and score 18.)
   */
  function StrikeSpec(health: int, hits: nat): Strike {
    if hits == 0 then Strike(health, false, 0.0, 0)
    else if health > 0 && hits >= health then Strike(0, true, 120.0, 1)
    else if health > 0 then Strike(health - hits, false, 18.0, 0)
    else Strike(health - hits, true, 18.0, hits)
  }

  /**
   * For an enemy in play: destroyed exactly when the hits reach its health;
   * a destroyed enemy gives 120 and one explosion, a hit survivor 18 and
   * keeps at least 1 health.
   */
  lemma StrikeFacts(health: int, hits: nat)
    requires health >= 1
    ensures StrikeSpec(health, hits).destroyed <==> hits >= health
    ensures StrikeSpec(health, hits).bonus == if hits == 0 then 0.0 else if hits >= health then 120.0 else 18.0
    ensures StrikeSpec(health, hits).blasts == if hits >= health then 1 else 0
    ensures !StrikeSpec(health, hits).destroyed ==> StrikeSpec(health, hits).health == health - hits >= 1
  {
  }

  /**
   * The loop over the hits of one enemy in the main loop: hit it once per
   * laser; once it has left the group, score 120 if it had been alive and
   * stop; if the loop ends without that, score 18.
   */
  method StrikeEnemy(e: Enemy, hits: nat) returns (after: Enemy, alive: bool, bonus: real, blasts: seq<Explosion>)
    ensures after == e.(health := StrikeSpec(e.health, hits).health)
    ensures alive == !StrikeSpec(e.health, hits).destroyed
    ensures bonus == StrikeSpec(e.health, hits).bonus
    ensures blasts == Repeat(NewExplosion(e.pos), StrikeSpec(e.health, hits).blasts)
  {
    after, alive, bonus, blasts := e, true, 0.0, [];
    if hits == 0 {
      return;
    }
    var destroyed := false;
    var k := 0;
    while k < hits
      invariant 0 <= k <= hits
      invariant after == e.(health := e.health - k)
      invariant e.health > 0 ==> k < e.health && alive && blasts == []
      invariant e.health <= 0 ==> alive == (k == 0) && blasts == Repeat(NewExplosion(e.pos), k)
      invariant !destroyed && bonus == 0.0
    {
      var prev := after.health;
      var outcome := Hit(after, 1);
      after := outcome.enemy;
      if outcome.blast.Some? {
        blasts := blasts + [outcome.blast.value];
        alive := false;
      }
      if !alive && prev > 0 {
        bonus := bonus + 120.0;
        destroyed := true;
        break;
      }
      k := k + 1;
    }
    if !destroyed {
      bonus := bonus + 18.0;
    }
  }

  // ---------------------------------------------------------------- all enemies

  /** What the loop over the collisions leaves: the enemies still in the group, the new explosions, the points. */
  datatype Resolution = Resolution(enemies: seq<Enemy>, blasts: seq<Explosion>, gain: real)

  /** The loop over the collisions, enemy by enemy in group order, stated on its prefixes. */
  function Resolve(es: seq<Enemy>, hits: seq<nat>): Resolution
    requires |hits| == |es|
    decreases |es|
  {
    if es == [] then Resolution([], [], 0.0)
    else
      var n := |es| - 1;
      var r := Resolve(es[..n], hits[..n]);
      var s := StrikeSpec(es[n].health, hits[n]);
      Resolution(
        r.enemies + (if s.destroyed then [] else [es[n].(health := s.health)]),
        r.blasts + Repeat(NewExplosion(es[n].pos), s.blasts),
        r.gain + s.bonus)
  }

  /** The number of enemies among the first `n` that the hits destroy. */
  function Destroyed(es: seq<Enemy>, hits: seq<nat>, n: nat): nat
    requires |hits| == |es| && n <= |es|
  {
    if n == 0 then 0 else Destroyed(es, hits, n - 1) + (if hits[n - 1] >= es[n - 1].health then 1 else 0)
  }

  /** The number of enemies among the first `n` that are hit but not destroyed. */
  function Grazed(es: seq<Enemy>, hits: seq<nat>, n: nat): nat
    requires |hits| == |es| && n <= |es|
  {
    if n == 0 then 0 else Grazed(es, hits, n - 1) + (if 0 < hits[n - 1] < es[n - 1].health then 1 else 0)
  }

  /** The counts over the first `m` enemies depend on those enemies and their hits only. */
  lemma {:induction false} CountsAgree(es: seq<Enemy>, hits: seq<nat>, fs: seq<Enemy>, gs: seq<nat>, m: nat)
    requires |hits| == |es| && |gs| == |fs| && m <= |es| && m <= |fs|
    requires forall i :: 0 <= i < m ==> es[i] == fs[i] && hits[i] == gs[i]
    ensures Destroyed(es, hits, m) == Destroyed(fs, gs, m)
    ensures Grazed(es, hits, m) == Grazed(fs, gs, m)
    decreases m
  {
    if m > 0 {
      CountsAgree(es, hits, fs, gs, m - 1);
    }
  }

  lemma DestroyedPrefix(es: seq<Enemy>, hits: seq<nat>, n: nat)
    requires |hits| == |es| && n <= |es|
    ensures Destroyed(es[..n], hits[..n], n) == Destroyed(es, hits, n)
    ensures Grazed(es[..n], hits[..n], n) == Grazed(es, hits, n)
  {
    CountsAgree(es[..n], hits[..n], es, hits, n);
  }

  /**
   * For enemies in play (health at least 1): the frame scores 120 per enemy
   * destroyed and 18 per enemy hit and not destroyed, not per laser; every
   * destroyed enemy leaves the group with exactly one explosion; the others
   * stay, with at least 1 health.
   */
  lemma {:induction false} ResolveTally(es: seq<Enemy>, hits: seq<nat>)
    requires |hits| == |es|
    requires forall i :: 0 <= i < |es| ==> es[i].health >= 1
    ensures Resolve(es, hits).gain == 120.0 * Destroyed(es, hits, |es|) as real + 18.0 * Grazed(es, hits, |es|) as real
    ensures |Resolve(es, hits).enemies| == |es| - Destroyed(es, hits, |es|)
    ensures |Resolve(es, hits).blasts| == Destroyed(es, hits, |es|)
    ensures forall i :: 0 <= i < |Resolve(es, hits).enemies| ==> Resolve(es, hits).enemies[i].health >= 1
    decreases |es|
  {
    if es != [] {
      var n := |es| - 1;
      ResolveTally(es[..n], hits[..n]);
      DestroyedPrefix(es, hits, n);
      StrikeFacts(es[n].health, hits[n]);
      var r := Resolve(es[..n], hits[..n]);
      var s := StrikeSpec(es[n].health, hits[n]);
      var tail := if s.destroyed then [] else [es[n].(health := s.health)];
      assert Resolve(es, hits).enemies == r.enemies + tail;
      forall i | 0 <= i < |r.enemies + tail| ensures (r.enemies + tail)[i].health >= 1 {
        if i < |r.enemies| {
          assert (r.enemies + tail)[i] == r.enemies[i];
        }
      }
    }
  }

  // ---------------------------------------------------------------- the phases of a frame

  /** `score += dt * 14`, then the ship's update, which may add bolts and a trail particle. */
  function StartPhase(w: World, f: Frame): World {
    var u := UpdateSpec(w.pilot, f.dt, f.controls);
    w.(score := w.score + f.dt * 14.0, pilot := u.pilot, lasers := w.lasers + u.lasers, trails := w.trails + u.trails)
  }

  /** The updates of the laser, trail and enemy groups. */
  function MovePhase(w: World, dt: real, sine: real -> real): World {
    w.(lasers := Survivors(w.lasers, LaserStep(dt)),
       trails := Survivors(w.trails, ParticleStep(dt)),
       enemies := Survivors(w.enemies, EnemyStep(dt, sine)))
  }

  /** The spawn timer, and a new enemy once it reaches the interval for the current score. */
  function SpawnPhase(w: World, dt: real, d: EnemyDraw): World {
    var t := w.spawnTimer + dt;
    if t >= SpawnInterval(w.score) then
      w.(spawnTimer := 0.0, enemies := w.enemies + [NewEnemy(d, Difficulty(w.score))])
    else w.(spawnTimer := t)
  }

  /** The lasers against the enemies. */
  function LaserPhase(w: World, overlap: (Enemy, Laser) -> bool): World {
    var c := GroupCollide(w.enemies, w.lasers, overlap);
    var r := Resolve(w.enemies, c.hits);
    w.(enemies := r.enemies, lasers := c.lasers, explosions := w.explosions + r.blasts, score := w.score + r.gain)
  }

  /** An enemy whose circle meets the ship's at `p`. */
  function Touches(p: Vec, impact: (Vec, Enemy) -> bool): Enemy -> bool {
    e => impact(p, e)
  }

  /** An explosion at the centre of each enemy. */
  function Blasts(es: seq<Enemy>): (r: seq<Explosion>)
    ensures |r| == |es| && forall i :: 0 <= i < |es| ==> r[i] == NewExplosion(es[i].pos)
  {
    if es == [] then [] else [NewExplosion(es[0].pos)] + Blasts(es[1..])
  }

  /**
   * The enemies against the ship: every enemy touching it leaves the group;
   * unless the ship is invulnerable and if any did, each of them and the
   * ship explode and the ship absorbs one hit, which ends the game if it had
   * no shield left.
   */
  function ImpactPhase(w: World, impact: (Vec, Enemy) -> bool, recoilX: real): World {
    var touching := Keep(w.enemies, Touches(w.pilot.pos, impact));
    var rest := Keep(w.enemies, Not(Touches(w.pilot.pos, impact)));
    if w.pilot.invulnerable > 0.0 || touching == [] then w.(enemies := rest)
    else
      var a := AbsorbSpec(w.pilot, recoilX);
      w.(enemies := rest,
         explosions := w.explosions + Blasts(touching) + [NewExplosion(w.pilot.pos)],
         pilot := a.pilot,
         gameOver := if a.survived then w.gameOver else true,
         gameOverTime := if a.survived then w.gameOverTime else 0.0)
  }

  /** The frame while the game is on. */
  function PlaySpec(w: World, f: Frame, g: Geometry): World {
    var w1 := StartPhase(w, f);
    var w2 := MovePhase(w1, f.dt, g.sine);
    var w3 := SpawnPhase(w2, f.dt, f.spawn);
    var w4 := LaserPhase(w3, g.overlap);
    ImpactPhase(w4, g.impact, f.recoilX)
  }

  /** The frame after the game is over: only bolts and trails move on, and the game-over clock runs. */
  function OverSpec(w: World, dt: real): World {
    w.(lasers := Survivors(w.lasers, LaserStep(dt)),
       trails := Survivors(w.trails, ParticleStep(dt)),
       gameOverTime := w.gameOverTime + dt)
  }

  /**
   * One pass of the main loop: a restart key after the game is over resets
   * the game first, and the new game plays this same frame; explosions
   * animate whether or not the game is over.
   */
  function TickSpec(w: World, f: Frame, g: Geometry): World {
    var w0 := if w.gameOver && f.restart then NewGame else w;
    var w1 := if !w0.gameOver then PlaySpec(w0, f, g) else OverSpec(w0, f.dt);
    w1.(explosions := Survivors(w1.explosions, ExplosionStep(f.dt)))
  }

  // ---------------------------------------------------------------- the invariant

  lemma NewGameValid()
    ensures WorldValid(NewGame)
  {
  }

  lemma LasersStayInBand(ls: seq<Laser>, dt: real)
    requires forall i :: 0 <= i < |ls| ==> ls[i].damage == 1
    ensures forall i :: 0 <= i < |Survivors(ls, LaserStep(dt))| ==> LaserInBand(Survivors(ls, LaserStep(dt))[i])
  {
    forall l: Laser | l.damage == 1 && LaserStep(dt)(l).Some? ensures LaserInBand(LaserStep(dt)(l).value) {
      LaserStepBand(l, dt);
    }
    SurvivorsKeep(ls, LaserStep(dt), (l: Laser) => l.damage == 1, LaserInBand);
  }

  lemma StartKeepsValid(w: World, f: Frame)
    requires WorldValid(w) && !w.gameOver && FrameInRange(f)
    ensures var w1 := StartPhase(w, f);
      PilotValid(w1.pilot) && w1.pilot.shield == w.pilot.shield && w1.score >= w.score + f.dt * 14.0
      && (forall i :: 0 <= i < |w1.lasers| ==> w1.lasers[i].damage == 1)
      && (forall i :: 0 <= i < |w1.trails| ==> ParticleLive(w1.trails[i]))
  {
    UpdateKeepsValid(w.pilot, f.dt, f.controls);
    var u := UpdateSpec(w.pilot, f.dt, f.controls);
    UpdateFires(w.pilot, f.dt, f.controls);
    UpdateTrails(w.pilot, f.dt, f.controls);
    if u.lasers != [] {
      VolleyShape(u.pilot.pos, f.controls.spread);
    }
    if u.trails != [] {
      NewParticleLive(Clamp(w.pilot.pos.Plus(f.controls.velocity.Times(f.dt))).Plus(Vec(0.0, 46.0)).Plus(f.controls.jitter), f.controls.trail);
    }
    var w1 := StartPhase(w, f);
    forall i | 0 <= i < |w1.lasers| ensures w1.lasers[i].damage == 1 {
      if i >= |w.lasers| {
        assert w1.lasers[i] == u.lasers[i - |w.lasers|];
      } else {
        assert w1.lasers[i] == w.lasers[i];
      }
    }
    forall i | 0 <= i < |w1.trails| ensures ParticleLive(w1.trails[i]) {
      if i >= |w.trails| {
        assert w1.trails[i] == u.trails[i - |w.trails|];
      } else {
        assert w1.trails[i] == w.trails[i];
      }
    }
  }

  predicate Healthy(e: Enemy) {
    e.health >= 1
  }

  /** The group updates keep every laser in its band, every trail particle and every enemy in play. */
  lemma MoveKeepsValid(w: World, dt: real, sine: real -> real)
    requires dt >= 0.0
    requires forall i :: 0 <= i < |w.lasers| ==> w.lasers[i].damage == 1
    requires forall i :: 0 <= i < |w.trails| ==> ParticleLive(w.trails[i])
    requires forall i :: 0 <= i < |w.enemies| ==> w.enemies[i].health >= 1
    ensures var m := MovePhase(w, dt, sine);
      (forall i :: 0 <= i < |m.lasers| ==> LaserInBand(m.lasers[i]))
      && (forall i :: 0 <= i < |m.trails| ==> ParticleLive(m.trails[i]))
      && (forall i :: 0 <= i < |m.enemies| ==> m.enemies[i].health >= 1)
  {
    LasersStayInBand(w.lasers, dt);
    forall x: Particle | ParticleLive(x) && ParticleStep(dt)(x).Some? ensures ParticleLive(ParticleStep(dt)(x).value) {
      ParticleStepLive(x, dt);
    }
    SurvivorsKeep(w.trails, ParticleStep(dt), ParticleLive, ParticleLive);
    forall e: Enemy | Healthy(e) && EnemyStep(dt, sine)(e).Some? ensures Healthy(EnemyStep(dt, sine)(e).value) {
      EnemyStepKeeps(e, dt, sine);
    }
    SurvivorsKeep(w.enemies, EnemyStep(dt, sine), Healthy, Healthy);
  }

  lemma SpawnKeepsValid(w: World, dt: real, d: EnemyDraw)
    requires WorldValid(w) && dt >= 0.0 && EnemyDrawInRange(d)
    ensures WorldValid(SpawnPhase(w, dt, d))
    ensures SpawnPhase(w, dt, d).pilot == w.pilot && SpawnPhase(w, dt, d).score == w.score
  {
    NewEnemyBounds(d, Difficulty(w.score));
    var s := SpawnPhase(w, dt, d);
    forall i | 0 <= i < |s.enemies| ensures s.enemies[i].health >= 1 {
      if i < |w.enemies| {
        assert s.enemies[i] == w.enemies[i];
      }
    }
  }

  /** Every explosion the hits leave is a new one, at its first frame. */
  lemma {:induction false} ResolveBlastsNew(es: seq<Enemy>, hits: seq<nat>)
    requires |hits| == |es|
    ensures forall i :: 0 <= i < |Resolve(es, hits).blasts| ==>
      Resolve(es, hits).blasts[i].index == 0 && Resolve(es, hits).blasts[i].timer == 0.0
    decreases |es|
  {
    if es != [] {
      var n := |es| - 1;
      ResolveBlastsNew(es[..n], hits[..n]);
      var before: seq<Explosion> := Resolve(es[..n], hits[..n]).blasts;
      var more: seq<Explosion> := Repeat(NewExplosion(es[n].pos), StrikeSpec(es[n].health, hits[n]).blasts);
      forall i | 0 <= i < |before + more| ensures (before + more)[i].index == 0 && (before + more)[i].timer == 0.0 {
        if i < |before| {
          assert (before + more)[i] == before[i];
        } else {
          assert (before + more)[i] == more[i - |before|];
        }
      }
    }
  }

  /** New explosions added to live ones leave every explosion live. */
  lemma AddExplosions(xs: seq<Explosion>, ys: seq<Explosion>)
    requires forall i :: 0 <= i < |xs| ==> ExplosionLive(xs[i])
    requires forall i :: 0 <= i < |ys| ==> ys[i].index == 0 && ys[i].timer == 0.0
    ensures forall i :: 0 <= i < |xs + ys| ==> ExplosionLive((xs + ys)[i])
  {
    forall i | 0 <= i < |xs + ys| ensures ExplosionLive((xs + ys)[i]) {
      if i < |xs| {
        assert (xs + ys)[i] == xs[i];
      } else {
        assert (xs + ys)[i] == ys[i - |xs|];
      }
    }
  }

  lemma LaserPhaseKeepsValid(w: World, overlap: (Enemy, Laser) -> bool)
    requires WorldValid(w)
    ensures WorldValid(LaserPhase(w, overlap))
    ensures LaserPhase(w, overlap).score >= w.score && LaserPhase(w, overlap).pilot == w.pilot
  {
    var c := GroupCollide(w.enemies, w.lasers, overlap);
    var r := Resolve(w.enemies, c.hits);
    CollideLasers(w.enemies, w.lasers, overlap);
    ResolveTally(w.enemies, c.hits);
    ResolveBlastsNew(w.enemies, c.hits);
    forall i | 0 <= i < |c.lasers| ensures LaserInBand(c.lasers[i]) {
      assert c.lasers[i] in w.lasers;
    }
    AddExplosions(w.explosions, r.blasts);
  }

  lemma ImpactKeepsValid(w: World, impact: (Vec, Enemy) -> bool, recoilX: real)
    requires WorldValid(w) && !w.gameOver
    ensures var t := ImpactPhase(w, impact, recoilX);
      WorldValid(t) && t.score == w.score && w.pilot.shield - 1 <= t.pilot.shield <= w.pilot.shield
      && (t.gameOver ==> w.pilot.shield == 1 && w.pilot.invulnerable <= 0.0 && t.gameOverTime == 0.0)
  {
    var rest := Keep(w.enemies, Not(Touches(w.pilot.pos, impact)));
    forall i | 0 <= i < |rest| ensures rest[i].health >= 1 {
      assert rest[i] in w.enemies;
    }
    AbsorbCosts(w.pilot, recoilX);
    var touching := Keep(w.enemies, Touches(w.pilot.pos, impact));
    AddExplosions(w.explosions, Blasts(touching) + [NewExplosion(w.pilot.pos)]);
    assert w.explosions + Blasts(touching) + [NewExplosion(w.pilot.pos)] == w.explosions + (Blasts(touching) + [NewExplosion(w.pilot.pos)]);
  }

  /**
   * A frame of play keeps the invariant, scores at least 14 points a second,
   * costs at most one shield, and ends the game only if the ship had one
   * shield left and its invulnerability ran out within the frame.
   */
  lemma PlayKeepsValid(w: World, f: Frame, g: Geometry)
    requires WorldValid(w) && !w.gameOver && FrameInRange(f)
    ensures var t := PlaySpec(w, f, g);
      WorldValid(t) && t.score >= w.score + f.dt * 14.0
      && w.pilot.shield - 1 <= t.pilot.shield <= w.pilot.shield
      && (t.gameOver ==> w.pilot.shield == 1 && w.pilot.invulnerable <= f.dt && t.gameOverTime == 0.0)
  {
    var w2 := MovePhase(StartPhase(w, f), f.dt, g.sine);
    StartMoveKeepsValid(w, f, g.sine);
    var w3 := SpawnPhase(w2, f.dt, f.spawn);
    SpawnKeepsValid(w2, f.dt, f.spawn);
    var w4 := LaserPhase(w3, g.overlap);
    LaserPhaseKeepsValid(w3, g.overlap);
    ImpactKeepsValid(w4, g.impact, f.recoilX);
  }

  /** The first two phases of a frame of play keep the invariant; the ship's shield is as it was. */
  lemma StartMoveKeepsValid(w: World, f: Frame, sine: real -> real)
    requires WorldValid(w) && !w.gameOver && FrameInRange(f)
    ensures var t := MovePhase(StartPhase(w, f), f.dt, sine);
      WorldValid(t) && t.score >= w.score + f.dt * 14.0 && t.pilot.shield == w.pilot.shield
      && (t.pilot.invulnerable <= 0.0 ==> w.pilot.invulnerable <= f.dt)
  {
    var w1 := StartPhase(w, f);
    StartKeepsValid(w, f);
    UpdateInvulnerable(w.pilot, f.dt, f.controls);
    MoveKeepsValid(w1, f.dt, sine);
  }

  lemma OverKeepsValid(w: World, dt: real)
    requires WorldValid(w) && dt >= 0.0
    ensures WorldValid(OverSpec(w, dt))
  {
    LasersStayInBand(w.lasers, dt);
    forall x: Particle | ParticleLive(x) && ParticleStep(dt)(x).Some? ensures ParticleLive(ParticleStep(dt)(x).value) {
      ParticleStepLive(x, dt);
    }
    SurvivorsKeep(w.trails, ParticleStep(dt), ParticleLive, ParticleLive);
  }

  /** Every frame of non-negative length keeps the invariant of play. */
  lemma TickKeepsValid(w: World, f: Frame, g: Geometry)
    requires WorldValid(w) && FrameInRange(f)
    ensures WorldValid(TickSpec(w, f, g))
  {
    var w0 := if w.gameOver && f.restart then NewGame else w;
    NewGameValid();
    if !w0.gameOver {
      PlayKeepsValid(w0, f, g);
    } else {
      OverKeepsValid(w0, f.dt);
    }
    var w1 := if !w0.gameOver then PlaySpec(w0, f, g) else OverSpec(w0, f.dt);
    forall x: Explosion | ExplosionLive(x) && ExplosionStep(f.dt)(x).Some? ensures ExplosionLive(ExplosionStep(f.dt)(x).value) {
      ExplosionStepLive(x, f.dt);
    }
    SurvivorsKeep(w1.explosions, ExplosionStep(f.dt), ExplosionLive, ExplosionLive);
  }

  // ---------------------------------------------------------------- what a frame promises

  /** When nothing satisfies `p`, keeping what fails `p` keeps everything. */
  lemma {:induction false} KeepComplement<T>(s: seq<T>, p: T -> bool)
    requires Keep(s, p) == []
    ensures Keep(s, Not(p)) == s
  {
    if s != [] {
      KeepComplement(s[1..], p);
    }
  }

  /**
   * The spawn timer: once it reaches the interval for the score, it starts
   * again from 0 and exactly one enemy, of at least 2 health, joins the end
   * of the group; before that it only counts up.
   */
  lemma SpawnAddsOne(w: World, dt: real, d: EnemyDraw)
    requires w.score >= 0.0 && EnemyDrawInRange(d)
    ensures var s := SpawnPhase(w, dt, d);
      (w.spawnTimer + dt >= SpawnInterval(w.score) ==>
        s.spawnTimer == 0.0 && |s.enemies| == |w.enemies| + 1 && s.enemies[..|w.enemies|] == w.enemies
        && s.enemies[|w.enemies|].health >= 2)
      && (w.spawnTimer + dt < SpawnInterval(w.score) ==> s.enemies == w.enemies && s.spawnTimer == w.spawnTimer + dt)
  {
    NewEnemyBounds(d, Difficulty(w.score));
    var s := SpawnPhase(w, dt, d);
    if w.spawnTimer + dt >= SpawnInterval(w.score) {
      assert s.enemies[..|w.enemies|] == w.enemies;
    }
  }

  /**
   * The enemies touching the ship always leave the group, and the score and
   * the lasers do not change.  While the ship is invulnerable, or when no
   * enemy touches it, nothing else happens.  Otherwise there is one new
   * explosion per touching enemy and one for the ship, the ship loses one
   * shield, and the game ends exactly when that was its last.
   */
  lemma ImpactOutcome(w: World, impact: (Vec, Enemy) -> bool, recoilX: real)
    requires WorldValid(w) && !w.gameOver
    ensures var t := ImpactPhase(w, impact, recoilX);
      var touching := Keep(w.enemies, Touches(w.pilot.pos, impact));
      t.enemies == Keep(w.enemies, Not(Touches(w.pilot.pos, impact)))
      && t.score == w.score && t.lasers == w.lasers
      && (touching == [] ==> t == w)
      && (w.pilot.invulnerable > 0.0 ==> t == w.(enemies := t.enemies))
      && (w.pilot.invulnerable <= 0.0 && touching != [] ==>
            |t.explosions| == |w.explosions| + |touching| + 1
            && t.pilot.shield == w.pilot.shield - 1
            && (t.gameOver <==> w.pilot.shield == 1))
  {
    var touching := Keep(w.enemies, Touches(w.pilot.pos, impact));
    if touching == [] {
      KeepComplement(w.enemies, Touches(w.pilot.pos, impact));
    }
    AbsorbCosts(w.pilot, recoilX);
  }

  /**
   * While the game is on, a frame scores at least 14 points a second and
   * never takes points away.
   */
  lemma TickScores(w: World, f: Frame, g: Geometry)
    requires WorldValid(w) && !w.gameOver && FrameInRange(f)
    ensures TickSpec(w, f, g).score >= w.score + f.dt * 14.0
  {
    PlayKeepsValid(w, f, g);
  }

  /**
   * After the game is over and until a restart, the ship, the enemies, the
   * score and the spawn timer stand still; only the game-over clock runs.
   */
  lemma TickOverFreezes(w: World, f: Frame, g: Geometry)
    requires w.gameOver && !f.restart
    ensures var t := TickSpec(w, f, g);
      t.gameOver && t.pilot == w.pilot && t.enemies == w.enemies && t.score == w.score
      && t.spawnTimer == w.spawnTimer && t.gameOverTime == w.gameOverTime + f.dt
  {
  }

  /**
   * A restart after the game is over makes the frame the first frame of a
   * new game, which that frame cannot end.
   */
  lemma TickRestarts(w: World, f: Frame, g: Geometry)
    requires w.gameOver && f.restart && FrameInRange(f)
    ensures TickSpec(w, f, g) == TickSpec(NewGame, f, g)
    ensures !TickSpec(w, f, g).gameOver && TickSpec(w, f, g).pilot.shield >= 2
  {
    NewGameValid();
    PlayKeepsValid(NewGame, f, g);
  }

  /**
   * The game ends only in a frame in which the ship, with one shield left and
   * its invulnerability run out within the frame, is touched by an enemy;
   * the game-over clock then starts at 0.
   */
  lemma TickEndsGame(w: World, f: Frame, g: Geometry)
    requires WorldValid(w) && !w.gameOver && FrameInRange(f)
    requires TickSpec(w, f, g).gameOver
    ensures w.pilot.shield == 1 && w.pilot.invulnerable <= f.dt
    ensures TickSpec(w, f, g).pilot.shield == 0 && TickSpec(w, f, g).gameOverTime == 0.0
  {
    PlayKeepsValid(w, f, g);
  }

  /** One more enemy of the loop over the collisions. */
  lemma ResolveStep(es: seq<Enemy>, hits: seq<nat>, i: nat)
    requires |hits| == |es| && i < |es|
    ensures var r := Resolve(es[..i], hits[..i]);
      var s := StrikeSpec(es[i].health, hits[i]);
      Resolve(es[..i + 1], hits[..i + 1]) == Resolution(
        r.enemies + (if s.destroyed then [] else [es[i].(health := s.health)]),
        r.blasts + Repeat(NewExplosion(es[i].pos), s.blasts),
        r.gain + s.bonus)
  {
    assert es[..i + 1][..i] == es[..i] && hits[..i + 1][..i] == hits[..i];
  }

  /** The loop over the collisions of a frame, enemy by enemy. */
  method ResolveHits(es: seq<Enemy>, hits: seq<nat>) returns (r: Resolution)
    requires |hits| == |es|
    ensures r == Resolve(es, hits)
  {
    var kept: seq<Enemy> := [];
    var blasts: seq<Explosion> := [];
    var gain := 0.0;
    var i := 0;
    while i < |es|
      invariant 0 <= i <= |es|
      invariant Resolve(es[..i], hits[..i]) == Resolution(kept, blasts, gain)
    {
      var after, alive, bonus, more := StrikeEnemy(es[i], hits[i]);
      ResolveStep(es, hits, i);
      gain := gain + bonus;
      blasts := blasts + more;
      if alive {
        kept := kept + [after];
      }
      i := i + 1;
    }
    assert es[..i] == es && hits[..i] == hits;
    r := Resolution(kept, blasts, gain);
  }

  /** An explosion for each enemy that hit the ship, in order. */
  method BlastAll(es: seq<Enemy>) returns (xs: seq<Explosion>)
    ensures xs == Blasts(es)
  {
    xs := [];
    for k := 0 to |es|
      invariant xs == Blasts(es[..k])
    {
      assert Blasts(es[..k + 1]) == xs + [NewExplosion(es[k].pos)];
      xs := xs + [NewExplosion(es[k].pos)];
    }
    assert es[..|es|] == es;
  }

  // ---------------------------------------------------------------- the game

  /** The state of `main`: the ship, its four sprite groups and the loop's variables. */
  class Game {
    const player: Player
    const lasers: Group<Laser>
    const enemies: Group<Enemy>
    const explosions: Group<Explosion>
    const trails: Group<Particle>
    var score: real
    var spawnTimer: real
    var gameOver: bool
    var gameOverTime: real

    /** The ship fires into and leaves trails in the game's own groups. */
    ghost predicate Linked()
      reads this, player
    {
      player.lasers == lasers && player.trails == trails
    }

    ghost function Snapshot(): World
      reads this, player, lasers, enemies, explosions, trails
    {
      World(player.State(), lasers.sprites, enemies.sprites, explosions.sprites, trails.sprites,
            score, spawnTimer, gameOver, gameOverTime)
    }

    ghost predicate Valid()
      reads this, player, lasers, enemies, explosions, trails
    {
      Linked() && WorldValid(Snapshot())
    }

    constructor ()
      ensures Valid() && Snapshot() == NewGame
    {
      var l := new Group<Laser>();
      var t := new Group<Particle>();
      lasers := l;
      enemies := new Group<Enemy>();
      explosions := new Group<Explosion>();
      trails := t;
      player := new Player(l, t);
      score, spawnTimer, gameOver, gameOverTime := 0.0, 0.0, false, 0.0;
      new;
      NewGameValid();
    }

    /** `reset_game_state`: empty the groups, reset the ship and the loop's variables. */
    method ResetGameState()
      modifies this, player, lasers, enemies, explosions, trails
      ensures Snapshot() == NewGame
    {
      lasers.Empty();
      enemies.Empty();
      explosions.Empty();
      trails.Empty();
      player.Reset();
      score := 0.0;
      spawnTimer := 0.0;
      gameOver := false;
      gameOverTime := 0.0;
    }

    /** The lasers against the enemies, and the loop over the collisions. */
    method ResolveLaserHits(overlap: (Enemy, Laser) -> bool)
      modifies this, lasers, enemies, explosions
      ensures Snapshot() == LaserPhase(old(Snapshot()), overlap)
    {
      var c := GroupCollide(enemies.sprites, lasers.sprites, overlap);
      var r := ResolveHits(enemies.sprites, c.hits);
      lasers.sprites := c.lasers;
      enemies.sprites := r.enemies;
      explosions.sprites := explosions.sprites + r.blasts;
      score := score + r.gain;
    }

    /** The enemies against the ship. */
    method ResolvePlayerImpacts(impact: (Vec, Enemy) -> bool, recoilX: real)
      modifies this, player, enemies, explosions
      ensures Snapshot() == ImpactPhase(old(Snapshot()), impact, recoilX)
    {
      var pos := player.pos;
      var touching := Keep(enemies.sprites, Touches(pos, impact));
      enemies.sprites := Keep(enemies.sprites, Not(Touches(pos, impact)));
      if player.invulnerableTimer <= 0.0 && touching != [] {
        var blasts := BlastAll(touching);
        explosions.sprites := explosions.sprites + blasts + [NewExplosion(pos)];
        var survived := player.AbsorbHit(recoilX);
        if !survived {
          gameOver := true;
          gameOverTime := 0.0;
        }
      }
    }

    /** `score += dt * 14` and the ship's update. */
    method Start(f: Frame)
      requires Linked()
      modifies this, player, lasers, trails
      ensures Snapshot() == StartPhase(old(Snapshot()), f)
    {
      score := score + f.dt * 14.0;
      player.Update(f.dt, f.controls);
    }

    /** The updates of the laser, trail and enemy groups. */
    method Move(dt: real, sine: real -> real)
      modifies lasers, enemies, trails
      ensures Snapshot() == MovePhase(old(Snapshot()), dt, sine)
    {
      lasers.Update(LaserStep(dt));
      trails.Update(ParticleStep(dt));
      enemies.Update(EnemyStep(dt, sine));
    }

    /** The spawn timer, and a new enemy at the current difficulty when it runs out. */
    method Spawn(dt: real, d: EnemyDraw)
      modifies this, enemies
      ensures Snapshot() == SpawnPhase(old(Snapshot()), dt, d)
    {
      spawnTimer := spawnTimer + dt;
      if spawnTimer >= SpawnInterval(score) {
        spawnTimer := 0.0;
        enemies.Add(NewEnemy(d, Difficulty(score)));
      }
    }

    /** The frame while the game is on. */
    method Play(f: Frame, g: Geometry)
      requires Linked()
      modifies this, player, lasers, enemies, explosions, trails
      ensures Snapshot() == PlaySpec(old(Snapshot()), f, g)
    {
      ghost var w0 := Snapshot();
      Start(f);
      ghost var w1 := Snapshot();
      Move(f.dt, g.sine);
      ghost var w2 := Snapshot();
      Spawn(f.dt, f.spawn);
      ghost var w3 := Snapshot();
      ResolveLaserHits(g.overlap);
      ghost var w4 := Snapshot();
      ResolvePlayerImpacts(g.impact, f.recoilX);
      assert w1 == StartPhase(w0, f);
      assert w2 == MovePhase(w1, f.dt, g.sine);
      assert w3 == SpawnPhase(w2, f.dt, f.spawn);
      assert w4 == LaserPhase(w3, g.overlap);
    }

    /** The frame after the game is over. */
    method Idle(dt: real)
      modifies this, lasers, trails
      ensures Snapshot() == OverSpec(old(Snapshot()), dt)
    {
      lasers.Update(LaserStep(dt));
      trails.Update(ParticleStep(dt));
      gameOverTime := gameOverTime + dt;
    }

    /** One pass of the main loop, after the events have been read. */
    method Tick(f: Frame, g: Geometry)
      requires Valid() && FrameInRange(f)
      modifies this, player, lasers, enemies, explosions, trails
      ensures Valid()
      ensures Snapshot() == TickSpec(old(Snapshot()), f, g)
    {
      Step(f, g);
      TickKeepsValid(old(Snapshot()), f, g);
    }

    /** The pass itself: the restart, the frame of play or of game over, and the explosions. */
    method Step(f: Frame, g: Geometry)
      requires Linked()
      modifies this, player, lasers, enemies, explosions, trails
      ensures Snapshot() == TickSpec(old(Snapshot()), f, g)
    {
      ghost var w := Snapshot();
      if gameOver && f.restart {
        ResetGameState();
      }
      ghost var w0 := Snapshot();
      assert w0 == if w.gameOver && f.restart then NewGame else w;
      if !gameOver {
        Play(f, g);
      } else {
        Idle(f.dt);
      }
      ghost var w1 := Snapshot();
      assert w1 == if !w0.gameOver then PlaySpec(w0, f, g) else OverSpec(w0, f.dt);
      explosions.Update(ExplosionStep(f.dt));
    }
  }
}
