/**
 * The player's X-wing of starwars/main.py: the `Player` sprite with its
 * shields, its invulnerability after a hit, its gun cooldown and its engine
 * trail.  The laser and trail groups it adds to are the ones the main loop
 * owns.
 *
 * Steering (the key-driven acceleration, drag, `normalize` and
 * `scale_to_length` of `Player.update`) is not modelled: an update receives
 * the velocity the steering produced.  The roll animation and the flicker
 * only change the image and are not modelled either.
 */
module Pilot {
  import opened Actors

  /** Where the ship starts: `(WIDTH // 2, HEIGHT - 110)`. */
  const SpawnPoint: Vec := Vec(450.0, 490.0)
  const MaxShield: int := 3
  const ShootCooldown: real := 0.15
  const InvulnerableTime: real := 1.4
  const TrailInterval: real := 0.035

  /** The state of the ship that the game reads and changes. */
  datatype Pilot = Pilot(
    pos: Vec, vel: Vec, shield: int,
    invulnerable: real, shootTimer: real, trailTimer: real)

  /** The ship as `Player.__init__` and `Player.reset` leave it. */
  const Fresh: Pilot := Pilot(SpawnPoint, Vec(0.0, 0.0), MaxShield, 0.0, 0.0, 0.0)

  function Max(a: real, b: real): real { if a >= b then a else b }
  function Min(a: real, b: real): real { if a <= b then a else b }

  /** The part of the screen the ship may occupy. */
  predicate InBox(p: Vec) {
    48.0 <= p.x <= Width as real - 48.0 && 80.0 <= p.y <= Height as real - 40.0
  }

  /**
   * The clamp of `Player.update`: each coordinate is forced into its range;
   * a position already inside is left as it is, and a clamped position is
   * the nearest point of the box on each axis.
   */
  function Clamp(p: Vec): (c: Vec)
    ensures InBox(c)
    ensures InBox(p) ==> c == p
    ensures p.x < 48.0 ==> c.x == 48.0
    ensures p.x > 852.0 ==> c.x == 852.0
    ensures p.y < 80.0 ==> c.y == 80.0
    ensures p.y > 560.0 ==> c.y == 560.0
    ensures 48.0 <= p.x <= 852.0 ==> c.x == p.x
    ensures 80.0 <= p.y <= 560.0 ==> c.y == p.y
  {
    Vec(Max(48.0, Min(Width as real - 48.0, p.x)), Max(80.0, Min(Height as real - 40.0, p.y)))
  }

  /** The ranges every ship state in play stays within. */
  predicate PilotValid(p: Pilot) {
    0 <= p.shield <= MaxShield
    && 0.0 <= p.invulnerable <= InvulnerableTime
    && 0.0 <= p.shootTimer <= ShootCooldown
    && 0.0 <= p.trailTimer < TrailInterval
    && InBox(p.pos)
  }

  /** The random spread of the two bolts of a volley. */
  datatype Spread = Spread(left: Vec, right: Vec)

  predicate SpreadInRange(s: Spread) {
    -20.0 <= s.left.x <= 20.0 && -10.0 <= s.left.y <= 10.0
    && -20.0 <= s.right.x <= 20.0 && -10.0 <= s.right.y <= 10.0
  }

  /** The two bolts of `try_shoot`: 18 left and right of the centre, 30 above it, flying up at 780 plus the spread. */
  function Volley(center: Vec, s: Spread): seq<Laser> {
    [ NewLaser(center.Plus(Vec(-18.0, -30.0)), Vec(0.0, -780.0).Plus(s.left)),
      NewLaser(center.Plus(Vec(18.0, -30.0)), Vec(0.0, -780.0).Plus(s.right)) ]
  }

  /** What a shot leaves: the ship and the bolts it adds to the laser group. */
  datatype Shot = Shot(pilot: Pilot, lasers: seq<Laser>)

  /** `try_shoot`: nothing while the gun cools down, otherwise restart the cooldown and fire a volley. */
  function TryShootSpec(p: Pilot, s: Spread): Shot {
    if p.shootTimer > 0.0 then Shot(p, [])
    else Shot(p.(shootTimer := ShootCooldown), Volley(p.pos, s))
  }

  /** The inputs of one `Player.update`: the steered velocity, the fire key and the random draws. */
  datatype Controls = Controls(velocity: Vec, fire: bool, spread: Spread, jitter: Vec, trail: ParticleDraw)

  predicate ControlsInRange(c: Controls) {
    SpreadInRange(c.spread) && -12.0 <= c.jitter.x <= 12.0 && -6.0 <= c.jitter.y <= 6.0
    && ParticleDrawInRange(c.trail)
  }

  /** What an update leaves: the ship, the bolts it fired and the trail particles it emitted. */
  datatype PilotStep = PilotStep(pilot: Pilot, lasers: seq<Laser>, trails: seq<Particle>)

  /**
   * `Player.update` from the steered velocity on: move and clamp; count the
   * invulnerability down to 0 if it is running; count the gun cooldown down
   * and shoot if the fire key is held; every 35 ms emit a trail particle 46
   * below the ship's centre, jittered.
   */
  function UpdateSpec(p: Pilot, dt: real, c: Controls): PilotStep {
    var pos := Clamp(p.pos.Plus(c.velocity.Times(dt)));
    var inv := if p.invulnerable > 0.0 then Max(0.0, p.invulnerable - dt) else p.invulnerable;
    var moved := p.(pos := pos, vel := c.velocity, invulnerable := inv, shootTimer := Max(0.0, p.shootTimer - dt));
    var shot := if c.fire then TryShootSpec(moved, c.spread) else Shot(moved, []);
    var t := shot.pilot.trailTimer + dt;
    if t >= TrailInterval then
      PilotStep(shot.pilot.(trailTimer := 0.0), shot.lasers,
                [NewParticle(pos.Plus(Vec(0.0, 46.0)).Plus(c.jitter), c.trail)])
    else PilotStep(shot.pilot.(trailTimer := t), shot.lasers, [])
  }

  /** What a hit leaves: the ship and whether it still has shields. */
  datatype Absorbed = Absorbed(pilot: Pilot, survived: bool)

  /**
   * `absorb_hit`: ignored while invulnerable; otherwise lose a shield, become
   * invulnerable for 1.4 s and be knocked back down by 260 and sideways by
   * the random recoil; the ship survives while it has shields left.
   */
  function AbsorbSpec(p: Pilot, recoilX: real): Absorbed {
    if p.invulnerable > 0.0 then Absorbed(p, true)
    else
      var q := p.(shield := p.shield - 1, invulnerable := InvulnerableTime, vel := p.vel.Plus(Vec(recoilX, 260.0)));
      Absorbed(q, q.shield > 0)
  }

  lemma FreshValid()
    ensures PilotValid(Fresh) && Fresh.shield == 3
  {
  }

  /** An update keeps the ship in its ranges, its shields as they were, and its velocity the steered one. */
  lemma UpdateKeepsValid(p: Pilot, dt: real, c: Controls)
    requires PilotValid(p) && dt >= 0.0
    ensures PilotValid(UpdateSpec(p, dt, c).pilot)
    ensures UpdateSpec(p, dt, c).pilot.shield == p.shield
    ensures UpdateSpec(p, dt, c).pilot.vel == c.velocity
    ensures UpdateSpec(p, dt, c).pilot.pos == Clamp(p.pos.Plus(c.velocity.Times(dt)))
  {
  }

  /**
   * The gun fires in an update exactly when the fire key is held and the
   * cooldown has run out by the end of the frame; a volley is two bolts,
   * one on each side of the ship, and it restarts the cooldown at 0.15 s.
   */
  lemma UpdateFires(p: Pilot, dt: real, c: Controls)
    requires PilotValid(p) && dt >= 0.0
    ensures UpdateSpec(p, dt, c).lasers != [] <==> c.fire && p.shootTimer <= dt
    ensures UpdateSpec(p, dt, c).lasers != [] ==>
      UpdateSpec(p, dt, c).lasers == Volley(UpdateSpec(p, dt, c).pilot.pos, c.spread)
      && UpdateSpec(p, dt, c).pilot.shootTimer == ShootCooldown
    ensures UpdateSpec(p, dt, c).lasers == [] ==> UpdateSpec(p, dt, c).pilot.shootTimer == Max(0.0, p.shootTimer - dt)
  {
  }

  /** The two bolts of a volley fly up, one on each side of the ship's centre, with damage 1. */
  lemma VolleyShape(center: Vec, s: Spread)
    requires SpreadInRange(s)
    ensures |Volley(center, s)| == 2
    ensures Volley(center, s)[0].pos.x < center.x < Volley(center, s)[1].pos.x
    ensures forall i :: 0 <= i < 2 ==>
      Volley(center, s)[i].vel.y < 0.0 && Volley(center, s)[i].damage == 1
      && Volley(center, s)[i].pos.y == center.y - 30.0
  {
  }

  /** The engine emits one particle in an update exactly when 35 ms have been reached since the last. */
  lemma UpdateTrails(p: Pilot, dt: real, c: Controls)
    ensures |UpdateSpec(p, dt, c).trails| <= 1
    ensures UpdateSpec(p, dt, c).trails != [] <==> p.trailTimer + dt >= TrailInterval
  {
  }

  /** Invulnerability counts down by the frame time, so a hit is ignored for 1.4 s after the one before. */
  lemma UpdateInvulnerable(p: Pilot, dt: real, c: Controls)
    requires PilotValid(p) && dt >= 0.0
    ensures UpdateSpec(p, dt, c).pilot.invulnerable == Max(0.0, p.invulnerable - dt)
    ensures p.invulnerable > dt ==>
      AbsorbSpec(UpdateSpec(p, dt, c).pilot, 0.0) == Absorbed(UpdateSpec(p, dt, c).pilot, true)
  {
  }

  /**
   * A hit on a ship that is not invulnerable costs exactly one shield and
   * starts 1.4 s of invulnerability; the ship survives it exactly when it had
   * two shields or more.  The ship stays in its ranges.
   */
  lemma AbsorbCosts(p: Pilot, recoilX: real)
    requires PilotValid(p) && p.shield >= 1
    ensures p.invulnerable > 0.0 ==> AbsorbSpec(p, recoilX) == Absorbed(p, true)
    ensures p.invulnerable <= 0.0 ==>
      AbsorbSpec(p, recoilX).pilot.shield == p.shield - 1
      && AbsorbSpec(p, recoilX).pilot.invulnerable == InvulnerableTime
      && (AbsorbSpec(p, recoilX).survived <==> p.shield >= 2)
    ensures PilotValid(AbsorbSpec(p, recoilX).pilot)
    ensures AbsorbSpec(p, recoilX).survived <==> AbsorbSpec(p, recoilX).pilot.shield > 0
  {
  }

  /**
   * `try_shoot` adds no bolt and changes nothing while the cooldown runs;
   * otherwise it adds exactly two bolts and restarts the cooldown at 0.15 s.
   */
  lemma TryShootGate(p: Pilot, s: Spread)
    ensures p.shootTimer > 0.0 ==> TryShootSpec(p, s) == Shot(p, [])
    ensures p.shootTimer <= 0.0 ==>
      |TryShootSpec(p, s).lasers| == 2 && TryShootSpec(p, s).pilot == p.(shootTimer := ShootCooldown)
  {
  }

  /** A fresh ship survives two hits and the third one ends the game. */
  lemma {:induction false} ThreeHits(recoil1: real, recoil2: real, recoil3: real)
    ensures
      var a := AbsorbSpec(Fresh, recoil1);
      var b := AbsorbSpec(a.pilot.(invulnerable := 0.0), recoil2);
      var c := AbsorbSpec(b.pilot.(invulnerable := 0.0), recoil3);
      a.survived && b.survived && !c.survived && c.pilot.shield == 0
  {
  }

  /** The player sprite, with the laser and trail groups it was given. */
  class Player {
    const lasers: Group<Laser>
    const trails: Group<Particle>
    var pos: Vec
    var vel: Vec
    var shield: int
    var invulnerableTimer: real
    var shootTimer: real
    var trailTimer: real

    ghost function State(): Pilot
      reads this
    {
      Pilot(pos, vel, shield, invulnerableTimer, shootTimer, trailTimer)
    }

    /** `Player.__init__`: at the spawn point, at rest, with three shields. */
    constructor (lasers: Group<Laser>, trails: Group<Particle>)
      ensures this.lasers == lasers && this.trails == trails
      ensures State() == Fresh
    {
      this.lasers := lasers;
      this.trails := trails;
      pos := SpawnPoint;
      vel := Vec(0.0, 0.0);
      shield := MaxShield;
      invulnerableTimer := 0.0;
      shootTimer := 0.0;
      trailTimer := 0.0;
    }

    /** `Player.reset`: back to the state `__init__` gives. */
    method Reset()
      modifies this
      ensures State() == Fresh
    {
      pos := SpawnPoint;
      vel := Vec(0.0, 0.0);
      shield := MaxShield;
      invulnerableTimer := 0.0;
      shootTimer := 0.0;
      trailTimer := 0.0;
    }

    /** `try_shoot`. */
    method TryShoot(spread: Spread)
      modifies this, lasers
      ensures State() == TryShootSpec(old(State()), spread).pilot
      ensures lasers.sprites == old(lasers.sprites) + TryShootSpec(old(State()), spread).lasers
    {
      if shootTimer > 0.0 {
        return;
      }
      shootTimer := ShootCooldown;
      var offsets := [Vec(-18.0, -30.0), Vec(18.0, -30.0)];
      var spreads := [spread.left, spread.right];
      for k := 0 to 2
        invariant State() == old(State()).(shootTimer := ShootCooldown)
        invariant lasers.sprites == old(lasers.sprites) + Volley(pos, spread)[..k]
      {
        var direction := Vec(0.0, -780.0).Plus(spreads[k]);
        lasers.Add(NewLaser(pos.Plus(offsets[k]), direction));
      }
    }

    /** `Player.update` from the steered velocity on. */
    method Update(dt: real, c: Controls)
      modifies this, lasers, trails
      ensures State() == UpdateSpec(old(State()), dt, c).pilot
      ensures lasers.sprites == old(lasers.sprites) + UpdateSpec(old(State()), dt, c).lasers
      ensures trails.sprites == old(trails.sprites) + UpdateSpec(old(State()), dt, c).trails
    {
      vel := c.velocity;
      pos := Clamp(pos.Plus(vel.Times(dt)));
      if invulnerableTimer > 0.0 {
        invulnerableTimer := Max(0.0, invulnerableTimer - dt);
      }
      shootTimer := Max(0.0, shootTimer - dt);
      if c.fire {
        TryShoot(c.spread);
      }
      trailTimer := trailTimer + dt;
      if trailTimer >= TrailInterval {
        trailTimer := 0.0;
        var spawnPoint := pos.Plus(Vec(0.0, 46.0)).Plus(c.jitter);
        trails.Add(NewParticle(spawnPoint, c.trail));
      }
    }

    /** `absorb_hit`. */
    method AbsorbHit(recoilX: real) returns (survived: bool)
      modifies this
      ensures State() == AbsorbSpec(old(State()), recoilX).pilot
      ensures survived == AbsorbSpec(old(State()), recoilX).survived
    {
      if invulnerableTimer > 0.0 {
        return true;
      }
      shield := shield - 1;
      invulnerableTimer := InvulnerableTime;
      vel := vel.Plus(Vec(recoilX, 260.0));
      return shield > 0;
    }
  }
}
