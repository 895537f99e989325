/** The ambient "data flow" particle field: points that rise at their own
    speed and are recycled near the floor once they pass a fixed ceiling,
    while the whole field spins about the vertical axis. */
module Particles {

  /** Height above which a particle is recycled. */
  const Ceiling: real := 3.5
  /** A recycled particle restarts at `r * RespawnBand` for a random `r`. */
  const RespawnBand: real := 0.5
  /** Spin of the whole field, in radians per second. */
  const SpinRate: real := 0.15
  const ParticleCount: nat := 600

  /** One point: `x` and `z` are fixed at spawn, `y` is its height. */
  datatype Particle = Particle(x: real, y: real, z: real, speed: real)

  datatype Field = Field(rotY: real, particles: seq<Particle>)

  /** The random draws that place one particle at spawn: `x` and `z` stand
      for `cos(angle) * radius` and `sin(angle) * radius`, `rh` and `rs` for
      two values of `Math.random()`. */
  datatype Seed = Seed(x: real, z: real, rh: real, rs: real)

  predicate UnitRandom(r: real)
  {
    0.0 <= r < 1.0
  }

  /** What holds of every particle between frames. */
  predicate ParticleOk(p: Particle)
  {
    0.0 <= p.y <= Ceiling && 0.0 <= p.speed
  }

  predicate FieldInv(f: Field)
  {
    forall i :: 0 <= i < |f.particles| ==> ParticleOk(f.particles[i])
  }

  /** A freshly spawned particle: height in [0, 2.8), speed in [0.25, 0.65). */
  function Spawn(seed: Seed): (p: Particle)
    requires UnitRandom(seed.rh) && UnitRandom(seed.rs)
    ensures p.x == seed.x && p.z == seed.z
    ensures 0.0 <= p.y < 2.8
    ensures 0.25 <= p.speed < 0.65
    ensures ParticleOk(p)
  {
    Particle(seed.x, seed.rh * 2.8, seed.z, 0.25 + seed.rs * 0.4)
  }

  function SpawnField(seeds: seq<Seed>): (f: Field)
    requires forall i :: 0 <= i < |seeds| ==> UnitRandom(seeds[i].rh) && UnitRandom(seeds[i].rs)
    ensures f.rotY == 0.0
    ensures |f.particles| == |seeds|
    ensures forall i :: 0 <= i < |seeds| ==> f.particles[i].x == seeds[i].x && f.particles[i].z == seeds[i].z
    ensures FieldInv(f)
  {
    Field(0.0, seq(|seeds|, i requires 0 <= i < |seeds| => Spawn(seeds[i])))
  }

  /** One particle's move in a frame of length `delta`, with `r` standing
      for the value of `Math.random()` drawn if it is recycled. */
  function Rise(p: Particle, delta: real, r: real): (q: Particle)
    requires UnitRandom(r)
    ensures q.x == p.x && q.z == p.z && q.speed == p.speed
    ensures q.y <= Ceiling
    ensures p.y + p.speed * delta <= Ceiling ==> q.y == p.y + p.speed * delta
    ensures Ceiling < p.y + p.speed * delta ==> 0.0 <= q.y < RespawnBand
  {
    var y := p.y + p.speed * delta;
    if y > Ceiling then p.(y := r * RespawnBand) else p.(y := y)
  }

  /** A rise over a non-negative frame keeps a well-placed particle well
      placed, and one that overshoots lands below the respawn band. */
  lemma RiseKeepsParticleOk(p: Particle, delta: real, r: real)
    requires UnitRandom(r) && 0.0 <= delta && ParticleOk(p)
    ensures ParticleOk(Rise(p, delta, r))
    ensures Rise(p, delta, r).y < p.y ==> Rise(p, delta, r).y < RespawnBand
  {
    assert 0.0 <= p.speed * delta;
  }

  /** The field's update for one frame. */
  function Step(f: Field, delta: real, rs: seq<real>): (g: Field)
    requires |rs| == |f.particles|
    requires forall i :: 0 <= i < |rs| ==> UnitRandom(rs[i])
    ensures g.rotY == f.rotY + delta * SpinRate
    ensures |g.particles| == |f.particles|
    ensures forall i :: 0 <= i < |f.particles| ==> g.particles[i] == Rise(f.particles[i], delta, rs[i])
    ensures 0.0 <= delta && FieldInv(f) ==> FieldInv(g)
  {
    var g := Field(f.rotY + delta * SpinRate,
                   seq(|f.particles|, i requires 0 <= i < |f.particles| => Rise(f.particles[i], delta, rs[i])));
    assert 0.0 <= delta && FieldInv(f) ==> FieldInv(g) by {
      if 0.0 <= delta && FieldInv(f) {
        forall i | 0 <= i < |f.particles|
          ensures ParticleOk(g.particles[i])
        {
          RiseKeepsParticleOk(f.particles[i], delta, rs[i]);
        }
      }
    }
    g
  }

  /** The in-place loop over the particle buffer: each height rises by
      `speed * delta` and is recycled once it passes the ceiling. */
  method StepInPlace(f: Field, delta: real, rs: seq<real>) returns (g: Field)
    requires |rs| == |f.particles|
    requires forall i :: 0 <= i < |rs| ==> UnitRandom(rs[i])
    ensures g == Step(f, delta, rs)
  {
    var rotY := f.rotY + delta * SpinRate;
    var ps := f.particles;
    var i := 0;
    while i < |ps|
      invariant 0 <= i <= |ps| == |f.particles|
      invariant forall k :: 0 <= k < i ==> ps[k] == Rise(f.particles[k], delta, rs[k])
      invariant forall k :: i <= k < |ps| ==> ps[k] == f.particles[k]
    {
      var y := ps[i].y + ps[i].speed * delta;
      if y > Ceiling {
        y := rs[i] * RespawnBand;
      }
      ps := ps[i := ps[i].(y := y)];
      i := i + 1;
    }
    g := Field(rotY, ps);
  }
}
