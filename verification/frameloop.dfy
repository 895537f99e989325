/** The frame loop and the event-driven run of the engine. A frame clamps
    its delta, pulses every container and advances the particle field,
    applies the pick, and finally steps the active animation, which is
    therefore the last writer of its container before rendering. Between
    frames the engine receives clicks, reset commands and firings of the
    deferred idle write. */
module FrameLoop {
  import opened Options
  import opened Tweening
  import opened Particles
  import opened SceneState
  import opened Pulse
  import opened Animation
  import opened Interaction

  /** Longest frame the loop will simulate, in seconds. */
  const MaxDelta: real := 0.05
  /** The delta used when the controls offer no clock reading. */
  const DefaultDelta: real := 0.016

  /** The frame's delta: the controls' clock reading when they offer one,
      otherwise the default, and never more than `MaxDelta`. */
  function FrameDelta(raw: Option<real>): (d: real)
    ensures d <= MaxDelta
    ensures raw.None? ==> d == DefaultDelta
    ensures raw.Some? && raw.value <= MaxDelta ==> d == raw.value
    ensures raw.Some? && MaxDelta <= raw.value ==> d == MaxDelta
  {
    Min(MaxDelta, if raw.Some? then raw.value else DefaultDelta)
  }

  /** Everything a frame reads from outside the engine: the clock reading,
      each container's pulse sine, each particle's recycling draw, the pick
      result, and the lock fixture's wobble sines. */
  datatype FrameInput = FrameInput(
    rawDelta: Option<real>,
    sines: seq<real>,
    randoms: seq<real>,
    pick: Option<nat>,
    wobble: Wobble)

  datatype Event =
    | ClickEvent
    | ResetPressed(angles: seq<real>)
    | Tick(input: FrameInput)
    | IdleTimer

  /** A frame input matches a registry of `n` containers and a field of `m`
      particles, with draws in [0, 1) and a non-negative clock reading. */
  predicate TickFits(n: nat, m: nat, f: FrameInput)
  {
    && |f.sines| == n
    && |f.randoms| == m
    && (forall k :: 0 <= k < m ==> UnitRandom(f.randoms[k]))
    && (f.rawDelta.Some? ==> 0.0 <= f.rawDelta.value)
  }

  predicate EventFits(n: nat, m: nat, ev: Event)
  {
    match ev
    case ResetPressed(angles) => |angles| == n
    case Tick(f) => TickFits(n, m, f)
    case _ => true
  }

  predicate AllFit(n: nat, m: nat, evs: seq<Event>)
  {
    forall k :: 0 <= k < |evs| ==> EventFits(n, m, evs[k])
  }

  /** The first phase of a frame: the pulse on every container and the
      particle field's rise and spin. */
  function Pulsed(s: Scene, d: real, f: FrameInput): (r: Scene)
    requires TickFits(|s.entities|, |s.field.particles|, f)
    ensures |r.entities| == |s.entities| && |r.field.particles| == |s.field.particles|
    ensures r.slot == s.slot && r.hover == s.hover && r.status == s.status
    ensures r.pendingIdle == s.pendingIdle && r.lock == s.lock
    ensures forall i :: 0 <= i < |s.entities| ==>
      && r.entities[i].state == s.entities[i].state
      && r.entities[i].pos == s.entities[i].pos
      && r.entities[i].scale == s.entities[i].scale
      && r.entities[i].rotY == s.entities[i].rotY
      && r.entities[i].opacity == ShellOpacity(f.sines[i])
      && r.entities[i].emissive == Emissive(f.sines[i])
    ensures 0.0 <= d && FieldInv(s.field) ==> FieldInv(r.field)
  {
    s.(entities := PulseAll(s.entities, f.sines), field := Particles.Step(s.field, d, f.randoms))
  }

  function Frame(s: Scene, f: FrameInput): (r: Scene)
    requires SlotWellFormed(s) && TickFits(|s.entities|, |s.field.particles|, f)
    ensures |r.entities| == |s.entities| && |r.field.particles| == |s.field.particles|
    ensures SlotWellFormed(r)
    ensures r.hover == f.pick
    ensures r.slot.Some? ==> s.slot.Some? && r.slot.value.owner == s.slot.value.owner
  {
    var d := FrameDelta(f.rawDelta);
    var hovered := Hover(Pulsed(s, d, f), f.pick);
    if hovered.slot.Some? then StepTween(hovered, d, f.wobble) else hovered
  }

  function Apply(s: Scene, ev: Event): (r: Scene)
    requires SlotWellFormed(s) && EventFits(|s.entities|, |s.field.particles|, ev)
    ensures |r.entities| == |s.entities| && |r.field.particles| == |s.field.particles|
    ensures SlotWellFormed(r)
  {
    match ev
    case ClickEvent => Click(s)
    case ResetPressed(angles) => Reset(s, angles)
    case Tick(f) => Frame(s, f)
    case IdleTimer => IdleTimerFires(s)
  }

  /** The engine after a sequence of events, in order. */
  function Run(s: Scene, evs: seq<Event>): (r: Scene)
    requires SlotWellFormed(s) && AllFit(|s.entities|, |s.field.particles|, evs)
    ensures |r.entities| == |s.entities| && |r.field.particles| == |s.field.particles|
    ensures SlotWellFormed(r)
    decreases |evs|
  {
    if |evs| == 0 then s else Run(Apply(s, evs[0]), evs[1..])
  }

  /** Everything that holds between events. */
  predicate Inv(s: Scene)
  {
    TweenInv(s) && OnTrack(s) && FieldInv(s.field)
  }

  lemma FramePreservesInv(s: Scene, f: FrameInput)
    requires Inv(s) && TickFits(|s.entities|, |s.field.particles|, f)
    ensures Inv(Frame(s, f))
  {
    var d := FrameDelta(f.rawDelta);
    var hovered := Hover(Pulsed(s, d, f), f.pick);
    assert TweenInv(hovered);
    assert OnTrack(hovered);
    if hovered.slot.Some? {
      StepKeepsOnTrack(hovered, d, f.wobble);
    }
  }

  lemma ApplyPreservesInv(s: Scene, ev: Event)
    requires Inv(s) && EventFits(|s.entities|, |s.field.particles|, ev)
    ensures Inv(Apply(s, ev))
  {
    match ev
    case ClickEvent =>
    case ResetPressed(angles) =>
    case Tick(f) => FramePreservesInv(s, f);
    case IdleTimer =>
  }

  /** The state-machine invariant holds after any sequence of clicks,
      frames, resets and timer firings: at most one container is unlocking,
      and it is the one the animation slot drives. */
  lemma {:induction false} RunPreservesInv(s: Scene, evs: seq<Event>)
    requires Inv(s) && AllFit(|s.entities|, |s.field.particles|, evs)
    ensures Inv(Run(s, evs))
    decreases |evs|
  {
    if |evs| > 0 {
      ApplyPreservesInv(s, evs[0]);
      var s1 := Apply(s, evs[0]);
      assert AllFit(|s1.entities|, |s1.field.particles|, evs[1..]);
      RunPreservesInv(s1, evs[1..]);
    }
  }

  /** Every container keeps the rest position it was loaded with. */
  predicate SameRests(s: Scene, r: Scene)
  {
    |r.entities| == |s.entities| &&
    forall i :: 0 <= i < |s.entities| ==> r.entities[i].rest == s.entities[i].rest
  }

  /** Every particle keeps the place and speed it was spawned with; only its
      height moves. */
  predicate SameParticles(s: Scene, r: Scene)
  {
    |r.field.particles| == |s.field.particles| &&
    forall i :: 0 <= i < |s.field.particles| ==>
      var p, q := s.field.particles[i], r.field.particles[i];
      q.x == p.x && q.z == p.z && q.speed == p.speed
  }

  lemma ApplyKeepsRest(s: Scene, ev: Event)
    requires SlotWellFormed(s) && EventFits(|s.entities|, |s.field.particles|, ev)
    ensures SameRests(s, Apply(s, ev))
  {
    match ev
    case ClickEvent =>
    case ResetPressed(angles) =>
    case Tick(f) =>
      var p := Pulsed(s, FrameDelta(f.rawDelta), f);
      assert forall i :: 0 <= i < |s.entities| ==> p.entities[i].rest == s.entities[i].rest;
    case IdleTimer =>
  }

  /** No sequence of events moves a container's rest position, so every
      reset returns it to the place it was loaded at. */
  lemma {:induction false} RunKeepsRest(s: Scene, evs: seq<Event>)
    requires SlotWellFormed(s) && AllFit(|s.entities|, |s.field.particles|, evs)
    ensures SameRests(s, Run(s, evs))
    decreases |evs|
  {
    if |evs| > 0 {
      ApplyKeepsRest(s, evs[0]);
      var s1 := Apply(s, evs[0]);
      assert AllFit(|s1.entities|, |s1.field.particles|, evs[1..]);
      RunKeepsRest(s1, evs[1..]);
    }
  }

  lemma ApplyKeepsParticles(s: Scene, ev: Event)
    requires SlotWellFormed(s) && EventFits(|s.entities|, |s.field.particles|, ev)
    ensures SameParticles(s, Apply(s, ev))
  {
  }

  /** No sequence of events moves a particle sideways or changes its speed. */
  lemma {:induction false} RunKeepsParticles(s: Scene, evs: seq<Event>)
    requires SlotWellFormed(s) && AllFit(|s.entities|, |s.field.particles|, evs)
    ensures SameParticles(s, Run(s, evs))
    decreases |evs|
  {
    if |evs| > 0 {
      ApplyKeepsParticles(s, evs[0]);
      var s1 := Apply(s, evs[0]);
      assert AllFit(|s1.entities|, |s1.field.particles|, evs[1..]);
      RunKeepsParticles(s1, evs[1..]);
    }
  }

  /** The engine as loading leaves it, before the first reset: containers
      locked, each group still at the origin with scale 1 and no rotation
      (loading places the inner box, not the group) and the shell's built
      opacity, each remembering its rest position; the lock fixture as
      built; a fresh field. */
  function Loaded(rests: seq<Vec3>, seeds: seq<Seed>): (r: Scene)
    requires forall i :: 0 <= i < |seeds| ==> UnitRandom(seeds[i].rh) && UnitRandom(seeds[i].rs)
    ensures |r.entities| == |rests| && |r.field.particles| == |seeds|
    ensures forall i :: 0 <= i < |rests| ==> r.entities[i].rest == rests[i] && r.entities[i].state == Locked
    ensures forall i :: 0 <= i < |rests| ==>
      && r.entities[i].pos == Vec3(0.0, 0.0, 0.0) && r.entities[i].rotY == 0.0
      && r.entities[i].scale == RestScale && r.entities[i].opacity == InitialOpacity
    ensures r.slot.None? && r.hover.None? && r.status == Idle && r.pendingIdle == 0
    ensures Inv(r)
  {
    Scene(
      seq(|rests|, i requires 0 <= i < |rests| =>
        Entity(Locked, Vec3(0.0, 0.0, 0.0), 0.0, RestScale, InitialOpacity, InitialEmissive, rests[i])),
      None, None, Idle, 0, LockBuiltPose, SpawnField(seeds))
  }

  /** Start-up: the four containers (in whatever order their loads
      finished) and the 600 particles, followed by one reset. */
  function Init(rests: seq<Vec3>, seeds: seq<Seed>, angles: seq<real>): (r: Scene)
    requires multiset(rests) == multiset(RestPositions)
    requires |seeds| == ParticleCount
    requires forall i :: 0 <= i < |seeds| ==> UnitRandom(seeds[i].rh) && UnitRandom(seeds[i].rs)
    requires |angles| == |rests|
    ensures Inv(r)
    ensures |r.entities| == 4 && |r.field.particles| == ParticleCount
    ensures r.slot.None? && r.hover.None? && r.status == Idle && r.pendingIdle == 0
    ensures r.lock == LockRestPose
    ensures forall i :: 0 <= i < 4 ==>
      && r.entities[i].state == Locked
      && r.entities[i].pos in RestPositions
      && r.entities[i].pos == r.entities[i].rest
      && r.entities[i].rest == rests[i]
      && r.entities[i].scale == RestScale
      && r.entities[i].opacity == RestOpacity
  {
    assert |rests| == |multiset(rests)| == 4;
    var loaded := Loaded(rests, seeds);
    var r := Reset(loaded, angles);
    assert forall i :: 0 <= i < 4 ==> r.entities[i].pos == rests[i] && rests[i] in multiset(RestPositions);
    r
  }
}
