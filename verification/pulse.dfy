/** The per-frame glow pulse. The source draws a phase-shifted sine of the
    clock for each container; here the sine value `s` in [-1, 1] is an
    input, and the module maps it to emissive intensity and shell opacity. */
module Pulse {
  import opened SceneState

  predicate UnitSine(s: real)
  {
    -1.0 <= s <= 1.0
  }

  /** The pulse factor, in [0.6, 1.4]. */
  function Wave(s: real): (p: real)
    ensures UnitSine(s) ==> 0.6 <= p <= 1.4
  {
    (s + 1.0) * 0.4 + 0.6
  }

  function Emissive(s: real): (e: real)
    ensures UnitSine(s) ==> 0.98 <= e <= 1.22
  {
    0.8 + Wave(s) * 0.3
  }

  function ShellOpacity(s: real): (o: real)
    ensures UnitSine(s) ==> 0.18 <= o <= 0.26
  {
    0.12 + Wave(s) * 0.1
  }

  /** Reads the sine value back from the opacity it produced. */
  function SineOfOpacity(o: real): (s: real)
    ensures 0.18 <= o <= 0.26 ==> UnitSine(s)
    ensures ShellOpacity(s) == o
  {
    ((o - 0.12) / 0.1 - 0.6) / 0.4 - 1.0
  }

  /** The opacity map is one-to-one: the sine value is recoverable. */
  lemma OpacityRoundTrip(s: real)
    ensures SineOfOpacity(ShellOpacity(s)) == s
  {
  }

  /** Both outputs rise and fall together with the sine. */
  lemma PulseMonotone(s1: real, s2: real)
    requires s1 <= s2
    ensures Emissive(s1) <= Emissive(s2)
    ensures ShellOpacity(s1) <= ShellOpacity(s2)
  {
  }

  function PulseEntity(e: Entity, s: real): (r: Entity)
    ensures r.state == e.state && r.pos == e.pos && r.rotY == e.rotY
    ensures r.scale == e.scale && r.rest == e.rest
    ensures r.emissive == Emissive(s) && r.opacity == ShellOpacity(s)
  {
    e.(emissive := Emissive(s), opacity := ShellOpacity(s))
  }

  /** The pulse writes every container, whatever its state: only emissive
      intensity and shell opacity change, and both come from that
      container's own sine value. */
  function PulseAll(es: seq<Entity>, sines: seq<real>): (r: seq<Entity>)
    requires |sines| == |es|
    ensures |r| == |es|
    ensures forall i :: 0 <= i < |es| ==> r[i] == PulseEntity(es[i], sines[i])
  {
    seq(|es|, i requires 0 <= i < |es| => PulseEntity(es[i], sines[i]))
  }

  /** Pulsing twice with the same sine values is pulsing once. */
  lemma PulseIdempotent(es: seq<Entity>, sines: seq<real>)
    requires |sines| == |es|
    ensures PulseAll(PulseAll(es, sines), sines) == PulseAll(es, sines)
  {
    var once := PulseAll(es, sines);
    var twice := PulseAll(once, sines);
    assert forall i :: 0 <= i < |es| ==> twice[i] == once[i];
  }
}
