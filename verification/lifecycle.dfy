/** Properties of whole runs of the engine: who writes a container's
    opacity during an unlock, how many frames an unlock takes, the order in
    which a container moves through its states, and how a stale deferred
    idle write can overwrite the status of a later unlock. */
module Lifecycle {
  import opened Options
  import opened Tweening
  import opened SceneState
  import opened Pulse
  import opened Animation
  import opened Interaction
  import opened FrameLoop

  /** Within a frame the pulse writes every container's opacity first and
      the animation writes its owner's last, so the owner ends the frame at
      the animation's opacity whatever its pulse sine was; every other
      container ends at its pulse opacity. */
  lemma OwnerIsLastWriter(s: Scene, f: FrameInput)
    requires Inv(s) && s.slot.Some? && TickFits(|s.entities|, |s.field.particles|, f)
    ensures var r := Frame(s, f);
            var tw := s.slot.value;
            && r.entities[tw.owner].opacity
               == Lerp(tw.startOpacity, TerminalOpacity, Eased(tw.elapsed + FrameDelta(f.rawDelta)))
            && forall j :: 0 <= j < |s.entities| && j != tw.owner ==> r.entities[j].opacity == ShellOpacity(f.sines[j])
  {
  }

  /** Frames never start an animation: with an empty slot the slot stays
      empty and no container changes state. */
  lemma FrameWhileIdle(s: Scene, f: FrameInput)
    requires SlotWellFormed(s) && s.slot.None? && TickFits(|s.entities|, |s.field.particles|, f)
    ensures Frame(s, f).slot.None?
    ensures forall i :: 0 <= i < |s.entities| ==> Frame(s, f).entities[i].state == s.entities[i].state
  {
  }

  predicate DefaultTick(ev: Event)
  {
    ev.Tick? && ev.input.rawDelta.None?
  }

  /** Frames entered while the slot is empty, at any deltas, keep it empty
      and leave every container's state as it was. */
  lemma {:induction false} IdleTicks(s: Scene, evs: seq<Event>)
    requires SlotWellFormed(s) && s.slot.None? && AllFit(|s.entities|, |s.field.particles|, evs)
    requires forall k :: 0 <= k < |evs| ==> evs[k].Tick?
    ensures Run(s, evs).slot.None?
    ensures forall i :: 0 <= i < |s.entities| ==> Run(s, evs).entities[i].state == s.entities[i].state
    decreases |evs|
  {
    if |evs| > 0 {
      FrameWhileIdle(s, evs[0].input);
      var s1 := Apply(s, evs[0]);
      assert AllFit(|s1.entities|, |s1.field.particles|, evs[1..]);
      IdleTicks(s1, evs[1..]);
    }
  }

  /** How long an unlock takes at the default delta: after `n` frames the
      owner is unlocked exactly when the time already run plus `n` default
      deltas reaches the duration; until then the animation is still
      running with that much time accumulated. */
  lemma {:induction false} UnlockTiming(s: Scene, evs: seq<Event>)
    requires Inv(s) && s.slot.Some? && AllFit(|s.entities|, |s.field.particles|, evs)
    requires forall k :: 0 <= k < |evs| ==> DefaultTick(evs[k])
    ensures var r := Run(s, evs);
            var tw := s.slot.value;
            var total := tw.elapsed + DefaultDelta * |evs| as real;
            && (r.entities[tw.owner].state == Unlocked <==> Duration <= total)
            && (total < Duration ==> r.slot == Some(tw.(elapsed := total)))
            && (Duration <= total ==> r.slot.None?)
    decreases |evs|
  {
    var tw := s.slot.value;
    if |evs| > 0 {
      var f := evs[0].input;
      var d := FrameDelta(f.rawDelta);
      assert d == DefaultDelta;
      var hovered := Hover(Pulsed(s, d, f), f.pick);
      assert TweenInv(hovered) && hovered.slot == s.slot;
      var s1 := Apply(s, evs[0]);
      assert s1 == StepTween(hovered, d, f.wobble);
      FramePreservesInv(s, f);
      assert AllFit(|s1.entities|, |s1.field.particles|, evs[1..]);
      assert Run(s, evs) == Run(s1, evs[1..]);
      if Duration <= tw.elapsed + d {
        StepCompletes(hovered, d, f.wobble);
        IdleTicks(s1, evs[1..]);
      } else {
        StepContinues(hovered, d, f.wobble);
        UnlockTiming(s1, evs[1..]);
      }
    }
  }

  /** At the default delta of 0.016 s an unlock started by a click takes
      exactly 150 frames: after 149 the container is still unlocking, after
      150 it is unlocked. */
  lemma UnlockTakes150Frames(s: Scene, evs: seq<Event>)
    requires Inv(s) && s.slot.Some? && s.slot.value.elapsed == 0.0
    requires |evs| == 150 && AllFit(|s.entities|, |s.field.particles|, evs)
    requires forall k :: 0 <= k < |evs| ==> DefaultTick(evs[k])
    ensures Run(s, evs[..149]).entities[s.slot.value.owner].state == Unlocking
    ensures Run(s, evs).entities[s.slot.value.owner].state == Unlocked
  {
    var first := evs[..149];
    assert AllFit(|s.entities|, |s.field.particles|, first);
    UnlockTiming(s, first);
    UnlockTiming(s, evs);
    var r := Run(s, first);
    RunPreservesInv(s, first);
    assert r.slot.Some? && r.slot.value.owner == s.slot.value.owner;
  }

  /** How far along its lifecycle a container is. */
  function Rank(st: LockState): (k: nat)
  {
    match st
    case Locked => 0
    case Unlocking => 1
    case Unlocked => 2
  }

  /** The single-event moves a container may make without a reset: stay,
      start unlocking, or finish unlocking. */
  predicate Allowed(a: LockState, b: LockState)
  {
    a == b || (a == Locked && b == Unlocking) || (a == Unlocking && b == Unlocked)
  }

  /** Every event but the reset moves each container by an allowed step
      only; in particular nothing but a reset takes an unlocking or
      unlocked container back to locked. */
  lemma ApplyMovesForward(s: Scene, ev: Event)
    requires Inv(s) && !ev.ResetPressed? && EventFits(|s.entities|, |s.field.particles|, ev)
    ensures forall i :: 0 <= i < |s.entities| ==> Allowed(s.entities[i].state, Apply(s, ev).entities[i].state)
  {
    match ev
    case ClickEvent =>
    case IdleTimer =>
    case Tick(f) =>
      var d := FrameDelta(f.rawDelta);
      var hovered := Hover(Pulsed(s, d, f), f.pick);
      assert forall i :: 0 <= i < |s.entities| ==> hovered.entities[i].state == s.entities[i].state;
      if hovered.slot.Some? {
        var tw := hovered.slot.value;
        if Duration <= tw.elapsed + d {
          StepCompletes(hovered, d, f.wobble);
        } else {
          StepContinues(hovered, d, f.wobble);
        }
      }
  }

  /** Over any run without a reset no container's state goes backwards. */
  lemma {:induction false} RunMovesForward(s: Scene, evs: seq<Event>)
    requires Inv(s) && AllFit(|s.entities|, |s.field.particles|, evs)
    requires forall k :: 0 <= k < |evs| ==> !evs[k].ResetPressed?
    ensures forall i :: 0 <= i < |s.entities| ==> Rank(s.entities[i].state) <= Rank(Run(s, evs).entities[i].state)
    decreases |evs|
  {
    if |evs| > 0 {
      ApplyMovesForward(s, evs[0]);
      ApplyPreservesInv(s, evs[0]);
      var s1 := Apply(s, evs[0]);
      assert AllFit(|s1.entities|, |s1.field.particles|, evs[1..]);
      RunMovesForward(s1, evs[1..]);
    }
  }

  /** A click while another container is unlocking changes nothing: the
      clicked container stays as it is and the running animation is
      untouched. */
  lemma ClickDuringUnlockIgnored(s: Scene)
    requires Inv(s) && s.slot.Some?
    ensures Click(s) == s
  {
  }

  /** A reset during an unlock cancels it: the slot is empty at once and the
      container that was unlocking is locked at its rest position, scale and
      opacity. */
  lemma ResetCancelsUnlock(s: Scene, angles: seq<real>)
    requires Inv(s) && s.slot.Some? && |angles| == |s.entities|
    ensures var r := Reset(s, angles);
            var i := s.slot.value.owner;
            && r.slot.None?
            && r.entities[i].state == Locked
            && r.entities[i].pos == s.entities[i].rest
            && r.entities[i].scale == RestScale
            && r.entities[i].opacity == RestOpacity
            && forall j :: 0 <= j < |r.entities| ==> r.entities[j].state != Unlocking
  {
  }

  /** The deferred idle write is never cancelled: if one is still pending
      when a new unlock starts, its firing shows "Status: Idle" while that
      unlock is running. */
  lemma StaleIdleOverwritesDecrypting(s: Scene)
    requires Inv(s) && s.pendingIdle > 0 && CanStart(s, s.hover)
    ensures var started := Click(s);
            var r := IdleTimerFires(started);
            && started.status == Decrypting
            && r.status == Idle
            && r.slot.Some?
            && r.entities[s.hover.value].state == Unlocking
  {
  }

  /** Reset keeps every pending idle write, so the hazard above survives a
      reset between the completed unlock and the new one. */
  lemma ResetKeepsPendingIdle(s: Scene, angles: seq<real>)
    requires Inv(s) && s.pendingIdle > 0 && |angles| == |s.entities|
    ensures Reset(s, angles).pendingIdle == s.pendingIdle
    ensures IdleTimerFires(Reset(s, angles)).status == Idle
  {
  }
}
