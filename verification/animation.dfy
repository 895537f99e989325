/** The single-slot unlock animation: one step advances the running tween
    by the frame's delta, eases its progress, moves the owning container
    toward the fixed terminal pose, spins it faster and faster, and on
    reaching full progress marks it unlocked and empties the slot. */
module Animation {
  import opened Options
  import opened Tweening
  import opened SceneState

  /** The sine values the lock fixture's wobble reads, standing for
      `sin(4 * elapsed)` and `sin(3 * elapsed)`. */
  datatype Wobble = Wobble(rotSine: real, zSine: real)

  /** Normalised progress of a tween that has run for `elapsed` seconds. */
  function Progress(elapsed: real): (t: real)
    ensures t <= 1.0
    ensures 0.0 <= elapsed ==> 0.0 <= t
    ensures t == 1.0 <==> Duration <= elapsed
    ensures elapsed == 0.0 ==> t == 0.0
  {
    Min(elapsed / Duration, 1.0)
  }

  lemma ProgressMonotone(e1: real, e2: real)
    requires e1 <= e2
    ensures Progress(e1) <= Progress(e2)
  {
    assert e1 / Duration <= e2 / Duration;
  }

  /** The eased fraction of the way a tween that has run `elapsed` seconds
      has moved its container. */
  function Eased(elapsed: real): (e: real)
    ensures 0.0 <= elapsed ==> 0.0 <= e <= 1.0
    ensures Duration <= elapsed ==> e == 1.0
    ensures elapsed == 0.0 ==> e == 0.0
  {
    Ease(Progress(elapsed))
  }

  /** A longer run never has a smaller eased fraction. */
  lemma EasedMonotone(e1: real, e2: real)
    requires 0.0 <= e1 <= e2
    ensures Eased(e1) <= Eased(e2)
  {
    ProgressMonotone(e1, e2);
    EaseMonotone(Progress(e1), Progress(e2));
  }

  function WobbleLock(lock: LockPose, w: Wobble): (r: LockPose)
    ensures r.y == lock.y
    ensures -1.0 <= w.zSine <= 1.0 ==> 0.32 <= r.z <= 0.48
    ensures -1.0 <= w.rotSine <= 1.0 ==> -0.2 <= r.rotY <= 0.2
  {
    lock.(rotY := w.rotSine * 0.2, z := 0.4 + w.zSine * 0.08)
  }

  /** The pose the tween writes on its owner, `eased` of the way from the
      start snapshot to the terminal pose, spinning at the interpolated rate
      for `delta` seconds. */
  function Pose(e: Entity, tw: Tween, eased: real, delta: real): (r: Entity)
    ensures r.state == e.state && r.emissive == e.emissive && r.rest == e.rest
    ensures eased == 1.0 ==> r.pos == TargetPos && r.scale == TerminalScale && r.opacity == TerminalOpacity
    ensures eased == 0.0 ==> r.pos == tw.startPos && r.scale == tw.startScale && r.opacity == tw.startOpacity
    ensures 0.0 <= eased <= 1.0 ==> Between(r.scale, tw.startScale, TerminalScale)
    ensures 0.0 <= eased <= 1.0 ==> Between(r.opacity, tw.startOpacity, TerminalOpacity)
    ensures 0.0 <= eased <= 1.0 && 0.0 <= delta ==> e.rotY + BaseRate * delta <= r.rotY <= e.rotY + PeakRate * delta
  {
    assert 0.0 <= eased <= 1.0 && 0.0 <= delta ==> BaseRate * delta <= Spin(eased, delta) <= PeakRate * delta by {
      if 0.0 <= eased <= 1.0 && 0.0 <= delta {
        SpinBounds(eased, delta);
      }
    }
    e.(pos := LerpVec(tw.startPos, TargetPos, eased),
       scale := Lerp(tw.startScale, TerminalScale, eased),
       opacity := Lerp(tw.startOpacity, TerminalOpacity, eased),
       rotY := e.rotY + Spin(eased, delta))
  }

  /** Rotation added by one step at the interpolated spin rate. */
  function Spin(eased: real, delta: real): (a: real)
  {
    Lerp(BaseRate, PeakRate, eased) * delta
  }

  lemma SpinBounds(eased: real, delta: real)
    requires 0.0 <= eased <= 1.0 && 0.0 <= delta
    ensures BaseRate * delta <= Spin(eased, delta)
    ensures Spin(eased, delta) <= PeakRate * delta
  {
    assert Spin(eased, delta) == Lerp(BaseRate * delta, PeakRate * delta, eased);
  }

  /** `x` lies between `a` and `b`, in either order. */
  predicate Between(x: real, a: real, b: real)
  {
    (a <= b ==> a <= x <= b) && (b <= a ==> b <= x <= a)
  }

  /** One frame of the active animation; nothing happens when the slot is
      empty. */
  function StepTween(s: Scene, delta: real, w: Wobble): (r: Scene)
    requires SlotWellFormed(s)
    ensures s.slot.None? ==> r == s
    ensures |r.entities| == |s.entities| && SlotWellFormed(r)
    ensures forall j :: 0 <= j < |s.entities| && !Owns(s, j) ==> r.entities[j] == s.entities[j]
    ensures r.hover == s.hover && r.field == s.field
    ensures r.slot.Some? ==> s.slot.Some? && r.slot.value.owner == s.slot.value.owner
    ensures s.slot.Some? ==> (r.slot.None? <==> Duration <= s.slot.value.elapsed + delta)
    ensures r.lock != s.lock ==> s.slot.Some? && Eased(s.slot.value.elapsed + delta) > WobbleThreshold
    ensures TweenInv(s) && 0.0 <= delta ==> TweenInv(r)
  {
    match s.slot
    case None => s
    case Some(tw) =>
      var elapsed := tw.elapsed + delta;
      var t := Progress(elapsed);
      var eased := Ease(t);
      var moved := Pose(s.entities[tw.owner], tw, eased, delta);
      var lock := if eased > WobbleThreshold then WobbleLock(s.lock, w) else s.lock;
      if t >= 1.0 then
        s.(entities := s.entities[tw.owner := moved.(state := Unlocked)],
           slot := None,
           status := Granted,
           pendingIdle := s.pendingIdle + 1,
           lock := lock)
      else
        s.(entities := s.entities[tw.owner := moved],
           slot := Some(tw.(elapsed := elapsed)),
           lock := lock)
  }

  /** Completion: once the accumulated time reaches the duration, the owner
      is unlocked at exactly the terminal pose, the slot is empty, the status
      reads "Access granted" and one more deferred idle write is pending. */
  lemma StepCompletes(s: Scene, delta: real, w: Wobble)
    requires TweenInv(s) && s.slot.Some?
    requires Duration <= s.slot.value.elapsed + delta
    ensures var r := StepTween(s, delta, w);
            var i := s.slot.value.owner;
            && r.slot.None?
            && r.entities[i].state == Unlocked
            && r.entities[i].pos == TargetPos
            && r.entities[i].scale == TerminalScale
            && r.entities[i].opacity == TerminalOpacity
            && r.status == Granted
            && r.pendingIdle == s.pendingIdle + 1
            && forall j :: 0 <= j < |r.entities| ==> r.entities[j].state != Unlocking
  {
  }

  /** Before the duration is reached the tween keeps its slot and owner
      and leaves the status and the pending idle writes alone. */
  lemma StepContinues(s: Scene, delta: real, w: Wobble)
    requires TweenInv(s) && s.slot.Some?
    requires s.slot.value.elapsed + delta < Duration
    ensures var r := StepTween(s, delta, w);
            var tw := s.slot.value;
            && r.slot == Some(tw.(elapsed := tw.elapsed + delta))
            && r.entities[tw.owner].state == Unlocking
            && r.status == s.status && r.pendingIdle == s.pendingIdle
  {
  }

  /** While running, the tween keeps its owner's scale and opacity between
      the start snapshot and the terminal values, and spins it at a rate in
      [0.4, 2.5] per second. */
  lemma StepStaysBetween(s: Scene, delta: real, w: Wobble)
    requires TweenInv(s) && s.slot.Some? && 0.0 <= delta
    ensures var r := StepTween(s, delta, w);
            var tw := s.slot.value;
            var e := r.entities[tw.owner];
            && Between(e.scale, tw.startScale, TerminalScale)
            && Between(e.opacity, tw.startOpacity, TerminalOpacity)
            && s.entities[tw.owner].rotY + BaseRate * delta <= e.rotY <= s.entities[tw.owner].rotY + PeakRate * delta
  {
    var tw := s.slot.value;
    var eased := Eased(tw.elapsed + delta);
    assert StepTween(s, delta, w).entities[tw.owner] == Pose(s.entities[tw.owner], tw, eased, delta).(state := StepTween(s, delta, w).entities[tw.owner].state);
  }

  /** The owner's position and scale are where the easing curve puts them
      for the time the tween has run (opacity is not: the pulse rewrites it
      every frame before the tween does). */
  predicate OnTrack(s: Scene)
    requires SlotWellFormed(s)
  {
    s.slot.Some? ==>
      var tw := s.slot.value;
      var e := s.entities[tw.owner];
      && e.pos == LerpVec(tw.startPos, TargetPos, Eased(tw.elapsed))
      && e.scale == Lerp(tw.startScale, TerminalScale, Eased(tw.elapsed))
  }

  lemma StepKeepsOnTrack(s: Scene, delta: real, w: Wobble)
    requires SlotWellFormed(s) && OnTrack(s)
    ensures OnTrack(StepTween(s, delta, w))
  {
  }

  /** Every step moves the owner's scale and each position coordinate no
      farther from the terminal pose than they were. */
  lemma StepApproachesTarget(s: Scene, delta: real, w: Wobble)
    requires TweenInv(s) && OnTrack(s) && s.slot.Some? && 0.0 <= delta
    ensures var r := StepTween(s, delta, w);
            var i := s.slot.value.owner;
            && Abs(r.entities[i].scale - TerminalScale) <= Abs(s.entities[i].scale - TerminalScale)
            && Abs(r.entities[i].pos.x - TargetPos.x) <= Abs(s.entities[i].pos.x - TargetPos.x)
            && Abs(r.entities[i].pos.y - TargetPos.y) <= Abs(s.entities[i].pos.y - TargetPos.y)
            && Abs(r.entities[i].pos.z - TargetPos.z) <= Abs(s.entities[i].pos.z - TargetPos.z)
  {
    var tw := s.slot.value;
    var w1 := Eased(tw.elapsed);
    var w2 := Eased(tw.elapsed + delta);
    EasedMonotone(tw.elapsed, tw.elapsed + delta);
    LerpApproaches(tw.startScale, TerminalScale, w1, w2);
    LerpApproaches(tw.startPos.x, TargetPos.x, w1, w2);
    LerpApproaches(tw.startPos.y, TargetPos.y, w1, w2);
    LerpApproaches(tw.startPos.z, TargetPos.z, w1, w2);
  }
}
