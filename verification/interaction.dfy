/** The interaction state machine: hover tracking from the per-frame pick,
    the click that starts an unlock, the reset command, and the deferred
    "Status: Idle" write that a completed unlock schedules. */
module Interaction {
  import opened Options
  import opened SceneState

  /** Applies one frame's pick result. The status changes only when the
      pick enters a different object or when hover is lost. */
  function Hover(s: Scene, pick: Option<nat>): (r: Scene)
    ensures r.hover == pick
    ensures r.entities == s.entities && r.slot == s.slot && r.pendingIdle == s.pendingIdle
    ensures r.lock == s.lock && r.field == s.field
    ensures pick.Some? && pick != s.hover ==> r.status == Ready
    ensures pick.None? && s.hover.Some? ==> r.status == Idle
    ensures pick == s.hover ==> r == s
  {
    match pick
    case Some(_) => if pick != s.hover then s.(hover := pick, status := Ready) else s
    case None => if s.hover.Some? then s.(hover := None, status := Idle) else s
  }

  /** Feeding the same pick twice is feeding it once. */
  lemma HoverIdempotent(s: Scene, pick: Option<nat>)
    ensures Hover(Hover(s, pick), pick) == Hover(s, pick)
  {
  }

  /** A click on `target` starts an unlock exactly when something is
      targeted, no animation runs, the target is a registry container and
      that container is locked. */
  predicate CanStart(s: Scene, target: Option<nat>)
  {
    && target.Some?
    && s.slot.None?
    && target.value < |s.entities|
    && s.entities[target.value].state == Locked
  }

  /** Starts the unlock animation of `target`, snapshotting its current
      position, scale and shell opacity; every other case changes nothing. */
  function Trigger(s: Scene, target: Option<nat>): (r: Scene)
    ensures !CanStart(s, target) ==> r == s
    ensures CanStart(s, target) ==>
      var i := target.value;
      var e := s.entities[i];
      && r.slot == Some(Tween(i, 0.0, e.pos, e.scale, e.opacity))
      && |r.entities| == |s.entities|
      && r.entities[i] == e.(state := Unlocking)
      && (forall j :: 0 <= j < |s.entities| && j != i ==> r.entities[j] == s.entities[j])
      && r.status == Decrypting
      && r.hover == s.hover && r.pendingIdle == s.pendingIdle && r.lock == s.lock && r.field == s.field
    ensures TweenInv(s) ==> TweenInv(r)
  {
    if !CanStart(s, target) then s
    else
      var i := target.value;
      var e := s.entities[i];
      s.(entities := s.entities[i := e.(state := Unlocking)],
         status := Decrypting,
         slot := Some(Tween(i, 0.0, e.pos, e.scale, e.opacity)))
  }

  /** The canvas click: it acts only through the hovered object. */
  function Click(s: Scene): (r: Scene)
    ensures s.hover.None? ==> r == s
    ensures r != s ==> s.hover.Some? && r.slot.Some? && r.slot.value.owner == s.hover.value
    ensures r != s <==> CanStart(s, s.hover)
    ensures TweenInv(s) ==> TweenInv(r)
  {
    if s.hover.None? then s else Trigger(s, s.hover)
  }

  /** The pose reset gives one container, with `angle` standing for the
      freshly drawn `Math.random() * 2 * PI`. */
  function ResetEntity(e: Entity, angle: real): (r: Entity)
    ensures r.state == Locked && r.pos == e.rest && r.scale == RestScale && r.opacity == RestOpacity
    ensures r.rotY == angle && r.rest == e.rest && r.emissive == e.emissive
  {
    e.(state := Locked, pos := e.rest, scale := RestScale, rotY := angle, opacity := RestOpacity)
  }

  /** The reset command. On an empty registry it does nothing; otherwise it
      empties the animation slot, puts every container back at rest and
      locked, puts the lock fixture back, and shows "Status: Idle". It
      leaves the hover and the pending idle writes alone. */
  function Reset(s: Scene, angles: seq<real>): (r: Scene)
    requires |angles| == |s.entities|
    ensures |s.entities| == 0 ==> r == s
    ensures |r.entities| == |s.entities|
    ensures |s.entities| > 0 ==>
      && r.slot.None?
      && r.status == Idle
      && r.lock == LockRestPose
      && forall i :: 0 <= i < |s.entities| ==> r.entities[i] == ResetEntity(s.entities[i], angles[i])
    ensures r.hover == s.hover && r.pendingIdle == s.pendingIdle && r.field == s.field
    ensures |s.entities| > 0 || TweenInv(s) ==> TweenInv(r)
  {
    if |s.entities| == 0 then s
    else
      s.(slot := None,
         entities := seq(|s.entities|, i requires 0 <= i < |s.entities| => ResetEntity(s.entities[i], angles[i])),
         lock := LockRestPose,
         status := Idle)
  }

  /** Resetting twice with the same angles is resetting once. */
  lemma ResetIdempotent(s: Scene, angles: seq<real>)
    requires |angles| == |s.entities|
    ensures Reset(Reset(s, angles), angles) == Reset(s, angles)
  {
    var once := Reset(s, angles);
    var twice := Reset(once, angles);
    if |s.entities| > 0 {
      assert forall i :: 0 <= i < |s.entities| ==> twice.entities[i] == once.entities[i];
      assert twice.entities == once.entities;
    }
  }

  /** One deferred "Status: Idle" write firing, scheduled 2500 ms after a
      completed unlock; the delay is not modelled as a clock. It only
      touches the status, whatever is happening, and a reset never cancels
      it. */
  function IdleTimerFires(s: Scene): (r: Scene)
    ensures s.pendingIdle == 0 ==> r == s
    ensures s.pendingIdle > 0 ==> r.status == Idle && r.pendingIdle == s.pendingIdle - 1
    ensures r.entities == s.entities && r.slot == s.slot && r.hover == s.hover
    ensures r.lock == s.lock && r.field == s.field
  {
    if s.pendingIdle == 0 then s else s.(status := Idle, pendingIdle := s.pendingIdle - 1)
  }
}
