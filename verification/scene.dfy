/** The engine's whole state: the registry of lockable file containers, the
    single animation slot, the hovered container, the status line, the
    deferred status resets still pending, the central lock fixture and the
    particle field. */
module SceneState {
  import opened Options
  import opened Tweening
  import opened Particles

  datatype LockState = Locked | Unlocking | Unlocked

  /** The status line. The strings shown are "Status: Idle", "Status:
      Encrypted file ready", "Status: Decrypting..." and "Status: Access
      granted", in the order of the constructors. */
  datatype Status = Idle | Ready | Decrypting | Granted

  /** One container: its state, the transform of its group (position,
      rotation about the vertical axis, uniform scale), the visual
      parameters the pulse and the animation write (shell opacity and
      emissive intensity), and the rest position reset restores. */
  datatype Entity = Entity(
    state: LockState,
    pos: Vec3,
    rotY: real,
    scale: real,
    opacity: real,
    emissive: real,
    rest: Vec3)

  /** The active unlock animation: the registry index it drives, the time
      accumulated so far, and the pose captured when it started. */
  datatype Tween = Tween(owner: nat, elapsed: real, startPos: Vec3, startScale: real, startOpacity: real)

  /** The part of the central lock fixture's transform the engine writes. */
  datatype LockPose = LockPose(rotY: real, y: real, z: real)

  /** `hover` is the picked object, an index into `entities` when the pick
      resolved to a registry group; `pendingIdle` counts deferred
      "Status: Idle" writes scheduled but not yet fired. */
  datatype Scene = Scene(
    entities: seq<Entity>,
    slot: Option<Tween>,
    hover: Option<nat>,
    status: Status,
    pendingIdle: nat,
    lock: LockPose,
    field: Field)

  /** Length of an unlock animation, in seconds. */
  const Duration: real := 2.4
  /** Where an unlocked container ends up. */
  const TargetPos: Vec3 := Vec3(0.0, 1.4, 0.3)
  const TerminalScale: real := 0.35
  const TerminalOpacity: real := 0.25
  /** Spin rate of the animated container at the start and end of the run. */
  const BaseRate: real := 0.4
  const PeakRate: real := 2.5
  /** Eased progress past which the lock fixture wobbles. */
  const WobbleThreshold: real := 0.92
  /** Shell opacity and scale reset restores. */
  const RestOpacity: real := 0.18
  const RestScale: real := 1.0
  const InitialOpacity: real := 0.15
  const InitialEmissive: real := 0.8
  /** The lock fixture as built, and as reset puts it. */
  const LockBuiltPose: LockPose := LockPose(0.0, 1.35, 0.4)
  const LockRestPose: LockPose := LockPose(0.0, 1.4, 0.4)

  /** The four rest positions of the containers. */
  const RestPositions: seq<Vec3> := [
    Vec3(-2.0, 0.5, -1.2),
    Vec3(2.4, 0.75, -0.8),
    Vec3(-1.2, 0.4, 2.1),
    Vec3(1.6, 0.9, 1.5)
  ]

  predicate Owns(s: Scene, i: nat)
  {
    s.slot.Some? && s.slot.value.owner == i
  }

  /** The slot, when full, names a container of the registry. */
  predicate SlotWellFormed(s: Scene)
  {
    s.slot.Some? ==> s.slot.value.owner < |s.entities|
  }

  /** The state-machine invariant: a container is unlocking exactly when it
      owns the animation slot, and a running animation has not yet reached
      its full length. */
  predicate TweenInv(s: Scene)
  {
    && SlotWellFormed(s)
    && (s.slot.Some? ==> 0.0 <= s.slot.value.elapsed < Duration)
    && forall i :: 0 <= i < |s.entities| ==> (s.entities[i].state == Unlocking <==> Owns(s, i))
  }

  /** Under the invariant at most one container is unlocking, and it is the
      slot's owner. */
  lemma AtMostOneUnlocking(s: Scene, i: nat, j: nat)
    requires TweenInv(s)
    requires i < |s.entities| && j < |s.entities|
    requires s.entities[i].state == Unlocking && s.entities[j].state == Unlocking
    ensures i == j && Owns(s, i)
  {
  }
}
