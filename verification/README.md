# Vault unlock engine — a Dafny model

This project models the interaction and animation engine of a small
Three.js scene (`main.js`). In the scene, four encrypted-file containers sit
around a central vault lock. The user hovers a container and clicks it to
unlock it. An eased animation then carries the container to the front of the
vault, shrinks it and spins it faster and faster. When the animation ends, the
status line reports that access was granted. A reset command locks everything
again. Two things move on their own all the time: a field of particles that
rises and wraps around, and a per-container glow pulse.

All of the engine is modelled with immutable values and pure functions over
exact reals:

- `Tweening`: linear interpolation and the cubic ease-in-out curve.
- `Particles`: spawning the particles, the per-frame rise with recycling, and
  the field's spin.
- `SceneState`: the containers (`locked`, `unlocking`, `unlocked`), the
  single animation slot, the hover, the status line, the pending deferred
  "Idle" writes, the lock fixture's pose, and the state-machine invariant.
- `Pulse`: the map from a sine value to emissive intensity and shell opacity.
- `Animation`: one step of the active tween, and what happens on completion.
- `Interaction`: hover, click, reset, and the deferred idle write.
- `FrameLoop`: the delta clamp, the order of work within a frame, events,
  runs, start-up, and preservation of the invariant.
- `Lifecycle`: properties of whole runs. These cover who writes the
  opacity last, how long an unlock takes, the order of states, and the
  stale idle write.

The source keeps the running animation in a closure. Here it is an explicit
`Option<Tween>` holding the owner index, the elapsed time and the start
snapshot. The deferred `setTimeout` "Idle" write becomes a counter of pending
writes plus an `IdleTimer` event. Raycasting, `Math.random`, `Math.sin` and the
clock are all inputs. The pick result is an `Option<nat>`: an index below the
registry size names that container, and any other index stands for a picked
group that is not a registry group, so a click on it finds nothing.

Behaviour the model follows from the code:

- The pulse writes every container's opacity and emissive intensity on every
  frame, whatever the container's state. The animation runs later in the same
  frame, so it is the last writer of its owner's opacity. After completion
  the pulse takes over again on the next frame.
- The particles move inside the pulse phase, so before hover and before the
  animation.
- Reset leaves the hover as it is. It also leaves every pending deferred idle
  write in place.
- The controls object has no `getDelta` method, because OrbitControls does not
  define one. So every frame uses `min(0.05, 0.016) = 0.016` s. The model
  keeps the clock reading as an optional input. An unlock therefore takes
  exactly 150 frames (`Lifecycle.UnlockTakes150Frames`).
- The containers are stored in the order their loads finished, not in index
  order. `FrameLoop.Init` therefore takes the rest positions in any order.

## Model

| member | source | states |
|---|---|---|
| Tweening.Lerp | main.js:390-398 | interpolation returns its start at weight 0 and its end at weight 1, and for weights in [0,1] stays between the two ends |
| Tweening.LerpVec | main.js:388 | vector interpolation is the scalar interpolation on each coordinate, starting at the start vector and ending at the end vector |
| Tweening.Ease | main.js:386 | the ease-in-out cubic maps 0 to 0, 1/2 to 1/2 and 1 to 1, and maps [0,1] into [0,1] |
| Tweening.EaseMonotone | main.js:386 | the eased progress never decreases as progress grows on [0,1], across the switch between the two cubic branches too |
| Tweening.EaseBranchesMeet | main.js:386 | the two cubic branches both give 1/2 at the midpoint, so the curve is continuous there |
| Tweening.LerpApproaches | main.js:388-396 | raising the interpolation weight never moves the value farther from its target |
| Tweening.ShrinkToward | main.js:388-396 | the arithmetic step behind `Tweening.LerpApproaches`: the remaining distance to the target is `(1 - w)` times the full distance, and a smaller non-negative share of it is never larger in size |
| Particles.Spawn | main.js:280-288 | a spawned particle keeps its drawn x and z, starts at a height in [0, 2.8) and rises at a speed in [0.25, 0.65) |
| Particles.SpawnField | main.js:274-288 | the field starts unrotated with one well-placed particle per draw, each at its drawn x and z |
| Particles.Rise | main.js:324-327 | a particle's x, z and speed never change; its height never ends above 3.5; it rises by speed times delta when that stays at or under 3.5, and otherwise restarts in [0, 0.5) |
| Particles.RiseKeepsParticleOk | main.js:323-328 | over a non-negative frame, a height in [0, 3.5] stays in [0, 3.5], and a particle that ends lower than it started has been recycled below 0.5 |
| Particles.Step | main.js:319-330 | the field spins by 0.15 times delta, every particle rises independently, and the field invariant is kept for non-negative deltas |
| Particles.StepInPlace | main.js:320-328 | the in-place loop over the particle buffer computes the same field as the per-particle rise |
| SceneState.AtMostOneUnlocking | main.js:368-372 | under the invariant, two unlocking containers are the same container, and it owns the animation slot |
| Pulse.Wave | main.js:314 | for a sine in [-1,1] the pulse factor lies in [0.6, 1.4] |
| Pulse.Emissive | main.js:315 | for a sine in [-1,1] the emissive intensity lies in [0.98, 1.22] |
| Pulse.ShellOpacity | main.js:316 | for a sine in [-1,1] the shell opacity lies in [0.18, 0.26] |
| Pulse.SineOfOpacity | main.js:316 | the inverse of the opacity map: an opacity in [0.18, 0.26] comes from a sine in [-1,1], and mapping it back gives that opacity |
| Pulse.OpacityRoundTrip | main.js:316 | reading the sine back from the opacity it produced gives the sine |
| Pulse.PulseMonotone | main.js:314-316 | emissive intensity and opacity both rise with the sine |
| Pulse.PulseEntity | main.js:312-317 | the pulse changes only a container's emissive intensity and opacity, and leaves its state, transform and rest position alone |
| Pulse.PulseAll | main.js:312-317 | the pulse reaches every container, whatever its state, and each container uses its own sine |
| Pulse.PulseIdempotent | main.js:312-317 | pulsing twice with the same sines is the same as pulsing once |
| Animation.Progress | main.js:385 | progress is at most 1, is non-negative for non-negative time, is 0 at the start, and reaches 1 exactly when the elapsed time reaches 2.4 s |
| Animation.ProgressMonotone | main.js:384-385 | more elapsed time never means less progress |
| Animation.Eased | main.js:385-386 | the eased fraction lies in [0,1], is 0 at the start and 1 from 2.4 s on |
| Animation.EasedMonotone | main.js:384-386 | the eased fraction never decreases as time accumulates |
| Animation.WobbleLock | main.js:401-404 | the lock wobble keeps the fixture's height, and keeps its z in [0.32, 0.48] and its rotation in [-0.2, 0.2] |
| Animation.Pose | main.js:388-399 | the tween's pose leaves state, emissive intensity and rest position alone; it is the start snapshot at weight 0 and exactly (0, 1.4, 0.3), 0.35 and 0.25 at weight 1; scale and opacity stay between start and target; the spin added is between 0.4 and 2.5 times delta |
| Animation.SpinBounds | main.js:398-399 | the rotation added in one step is between 0.4 and 2.5 radians per second times delta |
| Animation.StepTween | main.js:383-414 | a step with an empty slot does nothing; otherwise it changes only the owner; the slot empties if and only if the accumulated time plus this frame's delta reaches 2.4 s; the lock fixture moves only when the eased progress is above 0.92; the state-machine invariant is kept |
| Animation.StepCompletes | main.js:406-413 | once the accumulated time reaches 2.4 s, the owner is unlocked at exactly (0, 1.4, 0.3) with scale 0.35 and opacity 0.25; the slot is empty, the status reads "Access granted", one more idle write is pending, and no container is unlocking |
| Animation.StepContinues | main.js:383-409 | before 2.4 s the tween keeps its slot and owner and adds delta to its elapsed time; status and pending writes are untouched |
| Animation.StepStaysBetween | main.js:388-399 | while running, the owner's scale and opacity stay between the start snapshot and the targets, and its rotation grows by between 0.4 and 2.5 times delta |
| Animation.StepKeepsOnTrack | main.js:376-399 | after every step the owner's position and scale are where the easing curve puts them for the time run |
| Animation.StepApproachesTarget | main.js:384-396 | no step moves the owner's scale or any coordinate of its position farther from the target |
| Interaction.Hover | main.js:350-364 | afterwards the hover equals the pick; a pick of a different object shows "Encrypted file ready"; losing hover shows "Idle"; an unchanged pick changes nothing; nothing but hover and status ever changes |
| Interaction.HoverIdempotent | main.js:350-364 | applying the same pick twice is the same as applying it once |
| Interaction.Trigger | main.js:367-383 | with no target, a running animation, a target outside the registry, or a target that is not locked, nothing changes; otherwise only the target becomes unlocking, the status reads "Decrypting...", and the slot holds the target's current position, scale and opacity with zero elapsed time; the invariant is kept |
| Interaction.Click | main.js:446-449 | with no hover nothing changes; a click changes the scene exactly when it can start the hovered container, and the animation it starts belongs to that container |
| Interaction.ResetEntity | main.js:421-427 | a reset container is locked at its rest position with scale 1, opacity 0.18 and the drawn rotation, and keeps its emissive intensity |
| Interaction.Reset | main.js:417-435 | on an empty registry nothing changes; otherwise the slot empties, every container is reset, the lock fixture returns to (0, 1.4, 0.4) unrotated and the status reads "Idle"; hover, pending idle writes and particles are kept; the invariant holds afterwards |
| Interaction.ResetIdempotent | main.js:417-435 | resetting twice with the same rotation draws gives the same scene as resetting once |
| Interaction.IdleTimerFires | main.js:410-412 | a pending deferred write shows "Idle" and touches nothing else, whatever is running |
| FrameLoop.FrameDelta | main.js:463 | the frame delta is never above 0.05 s; it is 0.016 s when no clock reading is offered, and the reading itself when that is at most 0.05 s |
| FrameLoop.Pulsed | main.js:311-330 | the first phase of a frame gives every container its pulse opacity and intensity, changes no state or transform, and keeps the field invariant |
| FrameLoop.Frame | main.js:461-467 | a frame keeps the registry and field sizes, ends with the hover equal to the pick, and never gives the slot a new owner |
| FrameLoop.Apply | main.js:445-453 | every event keeps the registry and field sizes and keeps the slot pointing into the registry |
| FrameLoop.Run | main.js:445-473 | any sequence of events keeps the registry and field sizes and keeps the slot pointing into the registry |
| FrameLoop.FramePreservesInv | main.js:465-467 | a frame keeps the whole invariant |
| FrameLoop.ApplyPreservesInv | main.js:445-453 | click, reset, frame and idle-timer events each keep the whole invariant |
| FrameLoop.RunPreservesInv | main.js:367-422 | after any sequence of clicks, frames, resets and timer firings, a container is unlocking exactly when it owns the animation slot, so at most one container is unlocking |
| FrameLoop.ApplyKeepsRest | main.js:262-267 | no single event changes any container's remembered rest position |
| FrameLoop.RunKeepsRest | main.js:421-423 | after any sequence of events every container still has the rest position it was loaded with, so every reset returns it to that place |
| FrameLoop.ApplyKeepsParticles | main.js:320-328 | no single event changes a particle's x, z or speed; only its height moves |
| FrameLoop.RunKeepsParticles | main.js:320-328 | after any sequence of events every particle keeps the x, z and speed it was spawned with |
| FrameLoop.Loaded | main.js:215-272 | the freshly loaded scene has one locked container per rest position, each group still at the origin with no rotation, scale 1 and the built opacity, and one particle per draw; no animation, hover or pending write, status "Idle"; it satisfies the invariant |
| FrameLoop.Init | main.js:437-443 | after start-up there are four locked containers, each at its own rest position, one of the four, with scale 1 and opacity 0.18; there are 600 particles, no animation, no hover and no pending writes; the status reads "Idle" |
| Lifecycle.OwnerIsLastWriter | main.js:465-467 | during an unlock the owner ends each frame at the animation's opacity, whatever its pulse sine was; every other container ends at its pulse opacity |
| Lifecycle.FrameWhileIdle | main.js:467 | a frame with an empty slot leaves the slot empty and changes no container's state |
| Lifecycle.IdleTicks | main.js:461-467 | any number of frames entered with an empty slot keep it empty and change no container's state |
| Lifecycle.UnlockTiming | main.js:384-409 | at the default delta, the owner is unlocked after n frames exactly when the elapsed time plus n times 0.016 s reaches 2.4 s; until then the animation is still running with that much time accumulated |
| Lifecycle.UnlockTakes150Frames | main.js:463 | a fresh unlock at the default delta is still running after 149 frames and complete after 150 |
| Lifecycle.ApplyMovesForward | main.js:368-408 | every event except reset moves each container only from locked to unlocking or from unlocking to unlocked, or leaves it where it was |
| Lifecycle.RunMovesForward | main.js:367-414 | over any run without a reset, no container's state ever goes backwards |
| Lifecycle.ClickDuringUnlockIgnored | main.js:368 | a click while an animation runs changes nothing |
| Lifecycle.ResetCancelsUnlock | main.js:417-427 | a reset during an unlock empties the slot and puts the unlocking container back, locked, at its rest position with scale 1 and opacity 0.18 |
| Lifecycle.StaleIdleOverwritesDecrypting | main.js:410-412 | an idle write still pending from an earlier unlock shows "Idle" while a new unlock is running |
| Lifecycle.ResetKeepsPendingIdle | main.js:417-435 | reset keeps every pending idle write, so such a write can still fire after the reset |

## Left out

- Scene, mesh, material and light construction, and `createVaultLock` (main.js:10-105, 126-213). These are declarative library calls with no behaviour to state. Only the poses the engine writes on the lock fixture are kept: as built, on reset, and when wobbling.
- Loading the environment map and the container models (main.js:114-124, 215-272). These are asynchronous I/O through loaders. `FrameLoop.Loaded` takes the four rest positions in the order the loads finished. The box's position, rotation, random scale and colour hue are set on the inner mesh, not on the group the engine animates; the group stays at the origin until the first reset, which is how `FrameLoop.Loaded` places it, and the inner mesh's own transform is left out.
- Failed loads are not modelled. If a container's load fails, `init` rejects and the frame loop never starts.
- The time before start-up finishes is not modelled: the model assumes the lock fixture always exists. A reset on an empty registry is modelled, as a no-op.
- Raycasting and the resolution of a hit to its parent group (main.js:345-354) are library scene-graph work. Their result is the `pick` input of a frame.
- DOM and window wiring are UI plumbing and are left out: the cursor style, pointer normalisation, the resize handler, `controls.update`, `requestAnimationFrame` and rendering. A pointer move only changes what the next frame picks, so it has no event of its own.
- `Math.random`, `Math.sin` and `performance.now` are replaced by inputs. These are the reset angles, the pulse and wobble sines, and the particle and spawn draws.
- IEEE floating point is replaced by exact reals. `Lifecycle.UnlockTakes150Frames` is about exact arithmetic; repeated float additions of 0.016 may finish one frame earlier or later.
- The 2500 ms `setTimeout` delay is not modelled as a clock. A pending write can fire at any point between events.
- The status text the page shows before start-up lives in the HTML, which is not part of this model. `FrameLoop.Loaded` starts from "Idle", and the start-up reset writes "Idle" in any case.
- The particle buffer's unused `basePositions` and `time` user data (main.js:303) are left out.
