# Asteroids engine core, modelled in Dafny

This project models the engine of an Asteroids clone written in C# for XNA.
The model covers the following parts:

- **The registry (`EntityManager`).** It holds every entity in a list, plus a
  second list of the animated ones. It adds, removes and clears entities. Once
  per frame it updates every entity of a snapshot of the list, then runs a
  collision pass over a snapshot of the animated list.
- **The entities.** These are the Player ship, asteroids, player and enemy
  bullets, enemy ships, explosions, the background and the score display. The
  model covers their loading, movement with screen wrap, rotation, firing
  cooldowns, hyperspace, killing and touching.
- **The sprite animation.** This is a frame timer that loops, or switches
  itself off after one pass.
- **The input edges.** A key or button is pressed when it is down in this
  frame's snapshot and up in the previous one.
- **The director (`GameManager`).** It tracks the asteroids. Once a frame it
  spawns asteroids and enemy ships on timers. It sweeps the dead asteroids:
  it credits their score, leaves explosions and splits them into two smaller
  children. It then scales the asteroid cap and the extra-life threshold with
  the score.

## How the model is built

**Modules.** They follow the program's structure:

- `Numerics`: C# truncation, integer halves and the float `%`.
- `Kinds`: the entity kinds, the sizes, the collision kind table and the score
  constants.
- `Clock`: game time.
- `Geometry`: vectors, screen wrap, rotation and the collision circle.
- `Input`: the keyboard and gamepad snapshots.
- `Animations`: the `Animation` class.
- `Entities`: one `Entity` class for the whole class hierarchy.
- `Registry`: the `EntityManager` class.
- `Director`: the `GameManager` class.

**Entities.** The C# hierarchy (`Entity`, `AnimatedEntity` and the concrete
subclasses) becomes one `Entity` class. A constant `kind` says which concrete
class an object is. The fields the source mutates are `var` fields grouped into
datatypes:

- motion;
- the player's lives, score and timestamps;
- the asteroid's health, damage, worth and killer;
- the wrap state and the stored clock.

Each state-changing method states its whole new state as a function of the
old one (`State() == PlayerStep(old(State()), …)`). The properties the source
promises are proved about those functions.

**Calls into the registry.** The source's entities call the shared
`EntityManager.Add`/`Remove` directly. Here each such call is returned, in
order, as a sequence of `Effect`s (`Spawn(e)` / `Despawn(e)`). The registry
applies them right after the call returns. Entity code never reads the
registry, so the resulting list is the same.

`Bullet.Kill` (Bullet.cs:118-121) only removes the bullet from the registry.
It appears as the `Despawn(this)` that a bullet's touch returns.

**Inputs instead of computations.** Trigonometry, `System.Random` and
`Vector2.Normalize` are inputs. Where they enter depends on who draws them.

- `Draws` holds the values drawn during one entity update: the `Forward`
  velocity, the hyperspace target, the enemy ship's jitter (−1 or 0) and its
  normalized aim. The update pass takes one `Draws` per entity update,
  indexed by the entity's position in the update snapshot.
- The asteroid corner (0, 1 or 2) and the enemy ship's height below the top
  are parameters of the director's `Update` for the frame (`corner` and
  `shipY`), passed down to the spawning members.
- The background roll is the argument of `NewBackground`.

**Numbers and time.** Positions, speeds and rotations are reals. Game time is
real seconds plus the frame's milliseconds. The float `%` of the source is
modelled for a non-negative left operand, which is the only case its call sites
produce.

**Extra lives.** The code grants a life whenever the life threshold of the
new score differs from the stored one (`previousLives != maxLives`), not only
when it rises. The stored threshold starts at 0 and `Clear` resets it to 0, so
the first `Update` after construction or `Clear` always grants a life.
`ExtraLife` and `FirstThresholdChanges` state this.

## Model

| member | source | states |
|---|---|---|
| Numerics.Truncate | Asteroids_Xbox/Asteroids_Xbox/Types/Animation.cs:161 | the C# `(int)` cast truncates toward zero: for a non-negative value the result is the floor, for a negative one the ceiling |
| Numerics.Div | Asteroids_Xbox/Asteroids_Xbox/Types/AnimatedEntity.cs:40 | C# `/` on ints with a positive divisor truncates toward zero: a non-negative dividend lies in [q·b, (q+1)·b) with q·b ≥ 0, a negative one in ((q−1)·b, q·b] with q·b ≤ 0 |
| Numerics.FloatRem | Asteroids_Xbox/Asteroids_Xbox/Types/AnimatedEntity.cs:181-185 | the float `%` of a non-negative value by a whole modulus m ≥ 1 lies in [0, m) |
| Numerics.Frac | Asteroids_Xbox/Asteroids_Xbox/Types/AnimatedEntity.cs:181-185 | the fractional part of a non-negative real lies in [0, 1) and adds back to the value with its floor |
| Numerics.FloatRemSpec | Asteroids_Xbox/Asteroids_Xbox/Types/AnimatedEntity.cs:181-185 | the float `%` by a positive integer lies in [0, m) and is the value minus a whole multiple of m |
| Numerics.FloatRemBelow | Asteroids_Xbox/Asteroids_Xbox/Types/Entity.cs:149-153 | the float `%` leaves a value already in [0, m) unchanged |
| Kinds.AdmitsExactly | Asteroids_Xbox/Asteroids_Xbox/Manager/EntityManager.cs:147-151 | the collision filter admits exactly (Bullet, Asteroid), (Bullet, EnemyShip), (Asteroid, Player), (EnemyBullet, Asteroid) and (EnemyBullet, Player) |
| Kinds.AdmitsIrreflexive | Asteroids_Xbox/Asteroids_Xbox/Manager/EntityManager.cs:147-151 | the filter never admits two entities of the same kind, so never an entity against itself |
| Kinds.Admits | Asteroids_Xbox/Asteroids_Xbox/Manager/EntityManager.cs:147-151 | the filter admits a pair only when both kinds are animated ones, so only pairs from the animated list can pass |
| Kinds.NextSize | Asteroids_Xbox/Asteroids_Xbox/Manager/GameManager.cs:245 | the next size is Medium exactly for a Large asteroid, otherwise Small, and never Large |
| Geometry.WrapAxis | Asteroids_Xbox/Asteroids_Xbox/Types/AnimatedEntity.cs:171-185 | on an axis of extent at least 1, the wrapped coordinate lies in [0, extent) |
| Geometry.WrapAxisNonPositive | Asteroids_Xbox/Asteroids_Xbox/Types/AnimatedEntity.cs:171-180 | a translated coordinate at or below 0 becomes extent − 1 |
| Geometry.WrapAxisPositive | Asteroids_Xbox/Asteroids_Xbox/Types/AnimatedEntity.cs:181-185 | a positive coordinate is its wrapped value plus a whole number of extents |
| Geometry.WrapAxisFixed | Asteroids_Xbox/Asteroids_Xbox/Types/AnimatedEntity.cs:171-186 | wrapping leaves a coordinate unchanged exactly when it is strictly inside (0, extent), or when it is 0 on an extent of 1 |
| Geometry.WrapPosition | Asteroids_Xbox/Asteroids_Xbox/Types/AnimatedEntity.cs:171-185 | a wrapped position lies inside [0, width) × [0, height) |
| Geometry.WrapPositionInside | Asteroids_Xbox/Asteroids_Xbox/Types/AnimatedEntity.cs:181-189 | a position strictly inside the screen is left unchanged by the wrap |
| Geometry.RotatePositive | Asteroids_Xbox/Asteroids_Xbox/Types/Entity.cs:149-153 | when rotation + angle > 0, the new rotation is that sum modulo 360 and lies in [0, 360) |
| Geometry.RotateNonPositive | Asteroids_Xbox/Asteroids_Xbox/Types/Entity.cs:154-157 | when rotation + angle ≤ 0, the new rotation is 360 + angle whatever the old rotation; 3 turned by −5 gives 355 |
| Geometry.RotateAngle | Asteroids_Xbox/Asteroids_Xbox/Types/Entity.cs:147-158 | a positive sum of rotation and angle ends in [0, 360) |
| Geometry.RotateRange | Asteroids_Xbox/Asteroids_Xbox/Types/Entity.cs:147-158 | from [0, 360) with an angle in (−360, 360) the result lies in [0, 360], and it is 360 exactly for a zero turn at rotation 0 |
| Geometry.Radius | Asteroids_Xbox/Asteroids_Xbox/Types/AnimatedEntity.cs:72-78 | the radius is half the larger side, by integer division |
| Geometry.RadiusExamples | Asteroids_Xbox/Asteroids_Xbox/Types/AnimatedEntity.cs:72-78 | a 5×5 bullet has radius 2 and a 75×30 ship radius 37 |
| Geometry.Bounds | Asteroids_Xbox/Asteroids_Xbox/Types/AnimatedEntity.cs:61-67 | the bounds have the frame's width and height, at the position truncated to integers |
| Geometry.DistSqSymmetric | Asteroids_Xbox/Asteroids_Xbox/Types/AnimatedEntity.cs:208-221 | the squared centre distance does not depend on the order of the two entities |
| Geometry.CollidesIffWithinRadius | Asteroids_Xbox/Asteroids_Xbox/Types/AnimatedEntity.cs:208-221 | the squared-distance test holds exactly when the distance is below either radius |
| Geometry.CollidesSymmetric | Asteroids_Xbox/Asteroids_Xbox/Types/AnimatedEntity.cs:208-221 | the collision test is symmetric in the two entities |
| Geometry.Collides | Asteroids_Xbox/Asteroids_Xbox/Types/AnimatedEntity.cs:210-213 | two entities with no positive radius never collide |
| Input.NoPressWithoutEdge | Asteroids_Xbox/Asteroids_Xbox/Manager/InputManager.cs:42-45 | a key held in the previous snapshot, or up now, never reports a press |
| Input.NoButtonPressWithoutEdge | Asteroids_Xbox/Asteroids_Xbox/Manager/InputManager.cs:52-55 | a button held before, or up now, never reports a press |
| Input.WasKeyPressed | Asteroids_Xbox/Asteroids_Xbox/Manager/InputManager.cs:42-45 | a reported key press means the key is down in the current snapshot |
| Input.WasButtonPressed | Asteroids_Xbox/Asteroids_Xbox/Manager/InputManager.cs:52-55 | a reported button press means the button is down in the current snapshot |
| Input.KeyPresses | Asteroids_Xbox/Asteroids_Xbox/Asteroids.cs:84-88 | over a run of frames with the host shifting current to previous, a key reports at most one press per frame |
| Input.HeldKeyNoPress | Asteroids_Xbox/Asteroids_Xbox/Manager/InputManager.cs:42-45 | a key already down and held through every later frame never reports a press |
| Input.ContinuousHoldPressesOnce | Asteroids_Xbox/Asteroids_Xbox/Manager/InputManager.cs:42-55 | one continuous hold that starts after an up frame reports a press in exactly one frame, the first |
| Animations.TickFrameInRange | Asteroids_Xbox/Asteroids_Xbox/Types/Animation.cs:168-174 | with at least one frame, a frame index in range stays in range |
| Animations.TickAdvancesAtMostOne | Asteroids_Xbox/Asteroids_Xbox/Types/Animation.cs:161-181 | the frame advances by at most one modulo the count, exactly when the accumulated time is strictly above the frame time; then the time is reset to 0, otherwise it accumulates |
| Animations.TickElapsedBounded | Asteroids_Xbox/Asteroids_Xbox/Types/Animation.cs:161-181 | after an active step the accumulated time is at most the frame time |
| Animations.TickLoopingStaysOn | Asteroids_Xbox/Asteroids_Xbox/Types/Animation.cs:171-177 | a looping animation never switches itself off |
| Animations.TickOneShotStopsOnWrap | Asteroids_Xbox/Asteroids_Xbox/Types/Animation.cs:171-177 | a one-shot animation switches off exactly on the step where the frame wraps to 0 |
| Animations.Tick | Asteroids_Xbox/Asteroids_Xbox/Types/Animation.cs:164-181 | a step either keeps the frame or resets the accumulated time to 0; an animation already switched off stays off |
| Animations.OneShotLifetime | Asteroids_Xbox/Asteroids_Xbox/Types/Animation.cs:161-181 | for the case of every update longer than the frame time (which the game, at about 16 ms per update, never runs at; `OneShotFrames` and `OneShotSchedule` cover any update length), a one-shot animation is on frame k and active after k < frameCount updates, and off on frame 0 after frameCount updates; an explosion, which leaves when its timer is off at entry, therefore leaves on update frameCount + 1 |
| Animations.FrameBlock | Asteroids_Xbox/Asteroids_Xbox/Types/Animation.cs:161-181 | at a constant update length ms ≥ 1 and a non-negative frame time, a frame lasts frameTime / ms + 1 updates; then the timer moves to the next frame, or, on the last frame of a one-shot animation, switches off on frame 0 |
| Animations.OneShotFrames | Asteroids_Xbox/Asteroids_Xbox/Types/Animation.cs:161-181 | at any constant update length ms ≥ 1 and a non-negative frame time, a one-shot animation started on frame 0 is on frame k and active after k such blocks of updates, for k below the frame count, and off on frame 0 after frameCount blocks |
| Animations.OneShotSchedule | Asteroids_Xbox/Asteroids_Xbox/Types/Animation.cs:161-181 | inside block k the animation stays on frame k and active, with j·ms accumulated after the block's first j updates |
| Animations.Animation.constructor | Asteroids_Xbox/Asteroids_Xbox/Types/Animation.cs:100-104 | a new animation is neither initialized nor active |
| Animations.Animation.Reset | Asteroids_Xbox/Asteroids_Xbox/Types/AnimatedEntity.cs:129 | the animation is back in the state of a newly constructed one |
| Animations.Animation.Initialize | Asteroids_Xbox/Asteroids_Xbox/Types/Animation.cs:118-142 | stores the frame size, count, time and looping flag, the position and scale; the time and frame are 0, and the animation is active and initialized |
| Animations.Animation.Update | Asteroids_Xbox/Asteroids_Xbox/Types/Animation.cs:148-194 | an inactive animation returns at once and changes nothing; an active uninitialized one throws; otherwise the timer takes one Tick and the source rectangle is the current frame's |
| Animations.Animation.Draw | Asteroids_Xbox/Asteroids_Xbox/Types/Animation.cs:200-219 | throws exactly when active and uninitialized; draws exactly when active and initialized |
| Entities.MovedSpec | Asteroids_Xbox/Asteroids_Xbox/Types/AnimatedEntity.cs:164-191 | a wrapping move ends on screen; a position strictly inside is neither changed nor counted; a non-wrapping move is plain translation and never counted |
| Entities.HyperspaceGrouping | Asteroids_Xbox/Asteroids_Xbox/Entities/Player.cs:200-202 | an H key edge jumps whatever the cooldown; without it only a B edge after the 2-second cooldown does; held keys never jump |
| Entities.SteeringPrecedence | Asteroids_Xbox/Asteroids_Xbox/Entities/Player.cs:173-183 | the player turns left exactly when left is held, and right exactly when right is held without left |
| Entities.Entity.constructor | Asteroids_Xbox/Asteroids_Xbox/Types/Entity.cs:68-77 | rotation and position as given (zero unless a subclass passes them), zero speed and speed constants, no wrap; the entity carries an uninitialized animation object from the start, where the source leaves `Animation` null until `AnimatedEntity.Initialize` allocates one |
| Entities.Entity.Respawn | Asteroids_Xbox/Asteroids_Xbox/Entities/Player.cs:147-159 | stamps the respawn time only once a clock is stored, and recentres on the title-safe area by integer halves |
| Entities.Entity.LoadStats | Asteroids_Xbox/Asteroids_Xbox/Entities/Asteroid.cs:125-145 | each kind's Load fields: the player gets score 0, 3 lives and wrap, then respawns; an asteroid gets health 50, damage 100, worth 20/50/100 by size and rotation speed 2; bullets do not wrap; ships get speed 5 |
| Entities.Entity.Initialize | Asteroids_Xbox/Asteroids_Xbox/Types/AnimatedEntity.cs:125-135 | stores the device and content, starts a new animation with the kind's strip, applies Load, clears the wrap counter and marks the entity initialized; a score display only stores the device and content |
| Entities.Entity.Move | Asteroids_Xbox/Asteroids_Xbox/Types/AnimatedEntity.cs:164-191 | translates, then with wrap on wraps and counts one wrap exactly when the wrap changed the translated position |
| Entities.Entity.Rotate | Asteroids_Xbox/Asteroids_Xbox/Types/AnimatedEntity.cs:197-201 | the rotation rule of Entity.Rotate, and the animation takes the new rotation and nothing else |
| Entities.Entity.AnimatedUpdate | Asteroids_Xbox/Asteroids_Xbox/Types/AnimatedEntity.cs:142-148 | the animation takes the old position and one timer step, then the entity moves by its current speed |
| Entities.Entity.Maneuver | Asteroids_Xbox/Asteroids_Xbox/Entities/Player.cs:166-196 | stores the clock, turns left over right, thrusts or divides the speed by 1.05, then runs the base update |
| Entities.Entity.UpdatePlayer | Asteroids_Xbox/Asteroids_Xbox/Entities/Player.cs:166-217 | the player's update; a bullet is fired exactly when Space or A is held and more than 0.5 s passed since the last shot |
| Entities.Entity.FireBullet | Asteroids_Xbox/Asteroids_Xbox/Entities/Player.cs:249-266 | one bullet from the centre, with the ship's rotation, exactly when more than 0.5 s passed; the time is stamped only then |
| Entities.Entity.UpdateEnemyShip | Asteroids_Xbox/Asteroids_Xbox/Entities/EnemyShip.cs:122-131 | stores the clock, drifts by its speed, jitters by −1 or 0, fires, then runs the base update; it spawns one enemy bullet that it owns exactly when more than 2 s have passed since its last shot, and nothing otherwise |
| Entities.Entity.FireEnemyBullet | Asteroids_Xbox/Asteroids_Xbox/Entities/EnemyShip.cs:162-179 | one enemy bullet owned by the ship exactly when more than 2 s passed; the time is stamped only then |
| Entities.Entity.UpdateAsteroid | Asteroids_Xbox/Asteroids_Xbox/Entities/Asteroid.cs:153-157 | turns by the rotation speed, then runs the base update |
| Entities.Entity.UpdateBullet | Asteroids_Xbox/Asteroids_Xbox/Entities/Bullet.cs:86-90 | the speed becomes the supplied Forward velocity, then the base update runs |
| Entities.Entity.UpdateExplosion | Asteroids_Xbox/Asteroids_Xbox/Entities/Explosion.cs:68-76 | turns by 5 degrees; leaves the registry exactly when the animation was already off at entry, so one update after it switched off; the base update runs either way |
| Entities.Entity.Update | Asteroids_Xbox/Asteroids_Xbox/Manager/EntityManager.cs:118 | dispatches on the kind; its registry calls are exactly those `Emitted` gives for the state at entry: one bullet for a player exactly when Space or A is held and more than half a second has passed since its last shot, one owned enemy bullet for a ship exactly when more than 2 s have passed since its last, the explosion's own removal exactly when its animation had already finished, and none for any other kind |
| Entities.Entity.Kill | Asteroids_Xbox/Asteroids_Xbox/Entities/Player.cs:271-282 | always one life less, with no lower bound; the player stays alive exactly when it had at least two lives, and then an explosion where the ship was and a respawn |
| Entities.Entity.KillShip | Asteroids_Xbox/Asteroids_Xbox/Entities/EnemyShip.cs:136-155 | an enemy-bullet killer changes nothing; any other leaves the registry, credits 1000 (Small) or 200 and leaves an explosion; with no guard, every call credits again |
| Entities.Entity.Touch | Asteroids_Xbox/Asteroids_Xbox/Entities/Bullet.cs:96-113 | an asteroid kills an unprotected player; a bullet zeroes an asteroid's health and becomes its killer, or kills a ship, leaving a ship explosion where it was and crediting the ship's bounty to the ship's player, and leaves; an enemy bullet kills an unprotected player and always leaves; it kills an asteroid only for a Large ship; everything else does nothing; the target ends in the state `Struck` gives, its player in the state `Rewarded` gives, and the registry calls are those `Answered` gives for the target's state before the touch, with an explosion exactly when a killed player had at least two lives |
| Entities.Entity.Draw | Asteroids_Xbox/Asteroids_Xbox/Entities/Player.cs:227-242 | while protected the sprite is drawn only when the flag was set, and the flag flips; otherwise it is always drawn and nothing changes |
| Entities.Entity.CenterPosition | Asteroids_Xbox/Asteroids_Xbox/Types/AnimatedEntity.cs:36-42 | the centre lies above and left of the position, by at most half the frame width and height |
| Entities.Entity.CheckCollision | Asteroids_Xbox/Asteroids_Xbox/Types/AnimatedEntity.cs:208-221 | two entities can collide only when one of them has a positive radius |
| Entities.Entity.CheckCollisionSymmetric | Asteroids_Xbox/Asteroids_Xbox/Types/AnimatedEntity.cs:208-221 | the collision test gives the same answer whichever of the two entities runs it |
| Entities.Entity.Alive | Asteroids_Xbox/Asteroids_Xbox/Entities/Player.cs:74-80 | a player is alive while at least one life remains; a definition with no postcondition of its own, and `Kill` states when a kill leaves the player alive |
| Entities.Entity.UnderProtection | Asteroids_Xbox/Asteroids_Xbox/Entities/Player.cs:85-98 | never protected before a game time is stored; once one is, protected exactly when at most one second has passed since the last respawn |
| Entities.Entity.Dead | Asteroids_Xbox/Asteroids_Xbox/Entities/Asteroid.cs:49-55 | an asteroid is dead exactly when its health is at most 0 |
| Entities.Entity.InitializedTwice | Asteroids_Xbox/Asteroids_Xbox/Manager/EntityManager.cs:98-104 | initializing an entity a second time with the same content and device leaves what the first time left |
| Entities.NewPlayer | Asteroids_Xbox/Asteroids_Xbox/Entities/Player.cs:119-122 | a new player with the Entity defaults |
| Entities.NewAsteroid | Asteroids_Xbox/Asteroids_Xbox/Entities/Asteroid.cs:78-95 | a new asteroid of the given size (Large for the two-argument form); with health 0 it reports Dead until loaded |
| Entities.NewBullet | Asteroids_Xbox/Asteroids_Xbox/Entities/Bullet.cs:55-63 | stores position, origin, speed and rotation unchanged |
| Entities.NewEnemyBullet | Asteroids_Xbox/Asteroids_Xbox/Entities/EnemyBullet.cs:34-39 | a bullet as above that also records its ship |
| Entities.NewEnemyShip | Asteroids_Xbox/Asteroids_Xbox/Entities/EnemyShip.cs:79-87 | a ship at the position with the speed, size and player given |
| Entities.NewExplosion | Asteroids_Xbox/Asteroids_Xbox/Entities/Explosion.cs:44-48 | an explosion with the texture name given |
| Entities.NewBackground | Asteroids_Xbox/Asteroids_Xbox/Entities/Background.cs:26-39 | a background with the drawn backdrop roll |
| Entities.NewScoreDisplay | Asteroids_Xbox/Asteroids_Xbox/Entities/ScoreDisplay.cs:43-46 | a score display with the Entity defaults |
| Entities.CreateExplosion | Asteroids_Xbox/Asteroids_Xbox/Entities/Player.cs:291-297 | an initialized explosion at the place: 16 frames of texture width / 16, 60 ms each, not looping, wrapping |
| Registry.RemoveFirstSpec | Asteroids_Xbox/Asteroids_Xbox/Manager/EntityManager.cs:76 | `List.Remove` leaves a list without the element unchanged, else removes exactly one entry |
| Registry.RemoveFirstMultiset | Asteroids_Xbox/Asteroids_Xbox/Manager/EntityManager.cs:76 | removal takes one occurrence out of the list's multiset |
| Registry.RemoveFirstAt | Asteroids_Xbox/Asteroids_Xbox/Manager/EntityManager.cs:76 | the entry removed is the first occurrence |
| Registry.AnimatedOfMembers | Asteroids_Xbox/Asteroids_Xbox/Manager/EntityManager.cs:64-67 | the animated list holds exactly the listed entities of an animated kind |
| Registry.AnimatedOfAppend | Asteroids_Xbox/Asteroids_Xbox/Manager/EntityManager.cs:62-67 | appending an entity appends it to the animated list iff it is animated |
| Registry.AnimatedOfRemove | Asteroids_Xbox/Asteroids_Xbox/Manager/EntityManager.cs:76-81 | removing the first occurrence from both lists keeps the animated list the animated sublist |
| Registry.AppliedConcat | Asteroids_Xbox/Asteroids_Xbox/Manager/EntityManager.cs:115-119 | registry calls applied in two batches give the same list as in one |
| Registry.AppliedMembers | Asteroids_Xbox/Asteroids_Xbox/Manager/EntityManager.cs:55-82 | an entity listed after a run of calls was listed before or was added by one of them |
| Registry.RowExactly | Asteroids_Xbox/Asteroids_Xbox/Manager/EntityManager.cs:145-151 | the inner loop tests exactly the pairs of the entity with a snapshot member that the filter admits |
| Registry.AdmittedPairsExactly | Asteroids_Xbox/Asteroids_Xbox/Manager/EntityManager.cs:142-151 | the collision pass tests exactly the admitted pairs of snapshot members, and never an entity against itself |
| Registry.Stepped | Asteroids_Xbox/Asteroids_Xbox/Manager/EntityManager.cs:115-119 | appending an update step, made from the state the earlier steps left with the registry calls `Emitted` gives, keeps every step replayed, adds its registry calls, and changes the replayed state of its own entity only |
| Registry.Logged | Asteroids_Xbox/Asteroids_Xbox/Manager/EntityManager.cs:145-157 | appending a decided test keeps every test decided, adds its registry calls and its pair, and changes the states of the objects it changed only |
| Registry.EntityManager.constructor | Asteroids_Xbox/Asteroids_Xbox/Manager/EntityManager.cs:45-49 | both lists start empty, with the content and device stored |
| Registry.EntityManager.Add | Asteroids_Xbox/Asteroids_Xbox/Manager/EntityManager.cs:55-68 | initializes only an uninitialized entity; always appends, with no duplicate check; appends to the animated list iff animated |
| Registry.EntityManager.Remove | Asteroids_Xbox/Asteroids_Xbox/Manager/EntityManager.cs:74-82 | removes the first occurrence from both lists; an absent entity changes nothing |
| Registry.EntityManager.Clear | Asteroids_Xbox/Asteroids_Xbox/Manager/EntityManager.cs:87-91 | both lists become empty |
| Registry.EntityManager.Initialize | Asteroids_Xbox/Asteroids_Xbox/Manager/EntityManager.cs:98-104 | re-initializes every listed entity unconditionally: each ends in the state `InitializedState` gives from its state on entry, even when listed twice, with the device and content stored and, for every kind but the score display, loaded, marked initialized and its animation restarted at frame 0 |
| Registry.EntityManager.Apply | Asteroids_Xbox/Asteroids_Xbox/Manager/EntityManager.cs:55-82 | a run of Add and Remove calls leaves the list that `Applied` describes and keeps the animated list in step |
| Registry.EntityManager.ApplyOne | Asteroids_Xbox/Asteroids_Xbox/Manager/EntityManager.cs:55-82 | one registry call: a spawn is an Add and a despawn a Remove, leaving the list `ApplyEffect` describes |
| Registry.EntityManager.UpdateEntity | Asteroids_Xbox/Asteroids_Xbox/Manager/EntityManager.cs:118 | one entity's update, with the state `Updated` gives, and its registry calls, exactly those `Emitted` gives for its state at entry, applied right after; no other object changes |
| Registry.EntityManager.UpdateAll | Asteroids_Xbox/Asteroids_Xbox/Manager/EntityManager.cs:115-119 | the log has one step per position of the snapshot taken at entry, for the entity at that position; each step is `Updated` from the state the earlier steps left that entity in, with the draws of its position, and its registry calls are those `Emitted` gives for that state; every entity ends in the state its last step left, the list is the snapshot with the steps' registry calls applied, and added entities are new |
| Registry.EntityManager.CheckPair | Asteroids_Xbox/Asteroids_Xbox/Manager/EntityManager.cs:147-157 | the pair touches exactly when the filter admits it and the two collide on their states at that moment; a touch changes only the target and its player, to the states `Struck` and `Rewarded` give, and makes the registry calls `Answered` gives; no touch changes nothing and makes no call |
| Registry.EntityManager.CheckRow | Asteroids_Xbox/Asteroids_Xbox/Manager/EntityManager.cs:145-159 | the inner loop logs one test per admitted pair of the entity with a snapshot member, in order, each decided on the states the earlier tests left, with the changes and registry calls a touch makes |
| Registry.EntityManager.CheckRows | Asteroids_Xbox/Asteroids_Xbox/Manager/EntityManager.cs:142-160 | the outer loop logs a test for every admitted pair of the snapshot, in nested order, each decided on the states the earlier tests left, with the changes and registry calls a touch makes; removals do not take later pairs out |
| Registry.EntityManager.CheckCollisions | Asteroids_Xbox/Asteroids_Xbox/Manager/EntityManager.cs:140-161 | the collision pass over a copy of the animated list as it stood at entry: the log holds exactly the admitted pairs of that copy, each test's touch is the collision on the states the earlier tests left and the frame sizes at entry, each touch's changes and registry calls are those `Reacts` gives, every entity ends in the state the tests left, and the list is the old one with the touches' registry calls applied |
| Registry.EntityManager.Update | Asteroids_Xbox/Asteroids_Xbox/Manager/EntityManager.cs:111-122 | the update pass, as UpdateAll states it, then the collision pass, as CheckCollisions states it, over the animated list the update pass left and from the states it left |
| Director.CornerTable | Asteroids_Xbox/Asteroids_Xbox/Manager/GameManager.cs:116-142 | each corner drawn from {0, 1, 2} gives its own start point and ±1 diagonal velocity; distinct corners give distinct velocities |
| Director.ThresholdsMonotone | Asteroids_Xbox/Asteroids_Xbox/Manager/GameManager.cs:203-205 | the asteroid cap and the life threshold never fall as the score rises, and stay at 3 below 1000 and 10000 points |
| Director.LifeThresholdSteps | Asteroids_Xbox/Asteroids_Xbox/Manager/GameManager.cs:205 | the life threshold changes between two consecutive scores exactly at a multiple of 10000 |
| Director.FirstThresholdChanges | Asteroids_Xbox/Asteroids_Xbox/Manager/GameManager.cs:203-209 | from the starting threshold of 0, any non-negative score gives a different threshold, so the first Update grants a life |
| Director.ShipDueExactly | Asteroids_Xbox/Asteroids_Xbox/Manager/GameManager.cs:183-184 | a ship is due exactly when more than 15 s passed since the last one and no enemy ship is listed |
| Director.ExtraLifeOnCrossing | Asteroids_Xbox/Asteroids_Xbox/Manager/GameManager.cs:204-209 | from a score reached in the previous frame, a life is granted exactly when a multiple of 10000 was crossed |
| Director.ShipCountZero | Asteroids_Xbox/Asteroids_Xbox/Manager/GameManager.cs:72-78 | `shipCount` is 0 exactly when no listed entity is an enemy ship |
| Director.ShipCount | Asteroids_Xbox/Asteroids_Xbox/Manager/GameManager.cs:72-78 | the ship count never exceeds the length of the list |
| Director.ShipDue | Asteroids_Xbox/Asteroids_Xbox/Manager/GameManager.cs:183-184 | a ship is due when more than 15 s passed since the last one and no enemy ship is listed |
| Director.AsteroidDue | Asteroids_Xbox/Asteroids_Xbox/Manager/GameManager.cs:180-181 | an asteroid is due when more than 1.5 s passed since the last one and fewer fresh asteroids are tracked than the cap |
| Director.AsteroidDueBelowCap | Asteroids_Xbox/Asteroids_Xbox/Manager/GameManager.cs:180-190 | an asteroid is due only below the cap and more than 1.5 s after the last one |
| Director.SpawnLimit | Asteroids_Xbox/Asteroids_Xbox/Manager/GameManager.cs:203 | the asteroid cap is score / 1000, rounded down, plus 3 |
| Director.MaxLives | Asteroids_Xbox/Asteroids_Xbox/Manager/GameManager.cs:205 | the life threshold is score / 10000, rounded down, plus 3 |
| Director.ExtraLife | Asteroids_Xbox/Asteroids_Xbox/Manager/GameManager.cs:204-209 | an Update grants no life or exactly one |
| Director.CornerStart | Asteroids_Xbox/Asteroids_Xbox/Manager/GameManager.cs:116-144 | the cases 0 to 3 give a velocity of ±1 on each axis; any other value leaves the origin and the zero speed |
| Director.Worth | Asteroids_Xbox/Asteroids_Xbox/Manager/GameManager.cs:237-241 | the sweep awards an asteroid nothing or its score worth, and nothing while it is alive |
| Director.BountyNonNegative | Asteroids_Xbox/Asteroids_Xbox/Manager/GameManager.cs:234-241 | with no negative worths a sweep never lowers the score |
| Director.GameManager.constructor | Asteroids_Xbox/Asteroids_Xbox/Manager/GameManager.cs:89-98 | empty lists, both clocks at 0, cap 3 and life threshold 0 |
| Director.GameManager.CreateAsteroid | Asteroids_Xbox/Asteroids_Xbox/Manager/GameManager.cs:106-147 | a new, initialized, live Large asteroid placed by the corner table, tracked but not yet listed |
| Director.GameManager.PlaceAtCorner | Asteroids_Xbox/Asteroids_Xbox/Manager/GameManager.cs:116-144 | the corner switch sets the position and velocity the table gives and nothing else |
| Director.GameManager.Remove | Asteroids_Xbox/Asteroids_Xbox/Manager/GameManager.cs:153-158 | the first occurrence leaves the asteroid list, the fresh list and the registry |
| Director.GameManager.Clear | Asteroids_Xbox/Asteroids_Xbox/Manager/GameManager.cs:163-169 | both lists and the registry become empty and the life threshold goes back to 0 |
| Director.GameManager.CreateEnemy | Asteroids_Xbox/Asteroids_Xbox/Manager/GameManager.cs:315-327 | an initialized enemy ship at the position, moving right; Small exactly when the player has more than 10000 points |
| Director.GameManager.CreateEnemyShip | Asteroids_Xbox/Asteroids_Xbox/Manager/GameManager.cs:217-223 | that ship at the left edge, at the drawn height, appended to the registry |
| Director.GameManager.CreateExplosion | Asteroids_Xbox/Asteroids_Xbox/Manager/GameManager.cs:283-306 | an explosion with the size's texture plus `_Animated_Trans1`, at the position |
| Director.GameManager.Explode | Asteroids_Xbox/Asteroids_Xbox/Manager/GameManager.cs:246-247 | that explosion appended to the registry |
| Director.GameManager.SplitAsteroid | Asteroids_Xbox/Asteroids_Xbox/Manager/GameManager.cs:251-262 | no children for a Small asteroid; otherwise two of the next size, one 15 below keeping the velocity and one in place with it negated |
| Director.GameManager.SplitChild | Asteroids_Xbox/Asteroids_Xbox/Manager/GameManager.cs:255-260 | a new, unloaded asteroid of the size at the position and velocity given |
| Director.GameManager.AddChild | Asteroids_Xbox/Asteroids_Xbox/Manager/GameManager.cs:268-269 | the child is listed, which loads it (alive, keeping its place), then tracked |
| Director.GameManager.AddChildren | Asteroids_Xbox/Asteroids_Xbox/Manager/GameManager.cs:266-270 | every child, in order, ends listed, tracked, loaded and in its place, and is not fresh |
| Director.GameManager.Replace | Asteroids_Xbox/Asteroids_Xbox/Manager/GameManager.cs:251-270 | the asteroid leaves all three lists and its children follow it into the asteroid list and the registry |
| Director.GameManager.Shatter | Asteroids_Xbox/Asteroids_Xbox/Manager/GameManager.cs:243-271 | the dead branch: an explosion one size down at the asteroid (Small for a Small one), then the removal, then the children |
| Director.GameManager.Credit | Asteroids_Xbox/Asteroids_Xbox/Manager/GameManager.cs:237-241 | the score grows by the asteroid's worth exactly when it is dead and its killer is not an enemy bullet |
| Director.GameManager.Settle | Asteroids_Xbox/Asteroids_Xbox/Manager/GameManager.cs:243-271 | a dead asteroid is shattered and a live one left alone; the children it creates are alive |
| Director.GameManager.SweepAt | Asteroids_Xbox/Asteroids_Xbox/Manager/GameManager.cs:236-271 | one pass of the descending loop carries the sweep's state from i + 1 to i |
| Director.GameManager.RemoveDeadAsteroids | Asteroids_Xbox/Asteroids_Xbox/Manager/GameManager.cs:231-273 | every asteroid dead at the start is removed, the survivors keep their order and are alive, the children follow them (two per non-Small dead asteroid) and are not visited; the player gets the bounty of the old list; the registry removes exactly the dead ones |
| Director.GameManager.SpawnEnemyShip | Asteroids_Xbox/Asteroids_Xbox/Manager/GameManager.cs:183-188 | one enemy ship is listed and the ship clock set to now exactly when a ship is due |
| Director.GameManager.SpawnAsteroid | Asteroids_Xbox/Asteroids_Xbox/Manager/GameManager.cs:190-199 | when due, the asteroid clock is set to now and one live Large asteroid is tracked, fresh and listed; the dead asteroids and the bounty stay as they were |
| Director.GameManager.Arrive | Asteroids_Xbox/Asteroids_Xbox/Manager/GameManager.cs:196-198 | the new asteroid is appended to the asteroid list, the fresh list and the registry, and survives the sweep that follows |
| Director.GameManager.SpawnBranches | Asteroids_Xbox/Asteroids_Xbox/Manager/GameManager.cs:180-199 | both spawn gates read the state at the start of the frame: the asteroid gate is more than 1.5 s since the last and fewer fresh asteroids than the current cap |
| Director.GameManager.Rescale | Asteroids_Xbox/Asteroids_Xbox/Manager/GameManager.cs:203-209 | the cap becomes score / 1000 + 3 and the threshold score / 10000 + 3; one life is granted exactly when the threshold differs from the stored one |
| Director.GameManager.Update | Asteroids_Xbox/Asteroids_Xbox/Manager/GameManager.cs:178-210 | one frame: the spawn gates on the starting state, the sweep of the asteroids dead at the start with the bounty credited, then the cap and threshold from the new score and the extra life |

## Left out

- Rendering: the `Draw` bodies, the transformation matrix, `destinationRect`
  and the title screen. `Animation.Draw` and `Player.Draw` keep only the
  guard and the flicker flag.
- Content and audio: texture loading is reduced to texture sizes by name.
  Sound effects (`PlayExplosionSound`, `laserSound.Play`) are left out.
- Trigonometry and float numerics: `Forward`/`Backward` with their speed clamp,
  `Vector2.Normalize` and the exact single-precision arithmetic. Velocities
  produced by them are inputs, and numbers are reals.
- Randomness: the asteroid corner, the enemy ship's height, the hyperspace
  target, the enemy jitter and aim, and the background roll are inputs. The
  enemy ship's height is taken as the value `random.Next(50, height)` returned.
  The exception for a viewport height below 50 is not modelled.
- `PerPixelCollision` and `Offscreen`: neither is called anywhere.
- The host loop (`Asteroids.cs`, `Program.cs`), `NewGame`, keyboard and
  gamepad polling, and the marker interfaces. The host's shift of current to
  previous input is modelled only by the `Input.KeyPresses` lemmas.
- The host's frame order: the director's `Update` runs before the registry's
  `Update` (`Asteroids.cs:122-123`). No member models the two together, so
  asteroids killed by a touch in one frame are swept in the next frame only
  by that ordering, which the model does not state.
- An asteroid's references to the director and the player: the source stores
  them and never reads them.
- Aliasing: `AnimatedEntity.Initialize` allocates a new animation, while the
  model resets the entity's own animation in place. Nothing else holds a
  reference to it. In the source `Animation` is null until then; the model
  gives every entity its animation object when it is constructed.
- Director.GameManager.RemoveDeadAsteroids: its contract states the lists,
  the score, the count of children and the registry's removals. It does not
  restate each explosion or each child's place, which Shatter states for one
  asteroid.
- Director.GameManager.Update: its contract states the registry's new list
  only through the effects of the frame. It does not restate the places of the
  new ship, asteroid or children, which the lower-level members state.
- Registry.EntityManager.Initialize: it states each animation's restarted
  timer, but not the frame layout each kind loads into it. The registry's
  invariant does not rule out two listed entities sharing one animation, and
  then the later one's layout wins.
- Registry.EntityManager.UpdateAll: each step records whether the entity's
  animation was drawing when its turn came, which decides whether an
  explosion removes itself. The contract does not tie that flag to the
  timers at the start of the pass, since the registry's invariant allows two
  entities to share one animation.
- Registry.EntityManager.CheckPair, CheckRow, CheckRows and CheckCollisions:
  `Answered` states each touch's registry calls by kind and count, and that
  a spawned entity is an explosion. It does not restate where the explosion
  is placed or which texture it has. `Kill` and `Touch` state those for one
  touch.
- Entities.Entity.Alive, Entities.Entity.Dead, Director.SpawnLimit, Director.MaxLives,
  Director.ShipDue and Director.AsteroidDue carry no postcondition of their
  own. Their properties are stated by separate lemmas (`ThresholdsMonotone`,
  `LifeThresholdSteps`, `ShipDueExactly`, `AsteroidDueBelowCap`), by the
  sweep's contract, which removes exactly the dead asteroids, and by `Kill`,
  which states when a kill leaves the player alive.
