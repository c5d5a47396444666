// The game's entities. The source's class hierarchy (Entity, AnimatedEntity
// and the concrete Player, Asteroid, Bullet, EnemyBullet, EnemyShip, Explosion,
// Background and ScoreDisplay) is one class here whose constant `kind` says
// which concrete class an object is. The mutable fields are grouped by the
// class that declares them: Entity's motion properties, AnimatedEntity's wrap
// state, Player's and Asteroid's own fields, and the clock Player and
// EnemyShip keep.
//
// Entity code in the source calls the shared EntityManager's Add and Remove.
// Here those calls are returned, in order, as a sequence of Effects, which the
// EntityManager applies right after the call returns.

module Entities {
  import opened Numerics
  import opened Kinds
  import opened Clock
  import opened Geometry
  import opened Input
  import opened Animations

  /** The content manager, reduced to what the engine reads: texture sizes by asset name. */
  datatype Content = Content(textureWidth: string -> int, textureHeight: string -> int)

  /** `random.Next(-1, 1)`: -1 or 0. */
  type Jitter = j: int | -1 <= j <= 0

  /**
   * Values the source draws from System.Random or computes with trigonometry
   * during one entity update: the velocity `Forward` produces, the hyperspace
   * target's two `random.Next` coordinates, the enemy ship's vertical jitter
   * and its normalized aim.
   */
  datatype Draws = Draws(thrust: Vec, hyperspaceX: int, hyperspaceY: int, jitter: Jitter, aim: Vec)

  /** A call an entity makes on the shared EntityManager. */
  datatype Effect = Spawn(entity: Entity) | Despawn(entity: Entity)

  /** The left/right steering decision of Player.Update. */
  datatype Steer = TurnLeft | TurnRight | Straight

  /** Entity's motion properties. */
  datatype Motion = Motion(rotation: real, position: Vec, currentSpeed: Vec,
                           maxSpeed: real, moveSpeed: real, rotationSpeed: real)

  /** The fields only a Player has. */
  datatype Pilot = Pilot(lives: int, score: int, lastBulletFireTime: real,
                         lastRespawnTime: real, lastHyperspaceTime: real, alternateDraw: bool)

  /** The fields only an Asteroid has. */
  datatype Rock = Rock(health: int, damage: int, scoreWorth: int, killer: Entity?)

  /** Every mutable field of an entity. */
  datatype EntityState = EntityState(
    initialized: bool, motion: Motion, wrapScreen: bool, wrapScreenCount: int,
    screen: Screen, content: Content, gameTime: Option<GameTime>,
    pilot: Pilot, rock: Rock, previousSeconds: real)

  const DefaultLives := 3
  const BulletFireTime := 0.5
  const ProtectionTime := 1.0
  const HyperspaceTime := 2.0
  const EnemyFireTime := 2.0
  const SpeedDecay := 1.05
  const PlayerBulletSpeed := Vec(5.0, 5.0)
  const ShipExplosionTexture := "Ship_Explode"

  /** The viewport an entity reports before Initialize has given it the real one. */
  const Unattached: Screen := Viewport(0, 0, 1, 1, Rect(0, 0, 1, 1))
  /** The content an entity holds before Initialize has given it the real one. */
  const NoContent := Content((name: string) => 0, (name: string) => 0)
  /** The C# default values of the kind-specific fields. */
  const NoPilot := Pilot(0, 0, 0.0, 0.0, 0.0, false)
  const NoRock := Rock(0, 0, 0, null)

  function AsteroidTexture(s: Sizes): string {
    match s
    case Small => "asteroidSmall"
    case Medium => "asteroidMedium"
    case Large => "asteroidLarge"
  }

  /** Background.Load: `random.Next(0, 10) < 5` picks the first backdrop. */
  function BackgroundTexture(roll: int): string {
    if roll < 5 then "space1" else "space2"
  }

  /** Player.Respawn: the centre of the title-safe area, by integer halves. */
  function RespawnPoint(screen: Screen): Vec {
    var area := screen.titleSafeArea;
    Vec((area.x + Div(area.width, 2)) as real, (area.y + Div(area.height, 2)) as real)
  }

  /** Entity.Move followed by AnimatedEntity's wrap step. */
  function Moved(p: Vec, d: Vec, wrap: bool, screen: Screen): Vec {
    var q := p.Plus(d);
    if wrap then WrapPosition(q, screen) else q
  }

  /** 1 when the wrap step of a move changed the translated position, else 0. */
  function WrapCount(p: Vec, d: Vec, wrap: bool, screen: Screen): int {
    var q := p.Plus(d);
    if wrap && WrapPosition(q, screen) != q then 1 else 0
  }

  /**
   * A wrapping move ends on screen and leaves a position strictly inside the
   * screen uncounted; a non-wrapping move is plain translation and is never counted.
   */
  lemma MovedSpec(p: Vec, d: Vec, wrap: bool, screen: Screen)
    ensures wrap ==>
      var q := Moved(p, d, wrap, screen);
      0.0 <= q.x < screen.width as real && 0.0 <= q.y < screen.height as real
    ensures !wrap ==> Moved(p, d, wrap, screen) == p.Plus(d) && WrapCount(p, d, wrap, screen) == 0
    ensures var q := p.Plus(d);
      wrap && 0.0 < q.x < screen.width as real && 0.0 < q.y < screen.height as real ==>
      Moved(p, d, wrap, screen) == q && WrapCount(p, d, wrap, screen) == 0
  {
    var q := p.Plus(d);
    if 0.0 < q.x < screen.width as real && 0.0 < q.y < screen.height as real {
      WrapPositionInside(q, screen);
    }
  }

  /** Left (key or d-pad) wins over right; neither means no turn. */
  function Steering(input: InputManager): Steer {
    if IsKeyDown(input, Left) || IsButtonDown(input, DPadLeft) then TurnLeft
    else if IsKeyDown(input, Right) || IsButtonDown(input, DPadRight) then TurnRight
    else Straight
  }

  function TurnedRotation(rotation: real, rotationSpeed: real, steer: Steer): real {
    match steer
    case TurnLeft => RotateAngle(rotation, -rotationSpeed)
    case TurnRight => RotateAngle(rotation, rotationSpeed)
    case Straight => rotation
  }

  predicate Thrusting(input: InputManager) {
    IsKeyDown(input, Up) || IsButtonDown(input, DPadUp)
  }

  predicate Firing(input: InputManager) {
    IsKeyDown(input, Space) || IsButtonDown(input, A)
  }

  /**
   * The hyperspace condition as the source writes it, `H || B && cooldown`,
   * where && binds tighter than ||.
   */
  predicate HyperspaceRequested(input: InputManager, now: real, lastHyperspace: real) {
    WasKeyPressed(input, H) || (WasButtonPressed(input, B) && now - lastHyperspace > HyperspaceTime)
  }

  /**
   * A keyboard H edge teleports whatever the cooldown; without it, only a B
   * edge after the two-second cooldown does; a held key or button never does.
   */
  lemma HyperspaceGrouping(input: InputManager, now: real, lastHyperspace: real)
    ensures WasKeyPressed(input, H) ==> HyperspaceRequested(input, now, lastHyperspace)
    ensures !WasKeyPressed(input, H) ==>
      (HyperspaceRequested(input, now, lastHyperspace) <==>
       WasButtonPressed(input, B) && now - lastHyperspace > HyperspaceTime)
    ensures H in input.previousKeyboard && B in input.previousGamePad ==>
      !HyperspaceRequested(input, now, lastHyperspace)
  {
  }

  /** Left takes precedence over right, and the player turns only when one of them is held. */
  lemma SteeringPrecedence(input: InputManager)
    ensures Steering(input) == TurnLeft <==> IsKeyDown(input, Left) || IsButtonDown(input, DPadLeft)
    ensures Steering(input) == TurnRight <==>
      !(IsKeyDown(input, Left) || IsButtonDown(input, DPadLeft)) &&
      (IsKeyDown(input, Right) || IsButtonDown(input, DPadRight))
  {
  }

  class Entity {
    const kind: Kind
    const animation: Animation
    /** Asteroid.Size and EnemyShip.Size. */
    const size: Sizes
    /** The speed a Bullet (or EnemyBullet) or EnemyShip is constructed with. */
    const speed: Vec
    /** A bullet's starting point. */
    const origin: Vec
    /** The ship that fired an EnemyBullet. */
    const ship: Entity?
    /** The player an EnemyShip credits when it is destroyed. */
    const player: Entity?
    /** An Explosion's texture name. */
    const texture: string
    /** A Background's `random.Next(0, 10)` draw. */
    const backgroundRoll: int

    var initialized: bool
    var motion: Motion
    var wrapScreen: bool
    var wrapScreenCount: int
    var screen: Screen
    var content: Content
    /** The last game time Player.Update or EnemyShip.Update was given. */
    var gameTime: Option<GameTime>
    var pilot: Pilot
    var rock: Rock
    /** EnemyShip's last firing time. */
    var previousSeconds: real

    ghost function State(): EntityState
      reads this
    {
      EntityState(initialized, motion, wrapScreen, wrapScreenCount, screen, content,
                  gameTime, pilot, rock, previousSeconds)
    }

    /** The references each kind relies on: an enemy bullet's ship, an enemy ship's player. */
    predicate WellFormed() {
      && (kind == EnemyBullet ==> ship != null && ship.kind == EnemyShip)
      && (kind == EnemyShip <==> player != null)
      && (player != null ==> player.kind == Player)
    }

    /** The other objects this entity's reactions may change. */
    function Fellows(): set<Entity> {
      if player == null then {} else {player}
    }

    /** What an entity handed to the EntityManager by a spawning call satisfies. */
    ghost predicate Spawnable()
      reads animation
    {
      WellFormed() && player == null && animation.Valid()
    }

    /** The C# default values of a freshly constructed object. */
    ghost predicate IsNew()
      reads this, animation
    {
      && !initialized
      && motion.currentSpeed == Zero && motion.maxSpeed == 0.0
      && motion.moveSpeed == 0.0 && motion.rotationSpeed == 0.0
      && !wrapScreen && wrapScreenCount == 0 && screen == Unattached && content == NoContent
      && gameTime == None && pilot == NoPilot && rock == NoRock && previousSeconds == 0.0
      && !animation.initialized && animation.timer == Stopped
    }

    /**
     * The Entity and AnimatedEntity constructors: everything zero, no wrap, a new
     * uninitialized animation; on top of that the concrete constructor's arguments.
     */
    constructor (kind: Kind, size: Sizes, position: Vec, rotation: real, speed: Vec,
                 ship: Entity?, player: Entity?, texture: string, backgroundRoll: int)
      ensures this.kind == kind && this.size == size && this.speed == speed
      ensures this.ship == ship && this.player == player && this.texture == texture
      ensures this.backgroundRoll == backgroundRoll && this.origin == position
      ensures motion.position == position && motion.rotation == rotation
      ensures IsNew() && fresh(animation) && animation.Valid()
    {
      this.kind := kind;
      this.size := size;
      this.speed := speed;
      this.ship := ship;
      this.player := player;
      this.texture := texture;
      this.backgroundRoll := backgroundRoll;
      this.origin := position;
      animation := new Animation();
      initialized := false;
      motion := Motion(rotation, position, Zero, 0.0, 0.0, 0.0);
      wrapScreen, wrapScreenCount := false, 0;
      screen, content := Unattached, NoContent;
      gameTime := None;
      pilot, rock := NoPilot, NoRock;
      previousSeconds := 0.0;
    }

    // ---------------------------------------------------------- getters

    function Width(): int
      reads animation
    {
      animation.strip.frameWidth
    }

    function Height(): int
      reads animation
    {
      animation.strip.frameHeight
    }

    function Radius(): int
      reads animation
    {
      Geometry.Radius(Width(), Height())
    }

    function CenterPosition(): (c: Vec)
      reads this, animation
      ensures Width() >= 0 ==> 0.0 <= motion.position.x - c.x <= Width() as real / 2.0
      ensures Height() >= 0 ==> 0.0 <= motion.position.y - c.y <= Height() as real / 2.0
    {
      Center(motion.position, Width(), Height())
    }

    function Bounds(): Rect
      reads this, animation
    {
      Geometry.Bounds(motion.position, Width(), Height())
    }

    /** AnimatedEntity.CheckCollision: the centres are closer than either radius. */
    predicate CheckCollision(other: Entity): (hit: bool)
      reads this, animation, other, other.animation
      ensures hit ==> Radius() > 0 || other.Radius() > 0
    {
      Collides(DistSq(CenterPosition(), other.CenterPosition()), Radius(), other.Radius())
    }

    /** The test does not depend on which of the two entities runs it. */
    lemma CheckCollisionSymmetric(other: Entity)
      ensures CheckCollision(other) == other.CheckCollision(this)
    {
      DistSqSymmetric(CenterPosition(), other.CenterPosition());
    }

    /** Player.Alive. */
    predicate Alive()
      reads this
    {
      pilot.lives > 0
    }

    /** Player.UnderProtection: false until a game time is stored, then a non-strict one-second window. */
    predicate UnderProtection(): (protected: bool)
      reads this
      ensures gameTime.None? ==> !protected
      ensures gameTime.Some? && gameTime.value.totalSeconds <= pilot.lastRespawnTime + ProtectionTime ==> protected
      ensures gameTime.Some? && gameTime.value.totalSeconds - pilot.lastRespawnTime > ProtectionTime ==> !protected
    {
      Shielded(gameTime, pilot)
    }

    /** Asteroid.Dead. */
    predicate Dead(): (dead: bool)
      reads `rock
    {
      rock.health <= 0
    }

    // --------------------------------------------------------- loading

    /** The frame layout each kind's Load gives its animation. */
    function StripFor(content: Content): Strip {
      match kind
      case Player => Strip(75, 30, 8, 45, true)
      case Asteroid =>
        var name := AsteroidTexture(size);
        Strip(content.textureWidth(name), content.textureHeight(name), 1, 30, true)
      case Bullet => Strip(5, 5, 1, 30, true)
      case EnemyBullet => Strip(5, 5, 1, 30, true)
      case EnemyShip => if size == Small then Strip(50, 20, 8, 45, true) else Strip(75, 30, 8, 45, true)
      case Explosion =>
        Strip(Div(content.textureWidth(texture), 16), content.textureHeight(texture), 16, 60, false)
      case Background =>
        var name := BackgroundTexture(backgroundRoll);
        Strip(content.textureWidth(name), content.textureHeight(name), 1, 30, true)
      case ScoreDisplay => NoStrip
    }

    /** Player.Respawn on a state: stamp the respawn time if a clock is known, and recentre. */
    ghost function Respawned(s: EntityState): EntityState {
      s.(pilot := s.pilot.(lastRespawnTime := if s.gameTime.Some? then s.gameTime.value.totalSeconds
                                              else s.pilot.lastRespawnTime),
         motion := s.motion.(position := RespawnPoint(s.screen)))
    }

    /** The fields each kind's Load assigns, apart from its animation. */
    ghost function Loaded(s: EntityState): EntityState {
      match kind
      case Player =>
        Respawned(s.(pilot := s.pilot.(score := 0, lives := DefaultLives),
                     motion := s.motion.(moveSpeed := 1.5, maxSpeed := 2.5, rotationSpeed := 5.0,
                                         currentSpeed := Zero),
                     wrapScreen := true))
      case Asteroid =>
        s.(rock := s.rock.(health := 50, damage := 100, scoreWorth := AsteroidWorth(size)),
           motion := s.motion.(moveSpeed := 1.0, maxSpeed := 1.0, rotationSpeed := 2.0),
           wrapScreen := true)
      case Bullet =>
        s.(motion := s.motion.(maxSpeed := 2.0, moveSpeed := 2.0, rotationSpeed := 0.0), wrapScreen := false)
      case EnemyBullet =>
        s.(motion := s.motion.(maxSpeed := 2.0, moveSpeed := 2.0, rotationSpeed := 0.0), wrapScreen := false)
      case EnemyShip => s.(motion := s.motion.(maxSpeed := 5.0, moveSpeed := 5.0), wrapScreen := true)
      case Explosion => s.(wrapScreen := true)
      case Background => s.(wrapScreen := true)
      case ScoreDisplay => s
    }

    /** The fields Initialize leaves behind. */
    ghost function InitializedState(s: EntityState, screen: Screen, content: Content): EntityState {
      var attached := s.(screen := screen, content := content);
      if kind == ScoreDisplay then attached
      else Loaded(attached).(wrapScreenCount := 0, initialized := true)
    }

    /** Initializing twice with the same content and device leaves what initializing once leaves. */
    lemma InitializedTwice(s: EntityState, screen: Screen, content: Content)
      ensures InitializedState(InitializedState(s, screen, content), screen, content) == InitializedState(s, screen, content)
    {
    }

    /** The animation is freshly started with the given frame layout. */
    ghost predicate StartedWith(strip: Strip)
      reads animation
    {
      && animation.strip == strip && animation.timer == FrameTimer(0, 0, true)
      && animation.initialized && animation.Valid()
      && animation.placement == NoPlacement.(scale := 1.0)
      && animation.sourceRect == Rect(0, 0, 0, 0)
    }

    /** Player.Respawn. */
    method Respawn()
      modifies this
      ensures State() == Respawned(old(State()))
    {
      if gameTime.Some? {
        pilot := pilot.(lastRespawnTime := gameTime.value.totalSeconds);
      }
      var area := screen.titleSafeArea;
      motion := motion.(position := Vec((area.x + Div(area.width, 2)) as real,
                                        (area.y + Div(area.height, 2)) as real));
    }

    /** The stats part of each kind's Load. */
    method LoadStats()
      requires kind != ScoreDisplay
      modifies this
      ensures State() == Loaded(old(State()))
    {
      match kind {
        case Player =>
          pilot := pilot.(score := 0, lives := DefaultLives);
          motion := motion.(moveSpeed := 1.5, maxSpeed := 2.5, rotationSpeed := 5.0, currentSpeed := Zero);
          wrapScreen := true;
          Respawn();
        case Asteroid =>
          var worth := 0;
          if size == Large {
            worth := 20;
          } else if size == Medium {
            worth := 50;
          } else if size == Small {
            worth := 100;
          }
          rock := rock.(health := 50, damage := 100, scoreWorth := worth);
          motion := motion.(moveSpeed := 1.0);
          motion := motion.(maxSpeed := motion.moveSpeed, rotationSpeed := 2.0);
          wrapScreen := true;
        case Bullet =>
          motion := motion.(maxSpeed := 2.0, moveSpeed := 2.0, rotationSpeed := 0.0);
          wrapScreen := false;
        case EnemyBullet =>
          motion := motion.(maxSpeed := 2.0, moveSpeed := 2.0, rotationSpeed := 0.0);
          wrapScreen := false;
        case EnemyShip =>
          motion := motion.(maxSpeed := 5.0, moveSpeed := 5.0);
          wrapScreen := true;
        case Explosion =>
          wrapScreen := true;
        case Background =>
          wrapScreen := true;
      }
    }

    /**
     * AnimatedEntity.Initialize: store the device and content, start from a new
     * animation, run the kind's Load, clear the wrap counter and become
     * initialized. ScoreDisplay overrides it to store the device and content
     * only, and stays uninitialized.
     */
    method Initialize(screen: Screen, content: Content)
      modifies this, animation
      ensures State() == InitializedState(old(State()), screen, content)
      ensures this.screen == screen && this.content == content
      ensures kind != ScoreDisplay ==> initialized && wrapScreenCount == 0
      ensures kind == ScoreDisplay ==> unchanged(animation)
      ensures kind != ScoreDisplay ==> StartedWith(StripFor(content))
      ensures old(animation.Valid()) ==> animation.Valid()
    {
      this.screen := screen;
      this.content := content;
      if kind == ScoreDisplay {
        return;
      }
      animation.Reset();
      var strip := StripFor(content);
      animation.Initialize(Zero, strip.frameWidth, strip.frameHeight, strip.frameCount,
                           strip.frameTime, 1.0, strip.looping);
      LoadStats();
      wrapScreenCount := 0;
      initialized := true;
    }

    // ---------------------------------------------------- move and turn

    /** The entity part of Move: translate, then wrap and count when the entity wraps. */
    ghost function MovedBy(s: EntityState, d: Vec): EntityState {
      s.(motion := s.motion.(position := Moved(s.motion.position, d, s.wrapScreen, s.screen)),
         wrapScreenCount := s.wrapScreenCount + WrapCount(s.motion.position, d, s.wrapScreen, s.screen))
    }

    /** The entity part of AnimatedEntity.Update: move by the current speed. */
    ghost function Advanced(s: EntityState): EntityState {
      MovedBy(s, s.motion.currentSpeed)
    }

    ghost function Rotated(s: EntityState, angle: real): EntityState {
      s.(motion := s.motion.(rotation := RotateAngle(s.motion.rotation, angle)))
    }

    /** AnimatedEntity.Move: translate, then, with WrapScreen set, wrap and count a changed position. */
    method Move(d: Vec)
      modifies this
      ensures State() == MovedBy(old(State()), d)
    {
      var translated := motion.position.Plus(d);
      if wrapScreen {
        var wrapped := WrapPosition(translated, screen);
        motion := motion.(position := wrapped);
        if translated != wrapped {
          wrapScreenCount := wrapScreenCount + 1;
        }
      } else {
        motion := motion.(position := translated);
      }
    }

    /** AnimatedEntity.Rotate: Entity.Rotate, then the animation takes the new rotation. */
    method Rotate(angle: real)
      modifies this, animation
      ensures State() == Rotated(old(State()), angle)
      ensures animation.placement == old(animation.placement).(rotation := motion.rotation)
      ensures animation.strip == old(animation.strip) && animation.timer == old(animation.timer)
      ensures animation.initialized == old(animation.initialized)
      ensures animation.sourceRect == old(animation.sourceRect)
    {
      var next := motion.rotation + angle;
      if next > 0.0 {
        motion := motion.(rotation := FloatRem(next, 360));
      } else {
        motion := motion.(rotation := 360.0 + angle);
      }
      animation.placement := animation.placement.(rotation := motion.rotation);
    }

    // ----------------------------------------------------------- update

    /**
     * AnimatedEntity.Update: the animation takes the position and advances its
     * timer, then the entity moves by its current speed.
     */
    method AnimatedUpdate(gameTime: GameTime)
      requires animation.Valid()
      modifies this, animation
      ensures State() == Advanced(old(State()))
      ensures animation.Valid() && animation.timer == old(animation.Stepped(gameTime))
      ensures animation.strip == old(animation.strip)
      ensures animation.placement == old(animation.placement).(position := old(motion.position))
    {
      animation.placement := animation.placement.(position := motion.position);
      var ok := animation.Update(gameTime);
      Move(motion.currentSpeed);
    }

    /** Player.Update's turn: left wins over right. */
    ghost function Steered(s: EntityState, input: InputManager): EntityState {
      s.(motion := s.motion.(rotation := TurnedRotation(s.motion.rotation, s.motion.rotationSpeed, Steering(input))))
    }

    /** Player.Update's thrust: the Forward velocity while Up is held, else the speed divided by 1.05. */
    ghost function Propelled(s: EntityState, input: InputManager, draws: Draws): EntityState {
      var v := s.motion.currentSpeed;
      s.(motion := s.motion.(currentSpeed := if Thrusting(input) then draws.thrust
                                             else Vec(v.x / SpeedDecay, v.y / SpeedDecay)))
    }

    /** Player.Update's hyperspace jump, which replaces the position the move produced. */
    ghost function Hyperspaced(s: EntityState, input: InputManager, gameTime: GameTime, draws: Draws): EntityState {
      if HyperspaceRequested(input, gameTime.totalSeconds, s.pilot.lastHyperspaceTime)
      then s.(motion := s.motion.(position := Vec(draws.hyperspaceX as real, draws.hyperspaceY as real)),
              pilot := s.pilot.(lastHyperspaceTime := gameTime.totalSeconds))
      else s
    }

    /** Player.FireBullet's cooldown: the shot is taken, and the time stamped, only after half a second. */
    ghost function Fired(s: EntityState, now: real): EntityState {
      if now - s.pilot.lastBulletFireTime > BulletFireTime then s.(pilot := s.pilot.(lastBulletFireTime := now))
      else s
    }

    /** The first half of Player.Update: store the clock, turn, thrust or decay, then the base update. */
    ghost function Maneuvered(s: EntityState, input: InputManager, gameTime: GameTime, draws: Draws): EntityState {
      Advanced(Propelled(Steered(s.(gameTime := Some(gameTime)), input), input, draws))
    }

    /** The player's whole update, as the sequence of steps Player.Update takes. */
    ghost function PlayerStep(s: EntityState, input: InputManager, gameTime: GameTime, draws: Draws): EntityState {
      var jumped := Hyperspaced(Maneuvered(s, input, gameTime, draws), input, gameTime, draws);
      if Firing(input) then Fired(jumped, gameTime.totalSeconds) else jumped
    }

    /** Player.Update up to and including the base update. */
    method Maneuver(input: InputManager, gameTime: GameTime, draws: Draws)
      requires animation.Valid()
      modifies this, animation
      ensures State() == Maneuvered(old(State()), input, gameTime, draws)
      ensures animation.Valid() && animation.timer == old(animation.Stepped(gameTime))
      ensures animation.strip == old(animation.strip)
    {
      this.gameTime := Some(gameTime);
      if IsKeyDown(input, Left) || IsButtonDown(input, DPadLeft) {
        Rotate(-motion.rotationSpeed);
      } else if IsKeyDown(input, Right) || IsButtonDown(input, DPadRight) {
        Rotate(motion.rotationSpeed);
      }
      if IsKeyDown(input, Up) || IsButtonDown(input, DPadUp) {
        motion := motion.(currentSpeed := draws.thrust);
      } else {
        motion := motion.(currentSpeed := Vec(motion.currentSpeed.x / SpeedDecay, motion.currentSpeed.y / SpeedDecay));
      }
      AnimatedUpdate(gameTime);
    }

    /**
     * Player.Update: store the clock; turn left or right; thrust or decay;
     * animate and move; hyperspace; fire while Space or A is held.
     */
    method UpdatePlayer(input: InputManager, gameTime: GameTime, draws: Draws) returns (effects: seq<Effect>)
      requires kind == Player && animation.Valid()
      modifies this, animation
      ensures State() == PlayerStep(old(State()), input, gameTime, draws)
      ensures effects != [] <==>
        Firing(input) && gameTime.totalSeconds - old(pilot.lastBulletFireTime) > BulletFireTime
      ensures effects != [] ==> FiredBullet(effects, Kind.Bullet, PlayerBulletSpeed)
      ensures animation.Valid() && animation.timer == old(animation.Stepped(gameTime))
      ensures forall x | x in effects && x.Spawn? :: fresh(x.entity) && fresh(x.entity.animation) && x.entity.Spawnable()
    {
      Maneuver(input, gameTime, draws);
      if WasKeyPressed(input, H) ||
         (WasButtonPressed(input, B) && gameTime.totalSeconds - pilot.lastHyperspaceTime > HyperspaceTime) {
        motion := motion.(position := Vec(draws.hyperspaceX as real, draws.hyperspaceY as real));
        pilot := pilot.(lastHyperspaceTime := gameTime.totalSeconds);
      }
      if IsKeyDown(input, Space) || IsButtonDown(input, A) {
        effects := FireBullet(PlayerBulletSpeed);
      } else {
        effects := [];
      }
    }

    /**
     * The effects hold exactly one spawned bullet of the given kind, fired from
     * this entity's centre with its rotation and the given speed.
     */
    ghost predicate FiredBullet(effects: seq<Effect>, bulletKind: Kind, bulletSpeed: Vec)
      reads this, animation
      reads if |effects| == 1 && effects[0].Spawn? then {effects[0].entity, effects[0].entity.animation} else {}
    {
      && |effects| == 1 && effects[0].Spawn?
      && var b := effects[0].entity;
      && b.kind == bulletKind && b.motion.position == CenterPosition() && b.origin == CenterPosition()
      && b.motion.rotation == motion.rotation && b.speed == bulletSpeed
      && (bulletKind == EnemyBullet ==> b.ship == this)
      && b.IsNew() && b.Spawnable()
    }

    /** Player.FireBullet: one bullet per half second at most; the time is stamped only when it fires. */
    method FireBullet(bulletSpeed: Vec) returns (effects: seq<Effect>)
      requires gameTime.Some?
      modifies this
      ensures State() == Fired(old(State()), old(gameTime.value.totalSeconds))
      ensures effects != [] <==> old(gameTime.value.totalSeconds) - old(pilot.lastBulletFireTime) > BulletFireTime
      ensures effects != [] ==> FiredBullet(effects, Kind.Bullet, bulletSpeed)
      ensures forall x | x in effects && x.Spawn? :: fresh(x.entity) && fresh(x.entity.animation) && x.entity.Spawnable()
    {
      var totalSeconds := gameTime.value.totalSeconds;
      var timeSinceLast := totalSeconds - pilot.lastBulletFireTime;
      if timeSinceLast > BulletFireTime {
        var bullet := NewBullet(CenterPosition(), bulletSpeed, motion.rotation);
        effects := [Spawn(bullet)];
        pilot := pilot.(lastBulletFireTime := totalSeconds);
      } else {
        effects := [];
      }
    }

    /** EnemyShip.FireBullet's cooldown, kept in the ship's own time field. */
    ghost function ShipFired(s: EntityState, now: real): EntityState {
      if now - s.previousSeconds > EnemyFireTime then s.(previousSeconds := now) else s
    }

    /** The enemy ship's whole update: store the clock, drift, jitter, fire, then the base update. */
    ghost function ShipStep(s: EntityState, gameTime: GameTime, draws: Draws): EntityState {
      var drifted := MovedBy(MovedBy(s.(gameTime := Some(gameTime)), speed), Vec(0.0, draws.jitter as real));
      Advanced(ShipFired(drifted, gameTime.totalSeconds))
    }

    /**
     * EnemyShip.Update: store the clock, drift by its speed, jitter vertically,
     * fire at the aim, then animate and move.
     */
    method UpdateEnemyShip(gameTime: GameTime, draws: Draws) returns (effects: seq<Effect>)
      requires kind == EnemyShip && animation.Valid()
      modifies this, animation
      ensures State() == ShipStep(old(State()), gameTime, draws)
      ensures animation.Valid() && animation.timer == old(animation.Stepped(gameTime))
      ensures forall x | x in effects && x.Spawn? :: fresh(x.entity) && fresh(x.entity.animation) && x.entity.Spawnable()
      ensures SpawnedOne(effects, gameTime.totalSeconds - old(previousSeconds) > EnemyFireTime, EnemyBullet)
      ensures forall x | x in effects :: x.Spawn? && x.entity.kind == EnemyBullet && x.entity.ship == this
    {
      this.gameTime := Some(gameTime);
      Move(speed);
      Move(Vec(0.0, draws.jitter as real));
      effects := FireEnemyBullet(draws.aim);
      AnimatedUpdate(gameTime);
    }

    /** EnemyShip.FireBullet: one enemy bullet, owned by this ship, every two seconds at most. */
    method FireEnemyBullet(aim: Vec) returns (effects: seq<Effect>)
      requires kind == EnemyShip && gameTime.Some?
      modifies this
      ensures State() == ShipFired(old(State()), old(gameTime.value.totalSeconds))
      ensures effects != [] <==> old(gameTime.value.totalSeconds) - old(previousSeconds) > EnemyFireTime
      ensures effects != [] ==> FiredBullet(effects, EnemyBullet, aim)
      ensures forall x | x in effects && x.Spawn? :: fresh(x.entity) && fresh(x.entity.animation) && x.entity.Spawnable()
    {
      var totalSeconds := gameTime.value.totalSeconds;
      var timeSinceLast := totalSeconds - previousSeconds;
      if timeSinceLast > EnemyFireTime {
        var bullet := NewEnemyBullet(this, CenterPosition(), aim, motion.rotation);
        effects := [Spawn(bullet)];
        previousSeconds := totalSeconds;
      } else {
        effects := [];
      }
    }

    /** Asteroid.Update: turn by the rotation speed before the base update. */
    method UpdateAsteroid(gameTime: GameTime)
      requires kind == Asteroid && animation.Valid()
      modifies this, animation
      ensures State() == Advanced(Rotated(old(State()), old(motion.rotationSpeed)))
      ensures animation.Valid() && animation.timer == old(animation.Stepped(gameTime))
    {
      Rotate(motion.rotationSpeed);
      AnimatedUpdate(gameTime);
    }

    /**
     * Bullet.Update: the bullet's speed goes through Forward (whose result is
     * supplied as the thrust), then the base update.
     */
    method UpdateBullet(gameTime: GameTime, draws: Draws)
      requires IsBullet(kind) && animation.Valid()
      modifies this, animation
      ensures State() == Advanced(old(State()).(motion := old(motion).(currentSpeed := draws.thrust)))
      ensures animation.Valid() && animation.timer == old(animation.Stepped(gameTime))
    {
      motion := motion.(currentSpeed := draws.thrust);
      AnimatedUpdate(gameTime);
    }

    /**
     * Explosion.Update: turn by 5 degrees; leave the registry if the animation
     * has already finished; the base update still runs.
     */
    method UpdateExplosion(gameTime: GameTime) returns (effects: seq<Effect>)
      requires kind == Explosion && animation.Valid()
      modifies this, animation
      ensures effects == (if old(animation.timer.shouldDraw) then [] else [Despawn(this)])
      ensures State() == Advanced(Rotated(old(State()), 5.0))
      ensures animation.Valid() && animation.timer == old(animation.Stepped(gameTime))
    {
      Rotate(5.0);
      effects := [];
      if !animation.timer.shouldDraw {
        effects := [Despawn(this)];
      }
      AnimatedUpdate(gameTime);
    }

    /** The fields each kind's Update leaves behind; a ScoreDisplay's Update is empty. */
    ghost function Updated(s: EntityState, input: InputManager, gameTime: GameTime, draws: Draws): EntityState {
      match kind
      case Player => PlayerStep(s, input, gameTime, draws)
      case Asteroid => Advanced(Rotated(s, s.motion.rotationSpeed))
      case Bullet => Advanced(s.(motion := s.motion.(currentSpeed := draws.thrust)))
      case EnemyBullet => Advanced(s.(motion := s.motion.(currentSpeed := draws.thrust)))
      case EnemyShip => ShipStep(s, gameTime, draws)
      case Explosion => Advanced(Rotated(s, 5.0))
      case Background => Advanced(s)
      case ScoreDisplay => s
    }

    /**
     * The registry calls each kind's Update makes, from the state s it had
     * before and whether its animation was drawing then: a player adds one
     * bullet while Space or A is held and half a second has passed since its
     * last shot; an enemy ship adds one of its own bullets once more than two
     * seconds have passed since its last one; an explosion whose animation has
     * finished removes itself; every other kind makes none.
     */
    ghost predicate Emitted(s: EntityState, drawing: bool, input: InputManager, gameTime: GameTime, effects: seq<Effect>) {
      match kind
      case Player =>
        SpawnedOne(effects, Firing(input) && gameTime.totalSeconds - s.pilot.lastBulletFireTime > BulletFireTime, Bullet)
      case EnemyShip =>
        && SpawnedOne(effects, gameTime.totalSeconds - s.previousSeconds > EnemyFireTime, EnemyBullet)
        && forall x | x in effects :: x.entity.ship == this
      case Explosion => effects == if drawing then [] else [Despawn(this)]
      case _ => effects == []
    }

    /**
     * The per-frame Update of each kind. Only a player, an enemy ship (by
     * firing) and a finished explosion (by leaving) produce effects.
     */
    method Update(input: InputManager, gameTime: GameTime, draws: Draws) returns (effects: seq<Effect>)
      requires WellFormed() && animation.Valid()
      modifies this, animation
      ensures State() == Updated(old(State()), input, gameTime, draws)
      ensures animation.Valid()
      ensures kind == ScoreDisplay ==> unchanged(animation)
      ensures kind != ScoreDisplay ==> animation.timer == old(animation.Stepped(gameTime))
      ensures Emitted(old(State()), old(animation.timer.shouldDraw), input, gameTime, effects)
      ensures forall x | x in effects && x.Spawn? :: fresh(x.entity) && fresh(x.entity.animation) && x.entity.Spawnable()
      ensures forall x | x in effects && x.Despawn? :: x.entity == this
    {
      match kind {
        case ScoreDisplay =>
          effects := [];
        case Background =>
          AnimatedUpdate(gameTime);
          effects := [];
        case Player =>
          effects := UpdatePlayer(input, gameTime, draws);
        case Asteroid =>
          UpdateAsteroid(gameTime);
          effects := [];
        case Bullet =>
          UpdateBullet(gameTime, draws);
          effects := [];
        case EnemyBullet =>
          UpdateBullet(gameTime, draws);
          effects := [];
        case EnemyShip =>
          effects := UpdateEnemyShip(gameTime, draws);
        case Explosion =>
          effects := UpdateExplosion(gameTime);
      }
    }

    // ------------------------------------------------------ kill and touch

    /** Player.Kill on a state: one life less, and a respawn while any remain. */
    ghost function PlayerKilled(s: EntityState): EntityState {
      var hit := s.(pilot := s.pilot.(lives := s.pilot.lives - 1));
      if hit.pilot.lives > 0 then Respawned(hit) else hit
    }

    /**
     * Player.Kill: always lose a life, with no lower bound; if any remain, leave
     * an explosion where the ship was and respawn.
     */
    method Kill() returns (effects: seq<Effect>)
      requires kind == Player
      modifies this
      ensures State() == PlayerKilled(old(State()))
      ensures Alive() <==> old(pilot.lives) >= 2
      ensures !Alive() ==> effects == []
      ensures Alive() ==> (|effects| == 1 && effects[0].Spawn? &&
                           ExplosionAt(effects[0].entity, ShipExplosionTexture, old(motion.position)))
      ensures forall x | x in effects && x.Spawn? :: fresh(x.entity) && fresh(x.entity.animation) && x.entity.Spawnable()
    {
      pilot := pilot.(lives := pilot.lives - 1);
      if pilot.lives > 0 {
        var explosion := CreateExplosion(ShipExplosionTexture, motion.position, screen, content);
        effects := [Spawn(explosion)];
        Respawn();
      } else {
        effects := [];
      }
    }

    /**
     * EnemyShip.Kill: unless the killer is an enemy bullet, leave the registry,
     * credit the player (1000 for a small ship, 200 otherwise) and leave an
     * explosion. There is no already-dead guard.
     */
    method KillShip(killer: Entity?) returns (effects: seq<Effect>)
      requires kind == EnemyShip && WellFormed()
      modifies player
      ensures killer != null && killer.kind == EnemyBullet ==> unchanged(player) && effects == []
      ensures !(killer != null && killer.kind == EnemyBullet) ==>
        (player.State() == old(player.State()).(pilot := old(player.pilot).(score := old(player.pilot.score) + ShipBounty(size))) &&
         |effects| == 2 && effects[0] == Despawn(this) && effects[1].Spawn? &&
         ExplosionAt(effects[1].entity, ShipExplosionTexture, motion.position))
      ensures forall x | x in effects && x.Spawn? :: fresh(x.entity) && fresh(x.entity.animation) && x.entity.Spawnable()
    {
      var enemyBullet := killer != null && killer.kind == EnemyBullet;
      if !enemyBullet {
        effects := [Despawn(this)];
        if size == Small {
          player.pilot := player.pilot.(score := player.pilot.score + 1000);
        } else {
          player.pilot := player.pilot.(score := player.pilot.score + 200);
        }
        var explosion := CreateExplosion(ShipExplosionTexture, motion.position, screen, content);
        effects := effects + [Spawn(explosion)];
      } else {
        effects := [];
      }
    }

    /**
     * The state Touch leaves a touched entity in, given the state it had: the
     * rule the three twostate predicates below state on the heap, on values.
     */
    ghost function Struck(other: Entity, s: EntityState): EntityState {
      match kind
      case Asteroid =>
        if other.kind == Player && !Shielded(s.gameTime, s.pilot) then other.PlayerKilled(s) else s
      case Bullet =>
        if other.kind == Asteroid then s.(rock := s.rock.(health := 0, killer := this)) else s
      case EnemyBullet =>
        if other.kind == Player && !Shielded(s.gameTime, s.pilot) then other.PlayerKilled(s)
        else if other.kind == Asteroid && ship != null && ship.size == Large then
          s.(rock := s.rock.(health := 0, killer := this))
        else s
      case _ => s
    }

    /** The state Touch leaves the player credited for the touched entity in: a bullet's kill earns the bounty. */
    ghost function Rewarded(other: Entity, s: EntityState): EntityState {
      if kind == Bullet && other.kind == EnemyShip then
        s.(pilot := s.pilot.(score := s.pilot.score + ShipBounty(other.size)))
      else s
    }

    /**
     * The registry calls Touch makes, given the touched entity's state s before
     * it: an asteroid or enemy bullet that kills an unprotected player leaves
     * an explosion when a life remains, and the enemy bullet always leaves; a
     * bullet that kills an asteroid leaves; a bullet that kills an enemy ship
     * removes the ship, leaves an explosion, and leaves; a large ship's enemy
     * bullet that kills an asteroid leaves. Nothing else makes a call.
     */
    ghost predicate Answered(other: Entity, s: EntityState, effects: seq<Effect>) {
      var killed := other.kind == Player && !Shielded(s.gameTime, s.pilot);
      match kind
      case Asteroid =>
        SpawnedOne(effects, killed && s.pilot.lives >= 2, Explosion)
      case Bullet =>
        if other.kind == Asteroid then effects == [Despawn(this)]
        else if other.kind == EnemyShip then
          |effects| == 3 && effects[0] == Despawn(other) && SpawnedOne(effects[1..2], true, Explosion) &&
          effects[2] == Despawn(this)
        else effects == []
      case EnemyBullet =>
        if other.kind == Player then
          |effects| >= 1 && effects[|effects| - 1] == Despawn(this) &&
          SpawnedOne(effects[..|effects| - 1], killed && s.pilot.lives >= 2, Explosion)
        else if other.kind == Asteroid && ship != null && ship.size == Large then effects == [Despawn(this)]
        else effects == []
      case _ => effects == []
    }

    /** Asteroid.Touch: an unprotected player is killed; the asteroid itself is never changed. */
    twostate predicate AsteroidTouched(other: Entity, new effects: seq<Effect>)
      reads other, other.Fellows()
    {
      if other.kind == Player && !old(other.UnderProtection()) then
        other.State() == PlayerKilled(old(other.State())) && (other.Alive() <==> effects != [])
      else unchanged(other, other.Fellows()) && effects == []
    }

    /** Bullet.Touch: an asteroid gets health 0 and this bullet as killer; a ship is killed by it. */
    twostate predicate BulletTouched(other: Entity, new effects: seq<Effect>)
      requires other.WellFormed()
      reads this, other, other.Fellows()
    {
      if other.kind == Asteroid then
        other.State() == old(other.State()).(rock := old(other.rock).(health := 0, killer := this)) &&
        effects == [Despawn(this)]
      else if other.kind == EnemyShip then
        unchanged(other) &&
        other.player.State() == old(other.player.State()).(
          pilot := old(other.player.pilot).(score := old(other.player.pilot.score) + ShipBounty(other.size))) &&
        |effects| == 3 && effects[0] == Despawn(other) && effects[1].Spawn? && effects[2] == Despawn(this)
      else unchanged(other, other.Fellows()) && effects == []
    }

    /**
     * EnemyBullet.Touch: a player is killed if unprotected and the bullet always
     * leaves; an asteroid is killed only when the bullet's ship is large. There is
     * no ship branch: the override does not call Bullet.Touch.
     */
    twostate predicate EnemyBulletTouched(other: Entity, new effects: seq<Effect>)
      requires kind == EnemyBullet && WellFormed()
      reads this, other, other.Fellows()
    {
      if other.kind == Player then
        |effects| >= 1 && effects[|effects| - 1] == Despawn(this) &&
        if old(other.UnderProtection()) then unchanged(other) && effects == [Despawn(this)]
        else other.State() == PlayerKilled(old(other.State())) && (other.Alive() <==> |effects| == 2)
      else if other.kind == Asteroid && ship.size == Large then
        other.State() == old(other.State()).(rock := old(other.rock).(health := 0, killer := this)) &&
        effects == [Despawn(this)]
      else unchanged(other, other.Fellows()) && effects == []
    }

    /**
     * Touch, dispatched on the attacker's kind: an asteroid kills an unprotected
     * player; a bullet kills an asteroid or an enemy ship and leaves; an enemy
     * bullet kills an unprotected player and leaves, or, if its ship is large,
     * kills an asteroid and leaves. Every other combination does nothing.
     */
    method Touch(other: Entity) returns (effects: seq<Effect>)
      requires WellFormed() && other.WellFormed()
      modifies other, other.Fellows()
      ensures !(kind in {Asteroid, Bullet, EnemyBullet}) ==> unchanged(other, other.Fellows()) && effects == []
      ensures kind == Asteroid ==> AsteroidTouched(other, effects)
      ensures kind == Bullet ==> BulletTouched(other, effects)
      ensures kind == EnemyBullet ==> EnemyBulletTouched(other, effects)
      ensures other.State() == Struck(other, old(other.State()))
      ensures Answered(other, old(other.State()), effects)
      ensures other.player != null ==> other.player.State() == Rewarded(other, old(other.player.State()))
      ensures kind == Bullet && other.kind == EnemyShip ==>
        |effects| == 3 && effects[1].Spawn? && ExplosionAt(effects[1].entity, ShipExplosionTexture, other.motion.position)
      ensures forall x | x in effects && x.Spawn? :: fresh(x.entity) && fresh(x.entity.animation) && x.entity.Spawnable()
    {
      match kind {
        case Asteroid =>
          effects := [];
          if other.kind == Player {
            if !other.UnderProtection() {
              effects := other.Kill();
            }
          }
        case Bullet =>
          effects := [];
          if other.kind == Asteroid {
            other.rock := other.rock.(health := 0, killer := this);
            effects := [Despawn(this)];
          } else if other.kind == EnemyShip {
            effects := other.KillShip(this);
            effects := effects + [Despawn(this)];
          }
        case EnemyBullet =>
          effects := [];
          if other.kind == Player {
            if !other.UnderProtection() {
              effects := other.Kill();
            }
            effects := effects + [Despawn(this)];
          } else if other.kind == Asteroid && ship.size == Large {
            other.rock := other.rock.(health := 0, killer := this);
            effects := [Despawn(this)];
          }
        case _ =>
          effects := [];
      }
    }

    /**
     * Player.Draw: while protected the sprite is drawn only on alternate calls
     * (when the flag was set) and the flag flips; otherwise it is always drawn
     * and the flag is left alone. Other kinds always hand the sprite to their
     * animation, except the ScoreDisplay, which draws only text.
     */
    method Draw() returns (spriteDrawn: bool)
      modifies this
      ensures kind == Player && UnderProtection() ==>
        spriteDrawn == old(pilot.alternateDraw) &&
        State() == old(State()).(pilot := old(pilot).(alternateDraw := !old(pilot.alternateDraw)))
      ensures !(kind == Player && UnderProtection()) ==>
        spriteDrawn == (kind != ScoreDisplay) && State() == old(State())
    {
      if kind == Player && UnderProtection() {
        spriteDrawn := pilot.alternateDraw;
        pilot := pilot.(alternateDraw := !pilot.alternateDraw);
      } else {
        spriteDrawn := kind != ScoreDisplay;
      }
    }
  }

  /** Exactly one registry call, adding an entity of kind k, when happens holds; none otherwise. */
  predicate SpawnedOne(effects: seq<Effect>, happens: bool, k: Kind) {
    if happens then |effects| == 1 && effects[0].Spawn? && effects[0].entity.kind == k else effects == []
  }

  /** The protection window of UnderProtection, on a clock and a player's record. */
  predicate Shielded(gameTime: Option<GameTime>, pilot: Pilot) {
    gameTime.Some? && gameTime.value.totalSeconds - pilot.lastRespawnTime <= ProtectionTime
  }

  /** An initialized explosion with the given texture at the given place. */
  ghost predicate ExplosionAt(e: Entity, texture: string, position: Vec)
    reads e, e.animation
  {
    && e.kind == Explosion && e.texture == texture && e.motion.position == position
    && e.initialized && e.wrapScreen && e.wrapScreenCount == 0
    && e.animation.Valid() && e.animation.timer == FrameTimer(0, 0, true)
    && e.animation.strip.frameCount == 16 && e.animation.strip.frameTime == 60 && !e.animation.strip.looping
    && e.Spawnable()
  }

  // ------------------------------------------------------------ factories

  /** `new Player(entityManager)`. */
  method NewPlayer() returns (p: Entity)
    ensures fresh(p) && fresh(p.animation) && p.kind == Player && p.IsNew() && p.WellFormed()
    ensures p.motion.position == Zero && p.motion.rotation == 0.0 && p.animation.Valid()
  {
    p := new Entity(Player, Large, Zero, 0.0, Zero, null, null, "", 0);
  }

  /** `new Asteroid(gameManager, player, size)`; the two-argument form passes Large. */
  method NewAsteroid(size: Sizes) returns (a: Entity)
    ensures fresh(a) && fresh(a.animation) && a.kind == Asteroid && a.size == size
    ensures a.IsNew() && a.Spawnable() && a.motion.position == Zero && a.motion.rotation == 0.0
    ensures a.Dead()
  {
    a := new Entity(Asteroid, size, Zero, 0.0, Zero, null, null, "", 0);
  }

  /** `new Bullet(entityManager, position, speed, rotation)`. */
  method NewBullet(position: Vec, speed: Vec, rotation: real) returns (b: Entity)
    ensures fresh(b) && fresh(b.animation) && b.kind == Bullet && b.IsNew() && b.Spawnable()
    ensures b.motion.position == position && b.origin == position && b.speed == speed
    ensures b.motion.rotation == rotation
  {
    b := new Entity(Bullet, Large, position, rotation, speed, null, null, "", 0);
  }

  /** `new EnemyBullet(entityManager, ship, position, speed, rotation)`. */
  method NewEnemyBullet(ship: Entity, position: Vec, speed: Vec, rotation: real) returns (b: Entity)
    requires ship.kind == EnemyShip
    ensures fresh(b) && fresh(b.animation) && b.kind == EnemyBullet && b.ship == ship
    ensures b.IsNew() && b.Spawnable()
    ensures b.motion.position == position && b.origin == position && b.speed == speed
    ensures b.motion.rotation == rotation
  {
    b := new Entity(EnemyBullet, Large, position, rotation, speed, ship, null, "", 0);
  }

  /** `new EnemyShip(entityManager, position, speed, size, player)`. */
  method NewEnemyShip(position: Vec, speed: Vec, size: Sizes, player: Entity) returns (s: Entity)
    requires player.kind == Player
    ensures fresh(s) && fresh(s.animation) && s.kind == EnemyShip && s.player == player
    ensures s.IsNew() && s.WellFormed() && s.animation.Valid()
    ensures s.motion.position == position && s.speed == speed && s.size == size && s.motion.rotation == 0.0
  {
    s := new Entity(EnemyShip, size, position, 0.0, speed, null, player, "", 0);
  }

  /** `new Explosion(entityManager, texture)`. */
  method NewExplosion(texture: string) returns (e: Entity)
    ensures fresh(e) && fresh(e.animation) && e.kind == Explosion && e.texture == texture
    ensures e.IsNew() && e.Spawnable() && e.motion.position == Zero
  {
    e := new Entity(Explosion, Large, Zero, 0.0, Zero, null, null, texture, 0);
  }

  /** `new Background()`, with its texture draw supplied. */
  method NewBackground(roll: int) returns (b: Entity)
    ensures fresh(b) && fresh(b.animation) && b.kind == Background && b.backgroundRoll == roll
    ensures b.IsNew() && b.Spawnable()
  {
    b := new Entity(Background, Large, Zero, 0.0, Zero, null, null, "", roll);
  }

  /** `new ScoreDisplay(players)`. */
  method NewScoreDisplay() returns (d: Entity)
    ensures fresh(d) && fresh(d.animation) && d.kind == ScoreDisplay && d.IsNew() && d.Spawnable()
  {
    d := new Entity(ScoreDisplay, Large, Zero, 0.0, Zero, null, null, "", 0);
  }

  /** The CreateExplosion of Player, EnemyShip and GameManager: construct, initialize, then place. */
  method CreateExplosion(texture: string, position: Vec, screen: Screen, content: Content) returns (e: Entity)
    ensures fresh(e) && fresh(e.animation)
    ensures ExplosionAt(e, texture, position)
    ensures e.animation.strip.frameWidth == Div(content.textureWidth(texture), 16)
    ensures e.animation.strip.frameHeight == content.textureHeight(texture)
  {
    e := NewExplosion(texture);
    e.Initialize(screen, content);
    e.motion := e.motion.(position := Vec(position.x, position.y));
  }
}
