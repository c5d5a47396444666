// The entity kinds of the game and the pure rules that depend only on kind
// and size.

module Kinds {

  /** Asteroid and enemy-ship sizes. */
  datatype Sizes = Small | Medium | Large

  /**
   * The concrete entity classes. EnemyBullet derives from Bullet; every kind
   * except ScoreDisplay derives from AnimatedEntity.
   */
  datatype Kind =
    | Background
    | ScoreDisplay
    | Player
    | Asteroid
    | Bullet
    | EnemyBullet
    | EnemyShip
    | Explosion

  /** `e is Bullet`: true for player bullets and, by subclassing, enemy bullets. */
  predicate IsBullet(k: Kind) {
    k == Bullet || k == EnemyBullet
  }

  /** `e is AnimatedEntity`. */
  predicate IsAnimated(k: Kind) {
    k != ScoreDisplay
  }

  /** The attacker/target table that decides which ordered pairs are tested for collision. */
  predicate Admits(attacker: Kind, target: Kind): (admitted: bool)
    ensures admitted ==> IsAnimated(attacker) && IsAnimated(target)
  {
    || (IsBullet(attacker) && target == Asteroid)
    || (IsBullet(attacker) && target == EnemyShip)
    || (attacker == Asteroid && target == Player)
    || (attacker == EnemyBullet && target == Asteroid)
    || (attacker == EnemyBullet && target == Player)
  }

  /**
   * The table admits exactly bullets of either side against asteroids and ships,
   * and asteroids and enemy bullets against the player.
   */
  lemma AdmitsExactly(a: Kind, b: Kind)
    ensures Admits(a, b) <==>
      (a in {Bullet, EnemyBullet} && b in {Asteroid, EnemyShip}) ||
      (a in {Asteroid, EnemyBullet} && b == Player)
  {
  }

  /** No kind is its own target, so an object is never tested against itself. */
  lemma AdmitsIrreflexive(k: Kind)
    ensures !Admits(k, k)
  {
  }

  /** The size of the pieces (and of the explosion) when an asteroid breaks. */
  function NextSize(s: Sizes): (n: Sizes)
    ensures s == Large <==> n == Medium
    ensures n != Large
  {
    if s == Large then Medium else Small
  }

  /** Points for destroying an asteroid of the given size. */
  function AsteroidWorth(s: Sizes): int
  {
    match s
    case Large => 20
    case Medium => 50
    case Small => 100
  }

  /** Points for destroying an enemy ship of the given size. */
  function ShipBounty(s: Sizes): int
  {
    if s == Small then 1000 else 200
  }
}
