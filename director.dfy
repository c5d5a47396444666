// GameManager: the asteroid and enemy-ship population. Each frame it may
// spawn an enemy ship and a fresh asteroid, sweeps the dead asteroids
// (crediting the player and splitting each one into smaller children), and
// rescales the asteroid cap and the extra-life threshold to the score.

module Director {
  import opened Numerics
  import opened Kinds
  import opened Clock
  import opened Geometry
  import opened Animations
  import opened Entities
  import opened Registry

  const DefaultAsteroidCount := 3
  /** Seconds between enemy ships, and (at least) between fresh asteroids. */
  const ShipSpawnTime := 15.0
  const AsteroidSpawnTime := 1.5
  /** How far below its parent the first child of a split is placed. */
  const SplitOffset := 15.0
  /** Above this score enemy ships come in the small size. */
  const SmallShipScore := 10000
  /** The explosion texture of a size is the asteroid texture with this suffix. */
  const ExplosionSuffix := "_Animated_Trans1"

  /** `random.Next(0, 3)`: the corner draw is 0, 1 or 2. */
  type Corner = c: int | 0 <= c < 3

  /** The director's clocks and thresholds, updated together by Update and Clear. */
  datatype Pace = Pace(lastAsteroidSpawnTime: real, lastShipSpawnTime: real,
                       asteroidSpawnLimit: int, maxLives: int)

  /** The clocks start at zero, the cap at its base and the life threshold at 0. */
  const StartPace := Pace(0.0, 0.0, DefaultAsteroidCount, 0)

  // ------------------------------------------------------- corner table

  /**
   * The switch in CreateAsteroid: the position a new asteroid of the given
   * frame size is placed at and the velocity it gets, per corner case. The
   * default case assigns neither, which leaves the origin and the zero speed
   * of a new asteroid.
   */
  function CornerStart(corner: int, view: Viewport, width: int, height: int): (start: (Vec, Vec))
    ensures 0 <= corner <= 3 ==> (start.1.x == 1.0 || start.1.x == -1.0) && (start.1.y == 1.0 || start.1.y == -1.0)
    ensures !(0 <= corner <= 3) ==> start == (Zero, Zero)
  {
    var left := (view.x + Div(width, 2)) as real;
    var right := (view.width - Div(width, 2)) as real;
    var top := (view.y + Div(height, 2)) as real;
    var bottom := (view.height - Div(height, 2)) as real;
    match corner
    case 0 => (Vec(left, top), Vec(1.0, 1.0))
    case 1 => (Vec(right, top), Vec(-1.0, 1.0))
    case 2 => (Vec(left, bottom), Vec(1.0, -1.0))
    case 3 => (Vec(right, bottom), Vec(-1.0, -1.0))
    case _ => (Zero, Zero)
  }

  /**
   * Every corner the draw can yield gives a unit diagonal velocity pointing away
   * from the edges the asteroid starts at: rightwards from the left column,
   * downwards from the top row. The draw never reaches case 3, so no asteroid
   * starts in the bottom-right corner moving up and left, and the three corners
   * give three different velocities.
   */
  lemma CornerTable(c: Corner, view: Viewport, width: int, height: int)
    ensures var (p, v) := CornerStart(c, view, width, height);
      && (v.x == 1.0 || v.x == -1.0) && (v.y == 1.0 || v.y == -1.0)
      && (v.x == 1.0 ==> p.x == (view.x + Div(width, 2)) as real)
      && (v.x == -1.0 ==> p.x == (view.width - Div(width, 2)) as real)
      && (v.y == 1.0 ==> p.y == (view.y + Div(height, 2)) as real)
      && (v.y == -1.0 ==> p.y == (view.height - Div(height, 2)) as real)
      && v != Vec(-1.0, -1.0)
    ensures forall d: Corner :: CornerStart(d, view, width, height).1 == CornerStart(c, view, width, height).1 ==> d == c
  {
  }

  // ---------------------------------------------------------- difficulty

  /**
   * The asteroid cap for a score: one more fresh asteroid per thousand points.
   * `(int)Math.Floor(score / 1000.0)` is Dafny's `/`, which rounds down for a
   * positive divisor.
   */
  function SpawnLimit(score: int): (limit: int)
  {
    score / 1000 + DefaultAsteroidCount
  }

  /** The life threshold for a score: one step per ten thousand points. */
  function MaxLives(score: int): (threshold: int)
  {
    score / 10000 + DefaultLives
  }

  /** Both thresholds start at their base values and never fall as the score rises. */
  lemma ThresholdsMonotone(s1: int, s2: int)
    requires s1 <= s2
    ensures SpawnLimit(s1) <= SpawnLimit(s2) && MaxLives(s1) <= MaxLives(s2)
    ensures 0 <= s2 < 1000 ==> SpawnLimit(s2) == DefaultAsteroidCount
    ensures 0 <= s2 < 10000 ==> MaxLives(s2) == DefaultLives
  {
  }

  /**
   * One more point moves the life threshold exactly when it lands on a multiple
   * of ten thousand.
   */
  lemma LifeThresholdSteps(score: int)
    ensures MaxLives(score) != MaxLives(score - 1) <==> score % 10000 == 0
  {
    var q := (score - 1) / 10000;
    var r := (score - 1) % 10000;
    assert score - 1 == 10000 * q + r;
    if r == 9999 {
      assert score == 10000 * (q + 1);
    } else {
      assert score == 10000 * q + (r + 1);
    }
  }

  /**
   * The threshold starts (and is reset by Clear) at 0, below its value for any
   * score that is not negative, so the first Update after either changes it.
   */
  lemma FirstThresholdChanges(score: int)
    requires score >= 0
    ensures MaxLives(score) != StartPace.maxLives
  {
  }

  /**
   * The enemy-ship branch of Update: more than fifteen seconds since the last
   * ship and no enemy ship listed.
   */
  predicate ShipDue(now: real, pace: Pace, listed: seq<Entity>) {
    now - pace.lastShipSpawnTime > ShipSpawnTime && ShipCount(listed) <= 0
  }

  /**
   * The asteroid branch of Update: more than one and a half seconds since the
   * last fresh asteroid and fewer fresh asteroids than the cap.
   */
  predicate AsteroidDue(now: real, pace: Pace, freshCount: int) {
    var spawnTimeReached := now - pace.lastAsteroidSpawnTime > AsteroidSpawnTime;
    var spawnLimitReached := freshCount >= pace.asteroidSpawnLimit;
    spawnTimeReached && !spawnLimitReached
  }

  /** A fresh asteroid is due only below the cap and after the last one. */
  lemma AsteroidDueBelowCap(now: real, pace: Pace, freshCount: int)
    requires AsteroidDue(now, pace, freshCount)
    ensures freshCount < pace.asteroidSpawnLimit && now > pace.lastAsteroidSpawnTime + AsteroidSpawnTime
  {
  }

  /** With an enemy ship listed, or within fifteen seconds of the last one, no ship is due. */
  lemma ShipDueExactly(now: real, pace: Pace, listed: seq<Entity>)
    ensures ShipDue(now, pace, listed) <==>
      now - pace.lastShipSpawnTime > ShipSpawnTime && forall e | e in listed :: e.kind != EnemyShip
  {
    ShipCountZero(listed);
  }

  /**
   * The lives Update grants: one when the life threshold of the new score
   * differs from the stored one, none otherwise.
   */
  function ExtraLife(previous: int, score: int): (granted: int)
    ensures granted == 0 || granted == 1
  {
    if previous != MaxLives(score) then 1 else 0
  }

  /**
   * Within one game the stored threshold is that of the last score, so a
   * life is granted exactly when the score crosses a multiple of ten thousand
   * (between Updates the score may go up by more than one point).
   */
  lemma ExtraLifeOnCrossing(before: int, after: int)
    requires 0 <= before <= after
    ensures ExtraLife(MaxLives(before), after) == 1 <==> before / 10000 < after / 10000
  {
  }

  // --------------------------------------------------------- asteroid lists

  /** No object is listed twice. */
  predicate Distinct(s: seq<Entity>) {
    forall i, j | 0 <= i < j < |s| :: s[i] != s[j]
  }

  /**
   * What the sweep awards for an asteroid in this state: its score worth when it
   * is dead (health at most 0) and was not destroyed by an enemy bullet.
   */
  function Worth(r: Rock): (w: int)
    ensures w == 0 || w == r.scoreWorth
    ensures r.health > 0 ==> w == 0
  {
    if r.health <= 0 && !(r.killer != null && r.killer.kind == EnemyBullet) then r.scoreWorth else 0
  }

  /** The state of every asteroid of a list. */
  function Rocks(s: seq<Entity>): (rocks: seq<Rock>)
    reads s`rock
    ensures |rocks| == |s| && forall j | 0 <= j < |s| :: rocks[j] == s[j].rock
  {
    if s == [] then [] else [s[0].rock] + Rocks(s[1..])
  }

  /** What a sweep over asteroids in these states awards. */
  function Bounty(rocks: seq<Rock>): (total: int) {
    if rocks == [] then 0 else Worth(rocks[0]) + Bounty(rocks[1..])
  }

  /** With no negative worths a sweep never lowers the score. */
  lemma {:induction false} BountyNonNegative(rocks: seq<Rock>)
    requires forall j | 0 <= j < |rocks| :: rocks[j].scoreWorth >= 0
    ensures Bounty(rocks) >= 0
  {
    if rocks != [] {
      BountyNonNegative(rocks[1..]);
    }
  }

  /** How many children a sweep creates: two per dead asteroid that is not Small. */
  function Offspring(s: seq<Entity>, dead: set<Entity>): nat {
    if s == [] then 0 else (if s[0] in dead && s[0].size != Small then 2 else 0) + Offspring(s[1..], dead)
  }

  /** The dead asteroids of a list. */
  function DeadOf(s: seq<Entity>): set<Entity>
    reads s`rock
  {
    set a | a in s && a.Dead()
  }

  /** The list without the members of d, in order. */
  function Without(s: seq<Entity>, d: set<Entity>): seq<Entity> {
    if s == [] then [] else (if s[0] in d then [] else [s[0]]) + Without(s[1..], d)
  }

  /** `shipCount`: the number of listed enemy ships. */
  function ShipCount(s: seq<Entity>): (n: nat)
    ensures n <= |s|
  {
    if s == [] then 0 else (if s[0].kind == EnemyShip then 1 else 0) + ShipCount(s[1..])
  }

  /** The count is zero exactly when no enemy ship is listed. */
  lemma {:induction false} ShipCountZero(s: seq<Entity>)
    ensures ShipCount(s) == 0 <==> forall e | e in s :: e.kind != EnemyShip
  {
    if s != [] {
      assert s == [s[0]] + s[1..];
      ShipCountZero(s[1..]);
    }
  }

  /** The bounty of a sweep from i is the worth of entry i plus the bounty of the rest. */
  lemma BountySuffix(rocks: seq<Rock>, i: nat)
    requires i < |rocks|
    ensures Bounty(rocks[i..]) == Worth(rocks[i]) + Bounty(rocks[i + 1..])
  {
    assert rocks[i..][1..] == rocks[i + 1..];
  }

  /** A live entry at the end adds nothing to the dead ones, and its rock to the rocks. */
  lemma {:induction false} AppendAlive(s: seq<Entity>, x: Entity)
    requires !x.Dead()
    ensures DeadOf(s + [x]) == DeadOf(s)
    ensures Rocks(s + [x]) == Rocks(s) + [x.rock]
  {
  }

  /**
   * A live asteroid appended to the tracked list s (and to a list f) leaves the
   * dead asteroids and the bounty as they were, and survives the filter.
   */
  lemma Arrival(s: seq<Entity>, f: seq<Entity>, x: Entity)
    requires !x.Dead()
    ensures DeadOf(s + [x]) == DeadOf(s) && Bounty(Rocks(s + [x])) == Bounty(Rocks(s))
    ensures Without(s + [x], DeadOf(s)) == Without(s, DeadOf(s)) + [x]
    ensures Without(f + [x], DeadOf(s)) == Without(f, DeadOf(s)) + [x]
  {
    AppendAlive(s, x);
    BountyAppend(Rocks(s), x.rock);
    WithoutAppend(s, DeadOf(s), x);
    WithoutAppend(f, DeadOf(s), x);
  }

  /** One more entry at the end adds its worth to the bounty. */
  lemma {:induction false} BountyAppend(rocks: seq<Rock>, r: Rock)
    ensures Bounty(rocks + [r]) == Bounty(rocks) + Worth(r)
  {
    if rocks != [] {
      assert (rocks + [r])[1..] == rocks[1..] + [r];
      BountyAppend(rocks[1..], r);
    } else {
      assert ([] + [r])[1..] == [];
    }
  }

  /** Filtering never lengthens a list. */
  lemma {:induction false} WithoutShorter(s: seq<Entity>, d: set<Entity>)
    ensures |Without(s, d)| <= |s|
  {
    if s != [] {
      WithoutShorter(s[1..], d);
    }
  }

  /** The offspring of a sweep from i are those of entry i plus those of the rest. */
  lemma OffspringSuffix(s: seq<Entity>, dead: set<Entity>, i: nat)
    requires i < |s|
    ensures Offspring(s[i..], dead) == (if s[i] in dead && s[i].size != Small then 2 else 0) + Offspring(s[i + 1..], dead)
  {
    assert s[i..][1..] == s[i + 1..];
  }

  /** Excluding nothing keeps the list. */
  lemma {:induction false} WithoutNothing(s: seq<Entity>)
    ensures Without(s, {}) == s
  {
    if s != [] {
      WithoutNothing(s[1..]);
    }
  }

  /** An element is kept exactly when it is listed and not excluded. */
  lemma {:induction false} WithoutMembers(s: seq<Entity>, d: set<Entity>, e: Entity)
    ensures e in Without(s, d) <==> e in s && e !in d
  {
    if s != [] {
      assert s == [s[0]] + s[1..];
      WithoutMembers(s[1..], d, e);
    }
  }

  /** Once every dead member of a list is in d, the list without d holds no dead asteroid. */
  lemma SurvivorsLive(s: seq<Entity>, d: set<Entity>)
    requires forall a | a in s && a.Dead() :: a in d
    ensures forall a | a in Without(s, d) :: !a.Dead()
  {
    forall a | a in Without(s, d) ensures !a.Dead() {
      WithoutMembers(s, d, a);
    }
  }

  /** The tail of a list without repetitions has none, and does not hold the head. */
  lemma DistinctTail(s: seq<Entity>)
    requires Distinct(s) && s != []
    ensures Distinct(s[1..]) && s[0] !in s[1..]
  {
    forall i, j | 0 <= i < j < |s[1..]| ensures s[1..][i] != s[1..][j] {
      assert s[1..][i] == s[i + 1] && s[1..][j] == s[j + 1];
    }
    forall j | 0 <= j < |s[1..]| ensures s[1..][j] != s[0] {
      assert s[1..][j] == s[j + 1];
    }
  }

  /** Filtering a list without repetitions gives a list without repetitions. */
  lemma {:induction false} WithoutDistinct(s: seq<Entity>, d: set<Entity>)
    requires Distinct(s)
    ensures Distinct(Without(s, d))
  {
    if s != [] {
      DistinctTail(s);
      WithoutDistinct(s[1..], d);
      var rest := Without(s[1..], d);
      if s[0] !in d {
        WithoutMembers(s[1..], d, s[0]);
        forall i, j | 0 <= i < j < |[s[0]] + rest| ensures ([s[0]] + rest)[i] != ([s[0]] + rest)[j] {
          if i == 0 {
            assert ([s[0]] + rest)[j] == rest[j - 1];
            assert rest[j - 1] in rest;
          } else {
            assert ([s[0]] + rest)[i] == rest[i - 1] && ([s[0]] + rest)[j] == rest[j - 1];
          }
        }
      } else {
        assert [] + rest == rest;
      }
    }
  }

  /**
   * Dropping the first occurrence of a not yet excluded element from a filtered
   * list without repetitions is excluding it as well.
   */
  lemma {:induction false} WithoutRemove(s: seq<Entity>, d: set<Entity>, x: Entity)
    requires Distinct(s) && x !in d
    ensures RemoveFirst(Without(s, d), x) == Without(s, d + {x})
  {
    if s != [] {
      DistinctTail(s);
      var rest := Without(s[1..], d);
      if s[0] == x {
        WithoutMembers(s[1..], d, x);
        RemoveFirstSpec(rest, x);
        assert ([x] + rest)[1..] == rest;
        assert Without(s[1..], d + {x}) == rest by {
          WithoutSame(s[1..], d, x);
        }
      } else {
        WithoutRemove(s[1..], d, x);
        if s[0] !in d {
          assert ([s[0]] + rest)[0] == s[0] && ([s[0]] + rest)[1..] == rest;
        } else {
          assert [] + rest == rest;
          assert [] + Without(s[1..], d + {x}) == Without(s[1..], d + {x});
        }
      }
    }
  }

  /** Excluding an element that is not listed changes nothing. */
  lemma {:induction false} WithoutSame(s: seq<Entity>, d: set<Entity>, x: Entity)
    requires x !in s
    ensures Without(s, d + {x}) == Without(s, d)
  {
    if s != [] {
      assert s[0] != x;
      assert x !in s[1..] by {
        assert forall e | e in s[1..] :: e in s;
      }
      WithoutSame(s[1..], d, x);
    }
  }

  /** Filtering a list with one more element at the end. */
  lemma {:induction false} WithoutAppend(s: seq<Entity>, d: set<Entity>, x: Entity)
    ensures Without(s + [x], d) == Without(s, d) + (if x in d then [] else [x])
  {
    if s != [] {
      assert (s + [x])[1..] == s[1..] + [x];
      WithoutAppend(s[1..], d, x);
    } else {
      assert ([] + [x])[1..] == [];
    }
  }

  /** Appending an element that is not listed keeps a list free of repetitions. */
  lemma DistinctAppend(s: seq<Entity>, x: Entity)
    requires Distinct(s) && x !in s
    ensures Distinct(s + [x])
  {
    forall i, j | 0 <= i < j < |s + [x]| ensures (s + [x])[i] != (s + [x])[j] {
      if j == |s| {
        assert (s + [x])[i] == s[i] && s[i] in s;
      }
    }
  }

  /** Removal keeps every other element. */
  lemma {:induction false} RemoveFirstKeeps(s: seq<Entity>, x: Entity, e: Entity)
    requires e in s && e != x
    ensures e in RemoveFirst(s, x)
  {
    if s[0] != x && s[0] != e {
      RemoveFirstKeeps(s[1..], x, e);
    }
  }

  /** Two lists without repetitions and without common elements join into one without repetitions. */
  lemma DistinctConcat(s: seq<Entity>, t: seq<Entity>)
    requires Distinct(s) && Distinct(t) && forall j | 0 <= j < |t| :: t[j] !in s
    ensures Distinct(s + t)
  {
    forall i, j | 0 <= i < j < |s + t| ensures (s + t)[i] != (s + t)[j] {
      if j >= |s| && i < |s| {
        assert (s + t)[i] == s[i] && (s + t)[j] == t[j - |s|];
      }
    }
  }

  /** In a list without repetitions, the k-th of its second part is not among what comes before it. */
  lemma DistinctNext(s: seq<Entity>, t: seq<Entity>, k: nat)
    requires Distinct(s + t) && k < |t|
    ensures t[k] !in s + t[..k]
  {
    forall i | 0 <= i < |s| + k ensures (s + t[..k])[i] != t[k] {
      assert (s + t)[|s| + k] == t[k];
      if i < |s| {
        assert (s + t[..k])[i] == (s + t)[i];
      } else {
        assert (s + t[..k])[i] == (s + t)[i];
      }
    }
  }

  /** In a list without repetitions, removal keeps exactly the other elements. */
  lemma {:induction false} RemoveFirstDistinct(s: seq<Entity>, x: Entity)
    requires Distinct(s)
    ensures Distinct(RemoveFirst(s, x))
    ensures forall e | e in RemoveFirst(s, x) :: e in s && e != x
  {
    if s != [] {
      DistinctTail(s);
      if s[0] != x {
        RemoveFirstDistinct(s[1..], x);
        var rest := RemoveFirst(s[1..], x);
        forall i, j | 0 <= i < j < |[s[0]] + rest| ensures ([s[0]] + rest)[i] != ([s[0]] + rest)[j] {
          if i == 0 {
            assert ([s[0]] + rest)[j] == rest[j - 1] && rest[j - 1] in rest;
          } else {
            assert ([s[0]] + rest)[i] == rest[i - 1] && ([s[0]] + rest)[j] == rest[j - 1];
          }
        }
      }
    }
  }

  /** The entities a run of registry calls removes. */
  function Despawned(effects: seq<Effect>): set<Entity> {
    if effects == [] then {} else (if effects[0].Despawn? then {effects[0].entity} else {}) + Despawned(effects[1..])
  }

  /** What two runs of calls one after the other remove. */
  lemma {:induction false} DespawnedConcat(a: seq<Effect>, b: seq<Effect>)
    ensures Despawned(a + b) == Despawned(a) + Despawned(b)
  {
    if a != [] {
      assert (a + b)[0] == a[0];
      assert (a + b)[1..] == a[1..] + b;
      DespawnedConcat(a[1..], b);
    } else {
      assert a + b == b;
    }
  }

  /** The registry calls that add the given entities, in order. */
  function Spawns(xs: seq<Entity>): seq<Effect> {
    if xs == [] then [] else [Spawn(xs[0])] + Spawns(xs[1..])
  }

  /** Adding entities one by one appends them in order. */
  lemma {:induction false} AppliedSpawns(s: seq<Entity>, xs: seq<Entity>)
    ensures Applied(s, Spawns(xs)) == s + xs
    decreases |xs|
  {
    if xs != [] {
      assert ([Spawn(xs[0])] + Spawns(xs[1..]))[1..] == Spawns(xs[1..]);
      AppliedSpawns(s + [xs[0]], xs[1..]);
      assert s + [xs[0]] + xs[1..] == s + xs;
    }
  }

  /** The calls that add the given entities remove nothing. */
  lemma {:induction false} SpawnsRemoveNothing(xs: seq<Entity>)
    ensures Despawned(Spawns(xs)) == {}
    decreases |xs|
  {
    if xs != [] {
      assert ([Spawn(xs[0])] + Spawns(xs[1..]))[1..] == Spawns(xs[1..]);
      SpawnsRemoveNothing(xs[1..]);
    }
  }

  /**
   * One step of the descending sweep over a list without repetitions, with the
   * entries at i and above already swept: a surviving entry at i is kept where
   * it is, and a dead one is the first occurrence that removal drops.
   */
  lemma SweepStep(s: seq<Entity>, i: nat, d: set<Entity>, tail: seq<Entity>)
    requires i < |s| && Distinct(s)
    ensures s[i] !in s[i + 1..]
    ensures s[i] !in d ==> s[..i + 1] + Without(s[i + 1..], d) + tail == s[..i] + Without(s[i..], d) + tail
    ensures s[i] in d ==> RemoveFirst(s[..i + 1] + Without(s[i + 1..], d) + tail, s[i]) == s[..i] + Without(s[i..], d) + tail
  {
    assert s[i..][1..] == s[i + 1..];
    assert s[..i + 1] == s[..i] + [s[i]];
    forall j | i + 1 <= j < |s| ensures s[j] != s[i] {
    }
    var after := s[i + 1..];
    forall k | 0 <= k < |after| ensures after[k] != s[i] {
      assert after[k] == s[i + 1 + k];
    }
    if s[i] in d {
      var before := s[..i + 1] + Without(s[i + 1..], d) + tail;
      assert before[i] == s[i];
      assert before[..i] == s[..i];
      forall k | 0 <= k < i ensures s[k] != s[i] {
      }
      RemoveFirstAt(before, s[i], i);
      assert before[i + 1..] == Without(s[i + 1..], d) + tail;
    }
  }

  /**
   * With the entries at i and above swept, done holds exactly the dead ones
   * among them.
   */
  ghost predicate SweptFrom(s: seq<Entity>, i: nat, d: set<Entity>, done: set<Entity>) {
    && i <= |s| && done <= d
    && (forall j | i <= j < |s| && s[j] in d :: s[j] in done)
    && (forall a | a in done :: a in s[i..])
  }

  /** Sweeping the entry at i: it is not done yet, and it is done afterwards if it is dead. */
  lemma SweptStep(s: seq<Entity>, i: nat, d: set<Entity>, done: set<Entity>)
    requires i < |s| && Distinct(s) && SweptFrom(s, i + 1, d, done)
    ensures s[i] !in done
    ensures SweptFrom(s, i, d, if s[i] in d then done + {s[i]} else done)
  {
    SweepStep(s, i, d, []);
    var after := s[i + 1..];
    forall a | a in done ensures a in s[i..] {
      assert a in after;
      var k :| 0 <= k < |after| && after[k] == a;
      assert s[i..][k + 1] == a;
    }
  }

  /** Once every entry is swept, done is every dead entry. */
  lemma SweptAll(s: seq<Entity>, d: set<Entity>, done: set<Entity>)
    requires SweptFrom(s, 0, d, done) && forall a | a in d :: a in s
    ensures done == d
  {
    assert s[0..] == s;
  }

  /**
   * The list of tracked asteroids after one pass of the sweep: a live entry
   * stays, a dead entry is dropped and its children go to the end.
   */
  lemma SweepListStep(s: seq<Entity>, i: nat, d: set<Entity>, spawned: seq<Entity>,
                      before: seq<Entity>, after: seq<Entity>, children: seq<Entity>)
    requires i < |s| && Distinct(s)
    requires before == s[..i + 1] + Without(s[i + 1..], d) + spawned
    requires after == (if s[i] in d then RemoveFirst(before, s[i]) + children else before)
    requires s[i] !in d ==> children == []
    ensures after == s[..i] + Without(s[i..], d) + (spawned + children)
  {
    SweepStep(s, i, d, spawned);
    var rest := s[..i] + Without(s[i..], d);
    if s[i] in d {
      assert after == rest + spawned + children;
    } else {
      assert spawned + children == spawned;
    }
  }

  /**
   * The sweep's bookkeeping with the entries at i and above swept: for the
   * tracked list s (without repetitions), its dead entries d, the list of fresh
   * asteroids t and the registry's list before the sweep, the dead entries done
   * so far are gone from the tracked list, which ends with the children
   * spawned so far, and from the fresh list; the registry calls so far removed
   * exactly those entries, and two children came from each one not of the
   * smallest size.
   */
  ghost predicate Swept(s: seq<Entity>, d: set<Entity>, t: seq<Entity>, listed: seq<Entity>, i: nat,
                        done: set<Entity>, spawned: seq<Entity>, effects: seq<Effect>,
                        tracked: seq<Entity>, pending: seq<Entity>, registered: seq<Entity>)
  {
    && Distinct(s) && Distinct(t) && SweptFrom(s, i, d, done)
    && tracked == s[..i] + Without(s[i..], d) + spawned
    && pending == Without(t, done)
    && registered == Applied(listed, effects) && Despawned(effects) == done
    && |spawned| == Offspring(s[i..], d)
  }

  /**
   * One pass of the sweep on the entry at i: a live entry changes nothing; a
   * dead one is dropped from the tracked and the pending list, its children are
   * appended to the tracked list, and the registry calls of the pass remove it.
   */
  lemma SweptPass(s: seq<Entity>, d: set<Entity>, t: seq<Entity>, listed: seq<Entity>, i: nat,
                  done: set<Entity>, spawned: seq<Entity>, effects: seq<Effect>,
                  tracked: seq<Entity>, pending: seq<Entity>, registered: seq<Entity>,
                  children: seq<Entity>, step: seq<Effect>,
                  tracked': seq<Entity>, pending': seq<Entity>, registered': seq<Entity>)
    requires i < |s| && Swept(s, d, t, listed, i + 1, done, spawned, effects, tracked, pending, registered)
    requires tracked' == (if s[i] in d then RemoveFirst(tracked, s[i]) + children else tracked)
    requires pending' == (if s[i] in d then RemoveFirst(pending, s[i]) else pending)
    requires registered' == Applied(registered, step)
    requires Despawned(step) == (if s[i] in d then {s[i]} else {})
    requires |children| == (if s[i] in d && s[i].size != Small then 2 else 0)
    ensures Swept(s, d, t, listed, i, if s[i] in d then done + {s[i]} else done,
                  spawned + children, effects + step, tracked', pending', registered')
  {
    SweptStep(s, i, d, done);
    SweepListStep(s, i, d, spawned, tracked, tracked', children);
    if s[i] in d {
      WithoutRemove(t, done, s[i]);
    }
    AppliedConcat(listed, effects, step);
    DespawnedConcat(effects, step);
    OffspringSuffix(s, d, i);
  }

  /** A sweep that has passed every entry has removed exactly the dead ones. */
  lemma SweptDone(s: seq<Entity>, d: set<Entity>, t: seq<Entity>, listed: seq<Entity>,
                  done: set<Entity>, spawned: seq<Entity>, effects: seq<Effect>,
                  tracked: seq<Entity>, pending: seq<Entity>, registered: seq<Entity>)
    requires Swept(s, d, t, listed, 0, done, spawned, effects, tracked, pending, registered)
    requires forall a | a in d :: a in s
    ensures tracked == Without(s, d) + spawned && pending == Without(t, d)
    ensures registered == Applied(listed, effects) && Despawned(effects) == d
    ensures |spawned| == Offspring(s, d)
  {
    SweptAll(s, d, done);
    assert s[0..] == s;
  }

  // ------------------------------------------------------------ director

  /** An asteroid at the given position, moving at the given speed. */
  ghost predicate Placed(c: Entity, place: (Vec, Vec))
    reads c
  {
    c.motion.position == place.0 && c.motion.currentSpeed == place.1
  }

  /** A split child before it is listed: a spawnable, not yet initialized asteroid where it was placed. */
  ghost predicate Ready(c: Entity, place: (Vec, Vec))
    reads c, c.animation
  {
    c.kind == Asteroid && c.Spawnable() && !c.initialized && Placed(c, place)
  }

  /** A split child once the registry has initialized it: alive, and still where it was placed. */
  ghost predicate Grown(c: Entity, place: (Vec, Vec))
    reads c
  {
    c.initialized && !c.Dead() && Placed(c, place)
  }

  class GameManager {
    const entityManager: EntityManager
    /** The player the director was constructed with; enemy ships credit it. */
    const player: Entity
    /** Every tracked asteroid, and the subset the spawn timer created (no split children). */
    var asteroids: seq<Entity>
    var freshAsteroids: seq<Entity>
    var pace: Pace

    /**
     * The registry keeps its own invariant, the tracked asteroids are asteroids,
     * neither list repeats an object, and every fresh asteroid is tracked.
     */
    ghost predicate Valid()
      reads this, entityManager, entityManager.Animations()
    {
      && entityManager.Valid()
      && player.kind == Player
      && Distinct(asteroids) && Distinct(freshAsteroids)
      && (forall a | a in freshAsteroids :: a in asteroids)
      && (forall a | a in asteroids :: a.kind == Asteroid)
    }

    constructor (entityManager: EntityManager, player: Entity)
      requires entityManager.Valid() && player.kind == Player
      ensures this.entityManager == entityManager && this.player == player
      ensures asteroids == [] && freshAsteroids == [] && pace == StartPace && Valid()
    {
      this.entityManager := entityManager;
      this.player := player;
      asteroids := [];
      freshAsteroids := [];
      pace := StartPace;
    }

    /**
     * A new Large asteroid, initialized with the given content and device,
     * placed and set moving by the corner table, and tracked (but not yet
     * listed with the registry).
     */
    method CreateAsteroid(content: Content, screen: Screen, corner: int) returns (asteroid: Entity)
      requires Valid()
      modifies this
      ensures Valid()
      ensures fresh(asteroid) && fresh(asteroid.animation)
      ensures asteroids == old(asteroids) + [asteroid]
      ensures freshAsteroids == old(freshAsteroids) && pace == old(pace)
      ensures asteroid.kind == Asteroid && asteroid.size == Large && asteroid.Spawnable()
      ensures asteroid.initialized && !asteroid.Dead() && asteroid.rock.scoreWorth == AsteroidWorth(Large)
      ensures asteroid.StartedWith(asteroid.StripFor(content))
      ensures (asteroid.motion.position, asteroid.motion.currentSpeed) ==
        CornerStart(corner, screen, asteroid.Width(), asteroid.Height())
    {
      asteroid := NewAsteroid(Large);
      asteroid.Initialize(screen, content);
      PlaceAtCorner(asteroid, screen, corner);
      DistinctAppend(asteroids, asteroid);
      asteroids := asteroids + [asteroid];
    }

    /** The corner switch of CreateAsteroid, on an asteroid that has not yet been set moving. */
    method PlaceAtCorner(asteroid: Entity, screen: Screen, corner: int)
      requires asteroid.motion.currentSpeed == Zero
      modifies asteroid
      ensures asteroid.State() == old(asteroid.State()).(motion := asteroid.motion)
      ensures asteroid.motion == old(asteroid.motion).(
        position := CornerStart(corner, screen, asteroid.Width(), asteroid.Height()).0,
        currentSpeed := CornerStart(corner, screen, asteroid.Width(), asteroid.Height()).1)
    {
      var speed := 1.0;
      var x, y := 0.0, 0.0;
      var halfWidth, halfHeight := Div(asteroid.Width(), 2), Div(asteroid.Height(), 2);
      if corner == 0 {
        x, y := (screen.x + halfWidth) as real, (screen.y + halfHeight) as real;
        asteroid.motion := asteroid.motion.(currentSpeed := Vec(1.0 * speed, 1.0 * speed));
      } else if corner == 1 {
        x, y := (screen.width - halfWidth) as real, (screen.y + halfHeight) as real;
        asteroid.motion := asteroid.motion.(currentSpeed := Vec(-1.0 * speed, 1.0 * speed));
      } else if corner == 2 {
        x, y := (screen.x + halfWidth) as real, (screen.height - halfHeight) as real;
        asteroid.motion := asteroid.motion.(currentSpeed := Vec(1.0 * speed, -1.0 * speed));
      } else if corner == 3 {
        x, y := (screen.width - halfWidth) as real, (screen.height - halfHeight) as real;
        asteroid.motion := asteroid.motion.(currentSpeed := Vec(-1.0 * speed, -1.0 * speed));
      }
      asteroid.motion := asteroid.motion.(position := Vec(x, y));
    }

    /** Stop tracking an asteroid and drop it from the registry: the first occurrence in each list. */
    method Remove(asteroid: Entity)
      requires Valid()
      modifies this, entityManager
      ensures Valid() && pace == old(pace)
      ensures asteroids == RemoveFirst(old(asteroids), asteroid)
      ensures freshAsteroids == RemoveFirst(old(freshAsteroids), asteroid)
      ensures entityManager.entities == RemoveFirst(old(entityManager.entities), asteroid)
    {
      RemoveFirstDistinct(asteroids, asteroid);
      RemoveFirstDistinct(freshAsteroids, asteroid);
      forall a | a in RemoveFirst(freshAsteroids, asteroid) ensures a in RemoveFirst(asteroids, asteroid) {
        RemoveFirstKeeps(asteroids, asteroid, a);
      }
      asteroids := RemoveFirst(asteroids, asteroid);
      freshAsteroids := RemoveFirst(freshAsteroids, asteroid);
      entityManager.Remove(asteroid);
    }

    /** Empty both asteroid lists and the registry, and reset the life threshold. */
    method Clear()
      requires Valid()
      modifies this, entityManager
      ensures Valid()
      ensures asteroids == [] && freshAsteroids == [] && entityManager.entities == []
      ensures pace == old(pace).(maxLives := 0)
    {
      asteroids := [];
      freshAsteroids := [];
      entityManager.Clear();
      pace := pace.(maxLives := 0);
    }

    /** An enemy ship at the position, moving right, initialized; Small once the player has more than 10000 points. */
    method CreateEnemy(position: Vec, content: Content, screen: Screen) returns (enemy: Entity)
      requires Valid()
      ensures fresh(enemy) && fresh(enemy.animation)
      ensures enemy.kind == EnemyShip && enemy.player == player && enemy.WellFormed() && enemy.animation.Valid()
      ensures enemy.size == Small <==> player.pilot.score > SmallShipScore
      ensures enemy.motion.position == position && enemy.speed == Vec(1.0, 0.0)
      ensures enemy.initialized && enemy.StartedWith(enemy.StripFor(content))
    {
      var size := Large;
      if player.pilot.score > SmallShipScore {
        size := Small;
      }
      var speed := Vec(1.0, 0.0);
      enemy := NewEnemyShip(position, speed, size, player);
      enemy.Initialize(screen, content);
    }

    /** An enemy ship at the left edge, at the drawn height below the top, added to the registry. */
    method CreateEnemyShip(content: Content, screen: Screen, shipY: int) returns (ghost enemy: Entity)
      requires Valid()
      modifies entityManager
      ensures Valid()
      ensures fresh(enemy) && entityManager.entities == old(entityManager.entities) + [enemy]
      ensures enemy.kind == EnemyShip && enemy.player == player && enemy.initialized
      ensures enemy.motion.position == Vec(screen.x as real, (screen.y + shipY) as real)
      ensures enemy.size == Small <==> player.pilot.score > SmallShipScore
    {
      var position := Vec(screen.x as real, (screen.y + shipY) as real);
      var ship := CreateEnemy(position, content, screen);
      entityManager.Add(ship);
      enemy := ship;
    }

    /** The explosion of an asteroid breaking into the given size: that size's texture, initialized and placed. */
    method CreateExplosion(size: Sizes, position: Vec, content: Content, screen: Screen) returns (explosion: Entity)
      ensures fresh(explosion) && fresh(explosion.animation)
      ensures ExplosionAt(explosion, AsteroidTexture(size) + ExplosionSuffix, position)
    {
      var texture := AsteroidTexture(size) + ExplosionSuffix;
      explosion := Entities.CreateExplosion(texture, position, screen, content);
    }

    /**
     * The dead-asteroid branch of the sweep: an explosion one size down at the
     * asteroid, two children one size down unless the asteroid is Small (the
     * first 15 below it keeping its velocity, the second in its place with the
     * velocity negated), the asteroid dropped from all three lists, and the
     * children added to the registry and tracked, but not as fresh asteroids.
     */
    method Shatter(asteroid: Entity, content: Content, screen: Screen)
      returns (ghost explosion: Entity, ghost children: seq<Entity>, ghost effects: seq<Effect>)
      requires Valid() && asteroid.kind == Asteroid
      modifies this, entityManager
      ensures Valid() && pace == old(pace)
      ensures asteroids == RemoveFirst(old(asteroids), asteroid) + children
      ensures freshAsteroids == RemoveFirst(old(freshAsteroids), asteroid)
      ensures entityManager.entities == Applied(old(entityManager.entities), effects)
      ensures effects == [Spawn(explosion), Despawn(asteroid)] + Spawns(children)
      ensures fresh(explosion)
      ensures ExplosionAt(explosion, AsteroidTexture(NextSize(asteroid.size)) + ExplosionSuffix, asteroid.motion.position)
      ensures |children| == (if asteroid.size == Small then 0 else 2)
      ensures forall j | 0 <= j < |children| ::
        fresh(children[j]) && children[j].kind == Asteroid && children[j].size == NextSize(asteroid.size)
      ensures |children| == 2 ==>
        var p, v := asteroid.motion.position, asteroid.motion.currentSpeed;
        Grown(children[0], (Vec(p.x, p.y + SplitOffset), v)) && Grown(children[1], (p, v.Negated()))
    {
      explosion := Explode(NextSize(asteroid.size), asteroid.motion.position, content, screen);
      label exploded:
      ghost var listed := entityManager.entities;
      children := Replace(asteroid);
      assert unchanged@exploded(explosion, explosion.animation);
      effects := [Spawn(explosion), Despawn(asteroid)] + Spawns(children);
      AppliedConcat(old(entityManager.entities), [Spawn(explosion), Despawn(asteroid)], Spawns(children));
      AppliedSpawns(RemoveFirst(listed, asteroid), children);
    }

    /**
     * The asteroid dropped from all three lists and its children, if any,
     * added to the registry and tracked.
     */
    method Replace(asteroid: Entity) returns (children: seq<Entity>)
      requires Valid() && asteroid.kind == Asteroid
      modifies this, entityManager
      ensures Valid() && pace == old(pace)
      ensures asteroids == RemoveFirst(old(asteroids), asteroid) + children
      ensures freshAsteroids == RemoveFirst(old(freshAsteroids), asteroid)
      ensures entityManager.entities == RemoveFirst(old(entityManager.entities), asteroid) + children
      ensures |children| == (if asteroid.size == Small then 0 else 2)
      ensures forall j | 0 <= j < |children| ::
        fresh(children[j]) && children[j].kind == Asteroid && children[j].size == NextSize(asteroid.size)
      ensures |children| == 2 ==>
        var p, v := asteroid.motion.position, asteroid.motion.currentSpeed;
        Grown(children[0], (Vec(p.x, p.y + SplitOffset), v)) && Grown(children[1], (p, v.Negated()))
    {
      var split, places := SplitAsteroid(asteroid);
      Remove(asteroid);
      RemoveFirstSpec(old(asteroids), asteroid);
      DistinctConcat(asteroids, split);
      AddChildren(split, places);
      children := split;
    }

    /** The explosion of the sweep, created and added to the registry. */
    method Explode(size: Sizes, position: Vec, content: Content, screen: Screen) returns (ghost explosion: Entity)
      requires Valid()
      modifies entityManager
      ensures Valid()
      ensures entityManager.entities == old(entityManager.entities) + [explosion]
      ensures fresh(explosion) && ExplosionAt(explosion, AsteroidTexture(size) + ExplosionSuffix, position)
    {
      var boom := CreateExplosion(size, position, content, screen);
      entityManager.Add(boom);
      explosion := boom;
    }

    /** The children of a dead asteroid: none for a Small one, otherwise two of the next size. */
    method SplitAsteroid(asteroid: Entity) returns (split: seq<Entity>, ghost places: seq<(Vec, Vec)>)
      ensures |split| == |places| == (if asteroid.size == Small then 0 else 2)
      ensures Distinct(split)
      ensures forall i, j | 0 <= i < j < |split| :: split[i].animation != split[j].animation
      ensures forall j | 0 <= j < |split| ::
        && fresh(split[j]) && fresh(split[j].animation)
        && split[j].size == NextSize(asteroid.size) && Ready(split[j], places[j])
      ensures |split| == 2 ==>
        var p, v := asteroid.motion.position, asteroid.motion.currentSpeed;
        places == [(Vec(p.x, p.y + SplitOffset), v), (p, v.Negated())]
    {
      var nextSize := NextSize(asteroid.size);
      split, places := [], [];
      if asteroid.size != Small {
        var position, speed := asteroid.motion.position, asteroid.motion.currentSpeed;
        var a1 := SplitChild(nextSize, Vec(position.x, position.y + SplitOffset), speed);
        var a2 := SplitChild(nextSize, position, Vec(-speed.x, -speed.y));
        split := [a1, a2];
        places := [(Vec(position.x, position.y + SplitOffset), speed), (position, Vec(-speed.x, -speed.y))];
      }
    }

    /** A new, not yet initialized asteroid of a split: placed and set moving. */
    method SplitChild(size: Sizes, position: Vec, speed: Vec) returns (child: Entity)
      ensures fresh(child) && fresh(child.animation)
      ensures child.kind == Asteroid && child.size == size && child.Spawnable() && !child.initialized
      ensures child.motion.position == position && child.motion.currentSpeed == speed
    {
      child := NewAsteroid(size);
      child.motion := child.motion.(position := position);
      child.motion := child.motion.(currentSpeed := speed);
    }

    /** One pass of the foreach: list the child with the registry, which initializes it, then track it. */
    method AddChild(child: Entity, ghost place: (Vec, Vec))
      requires Valid() && child !in asteroids && Ready(child, place)
      modifies this, entityManager, child, child.animation
      ensures Valid() && pace == old(pace) && freshAsteroids == old(freshAsteroids)
      ensures asteroids == old(asteroids) + [child]
      ensures entityManager.entities == old(entityManager.entities) + [child]
      ensures Grown(child, place)
    {
      entityManager.Add(child);
      DistinctAppend(asteroids, child);
      asteroids := asteroids + [child];
    }

    /**
     * The foreach over the children of a split with the first k children
     * listed and tracked: they follow the lists as they stood before, they
     * are grown, and the rest are still ready.
     */
    ghost predicate Adding(k: nat, split: seq<Entity>, places: seq<(Vec, Vec)>,
                           tracked: seq<Entity>, listed: seq<Entity>)
      reads this, entityManager, split, set j | 0 <= j < |split| :: split[j].animation
    {
      && k <= |split| <= |places|
      && asteroids == tracked + split[..k]
      && entityManager.entities == listed + split[..k]
      && (forall j | 0 <= j < k :: Grown(split[j], places[j]))
      && (forall j | k <= j < |split| :: Ready(split[j], places[j]))
    }

    /** The foreach of the sweep over the children of a split. */
    method AddChildren(split: seq<Entity>, ghost places: seq<(Vec, Vec)>)
      requires Valid() && Distinct(asteroids + split) && |places| == |split|
      requires forall i, j | 0 <= i < j < |split| :: split[i].animation != split[j].animation
      requires forall j | 0 <= j < |split| :: Ready(split[j], places[j])
      modifies this, entityManager, split, set j | 0 <= j < |split| :: split[j].animation
      ensures Valid() && pace == old(pace) && freshAsteroids == old(freshAsteroids)
      ensures asteroids == old(asteroids) + split
      ensures entityManager.entities == old(entityManager.entities) + split
      ensures forall j | 0 <= j < |split| :: Grown(split[j], places[j])
    {
      ghost var tracked, listed := asteroids, entityManager.entities;
      for k := 0 to |split|
        invariant Valid() && pace == old(pace) && freshAsteroids == old(freshAsteroids)
        invariant Adding(k, split, places, tracked, listed)
      {
        AddChildAt(k, split, places, tracked, listed);
      }
      assert split[..|split|] == split;
    }

    /** One pass of the foreach: the child at k is listed and tracked. */
    method AddChildAt(k: nat, split: seq<Entity>, ghost places: seq<(Vec, Vec)>,
                      ghost tracked: seq<Entity>, ghost listed: seq<Entity>)
      requires Valid() && Distinct(tracked + split) && k < |split|
      requires forall i, j | 0 <= i < j < |split| :: split[i].animation != split[j].animation
      requires Adding(k, split, places, tracked, listed)
      modifies this, entityManager, split[k], split[k].animation
      ensures Valid() && pace == old(pace) && freshAsteroids == old(freshAsteroids)
      ensures Adding(k + 1, split, places, tracked, listed)
    {
      var child := split[k];
      DistinctNext(tracked, split, k);
      AddChild(child, places[k]);
      assert split[..k + 1] == split[..k] + [child];
    }

    /** The first half of a pass of the sweep: credit the player with the asteroid's worth. */
    method Credit(asteroid: Entity, scorer: Entity)
      modifies scorer`pilot
      ensures scorer.pilot == old(scorer.pilot).(score := old(scorer.pilot.score) + Worth(asteroid.rock))
    {
      if !(asteroid.rock.killer != null && asteroid.rock.killer.kind == EnemyBullet) && asteroid.Dead() {
        scorer.pilot := scorer.pilot.(score := scorer.pilot.score + asteroid.rock.scoreWorth);
      }
    }

    /**
     * The second half of a pass of the sweep: a dead asteroid is shattered; a
     * live one is left alone.
     */
    method Settle(asteroid: Entity, content: Content, screen: Screen)
      returns (ghost children: seq<Entity>, ghost effects: seq<Effect>)
      requires Valid() && asteroid.kind == Asteroid
      modifies this, entityManager
      ensures Valid() && pace == old(pace)
      ensures asteroids == (if old(asteroid.Dead()) then RemoveFirst(old(asteroids), asteroid) + children else old(asteroids))
      ensures freshAsteroids == (if old(asteroid.Dead()) then RemoveFirst(old(freshAsteroids), asteroid) else old(freshAsteroids))
      ensures entityManager.entities == Applied(old(entityManager.entities), effects)
      ensures Despawned(effects) == (if old(asteroid.Dead()) then {asteroid} else {})
      ensures |children| == (if old(asteroid.Dead()) && asteroid.size != Small then 2 else 0)
      ensures forall j | 0 <= j < |children| :: fresh(children[j]) && children[j].rock.health > 0
    {
      children, effects := [], [];
      if asteroid.Dead() {
        ghost var explosion;
        explosion, children, effects := Shatter(asteroid, content, screen);
        DespawnedConcat([Spawn(explosion), Despawn(asteroid)], Spawns(children));
        DespawnedConcat([Spawn(explosion)], [Despawn(asteroid)]);
        SpawnsRemoveNothing(children);
      }
    }

    /**
     * The state of the sweep with the entries at i and above of the tracked
     * list s passed: the bookkeeping of Swept on this director's lists and the
     * registry's list, the player credited with the bounty of those entries
     * on top of its state before the sweep.
     */
    ghost predicate Sweeping(i: nat, scorer: Entity, s: seq<Entity>, d: set<Entity>, t: seq<Entity>,
                             listed: seq<Entity>, rocks: seq<Rock>, done: set<Entity>,
                             spawned: seq<Entity>, effects: seq<Effect>, start: Pilot)
      reads this, entityManager, scorer
    {
      && i <= |rocks|
      && Swept(s, d, t, listed, i, done, spawned, effects, asteroids, freshAsteroids, entityManager.entities)
      && scorer.pilot == start.(score := start.score + Bounty(rocks[i..]))
    }

    /**
     * One pass of the sweep, on the entry at i of the tracked list the sweep
     * started from: the player is credited with the entry's worth and the
     * entry is settled, which carries the sweep's bookkeeping from i + 1 to i.
     */
    method SweepAt(i: nat, content: Content, screen: Screen, scorer: Entity,
                   ghost swept: seq<Entity>, ghost dead: set<Entity>, ghost tracked: seq<Entity>,
                   ghost listed: seq<Entity>, ghost rocks: seq<Rock>, ghost done: set<Entity>,
                   ghost spawned: seq<Entity>, ghost effects: seq<Effect>, ghost start: Pilot)
      returns (ghost done': set<Entity>, ghost spawned': seq<Entity>, ghost effects': seq<Effect>)
      requires Valid() && i < |swept| && i < |rocks|
      requires Sweeping(i + 1, scorer, swept, dead, tracked, listed, rocks, done, spawned, effects, start)
      requires swept[i].rock == rocks[i] && (swept[i].Dead() <==> swept[i] in dead)
      modifies this, entityManager, scorer`pilot
      ensures Valid() && pace == old(pace)
      ensures Sweeping(i, scorer, swept, dead, tracked, listed, rocks, done', spawned', effects', start)
    {
      var asteroid := asteroids[i];
      assert asteroid == swept[i];
      BountySuffix(rocks, i);
      Credit(asteroid, scorer);
      ghost var before, beforeFresh, beforeListed := asteroids, freshAsteroids, entityManager.entities;
      ghost var children, step := Settle(asteroid, content, screen);
      SweptPass(swept, dead, tracked, listed, i, done, spawned, effects, before, beforeFresh, beforeListed,
                children, step, asteroids, freshAsteroids, entityManager.entities);
      done' := if asteroid in dead then done + {asteroid} else done;
      effects' := effects + step;
      spawned' := spawned + children;
    }

    /**
     * RemoveDeadAsteroids: a sweep from the last tracked asteroid down to the
     * first. Afterwards the dead ones are gone from both lists (the survivors
     * keep their order) and their children follow the survivors, no survivor
     * is dead, the player holds the bounty of the old list, and the
     * registry has seen the removal of exactly the dead asteroids.
     */
    method RemoveDeadAsteroids(content: Content, screen: Screen, scorer: Entity)
      returns (ghost spawned: seq<Entity>, ghost effects: seq<Effect>)
      requires Valid() && scorer.kind == Player
      modifies this, entityManager, scorer`pilot
      ensures Valid() && pace == old(pace)
      ensures asteroids == Without(old(asteroids), old(DeadOf(asteroids))) + spawned
      ensures freshAsteroids == Without(old(freshAsteroids), old(DeadOf(asteroids)))
      ensures forall a | a in Without(old(asteroids), old(DeadOf(asteroids))) :: !a.Dead()
      ensures scorer.pilot == old(scorer.pilot).(score := old(scorer.pilot.score) + Bounty(old(Rocks(asteroids))))
      ensures entityManager.entities == Applied(old(entityManager.entities), effects)
      ensures Despawned(effects) == old(DeadOf(asteroids))
      ensures |spawned| == Offspring(old(asteroids), old(DeadOf(asteroids)))
    {
      ghost var swept, dead, tracked := asteroids, DeadOf(asteroids), freshAsteroids;
      ghost var rocks, listed := Rocks(asteroids), entityManager.entities;
      ghost var done: set<Entity> := {};
      spawned, effects := [], [];
      WithoutNothing(tracked);
      for i := |asteroids| downto 0
        invariant Valid() && pace == old(pace)
        invariant Sweeping(i, scorer, swept, dead, tracked, listed, rocks, done, spawned, effects, old(scorer.pilot))
      {
        assert swept[i].rock == old(swept[i].rock) == rocks[i];
        done, spawned, effects := SweepAt(i, content, screen, scorer, swept, dead, tracked, listed, rocks,
                                          done, spawned, effects, old(scorer.pilot));
      }
      SweptDone(swept, dead, tracked, listed, done, spawned, effects,
                asteroids, freshAsteroids, entityManager.entities);
      SurvivorsLive(swept, dead);
    }

    /**
     * The enemy-ship branch of Update: when a ship is due, an enemy ship is
     * created at the drawn height and listed, and the ship clock is set to now.
     */
    method SpawnEnemyShip(content: Content, screen: Screen, now: real, shipY: int) returns (ghost ships: seq<Entity>)
      requires Valid()
      modifies `pace, entityManager
      ensures Valid()
      ensures pace == old(pace).(lastShipSpawnTime :=
        if old(ShipDue(now, pace, entityManager.entities)) then now else old(pace.lastShipSpawnTime))
      ensures |ships| == (if old(ShipDue(now, pace, entityManager.entities)) then 1 else 0)
      ensures entityManager.entities == old(entityManager.entities) + ships
      ensures forall e | e in ships :: fresh(e) && e.kind == EnemyShip && e.initialized
    {
      ships := [];
      if now - pace.lastShipSpawnTime > ShipSpawnTime && ShipCount(entityManager.entities) <= 0 {
        ghost var enemy := CreateEnemyShip(content, screen, shipY);
        ships := [enemy];
        pace := pace.(lastShipSpawnTime := now);
      }
    }

    /**
     * The asteroid branch of Update: when an asteroid is due, the asteroid clock
     * is set to now and a new Large asteroid from the drawn corner is tracked,
     * marked fresh and listed.
     */
    method SpawnAsteroid(content: Content, screen: Screen, now: real, corner: Corner, due: bool)
      returns (ghost arrivals: seq<Entity>)
      requires Valid()
      modifies this, entityManager
      ensures Valid()
      ensures pace == (if due then old(pace).(lastAsteroidSpawnTime := now) else old(pace))
      ensures |arrivals| == (if due then 1 else 0)
      ensures asteroids == old(asteroids) + arrivals && freshAsteroids == old(freshAsteroids) + arrivals
      ensures entityManager.entities == old(entityManager.entities) + arrivals
      ensures forall a | a in arrivals :: fresh(a) && a.kind == Asteroid && a.size == Large && a.rock.health > 0
      ensures DeadOf(asteroids) == old(DeadOf(asteroids)) && Bounty(Rocks(asteroids)) == old(Bounty(Rocks(asteroids)))
      ensures Without(asteroids, old(DeadOf(asteroids))) == Without(old(asteroids), old(DeadOf(asteroids))) + arrivals
      ensures Without(freshAsteroids, old(DeadOf(asteroids))) == Without(old(freshAsteroids), old(DeadOf(asteroids))) + arrivals
    {
      arrivals := [];
      if due {
        pace := pace.(lastAsteroidSpawnTime := now);
        var asteroid := Arrive(content, screen, corner);
        arrivals := [asteroid];
      } else {
        assert asteroids + arrivals == asteroids && freshAsteroids + arrivals == freshAsteroids;
      }
    }

    /**
     * The body of the asteroid branch: a new Large asteroid from the corner is
     * tracked, marked fresh and listed. It is alive, so the dead asteroids and
     * what a sweep would award stay as they were.
     */
    method Arrive(content: Content, screen: Screen, corner: Corner) returns (asteroid: Entity)
      requires Valid()
      modifies this, entityManager
      ensures Valid() && pace == old(pace)
      ensures asteroids == old(asteroids) + [asteroid] && freshAsteroids == old(freshAsteroids) + [asteroid]
      ensures entityManager.entities == old(entityManager.entities) + [asteroid]
      ensures fresh(asteroid) && asteroid.kind == Asteroid && asteroid.size == Large && asteroid.rock.health > 0
      ensures DeadOf(asteroids) == old(DeadOf(asteroids)) && Bounty(Rocks(asteroids)) == old(Bounty(Rocks(asteroids)))
      ensures Without(asteroids, old(DeadOf(asteroids))) == Without(old(asteroids), old(DeadOf(asteroids))) + [asteroid]
      ensures Without(freshAsteroids, old(DeadOf(asteroids))) == Without(old(freshAsteroids), old(DeadOf(asteroids))) + [asteroid]
    {
      ghost var tracked, dead, rocks := asteroids, DeadOf(asteroids), Rocks(asteroids);
      asteroid := CreateAsteroid(content, screen, corner);
      DistinctAppend(freshAsteroids, asteroid);
      freshAsteroids := freshAsteroids + [asteroid];
      entityManager.Add(asteroid);
      assert forall a | a in tracked :: a.rock == old(a.rock);
      assert DeadOf(tracked) == dead && Rocks(tracked) == rocks;
      Arrival(tracked, old(freshAsteroids), asteroid);
    }

    /**
     * The last lines of Update: the asteroid cap and the life threshold follow
     * the score, and a threshold that changed grants one life.
     */
    method Rescale(scorer: Entity)
      requires Valid()
      modifies `pace, scorer`pilot
      ensures Valid()
      ensures pace == old(pace).(asteroidSpawnLimit := SpawnLimit(old(scorer.pilot.score)),
                                 maxLives := MaxLives(old(scorer.pilot.score)))
      ensures scorer.pilot ==
        old(scorer.pilot).(lives := old(scorer.pilot.lives) + ExtraLife(old(pace.maxLives), old(scorer.pilot.score)))
    {
      pace := pace.(asteroidSpawnLimit := SpawnLimit(scorer.pilot.score));
      var previousLives := pace.maxLives;
      pace := pace.(maxLives := MaxLives(scorer.pilot.score));
      if previousLives != pace.maxLives {
        scorer.pilot := scorer.pilot.(lives := scorer.pilot.lives + 1);
      }
    }

    /**
     * The two spawn branches of Update, both decided on the state at the start
     * of the frame. The sweep that follows sees the same dead asteroids and the
     * same bounty, and the new asteroid survives it.
     */
    method SpawnBranches(content: Content, screen: Screen, now: real, corner: Corner, shipY: int)
      returns (ghost ships: seq<Entity>, ghost arrivals: seq<Entity>)
      requires Valid()
      modifies this, entityManager
      ensures Valid()
      ensures pace == old(pace).(
        lastShipSpawnTime := if old(ShipDue(now, pace, entityManager.entities)) then now else old(pace.lastShipSpawnTime),
        lastAsteroidSpawnTime := if old(AsteroidDue(now, pace, |freshAsteroids|)) then now else old(pace.lastAsteroidSpawnTime))
      ensures |ships| == (if old(ShipDue(now, pace, entityManager.entities)) then 1 else 0)
      ensures |arrivals| == (if old(AsteroidDue(now, pace, |freshAsteroids|)) then 1 else 0)
      ensures entityManager.entities == old(entityManager.entities) + ships + arrivals
      ensures DeadOf(asteroids) == old(DeadOf(asteroids)) && Bounty(Rocks(asteroids)) == old(Bounty(Rocks(asteroids)))
      ensures Without(asteroids, DeadOf(asteroids)) == Without(old(asteroids), old(DeadOf(asteroids))) + arrivals
      ensures Without(freshAsteroids, DeadOf(asteroids)) == Without(old(freshAsteroids), old(DeadOf(asteroids))) + arrivals
    {
      var spawnTimeReached := now - pace.lastAsteroidSpawnTime > AsteroidSpawnTime;
      var spawnLimitReached := |freshAsteroids| >= pace.asteroidSpawnLimit;
      ghost var tracked, dead, rocks := asteroids, DeadOf(asteroids), Rocks(asteroids);
      ships := SpawnEnemyShip(content, screen, now, shipY);
      assert forall a | a in tracked :: a.rock == old(a.rock);
      assert DeadOf(tracked) == dead && Rocks(tracked) == rocks;
      arrivals := SpawnAsteroid(content, screen, now, corner, spawnTimeReached && !spawnLimitReached);
    }

    /**
     * One frame of the director. The ship branch and the asteroid branch are
     * decided on the state at the start of the frame; the sweep then removes
     * the asteroids that were dead at the start (a new asteroid is alive) and
     * credits the player with their bounty; finally the cap and the life
     * threshold follow the new score, with one life granted when the
     * threshold changed. The drawn corner and ship height are inputs.
     */
    method Update(content: Content, screen: Screen, scorer: Entity, gameTime: GameTime, corner: Corner, shipY: int)
      returns (ghost ships: seq<Entity>, ghost arrivals: seq<Entity>,
               ghost spawned: seq<Entity>, ghost effects: seq<Effect>)
      requires Valid() && scorer.kind == Player
      modifies this, entityManager, scorer`pilot
      ensures Valid()
      ensures var now := gameTime.totalSeconds;
        && |ships| == (if old(ShipDue(now, pace, entityManager.entities)) then 1 else 0)
        && pace.lastShipSpawnTime ==
             (if old(ShipDue(now, pace, entityManager.entities)) then now else old(pace.lastShipSpawnTime))
        && |arrivals| == (if old(AsteroidDue(now, pace, |freshAsteroids|)) then 1 else 0)
        && pace.lastAsteroidSpawnTime ==
             (if old(AsteroidDue(now, pace, |freshAsteroids|)) then now else old(pace.lastAsteroidSpawnTime))
      ensures asteroids == Without(old(asteroids), old(DeadOf(asteroids))) + arrivals + spawned
      ensures freshAsteroids == Without(old(freshAsteroids), old(DeadOf(asteroids))) + arrivals
      ensures entityManager.entities == Applied(old(entityManager.entities) + ships + arrivals, effects)
      ensures Despawned(effects) == old(DeadOf(asteroids))
      ensures scorer.pilot.score == old(scorer.pilot.score) + Bounty(old(Rocks(asteroids)))
      ensures pace.asteroidSpawnLimit == SpawnLimit(scorer.pilot.score)
      ensures pace.maxLives == MaxLives(scorer.pilot.score)
      ensures scorer.pilot == old(scorer.pilot).(score := scorer.pilot.score,
        lives := old(scorer.pilot.lives) + ExtraLife(old(pace.maxLives), scorer.pilot.score))
    {
      ships, arrivals := SpawnBranches(content, screen, gameTime.totalSeconds, corner, shipY);
      assert pace.maxLives == old(pace.maxLives) && scorer.pilot == old(scorer.pilot);
      spawned, effects := RemoveDeadAsteroids(content, screen, scorer);
      ghost var credited := scorer.pilot;
      assert credited == old(scorer.pilot).(score := credited.score);
      Rescale(scorer);
      assert scorer.pilot == credited.(lives := credited.lives + ExtraLife(old(pace.maxLives), credited.score));
    }
  }
}
