// EntityManager: the list of all entities, the animated subset kept in step
// with it, the per-frame update over a snapshot of the list and the collision
// pass over a snapshot of the animated subset.

module Registry {
  import opened Kinds
  import opened Clock
  import opened Geometry
  import opened Input
  import opened Animations
  import opened Entities

  // ------------------------------------------------------ list operations

  /** `List.Remove`: drop the first occurrence, if there is one. */
  function RemoveFirst(s: seq<Entity>, x: Entity): seq<Entity> {
    if s == [] then []
    else if s[0] == x then s[1..]
    else [s[0]] + RemoveFirst(s[1..], x)
  }

  /**
   * Removing an entity that is not listed changes nothing; otherwise exactly one
   * occurrence goes, and nothing new appears.
   */
  lemma {:induction false} RemoveFirstSpec(s: seq<Entity>, x: Entity)
    ensures x !in s ==> RemoveFirst(s, x) == s
    ensures x in s ==> |RemoveFirst(s, x)| == |s| - 1
    ensures forall e | e in RemoveFirst(s, x) :: e in s
  {
    if s != [] {
      assert s == [s[0]] + s[1..];
      RemoveFirstSpec(s[1..], x);
    }
  }

  /** As a multiset, removal takes away one copy of the entity, if there is one. */
  lemma {:induction false} RemoveFirstMultiset(s: seq<Entity>, x: Entity)
    ensures multiset(RemoveFirst(s, x)) == multiset(s) - multiset{x}
  {
    if s != [] {
      assert s == [s[0]] + s[1..];
      RemoveFirstMultiset(s[1..], x);
    }
  }

  /** Removing the first occurrence, at index i, keeps everything before and after it, in order. */
  lemma {:induction false} RemoveFirstAt(s: seq<Entity>, x: Entity, i: nat)
    requires i < |s| && s[i] == x && x !in s[..i]
    ensures RemoveFirst(s, x) == s[..i] + s[i + 1..]
  {
    if i > 0 {
      assert s[0] in s[..i];
      assert s[1..][..i - 1] == s[1..i];
      RemoveFirstAt(s[1..], x, i - 1);
      assert s[..i] == [s[0]] + s[1..i];
      assert s[i + 1..] == s[1..][i..];
    }
  }

  /** The entities that are AnimatedEntity objects, in list order. */
  function AnimatedOf(s: seq<Entity>): seq<Entity> {
    if s == [] then []
    else (if IsAnimated(s[0].kind) then [s[0]] else []) + AnimatedOf(s[1..])
  }

  /** The animated subset holds exactly the listed entities that are animated. */
  lemma {:induction false} AnimatedOfMembers(s: seq<Entity>, e: Entity)
    ensures e in AnimatedOf(s) <==> e in s && IsAnimated(e.kind)
  {
    if s != [] {
      AnimatedOfMembers(s[1..], e);
      assert s == [s[0]] + s[1..];
    }
  }

  /** Appending to the list appends to the animated subset exactly when the entity is animated. */
  lemma {:induction false} AnimatedOfAppend(s: seq<Entity>, x: Entity)
    ensures AnimatedOf(s + [x]) == AnimatedOf(s) + (if IsAnimated(x.kind) then [x] else [])
  {
    if s != [] {
      assert (s + [x])[1..] == s[1..] + [x];
      AnimatedOfAppend(s[1..], x);
    }
  }

  /**
   * Removing from the list removes the same occurrence from the animated
   * subset when the entity is animated, and leaves the subset alone otherwise.
   */
  lemma {:induction false} AnimatedOfRemove(s: seq<Entity>, x: Entity)
    ensures AnimatedOf(RemoveFirst(s, x)) ==
      if IsAnimated(x.kind) then RemoveFirst(AnimatedOf(s), x) else AnimatedOf(s)
  {
    if s != [] && s[0] != x {
      var t, r := s[1..], RemoveFirst(s[1..], x);
      var h := if IsAnimated(s[0].kind) then [s[0]] else [];
      AnimatedOfRemove(t, x);
      assert ([s[0]] + r)[0] == s[0] && ([s[0]] + r)[1..] == r;
      assert AnimatedOf(RemoveFirst(s, x)) == h + AnimatedOf(r);
      assert AnimatedOf(s) == h + AnimatedOf(t);
      if IsAnimated(x.kind) && h != [] {
        var a := AnimatedOf(t);
        assert (h + a)[0] == s[0] && (h + a)[1..] == a;
      } else {
        assert [] + AnimatedOf(r) == AnimatedOf(r) && [] + AnimatedOf(t) == AnimatedOf(t);
      }
    }
  }

  // ------------------------------------------------------------ effects

  /** One registry call made by entity code: Add appends, with no duplicate check; Remove drops the first occurrence. */
  function ApplyEffect(s: seq<Entity>, f: Effect): seq<Entity> {
    match f
    case Spawn(x) => s + [x]
    case Despawn(x) => RemoveFirst(s, x)
  }

  /** A run of registry calls, in order. */
  function Applied(s: seq<Entity>, effects: seq<Effect>): seq<Entity>
    decreases |effects|
  {
    if effects == [] then s else Applied(ApplyEffect(s, effects[0]), effects[1..])
  }

  /** Applying two runs of calls one after the other is applying their concatenation. */
  lemma {:induction false} AppliedConcat(s: seq<Entity>, a: seq<Effect>, b: seq<Effect>)
    ensures Applied(s, a + b) == Applied(Applied(s, a), b)
    decreases |a|
  {
    if a != [] {
      assert (a + b)[0] == a[0];
      assert (a + b)[1..] == a[1..] + b;
      AppliedConcat(ApplyEffect(s, a[0]), a[1..], b);
    } else {
      assert a + b == b;
    }
  }

  /** After a run of calls every listed entity was listed before or was added by one of them. */
  lemma {:induction false} AppliedMembers(s: seq<Entity>, effects: seq<Effect>, e: Entity)
    requires e in Applied(s, effects)
    ensures e in s || Spawn(e) in effects
    decreases |effects|
  {
    if effects != [] {
      AppliedMembers(ApplyEffect(s, effects[0]), effects[1..], e);
      if effects[0].Despawn? {
        RemoveFirstSpec(s, effects[0].entity);
      }
      if e in ApplyEffect(s, effects[0]) && e !in s {
        assert effects[0] == Spawn(e);
      }
      if Spawn(e) in effects[1..] {
        assert Spawn(e) in effects;
      }
    }
  }

  // --------------------------------------------------------- pair order

  /** The ordered pairs (a, b), b running over s in order, that the kind table admits. */
  function Row(a: Entity, s: seq<Entity>): seq<(Entity, Entity)>
    decreases |s|
  {
    if s == [] then []
    else
      var b := s[|s| - 1];
      Row(a, s[..|s| - 1]) + (if Admits(a.kind, b.kind) then [(a, b)] else [])
  }

  /** A log that covered the row up to j, extended by the test at j, covers the row up to j + 1. */
  lemma RowExtend(prior: seq<Test>, before: seq<Test>, log: seq<Test>, a: Entity, s: seq<Entity>, j: nat)
    requires j < |s| && Pairs(before) == Pairs(prior) + Row(a, s[..j])
    requires Pairs(log) == Pairs(before) + if Admits(a.kind, s[j].kind) then [(a, s[j])] else []
    ensures Pairs(log) == Pairs(prior) + Row(a, s[..j + 1])
  {
    var t := s[..j + 1];
    var extra := if Admits(a.kind, s[j].kind) then [(a, s[j])] else [];
    assert t[..|t| - 1] == s[..j] && t[|t| - 1] == s[j];
    assert Row(a, t) == Row(a, s[..j]) + extra;
    assert (Pairs(prior) + Row(a, s[..j])) + extra == Pairs(prior) + (Row(a, s[..j]) + extra);
  }

  /** The admitted ordered pairs of the nested loop: a over xs on the outside, b over s inside. */
  function AdmittedPairs(xs: seq<Entity>, s: seq<Entity>): seq<(Entity, Entity)>
    decreases |xs|
  {
    if xs == [] then [] else AdmittedPairs(xs[..|xs| - 1], s) + Row(xs[|xs| - 1], s)
  }

  lemma {:induction false} RowExactly(a: Entity, s: seq<Entity>, p: (Entity, Entity))
    ensures p in Row(a, s) <==> p.0 == a && p.1 in s && Admits(a.kind, p.1.kind)
    decreases |s|
  {
    if s != [] {
      RowExactly(a, s[..|s| - 1], p);
      assert s == s[..|s| - 1] + [s[|s| - 1]];
    }
  }

  /**
   * The pairs tested are exactly the ordered pairs the kind table admits, so no
   * object is ever tested against itself.
   */
  lemma {:induction false} AdmittedPairsExactly(xs: seq<Entity>, s: seq<Entity>, p: (Entity, Entity))
    ensures p in AdmittedPairs(xs, s) <==> p.0 in xs && p.1 in s && Admits(p.0.kind, p.1.kind)
    ensures p in AdmittedPairs(xs, s) ==> p.0 != p.1
    decreases |xs|
  {
    if xs != [] {
      AdmittedPairsExactly(xs[..|xs| - 1], s, p);
      RowExactly(xs[|xs| - 1], s, p);
      assert xs == xs[..|xs| - 1] + [xs[|xs| - 1]];
    }
    if p.0 == p.1 {
      AdmitsIrreflexive(p.0.kind);
    }
  }

  // ------------------------------------------------------------ pass logs

  /**
   * One step of the update pass: the entity updated, whether its animation was
   * drawing when its turn came, the state its Update left, and the registry
   * calls it made.
   */
  datatype Step = Step(entity: Entity, drawing: bool, after: EntityState, effects: seq<Effect>)

  /** The state of e after the logged steps, from the state s it had before them. */
  function StateAfterSteps(log: seq<Step>, e: Entity, s: EntityState): EntityState
    decreases |log|
  {
    if log == [] then s
    else if log[|log| - 1].entity == e then log[|log| - 1].after
    else StateAfterSteps(log[..|log| - 1], e, s)
  }

  /** The registry calls of the logged steps, in order. */
  function StepEffects(log: seq<Step>): seq<Effect>
    decreases |log|
  {
    if log == [] then [] else StepEffects(log[..|log| - 1]) + log[|log| - 1].effects
  }

  /**
   * Step k was the entity's own Update applied to the state the earlier steps
   * left it in (start gives the states before the pass), with the draws for
   * position k, and made the registry calls Emitted gives for that state.
   */
  ghost predicate Replayed(log: seq<Step>, k: nat, start: map<Entity, EntityState>,
                           input: InputManager, gameTime: GameTime, draws: nat -> Draws)
    requires k < |log|
  {
    var t := log[k];
    && t.entity in start
    && var before := StateAfterSteps(log[..k], t.entity, start[t.entity]);
       && t.after == t.entity.Updated(before, input, gameTime, draws(k))
       && t.entity.Emitted(before, t.drawing, input, gameTime, t.effects)
  }

  /** Every logged step was replayed as Replayed says. */
  ghost predicate AllReplayed(log: seq<Step>, start: map<Entity, EntityState>,
                              input: InputManager, gameTime: GameTime, draws: nat -> Draws)
  {
    forall k | 0 <= k < |log| :: Replayed(log, k, start, input, gameTime, draws)
  }

  /** A new step, the entity's Update on the state the earlier steps left it in, extends a replayed log. */
  lemma Stepped(log: seq<Step>, start: map<Entity, EntityState>, input: InputManager, gameTime: GameTime,
                draws: nat -> Draws, entity: Entity, drawing: bool, before: EntityState, after: EntityState,
                effects: seq<Effect>)
    requires AllReplayed(log, start, input, gameTime, draws)
    requires entity in start && before == StateAfterSteps(log, entity, start[entity])
    requires after == entity.Updated(before, input, gameTime, draws(|log|))
    requires entity.Emitted(before, drawing, input, gameTime, effects)
    ensures var next := log + [Step(entity, drawing, after, effects)];
      && AllReplayed(next, start, input, gameTime, draws)
      && StepEffects(next) == StepEffects(log) + effects
      && forall e | e in start ::
           StateAfterSteps(next, e, start[e]) == if e == entity then after else StateAfterSteps(log, e, start[e])
  {
    var t := Step(entity, drawing, after, effects);
    forall k | 0 <= k < |log|
      ensures Replayed(log + [t], k, start, input, gameTime, draws)
    {
      assert Replayed(log, k, start, input, gameTime, draws);
      assert (log + [t])[..k] == log[..k];
      assert (log + [t])[k] == log[k];
    }
    assert (log + [t])[..|log|] == log;
    assert Replayed(log + [t], |log|, start, input, gameTime, draws);
  }

  /** A step changes the state of its own entity only. */
  lemma StateAfterStepsAppend(log: seq<Step>, t: Step, e: Entity, s: EntityState)
    ensures StateAfterSteps(log + [t], e, s) == if t.entity == e then t.after else StateAfterSteps(log, e, s)
  {
    assert (log + [t])[..|log|] == log;
  }

  /**
   * One admitted test of the collision pass: the attacker and the target,
   * whether the attacker touched the target, the registry calls the touch made,
   * and the new states of the objects it changed.
   */
  datatype Test = Test(attacker: Entity, target: Entity, touched: bool, effects: seq<Effect>,
                       changed: map<Entity, EntityState>)

  /** The state of e after the logged tests, from the state s it had before them. */
  function StateAfter(log: seq<Test>, e: Entity, s: EntityState): EntityState
    decreases |log|
  {
    if log == [] then s
    else if e in log[|log| - 1].changed then log[|log| - 1].changed[e]
    else StateAfter(log[..|log| - 1], e, s)
  }

  /** The (attacker, target) pairs of the logged tests, in order. */
  function Pairs(log: seq<Test>): seq<(Entity, Entity)>
    decreases |log|
  {
    if log == [] then [] else Pairs(log[..|log| - 1]) + [(log[|log| - 1].attacker, log[|log| - 1].target)]
  }

  /** The registry calls of the logged tests, in order. */
  function TouchEffects(log: seq<Test>): seq<Effect>
    decreases |log|
  {
    if log == [] then [] else TouchEffects(log[..|log| - 1]) + log[|log| - 1].effects
  }

  /** The centres, taken from two states and two frame sizes, are closer than either radius (CheckCollision). */
  ghost predicate Touching(a: EntityState, b: EntityState, af: (int, int), bf: (int, int)) {
    Collides(DistSq(Center(a.motion.position, af.0, af.1), Center(b.motion.position, bf.0, bf.1)),
             Radius(af.0, af.1), Radius(bf.0, bf.1))
  }

  /** CheckCollision, read off the two entities' states and frame sizes. */
  lemma CollisionTouching(x: Entity, y: Entity)
    ensures x.CheckCollision(y) == Touching(x.State(), y.State(), (x.Width(), x.Height()), (y.Width(), y.Height()))
  {
  }

  /**
   * What one test changed, given the target's state b and its credited
   * player's state c before it: nothing unless the attacker touched the target;
   * a touch changed exactly the target and the player it credits, and made the
   * registry calls, as Touch does.
   */
  ghost predicate Reacts(attacker: Entity, target: Entity, b: EntityState, c: EntityState,
                         touched: bool, effects: seq<Effect>, changed: map<Entity, EntityState>)
  {
    && (!touched ==> changed == map[] && effects == [])
    && (touched ==>
          && changed.Keys == {target} + target.Fellows()
          && changed[target] == attacker.Struck(target, b)
          && (target.player != null ==> changed[target.player] == attacker.Rewarded(target, c))
          && attacker.Answered(target, b, effects))
  }

  /**
   * Test k was decided on the positions the earlier tests left (start gives the
   * states before the pass, frames the frame width and height of each animation,
   * which the pass does not change), and changed what Touch changes.
   */
  ghost predicate Decided(log: seq<Test>, k: nat, start: map<Entity, EntityState>, frames: map<Entity, (int, int)>)
    requires k < |log|
  {
    var t := log[k];
    && t.attacker in start && t.target in start && t.target.Fellows() <= start.Keys
    && t.attacker in frames && t.target in frames
    && var a := StateAfter(log[..k], t.attacker, start[t.attacker]);
       var b := StateAfter(log[..k], t.target, start[t.target]);
       var c := if t.target.player != null then StateAfter(log[..k], t.target.player, start[t.target.player]) else b;
       && (t.touched <==> Touching(a, b, frames[t.attacker], frames[t.target]))
       && Reacts(t.attacker, t.target, b, c, t.touched, t.effects, t.changed)
  }

  lemma DecidedExtend(log: seq<Test>, t: Test, start: map<Entity, EntityState>, frames: map<Entity, (int, int)>)
    requires forall k | 0 <= k < |log| :: Decided(log, k, start, frames)
    ensures forall k | 0 <= k < |log| :: Decided(log + [t], k, start, frames)
  {
    forall k | 0 <= k < |log|
      ensures Decided(log + [t], k, start, frames)
    {
      assert Decided(log, k, start, frames);
      assert (log + [t])[..k] == log[..k];
      assert (log + [t])[k] == log[k];
    }
  }

  /** Every logged test was decided as Decided says. */
  ghost predicate AllDecided(log: seq<Test>, start: map<Entity, EntityState>, frames: map<Entity, (int, int)>) {
    forall k | 0 <= k < |log| :: Decided(log, k, start, frames)
  }

  /** A new test, decided on the states the earlier tests left, extends a decided log. */
  lemma Logged(prior: seq<Test>, start: map<Entity, EntityState>, frames: map<Entity, (int, int)>,
               attacker: Entity, target: Entity, touched: bool, effects: seq<Effect>, changed: map<Entity, EntityState>,
               a: EntityState, b: EntityState, c: EntityState)
    requires AllDecided(prior, start, frames)
    requires attacker in start && target in start && target.Fellows() <= start.Keys
    requires attacker in frames && target in frames
    requires a == StateAfter(prior, attacker, start[attacker]) && b == StateAfter(prior, target, start[target])
    requires c == if target.player != null then StateAfter(prior, target.player, start[target.player]) else b
    requires touched <==> Touching(a, b, frames[attacker], frames[target])
    requires Reacts(attacker, target, b, c, touched, effects, changed)
    ensures var log := prior + [Test(attacker, target, touched, effects, changed)];
      && AllDecided(log, start, frames)
      && TouchEffects(log) == TouchEffects(prior) + effects
      && Pairs(log) == Pairs(prior) + [(attacker, target)]
      && forall e | e in start ::
           StateAfter(log, e, start[e]) == if e in changed then changed[e] else StateAfter(prior, e, start[e])
  {
    var t := Test(attacker, target, touched, effects, changed);
    DecidedExtend(prior, t, start, frames);
    assert (prior + [t])[..|prior|] == prior;
    assert Decided(prior + [t], |prior|, start, frames);
  }

  /** A test changes the states of the objects it logs as changed only. */
  lemma StateAfterAppend(log: seq<Test>, t: Test, e: Entity, s: EntityState)
    ensures StateAfter(log + [t], e, s) == if e in t.changed then t.changed[e] else StateAfter(log, e, s)
  {
    assert (log + [t])[..|log|] == log;
  }

  // ------------------------------------------------------------- manager

  class EntityManager {
    /** The content manager and graphics device Add initializes entities with. */
    const content: Content
    const screen: Screen
    var entities: seq<Entity>
    var animatedEntities: seq<Entity>

    /**
     * The animated list is the animated subsequence of the entity list, and
     * every listed entity is well formed with an animation that is not active
     * before it is initialized.
     */
    ghost predicate Valid()
      reads this, Animations()
    {
      && animatedEntities == AnimatedOf(entities)
      && forall e | e in entities :: e.WellFormed() && e.animation.Valid()
    }

    /** The listed entities. */
    ghost function Listed(): set<Entity>
      reads this
    {
      set e | e in entities
    }

    /** The listed entities' animations. */
    ghost function Animations(): set<Animation>
      reads this
    {
      set e | e in entities :: e.animation
    }

    /** The players the listed enemy ships credit. */
    ghost function Credited(): set<Entity>
      reads this
    {
      set e | e in entities && e.player != null :: e.player
    }

    /** `List()`. */
    function List(): seq<Entity>
      reads this
    {
      entities
    }

    constructor (content: Content, screen: Screen)
      ensures this.content == content && this.screen == screen
      ensures entities == [] && animatedEntities == [] && Valid()
    {
      this.content := content;
      this.screen := screen;
      entities := [];
      animatedEntities := [];
    }

    /**
     * Initialize the entity if it is not yet initialized, then append it to the
     * list, and to the animated list if it is animated. Nothing stops the same
     * entity from being listed twice.
     */
    method Add(entity: Entity)
      requires Valid() && entity.WellFormed() && entity.animation.Valid()
      modifies this, entity, entity.animation
      ensures Valid()
      ensures entities == old(entities) + [entity]
      ensures animatedEntities == old(animatedEntities) + (if IsAnimated(entity.kind) then [entity] else [])
      ensures old(entity.initialized) ==> unchanged(entity, entity.animation)
      ensures !old(entity.initialized) ==>
        entity.State() == entity.InitializedState(old(entity.State()), screen, content)
      ensures !old(entity.initialized) && entity.kind != ScoreDisplay ==> entity.StartedWith(entity.StripFor(content))
    {
      if !entity.initialized {
        entity.Initialize(screen, content);
      }
      AnimatedOfAppend(entities, entity);
      entities := entities + [entity];
      if IsAnimated(entity.kind) {
        animatedEntities := animatedEntities + [entity];
      }
    }

    /** Drop the first occurrence from both lists; an entity that is not listed changes nothing. */
    method Remove(entity: Entity)
      requires Valid()
      modifies this
      ensures Valid()
      ensures entities == RemoveFirst(old(entities), entity)
      ensures animatedEntities ==
        if IsAnimated(entity.kind) then RemoveFirst(old(animatedEntities), entity) else old(animatedEntities)
    {
      AnimatedOfRemove(entities, entity);
      RemoveFirstSpec(entities, entity);
      entities := RemoveFirst(entities, entity);
      if IsAnimated(entity.kind) {
        animatedEntities := RemoveFirst(animatedEntities, entity);
      }
    }

    method Clear()
      modifies this
      ensures entities == [] && animatedEntities == [] && Valid()
    {
      entities := [];
      animatedEntities := [];
    }

    /**
     * Initialize every listed entity with the given content and device, whether
     * or not it is already initialized. An entity listed twice is initialized
     * twice, which leaves what initializing it once leaves.
     */
    method Initialize(content: Content, screen: Screen)
      requires Valid()
      modifies Listed(), Animations()
      ensures Valid()
      ensures forall e | e in entities :: e.State() == e.InitializedState(old(e.State()), screen, content)
      ensures forall e | e in entities :: e.screen == screen && e.content == content
      ensures forall e | e in entities && e.kind != ScoreDisplay :: e.initialized && e.wrapScreenCount == 0
      ensures forall e | e in entities && e.kind != ScoreDisplay ::
        e.animation.initialized && e.animation.timer == FrameTimer(0, 0, true)
    {
      ghost var start := map e | e in entities :: e.State();
      var i := 0;
      while i < |entities|
        invariant 0 <= i <= |entities|
        invariant Valid() && InitializedUpTo(start, i, screen, content)
      {
        InitializeAt(i, start, screen, content);
        i := i + 1;
      }
      assert entities[..i] == entities;
      forall e | e in entities
        ensures e.screen == screen && e.content == content
        ensures e.kind != ScoreDisplay ==> e.initialized && e.wrapScreenCount == 0
      {
        InitializedFields(e, start[e], screen, content);
      }
    }

    /** The fields an initialized state fixes, read back from the object. */
    lemma InitializedFields(e: Entity, s: EntityState, screen: Screen, content: Content)
      requires e.State() == e.InitializedState(s, screen, content)
      ensures e.screen == screen && e.content == content
      ensures e.kind != ScoreDisplay ==> e.initialized && e.wrapScreenCount == 0
    {
    }

    /**
     * The first i listed entities have been initialized once or more from the
     * states in start, the others still have those states, and the animations of
     * the initialized ones that own one are restarted.
     */
    ghost predicate InitializedUpTo(start: map<Entity, EntityState>, i: nat, screen: Screen, content: Content)
      reads this, Listed(), Animations()
    {
      && i <= |entities| && Listed() <= start.Keys
      && (forall e | e in entities[..i] :: e.State() == e.InitializedState(start[e], screen, content))
      && (forall e | e in entities && e !in entities[..i] :: e.State() == start[e])
      && (forall e | e in entities[..i] && e.kind != ScoreDisplay ::
            e.animation.initialized && e.animation.timer == FrameTimer(0, 0, true))
    }

    /** One step of Initialize: the entity at position i. */
    method InitializeAt(i: nat, ghost start: map<Entity, EntityState>, screen: Screen, content: Content)
      requires Valid() && InitializedUpTo(start, i, screen, content) && i < |entities|
      modifies entities[i], entities[i].animation
      ensures Valid() && InitializedUpTo(start, i + 1, screen, content)
    {
      var entity := entities[i];
      assert entity in entities;
      if entity in entities[..i] {
        entity.InitializedTwice(start[entity], screen, content);
      }
      entity.Initialize(screen, content);
      assert entities[..i + 1] == entities[..i] + [entity];
      forall e | e in entities[..i + 1]
        ensures e.State() == e.InitializedState(start[e], screen, content)
      {
        if e != entity {
          assert e in entities[..i];
        }
      }
      forall e | e in entities[..i + 1] && e.kind != ScoreDisplay
        ensures e.animation.initialized && e.animation.timer == FrameTimer(0, 0, true)
      {
        if e != entity {
          assert e in entities[..i];
        }
      }
    }

    /** Make the registry calls an entity has made, in order. */
    method Apply(effects: seq<Effect>)
      requires Valid()
      requires forall f | f in effects && f.Spawn? :: f.entity.Spawnable()
      modifies this, set f | f in effects && f.Spawn? :: f.entity,
               set f | f in effects && f.Spawn? :: f.entity.animation
      ensures Valid()
      ensures entities == Applied(old(entities), effects)
    {
      var k := 0;
      while k < |effects|
        invariant 0 <= k <= |effects|
        invariant Valid()
        invariant entities == Applied(old(entities), effects[..k])
        invariant forall f | f in effects && f.Spawn? :: f.entity.Spawnable()
      {
        AppliedConcat(old(entities), effects[..k], [effects[k]]);
        assert effects[..k + 1] == effects[..k] + [effects[k]];
        ApplyOne(effects[k]);
        k := k + 1;
      }
      assert effects[..k] == effects;
    }

    /** One registry call: Add for a spawn, Remove for a despawn. */
    method ApplyOne(f: Effect)
      requires Valid() && (f.Spawn? ==> f.entity.Spawnable())
      modifies this, if f.Spawn? then {f.entity, f.entity.animation} else {}
      ensures Valid()
      ensures entities == ApplyEffect(old(entities), f)
    {
      match f {
        case Spawn(x) => Add(x);
        case Despawn(x) => Remove(x);
      }
    }

    /**
     * One step of the update pass: the entity's own Update, then the registry
     * calls it made. Whatever the update added is new and credits no player;
     * no other object in pool changes.
     */
    method UpdateEntity(entity: Entity, input: InputManager, gameTime: GameTime, draws: Draws, ghost pool: set<Entity>)
      returns (ghost applied: seq<Effect>)
      requires Valid() && entity.WellFormed() && entity.animation.Valid()
      modifies this, entity, entity.animation
      ensures Valid() && entity.animation.Valid()
      ensures entity.State() == entity.Updated(old(entity.State()), input, gameTime, draws)
      ensures forall e | e in pool && e != entity :: e.State() == old(e.State())
      ensures entities == Applied(old(entities), applied)
      ensures entity.Emitted(old(entity.State()), old(entity.animation.timer.shouldDraw), input, gameTime, applied)
      ensures forall x | x in applied && x.Despawn? :: x.entity == entity
      ensures forall e | e in entities :: e in old(entities) || (fresh(e) && fresh(e.animation) && e.player == null)
    {
      var effects := entity.Update(input, gameTime, draws);
      Apply(effects);
      applied := effects;
      forall e | e in entities
        ensures e in old(entities) || (fresh(e) && fresh(e.animation) && e.player == null)
      {
        AppliedMembers(old(entities), effects, e);
      }
    }

    /**
     * The update pass so far: the first |log| entities of the snapshot copy
     * were updated in order, each as Replayed says, every entity of the
     * snapshot has the state the logged steps left it in, and the list is the
     * snapshot with the steps' registry calls applied.
     */
    ghost predicate Progress(copy: seq<Entity>, pool: set<Entity>, start: map<Entity, EntityState>, log: seq<Step>,
                             input: InputManager, gameTime: GameTime, draws: nat -> Draws)
      reads this, pool
    {
      && |log| <= |copy| && pool <= start.Keys
      && (forall k | 0 <= k < |log| :: log[k].entity == copy[k])
      && AllReplayed(log, start, input, gameTime, draws)
      && (forall e | e in pool :: e.State() == StateAfterSteps(log, e, start[e]))
      && entities == Applied(copy, StepEffects(log))
    }

    /** The next step of the update pass, logged. */
    method UpdateNext(copy: seq<Entity>, i: nat, ghost pool: set<Entity>, ghost start: map<Entity, EntityState>, ghost prior: seq<Step>,
                      input: InputManager, gameTime: GameTime, draws: nat -> Draws)
      returns (ghost log: seq<Step>)
      requires Valid() && Progress(copy, pool, start, prior, input, gameTime, draws) && i == |prior| < |copy|
      requires copy[i] in pool && copy[i].WellFormed() && copy[i].animation.Valid()
      modifies this, copy[i], copy[i].animation
      ensures Valid() && Progress(copy, pool, start, log, input, gameTime, draws) && |log| == |prior| + 1
      ensures copy[i].animation.Valid()
      ensures forall e | e in entities :: e in old(entities) || (fresh(e) && fresh(e.animation) && e.player == null)
    {
      var entity := copy[i];
      ghost var before := entity.State();
      ghost var drawing := entity.animation.timer.shouldDraw;
      var effects := UpdateEntity(entity, input, gameTime, draws(i), pool);
      AppliedConcat(copy, StepEffects(prior), effects);
      Stepped(prior, start, input, gameTime, draws, entity, drawing, before, entity.State(), effects);
      log := prior + [Step(entity, drawing, entity.State(), effects)];
    }

    /**
     * The update pass: a snapshot of the list is taken on entry and every entity
     * in it is updated once per position, in order, with the draws for that
     * position, starting from the state the earlier steps left it in. Entities
     * added during the pass are not updated in it; entities removed during the
     * pass are still updated. Each step changes only its own entity.
     */
    method UpdateAll(input: InputManager, gameTime: GameTime, draws: nat -> Draws)
      returns (ghost start: map<Entity, EntityState>, ghost log: seq<Step>)
      requires Valid()
      modifies this, Listed(), Animations()
      ensures Valid()
      ensures start.Keys == old(Listed()) && forall e | e in start :: start[e] == old(e.State())
      ensures |log| == |old(entities)|
      ensures forall k | 0 <= k < |log| :: log[k].entity == old(entities)[k]
      ensures AllReplayed(log, start, input, gameTime, draws)
      ensures forall e | e in start :: e.State() == StateAfterSteps(log, e, start[e])
      ensures entities == Applied(old(entities), StepEffects(log))
      ensures forall e | e in entities :: e in old(entities) || (fresh(e) && fresh(e.animation) && e.player == null)
    {
      var copy := entities;
      ghost var pool := Listed();
      start := map e | e in pool :: e.State();
      log := [];
      var i := 0;
      while i < |copy|
        invariant 0 <= i <= |copy| && |log| == i
        invariant Valid()
        invariant Progress(copy, pool, start, log, input, gameTime, draws)
        invariant forall e | e in copy :: e.WellFormed() && e.animation.Valid()
        invariant forall e | e in entities :: e in copy || (fresh(e) && fresh(e.animation) && e.player == null)
      {
        log := UpdateNext(copy, i, pool, start, log, input, gameTime, draws);
        i := i + 1;
      }
    }

    /**
     * One test of the collision pass: the first entity touches the second
     * exactly when the kind table admits the pair and the two collide; the
     * registry calls the touch makes are applied at once. Of the objects in
     * pool, only those it reports as changed have a new state.
     */
    method CheckPair(entity: Entity, other: Entity, ghost pool: set<Entity>)
      returns (ghost touched: bool, ghost applied: seq<Effect>, ghost changed: map<Entity, EntityState>)
      requires Valid() && entity.WellFormed() && other.WellFormed()
      modifies this, other, other.Fellows()
      ensures Valid()
      ensures touched <==> (Admits(entity.kind, other.kind) &&
        Touching(old(entity.State()), old(other.State()), (entity.Width(), entity.Height()), (other.Width(), other.Height())))
      ensures Reacts(entity, other, old(other.State()),
                     if other.player != null then old(other.player.State()) else old(other.State()),
                     touched, applied, changed)
      ensures forall e | e in pool :: e.State() == if e in changed then changed[e] else old(e.State())
      ensures touched && entity.kind == Asteroid ==> entity.AsteroidTouched(other, applied)
      ensures touched && entity.kind == Bullet ==> entity.BulletTouched(other, applied)
      ensures touched && entity.kind == EnemyBullet ==> entity.EnemyBulletTouched(other, applied)
      ensures entities == Applied(old(entities), applied)
    {
      touched, applied, changed := false, [], map[];
      CollisionTouching(entity, other);
      if Admits(entity.kind, other.kind) {
        var collision := entity.CheckCollision(other);
        if collision {
          applied, changed := TouchPair(entity, other, pool);
          touched := true;
        }
      }
    }

    /** The touch of one test and its registry calls; of the objects in pool, only those reported as changed have a new state. */
    method TouchPair(entity: Entity, other: Entity, ghost pool: set<Entity>)
      returns (ghost applied: seq<Effect>, ghost changed: map<Entity, EntityState>)
      requires Valid() && entity.WellFormed() && other.WellFormed()
      modifies this, other, other.Fellows()
      ensures Valid()
      ensures Reacts(entity, other, old(other.State()),
                     if other.player != null then old(other.player.State()) else old(other.State()),
                     true, applied, changed)
      ensures forall e | e in pool :: e.State() == if e in changed then changed[e] else old(e.State())
      ensures entity.kind == Asteroid ==> entity.AsteroidTouched(other, applied)
      ensures entity.kind == Bullet ==> entity.BulletTouched(other, applied)
      ensures entity.kind == EnemyBullet ==> entity.EnemyBulletTouched(other, applied)
      ensures entities == Applied(old(entities), applied)
    {
      var effects := entity.Touch(other);
      Apply(effects);
      applied := effects;
      changed := if other.player == null then map[other := other.State()]
                 else map[other := other.State(), other.player := other.player.State()];
    }

    /**
     * The collision pass so far: every object in pool has the state the logged
     * tests left it in, every logged test was decided as Decided says, and the
     * list is base with the tests' registry calls applied.
     */
    ghost predicate Ledger(pool: set<Entity>, start: map<Entity, EntityState>, frames: map<Entity, (int, int)>,
                           base: seq<Entity>, log: seq<Test>)
      reads this, pool
    {
      && pool <= start.Keys && pool <= frames.Keys
      && (forall e | e in pool :: e.State() == StateAfter(log, e, start[e]))
      && AllDecided(log, start, frames)
      && entities == Applied(base, TouchEffects(log))
    }

    /**
     * The inner loop of the collision pass: one entity against every entity of
     * the snapshot, in order, extending the log of the tests made so far.
     */
    method CheckRow(entity: Entity, copy: seq<Entity>, ghost pool: set<Entity>, ghost start: map<Entity, EntityState>,
                    ghost frames: map<Entity, (int, int)>, ghost base: seq<Entity>, ghost prior: seq<Test>)
      returns (ghost log: seq<Test>)
      requires Valid() && entity.WellFormed() && entity in pool
      requires forall e | e in copy :: e.WellFormed() && e in pool && e.Fellows() <= pool
      requires forall e | e in pool :: e in frames && frames[e] == (e.Width(), e.Height())
      requires Ledger(pool, start, frames, base, prior)
      modifies this, pool
      ensures Valid()
      ensures Pairs(log) == Pairs(prior) + Row(entity, copy)
      ensures Ledger(pool, start, frames, base, log)
    {
      log := prior;
      var j := 0;
      while j < |copy|
        invariant 0 <= j <= |copy|
        invariant Valid()
        invariant Pairs(log) == Pairs(prior) + Row(entity, copy[..j])
        invariant Ledger(pool, start, frames, base, log)
      {
        var other := copy[j];
        ghost var before := log;
        log := Test1(entity, other, pool, start, frames, base, log);
        RowExtend(prior, before, log, entity, copy, j);
        j := j + 1;
      }
      assert copy[..j] == copy;
    }

    /** One admitted pair tested and logged; a pair the kind table does not admit is passed over. */
    method Test1(entity: Entity, other: Entity, ghost pool: set<Entity>, ghost start: map<Entity, EntityState>,
                 ghost frames: map<Entity, (int, int)>, ghost base: seq<Entity>, ghost prior: seq<Test>)
      returns (ghost log: seq<Test>)
      requires Valid() && entity.WellFormed() && entity in pool
      requires other.WellFormed() && other in pool && other.Fellows() <= pool
      requires forall e | e in pool :: e in frames && frames[e] == (e.Width(), e.Height())
      requires Ledger(pool, start, frames, base, prior)
      modifies this, other, other.Fellows()
      ensures Valid()
      ensures Pairs(log) == Pairs(prior) + if Admits(entity.kind, other.kind) then [(entity, other)] else []
      ensures Ledger(pool, start, frames, base, log)
    {
      ghost var a, b := entity.State(), other.State();
      ghost var c := if other.player != null then other.player.State() else b;
      var touched, effects, changed := CheckPair(entity, other, pool);
      if !Admits(entity.kind, other.kind) {
        log := prior;
        return;
      }
      AppliedConcat(base, TouchEffects(prior), effects);
      Logged(prior, start, frames, entity, other, touched, effects, changed, a, b, c);
      log := prior + [Test(entity, other, touched, effects, changed)];
    }

    /**
     * The collision pass over a snapshot of the animated list: for every ordered
     * pair the kind table admits, in nested-loop order, the pair is tested on the
     * positions the earlier touches left and, if the two collide, the first
     * touches the second. Removals made by a touch do not take later pairs out of
     * the snapshot.
     */
    method CheckCollisions()
      returns (ghost start: map<Entity, EntityState>, ghost frames: map<Entity, (int, int)>, ghost log: seq<Test>)
      requires Valid()
      modifies this, Listed(), Animations(), Credited()
      ensures Valid()
      ensures start.Keys == old(Listed() + Credited()) && forall e | e in start :: start[e] == old(e.State())
      ensures frames.Keys == start.Keys && forall e | e in frames :: frames[e] == (old(e.Width()), old(e.Height()))
      ensures Pairs(log) == AdmittedPairs(old(animatedEntities), old(animatedEntities))
      ensures AllDecided(log, start, frames)
      ensures forall e | e in start :: e.State() == StateAfter(log, e, start[e])
      ensures entities == Applied(old(entities), TouchEffects(log))
    {
      var copy := animatedEntities;
      forall e | e in copy
        ensures e in entities
      {
        AnimatedOfMembers(entities, e);
      }
      ghost var pool := Listed() + Credited();
      start := map e | e in pool :: e.State();
      frames := map e | e in pool :: (e.Width(), e.Height());
      log := CheckRows(copy, pool, start, frames);
    }

    /** The outer loop of the collision pass: every entity of the snapshot against the whole snapshot, in order. */
    method CheckRows(copy: seq<Entity>, ghost pool: set<Entity>, ghost start: map<Entity, EntityState>,
                     ghost frames: map<Entity, (int, int)>)
      returns (ghost log: seq<Test>)
      requires Valid()
      requires forall e | e in copy :: e.WellFormed() && e in pool && e.Fellows() <= pool
      requires pool == start.Keys && pool == frames.Keys
      requires forall e | e in pool :: e.State() == start[e]
      requires forall e | e in pool :: frames[e] == (e.Width(), e.Height())
      modifies this, pool
      ensures Valid()
      ensures Pairs(log) == AdmittedPairs(copy, copy)
      ensures AllDecided(log, start, frames)
      ensures forall e | e in pool :: e.State() == StateAfter(log, e, start[e])
      ensures entities == Applied(old(entities), TouchEffects(log))
    {
      log := [];
      assert Ledger(pool, start, frames, old(entities), log);
      var i := 0;
      while i < |copy|
        invariant 0 <= i <= |copy|
        invariant Valid()
        invariant Pairs(log) == AdmittedPairs(copy[..i], copy)
        invariant Ledger(pool, start, frames, old(entities), log)
      {
        var entity := copy[i];
        assert copy[..i + 1][..i] == copy[..i];
        log := CheckRow(entity, copy, pool, start, frames, old(entities), log);
        i := i + 1;
      }
      assert copy[..i] == copy;
    }

    /**
     * One frame of the registry: the update pass, then the collision pass over
     * the animated list as the update pass left it, starting from the states
     * the update pass left.
     */
    method Update(input: InputManager, gameTime: GameTime, draws: nat -> Draws)
      returns (ghost start: map<Entity, EntityState>, ghost steps: seq<Step>,
               ghost snapshot: seq<Entity>, ghost middle: map<Entity, EntityState>,
               ghost frames: map<Entity, (int, int)>, ghost tests: seq<Test>)
      requires Valid()
      modifies this, Listed(), Animations(), Credited()
      ensures Valid()
      ensures start.Keys == old(Listed()) && forall e | e in start :: start[e] == old(e.State())
      ensures |steps| == |old(entities)|
      ensures forall k | 0 <= k < |steps| :: steps[k].entity == old(entities)[k]
      ensures AllReplayed(steps, start, input, gameTime, draws)
      ensures snapshot == AnimatedOf(Applied(old(entities), StepEffects(steps)))
      ensures forall e | e in start && e in middle :: middle[e] == StateAfterSteps(steps, e, start[e])
      ensures Pairs(tests) == AdmittedPairs(snapshot, snapshot)
      ensures frames.Keys == middle.Keys
      ensures AllDecided(tests, middle, frames)
      ensures forall e | e in middle :: e.State() == StateAfter(tests, e, middle[e])
      ensures entities == Applied(Applied(old(entities), StepEffects(steps)), TouchEffects(tests))
    {
      start, steps := UpdateAll(input, gameTime, draws);
      snapshot := animatedEntities;
      middle, frames, tests := CheckCollisions();
    }
  }
}
