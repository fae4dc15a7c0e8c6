/**
 * The per-frame pipeline for one entity: integration, `iterations` rounds of bone
 * relaxation followed by gravity wells, and a final joint check, as a state machine
 * over `Same(entity)` and `Broken(bosh, sled)`.
 *
 * The bone solver, the joint test, the split of an entity into rider and sled, and
 * the gravity-well response of one point (already bound to the track) are opaque:
 * they are the four fields of `Rules`.
 */
module EntityPhysics {
  import opened Wrappers
  import opened Geometry
  import opened Rider

  datatype UpdateBonesResult = Same(entity: Entity) | Broken(bosh: Entity, sled: Entity)

  /** A run of the pipeline either finishes or reaches the panic in `unwrap_same`. */
  datatype Outcome = Done(result: UpdateBonesResult) | Panic

  datatype Rules = Rules(
    nextBoneLocations: (Bone, Entity, bool) -> Option<(Vec2, Vec2)>,
    jointShouldBreak: (Joint, Entity) -> bool,
    split: Entity -> (Entity, Entity),
    gravityWells: EntityPoint -> EntityPoint)

  /** The split of a well-formed entity yields two well-formed halves. */
  ghost predicate SplitKeepsBones(rules: Rules) {
    forall e :: BonesPresent(e) ==> BonesPresent(rules.split(e).0) && BonesPresent(rules.split(e).1)
  }

  /** Every live entity of a state is well-formed. */
  predicate Live(r: UpdateBonesResult) {
    match r
    case Same(e) => BonesPresent(e)
    case Broken(a, b) => BonesPresent(a) && BonesPresent(b)
  }

  /** `unwrap_same`: `None` stands for the panic on `Broken`. */
  function UnwrapSame(r: UpdateBonesResult): (e: Option<Entity>)
    ensures e.Some? <==> r.Same?
    ensures r.Same? ==> e == Some(r.entity)
  {
    if r.Same? then Some(r.entity) else None
  }

  // ---------------------------------------------------------------------------
  // Point-wise updates: integration and gravity wells
  // ---------------------------------------------------------------------------

  /**
   * The integration step of one point: its velocity is its last displacement plus
   * gravity, it moves by exactly that velocity, and the velocity becomes its momentum.
   */
  function Integrate(p: EntityPoint, gravity: Vec2): (q: EntityPoint)
    ensures q.previousLocation == p.location
    ensures q.momentum == p.location.Sub(p.previousLocation).Add(gravity)
    ensures q.location.Sub(q.previousLocation) == q.momentum
    ensures q.friction == p.friction
  {
    var velocity := p.location.Sub(p.previousLocation).Add(gravity);
    EntityPoint(p.location.Add(velocity), p.location, velocity, p.friction)
  }

  /** The entity after `next_points`. */
  function Integrated(e: Entity, gravity: Vec2): (r: Entity)
    ensures r.points.Keys == e.points.Keys && r.bones == e.bones && r.joints == e.joints
    ensures forall k :: k in e.points ==> r.points[k] == Integrate(e.points[k], gravity)
  {
    e.(points := map k | k in e.points :: Integrate(e.points[k], gravity))
  }

  /** The entity after `apply_gravity_wells`. */
  function WellsApplied(rules: Rules, e: Entity): (r: Entity)
    ensures r.points.Keys == e.points.Keys && r.bones == e.bones && r.joints == e.joints
    ensures forall k :: k in e.points ==> r.points[k] == rules.gravityWells(e.points[k])
  {
    e.(points := map k | k in e.points :: rules.gravityWells(e.points[k]))
  }

  /** `mutate_points`: rewrites every point in place, one key at a time, in any order. */
  method MutatePoints(e: Entity, f: EntityPoint -> EntityPoint) returns (r: Entity)
    ensures r.points.Keys == e.points.Keys && r.bones == e.bones && r.joints == e.joints
    ensures forall k :: k in e.points ==> r.points[k] == f(e.points[k])
  {
    r := e;
    var todo := e.points.Keys;
    while todo != {}
      invariant todo <= e.points.Keys
      invariant r.points.Keys == e.points.Keys && r.bones == e.bones && r.joints == e.joints
      invariant forall k :: k in e.points && k !in todo ==> r.points[k] == f(e.points[k])
      invariant forall k :: k in todo ==> r.points[k] == e.points[k]
      decreases todo
    {
      var k :| k in todo;
      r := r.(points := r.points[k := f(r.points[k])]);
      todo := todo - {k};
    }
  }

  /** `next_points`: integrates every point once under `gravity`. */
  method NextPoints(e: Entity, gravity: Vec2) returns (r: Entity)
    ensures r == Integrated(e, gravity)
  {
    r := MutatePoints(e, p => Integrate(p, gravity));
  }

  /** `apply_gravity_wells`: passes every point through the track's gravity wells. */
  method ApplyGravityWells(rules: Rules, e: Entity) returns (r: Entity)
    ensures r == WellsApplied(rules, e)
  {
    r := MutatePoints(e, rules.gravityWells);
  }

  // ---------------------------------------------------------------------------
  // One pass over the bones
  // ---------------------------------------------------------------------------

  /** The only difference between two versions of a point is its location. */
  predicate OnlyLocationDiffers(before: EntityPoint, after: EntityPoint) {
    after == before.(location := after.location)
  }

  /** Some bone of `bones` has `q` as an end. */
  predicate Touches(bones: seq<Bone>, q: PointIndex) {
    exists b :: b in bones && (b.p1 == q || b.p2 == q)
  }

  /**
   * One bone of the pass, on the state (entity, broken flag): a solved bone writes the
   * locations of its two ends (`p2` last); a bone that yields no locations sets the flag.
   */
  function BoneStep(rules: Rules, s: (Entity, bool), b: Bone): (t: (Entity, bool))
    requires b.p1 in s.0.points && b.p2 in s.0.points
    ensures t.0.points.Keys == s.0.points.Keys && t.0.bones == s.0.bones && t.0.joints == s.0.joints
    ensures t.1 <==> s.1 || rules.nextBoneLocations(b, s.0, s.1).None?
    ensures forall q :: q in s.0.points ==> OnlyLocationDiffers(s.0.points[q], t.0.points[q])
    ensures forall q :: q in s.0.points && q != b.p1 && q != b.p2 ==> t.0.points[q] == s.0.points[q]
    ensures rules.nextBoneLocations(b, s.0, s.1).None? ==> t.0 == s.0
    ensures rules.nextBoneLocations(b, s.0, s.1).Some? ==>
      t.0.points[b.p2].location == rules.nextBoneLocations(b, s.0, s.1).value.1
      && (b.p1 != b.p2 ==> t.0.points[b.p1].location == rules.nextBoneLocations(b, s.0, s.1).value.0)
  {
    match rules.nextBoneLocations(b, s.0, s.1)
    case Some(locations) => (SetLocation(SetLocation(s.0, b.p1, locations.0), b.p2, locations.1), s.1)
    case None => (s.0, true)
  }

  /**
   * The pass over `bones` in order. The flag never goes back to false; each point keeps
   * everything but its location, and a point no bone touches keeps even that.
   */
  function PassBones(rules: Rules, s: (Entity, bool), bones: seq<Bone>): (t: (Entity, bool))
    requires Located(s.0, bones)
    ensures t.0.points.Keys == s.0.points.Keys && t.0.bones == s.0.bones && t.0.joints == s.0.joints
    ensures s.1 ==> t.1
    decreases |bones|
  {
    if bones == [] then s
    else
      assert bones[0] in bones && forall b :: b in bones[1..] ==> b in bones;
      PassBones(rules, BoneStep(rules, s, bones[0]), bones[1..])
  }

  /**
   * A pass writes only locations: each point keeps every other field, and a point that
   * no bone of the pass touches keeps its location too.
   */
  lemma {:induction false} PassBonesWritesOnlyLocations(rules: Rules, s: (Entity, bool), bones: seq<Bone>)
    requires Located(s.0, bones)
    ensures var t := PassBones(rules, s, bones);
      (forall q :: q in s.0.points ==> OnlyLocationDiffers(s.0.points[q], t.0.points[q]))
      && (forall q :: q in s.0.points && !Touches(bones, q) ==> t.0.points[q] == s.0.points[q])
    decreases |bones|
  {
    if bones != [] {
      assert bones[0] in bones && forall b :: b in bones[1..] ==> b in bones;
      var s1 := BoneStep(rules, s, bones[0]);
      PassBonesWritesOnlyLocations(rules, s1, bones[1..]);
      forall q | q in s.0.points && !Touches(bones, q)
        ensures !Touches(bones[1..], q) && q != bones[0].p1 && q != bones[0].p2
      {
        assert bones[0] in bones;
      }
    }
  }

  /** Bone `k` of the pass yields no locations, judged on the state the pass has reached there. */
  predicate BreaksAt(rules: Rules, s: (Entity, bool), bones: seq<Bone>, k: int)
    requires Located(s.0, bones) && 0 <= k < |bones|
  {
    assert forall b :: b in bones[..k] ==> b in bones;
    var t := PassBones(rules, s, bones[..k]);
    rules.nextBoneLocations(bones[k], t.0, t.1).None?
  }

  /** A pass over `xs + ys` is a pass over `xs` followed by a pass over `ys`. */
  lemma {:induction false} PassBonesAppend(rules: Rules, s: (Entity, bool), xs: seq<Bone>, ys: seq<Bone>)
    requires Located(s.0, xs + ys)
    ensures Located(s.0, xs) && Located(PassBones(rules, s, xs).0, ys)
    ensures PassBones(rules, s, xs + ys) == PassBones(rules, PassBones(rules, s, xs), ys)
    decreases |xs|
  {
    assert forall b :: b in xs ==> b in xs + ys;
    assert forall b :: b in ys ==> b in xs + ys;
    if xs == [] {
      assert xs + ys == ys;
    } else {
      assert (xs + ys)[1..] == xs[1..] + ys && xs[0] in xs + ys;
      assert forall b :: b in xs[1..] + ys ==> b in xs + ys;
      PassBonesAppend(rules, BoneStep(rules, s, xs[0]), xs[1..], ys);
    }
  }

  /** Whether a later bone breaks is the same question asked of the pass after the first bone. */
  lemma BreaksAtShift(rules: Rules, s: (Entity, bool), bones: seq<Bone>, k: int)
    requires Located(s.0, bones) && 0 < k < |bones|
    ensures bones[0].p1 in s.0.points && bones[0].p2 in s.0.points
    ensures Located(BoneStep(rules, s, bones[0]).0, bones[1..])
    ensures BreaksAt(rules, s, bones, k) <==> BreaksAt(rules, BoneStep(rules, s, bones[0]), bones[1..], k - 1)
  {
    assert bones[0] in bones;
    assert forall b :: b in bones[1..] ==> b in bones;
    assert forall b :: b in bones[..k] ==> b in bones;
    assert bones[..k][0] == bones[0] && bones[..k][1..] == bones[1..][..k - 1];
  }

  /** A pass that starts unbroken and ends broken has a bone that yielded no locations. */
  lemma {:induction false} BrokenPassHasBreak(rules: Rules, s: (Entity, bool), bones: seq<Bone>)
    requires Located(s.0, bones) && !s.1 && PassBones(rules, s, bones).1
    ensures exists k :: 0 <= k < |bones| && BreaksAt(rules, s, bones, k)
    decreases |bones|
  {
    assert bones != [];
    assert bones[0] in bones && forall b :: b in bones[1..] ==> b in bones;
    var s1 := BoneStep(rules, s, bones[0]);
    assert PassBones(rules, s, bones) == PassBones(rules, s1, bones[1..]);
    if s1.1 {
      assert bones[..0] == [];
      assert BreaksAt(rules, s, bones, 0);
    } else {
      BrokenPassHasBreak(rules, s1, bones[1..]);
      var k :| 0 <= k < |bones| - 1 && BreaksAt(rules, s1, bones[1..], k);
      BreaksAtShift(rules, s, bones, k + 1);
      assert 0 <= k + 1 < |bones| && BreaksAt(rules, s, bones, k + 1);
    }
  }

  /** A pass over a single bone is that bone's step. */
  lemma PassBonesSingle(rules: Rules, s: (Entity, bool), b: Bone)
    requires b.p1 in s.0.points && b.p2 in s.0.points
    ensures Located(s.0, [b]) && PassBones(rules, s, [b]) == BoneStep(rules, s, b)
  {
    assert [b][1..] == [];
  }

  /** Once a bone has yielded no locations, every later bone of the pass runs with the flag set. */
  lemma LaterBonesSeeBreak(rules: Rules, s: (Entity, bool), bones: seq<Bone>, k: int, j: int)
    requires Located(s.0, bones) && 0 <= k < j <= |bones|
    requires BreaksAt(rules, s, bones, k)
    ensures Located(s.0, bones[..j]) && PassBones(rules, s, bones[..j]).1
  {
    var upTo := bones[..k] + [bones[k]];
    assert bones[..j] == upTo + bones[k + 1..j];
    assert forall b :: b in bones[..j] ==> b in bones;
    PassBonesAppend(rules, s, upTo, bones[k + 1..j]);
    PassBonesAppend(rules, s, bones[..k], [bones[k]]);
    assert bones[k] in [bones[k]];
    PassBonesSingle(rules, PassBones(rules, s, bones[..k]), bones[k]);
  }

  /** The pass ends broken exactly when it started broken or some bone on the way yielded no locations. */
  lemma PassBonesBreaksIff(rules: Rules, s: (Entity, bool), bones: seq<Bone>)
    requires Located(s.0, bones)
    ensures PassBones(rules, s, bones).1 <==> s.1 || exists k :: 0 <= k < |bones| && BreaksAt(rules, s, bones, k)
  {
    if exists k :: 0 <= k < |bones| && BreaksAt(rules, s, bones, k) {
      var k :| 0 <= k < |bones| && BreaksAt(rules, s, bones, k);
      LaterBonesSeeBreak(rules, s, bones, k, |bones|);
      assert bones[..|bones|] == bones;
    } else if !s.1 && PassBones(rules, s, bones).1 {
      BrokenPassHasBreak(rules, s, bones);
    }
  }

  /**
   * `apply_bones` as a value: one pass over a snapshot of the entity's bones starting
   * unbroken, then a split of the entity as it stands after the whole pass if any bone broke.
   */
  function BonesOutcome(rules: Rules, e: Entity): (r: UpdateBonesResult)
    requires BonesPresent(e)
    ensures r.Same? ==> r.entity.points.Keys == e.points.Keys && r.entity.bones == e.bones && r.entity.joints == e.joints
    ensures r.Same? ==> BonesPresent(r.entity)
    ensures r.Same? ==> r.entity == PassBones(rules, (e, false), e.bones).0
    ensures r.Broken? ==> (r.bosh, r.sled) == rules.split(PassBones(rules, (e, false), e.bones).0)
  {
    var t := PassBones(rules, (e, false), e.bones);
    if t.1 then Broken(rules.split(t.0).0, rules.split(t.0).1) else Same(t.0)
  }

  /** The bone pass splits the entity exactly when some bone on the way yielded no locations. */
  lemma BonesOutcomeBreaksIff(rules: Rules, e: Entity)
    requires BonesPresent(e)
    ensures BonesOutcome(rules, e).Broken? <==> exists k :: 0 <= k < |e.bones| && BreaksAt(rules, (e, false), e.bones, k)
  {
    PassBonesBreaksIff(rules, (e, false), e.bones);
  }

  /** `apply_bones`: walks a snapshot of the bones in declared order with a `broken` flag. */
  method ApplyBones(rules: Rules, e: Entity) returns (r: UpdateBonesResult)
    requires BonesPresent(e)
    ensures r == BonesOutcome(rules, e)
  {
    var bones := e.bones;
    var entity := e;
    var broken := false;
    for i := 0 to |bones|
      invariant entity.points.Keys == e.points.Keys
      invariant Located(entity, bones[i..])
      invariant PassBones(rules, (e, false), bones) == PassBones(rules, (entity, broken), bones[i..])
    {
      assert bones[i..][1..] == bones[i + 1..] && bones[i] in bones[i..];
      ghost var before := entity;
      match rules.nextBoneLocations(bones[i], entity, broken) {
        case Some(locations) =>
          entity := SetLocation(entity, bones[i].p1, locations.0);
          entity := SetLocation(entity, bones[i].p2, locations.1);
        case None =>
          broken := true;
      }
      forall b | b in bones[i + 1..] ensures b.p1 in entity.points && b.p2 in entity.points {
        assert b in bones[i..];
        assert b.p1 in before.points && b.p2 in before.points;
      }
    }
    if broken {
      var halves := rules.split(entity);
      r := Broken(halves.0, halves.1);
    } else {
      r := Same(entity);
    }
  }

  // ---------------------------------------------------------------------------
  // Joints
  // ---------------------------------------------------------------------------

  /** `joints.iter().any(|j| joint_should_break(j, e))`. */
  function AnyJointBreaks(rules: Rules, joints: seq<Joint>, e: Entity): (b: bool)
    ensures b <==> exists j :: j in joints && rules.jointShouldBreak(j, e)
    decreases |joints|
  {
    if joints == [] then false
    else rules.jointShouldBreak(joints[0], e) || AnyJointBreaks(rules, joints[1..], e)
  }

  /** `apply_all_joints`: splits the entity exactly when one of its joints should break. */
  function ApplyAllJoints(rules: Rules, e: Entity): (r: UpdateBonesResult)
    ensures r.Broken? <==> exists j :: j in e.joints && rules.jointShouldBreak(j, e)
    ensures r.Same? ==> r.entity == e
    ensures r.Broken? ==> (r.bosh, r.sled) == rules.split(e)
  {
    if AnyJointBreaks(rules, e.joints, e) then Broken(rules.split(e).0, rules.split(e).1) else Same(e)
  }

  // ---------------------------------------------------------------------------
  // The whole frame
  // ---------------------------------------------------------------------------

  /**
   * One relaxation iteration: the bone pass (on each half separately once broken,
   * where a half breaking again is the panic), then gravity wells on every live entity.
   */
  function Iterate(rules: Rules, r: UpdateBonesResult): (o: Outcome)
    requires Live(r) && SplitKeepsBones(rules)
    ensures o.Done? ==> Live(o.result)
    ensures r.Broken? ==> o.Panic? || o.result.Broken?
    ensures r.Broken? ==> (o.Panic? <==> BonesOutcome(rules, r.bosh).Broken? || BonesOutcome(rules, r.sled).Broken?)
  {
    match r
    case Same(e) =>
      (match BonesOutcome(rules, e)
       case Same(e1) => Done(Same(WellsApplied(rules, e1)))
       case Broken(a, b) => Done(Broken(WellsApplied(rules, a), WellsApplied(rules, b))))
    case Broken(a, b) =>
      var ra := BonesOutcome(rules, a);
      var rb := BonesOutcome(rules, b);
      if ra.Broken? || rb.Broken? then Panic
      else Done(Broken(WellsApplied(rules, ra.entity), WellsApplied(rules, rb.entity)))
  }

  /** `n` relaxation iterations; a panic ends the run. */
  function Relax(rules: Rules, r: UpdateBonesResult, n: nat): (o: Outcome)
    requires Live(r) && SplitKeepsBones(rules)
    ensures o.Done? ==> Live(o.result)
    decreases n
  {
    if n == 0 then Done(r)
    else
      match Iterate(rules, r)
      case Panic => Panic
      case Done(r1) => Relax(rules, r1, n - 1)
  }

  /** `apply_all_physics` as a value: integrate once, relax, then judge joints only if still whole. */
  function PhysicsOutcome(rules: Rules, e: Entity, gravity: Vec2, iterations: nat): Outcome
    requires BonesPresent(e) && SplitKeepsBones(rules)
  {
    match Relax(rules, Same(Integrated(e, gravity)), iterations)
    case Panic => Panic
    case Done(Same(whole)) => Done(ApplyAllJoints(rules, whole))
    case Done(Broken(bosh, sled)) => Done(Broken(bosh, sled))
  }

  /** One more iteration of a run of `n` that does not panic: `n - 1` iterations remain. */
  lemma RelaxStep(rules: Rules, r: UpdateBonesResult, n: nat, next: UpdateBonesResult)
    requires Live(r) && SplitKeepsBones(rules) && n > 0
    requires Iterate(rules, r) == Done(next)
    ensures Live(next) && Relax(rules, r, n) == Relax(rules, next, n - 1)
  {
  }

  /** An iteration that panics ends a run of `n` in the panic. */
  lemma RelaxPanics(rules: Rules, r: UpdateBonesResult, n: nat)
    requires Live(r) && SplitKeepsBones(rules) && n > 0
    requires Iterate(rules, r) == Panic
    ensures Relax(rules, r, n) == Panic
  {
  }

  /**
   * The body of the loop of `apply_all_physics`: the bone pass, on each half once broken
   * (`unwrap_same` panicking when a half breaks again), then gravity wells.
   */
  method IterateOnce(rules: Rules, r: UpdateBonesResult) returns (o: Outcome)
    requires Live(r) && SplitKeepsBones(rules)
    ensures o == Iterate(rules, r)
  {
    var result := r;
    match result {
      case Same(same) =>
        result := ApplyBones(rules, same);
      case Broken(bosh, sled) =>
        var boshResult := ApplyBones(rules, bosh);
        var boshSame := UnwrapSame(boshResult);
        if boshSame.None? {
          return Panic;
        }
        var sledResult := ApplyBones(rules, sled);
        var sledSame := UnwrapSame(sledResult);
        if sledSame.None? {
          return Panic;
        }
        result := Broken(boshSame.value, sledSame.value);
    }
    match result {
      case Same(same) =>
        var w := ApplyGravityWells(rules, same);
        result := Same(w);
      case Broken(bosh, sled) =>
        var wBosh := ApplyGravityWells(rules, bosh);
        var wSled := ApplyGravityWells(rules, sled);
        result := Broken(wBosh, wSled);
    }
    o := Done(result);
  }

  /** One round of the relaxation loop, read against the `left` rounds that remain. */
  method Advance(rules: Rules, result: UpdateBonesResult, ghost left: nat) returns (o: Outcome)
    requires Live(result) && SplitKeepsBones(rules) && left > 0
    ensures o.Panic? ==> Relax(rules, result, left) == Panic
    ensures o.Done? ==> Live(o.result) && Relax(rules, result, left) == Relax(rules, o.result, left - 1)
  {
    o := IterateOnce(rules, result);
    if o.Panic? {
      RelaxPanics(rules, result, left);
    } else {
      RelaxStep(rules, result, left, o.result);
    }
  }

  /** The relaxation loop of `apply_all_physics`: `iterations` rounds, stopping at the first panic. */
  method RelaxLoop(rules: Rules, r: UpdateBonesResult, iterations: nat) returns (o: Outcome)
    requires Live(r) && SplitKeepsBones(rules)
    ensures o == Relax(rules, r, iterations)
  {
    o := Done(r);
    var left := iterations;
    while left > 0 && o.Done?
      invariant o.Done? ==> Live(o.result) && Relax(rules, r, iterations) == Relax(rules, o.result, left)
      invariant o.Panic? ==> Relax(rules, r, iterations) == Panic
      decreases left, o.Done?
    {
      o := Advance(rules, o.result, left);
      if o.Done? {
        left := left - 1;
      }
    }
  }

  /** `apply_all_physics`. */
  method ApplyAllPhysics(rules: Rules, e: Entity, gravity: Vec2, iterations: nat) returns (o: Outcome)
    requires BonesPresent(e) && SplitKeepsBones(rules)
    ensures o == PhysicsOutcome(rules, e, gravity, iterations)
  {
    var entity := NextPoints(e, gravity);
    assert BonesPresent(entity) by {
      forall b | b in entity.bones ensures b.p1 in entity.points && b.p2 in entity.points {
        assert b in e.bones;
      }
    }
    var relaxed := RelaxLoop(rules, Same(entity), iterations);
    match relaxed {
      case Panic =>
        o := Panic;
      case Done(Same(whole)) =>
        o := Done(ApplyAllJoints(rules, whole));
      case Done(Broken(_, _)) =>
        o := relaxed;
    }
  }

  /** The gravity and iteration count of `apply_all_physics_ez`. */
  const EzGravity := Vec2(0.0, 0.175)
  const EzIterations := 6

  /** `apply_all_physics_ez`: the pipeline with the default gravity and six iterations. */
  method ApplyAllPhysicsEz(rules: Rules, e: Entity) returns (o: Outcome)
    requires BonesPresent(e) && SplitKeepsBones(rules)
    ensures o == PhysicsOutcome(rules, e, Vec2(0.0, 0.175), 6)
  {
    o := ApplyAllPhysics(rules, e, EzGravity, EzIterations);
  }

  // ---------------------------------------------------------------------------
  // Properties of the state machine
  // ---------------------------------------------------------------------------

  /** There is no way back from `Broken`: relaxing a broken state panics or stays broken. */
  lemma {:induction false} NoWayBack(rules: Rules, a: Entity, b: Entity, n: nat)
    requires BonesPresent(a) && BonesPresent(b) && SplitKeepsBones(rules)
    ensures Relax(rules, Broken(a, b), n).Panic? || Relax(rules, Broken(a, b), n).result.Broken?
    decreases n
  {
    if n > 0 {
      var o := Iterate(rules, Broken(a, b));
      if o.Done? {
        NoWayBack(rules, o.result.bosh, o.result.sled, n - 1);
      }
    }
  }

  /** Every one of `n` iterations' bone passes leaves the entity whole. */
  ghost predicate StaysSame(rules: Rules, e: Entity, n: nat)
    requires BonesPresent(e)
    decreases n
  {
    n == 0
    || (BonesOutcome(rules, e).Same?
        && StaysSame(rules, WellsApplied(rules, BonesOutcome(rules, e).entity), n - 1))
  }

  /** An entity that stays whole for `n > 0` iterations is whole after the first, with `n - 1` to go. */
  lemma WholeStep(rules: Rules, e: Entity, n: nat)
    requires BonesPresent(e) && SplitKeepsBones(rules) && 0 < n && StaysSame(rules, e, n)
    ensures BonesOutcome(rules, e).Same?
    ensures var next := WellsApplied(rules, BonesOutcome(rules, e).entity);
      BonesPresent(next) && StaysSame(rules, next, n - 1)
      && Relax(rules, Same(e), n) == Relax(rules, Same(next), n - 1)
  {
    var next := WellsApplied(rules, BonesOutcome(rules, e).entity);
    assert Iterate(rules, Same(e)) == Done(Same(next));
    RelaxStep(rules, Same(e), n, Same(next));
  }

  /** The whole entity after `n` iterations in which it never broke. */
  function WholeAfter(rules: Rules, e: Entity, n: nat): (r: Entity)
    requires BonesPresent(e) && SplitKeepsBones(rules) && StaysSame(rules, e, n)
    ensures Relax(rules, Same(e), n) == Done(Same(r))
    decreases n
  {
    if n == 0 then e
    else
      WholeStep(rules, e, n);
      WholeAfter(rules, WellsApplied(rules, BonesOutcome(rules, e).entity), n - 1)
  }

  /** Relaxing a whole entity ends whole exactly when no iteration's bone pass broke it. */
  lemma {:induction false} StaysSameIff(rules: Rules, e: Entity, n: nat)
    requires BonesPresent(e) && SplitKeepsBones(rules)
    ensures (Relax(rules, Same(e), n).Done? && Relax(rules, Same(e), n).result.Same?) <==> StaysSame(rules, e, n)
    decreases n
  {
    if n > 0 {
      var r := BonesOutcome(rules, e);
      if r.Same? {
        StaysSameIff(rules, WellsApplied(rules, r.entity), n - 1);
      } else {
        NoWayBack(rules, WellsApplied(rules, r.bosh), WellsApplied(rules, r.sled), n - 1);
      }
    }
  }

  /** Both halves relaxed as one whole entity each; `Panic` unless both stay whole. */
  function Combine(x: Outcome, y: Outcome): Outcome {
    if x.Done? && x.result.Same? && y.Done? && y.result.Same? then Done(Broken(x.result.entity, y.result.entity))
    else Panic
  }

  /**
   * Once broken, the two halves are relaxed independently, each as an entity of its
   * own, and the run panics exactly when either half's bone pass breaks again.
   */
  lemma {:induction false} HalvesRelaxIndependently(rules: Rules, a: Entity, b: Entity, n: nat)
    requires BonesPresent(a) && BonesPresent(b) && SplitKeepsBones(rules)
    ensures Relax(rules, Broken(a, b), n) == Combine(Relax(rules, Same(a), n), Relax(rules, Same(b), n))
    ensures Relax(rules, Broken(a, b), n).Panic? <==> !(StaysSame(rules, a, n) && StaysSame(rules, b, n))
    decreases n
  {
    StaysSameIff(rules, a, n);
    StaysSameIff(rules, b, n);
    if n > 0 {
      var ra := BonesOutcome(rules, a);
      var rb := BonesOutcome(rules, b);
      if ra.Broken? {
        NoWayBack(rules, WellsApplied(rules, ra.bosh), WellsApplied(rules, ra.sled), n - 1);
      } else if rb.Broken? {
        NoWayBack(rules, WellsApplied(rules, rb.bosh), WellsApplied(rules, rb.sled), n - 1);
      } else {
        HalvesRelaxIndependently(rules, WellsApplied(rules, ra.entity), WellsApplied(rules, rb.entity), n - 1);
      }
    }
  }

  /** A whole entity whose first bone pass breaks it: gravity wells act on both halves, which go on as a broken pair. */
  lemma BreakNow(rules: Rules, e: Entity, n: nat)
    requires BonesPresent(e) && SplitKeepsBones(rules) && n > 0
    requires BonesOutcome(rules, e).Broken?
    ensures var r := BonesOutcome(rules, e);
      Live(Broken(WellsApplied(rules, r.bosh), WellsApplied(rules, r.sled)))
      && Relax(rules, Same(e), n) == Relax(rules, Broken(WellsApplied(rules, r.bosh), WellsApplied(rules, r.sled)), n - 1)
  {
    var r := BonesOutcome(rules, e);
    RelaxStep(rules, Same(e), n, Broken(WellsApplied(rules, r.bosh), WellsApplied(rules, r.sled)));
  }

  /** A whole entity that stays whole for `k > 0` iterations takes its first one whole. */
  lemma StaysSameStep(rules: Rules, e: Entity, k: nat, n: nat)
    requires BonesPresent(e) && SplitKeepsBones(rules) && 0 < k <= n && StaysSame(rules, e, k)
    ensures BonesOutcome(rules, e).Same?
    ensures var next := WellsApplied(rules, BonesOutcome(rules, e).entity);
      BonesPresent(next) && StaysSame(rules, next, k - 1)
      && WholeAfter(rules, e, k) == WholeAfter(rules, next, k - 1)
      && Relax(rules, Same(e), n) == Relax(rules, Same(next), n - 1)
  {
    var next := WellsApplied(rules, BonesOutcome(rules, e).entity);
    RelaxStep(rules, Same(e), n, Same(next));
  }

  /**
   * A whole entity that first breaks in iteration `k` (counting from 0): that pass splits
   * it, gravity wells act on both halves, and the run goes on as the broken pair for the
   * remaining `n - k - 1` iterations.
   */
  lemma {:induction false} BreakThenHalves(rules: Rules, e: Entity, k: nat, n: nat)
    requires BonesPresent(e) && SplitKeepsBones(rules) && k < n && StaysSame(rules, e, k)
    requires BonesOutcome(rules, WholeAfter(rules, e, k)).Broken?
    ensures var r := BonesOutcome(rules, WholeAfter(rules, e, k));
      Live(Broken(WellsApplied(rules, r.bosh), WellsApplied(rules, r.sled)))
      && Relax(rules, Same(e), n) == Relax(rules, Broken(WellsApplied(rules, r.bosh), WellsApplied(rules, r.sled)), n - k - 1)
    decreases k, 1
  {
    if k == 0 {
      BreakNow(rules, e, n);
    } else {
      BreakLater(rules, e, k, n);
    }
  }

  /** `BreakThenHalves` for `k > 0`: the first iteration keeps the entity whole, and the break comes `k - 1` iterations later. */
  lemma {:induction false} BreakLater(rules: Rules, e: Entity, k: nat, n: nat)
    requires BonesPresent(e) && SplitKeepsBones(rules) && 0 < k < n && StaysSame(rules, e, k)
    requires BonesOutcome(rules, WholeAfter(rules, e, k)).Broken?
    ensures var r := BonesOutcome(rules, WholeAfter(rules, e, k));
      Live(Broken(WellsApplied(rules, r.bosh), WellsApplied(rules, r.sled)))
      && Relax(rules, Same(e), n) == Relax(rules, Broken(WellsApplied(rules, r.bosh), WellsApplied(rules, r.sled)), n - k - 1)
    decreases k, 0
  {
    var next := WellsApplied(rules, BonesOutcome(rules, e).entity);
    StaysSameStep(rules, e, k, n);
    BreakThenHalves(rules, next, k - 1, n - 1);
  }

  /**
   * The frame leaves the entity whole exactly when no bone pass broke it and, after the
   * last iteration, none of its joints should break.
   */
  lemma WholeExactlyWhenNothingBreaks(rules: Rules, e: Entity, gravity: Vec2, n: nat)
    requires BonesPresent(e) && SplitKeepsBones(rules)
    ensures var o := PhysicsOutcome(rules, e, gravity, n);
      (o.Done? && o.result.Same?) <==>
        (StaysSame(rules, Integrated(e, gravity), n)
         && !AnyJointBreaks(rules, WholeAfter(rules, Integrated(e, gravity), n).joints,
                            WholeAfter(rules, Integrated(e, gravity), n)))
  {
    var start := Integrated(e, gravity);
    StaysSameIff(rules, start, n);
  }

}
