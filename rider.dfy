/**
 * The skeletal entity the physics pipeline moves: named points, bones joining two
 * points, and joints over bones. Only the fields the pipeline reads or writes are
 * modelled; the numeric content of bones and joints is opaque to it.
 */
module Rider {
  import opened Geometry

  /** Anatomical roles of points; a role is a key, not an offset. */
  datatype PointIndex =
    | SledPeg | SledTail | SledNose | SledRope
    | BoshButt | BoshShoulder | BoshLeftHand | BoshRightHand | BoshLeftFoot | BoshRightFoot

  datatype EntityPoint = EntityPoint(
    location: Vec2,
    previousLocation: Vec2,
    momentum: Vec2,
    friction: real)

  /** A rigid edge between two points; `restLength` is consumed only by the opaque bone solver. */
  datatype Bone = Bone(p1: PointIndex, p2: PointIndex, restLength: real)

  /** A breakable relation over bones, judged only by the opaque joint test. */
  datatype Joint = Joint(bones: seq<Bone>)

  datatype Entity = Entity(points: map<PointIndex, EntityPoint>, bones: seq<Bone>, joints: seq<Joint>)

  /** Every bone in `bones` joins two points that `e` has. */
  predicate Located(e: Entity, bones: seq<Bone>) {
    forall b {:trigger b in bones} :: b in bones ==> b.p1 in e.points && b.p2 in e.points
  }

  /** An entity whose own bones all join points it has. */
  predicate BonesPresent(e: Entity) {
    Located(e, e.bones)
  }

  /** `point_at_mut(p).location = loc`: moves one point and changes nothing else. */
  function SetLocation(e: Entity, p: PointIndex, loc: Vec2): (r: Entity)
    requires p in e.points
    ensures r.points.Keys == e.points.Keys && r.bones == e.bones && r.joints == e.joints
    ensures r.points[p].location == loc
    ensures r.points[p] == e.points[p].(location := loc)
    ensures forall q :: q in e.points && q != p ==> r.points[q] == e.points[q]
  {
    e.(points := e.points[p := e.points[p].(location := loc)])
  }

}
