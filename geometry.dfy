/**
 * Real-valued stand-ins for the three-component vector type and the
 * symbolic form of a layer's transformation matrix.
 *
 * The matrix itself is not modelled: a transformation is the sequence of
 * primitive operations that were right-multiplied onto the identity, in
 * the order they were applied.
 */
module Geometry {

  /** A point or a displacement: x, y, z. */
  datatype Vec3 = Vec3(x: real, y: real, z: real)
  {
    function Plus(o: Vec3): Vec3 { Vec3(x + o.x, y + o.y, z + o.z) }

    /** Component-wise product (`Vector3D * Vector3D`, `*=`). */
    function Times(o: Vec3): Vec3 { Vec3(x * o.x, y * o.y, z * o.z) }

    /** Product with a scalar (`Vector3D * float`). */
    function Scaled(f: real): Vec3 { Vec3(x * f, y * f, z * f) }
  }

  const Zero := Vec3(0.0, 0.0, 0.0)

  /** Rotation angles around the three axes. */
  datatype Angle3 = Angle3(x: real, y: real, z: real)

  const NoRotation := Angle3(0.0, 0.0, 0.0)

  /** One primitive operation applied to a transformation matrix. */
  datatype Op = Translate(delta: Vec3) | Scale(factors: Vec3) | Rotate(angle: Angle3)

  /** A transformation: its primitive operations, first applied first. */
  type Transform = seq<Op>

  /**
   * The four operations a layer contributes: move the pivot to the origin,
   * scale uniformly in x and y, rotate, then move to the position and
   * back out of the pivot.
   */
  function LocalOps(position: Vec3, offset: Vec3, scale: real, angle: Angle3): (t: Transform)
    ensures |t| == 4
    ensures t[0].Translate? && t[3].Translate? && t[1].Scale? && t[2].Rotate?
    ensures t[1].factors.z == 1.0 && t[1].factors.x == t[1].factors.y == scale
    ensures t[0].delta.Plus(t[3].delta) == position
  {
    [Translate(offset.Scaled(-1.0)),
     Scale(Vec3(scale, scale, 1.0)),
     Rotate(angle),
     Translate(position.Plus(offset))]
  }

  /**
   * Two layers contribute the same operations exactly when their position,
   * pivot, scale and angle agree.
   */
  lemma LocalOpsInjective(p1: Vec3, o1: Vec3, s1: real, a1: Angle3,
                          p2: Vec3, o2: Vec3, s2: real, a2: Angle3)
    ensures LocalOps(p1, o1, s1, a1) == LocalOps(p2, o2, s2, a2)
            <==> p1 == p2 && o1 == o2 && s1 == s2 && a1 == a2
  {
    if LocalOps(p1, o1, s1, a1) == LocalOps(p2, o2, s2, a2) {
      var t1, t2 := LocalOps(p1, o1, s1, a1), LocalOps(p2, o2, s2, a2);
      assert t1[0] == t2[0] && t1[1] == t2[1] && t1[2] == t2[2] && t1[3] == t2[3];
      assert o1.Scaled(-1.0) == o2.Scaled(-1.0);
      assert o1 == o2;
    }
  }
}
