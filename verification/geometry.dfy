/**
 * Mesh geometry. Vertex and texture coordinates are abstracted from floats to
 * integers, so that the subtraction of a base vertex from a live vertex is exact.
 */
module Geometry {

  /** A vertex position (a Vector3 with integer coordinates). */
  datatype Vec3 = Vec3(x: int, y: int, z: int)

  /** A texture coordinate (a Vector2 with integer coordinates). */
  datatype Vec2 = Vec2(u: int, v: int)

  const Zero := Vec3(0, 0, 0)

  function Add(a: Vec3, b: Vec3): Vec3 {
    Vec3(a.x + b.x, a.y + b.y, a.z + b.z)
  }

  function Sub(a: Vec3, b: Vec3): Vec3 {
    Vec3(a.x - b.x, a.y - b.y, a.z - b.z)
  }

  /**
   * One mesh: vertices, parallel texture coordinates, and the flat list of
   * triangle vertex indices (three per triangle).
   */
  datatype Mesh = Mesh(vertices: seq<Vec3>, uv: seq<Vec2>, triangles: seq<int>)

  /**
   * The displacement of `live` against `base`: at every index below |base| the
   * live vertex minus the base vertex; any live vertices past |base| are kept
   * as they are (the subtraction loop never reaches them).
   */
  function Displacement(live: seq<Vec3>, base: seq<Vec3>): (d: seq<Vec3>)
    requires |base| <= |live|
    ensures |d| == |live|
  {
    seq(|live|, i requires 0 <= i < |live| => if i < |base| then Sub(live[i], base[i]) else live[i])
  }

  /** A displacement applied at full weight: the base vertex plus the delta, index by index. */
  function Displace(base: seq<Vec3>, delta: seq<Vec3>): (r: seq<Vec3>)
    requires |delta| == |base|
    ensures |r| == |base|
  {
    seq(|base|, i requires 0 <= i < |base| => Add(base[i], delta[i]))
  }

  /** A frame's delta, applied to the base it was taken against, gives back the live vertices. */
  lemma DisplaceUndoesDisplacement(live: seq<Vec3>, base: seq<Vec3>)
    requires |live| == |base|
    ensures Displace(base, Displacement(live, base)) == live
  {
  }

  /** The displacement of a displaced base is the delta that was applied. */
  lemma DisplacementUndoesDisplace(base: seq<Vec3>, delta: seq<Vec3>)
    requires |delta| == |base|
    ensures Displacement(Displace(base, delta), base) == delta
  {
  }

  /** A live mesh that has not moved since the base was taken has a zero displacement everywhere. */
  lemma DisplacementOfBaseIsZero(base: seq<Vec3>)
    ensures Displacement(base, base) == seq(|base|, _ => Zero)
  {
  }
}
