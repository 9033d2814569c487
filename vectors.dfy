/**
 * The glm value types the renderers use (vec2, vec4), over the reals: float
 * rounding and NaN are not part of this model. A vec4's components are called
 * x, y, z, w here; glm's r, g, b, a are the same four components.
 */
module Vectors {
  import opened Ordering

  datatype Vec2 = Vec2(x: real, y: real)
  {
    function Plus(o: Vec2): Vec2 { Vec2(x + o.x, y + o.y) }
    function Minus(o: Vec2): Vec2 { Vec2(x - o.x, y - o.y) }
    function Scale(k: real): Vec2 { Vec2(k * x, k * y) }
    /** glm::vec2(-v.y, v.x): the vector turned a quarter to the left. */
    function Perp(): Vec2 { Vec2(-y, x) }
    function Dot(o: Vec2): real { x * o.x + y * o.y }
  }

  datatype Vec4 = Vec4(x: real, y: real, z: real, w: real)

  /** glm::vec4(1.0f): opaque white, the default colour and tint everywhere. */
  const White := Vec4(1.0, 1.0, 1.0, 1.0)

  /**
   * The text renderer's Vec4Comparator (textRenderer/textRenderer.cpp:275-282):
   * compare x, then y, then z, then w.
   */
  function ColorLess(a: Vec4, b: Vec4): bool
  {
    if a.x != b.x then a.x < b.x
    else if a.y != b.y then a.y < b.y
    else if a.z != b.z then a.z < b.z
    else a.w < b.w
  }

  /** Over the reals the comparator is a strict total order. */
  lemma ColorLessIsStrictTotal()
    ensures StrictTotal(ColorLess)
  {
  }

  /** Two colours share a map slot exactly when they are equal. */
  lemma ColorEquivalentIffEqual(a: Vec4, b: Vec4)
    ensures (!ColorLess(a, b) && !ColorLess(b, a)) <==> a == b
  {
  }
}
