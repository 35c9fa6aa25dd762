/** Pairs of reals: positions in client pixels (the panel, the pointer) and
    two-component shader values (resolution, pointer, light position). */
module Geometry {

  datatype Vec2 = Vec2(x: real, y: real)
  {
    function Plus(o: Vec2): Vec2 { Vec2(x + o.x, y + o.y) }
    function Minus(o: Vec2): Vec2 { Vec2(x - o.x, y - o.y) }
  }
}
