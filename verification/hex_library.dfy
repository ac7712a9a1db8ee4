/**
 * The hex coordinate engine of the map editor: pointy-topped hexes in axial
 * coordinates (row, col), the cube form (x, y, z) used for rounding, and the
 * axial <-> pixel transforms.
 *
 * Coordinates are exact reals. JavaScript's `Math.round` is modelled as
 * `Floor(v + 1/2)` and `Math.sqrt(3)` as a parameter `root3`; the lemmas that
 * need its value require `IsSqrt3(root3)`.
 */
module HexLibrary {

  datatype Point = Point(x: real, y: real)

  datatype Cube = Cube(x: real, y: real, z: real)

  /** An axial coordinate. */
  datatype Hex = Hex(row: real, col: real)

  /** The three cube axes; names which one `RoundCube` recomputes. */
  datatype Axis = X | Y | Z

  predicate IsIntegral(v: real) {
    v == v.Floor as real
  }

  predicate IsIntegralHex(h: Hex) {
    IsIntegral(h.row) && IsIntegral(h.col)
  }

  /** What `Math.sqrt(3)` stands for in the exact model. */
  predicate IsSqrt3(root3: real) {
    root3 > 0.0 && root3 * root3 == 3.0
  }

  function Abs(v: real): real {
    if v < 0.0 then -v else v
  }

  /** JavaScript's `Math.round`: the nearest integer, halves toward +infinity. */
  function JsRound(v: real): (r: int)
    ensures v - 0.5 < r as real <= v + 0.5
  {
    (v + 0.5).Floor
  }

  /** `Hex.toCube`. */
  function ToCube(h: Hex): (c: Cube)
    ensures c.x + c.y + c.z == 0.0
  {
    Cube(h.col, -h.col - h.row, h.row)
  }

  /** `Cube.toAxial`: drops y, which a cube on the plane x+y+z == 0 determines. */
  function ToAxial(c: Cube): Hex {
    Hex(c.z, c.x)
  }

  /** The absolute rounding error of one axis. */
  function Delta(c: Cube, a: Axis): real {
    match a
    case X => Abs(JsRound(c.x) as real - c.x)
    case Y => Abs(JsRound(c.y) as real - c.y)
    case Z => Abs(JsRound(c.z) as real - c.z)
  }

  /**
   * The axis `Cube.round` recomputes from the other two: x only when its
   * error is strictly the largest, otherwise y when its error beats z's,
   * otherwise z.
   */
  function RecomputedAxis(c: Cube): Axis {
    if Delta(c, X) > Delta(c, Y) && Delta(c, X) > Delta(c, Z) then X
    else if Delta(c, Y) > Delta(c, Z) then Y
    else Z
  }

  /** The component of `c` on axis `a`. */
  function Component(c: Cube, a: Axis): real {
    match a
    case X => c.x
    case Y => c.y
    case Z => c.z
  }

  /** `Cube.round`: round each axis, then restore x+y+z == 0 on the least certain axis. */
  function RoundCube(c: Cube): (r: Cube)
    ensures r.x + r.y + r.z == 0.0
    ensures IsIntegral(r.x) && IsIntegral(r.y) && IsIntegral(r.z)
    ensures forall a: Axis :: a != RecomputedAxis(c) ==>
      Component(r, a) == JsRound(Component(c, a)) as real
    ensures forall a: Axis :: a != RecomputedAxis(c) ==>
      Abs(Component(r, a) - Component(c, a)) <= 0.5
  {
    var rx, ry, rz := JsRound(c.x), JsRound(c.y), JsRound(c.z);
    match RecomputedAxis(c)
    case X => Cube((-ry - rz) as real, ry as real, rz as real)
    case Y => Cube(rx as real, (-rx - rz) as real, rz as real)
    case Z => Cube(rx as real, ry as real, (-rx - ry) as real)
  }

  /** `Hex.round`. */
  function RoundHex(h: Hex): (r: Hex)
    ensures IsIntegralHex(r)
  {
    ToAxial(RoundCube(ToCube(h)))
  }

  /** `Hex.toPixel` for pointy-topped hexes; `root3` is the value of `Math.sqrt(3)`. */
  function ToPixel(h: Hex, size: real, root3: real): Point {
    Point(size * ((root3 * h.col) + ((root3 / 2.0) * h.row)), size * ((3.0 / 2.0) * h.row))
  }

  /** The unrounded fractional hex under a pixel: the inverse of `ToPixel`. */
  function FractionalHex(p: Point, size: real, root3: real): Hex
    requires size != 0.0
  {
    Hex(((2.0 / 3.0) * p.y) / size, (((root3 / 3.0) * p.x) - ((1.0 / 3.0) * p.y)) / size)
  }

  /**
   * `Hex.pixelToHex`: the hex under a pixel, in an unbounded grid. It checks
   * no bounds and yields an integral hex for every point.
   */
  function PixelToHex(p: Point, size: real, root3: real): (h: Hex)
    requires size != 0.0
    ensures IsIntegralHex(h)
  {
    RoundHex(FractionalHex(p, size, root3))
  }

  // ---------------------------------------------------------------------
  // Properties

  /** Axial and cube coordinates are two views of one hex: each conversion undoes the other. */
  lemma CubeAxialRoundTrip(h: Hex, c: Cube)
    ensures ToAxial(ToCube(h)) == h
    ensures c.x + c.y + c.z == 0.0 ==> ToCube(ToAxial(c)) == c
  {
  }

  /** JsRound is the identity on integers. */
  lemma JsRoundOfInteger(v: real)
    requires IsIntegral(v)
    ensures JsRound(v) as real == v
  {
    var n, r := v.Floor, JsRound(v);
    assert n as real - 0.5 < r as real <= n as real + 0.5;
    assert n - 1 < r < n + 1;
  }

  /** Tie-break: the recomputed axis always has a largest error, and ties go to z, then y. */
  lemma RecomputedAxisHasLargestDelta(c: Cube)
    ensures forall a: Axis :: Delta(c, RecomputedAxis(c)) >= Delta(c, a)
    ensures RecomputedAxis(c) == X <==> Delta(c, X) > Delta(c, Y) && Delta(c, X) > Delta(c, Z)
    ensures Delta(c, Y) == Delta(c, Z) >= Delta(c, X) ==> RecomputedAxis(c) == Z
  {
  }

  /** On a cube that already lies on the plane, even the recomputed axis moves by at most 1. */
  lemma RoundCubeStaysClose(c: Cube)
    requires c.x + c.y + c.z == 0.0
    ensures Abs(RoundCube(c).x - c.x) <= 1.0
    ensures Abs(RoundCube(c).y - c.y) <= 1.0
    ensures Abs(RoundCube(c).z - c.z) <= 1.0
  {
    var r := RoundCube(c);
    assert Abs(r.x - c.x) <= Abs(r.y - c.y) + Abs(r.z - c.z) || RecomputedAxis(c) != X;
  }

  /** `Hex.round` leaves a hex with integral row and col where it is. */
  lemma {:induction false} RoundHexIdentityOnIntegral(h: Hex)
    requires IsIntegralHex(h)
    ensures RoundHex(h) == h
  {
    var c := ToCube(h);
    JsRoundOfInteger(c.x);
    JsRoundOfInteger(c.z);
    assert IsIntegral(c.y) by {
      assert c.y == (-h.col.Floor - h.row.Floor) as real;
    }
    JsRoundOfInteger(c.y);
    assert RoundCube(c) == c;
  }

  /** Rounding is idempotent. */
  lemma RoundHexIdempotent(h: Hex)
    ensures RoundHex(RoundHex(h)) == RoundHex(h)
  {
    RoundHexIdentityOnIntegral(RoundHex(h));
  }

  /** The linear part of the round trip: the pixel of a hex maps back to exactly that hex. */
  lemma {:induction false} FractionalHexInvertsToPixel(h: Hex, size: real, root3: real)
    requires size != 0.0 && root3 * root3 == 3.0
    ensures FractionalHex(ToPixel(h, size, root3), size, root3) == h
  {
    var p := ToPixel(h, size, root3);
    assert p.y == size * ((3.0 / 2.0) * h.row);
    assert (2.0 / 3.0) * p.y == size * h.row;
    assert ((2.0 / 3.0) * p.y) / size == h.row;
    calc {
      ((root3 / 3.0) * p.x) - ((1.0 / 3.0) * p.y);
      ==
      (root3 / 3.0) * (size * ((root3 * h.col) + ((root3 / 2.0) * h.row))) - (1.0 / 3.0) * (size * ((3.0 / 2.0) * h.row));
      ==
      size * ((root3 * root3) / 3.0 * h.col + (root3 * root3) / 6.0 * h.row) - size * (h.row / 2.0);
      ==
      size * (h.col + h.row / 2.0) - size * (h.row / 2.0);
      ==
      size * h.col;
    }
    assert (size * h.col) / size == h.col;
  }

  /** The pixel round trip: `pixelToHex(toPixel(h, size), size) == h` for integral h, under exact arithmetic. */
  lemma {:induction false} PixelRoundTrip(h: Hex, size: real, root3: real)
    requires IsIntegralHex(h) && size != 0.0 && IsSqrt3(root3)
    ensures PixelToHex(ToPixel(h, size, root3), size, root3) == h
  {
    FractionalHexInvertsToPixel(h, size, root3);
    RoundHexIdentityOnIntegral(h);
  }
}
