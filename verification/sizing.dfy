/**
 * The size arithmetic of a frame: the floored logical size, the unrounded physical
 * size compared against the renderer, and the `as u32` truncation a resize stores.
 */
module Sizing {
  import E = EguiInput

  const U32Max: nat := 0xFFFF_FFFF

  /** Rust's `u32`. */
  type U32 = n: nat | n <= 0xFFFF_FFFF

  /** The renderer's size in whole pixels. */
  datatype PixelSize = PixelSize(width: U32, height: U32)

  /** Rust's saturating float-to-`u32` cast: truncation toward zero, clamped to the `u32` range. */
  function AsU32(x: real): (n: U32)
    ensures x <= 0.0 ==> n == 0
    ensures 0.0 <= x <= U32Max as real ==> n as real <= x < n as real + 1.0
    ensures x >= U32Max as real ==> n == U32Max
  {
    if x <= 0.0 then 0 else if x >= U32Max as real then U32Max else x.Floor
  }

  /** `Vec2::floor`: the logical size the widget claims, each component rounded down. */
  function LogicalSize(available: E.Vec2): (s: E.Vec2)
    ensures s.x <= available.x < s.x + 1.0 && s.y <= available.y < s.y + 1.0
    ensures s.x.Floor as real == s.x && s.y.Floor as real == s.y
  {
    E.Vec2(available.x.Floor as real, available.y.Floor as real)
  }

  /** The physical size, logical size times pixels per point, not rounded. */
  function PhysicalSize(logical: E.Vec2, pixelsPerPoint: real): E.Vec2
  {
    E.Vec2(logical.x * pixelsPerPoint, logical.y * pixelsPerPoint)
  }

  /** The renderer size a resize stores: the physical size truncated to `u32`. */
  function TruncatedSize(physical: E.Vec2): PixelSize
  {
    PixelSize(AsU32(physical.x), AsU32(physical.y))
  }

  /** A frame resizes when the physical size differs from the renderer's in either component. */
  function NeedsResize(physical: E.Vec2, current: PixelSize): (r: bool)
    ensures !r ==> TruncatedSize(physical) == current
  {
    physical.x != current.width as real || physical.y != current.height as real
  }

  /** A value a renderer dimension can take: a whole number within the `u32` range. */
  predicate WholePixels(x: real)
  {
    0.0 <= x <= U32Max as real && x.Floor as real == x
  }

  /**
   * The renderer is left alone exactly when each physical dimension is a whole
   * number of pixels and equal to the stored one.
   */
  lemma StableIff(physical: E.Vec2, current: PixelSize)
    ensures !NeedsResize(physical, current) <==>
      WholePixels(physical.x) && WholePixels(physical.y) && TruncatedSize(physical) == current
  {
  }

  /**
   * Resize idempotence, and its failure: after a resize stores the truncated size,
   * a second frame with the same measurement leaves the renderer alone exactly when
   * both physical dimensions are whole numbers of pixels in the `u32` range. A
   * fractional product (say 101 points at 1.5 pixels per point) resizes every frame.
   */
  lemma ResizeSettlesIff(physical: E.Vec2)
    ensures !NeedsResize(physical, TruncatedSize(physical)) <==>
      WholePixels(physical.x) && WholePixels(physical.y)
  {
    if WholePixels(physical.x) {
      assert AsU32(physical.x) == physical.x.Floor;
    }
    if WholePixels(physical.y) {
      assert AsU32(physical.y) == physical.y.Floor;
    }
  }

  /** A fractional physical dimension makes every frame resize, whatever the renderer holds. */
  lemma FractionalAlwaysResizes(physical: E.Vec2, current: PixelSize)
    requires physical.x.Floor as real != physical.x || physical.y.Floor as real != physical.y
    ensures NeedsResize(physical, current)
  {
    StableIff(physical, current);
  }

  /** The concrete case: 101 by 100 points at 1.5 pixels per point resizes on every frame. */
  lemma FractionalExample(current: PixelSize)
    ensures TruncatedSize(PhysicalSize(E.Vec2(101.0, 100.0), 1.5)) == PixelSize(151, 150)
    ensures NeedsResize(PhysicalSize(E.Vec2(101.0, 100.0), 1.5), current)
  {
    FractionalAlwaysResizes(PhysicalSize(E.Vec2(101.0, 100.0), 1.5), current);
  }
}
