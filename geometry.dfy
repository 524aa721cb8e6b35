/**
 * Positions and the coordinate transform between the displayed (scaled) image and the source
 * image (LabelApp.get_src_point / get_img_point).
 *
 * The floating-point geometry of module/utils.py is not part of this model: the helpers the mode
 * handlers call are the uninterpreted function values of `Helpers`. Positions are exact reals.
 */
module Geometry {

  datatype Pos = Pos(x: real, y: real)

  /**
   * The geometric helpers the core calls and cannot see, plus the configuration constants it
   * uses (config.eps and the hit radius config.point_width - config.eps).
   */
  datatype Helpers = Helpers(
    distance: (Pos, Pos) -> real,         // utils.get_distance
    midpoint: (Pos, Pos) -> Pos,          // utils.get_midpoint
    footPoint: (Pos, Pos, Pos) -> Pos,    // utils.get_foot_point(a, b, c): foot of c on line ab
    collinear: (Pos, Pos, Pos) -> bool,   // utils.is_on_a_line
    onSegment: (Pos, Pos, Pos) -> bool,   // utils.is_on_segment(a, b, d)
    inBounds: Pos -> bool,                // not LabelApp.is_point_out_of_bound
    hitRadius: real,                      // config.point_width - config.eps
    eps: real)                            // config.eps

  /** get_src_point: display coordinates to source-image coordinates, a scaling by ratio_to_src. */
  function SrcPoint(p: Pos, ratioToSrc: real): Pos {
    Scaled(p, ratioToSrc)
  }

  /** get_img_point: source-image coordinates to display coordinates. */
  function ImgPoint(p: Pos, ratioToSrc: real): (q: Pos)
    requires ratioToSrc != 0.0
    ensures ratioToSrc == 1.0 ==> q == p
  {
    Pos(p.x / ratioToSrc, p.y / ratioToSrc)
  }

  /** Mapping a display point to the source image and back gives the same point. */
  lemma ImgOfSrc(p: Pos, r: real)
    requires r != 0.0
    ensures ImgPoint(SrcPoint(p, r), r) == p
  {
  }

  /** Mapping a source point to the display and back gives the same point. */
  lemma SrcOfImg(p: Pos, r: real)
    requires r != 0.0
    ensures SrcPoint(ImgPoint(p, r), r) == p
  {
  }

  /** The position a display point takes when the image is rescaled by `ratio` (update_points). */
  function Scaled(p: Pos, ratio: real): (q: Pos)
    ensures ratio == 1.0 ==> q == p
  {
    Pos(p.x * ratio, p.y * ratio)
  }

  /** Scaling by a and then by b is scaling by a * b. */
  lemma ScaledComposes(p: Pos, a: real, b: real)
    ensures Scaled(Scaled(p, a), b) == Scaled(p, a * b)
  {
    MulAssoc(p.x, a, b);
    MulAssoc(p.y, a, b);
  }

  lemma MulAssoc(x: real, a: real, b: real)
    ensures (x * a) * b == x * (a * b)
  {
  }
}
