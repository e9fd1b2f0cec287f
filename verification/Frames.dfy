/** Captured frames, and the part of one inside its black borders. */
module Frames {
  import opened Arith

  type u8 = n: int | 0 <= n < 256

  datatype Rgb = Rgb(r: u8, g: u8, b: u8)

  const BLACK := Rgb(0, 0, 0)

  datatype Frame = Frame(width: nat, height: nat, pixels: seq<Rgb>)

  /** Bar depths as fractions of the frame. */
  datatype Insets = Insets(top: real, bottom: real, left: real, right: real)

  const NO_INSETS := Insets(0.0, 0.0, 0.0, 0.0)

  /** `f32::round` then `as usize`: half away from zero, and nothing below zero. */
  function Round(x: real): nat {
    if x <= 0.0 then 0 else (x + 0.5).Floor
  }

  lemma RoundAtMost(x: real, n: nat)
    requires x <= n as real
    ensures Round(x) <= n
  {
  }

  datatype Range = Range(start: nat, end: nat)

  /** One axis of `content_bounds`. */
  function Bounds(size: nat, before: real, after: real): Range {
    var start := Round(size as real * before);
    Range(start, Max(SaturatingSub(size, Round(size as real * after)), start + 1))
  }

  function ContentBounds(i: Insets, width: nat, height: nat): (Range, Range) {
    (Bounds(height, i.top, i.bottom), Bounds(width, i.left, i.right))
  }

  /** The rectangle is never empty, and lies inside the frame exactly when the first inset leaves a
      line. */
  lemma BoundsInFrame(size: nat, before: real, after: real)
    ensures Bounds(size, before, after).start < Bounds(size, before, after).end
    ensures Bounds(size, before, after).end <= size <==> Round(size as real * before) < size
  {
  }

  /** Insets of half the frame, which the type allows, push the rectangle out of a one-line frame. */
  lemma HalfInsetsLeaveAOneLineFrame()
    ensures Bounds(1, 0.5, 0.5) == Range(1, 2)
  {
  }

  lemma NoInsetsKeepTheFrame(size: nat)
    requires size > 0
    ensures Bounds(size, 0.0, 0.0) == Range(0, size)
  {
  }
}
