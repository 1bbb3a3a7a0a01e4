/**
 * Pixel-to-YOLO box conversion (`_normalize_bbox` in src/auto_label.py),
 * computed exactly over the reals.
 */
module BoxMath {
  import opened Layout

  /** A corner box `(x1, y1, x2, y2)` in pixels. */
  datatype PixelBox = PixelBox(x1: real, y1: real, x2: real, y2: real)

  /**
   * Centre and size of `b` as fractions of a `w` x `h` image, the pixel sizes
   * taken as numbers (Python's `/` turns them into floats); nothing is clamped.
   */
  function NormalizeBbox(b: PixelBox, w: real, h: real): NormBox
    requires w > 0.0 && h > 0.0
  {
    NormBox((b.x1 + b.x2) / (2.0 * w), (b.y1 + b.y2) / (2.0 * h), (b.x2 - b.x1) / w, (b.y2 - b.y1) / h)
  }

  /** The corner box a normalized box stands for in a `width` x `height` image. */
  function Denormalize(n: NormBox, width: nat, height: nat): PixelBox
  {
    var w, h := width as real, height as real;
    PixelBox((n.cx - n.w / 2.0) * w, (n.cy - n.h / 2.0) * h, (n.cx + n.w / 2.0) * w, (n.cy + n.h / 2.0) * h)
  }

  /** The box lies within the image, corners ordered. */
  predicate InsideImage(b: PixelBox, width: nat, height: nat)
  {
    0.0 <= b.x1 <= b.x2 <= width as real && 0.0 <= b.y1 <= b.y2 <= height as real
  }

  /** All four normalized values lie in [0, 1]. */
  predicate InUnit(n: NormBox)
  {
    0.0 <= n.cx <= 1.0 && 0.0 <= n.cy <= 1.0 && 0.0 <= n.w <= 1.0 && 0.0 <= n.h <= 1.0
  }

  /** One axis: centre and size of `[a, b]` over length `len`, and back. */
  lemma AxisRoundTrip(a: real, b: real, len: real)
    requires len > 0.0
    ensures ((a + b) / (2.0 * len) - ((b - a) / len) / 2.0) * len == a
    ensures ((a + b) / (2.0 * len) + ((b - a) / len) / 2.0) * len == b
  {
    var c, s := (a + b) / (2.0 * len), (b - a) / len;
    assert c * (2.0 * len) == a + b;
    assert s * len == b - a;
    assert (c - s / 2.0) * len == c * len - (s * len) / 2.0;
    assert (c + s / 2.0) * len == c * len + (s * len) / 2.0;
  }

  /** Denormalizing a normalized box gives back its corners exactly. */
  lemma NormalizeRoundTrip(b: PixelBox, width: nat, height: nat)
    requires width > 0 && height > 0
    ensures Denormalize(NormalizeBbox(b, width as real, height as real), width, height) == b
  {
    AxisRoundTrip(b.x1, b.x2, width as real);
    AxisRoundTrip(b.y1, b.y2, height as real);
  }

  /** One axis: `0 <= a <= b <= len` puts centre and size in [0, 1]. */
  lemma AxisInUnit(a: real, b: real, len: real)
    requires len > 0.0 && 0.0 <= a <= b <= len
    ensures 0.0 <= (a + b) / (2.0 * len) <= 1.0
    ensures 0.0 <= (b - a) / len <= 1.0
  {
    assert (a + b) / (2.0 * len) * (2.0 * len) == a + b;
    assert (b - a) / len * len == b - a;
  }

  /** A box inside the image normalizes into [0, 1] on all four values. */
  lemma NormalizeInUnit(b: PixelBox, width: nat, height: nat)
    requires width > 0 && height > 0
    requires InsideImage(b, width, height)
    ensures InUnit(NormalizeBbox(b, width as real, height as real))
  {
    AxisInUnit(b.x1, b.x2, width as real);
    AxisInUnit(b.y1, b.y2, height as real);
  }

  /** Nothing clamps: a box twice as wide as the image gets width 2. */
  lemma NoClamping()
    ensures NormalizeBbox(PixelBox(0.0, 0.0, 200.0, 100.0), 100.0, 100.0) == NormBox(1.0, 0.5, 2.0, 1.0)
  {
  }
}
