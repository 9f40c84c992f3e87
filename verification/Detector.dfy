/** The geometry of src/pipeline/detector.py, over exact reals. */
module Detector {
  import opened Common

  const IMG_SIZE: int := 640

  /** Python's round: to the nearest integer, ties to the even one. */
  function Round(x: real): (n: int)
    ensures -0.5 <= n as real - x <= 0.5
    ensures x == x.Floor as real ==> n == x.Floor
    ensures n as real - x == 0.5 || x - n as real == 0.5 ==> n % 2 == 0
  {
    var below := x.Floor;
    var rest := x - below as real;
    if rest < 0.5 || (rest == 0.5 && below % 2 == 0) then below else below + 1
  }

  // ---- Letterbox ----

  function Scale(w: int, h: int): (s: real)
    requires 0 < w && 0 < h
    ensures s > 0.0
  {
    var across, down := 640.0 / w as real, 640.0 / h as real;
    if down < across then down else across
  }

  /** A side of the resized image. */
  function NewSide(side: int, scale: real): int {
    Round(side as real * scale)
  }

  function Pad(newSide: int): int {
    (IMG_SIZE - newSide) / 2
  }

  lemma ScaleOfLonger(w: int, h: int)
    requires 0 < h <= w
    ensures Scale(w, h) == 640.0 / w as real && Scale(h, w) == 640.0 / w as real
    ensures w as real * Scale(w, h) == 640.0
    ensures 0.0 < h as real * Scale(w, h) <= 640.0
  {
    DivisionShrinks(640.0, h as real, w as real);
    var s := 640.0 / w as real;
    assert w as real * s == 640.0;
    ProductGrows(h as real, w as real, s);
  }

  lemma DivisionShrinks(a: real, x: real, y: real)
    requires a > 0.0 && 0.0 < x <= y
    ensures 0.0 < a / y <= a / x
  {
    var p, q := a / y, a / x;
    assert p * y == a && q * x == a;
    ProductGrows(x, y, p);
    assert (q - p) * x >= 0.0;
    if q - p < 0.0 {
      ProductNegative(p - q, x);
    }
  }

  lemma ProductNegative(d: real, x: real)
    requires d > 0.0 && x > 0.0
    ensures -d * x < 0.0
  {
  }

  lemma ProductGrows(x: real, y: real, s: real)
    requires 0.0 < x <= y && s > 0.0
    ensures 0.0 < x * s <= y * s
  {
  }

  /** The longer side fills the canvas exactly; the other fits, centred to within a pixel. */
  lemma LetterboxFits(w: int, h: int)
    requires 0 < w && 0 < h
    ensures var newW, newH := NewSide(w, Scale(w, h)), NewSide(h, Scale(w, h));
      && 0 <= newW <= IMG_SIZE && 0 <= newH <= IMG_SIZE
      && (w >= h ==> newW == IMG_SIZE) && (h >= w ==> newH == IMG_SIZE)
      && 0 <= Pad(newW) && 0 <= IMG_SIZE - newW - 2 * Pad(newW) <= 1
      && 0 <= Pad(newH) && 0 <= IMG_SIZE - newH - 2 * Pad(newH) <= 1
  {
    if h <= w {
      ScaleOfLonger(w, h);
    } else {
      ScaleOfLonger(h, w);
    }
  }

  /** A resized side vanishes, which the resize rejects, exactly on images 1280 times longer than wide. */
  lemma LetterboxVanishes(w: int, h: int)
    requires 0 < w && 0 < h
    ensures NewSide(w, Scale(w, h)) == 0 || NewSide(h, Scale(w, h)) == 0 <==> w >= 1280 * h || h >= 1280 * w
  {
    LetterboxFits(w, h);
    if h <= w {
      ScaleOfLonger(w, h);
      ShorterVanishes(w, h);
    } else {
      ScaleOfLonger(h, w);
      ShorterVanishes(h, w);
    }
  }

  lemma ShorterVanishes(longer: int, shorter: int)
    requires 0 < shorter <= longer
    ensures NewSide(shorter, 640.0 / longer as real) == 0 <==> longer >= 1280 * shorter
  {
    var s := 640.0 / longer as real;
    assert longer as real * s == 640.0;
    HalfPixel(shorter as real, longer as real, s);
    RoundsToZero(shorter as real * s);
  }

  lemma RoundsToZero(x: real)
    requires x > 0.0
    ensures Round(x) == 0 <==> x <= 0.5
  {
  }

  lemma HalfPixel(shorter: real, longer: real, s: real)
    requires 0.0 < shorter && 0.0 < longer && longer * s == 640.0 && s > 0.0
    ensures 0.0 < shorter * s
    ensures shorter * s <= 0.5 <==> longer >= 1280.0 * shorter
  {
    var x := shorter * s;
    Reassociated(longer, shorter, s);
    assert longer * x == shorter * 640.0;
    ProductOrder(longer, x, 0.5);
    ProductGrows(shorter, shorter, s);
  }

  lemma Reassociated(a: real, b: real, c: real)
    ensures a * (b * c) == b * (a * c)
  {
  }

  lemma ProductOrder(y: real, a: real, b: real)
    requires y > 0.0
    ensures a <= b <==> y * a <= y * b
  {
    assert y * b - y * a == y * (b - a);
    if b - a < 0.0 {
      ProductNegative(a - b, y);
    } else {
      NonNegativeProduct(b - a, y);
    }
  }

  // ---- There and back ----

  /** Where a pixel of the image lies on the canvas, if the resize scaled exactly. */
  function Forward(x: real, scale: real, pad: int): real {
    x * scale + pad as real
  }

  /** Reverse letterbox */
  function Inverse(x: real, scale: real, pad: int): real
    requires scale > 0.0
  {
    (x - pad as real) / scale
  }

  lemma InverseUndoesForward(x: real, scale: real, pad: int)
    requires scale > 0.0
    ensures Inverse(Forward(x, scale, pad), scale, pad) == x
    ensures Forward(Inverse(x, scale, pad), scale, pad) == x
  {
  }

  /** Where it lies in fact: the resize maps the side to a whole number of pixels. */
  function Resized(x: real, side: int, scale: real, pad: int): real
    requires 0 < side
  {
    x * NewSide(side, scale) as real / side as real + pad as real
  }

  /** Reversing the letterbox misses by half a canvas pixel at most. */
  lemma InverseNearlyUndoesResize(x: real, side: int, scale: real, pad: int)
    requires 0 < side && scale > 0.0 && 0.0 <= x <= side as real
    ensures var error := Inverse(Resized(x, side, scale, pad), scale, pad) - x;
      -0.5 / scale <= error <= 0.5 / scale
  {
    var part, off := x / side as real, NewSide(side, scale) as real - side as real * scale;
    assert part * side as real == x;
    PartOfWhole(part, x, side as real);
    PartOfHalf(part, off);
    ResizedPart(x, side, scale, pad);
    var moved := part * off;
    InverseOfShifted(x, moved, scale, pad);
    DivideBounds(moved, scale);
  }

  lemma ResizedPart(x: real, side: int, scale: real, pad: int)
    requires 0 < side
    ensures var off := NewSide(side, scale) as real - side as real * scale;
      Resized(x, side, scale, pad) == x * scale + x / side as real * off + pad as real
  {
    var n, part, whole := NewSide(side, scale) as real, x / side as real, side as real;
    assert part * whole == x;
    assert x * n / whole == part * n;
    assert part * (n - whole * scale) == part * n - part * whole * scale;
  }

  lemma InverseOfShifted(x: real, moved: real, scale: real, pad: int)
    requires scale > 0.0
    ensures Inverse(x * scale + moved + pad as real, scale, pad) == x + moved / scale
  {
  }

  lemma PartOfWhole(part: real, x: real, side: real)
    requires part * side == x && 0.0 <= x <= side && side > 0.0
    ensures 0.0 <= part <= 1.0
  {
    if part < 0.0 {
      ProductNegative(-part, side);
    } else if part > 1.0 {
      ProductNegative(part - 1.0, side);
    }
  }

  lemma PartOfHalf(part: real, off: real)
    requires 0.0 <= part <= 1.0 && -0.5 <= off <= 0.5
    ensures -0.5 <= part * off <= 0.5
  {
    ProductBetween(part, if off >= 0.0 then off else -off);
  }

  lemma ProductBetween(part: real, size: real)
    requires 0.0 <= part <= 1.0 && size >= 0.0
    ensures 0.0 <= part * size <= size
  {
    assert part * size + (1.0 - part) * size == size;
    NonNegativeProduct(part, size);
    NonNegativeProduct(1.0 - part, size);
  }

  lemma NonNegativeProduct(x: real, y: real)
    requires x >= 0.0 && y >= 0.0
    ensures x * y >= 0.0
  {
  }

  lemma DivideBounds(moved: real, scale: real)
    requires scale > 0.0 && -0.5 <= moved <= 0.5
    ensures -0.5 / scale <= moved / scale <= 0.5 / scale
  {
  }

  // ---- The crop ----

  datatype Box = Box(x1: int, y1: int, x2: int, y2: int)

  /** One side of the crop: the decoded interval, widened, rounded and clamped. */
  function Clamped(low: real, high: real, percent: real, side: int): (int, int) {
    var margin := Margin((low, high), percent);
    var first, last := Round(low - margin), Round(high + margin);
    (if first > 0 then first else 0, if last < side then last else side)
  }

  /** By how much, in image pixels, the crop widens a decoded interval at each end. */
  function Margin(interval: (real, real), percent: real): real {
    (interval.1 - interval.0) * percent
  }

  /** The decoded interval of a box side: centre and length on the canvas, mapped back. */
  function Decoded(centre: real, length: real, side: int, scale: real): (real, real)
    requires scale > 0.0
  {
    var pad := Pad(NewSide(side, scale));
    (Inverse(centre - length / 2.0, scale, pad), Inverse(centre + length / 2.0, scale, pad))
  }

  function CropSide(centre: real, length: real, side: int, scale: real, percent: real): (int, int)
    requires scale > 0.0
  {
    var interval := Decoded(centre, length, side, scale);
    Clamped(interval.0, interval.1, percent, side)
  }

  /** The crop of detect_invoice for the box (cx, cy, bw, bh); None if it is degenerate. */
  function Crop(w: int, h: int, cx: real, cy: real, bw: real, bh: real, percent: real): (crop: Option<Box>)
    requires 0 < w && 0 < h
    ensures crop.Some? ==> 0 <= crop.value.x1 < crop.value.x2 <= w && 0 <= crop.value.y1 < crop.value.y2 <= h
  {
    var (x1, x2) := CropSide(cx, bw, w, Scale(w, h), percent);
    var (y1, y2) := CropSide(cy, bh, h, Scale(w, h), percent);
    if x2 <= x1 || y2 <= y1 then None else Some(Box(x1, y1, x2, y2))
  }

  /** If the interval is off by `slack` at most, a margin of half a pixel more keeps every point. */
  lemma ClampedKeeps(from: real, to: real, low: real, high: real, slack: real, percent: real, side: int, x: real)
    requires from <= low + slack && high - slack <= to
    requires Margin((from, to), percent) >= 0.5 + slack
    requires low <= x <= high && 0.0 <= x <= side as real
    ensures var (first, last) := Clamped(from, to, percent, side); first as real <= x <= last as real
  {
    var margin := Margin((from, to), percent);
    RoundedKeeps(from, to, margin, side, low, high, slack, x);
  }

  lemma RoundedKeeps(from: real, to: real, margin: real, side: int, low: real, high: real, slack: real, x: real)
    requires from <= low + slack && high - slack <= to && margin >= 0.5 + slack
    requires low <= x <= high && 0.0 <= x <= side as real
    ensures Round(from - margin) as real <= x <= Round(to + margin) as real
  {
    assert Round(from - margin) as real <= from - margin + 0.5;
    assert Round(to + margin) as real >= to + margin - 0.5;
  }

  lemma ClampedMeets(from: real, to: real, percent: real, side: int)
    requires Margin((from, to), percent) >= 0.5 && from < to && from < side as real && 0.0 < to && 0 < side
    ensures var (first, last) := Clamped(from, to, percent, side); first < last
  {
  }

  lemma InverseOrdered(a: real, b: real, scale: real, pad: int)
    requires scale > 0.0 && a < b
    ensures Inverse(a, scale, pad) < Inverse(b, scale, pad)
  {
    var p, q := Inverse(a, scale, pad), Inverse(b, scale, pad);
    assert q - p == (b - a) / scale;
  }

  lemma CropSideKeeps(centre: real, length: real, side: int, scale: real, percent: real, x: real)
    requires scale > 0.0 && length > 0.0 && 0 < side && 0.0 <= x <= side as real
    requires var interval := Decoded(centre, length, side, scale);
      Margin(interval, percent) >= 0.5 && interval.0 <= x <= interval.1
    ensures var (first, last) := CropSide(centre, length, side, scale, percent);
      first as real <= x <= last as real && (0.0 < x < side as real ==> first < last)
  {
    var interval := Decoded(centre, length, side, scale);
    ClampedKeeps(interval.0, interval.1, interval.0, interval.1, 0.0, percent, side, x);
    InverseOrdered(centre - length / 2.0, centre + length / 2.0, scale, Pad(NewSide(side, scale)));
    if 0.0 < x < side as real {
      ClampedMeets(interval.0, interval.1, percent, side);
    }
  }

  /** With margins of half a pixel the crop holds every point of the decoded box that is on the
      image; and if there is one off the image's border, there is a crop. */
  lemma CropKeepsBox(w: int, h: int, cx: real, cy: real, bw: real, bh: real, percent: real, x: real, y: real)
    requires 0 < w && 0 < h && bw > 0.0 && bh > 0.0
    requires 0.0 <= x <= w as real && 0.0 <= y <= h as real
    requires var across := Decoded(cx, bw, w, Scale(w, h)); Margin(across, percent) >= 0.5 && across.0 <= x <= across.1
    requires var down := Decoded(cy, bh, h, Scale(w, h)); Margin(down, percent) >= 0.5 && down.0 <= y <= down.1
    ensures var crop := Crop(w, h, cx, cy, bw, bh, percent);
      && (crop.Some? ==>
            && crop.value.x1 as real <= x <= crop.value.x2 as real
            && crop.value.y1 as real <= y <= crop.value.y2 as real)
      && (0.0 < x < w as real && 0.0 < y < h as real ==> crop.Some?)
  {
    CropSideKeeps(cx, bw, w, Scale(w, h), percent, x);
    CropSideKeeps(cy, bh, h, Scale(w, h), percent, y);
  }

  /** An object that the model boxes exactly where the resize put it stays whole in the crop, if the
      margin makes up for the resize's rounding too. */
  lemma ObjectKept(low: real, high: real, centre: real, length: real, side: int, scale: real, percent: real, x: real)
    requires 0 < side && scale > 0.0 && 0.0 <= low <= x <= high <= side as real
    requires centre - length / 2.0 == Resized(low, side, scale, Pad(NewSide(side, scale)))
    requires centre + length / 2.0 == Resized(high, side, scale, Pad(NewSide(side, scale)))
    requires Margin(Decoded(centre, length, side, scale), percent) >= 0.5 + 0.5 / scale
    ensures var (first, last) := CropSide(centre, length, side, scale, percent); first as real <= x <= last as real
  {
    var interval := Decoded(centre, length, side, scale);
    ObjectDecoded(low, high, centre, length, side, scale);
    ClampedKeeps(interval.0, interval.1, low, high, 0.5 / scale, percent, side, x);
  }

  lemma ObjectDecoded(low: real, high: real, centre: real, length: real, side: int, scale: real)
    requires 0 < side && scale > 0.0 && 0.0 <= low <= side as real && 0.0 <= high <= side as real
    requires centre - length / 2.0 == Resized(low, side, scale, Pad(NewSide(side, scale)))
    requires centre + length / 2.0 == Resized(high, side, scale, Pad(NewSide(side, scale)))
    ensures var interval := Decoded(centre, length, side, scale);
      interval.0 <= low + 0.5 / scale && high - 0.5 / scale <= interval.1
  {
    InverseNearlyUndoesResize(low, side, scale, Pad(NewSide(side, scale)));
    InverseNearlyUndoesResize(high, side, scale, Pad(NewSide(side, scale)));
  }

  // ---- Nothing but the box ----

  /** A side of the crop follows the widened interval from `low` to `high`: off the border it is within
      half a pixel of it, and on the border only if the interval ends at most half a pixel inside. */
  predicate Follows(low: real, high: real, side: int, first: int, last: int) {
    && 0 <= first && last <= side
    && (if first > 0 then low - 0.5 <= first as real <= low + 0.5 else low <= 0.5)
    && (if last < side then high - 0.5 <= last as real <= high + 0.5 else high >= side as real - 0.5)
  }

  lemma ClampedFollows(low: real, high: real, percent: real, side: int)
    ensures var (margin, c) := (Margin((low, high), percent), Clamped(low, high, percent, side));
      Follows(low - margin, high + margin, side, c.0, c.1)
  {
    var margin := Margin((low, high), percent);
    RoundedFollows(low - margin, high + margin, side);
  }

  lemma RoundedFollows(low: real, high: real, side: int)
    ensures var (first, last) := (Round(low), Round(high));
      Follows(low, high, side, if first > 0 then first else 0, if last < side then last else side)
  {
  }

  /** One side of the decoded box, mapped back from the canvas and widened by its margin at both ends. */
  function WidenedLow(centre: real, length: real, side: int, scale: real, percent: real): real
    requires scale > 0.0
  {
    var pad := Pad(NewSide(side, scale)) as real;
    (centre - length / 2.0 - pad) / scale - length / scale * percent
  }

  function WidenedHigh(centre: real, length: real, side: int, scale: real, percent: real): real
    requires scale > 0.0
  {
    var pad := Pad(NewSide(side, scale)) as real;
    (centre + length / 2.0 - pad) / scale + length / scale * percent
  }

  /** Two opposite sides of a crop follow the widened box. */
  predicate SideFollows(centre: real, length: real, side: int, scale: real, percent: real, first: int, last: int)
    requires scale > 0.0
  {
    Follows(WidenedLow(centre, length, side, scale, percent), WidenedHigh(centre, length, side, scale, percent),
            side, first, last)
  }

  lemma LengthDecoded(centre: real, length: real, pad: real, scale: real)
    requires scale > 0.0
    ensures (centre + length / 2.0 - pad) / scale - (centre - length / 2.0 - pad) / scale == length / scale
  {
  }

  lemma SameProduct(a: real, b: real, percent: real)
    requires a == b
    ensures a * percent == b * percent
  {
  }

  lemma MarginOfLength(centre: real, length: real, side: int, scale: real, percent: real)
    requires scale > 0.0
    ensures Margin(Decoded(centre, length, side, scale), percent) == length / scale * percent
  {
    var interval := Decoded(centre, length, side, scale);
    LengthDecoded(centre, length, Pad(NewSide(side, scale)) as real, scale);
    SameProduct(interval.1 - interval.0, length / scale, percent);
  }

  lemma WidenedExactly(centre: real, length: real, side: int, scale: real, percent: real)
    requires scale > 0.0
    ensures var interval := Decoded(centre, length, side, scale); var margin := Margin(interval, percent);
      && WidenedLow(centre, length, side, scale, percent) == interval.0 - margin
      && WidenedHigh(centre, length, side, scale, percent) == interval.1 + margin
  {
    MarginOfLength(centre, length, side, scale, percent);
  }

  lemma CropSideFollows(centre: real, length: real, side: int, scale: real, percent: real)
    requires scale > 0.0
    ensures var c := CropSide(centre, length, side, scale, percent);
      SideFollows(centre, length, side, scale, percent, c.0, c.1)
  {
    var interval := Decoded(centre, length, side, scale);
    WidenedExactly(centre, length, side, scale, percent);
    ClampedFollows(interval.0, interval.1, percent, side);
  }

  lemma CropOfSides(w: int, h: int, cx: real, cy: real, bw: real, bh: real, percent: real)
    requires 0 < w && 0 < h
    ensures var (x, y) := (CropSide(cx, bw, w, Scale(w, h), percent), CropSide(cy, bh, h, Scale(w, h), percent));
      Crop(w, h, cx, cy, bw, bh, percent)
      == if x.0 < x.1 && y.0 < y.1 then Some(Box(x.0, y.0, x.1, y.1)) else None
  {
  }

  /** No point between two sides so placed is more than half a pixel outside the widened box. */
  lemma NothingOutside(centre: real, length: real, side: int, scale: real, percent: real,
                       first: int, last: int, x: real)
    requires scale > 0.0 && SideFollows(centre, length, side, scale, percent, first, last)
    requires first as real <= x <= last as real
    ensures WidenedLow(centre, length, side, scale, percent) - 0.5 <= x
    ensures x <= WidenedHigh(centre, length, side, scale, percent) + 0.5
  {
  }

  /** The crop holds the box with its margins and no more: every side follows the widened box; and there
      is no crop only if two opposite sides so placed meet. */
  lemma CropFollowsBox(w: int, h: int, cx: real, cy: real, bw: real, bh: real, percent: real)
    requires 0 < w && 0 < h
    ensures var (crop, s) := (Crop(w, h, cx, cy, bw, bh, percent), Scale(w, h));
      if crop.Some? then
        && SideFollows(cx, bw, w, s, percent, crop.value.x1, crop.value.x2)
        && SideFollows(cy, bh, h, s, percent, crop.value.y1, crop.value.y2)
      else
        || (exists x1, x2 :: SideFollows(cx, bw, w, s, percent, x1, x2) && x2 <= x1)
        || (exists y1, y2 :: SideFollows(cy, bh, h, s, percent, y1, y2) && y2 <= y1)
  {
    CropOfSides(w, h, cx, cy, bw, bh, percent);
    CropSideFollows(cx, bw, w, Scale(w, h), percent);
    CropSideFollows(cy, bh, h, Scale(w, h), percent);
  }
}
