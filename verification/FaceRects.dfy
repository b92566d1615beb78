/** Face boxes in preview pixels, mapped to the application's coordinates from -1000 to 1000. */
module FaceRects {
  const SCALE := 2000
  const OFFSET := -1000
  const NO_LANDMARK := -2000
  /** Frame sizes for which the 32-bit products do not overflow. */
  const MAX_DIM := 0x7fff_ffff / 2000

  const NO_ERROR := 0
  /** INT32_MIN */
  const UNKNOWN_ERROR := -0x8000_0000

  /** Division of C: towards zero. */
  function Quotient(a: int, b: int): int
    requires b > 0
  {
    if a >= 0 then a / b else -(-a / b)
  }

  type Int32 = i: int | -0x8000_0000 <= i <= 0x7fff_ffff

  /** 32-bit arithmetic: what is left of a value that does not fit. */
  function Wrap(v: int): Int32 {
    (v + 0x8000_0000) % 0x1_0000_0000 - 0x8000_0000
  }

  /** MAP_TO_DRIVER_COORDINATE */
  function MapCoordinate(val: Int32, base: Int32, offset: int): Int32
    requires base > 0
  {
    Wrap(Quotient(Wrap(val * SCALE), base) + offset)
  }

  /** The same in unbounded integers. */
  function ExactCoordinate(val: int, base: int, offset: int): int
    requires base > 0
  {
    Quotient(val * SCALE, base) + offset
  }

  datatype Point = Point(x: Int32, y: Int32)
  datatype Box = Box(left: Int32, top: Int32, width: Int32, height: Int32)
  datatype Rect = Rect(left: Int32, top: Int32, right: Int32, bottom: Int32)
  datatype Landmarks = Landmarks(leftEye: Point, rightEye: Point, mouth: Point)
  datatype Detected = Detected(id: int, score: int, box: Box, marks: Landmarks)
  datatype Face = Face(id: int, score: int, rect: Rect, marks: Landmarks)

  function MapBox(b: Box, w: Int32, h: Int32): Rect
    requires w > 0 && h > 0
  {
    var left, top := MapCoordinate(b.left, w, OFFSET), MapCoordinate(b.top, h, OFFSET);
    var right: int, bottom: int := left + MapCoordinate(b.width, w, 0), top + MapCoordinate(b.height, h, 0);
    Rect(left, top, Wrap(right), Wrap(bottom))
  }

  function MapPoint(p: Point, w: Int32, h: Int32): Point
    requires w > 0 && h > 0
  {
    Point(MapCoordinate(p.x, w, OFFSET), MapCoordinate(p.y, h, OFFSET))
  }

  function MapFace(d: Detected, w: Int32, h: Int32, landmarkValid: bool): Face
    requires w > 0 && h > 0
  {
    var none := Point(NO_LANDMARK, NO_LANDMARK);
    Face(d.id, d.score, MapBox(d.box, w, h),
         if landmarkValid
         then Landmarks(MapPoint(d.marks.leftEye, w, h), MapPoint(d.marks.rightEye, w, h),
                        MapPoint(d.marks.mouth, w, h))
         else Landmarks(none, none, none))
  }

  /** What a mapped face is, told by its numbers: id and score are copied; left and right go over
      the width and top and bottom over the height, in a frame from -1000 to 1000, the far edges
      as sums; each landmark is the mapping of its own point, or all are (-2000, -2000). */
  predicate FaceIs(d: Detected, f: Face, w: Int32, h: Int32, landmarkValid: bool)
    requires w > 0 && h > 0
  {
    && f.id == d.id && f.score == d.score
    && f.rect.left == MapCoordinate(d.box.left, w, -1000) && f.rect.top == MapCoordinate(d.box.top, h, -1000)
    && f.rect.right == Wrap(f.rect.left + MapCoordinate(d.box.width, w, 0))
    && f.rect.bottom == Wrap(f.rect.top + MapCoordinate(d.box.height, h, 0))
    && (if landmarkValid then
          && MarkIs(d.marks.leftEye, f.marks.leftEye, w, h)
          && MarkIs(d.marks.rightEye, f.marks.rightEye, w, h)
          && MarkIs(d.marks.mouth, f.marks.mouth, w, h)
        else
          f.marks.leftEye == f.marks.rightEye == f.marks.mouth == Point(-2000, -2000))
  }

  predicate MarkIs(p: Point, m: Point, w: Int32, h: Int32)
    requires w > 0 && h > 0
  {
    m.x == MapCoordinate(p.x, w, -1000) && m.y == MapCoordinate(p.y, h, -1000)
  }

  /** A box inside the frame. */
  predicate Inside(b: Box, w: Int32, h: Int32) {
    && 0 < w <= MAX_DIM && 0 < h <= MAX_DIM
    && 0 <= b.left && 0 <= b.width && b.left + b.width <= w
    && 0 <= b.top && 0 <= b.height && b.top + b.height <= h
  }

  /** The edges of one dimension, in order and in range: the near edge is the mapped one, the far
      edge the directly mapped one or one below, exactly by the remainders. */
  predicate EdgesAre(low: int, high: int, at: Int32, len: Int32, base: Int32)
    requires base > 0 && 0 <= at && 0 <= len && at + len <= base
  {
    && -1000 <= low <= high <= 1000
    && (low + 1000) * base <= at * 2000 < (low + 1001) * base
    && high == ExactCoordinate(at + len, base, -1000)
               - (if at * 2000 % base + len * 2000 % base >= base then 1 else 0)
  }

  /** The mapping loop of processFaceDetectionResult, on a preview of size w x h. */
  method MapFaces(detected: seq<Detected>, landmarkValid: bool, w: Int32, h: Int32) returns (r: int, faces: array<Face>)
    ensures fresh(faces)
    ensures w <= 0 || h <= 0 ==> r == UNKNOWN_ERROR && faces.Length == 0
    ensures w > 0 && h > 0 ==>
              r == NO_ERROR && faces.Length == |detected|
              && forall i :: 0 <= i < |detected| ==>
                   && faces[i] == MapFace(detected[i], w, h, landmarkValid)
                   && FaceIs(detected[i], faces[i], w, h, landmarkValid)
                   && var b, f := detected[i].box, faces[i].rect;
                   Inside(b, w, h) ==>
                     && EdgesAre(f.left, f.right, b.left, b.width, w)
                     && EdgesAre(f.top, f.bottom, b.top, b.height, h)
  {
    hide MapCoordinate, Wrap, EdgesAre;
    if w <= 0 || h <= 0 {
      faces := new Face[0];
      return UNKNOWN_ERROR, faces;
    }
    var none := Point(NO_LANDMARK, NO_LANDMARK);
    var blank := Face(0, 0, Rect(0, 0, 0, 0), Landmarks(none, none, none));
    faces := new Face[|detected|](_ => blank);
    for i := 0 to |detected|
      invariant forall k :: 0 <= k < i ==> faces[k] == MapFace(detected[k], w, h, landmarkValid)
    {
      var b := detected[i].box;
      var left, top := MapCoordinate(b.left, w, OFFSET), MapCoordinate(b.top, h, OFFSET);
      var width: int, height: int := MapCoordinate(b.width, w, 0), MapCoordinate(b.height, h, 0);
      var right, bottom := Wrap(left + width), Wrap(top + height);
      var marks := Landmarks(none, none, none);
      if landmarkValid {
        marks := Landmarks(MapPoint(detected[i].marks.leftEye, w, h), MapPoint(detected[i].marks.rightEye, w, h),
                           MapPoint(detected[i].marks.mouth, w, h));
      }
      faces[i] := Face(detected[i].id, detected[i].score, Rect(left, top, right, bottom), marks);
    }
    forall i | 0 <= i < |detected| {
      MapFaceIs(detected[i], w, h, landmarkValid);
    }
    r := NO_ERROR;
  }

  /** The face the loop computes is that, and its edges are as said. */
  lemma MapFaceIs(d: Detected, w: Int32, h: Int32, landmarkValid: bool)
    requires w > 0 && h > 0
    ensures var f := MapFace(d, w, h, landmarkValid);
            && FaceIs(d, f, w, h, landmarkValid)
            && (Inside(d.box, w, h) ==>
                  && EdgesAre(f.rect.left, f.rect.right, d.box.left, d.box.width, w)
                  && EdgesAre(f.rect.top, f.rect.bottom, d.box.top, d.box.height, h))
  {
    hide MapCoordinate, Wrap, EdgesAre;
    if Inside(d.box, w, h) {
      EdgesExact(d.box.left, d.box.width, w);
      EdgesExact(d.box.top, d.box.height, h);
    }
  }

  // ---------- What the mapping means ----------

  /** A coordinate inside the frame maps into the range, and larger ones map no lower. */
  lemma CoordinateRange(val: int, base: int)
    requires 0 <= val <= base && base > 0
    ensures 0 <= ExactCoordinate(val, base, 0) <= SCALE
    ensures ExactCoordinate(0, base, 0) == 0 && ExactCoordinate(base, base, 0) == SCALE
  {
    Bounds(val * SCALE, base);
    assert val * SCALE <= base * SCALE;
    QuotientUnique(base * SCALE, base, SCALE, 0);
    QuotientUnique(0, base, 0, 0);
    var q := val * SCALE / base;
    assert (q - SCALE) * base == q * base - SCALE * base;
    AtLeastOne(q - SCALE, base);
  }

  lemma Bounds(a: int, b: int)
    requires a >= 0 && b > 0
    ensures a == a / b * b + a % b && 0 <= a % b < b && 0 <= a / b
  {
  }

  lemma AtLeastOne(d: int, b: int)
    requires b > 0
    ensures d > 0 ==> d * b >= b
    ensures d < 0 ==> d * b <= -b
  {
  }

  lemma QuotientUnique(a: int, b: int, q: int, r: int)
    requires b > 0 && a == q * b + r && 0 <= r < b
    ensures a / b == q && a % b == r
  {
    var d := a / b - q;
    assert d * b == r - a % b;
    AtLeastOne(d, b);
  }

  /** Two truncated parts against the truncated whole: one less exactly when the two remainders
      together make up a whole unit. */
  lemma TwoParts(x: int, y: int, base: int)
    requires 0 <= x && 0 <= y && base > 0
    ensures ExactCoordinate(x + y, base, 0) ==
            ExactCoordinate(x, base, 0) + ExactCoordinate(y, base, 0)
            + if x * SCALE % base + y * SCALE % base >= base then 1 else 0
  {
    var a, b := x * SCALE, y * SCALE;
    Bounds(a, base);
    Bounds(b, base);
    assert (x + y) * SCALE == a + b;
    var carry := if a % base + b % base >= base then 1 else 0;
    var q := a / base + b / base + carry;
    assert q * base == a / base * base + b / base * base + carry * base;
    QuotientUnique(a + b, base, q, a % base + b % base - carry * base);
  }

  // ---------- 32-bit arithmetic ----------

  lemma WrapFits(v: int)
    ensures -0x8000_0000 <= v <= 0x7fff_ffff ==> Wrap(v) == v
    ensures exists k :: Wrap(v) == v + k * 0x1_0000_0000
  {
    var q := (v + 0x8000_0000) / 0x1_0000_0000;
    assert Wrap(v) == v + (-q) * 0x1_0000_0000;
  }

  /** Inside +-1073741 the 32-bit product fits, and the mapping is the exact one. */
  lemma NoWrap(val: Int32, base: Int32, offset: int)
    requires base > 0 && -MAX_DIM <= val <= MAX_DIM && offset in {0, OFFSET}
    ensures MapCoordinate(val, base, offset) == ExactCoordinate(val, base, offset)
  {
    var p: int := val * SCALE;
    WrapFits(p);
    QuotientSmaller(p, base);
    WrapFits(Quotient(p, base) + offset);
  }

  lemma QuotientSmaller(a: int, b: int)
    requires b > 0
    ensures a >= 0 ==> 0 <= Quotient(a, b) <= a
    ensures a < 0 ==> a <= Quotient(a, b) <= 0
  {
    var m := if a >= 0 then a else -a;
    Bounds(m, b);
    AtLeast(m / b, b);
  }

  lemma AtLeast(q: int, b: int)
    requires q >= 0 && b > 0
    ensures q * b >= q
  {
  }

  /** And for every frame at least two pixels wide only there: outside, the wrapped product gives
      another coordinate. */
  lemma WrapsExactly(val: Int32, base: Int32, offset: int)
    requires base >= 2 && offset in {0, OFFSET}
    ensures MapCoordinate(val, base, offset) == ExactCoordinate(val, base, offset) <==> -MAX_DIM <= val <= MAX_DIM
  {
    if -MAX_DIM <= val <= MAX_DIM {
      NoWrap(val, base, offset);
    } else {
      var p: int := val * SCALE;
      var w: int := Wrap(p);
      Shifted(p, w, base);
      var q, r := Quotient(p, base), Quotient(w, base);
      HalfRange(w, base);
      WrapFits(r + offset);
      assert MapCoordinate(val, base, offset) == r + offset;
      assert ExactCoordinate(val, base, offset) == q + offset;
    }
  }

  /** A product that does not fit is a whole multiple of 2^32 away from its wrapped value, more
      than two frames, so the quotients differ. */
  lemma Shifted(p: int, w: int, base: Int32)
    requires base >= 2 && w == Wrap(p) && !(-0x8000_0000 <= p <= 0x7fff_ffff)
    ensures Quotient(p, base) != Quotient(w, base)
  {
    WrapFits(p);
    if p > 0 {
      assert p - w >= 0x1_0000_0000;
      if Quotient(p, base) == Quotient(w, base) {
        Near(p, w, base);
        assert false;
      }
    } else {
      assert w - p >= 0x1_0000_0000;
      if Quotient(p, base) == Quotient(w, base) {
        Near(w, p, base);
        assert false;
      }
    }
  }

  /** Equal quotients mean less than two divisors apart. */
  lemma Near(a: int, b: int, base: int)
    requires base > 0 && Quotient(a, base) == Quotient(b, base)
    ensures a - b < 2 * base
  {
    Bounds(if a >= 0 then a else -a, base);
    Bounds(if b >= 0 then b else -b, base);
  }

  lemma HalfRange(w: int, base: int)
    requires base >= 2 && -0x8000_0000 <= w <= 0x7fff_ffff
    ensures -0x4000_0000 <= Quotient(w, base) <= 0x4000_0000
  {
    var m := if w >= 0 then w else -w;
    Bounds(m, base);
    Doubled(m / base, base);
  }

  lemma Doubled(q: int, base: int)
    requires q >= 0 && base >= 2
    ensures q * base >= 2 * q
  {
  }

  // ---------- Boxes and points ----------

  /** For a box inside the frame the edges are in order and in range, and the right and bottom
      edges are the directly mapped ones or one below, exactly by the remainders. */
  lemma BoxInFrame(b: Box, w: Int32, h: Int32)
    requires 0 < w <= MAX_DIM && 0 < h <= MAX_DIM
    requires 0 <= b.left && 0 <= b.width && b.left + b.width <= w
    requires 0 <= b.top && 0 <= b.height && b.top + b.height <= h
    ensures var r := MapBox(b, w, h);
            && -1000 <= r.left <= r.right <= 1000 && -1000 <= r.top <= r.bottom <= 1000
            && r.right == MapCoordinate(b.left + b.width, w, OFFSET)
                          - (if b.left * SCALE % w + b.width * SCALE % w >= w then 1 else 0)
            && r.bottom == MapCoordinate(b.top + b.height, h, OFFSET)
                           - (if b.top * SCALE % h + b.height * SCALE % h >= h then 1 else 0)
  {
    hide MapCoordinate, ExactCoordinate, Wrap;
    EdgesInFrame(b.left, b.width, w);
    EdgesInFrame(b.top, b.height, h);
  }

  /** One dimension of a box inside the frame. */
  lemma EdgesInFrame(at: Int32, len: Int32, base: Int32)
    requires 0 < base <= MAX_DIM && 0 <= at && 0 <= len && at + len <= base
    ensures var low := MapCoordinate(at, base, OFFSET);
            var high := Wrap(low + MapCoordinate(len, base, 0));
            && -1000 <= low <= high <= 1000
            && high == MapCoordinate(at + len, base, OFFSET)
                       - (if at * SCALE % base + len * SCALE % base >= base then 1 else 0)
  {
    hide MapCoordinate, ExactCoordinate, Wrap;
    var end: int := at + len;
    AsExactIs(at, base);
    AsExactIs(len, base);
    AsExactIs(end, base);
    CoordinateRange(at, base);
    CoordinateRange(len, base);
    CoordinateRange(end, base);
    TwoParts(at, len, base);
    OffsetAdds(at, base);
    OffsetAdds(end, base);
    WrapFits(MapCoordinate(at, base, OFFSET) + MapCoordinate(len, base, 0));
  }

  /** The same edges, the near one exactly. */
  lemma EdgesExact(at: Int32, len: Int32, base: Int32)
    requires 0 < base <= MAX_DIM && 0 <= at && 0 <= len && at + len <= base
    ensures var low := MapCoordinate(at, base, OFFSET);
            EdgesAre(low, Wrap(low + MapCoordinate(len, base, 0)), at, len, base)
  {
    hide MapCoordinate, Wrap;
    var end: int := at + len;
    EdgesInFrame(at, len, base);
    AsExactIs(at, base);
    AsExactIs(end, base);
    Bounds(at * SCALE, base);
    NearEdge(at * SCALE, base, at * SCALE / base);
  }

  lemma NearEdge(a: int, base: int, q: int)
    requires base > 0 && a >= 0 && q == a / base && a == q * base + a % base && 0 <= a % base < base
    ensures q * base <= a < (q + 1) * base
  {
  }

  /** Truncation is towards zero: a negative coordinate maps to the negative of its opposite. */
  lemma MapIsOdd(val: int, base: int)
    requires base > 0
    ensures ExactCoordinate(-val, base, 0) == -ExactCoordinate(val, base, 0)
  {
    assert -val * SCALE == -(val * SCALE);
    Bounds(if val >= 0 then val * SCALE else -val * SCALE, base);
  }

  /** No product of this value overflows. */
  predicate AsExact(v: Int32, base: Int32)
    requires base > 0
  {
    MapCoordinate(v, base, 0) == ExactCoordinate(v, base, 0)
    && MapCoordinate(v, base, OFFSET) == ExactCoordinate(v, base, OFFSET)
  }

  lemma AsExactIs(v: Int32, base: Int32)
    requires 0 <= v <= base && 0 < base <= MAX_DIM
    ensures AsExact(v, base)
  {
    NoWrap(v, base, 0);
    NoWrap(v, base, OFFSET);
  }

  lemma OffsetAdds(val: int, base: int)
    requires base > 0
    ensures ExactCoordinate(val, base, OFFSET) == ExactCoordinate(val, base, 0) - 1000
  {
  }

  /** A landmark inside the frame maps into the range, on the edges exactly. */
  lemma PointInFrame(p: Point, w: Int32, h: Int32)
    requires 0 < w <= MAX_DIM && 0 < h <= MAX_DIM && 0 <= p.x <= w && 0 <= p.y <= h
    ensures -1000 <= MapPoint(p, w, h).x <= 1000 && -1000 <= MapPoint(p, w, h).y <= 1000
    ensures MapPoint(Point(0, 0), w, h) == Point(-1000, -1000) && MapPoint(Point(w, h), w, h) == Point(1000, 1000)
  {
    hide MapCoordinate, ExactCoordinate;
    AsExactIs(p.x, w);
    AsExactIs(0, w);
    AsExactIs(w, w);
    AsExactIs(p.y, h);
    AsExactIs(0, h);
    AsExactIs(h, h);
    CoordinateRange(p.x, w);
    CoordinateRange(p.y, h);
    OffsetAdds(p.x, w);
    OffsetAdds(p.y, h);
    OffsetAdds(0, w);
    OffsetAdds(0, h);
    OffsetAdds(w, w);
    OffsetAdds(h, h);
  }

  /** The truncating map keeps the order of coordinates, also outside the frame; the 32-bit one
      wherever its products fit. */
  lemma MapMonotone(a: int, b: int, base: int, offset: int)
    requires base > 0 && a <= b
    ensures ExactCoordinate(a, base, offset) <= ExactCoordinate(b, base, offset)
    ensures -MAX_DIM <= a && b <= MAX_DIM && base <= 0x7fff_ffff && offset in {0, OFFSET} ==>
              MapCoordinate(a, base, offset) <= MapCoordinate(b, base, offset)
  {
    QuotientMonotone(a * SCALE, b * SCALE, base);
    if -MAX_DIM <= a && b <= MAX_DIM && base <= 0x7fff_ffff && offset in {0, OFFSET} {
      NoWrap(a, base, offset);
      NoWrap(b, base, offset);
    }
  }

  lemma QuotientMonotone(x: int, y: int, base: int)
    requires base > 0 && x <= y
    ensures Quotient(x, base) <= Quotient(y, base)
  {
    if x >= 0 {
      DivMonotone(x, y, base);
    } else if y < 0 {
      DivMonotone(-y, -x, base);
    } else {
      Bounds(-x, base);
      Bounds(y, base);
    }
  }

  lemma DivMonotone(x: int, y: int, base: int)
    requires base > 0 && 0 <= x <= y
    ensures x / base <= y / base
  {
    Bounds(x, base);
    Bounds(y, base);
    var d := y / base - x / base;
    assert d * base == y - x - y % base + x % base;
    AtLeastOne(d, base);
  }
}
