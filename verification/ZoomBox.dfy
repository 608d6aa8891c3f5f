/** The zoom-in tool's crop: clamp a requested box to the image, grow it when it is too small, and
    give whole-pixel coordinates. Coordinates are real numbers. */
module ZoomBox {
  import opened Options
  import opened Reals

  const MIN_DIMENSION := 28

  datatype Box = Box(left: real, top: real, right: real, bottom: real)

  function Width(b: Box): real {
    b.right - b.left
  }

  function Height(b: Box): real {
    b.bottom - b.top
  }

  function Ceil(x: real): int {
    -(-x).Floor
  }

  /** `_validate_bbox`. */
  predicate Validate(b: Box) {
    b.left < b.right && b.top < b.bottom && Max(Height(b), Width(b)) / Min(Height(b), Width(b)) <= 100.0
  }

  function Clamp(b: Box, width: nat, height: nat): Box {
    Box(Max(0.0, b.left), Max(0.0, b.top), Min(width as real, b.right), Min(height as real, b.bottom))
  }

  predicate Inside(b: Box, width: nat, height: nat) {
    0.0 <= b.left && 0.0 <= b.top && b.right <= width as real && b.bottom <= height as real
  }

  predicate Contains(outer: Box, inner: Box) {
    outer.left <= inner.left && outer.top <= inner.top && inner.right <= outer.right && inner.bottom <= outer.bottom
  }

  predicate TooSmall(b: Box) {
    Height(b) < MIN_DIMENSION as real || Width(b) < MIN_DIMENSION as real
  }

  /** Both sides in whole pixels, as the final check counts them. */
  predicate BigEnough(b: Box) {
    b.bottom.Floor - b.top.Floor >= MIN_DIMENSION && b.right.Floor - b.left.Floor >= MIN_DIMENSION
  }

  // ----- the reference -----

  function Ratio(a: real, b: real): real
    requires b != 0.0
  {
    a / b
  }

  function Scaled(side: real, k: real): real {
    side * k
  }

  /** The largest factor that neither overshoots the minimum side nor leaves the image. */
  function Scale(b: Box, width: nat, height: nat): real
    requires Width(b) > 0.0 && Height(b) > 0.0
  {
    Min(Ratio(MIN_DIMENSION as real, Min(Height(b), Width(b))),
      Min(Ratio(width as real, Width(b)), Ratio(height as real, Height(b))))
  }

  /** Where an interval of this size goes: about the centre, moved no further than the image asks. */
  function Place(center: real, size: real, limit: real): real {
    Min(limit - size, Max(0.0, center - size / 2.0))
  }

  /** The grown box before rounding. */
  function Grown(b: Box, width: nat, height: nat): Box
    requires Width(b) > 0.0 && Height(b) > 0.0
  {
    var k := Scale(b, width, height);
    var w, h := Scaled(Width(b), k), Scaled(Height(b), k);
    var left := Place((b.left + b.right) / 2.0, w, width as real);
    var top := Place((b.top + b.bottom) / 2.0, h, height as real);
    Box(left, top, left + w, top + h)
  }

  function Rounded(b: Box): Box {
    Box(b.left.Floor as real, b.top.Floor as real, Ceil(b.right) as real, Ceil(b.bottom) as real)
  }

  /** The box the final checks see. */
  function Candidate(b: Box, width: nat, height: nat): Box
    requires Width(b) > 0.0 && Height(b) > 0.0
  {
    if TooSmall(b) then Rounded(Grown(b, width, height)) else b
  }

  // ----- facts about real division -----

  lemma RatioTimes(a: real, b: real)
    requires b != 0.0
    ensures Ratio(a, b) * b == a
    ensures a > 0.0 && b > 0.0 ==> Ratio(a, b) > 0.0
  {
  }

  lemma FactorAtLeastOne(k: real, b: real)
    requires b > 0.0 && k * b >= b
    ensures k >= 1.0
  {
    assert (k - 1.0) * b >= 0.0;
  }

  lemma RatioAtLeastOne(a: real, b: real)
    requires 0.0 < b <= a
    ensures Ratio(a, b) >= 1.0
  {
    hide Ratio;
    RatioTimes(a, b);
    var k := Ratio(a, b);
    assert k * b == a;
    FactorAtLeastOne(k, b);
  }

  lemma TimesMonotone(a: real, b: real, k: real)
    requires a <= b && k >= 0.0
    ensures a * k <= b * k
  {
  }

  lemma FactorFits(k: real, limit: real, side: real)
    requires side > 0.0 && side <= limit && 1.0 <= k <= Ratio(limit, side)
    ensures side <= Scaled(side, k) <= limit
  {
    hide Ratio;
    RatioTimes(limit, side);
    TimesMonotone(k, Ratio(limit, side), side);
    TimesMonotone(1.0, k, side);
  }

  lemma FloorBounds(x: real, n: int)
    requires 0.0 <= x <= n as real
    ensures 0 <= x.Floor && x.Floor as real <= x <= Ceil(x) as real && Ceil(x) <= n
  {
  }

  /** Scaling a grown side by what the other side needs is scaling the original side directly. */
  lemma Rescale(side: real, other: real, k: real, limit: real)
    requires other > 0.0 && k > 0.0
    ensures Scaled(other, k) > 0.0
              && Scaled(side, k) * Ratio(limit, Scaled(other, k)) == Scaled(side, Ratio(limit, other))
    ensures Scaled(other, Ratio(limit, other)) == limit
    ensures Scaled(other, k) > limit <==> k > Ratio(limit, other)
  {
    hide Ratio;
    var q, p := Ratio(limit, other * k), Ratio(limit, other);
    assert other * k > 0.0;
    RatioTimes(limit, other * k);
    RatioTimes(limit, other);
    Products(side, other, k, limit, q, p);
  }

  lemma Products(side: real, other: real, k: real, limit: real, q: real, p: real)
    requires other > 0.0 && q * (other * k) == limit && p * other == limit
    ensures side * k * q == side * p && other * p == limit
    ensures other * k > limit <==> k > p
  {
    assert q * (other * k) == q * k * other;
    SameFactor(q * k, p, other);
    assert side * k * q == side * (q * k);
    assert other * p == p * other;
    Exceeds(other, k, p);
  }

  lemma SameFactor(a: real, b: real, c: real)
    requires c != 0.0 && a * c == b * c
    ensures a == b
  {
    assert (a - b) * c == 0.0;
  }

  lemma Exceeds(side: real, k: real, p: real)
    requires side > 0.0
    ensures side * k > side * p <==> k > p
  {
    assert side * k - side * p == side * (k - p);
  }

  // ----- growing -----

  /** The factor is at least 1, and the grown sides fit the image. */
  lemma ScaleFits(b: Box, width: nat, height: nat)
    requires Inside(b, width, height) && Width(b) > 0.0 && Height(b) > 0.0 && TooSmall(b)
    ensures var k := Scale(b, width, height);
            && k >= 1.0
            && Width(b) <= Scaled(Width(b), k) <= width as real
            && Height(b) <= Scaled(Height(b), k) <= height as real
  {
    hide Ratio, Scaled;
    var w, h, k := Width(b), Height(b), Scale(b, width, height);
    RatioAtLeastOne(MIN_DIMENSION as real, Min(h, w));
    RatioAtLeastOne(width as real, w);
    RatioAtLeastOne(height as real, h);
    hide Width, Height;
    FactorFits(k, width as real, w);
    FactorFits(k, height as real, h);
  }

  /** One axis: a grown interval that is at least as long contains the old one and stays inside. */
  lemma PlaceContains(lo: real, hi: real, size: real, limit: real)
    requires 0.0 <= lo < hi <= limit && hi - lo <= size <= limit
    ensures var p := Place((lo + hi) / 2.0, size, limit); 0.0 <= p <= lo && hi <= p + size <= limit
  {
  }

  /** The grown box contains the box, stays in the image and keeps the box's shape. */
  lemma GrownContains(b: Box, width: nat, height: nat)
    requires Inside(b, width, height) && Width(b) > 0.0 && Height(b) > 0.0 && TooSmall(b)
    ensures var g := Grown(b, width, height);
            && Inside(g, width, height) && Contains(g, b)
            && Width(g) * Height(b) == Height(g) * Width(b)
  {
    hide Scaled, Scale, Place, Contains, Width, Height;
    ScaleFits(b, width, height);
    var k := Scale(b, width, height);
    var w, h := Scaled(Width(b), k), Scaled(Height(b), k);
    SameShape(Width(b), Height(b), k);
    AxesContain(b, Grown(b, width, height), w, h, width, height);
  }

  lemma AxesContain(b: Box, g: Box, w: real, h: real, width: nat, height: nat)
    requires Inside(b, width, height) && 0.0 < Width(b) <= w <= width as real && 0.0 < Height(b) <= h <= height as real
    requires g.left == Place((b.left + b.right) / 2.0, w, width as real) && g.right == g.left + w
    requires g.top == Place((b.top + b.bottom) / 2.0, h, height as real) && g.bottom == g.top + h
    ensures Inside(g, width, height) && Contains(g, b) && Width(g) == w && Height(g) == h
  {
    hide Place;
    PlaceContains(b.left, b.right, w, width as real);
    PlaceContains(b.top, b.bottom, h, height as real);
  }

  lemma SameShape(w: real, h: real, k: real)
    ensures Scaled(w, k) * h == Scaled(h, k) * w
  {
  }

  lemma RoundedContains(b: Box, width: nat, height: nat)
    requires Inside(b, width, height) && b.left < b.right && b.top < b.bottom
    ensures Inside(Rounded(b), width, height) && Contains(Rounded(b), b)
  {
    hide Ceil;
    FloorBounds(b.left, width);
    FloorBounds(b.right, width);
    FloorBounds(b.top, height);
    FloorBounds(b.bottom, height);
  }

  // ----- the tool's function -----

  /** What `_maybe_resize_bbox` returns, in one expression. */
  function Outcome(request: Box, width: nat, height: nat): Option<Box> {
    var b := Clamp(request, width, height);
    if !Validate(b) then None
    else
      var c := Candidate(b, width, height);
      if Validate(c) && BigEnough(c) then Some(c) else None
  }

  /** `_maybe_resize_bbox`. The source's test for a zero side after validation cannot succeed. */
  method MaybeResizeBbox(request: Box, width: nat, height: nat) returns (r: Option<Box>)
    ensures r == Outcome(request, width, height)
    ensures r.Some? ==>
              Inside(r.value, width, height) && Contains(r.value, Clamp(request, width, height)) && BigEnough(r.value)
  {
    hide Place, Ceil, Scale, Grown, BigEnough;
    var left := Max(0.0, request.left);
    var top := Max(0.0, request.top);
    var right := Min(width as real, request.right);
    var bottom := Min(height as real, request.bottom);
    var b := Box(left, top, right, bottom);
    if !Validate(b) {
      return None;
    }
    var current := b;
    if TooSmall(b) {
      var grown := Resize(b, width, height);
      current := Rounded(grown);
      GrownContains(b, width, height);
      RoundedContains(grown, width, height);
    }
    if !Validate(current) || !BigEnough(current) {
      return None;
    }
    return Some(current);
  }

  /** Step 3 of the source: the target sizes, their scaling down, and the shift into the image. */
  method Resize(b: Box, width: nat, height: nat) returns (g: Box)
    requires Inside(b, width, height) && Width(b) > 0.0 && Height(b) > 0.0 && TooSmall(b)
    ensures g == Grown(b, width, height)
  {
    var w, h := Width(b), Height(b);
    var centerX := (b.left + b.right) / 2.0;
    var centerY := (b.top + b.bottom) / 2.0;
    var targetWidth, targetHeight := TargetSize(b, width, height);
    hide Scale, Scaled;
    var newLeft := centerX - targetWidth / 2.0;
    var newTop := centerY - targetHeight / 2.0;
    if newLeft < 0.0 {
      newLeft := 0.0;
    }
    if newTop < 0.0 {
      newTop := 0.0;
    }
    if newLeft + targetWidth > width as real {
      newLeft := width as real - targetWidth;
    }
    if newTop + targetHeight > height as real {
      newTop := height as real - targetHeight;
    }
    return Box(newLeft, newTop, newLeft + targetWidth, newTop + targetHeight);
  }

  method TargetSize(b: Box, width: nat, height: nat) returns (targetWidth: real, targetHeight: real)
    requires width > 0 && height > 0 && Width(b) > 0.0 && Height(b) > 0.0
    ensures targetWidth == Scaled(Width(b), Scale(b, width, height))
              && targetHeight == Scaled(Height(b), Scale(b, width, height))
  {
    hide Ratio, Width, Height, Scaled;
    var w, h := Width(b), Height(b);
    var ratio := Ratio(MIN_DIMENSION as real, Min(h, w));
    ghost var k := ratio;
    RatioTimes(MIN_DIMENSION as real, Min(h, w));
    targetWidth := Scaled(w, ratio);
    targetHeight := Scaled(h, ratio);
    Rescale(h, w, k, width as real);
    if targetWidth > width as real {
      var scaleDown := Ratio(width as real, targetWidth);
      targetWidth := width as real;
      targetHeight := targetHeight * scaleDown;
      k := Ratio(width as real, w);
      RatioTimes(width as real, w);
    }
    assert targetWidth == Scaled(w, k) && targetHeight == Scaled(h, k) && k == Min(ratio, Ratio(width as real, w));
    Rescale(w, h, k, height as real);
    if targetHeight > height as real {
      var scaleDown := Ratio(height as real, targetHeight);
      targetHeight := height as real;
      targetWidth := targetWidth * scaleDown;
      k := Ratio(height as real, h);
    }
    assert targetWidth == Scaled(w, k) && targetHeight == Scaled(h, k);
    assert k == Min(Min(ratio, Ratio(width as real, w)), Ratio(height as real, h));
  }

  /** The point is in the box. */
  predicate Covers(b: Box, x: real, y: real) {
    b.left <= x <= b.right && b.top <= y <= b.bottom
  }

  /** Clamping keeps exactly the points that are both in the request and in the image. */
  lemma ClampExact(request: Box, width: nat, height: nat)
    ensures forall x, y :: Covers(Clamp(request, width, height), x, y) <==>
              Covers(request, x, y) && Covers(Box(0.0, 0.0, width as real, height as real), x, y)
    ensures Inside(request, width, height) ==> Clamp(request, width, height) == request
  {
  }

  /** Whatever is returned contains all of the request that is in the image. */
  lemma OutcomeCovers(request: Box, width: nat, height: nat, x: real, y: real)
    requires Outcome(request, width, height).Some? && Covers(request, x, y)
    requires Covers(Box(0.0, 0.0, width as real, height as real), x, y)
    ensures Covers(Outcome(request, width, height).value, x, y)
  {
    hide Clamp, Grown, Rounded, BigEnough;
    var b := Clamp(request, width, height);
    ClampExact(request, width, height);
    ClampInside(request, width, height);
    ValidSides(b);
    if TooSmall(b) {
      var g := Grown(b, width, height);
      GrownContains(b, width, height);
      GrownOrdered(b, g);
      RoundedContains(g, width, height);
    }
  }

  /** A request inside the image is all in the box returned, and returned as it is where its sides are large
      enough. */
  lemma RequestInside(request: Box, width: nat, height: nat)
    requires Inside(request, width, height) && Validate(request)
    ensures Outcome(request, width, height).Some? ==> Contains(Outcome(request, width, height).value, request)
    ensures Width(request) >= 28.0 && Height(request) >= 28.0 ==> Outcome(request, width, height) == Some(request)
  {
    hide Outcome, Validate;
    ClampExact(request, width, height);
    if Outcome(request, width, height).Some? {
      ValidSides(request);
      OutcomeCovers(request, width, height, request.left, request.top);
      OutcomeCovers(request, width, height, request.right, request.bottom);
    }
    if Width(request) >= 28.0 && Height(request) >= 28.0 {
      LargeBoxesPass(request, width, height);
    }
  }

  /** A box whose sides are large enough is returned as it is: flooring does not make it smaller. */
  lemma LargeBoxesPass(request: Box, width: nat, height: nat)
    requires var b := Clamp(request, width, height); Validate(b) && Width(b) >= 28.0 && Height(b) >= 28.0
    ensures Outcome(request, width, height) == Some(Clamp(request, width, height))
  {
    var b := Clamp(request, width, height);
    FloorSpan(b.left, b.right);
    FloorSpan(b.top, b.bottom);
  }

  lemma FloorSpan(lo: real, hi: real)
    requires hi - lo >= MIN_DIMENSION as real
    ensures hi.Floor - lo.Floor >= MIN_DIMENSION
  {
  }

  /** The image leaves room for the box to grow until its shorter side has the minimum. */
  predicate Room(b: Box, width: nat, height: nat) {
    var m := Min(Height(b), Width(b));
    && Width(b) * MIN_DIMENSION as real <= width as real * m
    && Height(b) * MIN_DIMENSION as real <= height as real * m
  }

  /** There is room, and the shape is not too close to the limit to survive rounding. */
  predicate RoomToGrow(b: Box, width: nat, height: nat) {
    Room(b, width, height) && Max(Height(b), Width(b)) <= (100.0 - 1.0 / 14.0) * Min(Height(b), Width(b))
  }

  /** A small box with room to grow is never refused. */
  lemma SmallBoxesGrow(request: Box, width: nat, height: nat)
    requires var b := Clamp(request, width, height);
             Validate(b) && (Width(b) < 28.0 || Height(b) < 28.0) && RoomToGrow(b, width, height)
    ensures Outcome(request, width, height).Some?
  {
    hide Grown, Rounded, BigEnough, Validate, RoomToGrow, Clamp;
    var b := Clamp(request, width, height);
    ValidSides(b);
    GrowsWell(b, width, height);
  }

  lemma GrowsWell(b: Box, width: nat, height: nat)
    requires Width(b) > 0.0 && Height(b) > 0.0 && RoomToGrow(b, width, height)
    ensures Validate(Rounded(Grown(b, width, height))) && BigEnough(Rounded(Grown(b, width, height)))
  {
    hide Scaled, Ratio, Scale, Rounded, BigEnough, Place, Validate, Width, Height;
    FullScale(b, width, height);
    var m := Min(Height(b), Width(b));
    var k := Ratio(MIN_DIMENSION as real, m);
    RatioTimes(MIN_DIMENSION as real, m);
    SidesGrow(m, Max(Height(b), Width(b)), k);
    var g, w, h := Grown(b, width, height), Scaled(Width(b), k), Scaled(Height(b), k);
    RoundedPasses(g, w, h);
  }

  lemma ValidSides(b: Box)
    requires Validate(b)
    ensures Width(b) > 0.0 && Height(b) > 0.0
  {
  }

  lemma SidesGrow(small: real, large: real, k: real)
    requires 0.0 < small <= large <= (100.0 - 1.0 / 14.0) * small && k > 0.0 && k * small == 28.0
    ensures 28.0 <= Scaled(small, k) <= Scaled(large, k) <= 2798.0
  {
    TimesMonotone(large, (100.0 - 1.0 / 14.0) * small, k);
    TimesMonotone(small, large, k);
    assert (100.0 - 1.0 / 14.0) * small * k == (100.0 - 1.0 / 14.0) * (k * small);
  }

  lemma RoundedPasses(g: Box, w: real, h: real)
    requires g.right == g.left + w && g.bottom == g.top + h && 28.0 <= w <= 2798.0 && 28.0 <= h <= 2798.0
    ensures Validate(Rounded(g)) && BigEnough(Rounded(g))
  {
    hide Ceil;
    RoundedSpan(g.left, g.right);
    RoundedSpan(g.top, g.bottom);
    var c := Rounded(g);
    ShapeSurvives(Width(c), Height(c));
  }

  /** Nothing is scaled down. */
  lemma FullScale(b: Box, width: nat, height: nat)
    requires Width(b) > 0.0 && Height(b) > 0.0 && Room(b, width, height)
    ensures Scale(b, width, height) == Ratio(MIN_DIMENSION as real, Min(Height(b), Width(b)))
  {
    hide Ratio, Width, Height;
    RatioOrder(MIN_DIMENSION as real, Min(Height(b), Width(b)), width as real, Width(b));
    RatioOrder(MIN_DIMENSION as real, Min(Height(b), Width(b)), height as real, Height(b));
  }

  lemma RatioOrder(a: real, b: real, c: real, d: real)
    requires b > 0.0 && d > 0.0 && d * a <= c * b
    ensures Ratio(a, b) <= Ratio(c, d)
  {
    var p, q := Ratio(a, b), Ratio(c, d);
    RatioTimes(a, b);
    RatioTimes(c, d);
    hide Ratio;
    assert d * (p * b) <= q * d * b;
    assert (q - p) * (b * d) >= 0.0;
    NonNegativeFactor(q - p, b * d);
  }

  lemma NonNegativeFactor(x: real, y: real)
    requires y > 0.0 && x * y >= 0.0
    ensures x >= 0.0
  {
  }

  /** Rounding outwards keeps a side at least as long and adds less than two. */
  lemma RoundedSpan(lo: real, hi: real)
    ensures hi - lo <= Ceil(hi) as real - lo.Floor as real < hi - lo + 2.0
    ensures (Ceil(hi) as real).Floor == Ceil(hi) && (lo.Floor as real).Floor == lo.Floor
  {
  }

  lemma ShapeSurvives(w: real, h: real)
    requires 28.0 <= Min(h, w) && Max(h, w) < 2800.0
    ensures Max(h, w) / Min(h, w) <= 100.0
  {
    var m, x := Min(h, w), Max(h, w);
    RatioTimes(x, m);
    assert Ratio(x, m) * m == x <= 100.0 * m;
    Exceeds(m, Ratio(x, m), 100.0);
  }

  // ----- when a small box is refused -----

  /** Rounded outwards, an interval of this size starting here covers the minimum of whole pixels. */
  predicate RoundsOut(start: real, size: real) {
    size + (start - start.Floor as real) > (MIN_DIMENSION - 1) as real
  }

  predicate NotTooLong(b: Box) {
    Max(Height(b), Width(b)) <= 100.0 * Min(Height(b), Width(b))
  }

  lemma RoundsOutExact(lo: real, hi: real)
    ensures Ceil(hi) - lo.Floor >= MIN_DIMENSION <==> RoundsOut(lo, hi - lo)
  {
    var n := lo.Floor + MIN_DIMENSION - 1;
    assert Ceil(hi) > n <==> hi > n as real;
  }

  lemma ValidExact(b: Box)
    requires b.left < b.right && b.top < b.bottom
    ensures Validate(b) <==> NotTooLong(b)
  {
    var m, x := Min(Height(b), Width(b)), Max(Height(b), Width(b));
    RatioTimes(x, m);
    Exceeds(m, Ratio(x, m), 100.0);
  }

  lemma BigEnoughExact(g: Box)
    ensures BigEnough(Rounded(g)) <==> RoundsOut(g.left, Width(g)) && RoundsOut(g.top, Height(g))
  {
    hide RoundsOut, Ceil;
    RoundsOutExact(g.left, g.right);
    RoundsOutExact(g.top, g.bottom);
    RoundedSpan(g.left, g.right);
    RoundedSpan(g.top, g.bottom);
  }

  /** With room both grown sides have the minimum. */
  lemma RoomIsEnough(b: Box, width: nat, height: nat)
    requires Width(b) > 0.0 && Height(b) > 0.0 && Room(b, width, height)
    ensures BigEnough(Rounded(Grown(b, width, height)))
  {
    hide Scaled, Ratio, Scale, Place, Width, Height, Ceil;
    FullScale(b, width, height);
    var m := Min(Height(b), Width(b));
    var k := Ratio(MIN_DIMENSION as real, m);
    RatioTimes(MIN_DIMENSION as real, m);
    AtLeastMinimum(m, Width(b), k);
    AtLeastMinimum(m, Height(b), k);
    var g := Grown(b, width, height);
    RoundedSpan(g.left, g.right);
    RoundedSpan(g.top, g.bottom);
  }

  lemma AtLeastMinimum(small: real, side: real, k: real)
    requires 0.0 < small <= side && k > 0.0 && k * small == 28.0
    ensures Scaled(side, k) >= 28.0
  {
    TimesMonotone(small, side, k);
  }

  lemma ScaleWithoutRoom(b: Box, width: nat, height: nat)
    requires Width(b) > 0.0 && Height(b) > 0.0 && !Room(b, width, height)
    ensures var k := Scale(b, width, height);
            && k < Ratio(MIN_DIMENSION as real, Min(Height(b), Width(b)))
            && (k == Ratio(width as real, Width(b)) || k == Ratio(height as real, Height(b)))
  {
    hide Ratio, Width, Height;
    RatioExceeds(MIN_DIMENSION as real, Min(Height(b), Width(b)), width as real, Width(b));
    RatioExceeds(MIN_DIMENSION as real, Min(Height(b), Width(b)), height as real, Height(b));
  }

  /** Without room the box fills the image one way, and its shorter side stays below the minimum. */
  lemma NoRoomFills(b: Box, width: nat, height: nat)
    requires Width(b) > 0.0 && Height(b) > 0.0 && !Room(b, width, height)
    ensures var g := Grown(b, width, height);
            && (Width(g) == width as real || Height(g) == height as real)
            && Min(Height(g), Width(g)) < MIN_DIMENSION as real
  {
    hide Ratio, Scaled, Scale, Grown, Width, Height, Room;
    ScaleWithoutRoom(b, width, height);
    ScaledBelow(Min(Height(b), Width(b)), Scale(b, width, height), MIN_DIMENSION as real);
    ScaledTo(Width(b), width as real);
    ScaledTo(Height(b), height as real);
    GrownSides(b, width, height);
  }

  lemma GrownSides(b: Box, width: nat, height: nat)
    requires Width(b) > 0.0 && Height(b) > 0.0
    ensures var g, k := Grown(b, width, height), Scale(b, width, height);
            Width(g) == Scaled(Width(b), k) && Height(g) == Scaled(Height(b), k)
  {
    hide Scaled, Scale, Place;
  }

  lemma ScaledTo(side: real, limit: real)
    requires side > 0.0
    ensures Scaled(side, Ratio(limit, side)) == limit
  {
    hide Ratio;
    RatioTimes(limit, side);
  }

  lemma ScaledBelow(side: real, k: real, limit: real)
    requires side > 0.0 && k < Ratio(limit, side)
    ensures Scaled(side, k) < limit
  {
    hide Ratio;
    RatioTimes(limit, side);
    Exceeds(side, Ratio(limit, side), k);
  }

  lemma RatioExceeds(a: real, b: real, c: real, d: real)
    requires b > 0.0 && d > 0.0
    ensures d * a > c * b ==> Ratio(c, d) < Ratio(a, b)
  {
    hide Ratio;
    if d * a > c * b && Ratio(c, d) >= Ratio(a, b) {
      RatioTimes(a, b);
      RatioTimes(c, d);
      var p, q := Ratio(a, b), Ratio(c, d);
      assert d * a == p * (b * d) && c * b == q * (b * d);
      TimesMonotone(p, q, b * d);
      assert false;
    }
  }

  lemma FloorOfWhole(n: int)
    ensures (n as real).Floor == n
  {
  }

  /** A side that fills the image is not changed by rounding. */
  lemma FilledSide(lo: real, hi: real, limit: nat)
    requires 0.0 <= lo && hi <= limit as real && hi - lo == limit as real
    ensures Ceil(hi) as real - lo.Floor as real == hi - lo
  {
    var n := 0 - limit;
    assert lo == 0.0 && -hi == n as real;
    FloorOfWhole(0);
    FloorOfWhole(n);
  }

  /** What fills the image and rounds out to the minimum both ways is not too long. */
  lemma NoRoomShape(b: Box, g: Box, width: nat, height: nat)
    requires Width(b) > 0.0 && Height(b) > 0.0 && NotTooLong(b)
    requires Inside(g, width, height) && Width(g) * Height(b) == Height(g) * Width(b)
    requires Width(g) == width as real || Height(g) == height as real
    requires Min(Height(g), Width(g)) < MIN_DIMENSION as real && BigEnough(Rounded(g))
    ensures NotTooLong(Rounded(g))
  {
    hide BigEnough, Rounded, Width, Height, Inside;
    ShapeBound(Width(g), Height(g), Width(b), Height(b));
    ShapeBound(Height(g), Width(g), Height(b), Width(b));
    RoundedSides(g, width, height);
    var c := Rounded(g);
    SidesCompare(Width(g), Height(g), Width(c), Height(c));
  }

  /** Rounding adds less than two to a side, and nothing to one that fills the image. */
  lemma RoundedSides(g: Box, width: nat, height: nat)
    requires Inside(g, width, height)
    ensures var c := Rounded(g);
            && Width(g) <= Width(c) < Width(g) + 2.0 && Height(g) <= Height(c) < Height(g) + 2.0
            && (Width(g) == width as real ==> Width(c) == Width(g))
            && (Height(g) == height as real ==> Height(c) == Height(g))
            && (BigEnough(c) ==> Width(c) >= 28.0 && Height(c) >= 28.0)
  {
    hide Ceil;
    RoundedSpan(g.left, g.right);
    RoundedSpan(g.top, g.bottom);
    if Width(g) == width as real {
      FilledSide(g.left, g.right, width);
    }
    if Height(g) == height as real {
      FilledSide(g.top, g.bottom, height);
    }
  }

  lemma SidesCompare(gw: real, gh: real, cw: real, ch: real)
    requires gw >= 0.0 ==> gh <= 100.0 * gw
    requires gh >= 0.0 ==> gw <= 100.0 * gh
    requires Min(gh, gw) < 28.0 && cw >= 28.0 && ch >= 28.0
    requires gw <= cw < gw + 2.0 && gh <= ch < gh + 2.0 && (cw == gw || ch == gh)
    ensures Max(ch, cw) <= 100.0 * Min(ch, cw)
  {
  }

  lemma ShapeBound(x: real, y: real, w: real, h: real)
    requires w > 0.0 && h > 0.0 && w <= 100.0 * h && x * h == y * w
    ensures y >= 0.0 ==> x <= 100.0 * y
  {
    if y >= 0.0 {
      TimesMonotone(w, 100.0 * h, y);
      assert y * w <= 100.0 * y * h;
      assert (100.0 * y - x) * h >= 0.0;
      NonNegativeFactor(100.0 * y - x, h);
    }
  }

  /** A small valid box is refused exactly when, with room to grow, rounding makes it too long, or, without,
      its grown sides do not both round out to the minimum. */
  lemma SmallBoxExact(request: Box, width: nat, height: nat)
    requires var b := Clamp(request, width, height); Validate(b) && (Width(b) < 28.0 || Height(b) < 28.0)
    ensures var b := Clamp(request, width, height);
            && Width(b) > 0.0 && Height(b) > 0.0
            && var g := Grown(b, width, height);
               Outcome(request, width, height).Some? <==>
               if Room(b, width, height) then NotTooLong(Rounded(g))
               else RoundsOut(g.left, Width(g)) && RoundsOut(g.top, Height(g))
  {
    hide Room, NotTooLong, RoundsOut, Grown, Rounded, Validate, BigEnough, Contains, Clamp, Inside;
    var b := Clamp(request, width, height);
    ValidSides(b);
    ClampInside(request, width, height);
    GrownContains(b, width, height);
    var g := Grown(b, width, height);
    GrownOrdered(b, g);
    RoundedOrdered(g);
    ValidExact(Rounded(g));
    BigEnoughExact(g);
    if Room(b, width, height) {
      RoomIsEnough(b, width, height);
    } else if BigEnough(Rounded(g)) {
      ValidExact(b);
      NoRoomFills(b, width, height);
      NoRoomShape(b, g, width, height);
    }
  }

  lemma ClampInside(request: Box, width: nat, height: nat)
    ensures Inside(Clamp(request, width, height), width, height)
  {
  }

  lemma GrownOrdered(b: Box, g: Box)
    requires b.left < b.right && b.top < b.bottom && Contains(g, b)
    ensures g.left < g.right && g.top < g.bottom
  {
  }

  lemma RoundedOrdered(g: Box)
    requires g.left < g.right && g.top < g.bottom
    ensures Rounded(g).left < Rounded(g).right && Rounded(g).top < Rounded(g).bottom
  {
  }
}
