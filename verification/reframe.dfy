/**
 The reframe planner, `determine_scaling_filter`: given the probed source
 frame and the target format, a scale followed by a centred crop. The
 current revision computes the scaled size itself; the older revision picks
 one of four fixed filter templates that leave the arithmetic to ffmpeg.
 */
module Reframe {
  import opened Wrappers
  import opened Aspects

  // ---------------------------------------------------------------------
  // Integer division facts used below

  lemma MulMonotone(x: int, y: int, b: int)
    requires x <= y && b > 0
    ensures x * b <= y * b
  {
  }

  lemma DivAtLeast(a: int, b: int, c: int)
    requires b > 0 && a >= c * b
    ensures a / b >= c
  {
    var q, r := a / b, a % b;
    assert a == q * b + r && 0 <= r < b;
    if q < c {
      MulMonotone(q, c - 1, b);
    }
  }

  lemma DivBelow(a: int, b: int, c: int)
    requires b > 0 && a < c * b
    ensures a / b < c
  {
    var q, r := a / b, a % b;
    assert a == q * b + r && 0 <= r < b;
    if q >= c {
      MulMonotone(c, q, b);
    }
  }

  /** `a / b` is the floor of the exact quotient: `q * b <= a < (q + 1) * b`. */
  lemma FloorDiv(a: int, b: int)
    requires b > 0
    ensures (a / b) * b <= a < (a / b + 1) * b
  {
    var q, r := a / b, a % b;
    assert a == q * b + r && 0 <= r < b;
  }

  // ---------------------------------------------------------------------
  // The current revision

  /** A crop offset as the filter text writes it: `0`, or `(minuend-subtrahend)/2` evaluated by ffmpeg. */
  datatype Offset = Zero | HalfDiff(minuend: int, subtrahend: int)
  {
    function Value(): real
    {
      match this
      case Zero => 0.0
      case HalfDiff(a, b) => (a - b) as real / 2.0
    }
  }

  /** `scale=scaleWidth:scaleHeight,crop=cropWidth:cropHeight:x:y`. */
  datatype ScaleCrop = ScaleCrop(scaleWidth: int, scaleHeight: int, cropWidth: int, cropHeight: int, x: Offset, y: Offset)

  /** The crop window sits in the middle of the scaled frame on both axes. */
  predicate Centred(sc: ScaleCrop) {
    2.0 * sc.x.Value() + sc.cropWidth as real == sc.scaleWidth as real &&
    2.0 * sc.y.Value() + sc.cropHeight as real == sc.scaleHeight as real
  }

  /** The crop window lies inside the scaled frame (given `Centred`, a non-negative offset is enough). */
  predicate WithinFrame(sc: ScaleCrop) {
    0.0 <= sc.x.Value() && 0.0 <= sc.y.Value()
  }

  predicate PositiveFrame(d: Dimensions) {
    d.width > 0 && d.height > 0
  }

  /**
   `determine_scaling_filter`, current revision, with the probed size as
   `src`. `int(target_height * width / height)` is the floor of the exact
   quotient. The crop is always centred; its size is the target frame for
   a portrait target and a square of one target side otherwise.
   */
  function ScalingFor(src: Dimensions, target: Dimensions): (sc: ScaleCrop)
    requires PositiveFrame(src) && PositiveFrame(target)
    ensures Centred(sc)
    ensures target.width < target.height ==> sc.cropWidth == target.width && sc.cropHeight == target.height
    ensures target.width >= target.height ==> sc.cropWidth == sc.cropHeight
    ensures src.width > src.height ==>
      && sc.scaleHeight == target.height
      && sc.scaleWidth * src.height <= target.height * src.width < (sc.scaleWidth + 1) * src.height
    ensures src.width <= src.height ==>
      && sc.scaleWidth == target.width
      && sc.scaleHeight * src.width <= target.width * src.height < (sc.scaleHeight + 1) * src.width
  {
    var tw, th := target.width, target.height;
    if src.width > src.height then
      var newWidth := th * src.width / src.height;
      FloorDiv(th * src.width, src.height);
      if tw < th then ScaleCrop(newWidth, th, tw, th, HalfDiff(newWidth, tw), Zero)
      else ScaleCrop(newWidth, th, th, th, HalfDiff(newWidth, th), Zero)
    else
      var newHeight := tw * src.height / src.width;
      FloorDiv(tw * src.height, src.width);
      if tw < th then ScaleCrop(tw, newHeight, tw, th, Zero, HalfDiff(newHeight, th))
      else ScaleCrop(tw, newHeight, tw, tw, Zero, HalfDiff(newHeight, tw))
  }

  /** The filter for a named format: only the format's numeric size matters. */
  function DetermineScalingFilter(src: Dimensions, aspect: Aspect): ScaleCrop
    requires PositiveFrame(src)
  {
    ScalingFor(src, Size(aspect))
  }

  /**
   `determine_scaling_filter` with its error path, for the non-negative
   sizes ffprobe reports. A zero height raises `ZeroDivisionError` at
   `width / height`. A zero width makes the aspect 0, which is never
   landscape, and then raises at `target_width / video_aspect`. Every
   other size gives the filter.
   */
  function ScalingForChecked(src: Dimensions, target: Dimensions): (r: Option<ScaleCrop>)
    requires src.width >= 0 && src.height >= 0 && PositiveFrame(target)
    ensures r.None? <==> src.width == 0 || src.height == 0
    ensures r.Some? ==> PositiveFrame(src) && r.value == ScalingFor(src, target)
  {
    if src.height == 0 || src.width == 0 then None else Some(ScalingFor(src, target))
  }

  /** Reel and TikTok are the same 9:16 frame, so they are reframed identically. */
  lemma ReelAndTikTokAgree(src: Dimensions)
    requires PositiveFrame(src)
    ensures DetermineScalingFilter(src, InstagramReel) == DetermineScalingFilter(src, TikTok)
  {
    ReelAndTikTokSameFrame();
  }

  /**
   Portrait target, landscape source: scaled to the target height, which
   makes the frame wider than the target, so the crop is exactly the
   target, shifted right by a non-negative amount and not at all vertically.
   */
  lemma PortraitFromLandscape(src: Dimensions, target: Dimensions)
    requires PositiveFrame(src) && PositiveFrame(target)
    requires target.width < target.height && src.width > src.height
    ensures var sc := ScalingFor(src, target);
      && sc.cropWidth == target.width && sc.cropHeight == target.height
      && sc.scaleHeight == target.height
      && sc.scaleWidth >= target.height > target.width
      && sc.x.Value() >= 0.0 && sc.y.Value() == 0.0
  {
    DivAtLeast(target.height * src.width, src.height, target.height);
  }

  /**
   Portrait target, source not wider than tall: the vertical offset is
   non-negative exactly when the source is at most as wide, relative to its
   height, as the target (width/height <= 9/16 for the table's formats).
   */
  lemma PortraitFromTallFitsIff(src: Dimensions, target: Dimensions)
    requires PositiveFrame(src) && PositiveFrame(target)
    requires target.width < target.height && src.width <= src.height
    ensures WithinFrame(ScalingFor(src, target)) <==> src.width * target.height <= target.width * src.height
  {
    var a := target.width * src.height;
    if src.width * target.height <= a {
      assert a >= target.height * src.width;
      DivAtLeast(a, src.width, target.height);
    } else {
      assert a < target.height * src.width;
      DivBelow(a, src.width, target.height);
    }
  }

  /** For a square target every source fits. */
  lemma SquareTargetFits(src: Dimensions, target: Dimensions)
    requires PositiveFrame(src) && PositiveFrame(target)
    requires target.width == target.height
    ensures WithinFrame(ScalingFor(src, target))
  {
    if src.width > src.height {
      DivAtLeast(target.height * src.width, src.height, target.height);
    } else {
      DivAtLeast(target.width * src.height, src.width, target.width);
    }
  }

  /**
   A square 1080x1080 source for a 9:16 target is scaled to 1080x1080 and
   then cropped to 1080x1920 at vertical offset (1080-1920)/2 = -420: the
   crop window is taller than the frame it is cut from.
   */
  lemma SquareSourceForReelEscapesFrame()
    ensures var sc := DetermineScalingFilter(Dimensions(1080, 1080), InstagramReel);
      && sc.scaleHeight == 1080 && sc.cropHeight == 1920
      && sc.y.Value() == -420.0
      && !WithinFrame(sc)
  {
  }

  // ---------------------------------------------------------------------
  // Corrected planner

  /**
   Fill-then-crop decided by comparing the two aspect ratios numerically
   (`src.width/src.height` against `target.width/target.height`) instead
   of comparing the source against 1: a wider source is scaled to the
   target height, any other to the target width. The crop is then always
   the target frame and always inside the scaled frame.
   */
  function ScalingForFill(src: Dimensions, target: Dimensions): (sc: ScaleCrop)
    requires PositiveFrame(src) && PositiveFrame(target)
    ensures Centred(sc) && WithinFrame(sc)
    ensures sc.cropWidth == target.width && sc.cropHeight == target.height
    ensures sc.scaleWidth >= target.width && sc.scaleHeight >= target.height
    ensures src.width * target.height > target.width * src.height ==>
      && sc.scaleHeight == target.height
      && sc.scaleWidth * src.height <= target.height * src.width < (sc.scaleWidth + 1) * src.height
    ensures src.width * target.height <= target.width * src.height ==>
      && sc.scaleWidth == target.width
      && sc.scaleHeight * src.width <= target.width * src.height < (sc.scaleHeight + 1) * src.width
  {
    var tw, th := target.width, target.height;
    if src.width * th > tw * src.height then
      var newWidth := th * src.width / src.height;
      DivAtLeast(th * src.width, src.height, tw);
      FloorDiv(th * src.width, src.height);
      ScaleCrop(newWidth, th, tw, th, HalfDiff(newWidth, tw), Zero)
    else
      var newHeight := tw * src.height / src.width;
      DivAtLeast(tw * src.height, src.width, th);
      FloorDiv(tw * src.height, src.width);
      ScaleCrop(tw, newHeight, tw, th, Zero, HalfDiff(newHeight, th))
  }

  /**
   The corrected planner for a named format: what `determine_scaling_filter`
   evidently intends for every source, a crop of exactly the format's frame
   from inside the scaled source.
   */
  function PlanReframe(src: Dimensions, aspect: Aspect): (sc: ScaleCrop)
    requires PositiveFrame(src)
    ensures Centred(sc) && WithinFrame(sc)
    ensures sc.cropWidth == Size(aspect).width && sc.cropHeight == Size(aspect).height
  {
    ScalingForFill(src, Size(aspect))
  }

  /**
   For every format in the table the planner as written and the corrected
   one produce the same filter exactly when the written one keeps its crop
   inside the frame; the only disagreement is the escaping crop.
   */
  lemma AsWrittenAgreesWhenInside(src: Dimensions, target: Dimensions)
    requires PositiveFrame(src) && PositiveFrame(target)
    requires target.width <= target.height
    ensures WithinFrame(ScalingFor(src, target)) <==> ScalingFor(src, target) == ScalingForFill(src, target)
  {
    if target.width == target.height {
      SquareTargetAgrees(src, target);
    } else if src.width > src.height {
      LandscapeForPortraitAgrees(src, target);
    } else {
      PortraitFromTallFitsIff(src, target);
      TallForPortraitAgreesIff(src, target);
    }
  }

  lemma SquareTargetAgrees(src: Dimensions, target: Dimensions)
    requires PositiveFrame(src) && PositiveFrame(target)
    requires target.width == target.height
    ensures WithinFrame(ScalingFor(src, target))
    ensures ScalingFor(src, target) == ScalingForFill(src, target)
  {
    SquareTargetFits(src, target);
    var w, h, t := src.width, src.height, target.width;
    assert (w * t > t * h) == (w > h) by {
      if w > h { MulMonotone(h + 1, w, t); } else { MulMonotone(w, h, t); }
    }
  }

  lemma LandscapeForPortraitAgrees(src: Dimensions, target: Dimensions)
    requires PositiveFrame(src) && PositiveFrame(target)
    requires target.width < target.height && src.width > src.height
    ensures WithinFrame(ScalingFor(src, target))
    ensures ScalingFor(src, target) == ScalingForFill(src, target)
  {
    PortraitFromLandscape(src, target);
    var w, h, tw, th := src.width, src.height, target.width, target.height;
    assert w * th > tw * h by {
      MulMonotone(h + 1, w, th);
      MulMonotone(tw, th, h);
    }
  }

  lemma TallForPortraitAgreesIff(src: Dimensions, target: Dimensions)
    requires PositiveFrame(src) && PositiveFrame(target)
    requires target.width < target.height && src.width <= src.height
    ensures (src.width * target.height <= target.width * src.height) <==> ScalingFor(src, target) == ScalingForFill(src, target)
  {
  }

  // ---------------------------------------------------------------------
  // The older revision

  /** One side of a `scale=` argument: a pixel count, or `-1` (derive it from the other side). */
  datatype Side = Pixels(n: int) | KeepAspect

  /** A crop offset written against the scaled input: `0`, `(iw-n)/2` or `(ih-n)/2`. */
  datatype InputOffset = NoShift | CentreOnWidth(n: int) | CentreOnHeight(n: int)

  /** `scale=scaleWidth:scaleHeight,crop=cropWidth:cropHeight:x:y` with ffmpeg-side expressions. */
  datatype TemplateFilter = TemplateFilter(scaleWidth: Side, scaleHeight: Side, cropWidth: int, cropHeight: int, x: InputOffset, y: InputOffset)

  /**
   `determine_scaling_filter`, older revision: four fixed templates chosen
   by whether the target is portrait and whether the source is landscape.
   The scale fixes one side and derives the other (the height, except for
   a landscape source and the square target), and the crop is centred
   across the width for a landscape source and down the height otherwise.
   */
  function ScalingForV1(src: Dimensions, target: Dimensions): (f: TemplateFilter)
    requires src.height > 0 && PositiveFrame(target)
    ensures target.width < target.height ==> f.cropWidth == target.width && f.cropHeight == target.height
    ensures target.width >= target.height ==> f.cropWidth == f.cropHeight
    ensures target.width >= target.height ==> f.cropWidth == (if src.width > src.height then target.height else target.width)
    ensures (f.scaleWidth.KeepAspect? && f.scaleHeight.Pixels?) || (f.scaleWidth.Pixels? && f.scaleHeight.KeepAspect?)
    ensures f.scaleWidth.Pixels? ==> f.scaleWidth == Pixels(target.width)
    ensures f.scaleHeight.Pixels? ==> f.scaleHeight == Pixels(target.height)
    ensures f.scaleWidth.KeepAspect? <==> target.width >= target.height && src.width > src.height
    ensures src.width > src.height ==> f.x == CentreOnWidth(f.cropWidth) && f.y == NoShift
    ensures src.width <= src.height ==> f.x == NoShift && f.y == CentreOnHeight(f.cropHeight)
  {
    var tw, th := target.width, target.height;
    if tw < th then
      if src.width > src.height then
        TemplateFilter(Pixels(tw), KeepAspect, tw, th, CentreOnWidth(tw), NoShift)
      else
        TemplateFilter(Pixels(tw), KeepAspect, tw, th, NoShift, CentreOnHeight(th))
    else
      if src.width > src.height then
        TemplateFilter(KeepAspect, Pixels(th), th, th, CentreOnWidth(th), NoShift)
      else
        TemplateFilter(Pixels(tw), KeepAspect, tw, tw, NoShift, CentreOnHeight(tw))
  }

  /**
   The older `determine_scaling_filter` with its error path: only a zero
   height raises (at `width / height`); the templates never divide by the
   aspect, so a zero width gets the non-landscape template.
   */
  function ScalingForV1Checked(src: Dimensions, target: Dimensions): (r: Option<TemplateFilter>)
    requires src.width >= 0 && src.height >= 0 && PositiveFrame(target)
    ensures r.None? <==> src.height == 0
    ensures r.Some? ==> r.value == ScalingForV1(src, target)
  {
    if src.height == 0 then None else Some(ScalingForV1(src, target))
  }

  /** The older planner looks at the source only through one bit: landscape or not. */
  lemma V1DependsOnlyOnOrientation(a: Dimensions, b: Dimensions, target: Dimensions)
    requires a.height > 0 && b.height > 0 && PositiveFrame(target)
    requires (a.width > a.height) == (b.width > b.height)
    ensures ScalingForV1(a, target) == ScalingForV1(b, target)
  {
  }
}
