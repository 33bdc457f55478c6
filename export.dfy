/**
 * The arithmetic of the editor's export (Editor/script.js, the export
 * button handler): the time range exported, the letterbox layout of the
 * video inside the background, the webcam's square crop, placement and
 * re-synchronisation, the zoom transform, the caption box, the progress
 * read-out and the condition that stops the recording. The drawing calls
 * themselves are not modelled; only the numbers handed to them are.
 */
module Export {
  import opened Wrappers
  import opened Editing
  import opened Choreography
  import opened Captions

  // ---------------------------------------------------------------------------
  // The range exported.

  /** `exportStart`/`exportEnd`: the trim range when trimming is on, the whole video otherwise. */
  function ExportRange(trimEnabled: bool, trim: TrimRange, duration: real): TrimRange
  {
    if trimEnabled then trim else TrimRange(0.0, duration)
  }

  /** In a reachable editor state the range exported runs forwards and, untrimmed, covers the whole video. */
  lemma ExportRangeOrdered(trimEnabled: bool, trim: TrimRange, duration: real)
    requires Ordered(trim) && 0.0 <= duration
    ensures Ordered(ExportRange(trimEnabled, trim, duration))
    ensures !trimEnabled ==> ExportRange(trimEnabled, trim, duration).end - ExportRange(trimEnabled, trim, duration).start == duration
    ensures trimEnabled ==> ExportRange(trimEnabled, trim, duration) == trim
  {
  }

  // ---------------------------------------------------------------------------
  // Letterbox layout.

  datatype Rect = Rect(x: real, y: real, w: real, h: real)

  /** Margin between the canvas edge and the gradient card, with a background shown. */
  const BgPadding: real := 30.0
  /** Margin between the gradient card and the video frame. */
  const GradPadding: real := 10.0

  /** The gradient card behind the video and the frame the video is drawn into. */
  datatype Layout = Layout(gradient: Rect, frame: Rect)

  /**
   * The export layout for a `width` by `height` canvas and a video of
   * aspect ratio `aspect`: with a background, the card is inset by 30 and
   * the video is the largest box of that aspect inside the card inset by
   * 10, centred in the card; without one, the video fills the canvas.
   */
  function Letterbox(showBackground: bool, width: real, height: real, aspect: real): Layout
    requires aspect != 0.0
    requires showBackground ==> height != 2.0 * (BgPadding + GradPadding)
  {
    if showBackground then
      var grad := Rect(BgPadding, BgPadding, width - 2.0 * BgPadding, height - 2.0 * BgPadding);
      var maxW := grad.w - 2.0 * GradPadding;
      var maxH := grad.h - 2.0 * GradPadding;
      var fw := if maxW / maxH > aspect then maxH * aspect else maxW;
      var fh := if maxW / maxH > aspect then maxH else maxW / aspect;
      Layout(grad, Rect(grad.x + (grad.w - fw) / 2.0, grad.y + (grad.h - fh) / 2.0, fw, fh))
    else
      Layout(Rect(0.0, 0.0, 0.0, 0.0), Rect(0.0, 0.0, width, height))
  }

  /** `a / b > c` for a positive `b` is `a > c * b`. */
  lemma RatioAbove(a: real, b: real, c: real)
    requires b > 0.0
    ensures a / b > c <==> a > c * b
  {
    assert a == (a / b) * b;
    if a / b > c {
      assert (a / b) * b > c * b;
    } else {
      assert (a / b) * b <= c * b;
    }
  }

  /** The largest box of aspect `aspect` fitting `maxW` by `maxH` gives each side at most its bound. */
  lemma FitWithin(maxW: real, maxH: real, aspect: real)
    requires maxW > 0.0 && maxH > 0.0 && aspect > 0.0
    ensures maxW / maxH > aspect ==> 0.0 < maxH * aspect < maxW
    ensures !(maxW / maxH > aspect) ==> 0.0 < maxW / aspect <= maxH && (maxW / aspect) * aspect == maxW
  {
    RatioAbove(maxW, maxH, aspect);
    if !(maxW / maxH > aspect) {
      assert maxW <= aspect * maxH;
      assert (maxW / aspect) * aspect == maxW;
    }
    assert maxH * aspect > 0.0;
  }

  /**
   * With a background the video keeps its aspect ratio, fills the card's
   * inner box in one direction, stays inside it in both, and is centred in
   * the card; the card is inset by 30 on every side.
   */
  lemma LetterboxFits(width: real, height: real, aspect: real)
    requires aspect > 0.0
    requires width > 2.0 * (BgPadding + GradPadding) && height > 2.0 * (BgPadding + GradPadding)
    ensures var l := Letterbox(true, width, height, aspect);
      var g, f := l.gradient, l.frame;
      && g == Rect(BgPadding, BgPadding, width - 2.0 * BgPadding, height - 2.0 * BgPadding)
      && f.w > 0.0 && f.h > 0.0
      && f.w == f.h * aspect
      && f.w <= g.w - 2.0 * GradPadding && f.h <= g.h - 2.0 * GradPadding
      && (f.w == g.w - 2.0 * GradPadding || f.h == g.h - 2.0 * GradPadding)
      && f.x - g.x == (g.x + g.w) - (f.x + f.w) >= GradPadding
      && f.y - g.y == (g.y + g.h) - (f.y + f.h) >= GradPadding
  {
    var maxW := width - 2.0 * BgPadding - 2.0 * GradPadding;
    var maxH := height - 2.0 * BgPadding - 2.0 * GradPadding;
    FitWithin(maxW, maxH, aspect);
  }

  /** Without a background the video fills the canvas. */
  lemma LetterboxPlain(width: real, height: real, aspect: real)
    requires aspect != 0.0
    ensures Letterbox(false, width, height, aspect).frame == Rect(0.0, 0.0, width, height)
  {
  }

  // ---------------------------------------------------------------------------
  // The webcam.

  /**
   * The part of a `vw` by `vh` webcam image drawn into the round or square
   * overlay: a square cut from the middle of the longer side.
   */
  function WebcamCrop(vw: real, vh: real): Rect
    requires vh > 0.0
  {
    if vw / vh > 1.0 then Rect((vw - vh) / 2.0, 0.0, vh, vh)
    else Rect(0.0, (vh - vw) / 2.0, vw, vw)
  }

  /** The crop is a square whose side is the shorter side, centred and inside the image. */
  lemma WebcamCropCentred(vw: real, vh: real)
    requires vw > 0.0 && vh > 0.0
    ensures var r := WebcamCrop(vw, vh);
      && r.w == r.h == Min(vw, vh)
      && 0.0 <= r.x && r.x + r.w <= vw && r.x == vw - (r.x + r.w)
      && 0.0 <= r.y && r.y + r.h <= vh && r.y == vh - (r.y + r.h)
  {
    RatioAbove(vw, vh, 1.0);
  }

  /** The on-screen rectangles of the preview canvas and of the webcam bubble, when both exist. */
  datatype PreviewRects = PreviewRects(preview: Rect, bubble: Rect)

  /** Distance of the fallback webcam bubble from the frame's bottom right corner. */
  const WebcamInset: real := 30.0

  /**
   * Where the webcam is drawn on a `width` by `height` export: the preview
   * bubble's position and width scaled from the preview to the export,
   * or, without a preview, a square of `webcamSize` scaled by `width / 800`
   * in the frame's bottom right corner.
   */
  function WebcamBox(width: real, height: real, frame: Rect, webcamSize: real, rects: Option<PreviewRects>): Rect
    requires rects.Some? ==> rects.value.preview.w > 0.0 && rects.value.preview.h > 0.0
  {
    match rects
    case Some(PreviewRects(p, b)) =>
      var scaleX := width / p.w;
      var scaleY := height / p.h;
      Rect((b.x - p.x) * scaleX, (b.y - p.y) * scaleY, b.w * scaleX, b.w * scaleX)
    case None =>
      var size := webcamSize * (width / 800.0);
      Rect(frame.x + frame.w - size - WebcamInset, frame.y + frame.h - size - WebcamInset, size, size)
  }

  /** The bubble is square; without a preview it sits 30 from the frame's corner, with one it keeps its relative place. */
  lemma WebcamBoxPlaced(width: real, height: real, frame: Rect, webcamSize: real, rects: Option<PreviewRects>)
    requires rects.Some? ==> rects.value.preview.w > 0.0 && rects.value.preview.h > 0.0
    ensures var r := WebcamBox(width, height, frame, webcamSize, rects);
      && r.w == r.h
      && (rects.None? ==> r.x + r.w + WebcamInset == frame.x + frame.w && r.y + r.h + WebcamInset == frame.y + frame.h)
      && (rects.Some? ==>
            var p, b := rects.value.preview, rects.value.bubble;
            && r.x * p.w == (b.x - p.x) * width
            && r.y * p.h == (b.y - p.y) * height
            && r.w * p.w == b.w * width)
  {
    if rects.Some? {
      var p, b := rects.value.preview, rects.value.bubble;
      ScaledRatio(b.x - p.x, width, p.w);
      ScaledRatio(b.y - p.y, height, p.h);
      ScaledRatio(b.w, width, p.w);
    }
  }

  /** Scaling `a` by `n / d` and multiplying back by `d` gives `a * n`. */
  lemma ScaledRatio(a: real, n: real, d: real)
    requires d > 0.0
    ensures a * (n / d) * d == a * n
  {
    assert (n / d) * d == n;
  }

  /** Drift, in seconds, the export tolerates between the webcam and the screen recording. */
  const WebcamDrift: real := 0.1

  /**
   * `syncWebcam`: the time a playing webcam is moved to, if it is moved —
   * the screen recording's time, but no later than 0.1 before the webcam's
   * end — when it has drifted more than 0.1 from it.
   */
  function WebcamSeek(playing: bool, videoTime: real, webcamTime: real, webcamDuration: real): Option<real>
  {
    var target := Min(videoTime, webcamDuration - WebcamDrift);
    if playing && Abs(webcamTime - target) > WebcamDrift then Some(target) else None
  }

  /**
   * The webcam is moved exactly when it drifted, it is moved to a time no
   * later than the recording's and the webcam's end allow, and once moved it
   * is not moved again.
   */
  lemma WebcamSeekSettles(playing: bool, videoTime: real, webcamTime: real, webcamDuration: real)
    ensures var target := Min(videoTime, webcamDuration - WebcamDrift);
      var r := WebcamSeek(playing, videoTime, webcamTime, webcamDuration);
      && (r.Some? <==> playing && Abs(webcamTime - target) > WebcamDrift)
      && (r.Some? ==> r.value <= videoTime && r.value <= webcamDuration - WebcamDrift)
      && (r.Some? ==> WebcamSeek(playing, videoTime, r.value, webcamDuration).None?)
  {
  }

  // ---------------------------------------------------------------------------
  // The zoom transform.

  /** A zoom about a point of the canvas. */
  datatype Zoom = Zoom(cx: real, cy: real, scale: real)

  /**
   * The transform applied to the video frame: none unless the zoom is active
   * and enlarges; otherwise a scaling by `scale` about the point of the
   * frame at `originX`%, `originY`%.
   */
  function FrameZoom(z: ZoomState, frame: Rect): Option<Zoom>
  {
    if z.active && z.scale > 1.0 then
      Some(Zoom(Along(frame.x, frame.w, z.originX), Along(frame.y, frame.h, z.originY), z.scale))
    else None
  }

  /** Where a point of the video lands: `translate(c) · scale(s) · translate(-c)`. */
  function ZoomPoint(zoom: Option<Zoom>, px: real, py: real): (real, real)
  {
    match zoom
    case None => (px, py)
    case Some(Zoom(cx, cy, s)) => (ZoomCoord(cx, s, px), ZoomCoord(cy, s, py))
  }

  /** One coordinate of `ZoomPoint`: `p` scaled by `s` about `c`. */
  function ZoomCoord(c: real, s: real, p: real): real
  {
    c + s * (p - c)
  }

  lemma MulNonNegative(a: real, b: real)
    requires a >= 0.0 && b >= 0.0
    ensures a * b >= 0.0
  {
  }

  /** One coordinate of the frame, scaled by `s > 1` about a point inside it, still covers it. */
  lemma ScaledCovers(lo: real, hi: real, c: real, s: real)
    requires lo <= c <= hi && s > 1.0
    ensures ZoomCoord(c, s, c) == c
    ensures ZoomCoord(c, s, lo) <= lo && ZoomCoord(c, s, hi) >= hi
  {
    MulNonNegative(s - 1.0, c - lo);
    MulNonNegative(s - 1.0, hi - c);
  }

  /** The point `o`% of the way along a side starting at `lo` of length `w`; it lies on that side. */
  function Along(lo: real, w: real, o: real): (r: real)
    ensures w >= 0.0 && 0.0 <= o <= 100.0 ==> lo <= r <= lo + w
  {
    var r := lo + w * (o / 100.0);
    if w >= 0.0 && 0.0 <= o <= 100.0 then
      MulNonNegative(w, o / 100.0);
      MulNonNegative(w, 1.0 - o / 100.0);
      r
    else r
  }

  /** An inactive or non-enlarging state draws the video unchanged. */
  lemma NoZoomIsIdentity(z: ZoomState, frame: Rect, px: real, py: real)
    ensures FrameZoom(z, frame).None? <==> !(z.active && z.scale > 1.0)
    ensures FrameZoom(z, frame).None? ==> ZoomPoint(FrameZoom(z, frame), px, py) == (px, py)
  {
  }

  /**
   * With the zoom origin inside the frame, the zoom centre stays where it
   * is, and the zoomed frame's corners lie outside the frame's, so the
   * zoomed video still covers the whole clipped frame.
   */
  lemma ZoomCoversFrame(z: ZoomState, frame: Rect)
    requires frame.w >= 0.0 && frame.h >= 0.0
    requires 0.0 <= z.originX <= 100.0 && 0.0 <= z.originY <= 100.0
    requires z.active && z.scale > 1.0
    ensures var zoom := FrameZoom(z, frame).value;
      && ZoomPoint(Some(zoom), zoom.cx, zoom.cy) == (zoom.cx, zoom.cy)
      && ZoomPoint(Some(zoom), frame.x, frame.y).0 <= frame.x
      && ZoomPoint(Some(zoom), frame.x, frame.y).1 <= frame.y
      && ZoomPoint(Some(zoom), frame.x + frame.w, frame.y + frame.h).0 >= frame.x + frame.w
      && ZoomPoint(Some(zoom), frame.x + frame.w, frame.y + frame.h).1 >= frame.y + frame.h
  {
    var zoom := FrameZoom(z, frame).value;
    ScaledCovers(frame.x, frame.x + frame.w, zoom.cx, zoom.scale);
    ScaledCovers(frame.y, frame.y + frame.h, zoom.cy, zoom.scale);
  }

  // ---------------------------------------------------------------------------
  // The caption box.

  const CaptionPadding: real := 20.0
  const CaptionHeight: real := 50.0
  /** Distance from the canvas bottom to the top of the caption box. */
  const CaptionRise: real := 120.0

  /** The caption shown in the export at time `t`: the first covering one, when captions are on. */
  function ExportCaption(captionsOn: bool, captions: seq<Caption>, t: real): Option<nat>
  {
    if captionsOn && |captions| > 0 then CaptionAt(captions, t) else None
  }

  /** The box drawn behind a caption whose text is `textWidth` wide. */
  function CaptionBox(width: real, height: real, textWidth: real): Rect
  {
    Rect((width - textWidth) / 2.0 - CaptionPadding, height - CaptionRise, textWidth + 2.0 * CaptionPadding, CaptionHeight)
  }

  /**
   * The caption box is centred across the canvas, 120 above its bottom and
   * 50 high; the text starts 20 inside it, so the text is centred too, on
   * the box's middle line.
   */
  lemma CaptionBoxCentred(width: real, height: real, textWidth: real)
    ensures var b := CaptionBox(width, height, textWidth);
      && b.x + b.w / 2.0 == width / 2.0
      && (b.x + CaptionPadding) + textWidth / 2.0 == width / 2.0
      && b.y == height - CaptionRise && b.y + b.h == height - (CaptionRise - CaptionHeight)
  {
  }

  /** A caption is shown only when captions are on, and then exactly the one the editor's lookup finds. */
  lemma ExportCaptionIsLookup(captionsOn: bool, captions: seq<Caption>, t: real)
    ensures var r := ExportCaption(captionsOn, captions, t);
      && (r.Some? ==> captionsOn && r.value < |captions| && Covers(captions[r.value], t))
      && (captionsOn ==> r == CaptionAt(captions, t))
  {
  }

  // ---------------------------------------------------------------------------
  // Progress and the end of the recording.

  /** The fraction of the range recorded at time `t`, kept within [0, 1]; an empty range reads 0. */
  function Progress(t: real, start: real, end: real): (p: real)
    ensures 0.0 <= p <= 1.0
  {
    if end > start then Min(1.0, Max(0.0, (t - start) / (end - start))) else 0.0
  }

  /** `Math.round` for the non-negative values it is used on here: halves go up. */
  function Round(x: real): int
  {
    (x + 0.5).Floor
  }

  /** The whole percentage shown. */
  function ProgressPercent(t: real, start: real, end: real): (n: int)
    ensures 0 <= n <= 100
  {
    Round(Progress(t, start, end) * 100.0)
  }

  /** The progress ring's `strokeDashoffset`: 201 when nothing is done, 0 when all is. */
  function DashOffset(percent: int): real
  {
    201.0 - 201.0 * percent as real / 100.0
  }

  /** Progress only grows as the recording advances. */
  lemma ProgressMonotone(t1: real, t2: real, start: real, end: real)
    requires t1 <= t2
    ensures Progress(t1, start, end) <= Progress(t2, start, end)
    ensures ProgressPercent(t1, start, end) <= ProgressPercent(t2, start, end)
  {
    if end > start {
      assert (t1 - start) / (end - start) <= (t2 - start) / (end - start);
    }
  }

  /** The percentage reads 0 at the start and 100 from the end on; the ring goes from full to empty. */
  lemma ProgressEnds(start: real, end: real, t: real)
    requires end > start
    ensures ProgressPercent(start, start, end) == 0
    ensures t >= end ==> ProgressPercent(t, start, end) == 100
    ensures DashOffset(0) == 201.0 && DashOffset(100) == 0.0
    ensures forall n: int :: 0 <= n <= 100 ==> 0.0 <= DashOffset(n) <= 201.0
  {
    if t >= end {
      assert (t - start) / (end - start) >= 1.0 by {
        RatioAbove(t - start, end - start, 1.0);
      }
    }
  }

  /** The recording stops at the first frame whose time is within a millisecond of the end or past it. */
  predicate ReachedEnd(t: real, end: real)
  {
    t >= end - 0.001
  }

  /**
   * The number of frames drawn when the recording's successive frame times
   * are `times`: every frame up to and including the first that reached
   * the end.
   */
  function FramesRendered(times: seq<real>, end: real): (n: nat)
    ensures n <= |times|
  {
    if times == [] then 0
    else if ReachedEnd(times[0], end) then 1
    else 1 + FramesRendered(times[1..], end)
  }

  /**
   * Every frame drawn before the last is short of the end, at least one
   * frame is drawn, and if drawing stopped before the frames ran out, the
   * last frame drawn reached the end.
   */
  lemma {:induction false} FramesStopAtEnd(times: seq<real>, end: real)
    ensures var n := FramesRendered(times, end);
      && (forall i :: 0 <= i < n - 1 ==> !ReachedEnd(times[i], end))
      && (0 < n < |times| ==> ReachedEnd(times[n - 1], end))
      && (times != [] ==> n >= 1)
  {
    if times != [] && !ReachedEnd(times[0], end) {
      FramesStopAtEnd(times[1..], end);
      var n := FramesRendered(times, end);
      assert forall i :: 1 <= i < n - 1 ==> times[i] == times[1..][i - 1];
    }
  }
}
