/**
 * The "volumetric explosion" of the editorial highlight section: twelve tech
 * icons start hidden at the centre of a pinned, scroll-scrubbed timeline and each
 * flies out to a scattered resting place. Every icon draws a random depth once;
 * its scale, blur and tween duration are derived from that depth alone, and its
 * resting place is clamped to a safe box of 60% of the viewport. A companion
 * tween pushes the anchor text towards the camera on the same timeline.
 *
 * The random draws and the trigonometry are inputs here (`IconDraws`), and the
 * easing curves are function parameters: only their end points are assumed.
 */
module EditorialHighlight {
  import opened TweenMath

  /** Fraction of the viewport width (height) an icon may travel from the centre. */
  const SafeFraction: real := 0.6

  /** Half-width of the uniform jitter added to each axis of the scatter offset. */
  const JitterSpan: real := 100.0

  /** Half-width of the uniform rotation draw, in degrees. */
  const RotationSpan: real := 180.0

  /**
   * The random values one icon consumes: its depth, the draw behind its scatter
   * radius, the cosine and sine of its scatter angle, the jitter on each axis and
   * its rotation.
   */
  datatype IconDraws = IconDraws(
    depth: real,
    radiusDraw: real,
    cosAngle: real,
    sinAngle: real,
    jitterX: real,
    jitterY: real,
    rotation: real)
  {
    /** The ranges the random sources produce. */
    predicate Valid() {
      && 0.0 <= depth < 1.0
      && 0.0 <= radiusDraw < 1.0
      && -1.0 <= cosAngle <= 1.0
      && -1.0 <= sinAngle <= 1.0
      && -JitterSpan <= jitterX <= JitterSpan
      && -JitterSpan <= jitterY <= JitterSpan
      && -RotationSpan <= rotation <= RotationSpan
    }
  }

  /** Icon scale: depth 0 (far) maps to 0.5, depth 1 (very close) to 3.5. */
  function Scale(depth: real): (s: real)
    ensures depth == 0.0 ==> s == 0.5
    ensures depth == 1.0 ==> s == 3.5
    ensures 0.0 <= depth <= 1.0 ==> 0.5 <= s <= 3.5
  {
    MapRange(0.0, 1.0, 0.5, 3.5, depth)
  }

  /** Closer icons are strictly larger. */
  lemma ScaleStrictlyIncreasing(d1: real, d2: real)
    requires d1 < d2
    ensures Scale(d1) < Scale(d2)
  {
    MapRangeStrictlyIncreasing(0.0, 1.0, 0.5, 3.5, d1, d2);
  }

  /** The depth can be read back from the scale: the mapping loses nothing. */
  lemma ScaleDepthRoundTrip(depth: real)
    ensures MapRange(0.5, 3.5, 0.0, 1.0, Scale(depth)) == depth
  {
    MapRangeRoundTrip(0.0, 1.0, 0.5, 3.5, depth);
  }

  /** Blur radius in pixels: bokeh for near icons, slight softness for far ones, sharp between. */
  function Blur(depth: real): (b: real)
    ensures b == 0.0 || b == 2.0 || b == 6.0
    ensures b == 6.0 <==> depth > 0.8
    ensures b == 2.0 <==> depth < 0.2
    ensures b == 0.0 <==> 0.2 <= depth <= 0.8
  {
    if depth > 0.8 then 6.0 else if depth < 0.2 then 2.0 else 0.0
  }

  /**
   * The blur bands seen through the scale: the strongest blur falls exactly on
   * the icons drawn larger than 2.9 and the slight blur on those smaller than 1.1.
   */
  lemma BlurFollowsScale(depth: real)
    ensures Blur(depth) == 6.0 <==> Scale(depth) > 2.9
    ensures Blur(depth) == 2.0 <==> Scale(depth) < 1.1
  {
    if depth > 0.8 { ScaleStrictlyIncreasing(0.8, depth); }
    if depth <= 0.8 { if depth < 0.8 { ScaleStrictlyIncreasing(depth, 0.8); } }
    if depth < 0.2 { ScaleStrictlyIncreasing(depth, 0.2); }
    if depth >= 0.2 { if depth > 0.2 { ScaleStrictlyIncreasing(0.2, depth); } }
  }

  /** Tween duration in seconds: depth 0 takes 2, depth 1 takes 1. */
  function Duration(depth: real): (d: real)
    ensures depth == 0.0 ==> d == 2.0
    ensures depth == 1.0 ==> d == 1.0
    ensures 0.0 <= depth <= 1.0 ==> 1.0 <= d <= 2.0
  {
    MapRange(0.0, 1.0, 2.0, 1.0, depth)
  }

  /** Closer icons finish strictly sooner. */
  lemma DurationStrictlyDecreasing(d1: real, d2: real)
    requires d1 < d2
    ensures Duration(d1) > Duration(d2)
  {
    MapRangeStrictlyDecreasing(0.0, 1.0, 2.0, 1.0, d1, d2);
  }

  /** Parallax: of two icons, the nearer one is both larger and faster. */
  lemma NearerIsLargerAndFaster(d1: real, d2: real)
    requires d1 < d2
    ensures Scale(d1) < Scale(d2) && Duration(d1) > Duration(d2)
  {
    ScaleStrictlyIncreasing(d1, d2);
    DurationStrictlyDecreasing(d1, d2);
  }

  /** Scatter radius: at least 150 px from the centre, below 450 px. */
  function Radius(radiusDraw: real): (r: real)
    ensures 0.0 <= radiusDraw < 1.0 ==> 150.0 <= r < 450.0
    ensures 0.0 <= radiusDraw ==> r >= 150.0
  {
    150.0 + radiusDraw * 300.0
  }

  /** The safe bound on one axis for a viewport extent in pixels. */
  function SafeBound(viewport: nat): (b: real)
    ensures 0.0 <= b <= viewport as real
    ensures viewport > 0 ==> 0.0 < b < viewport as real
  {
    viewport as real * SafeFraction
  }

  /** One coordinate of the resting place: offset plus jitter, clamped to the safe bound. */
  function ScatterTarget(offset: real, jitter: real, safe: real): (p: real)
    ensures 0.0 <= safe ==> -safe <= p <= safe
    ensures -safe <= offset + jitter <= safe ==> p == offset + jitter
    ensures offset + jitter > safe >= 0.0 ==> p == safe
    ensures offset + jitter < -safe <= 0.0 ==> p == -safe
  {
    Clamp(-safe, safe, offset + jitter)
  }

  /** The parameters an icon derives from its draws. */
  datatype DepthParams = DepthParams(scale: real, blur: real, duration: real, radius: real)

  function DeriveParams(d: IconDraws): (p: DepthParams)
    requires d.Valid()
    ensures 0.5 <= p.scale < 3.5
    ensures p.blur == 0.0 || p.blur == 2.0 || p.blur == 6.0
    ensures 1.0 < p.duration <= 2.0
    ensures 150.0 <= p.radius < 450.0
  {
    DurationStrictlyDecreasing(d.depth, 1.0);
    ScaleStrictlyIncreasing(d.depth, 1.0);
    DepthParams(Scale(d.depth), Blur(d.depth), Duration(d.depth), Radius(d.radiusDraw))
  }

  /** Position, rotation (degrees), scale and opacity of an icon at one instant. */
  datatype IconFrame = IconFrame(x: real, y: real, rotation: real, scale: real, opacity: real)

  /** Every icon is set up centred, at scale 0 and fully transparent. */
  const Hidden: IconFrame := IconFrame(0.0, 0.0, 0.0, 0.0, 0.0)

  /** The target values and timing of one icon's tween (eased with `power3.out`). */
  datatype IconTween = IconTween(
    x: real,
    y: real,
    rotation: real,
    scale: real,
    opacity: real,
    blur: real,
    duration: real,
    at: real)

  /** The frame an icon's tween ends on. */
  function Settled(t: IconTween): IconFrame {
    IconFrame(t.x, t.y, t.rotation, t.scale, t.opacity)
  }

  /** The tween added to the timeline for one icon in a `vw` by `vh` viewport. */
  function IconTweenFor(d: IconDraws, vw: nat, vh: nat): (t: IconTween)
    requires d.Valid()
    ensures -SafeBound(vw) <= t.x <= SafeBound(vw)
    ensures -SafeBound(vh) <= t.y <= SafeBound(vh)
    ensures -RotationSpan <= t.rotation <= RotationSpan
    ensures t.rotation == d.rotation
    ensures var sx := d.cosAngle * Radius(d.radiusDraw) + d.jitterX;
            -SafeBound(vw) <= sx <= SafeBound(vw) ==> t.x == sx
    ensures var sy := d.sinAngle * Radius(d.radiusDraw) + d.jitterY;
            -SafeBound(vh) <= sy <= SafeBound(vh) ==> t.y == sy
    ensures var sx := d.cosAngle * Radius(d.radiusDraw) + d.jitterX;
            (sx > SafeBound(vw) ==> t.x == SafeBound(vw)) && (sx < -SafeBound(vw) ==> t.x == -SafeBound(vw))
    ensures var sy := d.sinAngle * Radius(d.radiusDraw) + d.jitterY;
            (sy > SafeBound(vh) ==> t.y == SafeBound(vh)) && (sy < -SafeBound(vh) ==> t.y == -SafeBound(vh))
    ensures t.scale == Scale(d.depth) && t.blur == Blur(d.depth) && t.duration == Duration(d.depth)
    ensures t.opacity == 1.0 && t.at == 0.0
    ensures 1.0 < t.duration <= 2.0
  {
    var p := DeriveParams(d);
    var xOffset := d.cosAngle * p.radius;
    var yOffset := d.sinAngle * p.radius;
    IconTween(
      ScatterTarget(xOffset, d.jitterX, SafeBound(vw)),
      ScatterTarget(yOffset, d.jitterY, SafeBound(vh)),
      d.rotation,
      p.scale,
      1.0,
      p.blur,
      p.duration,
      0.0)
  }

  /** The frame an icon shows at timeline time `time`, under the easing curve `ease`. */
  function IconFrameAt(t: IconTween, time: real, ease: real -> real): IconFrame
    requires t.duration > 0.0
  {
    var e := ease(LocalTime(time, t.at, t.duration));
    IconFrame(
      Lerp(Hidden.x, t.x, e),
      Lerp(Hidden.y, t.y, e),
      Lerp(Hidden.rotation, t.rotation, e),
      Lerp(Hidden.scale, t.scale, e),
      Lerp(Hidden.opacity, t.opacity, e))
  }

  /** An easing curve that starts at 0 and ends at 1, as every library curve does. */
  predicate FixesEnds(ease: real -> real) {
    ease(0.0) == 0.0 && ease(1.0) == 1.0
  }

  /** Before its tween starts an icon is hidden; once the tween is over it rests on its targets. */
  lemma IconStartsHiddenAndSettles(t: IconTween, time: real, ease: real -> real)
    requires t.duration > 0.0 && FixesEnds(ease)
    ensures time <= t.at ==> IconFrameAt(t, time, ease) == Hidden
    ensures time >= t.at + t.duration ==> IconFrameAt(t, time, ease) == Settled(t)
  {
  }

  /** The anchor text's tween (eased with `power1.inOut`). */
  datatype AnchorTween = AnchorTween(scale: real, letterSpacingEm: real, y: real, duration: real, at: real)

  /** The anchor pushes to 1.15x, drifts up 50 px and widens its letters over 1.5 s from time 0. */
  const Anchor: AnchorTween := AnchorTween(1.15, 0.05, -50.0, 1.5, 0.0)

  /** Scale and vertical offset of the anchor at one instant. */
  datatype AnchorFrame = AnchorFrame(scale: real, y: real)

  function AnchorFrameAt(a: AnchorTween, time: real, ease: real -> real): AnchorFrame
    requires a.duration > 0.0
  {
    var e := ease(LocalTime(time, a.at, a.duration));
    AnchorFrame(Lerp(1.0, a.scale, e), Lerp(0.0, a.y, e))
  }

  /** The anchor starts at its natural size and place and ends pushed in and raised. */
  lemma AnchorStartsNaturalAndSettles(time: real, ease: real -> real)
    requires FixesEnds(ease)
    ensures time <= 0.0 ==> AnchorFrameAt(Anchor, time, ease) == AnchorFrame(1.0, 0.0)
    ensures time >= 1.5 ==> AnchorFrameAt(Anchor, time, ease) == AnchorFrame(1.15, -50.0)
  {
  }

  /** The scrubbed timeline: one tween per icon plus the anchor tween. */
  datatype Timeline = Timeline(icons: seq<IconTween>, anchor: AnchorTween)

  /**
   * Builds the timeline for a list of icons, one tween per icon in order, then
   * the anchor tween; every tween is placed at position 0.
   */
  method BuildTimeline(draws: seq<IconDraws>, vw: nat, vh: nat) returns (tl: Timeline)
    requires forall i :: 0 <= i < |draws| ==> draws[i].Valid()
    ensures |tl.icons| == |draws|
    ensures forall i :: 0 <= i < |draws| ==> tl.icons[i] == IconTweenFor(draws[i], vw, vh)
    ensures forall i :: 0 <= i < |tl.icons| ==>
              && tl.icons[i].at == 0.0
              && tl.icons[i].opacity == 1.0
              && tl.icons[i].scale == Scale(draws[i].depth)
              && -SafeBound(vw) <= tl.icons[i].x <= SafeBound(vw)
              && -SafeBound(vh) <= tl.icons[i].y <= SafeBound(vh)
    ensures tl.anchor == Anchor
  {
    var icons: seq<IconTween> := [];
    var i := 0;
    while i < |draws|
      invariant 0 <= i <= |draws|
      invariant |icons| == i
      invariant forall j :: 0 <= j < i ==> icons[j] == IconTweenFor(draws[j], vw, vh)
    {
      icons := icons + [IconTweenFor(draws[i], vw, vh)];
      i := i + 1;
    }
    tl := Timeline(icons, Anchor);
  }

  /** Time at which a tween placed at `at` and lasting `duration` ends. */
  function EndOf(at: real, duration: real): real {
    at + duration
  }

  /** The length of the timeline: the latest end among its tweens. */
  function TimelineEnd(icons: seq<IconTween>, anchor: AnchorTween): (end: real)
    ensures forall i :: 0 <= i < |icons| ==> EndOf(icons[i].at, icons[i].duration) <= end
    ensures EndOf(anchor.at, anchor.duration) <= end
    ensures end == EndOf(anchor.at, anchor.duration) ||
            exists i :: 0 <= i < |icons| && end == EndOf(icons[i].at, icons[i].duration)
    decreases |icons|
  {
    if |icons| == 0 then EndOf(anchor.at, anchor.duration)
    else
      var rest := TimelineEnd(icons[1..], anchor);
      var first := EndOf(icons[0].at, icons[0].duration);
      assert forall i :: 1 <= i < |icons| ==> icons[i] == icons[1..][i - 1];
      if first >= rest then first else rest
  }

  /** A timeline built from valid draws lasts between 1.5 s (the anchor) and 2 s. */
  lemma TimelineEndBounds(draws: seq<IconDraws>, tl: Timeline, vw: nat, vh: nat)
    requires forall i :: 0 <= i < |draws| ==> draws[i].Valid()
    requires |tl.icons| == |draws|
    requires forall i :: 0 <= i < |draws| ==> tl.icons[i] == IconTweenFor(draws[i], vw, vh)
    requires tl.anchor == Anchor
    ensures 1.5 <= TimelineEnd(tl.icons, tl.anchor) <= 2.0
  {
    var end := TimelineEnd(tl.icons, tl.anchor);
    if end != EndOf(Anchor.at, Anchor.duration) {
      var i :| 0 <= i < |tl.icons| && end == EndOf(tl.icons[i].at, tl.icons[i].duration);
      assert tl.icons[i] == IconTweenFor(draws[i], vw, vh);
    }
  }

  /**
   * At time 0 every icon of a timeline built from valid draws is hidden (centred,
   * scale 0, opacity 0), and at the end of the timeline every icon rests on its
   * targets: opacity 1 and the scale its depth gave it.
   */
  lemma AllHiddenThenAllSettled(draws: seq<IconDraws>, tl: Timeline, vw: nat, vh: nat, ease: real -> real)
    requires FixesEnds(ease)
    requires forall i :: 0 <= i < |draws| ==> draws[i].Valid()
    requires |tl.icons| == |draws|
    requires forall i :: 0 <= i < |draws| ==> tl.icons[i] == IconTweenFor(draws[i], vw, vh)
    ensures forall i :: 0 <= i < |draws| ==>
              var t := IconTweenFor(draws[i], vw, vh);
              IconFrameAt(t, 0.0, ease) == Hidden
    ensures forall i :: 0 <= i < |draws| ==>
              var t := IconTweenFor(draws[i], vw, vh);
              var f := IconFrameAt(t, TimelineEnd(tl.icons, tl.anchor), ease);
              f == Settled(t) && f.opacity == 1.0 && f.scale == Scale(draws[i].depth)
  {
    var end := TimelineEnd(tl.icons, tl.anchor);
    forall i | 0 <= i < |draws|
      ensures IconFrameAt(tl.icons[i], 0.0, ease) == Hidden
      ensures var f := IconFrameAt(tl.icons[i], end, ease);
              f == Settled(tl.icons[i]) && f.opacity == 1.0 && f.scale == Scale(draws[i].depth)
    {
      IconSettlesByTimelineEnd(draws[i], tl, i, vw, vh, ease);
    }
  }

  /** One icon of the timeline: hidden at time 0, on its targets at the timeline's end. */
  lemma IconSettlesByTimelineEnd(d: IconDraws, tl: Timeline, i: nat, vw: nat, vh: nat, ease: real -> real)
    requires FixesEnds(ease) && d.Valid()
    requires i < |tl.icons| && tl.icons[i] == IconTweenFor(d, vw, vh)
    ensures IconFrameAt(tl.icons[i], 0.0, ease) == Hidden
    ensures var f := IconFrameAt(tl.icons[i], TimelineEnd(tl.icons, tl.anchor), ease);
            f == Settled(tl.icons[i]) && f.opacity == 1.0 && f.scale == Scale(d.depth)
  {
    var t := tl.icons[i];
    var end := TimelineEnd(tl.icons, tl.anchor);
    assert EndOf(t.at, t.duration) <= end;
    IconStartsHiddenAndSettles(t, 0.0, ease);
    IconStartsHiddenAndSettles(t, end, ease);
  }
}
