/** The slider interaction engine of `v-slider`: bounds given in either order,
    clamping, the mapping from a pointer's x-coordinate to a value (thumb
    centre in single mode, thumb edge in range mode), the ordering of the two
    range endpoints, the choice of the nearest thumb, and the drag session
    keyed on a pointer id. Numbers are reals; the track's left edge and width
    come with each pointer event, as the DOM measurement would. */
module Slider {
  import opened Common

  /** Which endpoint of a range a drag moves (`ActiveThumb`). */
  datatype Thumb = Start | End

  /** A range value `[start, end]`. */
  datatype SliderRange = SliderRange(start: real, end: real)

  /** The settings that matter to the engine; `thumbSize` is in CSS units. */
  datatype SliderConfig = SliderConfig(min: real, max: real, thumbSize: real, isRange: bool)

  /** `DEFAULT_V_SLIDER_CONFIG` restricted to the fields above. */
  const DefaultConfig := SliderConfig(0.0, 100.0, 6.0, false)

  /** What `getBoundingClientRect` reports for the track. */
  datatype TrackRect = TrackRect(left: real, width: real)

  /** The fields of a `PointerEvent` the engine reads. */
  datatype PointerEvent = PointerEvent(clientX: real, pointerId: int, button: int)

  const PrimaryButton := 0

  // ---------------------------------------------------------------------------
  // Bounds and clamping

  /** `min$$`: the smaller of the two configured bounds. */
  function ResolvedMin(cfg: SliderConfig): (r: real)
    ensures r <= cfg.min && r <= cfg.max && (r == cfg.min || r == cfg.max)
  {
    Min(cfg.min, cfg.max)
  }

  /** `max$$`: the larger of the two configured bounds. */
  function ResolvedMax(cfg: SliderConfig): (r: real)
    ensures r >= cfg.min && r >= cfg.max && (r == cfg.min || r == cfg.max)
  {
    Max(cfg.min, cfg.max)
  }

  /** `clampToBounds`. */
  function Clamp(v: real, lo: real, hi: real): (r: real)
    ensures lo <= hi ==> lo <= r <= hi
    ensures lo <= v <= hi ==> r == v
    ensures lo <= hi && v < lo ==> r == lo
    ensures v > hi ==> r == hi
  {
    Min(hi, Max(lo, v))
  }

  /** Clamping twice is clamping once, for any bounds. */
  lemma ClampIdempotent(v: real, lo: real, hi: real)
    ensures Clamp(Clamp(v, lo, hi), lo, hi) == Clamp(v, lo, hi)
  {
  }

  // ---------------------------------------------------------------------------
  // From a pointer position to a value

  /** `unitToPx`: one CSS unit is four pixels. */
  function UnitToPx(units: real): real { units * 4.0 }

  /** `a === 0 ? 0 : a / b` as the source writes it for a travel ratio. */
  function Ratio(num: real, den: real): (r: real)
    ensures den == 0.0 ==> r == 0.0
    ensures 0.0 <= num <= den ==> 0.0 <= r <= 1.0
  {
    if den == 0.0 then 0.0 else num / den
  }

  /** `min + ratio * range`. */
  function Lerp(lo: real, hi: real, ratio: real): (r: real)
    ensures ratio == 0.0 ==> r == lo
    ensures lo <= hi && 0.0 <= ratio <= 1.0 ==> lo <= r <= hi
  {
    var span := hi - lo;
    assert ratio == 0.0 ==> ratio * span == 0.0;
    assert lo <= hi && 0.0 <= ratio <= 1.0 ==> 0.0 <= ratio * span <= span by {
      if lo <= hi && 0.0 <= ratio <= 1.0 {
        UnitScale(ratio, span);
      }
    }
    lo + ratio * span
  }

  /** Usable travel of a thumb centre in single mode. */
  function SingleTravel(width: real, thumbPx: real): real { Max(0.0, width - thumbPx) }

  /** Usable travel of a thumb edge in range mode. */
  function EdgeTravel(width: real, thumbPx: real): real { Max(0.0, (width - thumbPx) - thumbPx) }

  /** The range-mode ratio of a thumb whose centre is at `centerX`: the
      edge of the thumb that faces the other thumb (the start thumb's right
      edge, the end thumb's left edge), clamped to the edge travel. */
  function EdgeRatio(centerX: real, halfThumb: real, thumbPx: real, width: real, thumb: Thumb): real
  {
    var edgePos := if thumb == Start then centerX + halfThumb else centerX - halfThumb;
    Ratio(Clamp(edgePos, thumbPx, width - thumbPx) - thumbPx, EdgeTravel(width, thumbPx))
  }

  /** The fraction of the travel the pointer is at, as `positionToValue`
      computes it before scaling to the bounds. */
  function PointerRatio(cfg: SliderConfig, track: TrackRect, clientX: real, thumb: Thumb): real
  {
    var thumbPx := UnitToPx(cfg.thumbSize);
    var halfThumb := thumbPx / 2.0;
    var centerX := Clamp(clientX - track.left, halfThumb, track.width - halfThumb);
    if !cfg.isRange then
      Ratio(centerX - halfThumb, SingleTravel(track.width, thumbPx))
    else
      EdgeRatio(centerX, halfThumb, thumbPx, track.width, thumb)
  }

  /** `positionToValue`: the value under the pointer. */
  function PositionToValue(cfg: SliderConfig, track: TrackRect, clientX: real, thumb: Thumb): (r: real)
  {
    if track.width <= 0.0 then ResolvedMin(cfg)
    else Lerp(ResolvedMin(cfg), ResolvedMax(cfg), PointerRatio(cfg, track, clientX, thumb))
  }

  /** `positionToValueForRangeEdge`: the value under the pointer when the
      pointer is read as a thumb edge (used to pick the nearest thumb). */
  function PositionToValueForRangeEdge(cfg: SliderConfig, track: TrackRect, clientX: real): (r: real)
  {
    if track.width <= 0.0 then ResolvedMin(cfg)
    else
      var thumbPx := UnitToPx(cfg.thumbSize);
      var edgeMin := thumbPx;
      var edgeMax := track.width - thumbPx;
      var edgePos := Clamp(clientX - track.left, edgeMin, edgeMax);
      Lerp(ResolvedMin(cfg), ResolvedMax(cfg), Ratio(edgePos - edgeMin, EdgeTravel(track.width, thumbPx)))
  }

  /** The travel ratio never leaves [0, 1], whatever the pointer position and
      whatever the thumb size. */
  lemma PointerRatioInUnit(cfg: SliderConfig, track: TrackRect, clientX: real, thumb: Thumb)
    ensures 0.0 <= PointerRatio(cfg, track, clientX, thumb) <= 1.0
  {
    var thumbPx := UnitToPx(cfg.thumbSize);
    var halfThumb := thumbPx / 2.0;
    var centerX := Clamp(clientX - track.left, halfThumb, track.width - halfThumb);
    if !cfg.isRange {
      if SingleTravel(track.width, thumbPx) != 0.0 {
        assert halfThumb <= centerX <= track.width - halfThumb;
      }
    } else {
      var edgePos := if thumb == Start then centerX + halfThumb else centerX - halfThumb;
      var clampedEdge := Clamp(edgePos, thumbPx, track.width - thumbPx);
      if EdgeTravel(track.width, thumbPx) != 0.0 {
        assert thumbPx <= clampedEdge <= track.width - thumbPx;
      }
    }
  }

  /** Every pointer position maps into the resolved bounds; a track that is
      not laid out, or leaves no travel, maps to the lower bound. */
  lemma PositionToValueInBounds(cfg: SliderConfig, track: TrackRect, clientX: real, thumb: Thumb)
    ensures ResolvedMin(cfg) <= PositionToValue(cfg, track, clientX, thumb) <= ResolvedMax(cfg)
    ensures track.width <= 0.0 ==> PositionToValue(cfg, track, clientX, thumb) == ResolvedMin(cfg)
    ensures !cfg.isRange && SingleTravel(track.width, UnitToPx(cfg.thumbSize)) == 0.0
            ==> PositionToValue(cfg, track, clientX, thumb) == ResolvedMin(cfg)
    ensures cfg.isRange && EdgeTravel(track.width, UnitToPx(cfg.thumbSize)) == 0.0
            ==> PositionToValue(cfg, track, clientX, thumb) == ResolvedMin(cfg)
  {
    PointerRatioInUnit(cfg, track, clientX, thumb);
  }

  /** The same for the edge reading used on the track in range mode. */
  lemma PositionToValueForRangeEdgeInBounds(cfg: SliderConfig, track: TrackRect, clientX: real)
    ensures ResolvedMin(cfg) <= PositionToValueForRangeEdge(cfg, track, clientX) <= ResolvedMax(cfg)
    ensures track.width <= 0.0 ==> PositionToValueForRangeEdge(cfg, track, clientX) == ResolvedMin(cfg)
    ensures EdgeTravel(track.width, UnitToPx(cfg.thumbSize)) == 0.0
            ==> PositionToValueForRangeEdge(cfg, track, clientX) == ResolvedMin(cfg)
  {
    if track.width > 0.0 {
      var thumbPx := UnitToPx(cfg.thumbSize);
      var edgePos := Clamp(clientX - track.left, thumbPx, track.width - thumbPx);
      if EdgeTravel(track.width, thumbPx) != 0.0 {
        assert thumbPx <= edgePos <= track.width - thumbPx;
      }
    }
  }

  /** With a zero-size thumb, single mode maps the offset into the track
      linearly: `min + (x / width) * (max - min)`. */
  lemma SingleModeIsLinear(cfg: SliderConfig, track: TrackRect, clientX: real, thumb: Thumb)
    requires !cfg.isRange && cfg.thumbSize == 0.0 && track.width > 0.0
    requires 0.0 <= clientX - track.left <= track.width
    ensures PositionToValue(cfg, track, clientX, thumb)
            == ResolvedMin(cfg) + ((clientX - track.left) / track.width) * (ResolvedMax(cfg) - ResolvedMin(cfg))
  {
  }

  /** A click 25 px into a 100 px track over [0, 100] with a zero-size thumb
      gives 25. */
  lemma TrackClickExample()
    ensures PositionToValue(SliderConfig(0.0, 100.0, 0.0, false), TrackRect(0.0, 100.0), 25.0, End) == 25.0
  {
    SingleModeIsLinear(SliderConfig(0.0, 100.0, 0.0, false), TrackRect(0.0, 100.0), 25.0, End);
  }

  /** The value follows the pointer: moving right never lowers it. */
  lemma PositionToValueMonotone(cfg: SliderConfig, track: TrackRect, x1: real, x2: real, thumb: Thumb)
    requires x1 <= x2
    ensures PositionToValue(cfg, track, x1, thumb) <= PositionToValue(cfg, track, x2, thumb)
  {
    if track.width > 0.0 {
      PointerRatioMonotone(cfg, track, x1, x2, thumb);
      LerpMonotone(ResolvedMin(cfg), ResolvedMax(cfg),
                   PointerRatio(cfg, track, x1, thumb), PointerRatio(cfg, track, x2, thumb));
    }
  }

  /** The travel ratio never falls as the pointer moves right. */
  lemma PointerRatioMonotone(cfg: SliderConfig, track: TrackRect, x1: real, x2: real, thumb: Thumb)
    requires x1 <= x2
    ensures PointerRatio(cfg, track, x1, thumb) <= PointerRatio(cfg, track, x2, thumb)
  {
    if !cfg.isRange {
      SingleRatioMonotone(cfg, track, x1, x2, thumb);
    } else {
      RangeRatioMonotone(cfg, track, x1, x2, thumb);
    }
  }

  lemma SingleRatioMonotone(cfg: SliderConfig, track: TrackRect, x1: real, x2: real, thumb: Thumb)
    requires x1 <= x2 && !cfg.isRange
    ensures PointerRatio(cfg, track, x1, thumb) <= PointerRatio(cfg, track, x2, thumb)
  {
    var thumbPx := UnitToPx(cfg.thumbSize);
    var halfThumb := thumbPx / 2.0;
    var c1 := Clamp(x1 - track.left, halfThumb, track.width - halfThumb);
    var c2 := Clamp(x2 - track.left, halfThumb, track.width - halfThumb);
    ClampMonotone(x1 - track.left, x2 - track.left, halfThumb, track.width - halfThumb);
    RatioMonotone(c1 - halfThumb, c2 - halfThumb, SingleTravel(track.width, thumbPx));
  }

  lemma RangeRatioMonotone(cfg: SliderConfig, track: TrackRect, x1: real, x2: real, thumb: Thumb)
    requires x1 <= x2 && cfg.isRange
    ensures PointerRatio(cfg, track, x1, thumb) <= PointerRatio(cfg, track, x2, thumb)
  {
    var thumbPx := UnitToPx(cfg.thumbSize);
    var halfThumb := thumbPx / 2.0;
    var c1 := Clamp(x1 - track.left, halfThumb, track.width - halfThumb);
    var c2 := Clamp(x2 - track.left, halfThumb, track.width - halfThumb);
    ClampMonotone(x1 - track.left, x2 - track.left, halfThumb, track.width - halfThumb);
    EdgeRatioMonotone(c1, c2, halfThumb, thumbPx, track.width, thumb);
  }

  lemma EdgeRatioMonotone(c1: real, c2: real, halfThumb: real, thumbPx: real, width: real, thumb: Thumb)
    requires c1 <= c2
    ensures EdgeRatio(c1, halfThumb, thumbPx, width, thumb) <= EdgeRatio(c2, halfThumb, thumbPx, width, thumb)
  {
    var p1 := if thumb == Start then c1 + halfThumb else c1 - halfThumb;
    var p2 := if thumb == Start then c2 + halfThumb else c2 - halfThumb;
    ClampMonotone(p1, p2, thumbPx, width - thumbPx);
    RatioMonotone(Clamp(p1, thumbPx, width - thumbPx) - thumbPx, Clamp(p2, thumbPx, width - thumbPx) - thumbPx,
                  EdgeTravel(width, thumbPx));
  }

  lemma ClampMonotone(u: real, v: real, lo: real, hi: real)
    requires u <= v
    ensures Clamp(u, lo, hi) <= Clamp(v, lo, hi)
  {
  }

  lemma RatioMonotone(a: real, b: real, d: real)
    requires a <= b && d >= 0.0
    ensures Ratio(a, d) <= Ratio(b, d)
  {
    if d != 0.0 {
      DivideMonotone(a, b, d);
    }
  }

  lemma DivideMonotone(a: real, b: real, d: real)
    requires a <= b && d > 0.0
    ensures a / d <= b / d
  {
    assert b / d - a / d == (b - a) / d;
  }

  lemma LerpMonotone(lo: real, hi: real, r1: real, r2: real)
    requires lo <= hi && r1 <= r2
    ensures Lerp(lo, hi, r1) <= Lerp(lo, hi, r2)
  {
    assert Lerp(lo, hi, r2) - Lerp(lo, hi, r1) == (r2 - r1) * (hi - lo);
    NonNegProduct(r2 - r1, hi - lo);
  }

  lemma NonNegProduct(a: real, b: real)
    requires a >= 0.0 && b >= 0.0
    ensures a * b >= 0.0
  {
  }

  lemma UnitScale(ratio: real, d: real)
    requires 0.0 <= ratio <= 1.0 && d >= 0.0
    ensures 0.0 <= ratio * d <= d
  {
    assert d - ratio * d == (1.0 - ratio) * d;
  }

  // ---------------------------------------------------------------------------
  // Range values

  predicate Ordered(r: SliderRange) { r.start <= r.end }

  predicate RangeWithin(r: SliderRange, lo: real, hi: real)
  {
    lo <= r.start <= hi && lo <= r.end <= hi
  }

  /** `displayRange$$` (and the pair `normalizeEffect` writes back): both
      endpoints clamped, then put in order. */
  function DisplayRange(r: SliderRange, lo: real, hi: real): (d: SliderRange)
    ensures Ordered(d)
    ensures lo <= hi ==> RangeWithin(d, lo, hi)
    ensures multiset{d.start, d.end} == multiset{Clamp(r.start, lo, hi), Clamp(r.end, lo, hi)}
  {
    var clampedStart := Clamp(r.start, lo, hi);
    var clampedEnd := Clamp(r.end, lo, hi);
    SliderRange(Min(clampedStart, clampedEnd), Max(clampedStart, clampedEnd))
  }

  /** An ordered pair inside the bounds is left as it is... */
  lemma DisplayRangeKeepsSettled(r: SliderRange, lo: real, hi: real)
    requires Ordered(r) && RangeWithin(r, lo, hi)
    ensures DisplayRange(r, lo, hi) == r
  {
  }

  /** ...so a second normalisation pass changes nothing. */
  lemma DisplayRangeIdempotent(r: SliderRange, lo: real, hi: real)
    requires lo <= hi
    ensures DisplayRange(DisplayRange(r, lo, hi), lo, hi) == DisplayRange(r, lo, hi)
  {
    DisplayRangeKeepsSettled(DisplayRange(r, lo, hi), lo, hi);
  }

  function Endpoint(r: SliderRange, t: Thumb): real
  {
    if t == Start then r.start else r.end
  }

  function OtherThumb(t: Thumb): Thumb { if t == Start then End else Start }

  /** `getClosestThumb`: the thumb nearer to `v`; on a tie, `Start`. */
  function ClosestThumb(v: real, display: SliderRange): (t: Thumb)
    ensures Abs(v - Endpoint(display, t)) <= Abs(v - Endpoint(display, OtherThumb(t)))
    ensures t == End ==> Abs(v - display.end) < Abs(v - display.start)
  {
    var distStart := Abs(v - display.start);
    var distEnd := Abs(v - display.end);
    if distStart <= distEnd then Start else End
  }

  /** The pair `applyRangeValue` writes: the moved endpoint takes `v` unless
      that would cross the other endpoint, where it stops. */
  function WithEndpoint(r: SliderRange, v: real, t: Thumb): (r': SliderRange)
    ensures Ordered(r')
    ensures Endpoint(r', OtherThumb(t)) == Endpoint(r, OtherThumb(t))
    ensures t == Start ==> r'.start == (if v <= r.end then v else r.end)
    ensures t == End ==> r'.end == (if v >= r.start then v else r.start)
  {
    if t == Start then SliderRange(Min(v, r.end), r.end)
    else SliderRange(r.start, Max(v, r.start))
  }

  /** Moving one endpoint to a value inside the bounds keeps a range that
      was inside the bounds inside them. */
  lemma WithEndpointStaysWithin(r: SliderRange, v: real, t: Thumb, lo: real, hi: real)
    requires RangeWithin(r, lo, hi) && lo <= v <= hi
    ensures RangeWithin(WithEndpoint(r, v, t), lo, hi)
  {
  }

  // ---------------------------------------------------------------------------
  // The component

  class VSlider {
    const config: SliderConfig
    /** The `value` model (single mode). */
    var value: real
    /** The `range` model (range mode). */
    var range: SliderRange
    /** The drag session: `activeThumb$$`, `isDragging$$`, `pointerId$$`. */
    var activeThumb: Thumb
    var isDragging: bool
    var pointerId: Option<int>

    function Lo(): real { ResolvedMin(config) }
    function Hi(): real { ResolvedMax(config) }

    /** A drag is under way exactly when a pointer owns it. */
    ghost predicate SessionConsistent()
      reads this
    {
      isDragging <==> pointerId.Some?
    }

    /** The value of the active mode is inside the bounds (and, for a
        range, in order): what `normalizeEffect` establishes. */
    ghost predicate Settled()
      reads this
    {
      if config.isRange then Ordered(range) && RangeWithin(range, Lo(), Hi())
      else Lo() <= value <= Hi()
    }

    /** True when the event belongs to the running drag. */
    predicate OwnsDrag(ev: PointerEvent)
      reads this
    {
      isDragging && pointerId == Some(ev.pointerId)
    }

    constructor (config: SliderConfig)
      ensures this.config == config
      ensures value == 0.0 && range == SliderRange(0.0, 100.0)
      ensures activeThumb == End && !isDragging && pointerId == None
      ensures SessionConsistent()
    {
      this.config := config;
      value := 0.0;
      range := SliderRange(0.0, 100.0);
      activeThumb := End;
      isDragging := false;
      pointerId := None;
    }

    /** `normalizeEffect`: clamps the value of the active mode and orders a
        range, writing only when something differs. */
    method Normalize()
      modifies this`value, this`range
      ensures Settled()
      ensures config.isRange ==> range == DisplayRange(old(range), Lo(), Hi()) && value == old(value)
      ensures !config.isRange ==> value == Clamp(old(value), Lo(), Hi()) && range == old(range)
      ensures old(Settled()) ==> value == old(value) && range == old(range)
    {
      var lo, hi := Lo(), Hi();
      if config.isRange {
        var next := DisplayRange(range, lo, hi);
        if range != next {
          range := next;
        }
        if old(Settled()) {
          DisplayRangeKeepsSettled(old(range), lo, hi);
        }
        return;
      }
      var clamped := Clamp(value, lo, hi);
      if value != clamped {
        value := clamped;
      }
    }

    /** `applyRangeValue`. */
    method ApplyRangeValue(v: real, t: Thumb)
      modifies this`range
      ensures range == WithEndpoint(old(range), v, t)
    {
      if t == Start {
        range := SliderRange(Min(v, range.end), range.end);
        return;
      }
      range := SliderRange(range.start, Max(v, range.start));
    }

    /** `applyValue`: clamps, then writes the value (single mode) or moves
        one endpoint (range mode). */
    method ApplyValue(v: real, t: Thumb)
      modifies this`value, this`range
      ensures !config.isRange ==> value == Clamp(v, Lo(), Hi()) && range == old(range)
      ensures config.isRange ==> range == WithEndpoint(old(range), Clamp(v, Lo(), Hi()), t) && value == old(value)
      ensures old(Settled()) ==> Settled()
    {
      var clamped := Clamp(v, Lo(), Hi());
      if !config.isRange {
        value := clamped;
        return;
      }
      ApplyRangeValue(clamped, t);
    }

    /** `startDrag`: opens a session for the event's pointer and applies
        `initialValue`, or else the value under the pointer. */
    method StartDrag(ev: PointerEvent, track: TrackRect, t: Thumb, initialValue: Option<real>)
      modifies this
      ensures activeThumb == t && isDragging && pointerId == Some(ev.pointerId)
      ensures SessionConsistent()
      ensures var v := if initialValue.Some? then initialValue.value else PositionToValue(config, track, ev.clientX, t);
              && (!config.isRange ==> value == Clamp(v, Lo(), Hi()) && range == old(range))
              && (config.isRange ==> range == WithEndpoint(old(range), Clamp(v, Lo(), Hi()), t) && value == old(value))
      ensures old(Settled()) ==> Settled()
    {
      activeThumb := t;
      isDragging := true;
      pointerId := Some(ev.pointerId);
      var v := if initialValue.Some? then initialValue.value else PositionToValue(config, track, ev.clientX, t);
      ApplyValue(v, t);
    }

    /** `onTrackPointerDown`: a primary press on the track starts a drag.
        In range mode the thumb nearer to the pointer's edge reading is
        taken; in single mode the `End` thumb. */
    method OnTrackPointerDown(ev: PointerEvent, track: TrackRect)
      modifies this
      ensures ev.button != PrimaryButton ==> unchanged(this)
      ensures ev.button == PrimaryButton ==>
                isDragging && pointerId == Some(ev.pointerId) && SessionConsistent()
                && activeThumb == (if config.isRange
                                   then ClosestThumb(PositionToValueForRangeEdge(config, track, ev.clientX),
                                                     DisplayRange(old(range), Lo(), Hi()))
                                   else End)
      ensures ev.button == PrimaryButton && !config.isRange ==>
                value == Clamp(PositionToValue(config, track, ev.clientX, End), Lo(), Hi()) && range == old(range)
      ensures ev.button == PrimaryButton && config.isRange ==>
                range == WithEndpoint(old(range), Clamp(PositionToValue(config, track, ev.clientX, activeThumb), Lo(), Hi()), activeThumb)
                && value == old(value)
      ensures old(Settled()) ==> Settled()
    {
      if ev.button != PrimaryButton {
        return;
      }
      if config.isRange {
        var v := PositionToValueForRangeEdge(config, track, ev.clientX);
        var thumb := ClosestThumb(v, DisplayRange(range, Lo(), Hi()));
        StartDrag(ev, track, thumb, Some(PositionToValue(config, track, ev.clientX, thumb)));
        return;
      }
      var v := PositionToValue(config, track, ev.clientX, End);
      StartDrag(ev, track, End, Some(v));
    }

    /** `onThumbPointerDown`: a primary press on a thumb starts a drag of
        that thumb and moves it under the pointer. */
    method OnThumbPointerDown(ev: PointerEvent, track: TrackRect, t: Thumb)
      modifies this
      ensures ev.button != PrimaryButton ==> unchanged(this)
      ensures ev.button == PrimaryButton ==>
                activeThumb == t && isDragging && pointerId == Some(ev.pointerId) && SessionConsistent()
      ensures ev.button == PrimaryButton && !config.isRange ==>
                value == Clamp(PositionToValue(config, track, ev.clientX, t), Lo(), Hi()) && range == old(range)
      ensures ev.button == PrimaryButton && config.isRange ==>
                range == WithEndpoint(old(range), Clamp(PositionToValue(config, track, ev.clientX, t), Lo(), Hi()), t)
                && value == old(value)
      ensures old(Settled()) ==> Settled()
    {
      if ev.button != PrimaryButton {
        return;
      }
      StartDrag(ev, track, t, None);
    }

    /** `onPointerMove`: only the pointer that owns the drag moves a thumb,
        and the value is recomputed from the absolute position. */
    method OnPointerMove(ev: PointerEvent, track: TrackRect)
      modifies this`value, this`range
      ensures !old(OwnsDrag(ev)) ==> value == old(value) && range == old(range)
      ensures old(OwnsDrag(ev)) && !config.isRange ==>
                value == Clamp(PositionToValue(config, track, ev.clientX, activeThumb), Lo(), Hi())
                && range == old(range)
      ensures old(OwnsDrag(ev)) && config.isRange ==>
                range == WithEndpoint(old(range), Clamp(PositionToValue(config, track, ev.clientX, activeThumb), Lo(), Hi()), activeThumb)
                && value == old(value)
      ensures old(Settled()) ==> Settled()
    {
      if !isDragging {
        return;
      }
      if pointerId != Some(ev.pointerId) {
        return;
      }
      var v := PositionToValue(config, track, ev.clientX, activeThumb);
      ApplyValue(v, activeThumb);
    }

    /** `onPointerUp`: the owning pointer ends the drag; any other event is
        ignored. */
    method OnPointerUp(ev: PointerEvent)
      modifies this`isDragging, this`pointerId
      ensures !old(OwnsDrag(ev)) ==> isDragging == old(isDragging) && pointerId == old(pointerId)
      ensures old(OwnsDrag(ev)) ==> !isDragging && pointerId == None
      ensures old(SessionConsistent()) ==> SessionConsistent()
    {
      if !isDragging {
        return;
      }
      if pointerId != Some(ev.pointerId) {
        return;
      }
      isDragging := false;
      pointerId := None;
    }
  }
}
