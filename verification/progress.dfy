/** `VProgress`: a bar over a scale that is widened to include the value,
    with labels at the ends and, when the value leaves the configured
    interval, a middle label at the bound it passed. Numbers are reals;
    `${x}` is the parameter `fmt`. */
module Progress {
  import opened Common

  /** The numeric part of `VProgressConfig`; `None` is an absent property. */
  datatype ProgressConfig = ProgressConfig(value: Option<real>, min: Option<real>, max: Option<real>, valueSuffix: Option<string>)

  /** `settings$$`: the configuration over the defaults. */
  datatype ProgressSettings = ProgressSettings(value: real, min: real, max: real, valueSuffix: string)

  /** `{...DEFAULT_V_PROGRESS_CONFIG, ...config}`: value 0, min 0, max 100 and
      no suffix unless given. */
  function Resolve(c: ProgressConfig): (s: ProgressSettings)
    ensures s.value == (if c.value.Some? then c.value.value else 0.0)
    ensures s.min == (if c.min.Some? then c.min.value else 0.0)
    ensures s.max == (if c.max.Some? then c.max.value else 100.0)
    ensures s.valueSuffix == (if c.valueSuffix.Some? then c.valueSuffix.value else "")
  {
    ProgressSettings(
      match c.value case Some(v) => v case None => 0.0,
      match c.min case Some(v) => v case None => 0.0,
      match c.max case Some(v) => v case None => 100.0,
      match c.valueSuffix case Some(v) => v case None => "")
  }

  // ---------------------------------------------------------------------------
  // The scale

  /** `scaleMin$$`: the smaller of `min` and the value. */
  function ScaleMin(s: ProgressSettings): (lo: real)
    ensures lo <= s.min && lo <= s.value
    ensures lo == s.min || lo == s.value
  {
    Min(s.min, s.value)
  }

  /** `scaleMax$$`: the larger of `max` and the value. */
  function ScaleMax(s: ProgressSettings): (hi: real)
    ensures hi >= s.max && hi >= s.value
    ensures hi == s.max || hi == s.value
  {
    Max(s.max, s.value)
  }

  /** `scaleRange$$`. */
  function ScaleRange(s: ProgressSettings): real
  {
    ScaleMax(s) - ScaleMin(s)
  }

  /** For `min <= max` the scale holds the interval and the value. */
  lemma ScaleHoldsValue(s: ProgressSettings)
    requires s.min <= s.max
    ensures ScaleMin(s) <= s.value <= ScaleMax(s)
    ensures ScaleMin(s) <= s.min <= s.max <= ScaleMax(s)
    ensures ScaleRange(s) >= 0.0
  {
  }

  /** `a / b` lies in [0, 1] when `0 <= a <= b`. */
  lemma FractionInUnit(a: real, b: real)
    requires 0.0 <= a <= b && 0.0 < b
    ensures 0.0 <= a / b <= 1.0
  {
    assert a / b * b == a;
  }

  lemma FractionMonotone(a1: real, a2: real, b: real)
    requires a1 <= a2 && 0.0 < b
    ensures a1 / b <= a2 / b
  {
    assert a1 / b * b == a1 && a2 / b * b == a2;
  }

  /** `calculatePercentage`: where `x` sits on the scale, in percent; 0 on an
      empty scale. */
  function Percentage(s: ProgressSettings, x: real): (p: real)
    ensures ScaleRange(s) == 0.0 ==> p == 0.0
    ensures ScaleRange(s) > 0.0 && ScaleMin(s) <= x <= ScaleMax(s) ==> 0.0 <= p <= 100.0
  {
    var lo := ScaleMin(s);
    var range := ScaleRange(s);
    if range == 0.0 then 0.0
    else
      assert range > 0.0 && lo <= x <= ScaleMax(s) ==> 0.0 <= (x - lo) / range <= 1.0 by {
        if range > 0.0 && lo <= x <= ScaleMax(s) {
          FractionInUnit(x - lo, range);
        }
      }
      (x - lo) / range * 100.0
  }

  /** On a non-empty scale the ends are 0 % and 100 %, and the percentage
      grows with the position. */
  lemma PercentageEndsAndOrder(s: ProgressSettings, x1: real, x2: real)
    requires ScaleRange(s) > 0.0
    ensures Percentage(s, ScaleMin(s)) == 0.0
    ensures Percentage(s, ScaleMax(s)) == 100.0
    ensures x1 <= x2 ==> Percentage(s, x1) <= Percentage(s, x2)
  {
    var lo, range := ScaleMin(s), ScaleRange(s);
    assert ScaleMax(s) - lo == range;
    assert range / range == 1.0;
    if x1 <= x2 {
      FractionMonotone(x1 - lo, x2 - lo, range);
    }
  }

  /** For `min <= max` the value's percentage lies in [0, 100]. */
  lemma ValuePercentageInRange(s: ProgressSettings)
    requires s.min <= s.max
    ensures 0.0 <= Percentage(s, s.value) <= 100.0
  {
    ScaleHoldsValue(s);
  }

  // ---------------------------------------------------------------------------
  // percentage$$ and calculateClampedPosition

  /** The number `percentage$$` shows: a percentage strictly between 0 and 3
      is raised to 3; any other is shown as it is. */
  function ShownPercentage(p: real): (d: real)
    ensures 0.0 < p < 3.0 ==> d == 3.0
    ensures !(0.0 < p < 3.0) ==> d == p
  {
    if p < 3.0 && p > 0.0 then 3.0 else p
  }

  /** `percentage$$`: the bar's width as CSS text. */
  function PercentageText(s: ProgressSettings, fmt: real -> string): (t: string)
    ensures var p := Percentage(s, s.value);
            t == (if 0.0 < p < 3.0 then "3%" else fmt(p) + "%")
  {
    var p := Percentage(s, s.value);
    if p < 3.0 && p > 0.0 then "3%" else fmt(p) + "%"
  }

  /** A visible bar is at least 3 % wide, and a larger percentage is never
      shown smaller. */
  lemma ShownPercentageFloor(p: real, q: real)
    ensures p > 0.0 ==> ShownPercentage(p) >= 3.0 && ShownPercentage(p) > 0.0
    ensures ShownPercentage(p) >= p
    ensures p <= q ==> ShownPercentage(p) <= ShownPercentage(q)
  {
  }

  /** When `fmt` writes 3 as "3", the text is the shown percentage written out. */
  lemma PercentageTextIsShown(s: ProgressSettings, fmt: real -> string)
    requires fmt(3.0) == "3"
    ensures PercentageText(s, fmt) == fmt(ShownPercentage(Percentage(s, s.value))) + "%"
  {
  }

  /** `Math.max(10, Math.min(percentage, 90))`. */
  function ClampPosition(p: real): (c: real)
    ensures 10.0 <= c <= 90.0
    ensures 10.0 <= p <= 90.0 ==> c == p
    ensures p < 10.0 ==> c == 10.0
    ensures p > 90.0 ==> c == 90.0
  {
    Max(10.0, Min(p, 90.0))
  }

  /** `calculateClampedPosition`: a label's position as CSS text. */
  function PositionText(s: ProgressSettings, x: real, fmt: real -> string): (t: string)
    ensures exists c :: 10.0 <= c <= 90.0 && t == fmt(c) + "%"
  {
    var c := ClampPosition(Percentage(s, x));
    fmt(c) + "%"
  }

  /** Clamping keeps the order of positions and is idempotent. */
  lemma ClampPositionMonotone(p: real, q: real)
    ensures p <= q ==> ClampPosition(p) <= ClampPosition(q)
    ensures ClampPosition(ClampPosition(p)) == ClampPosition(p)
  {
  }

  // ---------------------------------------------------------------------------
  // Labels

  /** `leftLabel$$`: the value when it is below `min`, else `min`. */
  function LeftLabel(s: ProgressSettings): (l: real)
    ensures s.value < s.min ==> l == s.value
    ensures s.value >= s.min ==> l == s.min
  {
    if s.value < s.min then s.value else s.min
  }

  /** `leftLabelIsPrimary$$`. */
  predicate LeftLabelIsPrimary(s: ProgressSettings)
  {
    LeftLabel(s) == s.min
  }

  /** `rightLabel$$`: the value when it is above `max`, else `max`. */
  function RightLabel(s: ProgressSettings): (r: real)
    ensures s.value > s.max ==> r == s.value
    ensures s.value <= s.max ==> r == s.max
  {
    if s.value > s.max then s.value else s.max
  }

  /** `rightLabelIsPrimary$$`. */
  predicate RightLabelIsPrimary(s: ProgressSettings)
  {
    RightLabel(s) == s.max
  }

  /** The end labels are the ends of the scale, and an end label is
      primary exactly when the value has not passed that bound. */
  lemma EndLabelsAreScale(s: ProgressSettings)
    ensures LeftLabel(s) == ScaleMin(s) && RightLabel(s) == ScaleMax(s)
    ensures LeftLabelIsPrimary(s) <==> s.value >= s.min
    ensures RightLabelIsPrimary(s) <==> s.value <= s.max
  {
  }

  /** `middleLabel$$`: the bound the value passed, or none. */
  function MiddleLabel(s: ProgressSettings): (m: Option<real>)
    ensures m.None? <==> s.min <= s.value <= s.max
    ensures s.value < s.min ==> m == Some(s.min)
    ensures s.min <= s.value && s.value > s.max ==> m == Some(s.max)
  {
    if s.value < s.min then Some(s.min)
    else if s.value > s.max then Some(s.max)
    else None
  }

  /** `middlePosition$$`. */
  function MiddlePosition(s: ProgressSettings, fmt: real -> string): (t: Option<string>)
    ensures t.Some? <==> MiddleLabel(s).Some?
    ensures t.Some? ==> t.value == fmt(ClampPosition(Percentage(s, MiddleLabel(s).value))) + "%"
    ensures s.value < s.min ==> t == Some(fmt(ClampPosition(Percentage(s, s.min))) + "%")
    ensures s.min <= s.value && s.value > s.max ==> t == Some(fmt(ClampPosition(Percentage(s, s.max))) + "%")
    ensures t.Some? ==> exists c :: 10.0 <= c <= 90.0 && t.value == fmt(c) + "%"
  {
    match MiddleLabel(s)
    case None => None
    case Some(m) => Some(PositionText(s, m, fmt))
  }

  /** With `min <= max`, a middle label shows exactly when one end label is
      not primary, and it then carries the bound that end label replaced. */
  lemma MiddleLabelReplacesEnd(s: ProgressSettings)
    requires s.min <= s.max
    ensures MiddleLabel(s).Some? <==> !LeftLabelIsPrimary(s) || !RightLabelIsPrimary(s)
    ensures !LeftLabelIsPrimary(s) ==> MiddleLabel(s) == Some(s.min) && RightLabelIsPrimary(s)
    ensures !RightLabelIsPrimary(s) ==> MiddleLabel(s) == Some(s.max) && LeftLabelIsPrimary(s)
  {
  }

  /** `shouldShowCurrentValue$$`: the value is neither end label. */
  predicate ShouldShowCurrentValue(s: ProgressSettings)
  {
    s.value != LeftLabel(s) && s.value != RightLabel(s)
  }

  /** The current value shows exactly when it lies strictly inside the
      configured interval. */
  lemma ShowCurrentValueIffInside(s: ProgressSettings)
    ensures ShouldShowCurrentValue(s) <==> s.min < s.value < s.max
  {
  }

  /** `formatValue`: the number followed by the suffix. */
  function FormatValue(s: ProgressSettings, x: real, fmt: real -> string): (t: string)
    ensures |t| >= |s.valueSuffix| && t[|t| - |s.valueSuffix|..] == s.valueSuffix
    ensures t[..|t| - |s.valueSuffix|] == fmt(x)
  {
    fmt(x) + s.valueSuffix
  }
}
