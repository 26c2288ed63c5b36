/**
 * The progress bar (src/components/ui/ProgressBar.tsx): the fill width as a
 * clamped percentage of `max`, and the colour and height classes chosen by
 * the `variant` and `size` props, with their defaults.
 */
module ProgressBar {
  import opened Types
  import opened Numeric

  datatype Variant = Primary | Secondary | Success | Warning | Danger

  datatype Size = Sm | Md | Lg

  /** `max = 100` when the prop is not given. */
  function MaxOrDefault(max: Option<real>): real
  {
    if max.Some? then max.value else 100.0
  }

  /** `Math.min(100, Math.max(0, (value / max) * 100))`. Dividing by a zero
      `max` gives an infinity that the clamp pins to 0 or 100, except for 0 / 0,
      whose NaN passes through both Math.max and Math.min. */
  function Percentage(value: real, max: real): (p: Num)
    ensures p.NaN? <==> value == 0.0 && max == 0.0
    ensures !p.NaN? ==> p.Fin? && 0.0 <= p.v <= 100.0
    ensures max > 0.0 && 0.0 <= value <= max ==> p == Fin(value / max * 100.0)
    ensures max > 0.0 && value <= 0.0 ==> p == Fin(0.0)
    ensures max > 0.0 && value >= max ==> p == Fin(100.0)
  {
    ClampNum(0.0, 100.0, ScaleNum(Div(value, max), 100.0))
  }

  /** Against a positive maximum a larger value never draws a shorter bar. */
  lemma PercentageMonotone(v: real, w: real, max: real)
    requires max > 0.0 && v <= w
    ensures Percentage(v, max).Fin? && Percentage(w, max).Fin?
    ensures Percentage(v, max).v <= Percentage(w, max).v
  {
    assert v / max <= w / max;
    ClampMonotone(0.0, 100.0, v / max * 100.0, w / max * 100.0);
  }

  /** getVariantClasses, with `variant = 'primary'` when the prop is not given. */
  function VariantClass(variant: Option<Variant>): (c: string)
    ensures c == "bg-blue-600" <==> variant == None || variant == Some(Primary)
  {
    match variant
    case None => "bg-blue-600"
    case Some(Primary) => "bg-blue-600"
    case Some(Secondary) => "bg-gray-600"
    case Some(Success) => "bg-green-600"
    case Some(Warning) => "bg-amber-500"
    case Some(Danger) => "bg-red-600"
  }

  /** Each variant has a colour of its own. */
  lemma VariantClassInjective(a: Variant, b: Variant)
    requires a != b
    ensures VariantClass(Some(a)) != VariantClass(Some(b))
  {
  }

  /** getSizeClasses, with `size = 'md'` when the prop is not given. */
  function SizeClass(size: Option<Size>): (c: string)
    ensures c == "h-2" <==> size == None || size == Some(Md)
  {
    match size
    case None => "h-2"
    case Some(Sm) => "h-1"
    case Some(Md) => "h-2"
    case Some(Lg) => "h-4"
  }

  /** Each size has a height of its own. */
  lemma SizeClassInjective(a: Size, b: Size)
    requires a != b
    ensures SizeClass(Some(a)) != SizeClass(Some(b))
  {
  }
}
