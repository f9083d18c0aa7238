/**
  The dashboard's humanizers: byte rates and byte counts scaled into binary
  units, and the remaining time rendered as hours, minutes and seconds.
  Both builds (src/torfrog.cpp and src/TorFrog.cpp) share this logic; only
  the printing calls differ.

  Doubles are modelled as `real`. The printed digits of a scaled value are
  not modelled: a humanized quantity is its mantissa, its unit and the number
  of decimals it is printed with.
*/
module Humanize {
  import Decimal

  /** 1024 raised to the power k. */
  function Pow1024(k: nat): (p: real)
    ensures p >= 1.0
  {
    if k == 0 then 1.0 else 1024.0 * Pow1024(k - 1)
  }

  /**
    The scaling loop `while (x >= 1024.0 && i < cap) { x /= 1024.0; ++i; }`
    counted from the top: `cap` is the number of steps still allowed. The
    result is the mantissa and the number of divisions performed.
  */
  function ScaleSteps(x: real, cap: nat): (r: (real, nat))
    ensures r.1 <= cap
    ensures r.0 * Pow1024(r.1) == x
    ensures r.1 < cap ==> r.0 < 1024.0
    ensures r.1 > 0 ==> r.0 >= 1.0
    decreases cap
  {
    if x >= 1024.0 && cap > 0 then
      var inner := ScaleSteps(x / 1024.0, cap - 1);
      assert inner.0 * Pow1024(inner.1 + 1) == 1024.0 * (inner.0 * Pow1024(inner.1));
      (inner.0, inner.1 + 1)
    else
      (x, 0)
  }

  /**
    Reference definition of the chosen unit: `i` is a unit index no larger
    than the cap, every smaller unit would leave a value of at least 1024,
    and unless the cap was reached the value in unit `i` is below 1024.
  */
  ghost predicate UnitFits(x: real, i: nat, cap: nat) {
    && i <= cap
    && (forall j: nat :: j < i ==> x >= 1024.0 * Pow1024(j))
    && (i < cap ==> x < 1024.0 * Pow1024(i))
  }

  /** At most one unit index fits a value. */
  lemma UnitFitsUnique(x: real, i: nat, k: nat, cap: nat)
    requires UnitFits(x, i, cap) && UnitFits(x, k, cap)
    ensures i == k
  {
  }

  /** The loop picks exactly the unit of the reference definition. */
  lemma ScaleStepsFits(x: real, cap: nat)
    ensures UnitFits(x, ScaleSteps(x, cap).1, cap)
  {
  }

  /**
    A humanized quantity: the mantissa `x` after scaling, the index of its
    unit in the unit table, and the number of decimals it is printed with.
  */
  datatype Scaled = Scaled(mantissa: real, unit: nat, decimals: nat)

  /** The scaled quantity denotes `x`: mantissa times the unit's power of 1024. */
  predicate Denotes(h: Scaled, x: real) {
    h.mantissa * Pow1024(h.unit) == x
  }

  /** Scale `x` with at most `cap` divisions; 0 decimals in the base unit, else 1. */
  function Humanized(x: real, cap: nat): (h: Scaled)
    ensures h.unit <= cap
    ensures Denotes(h, x)
    ensures UnitFits(x, h.unit, cap)
    ensures h.decimals == (if h.unit == 0 then 0 else 1)
  {
    ScaleStepsFits(x, cap);
    var (m, k) := ScaleSteps(x, cap);
    Scaled(m, k, if k == 0 then 0 else 1)
  }

  const RateUnits: seq<string> := ["B/s", "KB/s", "MB/s", "GB/s"]
  const SizeUnits: seq<string> := ["B", "KB", "MB", "GB", "TB"]

  /** `human_rate`: a byte/s rate scaled up to GB/s (unit index 3). */
  function HumanRate(bps: real): (h: Scaled)
    ensures h.unit < |RateUnits|
    ensures UnitFits(bps, h.unit, 3)
    ensures Denotes(h, bps)
    ensures h.decimals == 0 <==> h.unit == 0
  {
    Humanized(bps, 3)
  }

  /** `human_size`: a byte count, converted to double, scaled up to TB (unit index 4). */
  function HumanSize(b: int): (h: Scaled)
    ensures h.unit < |SizeUnits|
    ensures UnitFits(b as real, h.unit, 4)
    ensures Denotes(h, b as real)
    ensures h.decimals == 0 <==> h.unit == 0
  {
    Humanized(b as real, 4)
  }

  /** 1,572,864 B/s is shown as 1.5 MB/s with one decimal. */
  lemma HumanRateExample()
    ensures HumanRate(1572864.0) == Scaled(1.5, 2, 1)
    ensures RateUnits[HumanRate(1572864.0).unit] == "MB/s"
  {
  }

  /**
    A 64-bit double as far as `format_eta` cares: a finite value or one of
    the non-finite ones.
  */
  datatype Double = Finite(value: real) | NaN | Infinity(negative: bool)

  const EtaPlaceholder: string := "ETA --:--"

  /** `(long)(x + 0.5)` for a positive x: the nearest whole number, halves rounded up. */
  function RoundHalfUp(x: real): (n: nat)
    requires x > 0.0
    ensures n as real - 0.5 <= x < n as real + 0.5
  {
    (x + 0.5).Floor
  }

  /** Whole seconds split into hours, minutes below 60 and seconds below 60. */
  datatype Clock = Clock(hours: nat, minutes: nat, seconds: nat)

  function SplitSeconds(total: nat): (c: Clock)
    ensures c.minutes < 60 && c.seconds < 60
    ensures c.hours * 3600 + c.minutes * 60 + c.seconds == total
  {
    Clock(total / 3600, total % 3600 / 60, total % 3600 % 60)
  }

  datatype Option<T> = None | Some(value: T)

  /** The time a `format_eta` call shows, or None for the placeholder. */
  function EtaClock(d: Double): (c: Option<Clock>)
    ensures c.None? <==> !(d.Finite? && d.value > 0.0)
    ensures c.Some? ==>
      var s := c.value.hours * 3600 + c.value.minutes * 60 + c.value.seconds;
      s as real - 0.5 <= d.value < s as real + 0.5
    ensures c.Some? ==> c.value.minutes < 60 && c.value.seconds < 60
  {
    if d.Finite? && d.value > 0.0 then Some(SplitSeconds(RoundHalfUp(d.value))) else None
  }

  /** "ETA Hh Mm Ss" when the hour count is non-zero, else "ETA Mm Ss". */
  function ClockText(c: Clock): (t: string)
    ensures |t| >= 8 && t[..4] == "ETA " && t[|t| - 1] == 's'
    ensures 'h' in t <==> c.hours > 0
    ensures '-' !in t
  {
    "ETA "
    + (if c.hours > 0 then Decimal.NatToString(c.hours) + "h " else "")
    + Decimal.NatToString(c.minutes) + "m "
    + Decimal.NatToString(c.seconds) + "s"
  }

  /** `format_eta`. */
  function FormatEta(d: Double): (s: string)
    ensures s == EtaPlaceholder <==> !(d.Finite? && d.value > 0.0)
    ensures d.Finite? && d.value > 0.0 ==> s == ClockText(EtaClock(d).value)
  {
    match EtaClock(d)
    case None => EtaPlaceholder
    case Some(c) =>
      assert ClockText(c)[4] != '-';
      ClockText(c)
  }

  /** The rendered ETA shows an hour part exactly when the rounded time is at least an hour. */
  lemma EtaHourShown(d: Double)
    requires d.Finite? && d.value > 0.0
    ensures 'h' in FormatEta(d) <==> d.value >= 3599.5
  {
  }

  /** Worked examples of `format_eta`: the placeholder cases. */
  lemma FormatEtaPlaceholderExamples()
    ensures FormatEta(Finite(0.0)) == EtaPlaceholder
    ensures FormatEta(Finite(-5.0)) == EtaPlaceholder
    ensures FormatEta(NaN) == EtaPlaceholder
    ensures FormatEta(Infinity(false)) == EtaPlaceholder
  {
  }

  /** Worked example of `format_eta`: an ETA of over an hour shows the hour part. */
  lemma FormatEtaHourExample()
    ensures FormatEta(Finite(3661.0)) == "ETA 1h 1m 1s"
  {
    assert Decimal.NatToString(1) == "1";
    assert EtaClock(Finite(3661.0)) == Some(Clock(1, 1, 1));
    assert ClockText(Clock(1, 1, 1)) == "ETA 1h 1m 1s";
  }

  /** Worked examples of `format_eta`: a half second is rounded up. */
  lemma FormatEtaRoundingExamples()
    ensures FormatEta(Finite(90.0)) == "ETA 1m 30s"
    ensures FormatEta(Finite(89.5)) == "ETA 1m 30s"
  {
    assert Decimal.NatToString(1) == "1";
    assert Decimal.NatToString(30) == "30";
    assert EtaClock(Finite(90.0)) == Some(Clock(0, 1, 30));
    assert EtaClock(Finite(89.5)) == Some(Clock(0, 1, 30));
    assert ClockText(Clock(0, 1, 30)) == "ETA 1m 30s";
  }
}
