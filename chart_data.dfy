/**
 * The Chart.js callbacks the two charts install: the y-axis tick label of
 * the volume chart and the tooltip of the type doughnut.
 */
module ChartData {
  import opened Wrappers
  import opened Rounding
  import Text

  /**
   * A volume tick label, "RWF " followed by: the value in millions with an
   * `M` suffix (the one-decimal digits of `toFixed(1)` are not modelled), the
   * value rounded to whole thousands with a `K` suffix, or the value itself.
   */
  datatype TickLabel = Millions(value: int) | Thousands(thousands: int) | Plain(value: int)

  const Million: int := 1000000
  const Thousand: int := 1000

  /** The tick callback: the first threshold reached picks the unit. */
  function VolumeTick(value: int): (r: TickLabel)
    ensures r.Millions? <==> value >= Million
    ensures r.Thousands? <==> Thousand <= value < Million
    ensures r.Plain? <==> value < Thousand
    ensures r.Millions? || r.Plain? ==> r.value == value
    ensures r.Thousands? ==> IsRounded(r.thousands, value, Thousand)
  {
    if value >= Million then Millions(value)
    else if value >= Thousand then Thousands(RoundDiv(value, Thousand))
    else Plain(value)
  }

  const Currency: string := "RWF "

  /**
   * `'RWF ' + (value / 1000).toFixed(0) + 'K'` and `'RWF ' + value`; `None`
   * for the millions form. The digits between the currency and the suffix
   * are canonical (non-empty, no leading zero except "0" itself) and read
   * back as the number the label stands for; a negative plain value carries
   * a minus sign before its magnitude's digits.
   */
  function TickText(t: TickLabel): (s: Option<string>)
    ensures s.Some? <==> !t.Millions?
    ensures t.Thousands? ==> |s.value| > |Currency| && s.value[..|Currency|] == Currency && s.value[|s.value| - 1] == 'K'
    ensures t.Thousands? && t.thousands >= 0 ==>
      Text.IsDigits(s.value[|Currency|..|s.value| - 1]) && Text.ParseNat(s.value[|Currency|..|s.value| - 1]) == t.thousands
    ensures t.Thousands? && t.thousands >= 0 ==>
      var d := s.value[|Currency|..|s.value| - 1]; |d| >= 1 && (d[0] == '0' ==> d == "0")
    ensures t.Plain? ==> |s.value| > |Currency| && s.value[..|Currency|] == Currency
    ensures t.Plain? && t.value >= 0 ==>
      Text.IsDigits(s.value[|Currency|..]) && Text.ParseNat(s.value[|Currency|..]) == t.value
    ensures t.Plain? && t.value >= 0 ==>
      var d := s.value[|Currency|..]; |d| >= 1 && (d[0] == '0' ==> d == "0")
    ensures t.Plain? && t.value < 0 ==>
      var d := s.value[|Currency| + 1..];
      s.value[|Currency|] == '-' && Text.IsDigits(d) && Text.ParseNat(d) == -t.value
  {
    match t
    case Millions(_) => None
    case Thousands(k) =>
      var s := Currency + Text.IntToString(k) + "K";
      assert s[|Currency|..|s| - 1] == Text.IntToString(k);
      if k >= 0 then Text.ParseNatToString(k); Some(s) else Some(s)
    case Plain(v) =>
      var s := Currency + Text.IntToString(v);
      assert s[|Currency|..] == Text.IntToString(v);
      if v >= 0 then Text.ParseNatToString(v); Some(s)
      else
        assert s[|Currency| + 1..] == Text.NatToString(-v);
        Text.ParseNatToString(-v); Some(s)
  }

  /** The unit of a tick, in increasing order. */
  function UnitRank(t: TickLabel): nat {
    match t
    case Plain(_) => 0
    case Thousands(_) => 1
    case Millions(_) => 2
  }

  /**
   * Larger values never use a smaller unit, and within the thousands the
   * shown number never decreases; it stays between 1 and 1000 (so values
   * from 999,500 up to 999,999 show as "1000K").
   */
  lemma VolumeTickMonotonic(v: int, w: int)
    requires v <= w
    ensures UnitRank(VolumeTick(v)) <= UnitRank(VolumeTick(w))
    ensures VolumeTick(v).Thousands? && VolumeTick(w).Thousands? ==>
      VolumeTick(v).thousands <= VolumeTick(w).thousands
  {
    if VolumeTick(v).Thousands? && VolumeTick(w).Thousands? {
      RoundDivMonotonic(v, w, Thousand);
    }
  }

  /** Thousands are shown as 1 to 1000. */
  lemma ThousandsRange(v: int)
    requires Thousand <= v < Million
    ensures 1 <= VolumeTick(v).thousands <= 1000
    ensures 999500 <= v ==> VolumeTick(v).thousands == 1000
  {
    RoundDivMonotonic(Thousand, v, Thousand);
    RoundDivMonotonic(v, Million - 1, Thousand);
    assert RoundDiv(Thousand, Thousand) == 1;
    assert RoundDiv(Million - 1, Thousand) == 1000;
  }

  /** 500 is shown as "RWF 500" and 2,500 as "RWF 3K"; 1,250,000 uses the millions form. */
  lemma VolumeTickExamples()
    ensures TickText(VolumeTick(500)) == Some("RWF 500")
    ensures TickText(VolumeTick(2500)) == Some("RWF 3K")
    ensures VolumeTick(1250000).Millions?
  {
    assert VolumeTick(2500) == Thousands(3);
    assert Text.IntToString(3) == "3";
    assert "RWF " + "3" + "K" == "RWF 3K";
    assert Text.IntToString(500) == "500" by {
      assert Text.NatToString(5) == "5";
      assert Text.NatToString(50) == "5" + "0";
      assert Text.NatToString(500) == "50" + "0";
    }
    assert "RWF " + "500" == "RWF 500";
  }

  // ---------------------------------------------------------------------------
  // Doughnut tooltip

  /**
   * A count as Chart.js hands it to the tooltip: JSON `null` is a missing
   * count, which `context.raw || 0` reads as 0 and which `a + b` in the
   * `reduce` also adds as 0.
   */
  function CountOf(c: Option<nat>): (n: nat)
    ensures c.Some? ==> n == c.value
    ensures c.None? ==> n == 0
  {
    c.GetOr(0)
  }

  /** `context.dataset.data.reduce((a, b) => a + b, 0)`. */
  function Total(data: seq<Option<nat>>): (t: nat)
    ensures data == [] ==> t == 0
  {
    if data == [] then 0 else Total(data[..|data| - 1]) + CountOf(data[|data| - 1])
  }

  /** Each count is at most the total of the dataset it belongs to. */
  lemma {:induction false} CountAtMostTotal(data: seq<Option<nat>>, i: int)
    requires 0 <= i < |data|
    ensures CountOf(data[i]) <= Total(data)
  {
    if i < |data| - 1 {
      assert data[..|data| - 1][i] == data[i];
      CountAtMostTotal(data[..|data| - 1], i);
    }
  }

  /** A dataset of only missing or zero counts totals 0, and only such a dataset. */
  lemma {:induction false} TotalZeroIff(data: seq<Option<nat>>)
    ensures Total(data) == 0 <==> forall i :: 0 <= i < |data| ==> CountOf(data[i]) == 0
  {
    if data != [] {
      var init := data[..|data| - 1];
      TotalZeroIff(init);
      assert forall i :: 0 <= i < |init| ==> init[i] == data[i];
    }
  }

  /**
   * `Math.round((value / total) * 100)` for the hovered element `i`.
   * A dataset that totals 0 divides 0 by 0: the source shows "NaN%", which is `None` here.
   */
  function TooltipPercentage(data: seq<Option<nat>>, i: int): (r: Option<int>)
    requires 0 <= i < |data|
    ensures Total(data) == 0 <==> r.None?
    ensures r.Some? ==> IsRounded(r.value, 100 * CountOf(data[i]), Total(data))
  {
    var total := Total(data);
    if total == 0 then None else Some(RoundedPercent(CountOf(data[i]), total))
  }

  /** Every percentage a tooltip shows lies between 0 and 100. */
  lemma TooltipPercentageBounds(data: seq<Option<nat>>, i: int)
    requires 0 <= i < |data|
    requires TooltipPercentage(data, i).Some?
    ensures 0 <= TooltipPercentage(data, i).value <= 100
  {
    CountAtMostTotal(data, i);
    RoundedPercentBounds(CountOf(data[i]), Total(data));
  }

  /** A slice with a larger count never shows a smaller percentage. */
  lemma TooltipPercentageMonotonic(data: seq<Option<nat>>, i: int, j: int)
    requires 0 <= i < |data| && 0 <= j < |data|
    requires CountOf(data[i]) <= CountOf(data[j]) && Total(data) > 0
    ensures TooltipPercentage(data, i).value <= TooltipPercentage(data, j).value
  {
    RoundDivMonotonic(100 * CountOf(data[i]), 100 * CountOf(data[j]), Total(data));
  }

  /** `${label}: ${value} (${percentage}%)`, with `context.label || ''`. */
  function TooltipText(chartLabel: Option<string>, data: seq<Option<nat>>, i: int): string
    requires 0 <= i < |data|
  {
    var pct := TooltipPercentage(data, i);
    chartLabel.GetOr("") + ": " + Text.IntToString(CountOf(data[i]))
      + " (" + (if pct.Some? then Text.IntToString(pct.value) else "NaN") + "%)"
  }

  /** Counts 30, 10, 10 show as 60%, 20% and 20%; an all-zero dataset shows "NaN%". */
  lemma TooltipExamples()
    ensures TooltipPercentage([Some(30), Some(10), Some(10)], 0) == Some(60)
    ensures TooltipPercentage([Some(30), Some(10), Some(10)], 1) == Some(20)
    ensures TooltipPercentage([Some(30), Some(10), Some(10)], 2) == Some(20)
    ensures TooltipText(Some("A"), [Some(0), None], 0) == "A: 0 (NaN%)"
  {
    var d: seq<Option<nat>> := [Some(30), Some(10), Some(10)];
    assert d[..2][..1] == [Some(30)];
    assert Total(d) == 50;
    var z: seq<Option<nat>> := [Some(0), None];
    assert z[..1] == [Some(0)];
    assert Total(z) == 0;
  }
}
