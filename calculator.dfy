/** The savings estimator: two slider inputs, a two-bar chart dataset and an annual savings figure,
    computed in exact rational arithmetic. */
module Calculator {

  /** A monthly bill in dollars and an efficiency gain in percent, as the sliders deliver them. */
  datatype Inputs = Inputs(currentBill: int, efficiencyGain: int)

  /** The estimator opens at a $200 bill and a 35% gain. */
  const InitialInputs: Inputs := Inputs(200, 35)

  /** The values a range input with these attributes can hold. */
  predicate OnSlider(v: int, min: int, max: int, step: int)
    requires step > 0
  {
    min <= v <= max && (v - min) % step == 0
  }

  /** Inputs the two sliders can produce: a bill in {50, 100, ..., 2000}, a gain in {10, 15, ..., 60}. */
  predicate Reachable(i: Inputs)
  {
    OnSlider(i.currentBill, 50, 2000, 50) && OnSlider(i.efficiencyGain, 10, 60, 5)
  }

  /** The bill slider's change handler replaces the bill and keeps the gain. */
  function SetBill(i: Inputs, v: int): (r: Inputs)
    requires OnSlider(v, 50, 2000, 50)
    ensures Reachable(i) ==> Reachable(r)
    ensures r.currentBill == v && r.efficiencyGain == i.efficiencyGain
  {
    i.(currentBill := v)
  }

  /** The gain slider's change handler replaces the gain and keeps the bill. */
  function SetGain(i: Inputs, v: int): (r: Inputs)
    requires OnSlider(v, 10, 60, 5)
    ensures Reachable(i) ==> Reachable(r)
    ensures r.efficiencyGain == v && r.currentBill == i.currentBill
  {
    i.(efficiencyGain := v)
  }

  /** The projected monthly bill after the efficiency gain: the bill's remaining share
      `100 - gain` percent. */
  function Optimum(i: Inputs): (r: real)
    ensures r == (i.currentBill * (100 - i.efficiencyGain)) as real / 100.0
  {
    var b, g := i.currentBill as real, i.efficiencyGain as real;
    assert b * (1.0 - g / 100.0) == b * (100.0 - g) / 100.0;
    b * (1.0 - g / 100.0)
  }

  /** The saving per year, twelve months of the difference between the two bills, is the gain's
      share of twelve monthly bills. */
  function YearlySavings(i: Inputs): (r: real)
    ensures r == (i.currentBill * i.efficiencyGain * 12) as real / 100.0
  {
    var b, g := i.currentBill as real, i.efficiencyGain as real;
    assert (b - b * (100.0 - g) / 100.0) * 12.0 == b * g * 12.0 / 100.0;
    (b - Optimum(i)) * 12.0
  }

  /** One bar of the chart. */
  datatype Bar = Bar(name: string, value: real, color: string)

  /** The dataset the bar chart receives: exactly two bars, the current bill first and the
      projected bill second, and the difference between their heights is a twelfth of the
      yearly saving. */
  function ChartData(i: Inputs): (r: seq<Bar>)
    ensures |r| == 2
    ensures r[0].name == "Current" && r[0].value == i.currentBill as real
    ensures r[1].name == "Optimum"
    ensures r[1].value == i.currentBill as real * (100 - i.efficiencyGain) as real / 100.0
    ensures (r[0].value - r[1].value) * 12.0 == YearlySavings(i)
  {
    [ Bar("Current", i.currentBill as real, "#475569"),
      Bar("Optimum", Optimum(i), "#22d3ee") ]
  }

  /** For every input the sliders allow, the projected bill is positive and below the current one,
      so the saving is positive. */
  lemma ReachableBounds(i: Inputs)
    requires Reachable(i)
    ensures 0.0 < Optimum(i) < i.currentBill as real
    ensures YearlySavings(i) > 0.0
  {
    var b := i.currentBill as real;
    var f := 1.0 - i.efficiencyGain as real / 100.0;
    assert 10.0 <= i.efficiencyGain as real <= 60.0;
    assert 0.4 <= f <= 0.9;
    assert b >= 50.0;
    ProductBounds(b, f);
    assert Optimum(i) == b * f;
    assert b - Optimum(i) > 0.0;
    assert YearlySavings(i) == (b - Optimum(i)) * 12.0;
  }

  lemma ProductBounds(b: real, f: real)
    requires b > 0.0 && 0.0 < f < 1.0
    ensures 0.0 < b * f < b
  {
    assert b * f < b * 1.0;
  }

  /** For every input the sliders allow, the yearly saving is a whole number of dollars and a
      multiple of 30: it is 30 times the two slider positions counted from zero in their steps. */
  function WholeSavings(i: Inputs): (n: int)
    requires Reachable(i)
    ensures n as real == YearlySavings(i)
    ensures n > 0 && n % 30 == 0
  {
    var a := i.currentBill / 50;
    var k := i.efficiencyGain / 5;
    var p := a * k;
    assert i.currentBill == 50 * a && i.efficiencyGain == 5 * k;
    assert i.currentBill * i.efficiencyGain * 12 == 3000 * p by {
      assert i.currentBill * i.efficiencyGain == 250 * p;
    }
    assert YearlySavings(i) == (3000 * p) as real / 100.0;
    assert (3000 * p) as real / 100.0 == (30 * p) as real;
    assert a >= 1 && k >= 2;
    assert p >= 1 by { MulPositive(a, k); }
    30 * p
  }

  lemma MulPositive(a: int, k: int)
    requires a >= 1 && k >= 1
    ensures a * k >= 1
  {
  }

  /** Rounding the saving to whole dollars for display discards nothing. */
  lemma DisplayIsExact(i: Inputs)
    requires Reachable(i)
    ensures YearlySavings(i).Floor as real == YearlySavings(i)
  {
    var n := WholeSavings(i);
    assert YearlySavings(i) == n as real;
  }

  /** The initial inputs are slider positions; they give a $130 projection and $840 a year. */
  lemma InitialExample()
    ensures Reachable(InitialInputs)
    ensures Optimum(InitialInputs) == 130.0 && YearlySavings(InitialInputs) == 840.0
  {
  }

  /** At both sliders' maxima the projection is $800 and the saving $14400 a year. */
  lemma MaximumExample()
    ensures Reachable(Inputs(2000, 60))
    ensures Optimum(Inputs(2000, 60)) == 800.0 && YearlySavings(Inputs(2000, 60)) == 14400.0
  {
  }
}
