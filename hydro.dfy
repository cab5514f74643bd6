/**
 * The micro-hydro power calculator: the power formula P = rho * g * H * Q * eta,
 * the unit conversions derived from it for display, the annual energy and
 * savings figures, and the report row offered for download.
 *
 * All quantities are exact reals; the input widgets' bounds are the
 * preconditions of the derived figures.
 */
module Hydro {

  /** Density of fresh water, kg/m^3. */
  const Rho: real := 1000.0

  /** Gravitational acceleration, m/s^2. */
  const G: real := 9.81

  /** Smallest head the head widget accepts, in metres. */
  const MinHead: real := 1.0

  /** Smallest flow rate the flow widget accepts, in m^3/s. */
  const MinFlowRate: real := 0.001

  /** Range of the efficiency slider, in whole percent. */
  const MinEfficiencyPercent: int := 50
  const MaxEfficiencyPercent: int := 100

  /** Smallest electricity price the price widget accepts, per kWh. */
  const MinPrice: real := 0.01

  /** Power (W) at the smallest head, flow and efficiency the widgets allow. */
  const MinPower: real := 4.905

  /** Inputs that determine the power: what the three power widgets can produce. */
  predicate ValidPowerInputs(head: real, flowRate: real, efficiencyPercent: int) {
    && head >= MinHead
    && flowRate >= MinFlowRate
    && MinEfficiencyPercent <= efficiencyPercent <= MaxEfficiencyPercent
  }

  /** All four inputs, as the widgets can produce them. */
  predicate InDomain(head: real, flowRate: real, efficiencyPercent: int, price: real) {
    ValidPowerInputs(head, flowRate, efficiencyPercent) && price >= MinPrice
  }

  // ---------------------------------------------------------------------------
  // The formula and the conversions
  // ---------------------------------------------------------------------------

  /** Power in watts delivered by a turbine of the given efficiency under the given head and flow. */
  function CalculatePower(head: real, flowRate: real, efficiency: real): (power: real)
    ensures power == 9810.0 * head * flowRate * efficiency
    ensures head > 0.0 && flowRate > 0.0 && efficiency > 0.0 ==> power > 0.0
  {
    PositiveProduct(head, flowRate, efficiency);
    Rho * G * head * flowRate * efficiency
  }

  /** The efficiency slider's whole percent as the fraction the formula uses. */
  function EfficiencyFraction(percent: int): (efficiency: real)
    ensures efficiency * 100.0 == percent as real
    ensures MinEfficiencyPercent <= percent <= MaxEfficiencyPercent ==> 0.5 <= efficiency <= 1.0
  {
    percent as real / 100.0
  }

  /** A quantity in the unit a thousand times larger: W to kW, Wh to kWh. */
  function ToKilo(x: real): (kilo: real)
    ensures kilo * 1000.0 == x
  {
    x / 1000.0
  }

  /** Energy in watt-hours produced by running at the given power around the clock for a year of 365 days. */
  function AnnualWattHours(watts: real): (wattHours: real)
    ensures wattHours / 8760.0 == watts
  {
    watts * 24.0 * 365.0
  }

  /** Yearly cost of buying the given energy (in Wh) at the given price per kWh. */
  function AnnualSavings(annualWattHours: real, price: real): (savings: real)
    ensures price != 0.0 ==> savings / price == ToKilo(annualWattHours)
    ensures annualWattHours > 0.0 && price > 0.0 ==> savings > 0.0
  {
    annualWattHours / 1000.0 * price
  }

  // ---------------------------------------------------------------------------
  // The whole calculation
  // ---------------------------------------------------------------------------

  /** The downloadable report: one row with these six columns. */
  datatype ReportRow = ReportRow(
    headM: real,
    flowRateM3s: real,
    turbineEfficiencyPercent: real,
    powerOutputW: real,
    annualPowerGenerationKWh: real,
    annualSavings: real)

  /** Every figure the calculator derives from one set of inputs. */
  datatype Calculation = Calculation(
    powerW: real,
    powerKW: real,
    annualWh: real,
    annualKWh: real,
    annualSavings: real,
    report: ReportRow)

  /** The calculator run once on inputs the widgets allow. */
  function Compute(head: real, flowRate: real, efficiencyPercent: int, price: real): (c: Calculation)
    requires InDomain(head, flowRate, efficiencyPercent, price)
    ensures c.powerW == 9810.0 * head * flowRate * (efficiencyPercent as real / 100.0)
    ensures c.powerW >= MinPower
    ensures c.powerKW == c.powerW / 1000.0
    ensures c.annualWh == 8760.0 * c.powerW
    ensures c.annualKWh == c.annualWh / 1000.0
    ensures c.annualKWh == 8.76 * c.powerW == 8760.0 * c.powerKW
    ensures c.annualSavings == c.annualKWh * price
    ensures c.annualSavings > 0.0
    ensures c.report == ReportRow(head, flowRate, efficiencyPercent as real,
                                  c.powerW, c.annualKWh, c.annualSavings)
  {
    var efficiency := EfficiencyFraction(efficiencyPercent);
    var power := CalculatePower(head, flowRate, efficiency);
    var annualPower := AnnualWattHours(power);
    var savings := AnnualSavings(annualPower, price);
    PowerAtLeastMinimum(head, flowRate, efficiencyPercent);
    Calculation(
      power,
      ToKilo(power),
      annualPower,
      ToKilo(annualPower),
      savings,
      ReportRow(head, flowRate, efficiency * 100.0, power, ToKilo(annualPower), savings))
  }

  // ---------------------------------------------------------------------------
  // Arithmetic helpers
  // ---------------------------------------------------------------------------

  lemma PositiveProduct(a: real, b: real, c: real)
    ensures a > 0.0 && b > 0.0 && c > 0.0 ==> a * b * c > 0.0
  {
    if a > 0.0 && b > 0.0 && c > 0.0 {
      assert a * b > 0.0;
    }
  }

  lemma ScaleStrict(x: real, y: real, k: real)
    requires x < y && k > 0.0
    ensures x * k < y * k
  {}

  lemma ScaleWeak(x: real, y: real, k: real)
    requires x <= y && k >= 0.0
    ensures x * k <= y * k
  {}

  // ---------------------------------------------------------------------------
  // Properties of the power formula
  // ---------------------------------------------------------------------------

  /** More head gives strictly more power, flow and efficiency being fixed and positive. */
  lemma PowerStrictlyIncreasingInHead(head1: real, head2: real, flowRate: real, efficiency: real)
    requires head1 < head2 && flowRate > 0.0 && efficiency > 0.0
    ensures CalculatePower(head1, flowRate, efficiency) < CalculatePower(head2, flowRate, efficiency)
  {
    assert flowRate * efficiency > 0.0;
    ScaleStrict(head1, head2, 9810.0 * flowRate * efficiency);
  }

  /** More flow gives strictly more power, head and efficiency being fixed and positive. */
  lemma PowerStrictlyIncreasingInFlowRate(head: real, flowRate1: real, flowRate2: real, efficiency: real)
    requires flowRate1 < flowRate2 && head > 0.0 && efficiency > 0.0
    ensures CalculatePower(head, flowRate1, efficiency) < CalculatePower(head, flowRate2, efficiency)
  {
    assert head * efficiency > 0.0;
    ScaleStrict(flowRate1, flowRate2, 9810.0 * head * efficiency);
  }

  /** Higher efficiency gives strictly more power, head and flow being fixed and positive. */
  lemma PowerStrictlyIncreasingInEfficiency(head: real, flowRate: real, efficiency1: real, efficiency2: real)
    requires efficiency1 < efficiency2 && head > 0.0 && flowRate > 0.0
    ensures CalculatePower(head, flowRate, efficiency1) < CalculatePower(head, flowRate, efficiency2)
  {
    assert head * flowRate > 0.0;
    ScaleStrict(efficiency1, efficiency2, 9810.0 * head * flowRate);
  }

  /** Power never decreases when any input grows, as long as all inputs stay non-negative. */
  lemma PowerMonotone(head1: real, flowRate1: real, efficiency1: real,
                      head2: real, flowRate2: real, efficiency2: real)
    requires 0.0 <= head1 <= head2 && 0.0 <= flowRate1 <= flowRate2 && 0.0 <= efficiency1 <= efficiency2
    ensures CalculatePower(head1, flowRate1, efficiency1) <= CalculatePower(head2, flowRate2, efficiency2)
  {
    ScaleWeak(head1, head2, 9810.0 * flowRate1 * efficiency1);
    assert 9810.0 * head2 >= 0.0;
    ScaleWeak(flowRate1, flowRate2, 9810.0 * head2 * efficiency1);
    assert 9810.0 * head2 * flowRate2 >= 0.0;
    ScaleWeak(efficiency1, efficiency2, 9810.0 * head2 * flowRate2);
  }

  /** Within the widget bounds the power is at least 4.905 W, and it is that at the smallest inputs. */
  lemma PowerAtLeastMinimum(head: real, flowRate: real, efficiencyPercent: int)
    requires ValidPowerInputs(head, flowRate, efficiencyPercent)
    ensures CalculatePower(head, flowRate, EfficiencyFraction(efficiencyPercent)) >= MinPower
    ensures CalculatePower(MinHead, MinFlowRate, EfficiencyFraction(MinEfficiencyPercent)) == MinPower
  {
    PowerMonotone(MinHead, MinFlowRate, 0.5, head, flowRate, EfficiencyFraction(efficiencyPercent));
  }

  /** A higher slider setting gives strictly more power. */
  lemma PowerStrictlyIncreasingInSlider(head: real, flowRate: real, percent1: int, percent2: int)
    requires head > 0.0 && flowRate > 0.0
    requires MinEfficiencyPercent <= percent1 < percent2 <= MaxEfficiencyPercent
    ensures CalculatePower(head, flowRate, EfficiencyFraction(percent1))
          < CalculatePower(head, flowRate, EfficiencyFraction(percent2))
  {
    PowerStrictlyIncreasingInEfficiency(head, flowRate, EfficiencyFraction(percent1), EfficiencyFraction(percent2));
  }

  /**
   * Over the slider's range, 100% gives the largest power and 50% the smallest,
   * and no other setting reaches either.
   */
  lemma EfficiencyExtremes(head: real, flowRate: real, percent: int)
    requires head > 0.0 && flowRate > 0.0
    requires MinEfficiencyPercent <= percent <= MaxEfficiencyPercent
    ensures CalculatePower(head, flowRate, EfficiencyFraction(MinEfficiencyPercent))
         <= CalculatePower(head, flowRate, EfficiencyFraction(percent))
         <= CalculatePower(head, flowRate, EfficiencyFraction(MaxEfficiencyPercent))
    ensures (CalculatePower(head, flowRate, EfficiencyFraction(percent))
             == CalculatePower(head, flowRate, EfficiencyFraction(MaxEfficiencyPercent)))
        <==> percent == MaxEfficiencyPercent
    ensures (CalculatePower(head, flowRate, EfficiencyFraction(percent))
             == CalculatePower(head, flowRate, EfficiencyFraction(MinEfficiencyPercent)))
        <==> percent == MinEfficiencyPercent
  {
    if percent < MaxEfficiencyPercent {
      PowerStrictlyIncreasingInSlider(head, flowRate, percent, MaxEfficiencyPercent);
    }
    if MinEfficiencyPercent < percent {
      PowerStrictlyIncreasingInSlider(head, flowRate, MinEfficiencyPercent, percent);
    }
  }

  // ---------------------------------------------------------------------------
  // Properties of the derived figures
  // ---------------------------------------------------------------------------

  /** Annual savings scale with the price: k times the price gives k times the savings. */
  lemma SavingsLinearInPrice(head: real, flowRate: real, efficiencyPercent: int, price: real, k: real)
    requires InDomain(head, flowRate, efficiencyPercent, price)
    requires k * price >= MinPrice
    ensures Compute(head, flowRate, efficiencyPercent, k * price).annualSavings
         == k * Compute(head, flowRate, efficiencyPercent, price).annualSavings
  {
    var kwh := Compute(head, flowRate, efficiencyPercent, price).annualKWh;
    assert Compute(head, flowRate, efficiencyPercent, k * price).annualKWh == kwh;
    assert kwh * (k * price) == k * (kwh * price);
  }

  /** Energy and its price add up: savings at the sum of two prices are the sum of the savings. */
  lemma SavingsAdditiveInPrice(head: real, flowRate: real, efficiencyPercent: int, price1: real, price2: real)
    requires InDomain(head, flowRate, efficiencyPercent, price1)
    requires InDomain(head, flowRate, efficiencyPercent, price2)
    ensures Compute(head, flowRate, efficiencyPercent, price1 + price2).annualSavings
         == Compute(head, flowRate, efficiencyPercent, price1).annualSavings
          + Compute(head, flowRate, efficiencyPercent, price2).annualSavings
  {
    var kwh := Compute(head, flowRate, efficiencyPercent, price1).annualKWh;
    assert Compute(head, flowRate, efficiencyPercent, price2).annualKWh == kwh;
    assert Compute(head, flowRate, efficiencyPercent, price1 + price2).annualKWh == kwh;
    assert kwh * (price1 + price2) == kwh * price1 + kwh * price2;
  }

  /** A higher price gives strictly higher savings. */
  lemma SavingsStrictlyIncreasingInPrice(head: real, flowRate: real, efficiencyPercent: int, price1: real, price2: real)
    requires InDomain(head, flowRate, efficiencyPercent, price1)
    requires price1 < price2
    ensures Compute(head, flowRate, efficiencyPercent, price1).annualSavings
          < Compute(head, flowRate, efficiencyPercent, price2).annualSavings
  {
    var kwh := Compute(head, flowRate, efficiencyPercent, price1).annualKWh;
    assert Compute(head, flowRate, efficiencyPercent, price2).annualKWh == kwh;
    ScaleStrict(price1, price2, kwh);
  }

  /** Within the widget bounds the annual savings are at least 4.905 * 8.76 * 0.01. */
  lemma SavingsAtLeastMinimum(head: real, flowRate: real, efficiencyPercent: int, price: real)
    requires InDomain(head, flowRate, efficiencyPercent, price)
    ensures Compute(head, flowRate, efficiencyPercent, price).annualSavings >= MinPower * 8.76 * MinPrice
  {
    var c := Compute(head, flowRate, efficiencyPercent, price);
    ScaleWeak(MinPower * 8.76, c.annualKWh, MinPrice);
    ScaleWeak(MinPrice, price, c.annualKWh);
  }

  /** Every figure the calculator shows grows strictly with the head. */
  lemma ComputeStrictlyIncreasingInHead(head1: real, head2: real, flowRate: real, efficiencyPercent: int, price: real)
    requires InDomain(head1, flowRate, efficiencyPercent, price)
    requires head1 < head2
    ensures var c1, c2 := Compute(head1, flowRate, efficiencyPercent, price), Compute(head2, flowRate, efficiencyPercent, price);
      && c1.powerW < c2.powerW
      && c1.powerKW < c2.powerKW
      && c1.annualKWh < c2.annualKWh
      && c1.annualSavings < c2.annualSavings
  {
    var c1, c2 := Compute(head1, flowRate, efficiencyPercent, price), Compute(head2, flowRate, efficiencyPercent, price);
    PowerStrictlyIncreasingInHead(head1, head2, flowRate, EfficiencyFraction(efficiencyPercent));
    ScaleStrict(c1.annualKWh, c2.annualKWh, price);
  }

  /** Every figure the calculator shows grows strictly with the flow rate. */
  lemma ComputeStrictlyIncreasingInFlowRate(head: real, flowRate1: real, flowRate2: real, efficiencyPercent: int, price: real)
    requires InDomain(head, flowRate1, efficiencyPercent, price)
    requires flowRate1 < flowRate2
    ensures var c1, c2 := Compute(head, flowRate1, efficiencyPercent, price), Compute(head, flowRate2, efficiencyPercent, price);
      && c1.powerW < c2.powerW
      && c1.powerKW < c2.powerKW
      && c1.annualKWh < c2.annualKWh
      && c1.annualSavings < c2.annualSavings
  {
    var c1, c2 := Compute(head, flowRate1, efficiencyPercent, price), Compute(head, flowRate2, efficiencyPercent, price);
    PowerStrictlyIncreasingInFlowRate(head, flowRate1, flowRate2, EfficiencyFraction(efficiencyPercent));
    ScaleStrict(c1.annualKWh, c2.annualKWh, price);
  }

  /** The report row repeats the inputs, with the efficiency back as the slider's percent. */
  lemma ReportRowEchoesInputs(head: real, flowRate: real, efficiencyPercent: int, price: real)
    requires InDomain(head, flowRate, efficiencyPercent, price)
    ensures var row := Compute(head, flowRate, efficiencyPercent, price).report;
      && row.headM == head
      && row.flowRateM3s == flowRate
      && row.turbineEfficiencyPercent == efficiencyPercent as real
      && row.turbineEfficiencyPercent == EfficiencyFraction(efficiencyPercent) * 100.0
  {}

  // ---------------------------------------------------------------------------
  // Continuous operation: the annual figure as energy summed hour by hour
  // ---------------------------------------------------------------------------

  /** Hours in a year of 365 days. */
  const HoursPerYear: nat := 24 * 365

  /** Energy in watt-hours of a run whose output in each successive hour is given in watts. */
  function EnergyOf(hourly: seq<real>): real
  {
    if hourly == [] then 0.0 else hourly[0] + EnergyOf(hourly[1..])
  }

  /** The hourly output of a run at constant power for the given number of hours. */
  function ConstantRun(hours: nat, watts: real): (hourly: seq<real>)
    ensures |hourly| == hours
    ensures forall i :: 0 <= i < hours ==> hourly[i] == watts
  {
    seq(hours, _ => watts)
  }

  /** A run at constant power for n hours yields n times that power in watt-hours. */
  lemma {:induction false} ConstantRunEnergy(n: nat, watts: real)
    ensures EnergyOf(ConstantRun(n, watts)) == n as real * watts
  {
    if n > 0 {
      var run := ConstantRun(n, watts);
      assert run[1..] == ConstantRun(n - 1, watts);
      ConstantRunEnergy(n - 1, watts);
    }
  }

  /** A run that never exceeds the given power yields at most that power times its length. */
  lemma {:induction false} BoundedRunEnergy(hourly: seq<real>, watts: real)
    requires forall i :: 0 <= i < |hourly| ==> hourly[i] <= watts
    ensures EnergyOf(hourly) <= |hourly| as real * watts
  {
    if hourly != [] {
      BoundedRunEnergy(hourly[1..], watts);
    }
  }

  /** The annual figure is the energy of running at the computed power every hour of the year. */
  lemma AnnualIsContinuousOperation(watts: real)
    ensures AnnualWattHours(watts) == EnergyOf(ConstantRun(HoursPerYear, watts))
  {
    ConstantRunEnergy(HoursPerYear, watts);
  }

  /** Any year whose hourly output never exceeds the computed power yields at most the annual figure. */
  lemma AnnualBoundsAnyYear(hourly: seq<real>, watts: real)
    requires |hourly| == HoursPerYear
    requires forall i :: 0 <= i < |hourly| ==> hourly[i] <= watts
    ensures EnergyOf(hourly) <= AnnualWattHours(watts)
  {
    BoundedRunEnergy(hourly, watts);
  }

  // ---------------------------------------------------------------------------
  // Worked examples
  // ---------------------------------------------------------------------------

  /** The widgets' default values: 10 m, 0.05 m^3/s, 70%, 0.12 per kWh. */
  lemma DefaultInputs()
    ensures var c := Compute(10.0, 0.05, 70, 0.12);
      && c.powerW == 3433.5
      && c.powerKW == 3.4335
      && c.annualKWh == 30077.46
      && c.annualSavings == 3609.2952
  {}

  /** The smallest inputs the widgets allow reach exactly the lower power bound. */
  lemma SmallestInputs()
    ensures var c := Compute(MinHead, MinFlowRate, MinEfficiencyPercent, MinPrice);
      && c.powerW == MinPower
      && c.annualSavings == MinPower * 8.76 * MinPrice
  {}
}
