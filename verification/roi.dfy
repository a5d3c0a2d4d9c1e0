/** The return-on-investment estimator (estimate_roi): installed capacity from
    area and panel efficiency, then annual output, annual savings,
    installation cost and payback period, over exact reals. */
module SolarRoi {
  import opened Outcomes

  /** Default economic parameters of estimate_roi. */
  const DefaultCostPerWatt: real := 50.0
  const DefaultEfficiency: real := 0.18
  /** Full-sun-equivalent hours per year. */
  const SunHoursPerYear: real := 1500.0
  /** Price of one kWh, in rupees. */
  const PricePerKwh: real := 6.0

  datatype Roi = Roi(annualOutputKwh: real, savingsPerYear: real, cost: real, paybackYears: real)

  /** Nameplate capacity in kW: none exactly when area or efficiency is 0. */
  function KwInstalled(areaM2: real, efficiency: real): (kw: real)
    ensures kw == 0.0 <==> areaM2 == 0.0 || efficiency == 0.0
    ensures areaM2 >= 0.0 && efficiency >= 0.0 ==> kw >= 0.0
  {
    areaM2 * efficiency
  }

  /** estimate_roi. The payback division raises ZeroDivisionError when the
      savings are 0, which happens exactly when area or efficiency is 0. No
      parameter is range-checked. */
  function EstimateRoi(areaM2: real, costPerWatt: real, efficiency: real): (r: Result<Roi>)
    ensures r.Err? <==> areaM2 == 0.0 || efficiency == 0.0
    ensures r.Err? ==> r.error == ZeroDivisionError
    ensures r.Ok? ==> r.value.savingsPerYear == PricePerKwh * r.value.annualOutputKwh
    ensures r.Ok? ==> r.value.paybackYears * r.value.savingsPerYear == r.value.cost
    ensures r.Ok? ==> r.value.paybackYears == costPerWatt / 900.0
  {
    var kwInstalled := KwInstalled(areaM2, efficiency);
    var annualOutputKwh := kwInstalled * SunHoursPerYear;
    var savingsPerYear := annualOutputKwh * PricePerKwh;
    var cost := kwInstalled * 1000.0 * costPerWatt / 100.0;
    if savingsPerYear == 0.0 then Err(ZeroDivisionError)
    else
      var paybackYears := cost / savingsPerYear;
      Ok(Roi(annualOutputKwh, savingsPerYear, cost, paybackYears))
  }

  /** The call with the default cost per watt and efficiency. */
  function EstimateRoiDefaults(areaM2: real): (r: Result<Roi>)
    ensures r.Ok? <==> areaM2 != 0.0
    ensures r.Ok? ==> r.value.paybackYears == 1.0 / 18.0
  {
    EstimateRoi(areaM2, DefaultCostPerWatt, DefaultEfficiency)
  }

  /** Output, savings and cost are linear in the area: scaling the area by
      k > 0 scales all three by k and leaves the payback period unchanged. */
  lemma RoiIsLinearInArea(areaM2: real, k: real, costPerWatt: real, efficiency: real)
    requires k > 0.0 && areaM2 != 0.0 && efficiency != 0.0
    ensures EstimateRoi(areaM2, costPerWatt, efficiency).Ok?
    ensures EstimateRoi(k * areaM2, costPerWatt, efficiency).Ok?
    ensures var a, b := EstimateRoi(areaM2, costPerWatt, efficiency).value,
                        EstimateRoi(k * areaM2, costPerWatt, efficiency).value;
            && b.annualOutputKwh == k * a.annualOutputKwh
            && b.savingsPerYear == k * a.savingsPerYear
            && b.cost == k * a.cost
            && b.paybackYears == a.paybackYears
  {
  }

  /** Closed forms: output is 1500 * area * efficiency, savings six times
      that, cost 10 * area * efficiency * cost per watt. */
  lemma RoiClosedForm(areaM2: real, costPerWatt: real, efficiency: real)
    requires areaM2 != 0.0 && efficiency != 0.0
    ensures EstimateRoi(areaM2, costPerWatt, efficiency)
         == Ok(Roi(1500.0 * areaM2 * efficiency, 9000.0 * areaM2 * efficiency,
                   10.0 * areaM2 * efficiency * costPerWatt, costPerWatt / 900.0))
  {
    var r := EstimateRoi(areaM2, costPerWatt, efficiency);
    assert r.value == Roi(1500.0 * areaM2 * efficiency, 9000.0 * areaM2 * efficiency,
                   10.0 * areaM2 * efficiency * costPerWatt, costPerWatt / 900.0);
    assert r == Ok(r.value);
  }

  /** Non-negative area, efficiency and cost per watt give non-negative
      figures; positive ones give positive figures. */
  lemma RoiIsNonNegative(areaM2: real, costPerWatt: real, efficiency: real)
    requires areaM2 > 0.0 && efficiency > 0.0 && costPerWatt >= 0.0
    ensures var r := EstimateRoi(areaM2, costPerWatt, efficiency);
            && r.Ok?
            && r.value.annualOutputKwh > 0.0 && r.value.savingsPerYear > 0.0
            && r.value.cost >= 0.0 && r.value.paybackYears >= 0.0
            && (costPerWatt > 0.0 ==> r.value.cost > 0.0 && r.value.paybackYears > 0.0)
  {
  }

  /** A zero area (or zero efficiency) makes the savings 0 and the payback
      division fault. */
  lemma ZeroAreaFaults(areaM2: real, costPerWatt: real, efficiency: real)
    ensures EstimateRoi(0.0, costPerWatt, efficiency) == Err(ZeroDivisionError)
    ensures EstimateRoi(areaM2, costPerWatt, 0.0) == Err(ZeroDivisionError)
  {
  }

  /** Area 100 with the defaults: 18 kW installed, 27000 kWh a year, 162000
      in savings, a cost of 9000 and a payback of 1/18 year. */
  lemma Area100Example()
    ensures KwInstalled(100.0, DefaultEfficiency) == 18.0
    ensures EstimateRoiDefaults(100.0) == Ok(Roi(27000.0, 162000.0, 9000.0, 1.0 / 18.0))
  {
  }

  /** The only caller passes a whole area between 10 and 500 with the
      defaults: the division never faults, the payback is always 1/18 year
      and output stays between 2700 and 135000 kWh a year. */
  lemma CallerRangeNeverFaults(areaM2: int)
    requires 10 <= areaM2 <= 500
    ensures EstimateRoiDefaults(areaM2 as real).Ok?
    ensures var r := EstimateRoiDefaults(areaM2 as real).value;
            && r.paybackYears == 1.0 / 18.0
            && 2700.0 <= r.annualOutputKwh <= 135000.0
            && r.savingsPerYear == 6.0 * r.annualOutputKwh
            && r.cost == 90.0 * areaM2 as real
  {
  }
}
