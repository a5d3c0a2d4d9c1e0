/** The figures of the analysis report (mock_image_analysis): the estimated
    area, a panel count of one panel per 1.6 m² rounded down, and an annual
    output of 15 kWh per m². This output figure is a separate placeholder
    from the one estimate_roi computes; the two are kept apart. */
module AnalysisReport {
  import opened Outcomes
  import opened RooftopArea
  import SolarRoi

  /** Square metres taken up by one panel. */
  const PanelAreaM2: real := 1.6
  /** Report's annual output per square metre, in kWh. */
  const ReportKwhPerM2: real := 15.0

  datatype Report = Report(prompt: string, areaEstimate: real, panels: int, outputKwhPerYear: real)

  /** `int(area // 1.6)`: the number of whole panels that fit. */
  function PanelCount(areaM2: real): (n: int)
    ensures n as real * PanelAreaM2 <= areaM2 < (n + 1) as real * PanelAreaM2
  {
    (areaM2 / PanelAreaM2).Floor
  }

  /** `area_estimate * 15`: zero exactly for zero area, with the area's sign. */
  function ReportOutput(areaM2: real): (kwh: real)
    ensures kwh == 0.0 <==> areaM2 == 0.0
    ensures kwh > 0.0 <==> areaM2 > 0.0
  {
    areaM2 * ReportKwhPerM2
  }

  /** mock_image_analysis, without the text rendering. An image without
      pixels gives a NaN area, and `int()` of NaN raises ValueError. */
  function MockImageAnalysis(img: GrayImage, prompt: string): (r: Result<Report>)
    requires Valid(img)
    ensures r.Err? <==> img.height == 0 || img.width == 0
    ensures r.Err? ==> r.error == ValueError
    ensures r.Ok? ==> && r.value.prompt == prompt
                      && r.value.areaEstimate == CountAbove(img.pixels, Threshold) as real / PixelsPerSquareMetre
                      && r.value.outputKwhPerYear == ReportKwhPerM2 * r.value.areaEstimate
                      && 0 <= r.value.panels
                      && r.value.panels as real * PanelAreaM2 <= r.value.areaEstimate
                      && r.value.areaEstimate < (r.value.panels + 1) as real * PanelAreaM2
  {
    match SegmentRooftopArea(img)
    case NaN => Err(ValueError)
    case Finite(areaEstimate) =>
      Ok(Report(prompt, areaEstimate, PanelCount(areaEstimate), ReportOutput(areaEstimate)))
  }

  /** The panel count is the largest whole number of 1.6 m² panels within the
      area: n panels fit and n + 1 do not. */
  lemma PanelCountIsLargestFit(areaM2: real, m: int)
    requires m as real * PanelAreaM2 <= areaM2
    ensures m <= PanelCount(areaM2)
  {
  }

  /** A brighter image of the same size never gets a smaller report: area,
      panel count and output all stay or grow. */
  lemma BrighterImageHasNoSmallerReport(a: GrayImage, b: GrayImage, prompt: string)
    requires Valid(a) && Valid(b) && a.height == b.height && a.width == b.width
    requires a.height >= 1 && a.width >= 1
    requires PointwiseBrighter(a.pixels, b.pixels)
    ensures MockImageAnalysis(a, prompt).Ok? && MockImageAnalysis(b, prompt).Ok?
    ensures var ra, rb := MockImageAnalysis(a, prompt).value, MockImageAnalysis(b, prompt).value;
            && ra.areaEstimate <= rb.areaEstimate
            && ra.panels <= rb.panels
            && ra.outputKwhPerYear <= rb.outputKwhPerYear
  {
    BrighterImageHasNoLessArea(a, b);
    var ra, rb := MockImageAnalysis(a, prompt).value, MockImageAnalysis(b, prompt).value;
    PanelCountIsLargestFit(rb.areaEstimate, ra.panels);
  }

  /** The report's output figure and estimate_roi's (with its defaults) are
      two different formulas: for the same area, estimate_roi's is 18 times
      the report's. */
  lemma ReportOutputDiffersFromRoiOutput(areaM2: real)
    requires areaM2 > 0.0
    ensures SolarRoi.EstimateRoiDefaults(areaM2).Ok?
    ensures SolarRoi.EstimateRoiDefaults(areaM2).value.annualOutputKwh == 18.0 * ReportOutput(areaM2)
    ensures SolarRoi.EstimateRoiDefaults(areaM2).value.annualOutputKwh != ReportOutput(areaM2)
  {
  }
}
