# Solar-AI rooftop kernel in Dafny

Solar-AI is a Streamlit demo: a user uploads a rooftop satellite image and gets
a mock analysis report and a return-on-investment estimate for a solar
installation. This project models the two computations in `app.py` that carry
any logic, over exact reals and integers:

- **Rooftop area** (`segment_rooftop_area`, module `RooftopArea`,
  `rooftop_area.dfy`). The grayscale image is a rectangular grid of 8-bit
  intensities. A binary threshold at 180 (maximum 255) marks pixels strictly
  brighter than 180. The count of pixels equal to 255 after thresholding is
  divided by the pixel total, multiplied back by it and divided by 10000. It is
  proved that the area is exactly (number of pixels above 180) / 10000 and lies
  in `[0, height*width/10000]`. An all-dark image has area 0 and an all-bright
  one has area `height*width/10000`. Brightening any pixels never lowers it.
  An image with no pixels gives NumPy's `0 / 0`, which is NaN (`Number.NaN`).
- **Report figures** (`mock_image_analysis`, module `AnalysisReport`,
  `report.dfy`). The panel count is `floor(area / 1.6)` and the output figure is
  `area * 15` kWh a year. `int()` of a NaN area raises `ValueError`, so an image
  without pixels makes the report fail. The report's output formula is not
  `estimate_roi`'s. The model keeps them apart and proves that, with the
  defaults, `estimate_roi`'s figure is 18 times the report's.
- **ROI** (`estimate_roi`, module `SolarRoi`, `roi.dfy`). Installed kW is area
  times efficiency. Output is kW × 1500 h, savings are output × 6 per kWh, cost
  is kW × 1000 × cost-per-watt / 100, and payback is cost / savings. The payback
  division raises `ZeroDivisionError` exactly when area or efficiency is 0.
  Otherwise payback is `cost_per_watt / 900`, whatever the area. Output,
  savings and cost are linear in area.

`outcomes.dfy` (module `Outcomes`) holds the shared `Error`, `Result` and
`Number` types.

Facts about the code that the model keeps:
- For area 100 with the defaults, the cost is `18 * 1000 * 50 / 100 = 9000`
  and the payback is `1/18` year.
- `estimate_roi` validates no parameter. A zero savings figure raises
  `ZeroDivisionError`.

## Model

| member | source | states |
|---|---|---|
| `RooftopArea.SegmentRooftopArea` | app.py:12-19 | NaN exactly when a dimension is 0. Otherwise the area is (pixels above 180) / 10000 and lies in [0, height*width/10000] |
| `RooftopArea.BrightPixelsAreAboveThreshold` | app.py:15-16 | after thresholding at 180/255, the count of cells equal to 255 is the count of input cells strictly above 180 |
| `RooftopArea.BrightPixels` | app.py:16 | the number of cells equal to 255 after thresholding is the number of pixels strictly above 180 |
| `RooftopArea.TotalPixels` | app.py:17 | the pixel total is 0 exactly when the height or the width is 0 |
| `RooftopArea.CountBounds` | app.py:16-17 | the bright-pixel count lies between 0 and height*width |
| `RooftopArea.AreaOfRatio` | app.py:18-19 | the bright ratio times the total, over 10000, cancels to count/10000, which lies in [0, total/10000] |
| `RooftopArea.AllDarkImageHasNoArea` | app.py:15-19 | a non-empty image with every pixel at most 180 has area exactly 0 |
| `RooftopArea.AllBrightImageIsFullArea` | app.py:15-19 | a non-empty image with every pixel above 180 has area exactly height*width/10000 |
| `RooftopArea.CountAboveMonotone` | app.py:15-16 | a grid at least as bright at every cell has at least as many cells above 180 |
| `RooftopArea.BrighterImageHasNoLessArea` | app.py:15-19 | raising any set of pixels of a non-empty image never decreases its area |
| `RooftopArea.RaisingOnePixelNeverShrinksArea` | app.py:15-19 | raising a single pixel, within [0, 255], never decreases the area |
| `RooftopArea.AreaOrderIsCountOrder` | app.py:16-19 | for non-empty images, one area is at most another exactly when its bright count is at most the other's |
| `SolarRoi.KwInstalled` | app.py:26 | installed capacity is 0 exactly when area or efficiency is 0, and non-negative for non-negative inputs |
| `SolarRoi.EstimateRoi` | app.py:25-31 | fails with ZeroDivisionError exactly when area or efficiency is 0. Otherwise savings are 6 × output, payback × savings = cost, and payback = cost_per_watt / 900 |
| `SolarRoi.EstimateRoiDefaults` | app.py:25 | with cost per watt 50 and efficiency 0.18, it succeeds exactly for non-zero area, with payback 1/18 year |
| `SolarRoi.RoiClosedForm` | app.py:26-30 | output = 1500·area·eff, savings = 9000·area·eff, cost = 10·area·eff·cost_per_watt, payback = cost_per_watt/900 |
| `SolarRoi.RoiIsLinearInArea` | app.py:26-30 | scaling area by k > 0 scales output, savings and cost by k and leaves payback unchanged |
| `SolarRoi.RoiIsNonNegative` | app.py:26-30 | positive area and efficiency with non-negative cost per watt give positive output and savings, and non-negative cost and payback |
| `SolarRoi.ZeroAreaFaults` | app.py:28-30 | area 0 or efficiency 0 makes the payback division raise ZeroDivisionError |
| `SolarRoi.Area100Example` | app.py:25-31 | area 100 with the defaults gives 18 kW, 27000 kWh, 162000 savings, cost 9000 and payback 1/18 |
| `SolarRoi.CallerRangeNeverFaults` | app.py:43-45 | every whole area in [10, 500] with the defaults succeeds: payback 1/18, output in [2700, 135000], cost 90 × area |
| `AnalysisReport.PanelCount` | app.py:23 | the panel count n satisfies n·1.6 <= area < (n+1)·1.6 |
| `AnalysisReport.PanelCountIsLargestFit` | app.py:23 | any m with m·1.6 <= area is at most the panel count |
| `AnalysisReport.ReportOutput` | app.py:23 | the report's output figure is 0 exactly for area 0 and positive exactly for positive area (MockImageAnalysis states it is 15 × area) |
| `AnalysisReport.MockImageAnalysis` | app.py:21-23 | ValueError exactly for an image without pixels. Otherwise it echoes the prompt with area = (pixels above 180)/10000, a non-negative floor panel count and output = 15 × area |
| `AnalysisReport.BrighterImageHasNoSmallerReport` | app.py:22-23 | a pointwise brighter image of the same non-empty size gets no smaller area, panel count or output |
| `AnalysisReport.ReportOutputDiffersFromRoiOutput` | app.py:23 | for positive area, estimate_roi's output with the defaults is 18 × the report's output, so the two differ |

## Left out

- The Streamlit user interface is not modelled: title, uploader, prompt box, number input, button, spinner and the write/markdown calls. The model takes the image, the prompt and the area as parameters.
- Image decoding (`Image.open`) and PIL's luminance conversion (`convert("L")`) are foreign library calls. The model takes the grayscale grid as given: rectangular, with values in [0, 255].
- OpenCV and NumPy are captured only through the threshold rule (strictly above 180 becomes 255) and the count of 255s. The NaN from `0 / 0` is the only floating-point special value modelled.
- IEEE floating-point rounding is not modelled: all arithmetic is over exact reals. The efficiency 0.18 and the divisions in `estimate_roi` therefore have no rounding error, and float underflow cannot make savings 0 for a non-zero area.
- `PanelCount`: computed over exact reals. In doubles, 1.6 rounds up and products such as 4.8 round down, so at exact multiples of 1.6 the program may report one panel fewer than the model (Python gives `4.8 // 1.6 == 2.0`, the model gives 3).
- `SegmentRooftopArea`: the NaN result for an image without pixels assumes that OpenCV's threshold accepts an empty array and that NumPy then divides 0 by 0. That reading of library behaviour is not checked here; the library may instead reject the empty array.
- The `:.2f`, `:.0f` and `:.1f` text formatting of the report and the ROI figures is not modelled. The report is a record of its figures, and the static shading note is not modelled.
