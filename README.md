# FMIP and LROMA calculators

A model of the numerical core of two calculators for the economics of
industrial policy and mobility assets:

- **FMIP** (Fiscal Multiplier of Industrial Policy, `src/fmip_model.py`):
  for a named scenario, three cash-flow series are discounted at the
  scenario's social discount rate. The first flow is discounted at period 1.
  The FMIP is the discounted tax revenues plus discounted fiscal avoidance,
  divided by the discounted public investment. A zero investment gives
  +infinity when the returns are positive, else 0. The calculator also
  compares a list of scenarios and sweeps one parameter at a time over a
  base scenario.
- **LROMA** (Levelized Return on Mobility Asset, `src/lroma_calculator.py`):
  six vehicle parameters give a cash-flow list. The outlay sits at period 0
  and N years of profit follow. The LROMA is that list's NPV divided by the
  discounted distance. The calculator also sweeps single-parameter overrides
  and suggests a breakeven freight rate.

The model is written in Dafny.

- Arithmetic is exact over `real`.
- A Python exception is an `Err` of a `Result`. The five errors are a
  missing key, an unknown scenario, a missing scenario field, a division by
  zero, and a non-integer `vehicle_life` (the TypeError of `[x] * 8.0`).
- Both calculators only read the parameter mapping they hold, so it is
  passed to each operation as a value.
- The table-building loops are methods with `while` loops: the FMIP
  comparison loop, the FMIP sweep's nested loops, and the LROMA sweep's
  nested loops. Each is proved equal to a specification function of the
  per-item outcomes.
- The FMIP comparison and the LROMA sweep catch only some exceptions. Their
  loops equal `Collect` of the outcomes under the loop's `except` clause:
  the first uncaught error, or else the successful rows.
- The FMIP sweep catches every exception. Its loops equal `Ok(Kept(..))` of
  the outcomes: the successful rows, with every failing point skipped.
- Lemmas then state what those functions mean.
- Default arguments are explicit. `calculate_fmip` defaults to the scenario
  `Fmip.DefaultScenario` ("base_case"). `calculate_breakeven` defaults to
  the target `Lroma.DefaultTarget` (0). `scenario_comparison` defaults to
  the names in `Fmip.DefaultScenarios`.

Files:
- `results.dfy`: errors, the `Result` type and the batch semantics of a
  `try`/`except` inside a loop. It also has the parameter-major sweep order.
- `present_value.dfy`: the discounted sum both calculators inline. It is
  parameterised by its index origin, because `enumerate(cfs, 1)` and
  `enumerate(cfs)` both occur.
- `fmip.dfy`: the FMIP calculator.
- `lroma.dfy`: the LROMA calculator.

Two Python details that matter here:
- `0 ** 0 == 1` in Python. So a rate of -100% is a ZeroDivisionError only
  when some flow sits at a period of 1 or more.
- `[x] * n` and `range(1, n + 1)` are empty for `n <= 0`.

Three facts about the LROMA code that the model makes precise:
- For the reference vehicle of `tests/test_lroma.py`, the code computes an
  LROMA between 3.447 and 3.448 per km (`Lroma.BaseCaseLroma`). The test
  itself asserts only that it is positive.
- A freight rate above the cost per km, with a life of at least one year,
  does not by itself make the LROMA positive: the outlay can outweigh the
  margin (`Lroma.PositiveMarginCanStillLose`).
- The breakeven estimate raises the freight rate by twice the shortfall.
  When the discounted distance is positive (a positive distance, a life of
  at least one year and a rate above -100%), the LROMA rises one for one
  with the freight rate, so the estimate lands above the target
  (`Lroma.BreakevenOvershoots`). With a discounted distance of 0 the LROMA
  is 0 whatever the freight rate, and the estimate does not reach a
  positive target. The model keeps the
  estimate as written.

## Model

| member | source | states |
|---|---|---|
| Results.CollectMeaning | src/lroma_calculator.py:54-66 | A batch whose items each raise or succeed fails exactly when some item raises an exception the `except` clause does not catch. It then reports the first such exception. Otherwise it returns the successful items' values in order. |
| Results.Collect | src/lroma_calculator.py:54-66 | A batch that fails reports an exception its `except` clause does not catch. |
| Results.CollectStops | src/fmip_model.py:71-85 | Once an uncaught exception has ended the loop, later items change nothing. |
| Results.KeptPlusSkipped | src/fmip_model.py:71-85 | Every item of a batch either appends a row or is skipped with a warning, never both. |
| Results.KeptMembership | src/fmip_model.py:71-81 | A value is a row of the table exactly when some item's calculation produced it. |
| Results.GridParameterMajor | src/lroma_calculator.py:54-55 | The nested sweep visits all values of the first parameter before any other parameter's values. |
| Results.GridAppend | src/fmip_model.py:94-95 | The sweep over two consecutive parameter lists is the first sweep followed by the second. |
| Results.Pairs | src/fmip_model.py:95 | The points of one parameter are its values in order, each paired with the parameter's name. |
| PresentValue.Discounted | src/fmip_model.py:19-20 | The discounted sum fails with a division by zero exactly when 1 + rate is 0 and some flow sits at a period of 1 or more (`0 ** 0` is 1). |
| PresentValue.PowZero | src/lroma_calculator.py:37-38 | `x ** n` is 0 only for x = 0 and n >= 1. |
| PresentValue.DiscountedAtZeroRate | src/lroma_calculator.py:16-17 | At a zero rate discounting is the plain sum, whatever the index origin. |
| PresentValue.DiscountedScale | src/fmip_model.py:103 | Scaling every flow by k scales the discounted sum by k, and neither version fails unless the other does. |
| PresentValue.DiscountedSingle | src/lroma_calculator.py:37-38 | A single flow at period 0 is its own present value, even at a rate of -100%, because `0 ** 0` is 1. |
| PresentValue.DiscountedShift | src/lroma_calculator.py:37-38 | Moving the index origin one period later divides the discounted sum by 1 + rate. |
| PresentValue.DiscountedAppend | src/lroma_calculator.py:33-34 | The discounted sum of two concatenated lists is the first list's sum plus the second's, discounted from where the first stops. |
| PresentValue.DiscountedConstant | src/lroma_calculator.py:41-42 | A constant flow over n periods is worth the flow times the annuity factor. |
| PresentValue.AnnuityPositive | src/lroma_calculator.py:41-42 | For a rate above -100%, the annuity factor of one or more periods is positive. |
| PresentValue.Scale | src/fmip_model.py:103 | `[x * k for x in cfs]` keeps the length and multiplies each element by k. |
| PresentValue.Repeat | src/lroma_calculator.py:34 | `[c] * n` has n elements, all equal to c. |
| Fmip.CalculatePresentValue | src/fmip_model.py:14-20 | An empty list is worth 0. The present value fails exactly for a non-empty list at a rate of -100%, and only with a division by zero. |
| Fmip.PresentValueSingle | src/fmip_model.py:19-20 | A single flow is divided by 1 + rate once: the first flow sits at period 1. |
| Fmip.PresentValueAtZeroRate | src/fmip_model.py:19-20 | At a zero rate the present value is the sum of the flows. |
| Fmip.PresentValueScale | src/fmip_model.py:19-20 | The present value is linear in the flows. |
| Fmip.FmipRatio | src/fmip_model.py:50-53 | The ratio is +infinity exactly when the investment is 0 and the returns are positive. It is 0 for a zero investment and non-positive returns. Otherwise it is the number that, times the investment, gives the returns. |
| Fmip.EvaluateScenario | src/fmip_model.py:28-62 | It fails only with a division by zero (rate of -100%) or a missing field that is in fact absent. Fields are read in the source's order: a missing investment, then a missing rate, are reported first. A division by zero occurs exactly when the rate is -100% and one of the series read before the first missing field is non-empty. Otherwise the first missing of tax and avoidance is named. A complete scenario at any other rate succeeds. A success carries the three present values, their total, and the ratio of total to investment. |
| Fmip.CalculateFmip | src/fmip_model.py:22-62 | An unknown scenario is a KeyError naming it and the available names, and only unknown scenarios give that error. All other errors are KeyErrors or a division by zero. A success names its scenario. |
| Fmip.DefaultComparisonStartsWithDefault | src/fmip_model.py:64-72 | The default comparison's first outcome is the default scenario's calculation. |
| Fmip.SingletonLookup | src/fmip_model.py:108-109 | A one-scenario calculator finds the scenario it was built with. |
| Fmip.SweepPointOf | src/fmip_model.py:98-116 | A sweep point whose modification succeeds yields the row of the modified scenario's evaluation, tagged with the base scenario's name. |
| Fmip.ComparisonOutcome | src/fmip_model.py:72-83 | One name's outcome fails exactly when its calculation fails, with the same error. A success is the row of that name, whose total is the two returns' sum and whose fmip is the ratio of total to investment. |
| Fmip.ComparisonOutcomes | src/fmip_model.py:71-81 | There is one outcome per requested name, in order, each being that name's calculation. |
| Fmip.ScenarioComparison | src/fmip_model.py:64-86 | The comparison returns the batch result over the given names, or over the four default scenarios when none are given. KeyErrors are skipped and any other error ends the batch. |
| Fmip.CompareNames | src/fmip_model.py:69-86 | The loop over the names returns exactly that batch result. |
| Fmip.CompareName | src/fmip_model.py:71-83 | One pass of the comparison loop extends the batch result by the next name's outcome. |
| Fmip.ComparisonMeaning | src/fmip_model.py:71-86 | The comparison fails exactly when some name's calculation divides by zero, and then with that error. Otherwise the table holds the successful calculations in input order. |
| Fmip.ComparisonRowsAreCalculations | src/fmip_model.py:73-81 | Every row is the successful calculation of its own scenario name, so unknown names never appear. Every name that succeeds has its row. Rows plus skipped names equal the number of names. |
| Fmip.Vary | src/fmip_model.py:98-105 | For a `_cashflows` parameter the series is multiplied by the value, and a missing series is a KeyError. Any other parameter overwrites the entry, which only the social discount rate affects. Every other series is unchanged. |
| Fmip.SweepPoint | src/fmip_model.py:96-119 | A missing `_cashflows` series is a KeyError naming the parameter. Every error of a point is a KeyError or a division by zero. A success is a row carrying the parameter, the value and the base scenario's name. |
| Fmip.SweepOutcomes | src/fmip_model.py:94-119 | There is one outcome per sweep point, in order, each being that point's calculation. |
| Fmip.SensitivityAnalysis | src/fmip_model.py:88-121 | An unknown base scenario is a KeyError before any row. Otherwise the table holds one row per successful sweep point, in parameter-major order, and every failing point is skipped. |
| Fmip.SweepRow | src/fmip_model.py:95-119 | One pass of the inner sweep loop appends the next value's row when its calculation succeeds, and nothing otherwise. |
| Fmip.SensitivityRowMeaning | src/fmip_model.py:94-116 | Every sweep row comes from a point of the sweep and names the base scenario. Its fmip is that of the base scenario with only that point applied. |
| Fmip.SweepRowComplete | src/fmip_model.py:94-116 | Every sweep point whose calculation succeeds has its row in the table. |
| Fmip.SweepAccountsForEveryPoint | src/fmip_model.py:94-119 | Rows plus skipped points equal the number of sweep points. |
| Fmip.VaryInvestment | src/fmip_model.py:101-103 | Sweeping the investment series multiplies it and leaves the rest of the scenario alone. |
| Fmip.ScaledInvestmentParts | src/fmip_model.py:31-45 | With the investment scaled by k, the investment present value is scaled by k and the returns are unchanged. |
| Fmip.ScaledRatio | src/fmip_model.py:53 | Multiplying a nonzero investment by k != 0 divides the ratio by k. |
| Fmip.ScaledResult | src/fmip_model.py:50-60 | Two results whose investments differ by a factor k and whose returns agree have FMIPs that differ by the factor k. |
| Fmip.EvaluateScaledInvestment | src/fmip_model.py:28-62 | Scaling the investment series by k != 0 divides a finite FMIP by k. |
| Fmip.SweepScalesInvestment | src/fmip_model.py:101-116 | A sweep point multiplying the investment series by k != 0 reports the base FMIP divided by k. |
| Lroma.CalculateNpv | src/lroma_calculator.py:14-17 | An empty list is worth 0. The NPV fails exactly for a non-empty list at a rate of -100%. |
| Lroma.NpvSingle | src/lroma_calculator.py:16-17 | A single flow is divided by 1 + rate once: the first flow sits at period 1. |
| Lroma.NpvAtZeroRate | src/lroma_calculator.py:16-17 | At a zero rate the NPV is the sum of the flows. |
| Lroma.CashFlows | src/lroma_calculator.py:33-34 | The flows are the negated outlay followed by one profit per year of life. A vehicle life of 0 or less leaves only the outlay, as `[x] * n` is empty for n <= 0. |
| Lroma.CalculateLroma | src/lroma_calculator.py:19-47 | Each error matches its cause: a KeyError names the first absent required key in the order the code reads them (capex, annual_distance, tco_per_km, freight_rate, discount_rate, vehicle_life), a TypeError means all six keys are present and the vehicle life is a float, and a division by zero means a rate of -100% with at least one year. It succeeds exactly when all six keys are present, the life is an int, and the rate is not -100% or the life is at most 0. |
| Lroma.Npv | src/lroma_calculator.py:36-38 | The NPV enumerates from 0: it fails exactly when the rate is -100% and there are at least two flows, and a single flow is worth itself. |
| Lroma.PvDistance | src/lroma_calculator.py:40-42 | The discounted distance fails exactly when the rate is -100% and the life is at least one year. It is 0 when the life is at most 0. |
| Lroma.LromaOf | src/lroma_calculator.py:29-45 | Once the keys are read, the only error is a division by zero, exactly when the rate is -100% and the life is at least one year. A life of at most 0 gives an LROMA of 0. |
| Lroma.NpvOutlayUndiscounted | src/lroma_calculator.py:33-38 | Because the NPV enumerates from 0, the outlay counts at full value and the profits are discounted as `calculate_npv` discounts them. |
| Lroma.NpvClosedForm | src/lroma_calculator.py:33-38 | The NPV is the negated outlay plus the profit times the annuity factor of years 1..N. |
| Lroma.PvDistanceClosedForm | src/lroma_calculator.py:41-42 | The discounted distance is the annual distance times the annuity factor of years 1..N. |
| Lroma.LromaClosedForm | src/lroma_calculator.py:29-45 | The LROMA is the per-km margin minus the outlay spread over the discounted distance. It is 0 when that distance is 0. |
| Lroma.LromaDegenerate | src/lroma_calculator.py:45 | With no years or no distance, the LROMA is 0 rather than an error, even at a rate of -100% when there are no years. |
| Lroma.LromaAtCostParity | src/lroma_calculator.py:30-45 | At a freight rate equal to the cost per km, the LROMA is the negated outlay over the discounted distance. |
| Lroma.LromaAtCostParityNegative | src/lroma_calculator.py:30-45 | At cost parity, a positive outlay, distance and life with a rate above -100% give a negative LROMA. |
| Lroma.LromaFreightSlope | src/lroma_calculator.py:30-45 | When the discounted distance is nonzero, raising the freight rate by d raises the LROMA by exactly d. |
| Lroma.ReferenceLroma | src/lroma_calculator.py:29-45 | The reference vehicle's LROMA for a positive outlay lies between 11.80 - outlay/574,660 and 11.80 - outlay/574,670. |
| Lroma.BaseCaseLroma | tests/test_lroma.py:9-22 | The reference vehicle's LROMA succeeds and lies between 3.447 and 3.448, so it is positive. |
| Lroma.PositiveMarginCanStillLose | src/lroma_calculator.py:29-45 | The reference vehicle, with a freight rate above its cost per km and eight years of life, has a negative LROMA at ten times its outlay. |
| Lroma.CalculateBreakeven | src/lroma_calculator.py:70-83 | Errors of the LROMA calculation propagate unchanged. The result is empty exactly when the LROMA already meets the target. Otherwise it has only a freight rate, raised by twice the shortfall. |
| Lroma.BaseCaseNeedsNoBreakeven | src/lroma_calculator.py:70-83 | At the default target of 0, the reference vehicle gets no breakeven points. |
| Lroma.BreakevenOvershoots | src/lroma_calculator.py:77-81 | With a positive distance, at least one year and a rate above -100%, the suggested freight rate gives an LROMA of twice the target minus the current LROMA, above the target. Raising the rate by the shortfall alone meets the target exactly. |
| Lroma.SweepPoint | src/lroma_calculator.py:56-64 | A point succeeds exactly when the LROMA of the base mapping with that one entry set succeeds, and its row carries the parameter and the value. A KeyError names a key other than the parameter that is absent from the base mapping. |
| Lroma.SweepOutcomes | src/lroma_calculator.py:54-59 | There is one outcome per sweep point, in order, each being the LROMA of the base mapping with that one entry set. |
| Lroma.SensitivityAnalysis | src/lroma_calculator.py:49-68 | The sweep returns the batch result over all points in parameter-major order. KeyErrors and divisions by zero are skipped, and a TypeError ends the sweep. |
| Lroma.SweepValues | src/lroma_calculator.py:55-66 | The inner loop over one parameter's values extends the batch result accordingly. |
| Lroma.SweepValue | src/lroma_calculator.py:55-66 | One pass of the inner loop extends the batch result by the next value's outcome. |
| Lroma.SensitivityMeaning | src/lroma_calculator.py:54-66 | The sweep fails exactly when some point's calculation fails with a non-integer vehicle life, and then with that error. Otherwise the table holds the successful points in order. |
| Lroma.FatalIsFractionalLife | src/lroma_calculator.py:65 | The only exception the sweep does not catch is the TypeError of a vehicle life that is not an int. |
| Lroma.SweepRowsAreCalculations | src/lroma_calculator.py:56-64 | A row is in the table exactly when its point is in the sweep and the overridden mapping's LROMA is the row's value. Rows plus skipped points equal the number of points. |
| Lroma.RateOfMinusOneSkipped | src/lroma_calculator.py:65-66 | A rate of -100% with at least one year is a division by zero that the sweep skips rather than reports. |
| Lroma.FractionalLifeAborts | src/lroma_calculator.py:34 | Overriding the vehicle life with a float aborts the sweep instead of being skipped. |

## Left out

- Floating point: the model computes with exact reals. Rounding, overflow
  and NaN are not modelled, and neither is the `isinstance(result, float)`
  check of the test.
- The `print` warnings of the batch operations are not modelled. A skipped
  item is only absent from the table; the skipped errors are listed by
  `Skipped`.
- pandas DataFrames are modelled as sequences of row records with the same
  columns.
- The calculators' constructors and their stored mapping are not modelled:
  the mapping is an explicit argument, because no operation changes it.
- FMIP scenarios are records with the four keys `calculate_fmip` reads.
  Other keys are not represented, so a sweep parameter naming an unknown
  `_cashflows` series is a KeyError. An unknown non-series parameter is
  written but never read, so it is modelled as a no-op.
- The temporary scenario of an FMIP sweep point is named
  `"temp_" + parameter` instead of `f"temp_{param_name}_{value}"`, because
  float-to-text formatting is not modelled. The name only reaches the
  discarded `scenario` field of the temporary result, never a row.
- The KeyError for an unknown FMIP scenario lists the available names as a
  set (`ScenarioNotFound(name, params.Keys)`), not in the mapping's
  insertion order.
- ValueError: nothing in the core raises it, so the `except (KeyError,
  ValueError)` clause of `scenario_comparison` is modelled as catching
  KeyErrors only.
- Python values of types other than int and float in the mappings (strings,
  None, numpy scalars) are not modelled. Neither are the TypeErrors other
  than a float `vehicle_life` that such values would raise.
- `run_analysis.py` and `visualization.py` are I/O and plotting and are not
  part of this model.
