/**
 * The Fiscal Multiplier of Industrial Policy calculator (src/fmip_model.py):
 * a named scenario's three cash-flow series are discounted at the scenario's
 * social discount rate, with the first flow at period 1, and the discounted
 * tax revenues plus fiscal avoidance are divided by the discounted public
 * investment. The calculator's parameter mapping is read-only after
 * construction, so it is passed to every operation as a value.
 */
module Fmip {
  import opened Results
  import opened PresentValue

  const PublicInvestmentKey := "public_investment_cashflows"
  const TaxRevenueKey := "tax_revenue_cashflows"
  const FiscalAvoidanceKey := "fiscal_avoidance_cashflows"
  const SocialDiscountRateKey := "social_discount_rate"
  const CashflowsSuffix := "_cashflows"

  /** The scenario `calculate_fmip` evaluates when given no name. */
  const DefaultScenario := "base_case"

  /** The scenarios `scenario_comparison` compares when given no names. */
  const DefaultScenarios := ["base_case", "pessimistic", "optimistic", "ssb_disruption"]

  /** One scenario's parameter mapping; a key that is absent is None. */
  datatype Scenario = Scenario(
    publicInvestment: Option<seq<real>>,
    taxRevenue: Option<seq<real>>,
    fiscalAvoidance: Option<seq<real>>,
    socialDiscountRate: Option<real>)

  /** The FMIP ratio: a number, or the `float('inf')` of a zero investment with positive returns. */
  datatype Ratio = Finite(value: real) | PosInf

  datatype FmipResult = FmipResult(
    fmip: Ratio,
    pvPublicInvestment: real,
    pvTaxRevenues: real,
    pvFiscalAvoidance: real,
    totalFiscalReturn: real,
    scenario: string)

  /** A row of the `scenario_comparison` table. */
  datatype ComparisonRow = ComparisonRow(
    scenario: string,
    fmip: Ratio,
    publicInvestment: real,
    taxRevenues: real,
    fiscalAvoidance: real,
    totalFiscalReturn: real)

  /** A row of the `sensitivity_analysis` table. */
  datatype SensitivityRow = SensitivityRow(parameter: string, value: real, fmip: Ratio, scenario: string)

  /** The cash-flow series stored under a key, if the key names one that is present. */
  function Series(s: Scenario, key: string): Option<seq<real>>
  {
    if key == PublicInvestmentKey then s.publicInvestment
    else if key == TaxRevenueKey then s.taxRevenue
    else if key == FiscalAvoidanceKey then s.fiscalAvoidance
    else None
  }

  /** All four keys that `calculate_fmip` reads are present. */
  predicate Complete(s: Scenario)
  {
    s.publicInvestment.Some? && s.taxRevenue.Some? && s.fiscalAvoidance.Some? && s.socialDiscountRate.Some?
  }

  /** The key `calculate_fmip` reads is absent from the scenario. */
  predicate Absent(s: Scenario, key: string)
  {
    || (key == PublicInvestmentKey && s.publicInvestment.None?)
    || (key == TaxRevenueKey && s.taxRevenue.None?)
    || (key == FiscalAvoidanceKey && s.fiscalAvoidance.None?)
    || (key == SocialDiscountRateKey && s.socialDiscountRate.None?)
  }

  predicate EndsWith(s: string, suffix: string)
  {
    |suffix| <= |s| && s[|s| - |suffix|..] == suffix
  }

  /**
   * `calculate_present_value`: Σ_{t=1..N} cfs[t-1] / (1 + rate)^t, with an
   * explicit early return of 0 for an empty list.
   */
  function CalculatePresentValue(cfs: seq<real>, rate: real): (r: Result<real>)
    ensures cfs == [] ==> r.Ok? && r.value == 0.0
    ensures r.Err? <==> cfs != [] && 1.0 + rate == 0.0
    ensures r.Err? ==> r.error == DivisionByZero
  {
    if cfs == [] then Ok(0.0) else Discounted(cfs, 1.0 + rate, 1)
  }

  /** A single flow is discounted once: index origin 1. */
  lemma PresentValueSingle(c: real, rate: real)
    requires 1.0 + rate != 0.0
    ensures CalculatePresentValue([c], rate).Ok?
    ensures CalculatePresentValue([c], rate).value == c / (1.0 + rate)
  {
    assert [c][1..] == [];
    DiscountedUnfold([c], 1.0 + rate, 1);
    assert Pow(1.0 + rate, 1) == 1.0 + rate;
  }

  /** At a zero rate the present value is the plain sum of the flows. */
  lemma PresentValueAtZeroRate(cfs: seq<real>)
    ensures CalculatePresentValue(cfs, 0.0) == Ok(Sum(cfs))
  {
    DiscountedAtZeroRate(cfs, 1);
  }

  /** The present value is linear in the flows. */
  lemma PresentValueScale(cfs: seq<real>, k: real, rate: real)
    ensures CalculatePresentValue(Scale(cfs, k), rate).Ok? == CalculatePresentValue(cfs, rate).Ok?
    ensures CalculatePresentValue(cfs, rate).Ok? ==>
      CalculatePresentValue(Scale(cfs, k), rate).value == k * CalculatePresentValue(cfs, rate).value
  {
    DiscountedScale(cfs, k, 1.0 + rate, 1);
  }

  /**
   * The zero-denominator rule: the plain ratio for a nonzero investment;
   * for a zero investment +infinity when the returns are positive, else 0.
   */
  function FmipRatio(totalReturn: real, investment: real): (r: Ratio)
    ensures r == PosInf <==> investment == 0.0 && totalReturn > 0.0
    ensures investment == 0.0 && totalReturn <= 0.0 ==> r == Finite(0.0)
    ensures investment != 0.0 ==> r.Finite? && r.value * investment == totalReturn
  {
    if investment == 0.0 then
      if totalReturn > 0.0 then PosInf else Finite(0.0)
    else Finite(totalReturn / investment)
  }

  /**
   * The body of `calculate_fmip` once the scenario is found: keys are read and
   * present values computed in the source's order, so a zero divisor in an
   * earlier present value wins over a key missing later.
   */
  function EvaluateScenario(s: Scenario, name: string): (r: Result<FmipResult>)
    ensures r.Err? ==> r.error == DivisionByZero || r.error.ScenarioFieldMissing?
    ensures r.Err? && r.error.ScenarioFieldMissing? ==>
      r.error.scenario == name && Absent(s, r.error.key)
    ensures r.Err? && r.error == DivisionByZero ==>
      s.socialDiscountRate.Some? && 1.0 + s.socialDiscountRate.value == 0.0
    ensures s.publicInvestment.None? ==> r == Err(ScenarioFieldMissing(name, PublicInvestmentKey))
    ensures s.publicInvestment.Some? && s.socialDiscountRate.None? ==>
      r == Err(ScenarioFieldMissing(name, SocialDiscountRateKey))
    ensures r == Err(DivisionByZero) <==>
      && s.publicInvestment.Some? && s.socialDiscountRate.Some?
      && 1.0 + s.socialDiscountRate.value == 0.0
      && (|| s.publicInvestment.value != []
          || (s.taxRevenue.Some? && (s.taxRevenue.value != [] || (s.fiscalAvoidance.Some? && s.fiscalAvoidance.value != []))))
    ensures s.publicInvestment.Some? && s.socialDiscountRate.Some? && s.taxRevenue.None? && r != Err(DivisionByZero) ==>
      r == Err(ScenarioFieldMissing(name, TaxRevenueKey))
    ensures
      && s.publicInvestment.Some? && s.socialDiscountRate.Some? && s.taxRevenue.Some? && s.fiscalAvoidance.None?
      && r != Err(DivisionByZero) ==>
      r == Err(ScenarioFieldMissing(name, FiscalAvoidanceKey))
    ensures Complete(s) && 1.0 + s.socialDiscountRate.value != 0.0 ==> r.Ok?
    ensures !Complete(s) ==> r.Err?
    ensures r.Ok? ==>
      && Complete(s)
      && r.value.scenario == name
      && r.value.totalFiscalReturn == r.value.pvTaxRevenues + r.value.pvFiscalAvoidance
      && r.value.fmip == FmipRatio(r.value.totalFiscalReturn, r.value.pvPublicInvestment)
      && CalculatePresentValue(s.publicInvestment.value, s.socialDiscountRate.value) == Ok(r.value.pvPublicInvestment)
      && CalculatePresentValue(s.taxRevenue.value, s.socialDiscountRate.value) == Ok(r.value.pvTaxRevenues)
      && CalculatePresentValue(s.fiscalAvoidance.value, s.socialDiscountRate.value) == Ok(r.value.pvFiscalAvoidance)
  {
    if s.publicInvestment.None? then Err(ScenarioFieldMissing(name, PublicInvestmentKey))
    else if s.socialDiscountRate.None? then Err(ScenarioFieldMissing(name, SocialDiscountRateKey))
    else
      var rate := s.socialDiscountRate.value;
      match CalculatePresentValue(s.publicInvestment.value, rate)
      case Err(e) => Err(e)
      case Ok(pvInvestment) =>
        if s.taxRevenue.None? then Err(ScenarioFieldMissing(name, TaxRevenueKey))
        else match CalculatePresentValue(s.taxRevenue.value, rate)
        case Err(e) => Err(e)
        case Ok(pvTax) =>
          if s.fiscalAvoidance.None? then Err(ScenarioFieldMissing(name, FiscalAvoidanceKey))
          else match CalculatePresentValue(s.fiscalAvoidance.value, rate)
          case Err(e) => Err(e)
          case Ok(pvAvoidance) =>
            var total := pvTax + pvAvoidance;
            Ok(FmipResult(FmipRatio(total, pvInvestment), pvInvestment, pvTax, pvAvoidance, total, name))
  }

  /** `calculate_fmip`: look the scenario up, then evaluate it. */
  function CalculateFmip(params: map<string, Scenario>, name: string): (r: Result<FmipResult>)
    ensures name !in params ==> r.Err? && r.error == ScenarioNotFound(name, params.Keys)
    ensures r.Err? && r.error.ScenarioNotFound? ==> name !in params
    ensures r.Err? ==> r.error.IsKeyError() || r.error == DivisionByZero
    ensures r.Ok? ==> name in params && r.value.scenario == name
  {
    if name !in params then Err(ScenarioNotFound(name, params.Keys))
    else EvaluateScenario(params[name], name)
  }

  /** The default comparison starts with the scenario `calculate_fmip` evaluates by default. */
  lemma DefaultComparisonStartsWithDefault(params: map<string, Scenario>)
    ensures ComparisonOutcomes(params, ComparedNames(None))[0] == ComparisonOutcome(params, DefaultScenario)
  {
    assert ComparedNames(None)[0] == DefaultScenario;
  }

  /** An ephemeral one-scenario calculator finds its scenario. */
  lemma SingletonLookup(s: Scenario, name: string)
    ensures CalculateFmip(map[name := s], name) == EvaluateScenario(s, name)
  {
  }

  /** A sweep point whose variation succeeds is evaluated as the only scenario of a fresh calculator. */
  lemma SweepPointOf(base: Scenario, baseName: string, parameter: string, value: real, modified: Scenario)
    requires Vary(base, parameter, value) == Ok(modified)
    requires EvaluateScenario(modified, "temp_" + parameter).Ok?
    ensures SweepPoint(base, baseName, parameter, value) ==
      Ok(SensitivityRow(parameter, value, EvaluateScenario(modified, "temp_" + parameter).value.fmip, baseName))
  {
    SingletonLookup(modified, "temp_" + parameter);
  }

  /** The row `scenario_comparison` builds from one result of `calculate_fmip`. */
  function ComparisonRowOf(name: string, res: FmipResult): ComparisonRow
  {
    ComparisonRow(name, res.fmip, res.pvPublicInvestment, res.pvTaxRevenues,
                  res.pvFiscalAvoidance, res.totalFiscalReturn)
  }

  /** One name's outcome in `scenario_comparison`. */
  function ComparisonOutcome(params: map<string, Scenario>, name: string): (r: Result<ComparisonRow>)
    ensures r.Err? <==> CalculateFmip(params, name).Err?
    ensures r.Err? ==> r.error == CalculateFmip(params, name).error
    ensures r.Ok? ==>
      && r.value.scenario == name
      && r.value.totalFiscalReturn == r.value.taxRevenues + r.value.fiscalAvoidance
      && r.value.fmip == FmipRatio(r.value.totalFiscalReturn, r.value.publicInvestment)
  {
    match CalculateFmip(params, name)
    case Err(e) => Err(e)
    case Ok(res) => Ok(ComparisonRowOf(name, res))
  }

  /** The per-name outcomes of a comparison, in input order. */
  function ComparisonOutcomes(params: map<string, Scenario>, names: seq<string>): (r: seq<Result<ComparisonRow>>)
    ensures |r| == |names|
    ensures forall i :: 0 <= i < |names| ==> r[i] == ComparisonOutcome(params, names[i])
  {
    if names == [] then []
    else ComparisonOutcomes(params, names[..|names| - 1]) + [ComparisonOutcome(params, names[|names| - 1])]
  }

  /**
   * The `except` clause of `scenario_comparison`: KeyError and ValueError; no
   * operation here raises a ValueError, so a ZeroDivisionError is the error
   * that escapes.
   */
  const ComparisonHandler := CatchKeyErrors

  /** The names compared: the given list, or the four default scenarios when none is given. */
  function ComparedNames(scenarios: Option<seq<string>>): seq<string>
  {
    if scenarios.None? then DefaultScenarios else scenarios.value
  }

  /** The ZeroDivisionError that `scenario_comparison` does not catch. */
  predicate AbortsComparison(params: map<string, Scenario>, name: string)
  {
    CalculateFmip(params, name) == Err(DivisionByZero)
  }

  /** The outcomes of a prefix of the names are a prefix of the outcomes. */
  lemma ComparisonOutcomesPrefix(params: map<string, Scenario>, names: seq<string>, i: nat)
    requires i <= |names|
    ensures ComparisonOutcomes(params, names[..i]) == ComparisonOutcomes(params, names)[..i]
  {
  }

  /** One more name: a division by zero ends the comparison, a success adds its row, a KeyError nothing. */
  lemma ComparisonStep(params: map<string, Scenario>, names: seq<string>, i: nat, rows: seq<ComparisonRow>)
    requires i < |names|
    requires Collect(ComparisonHandler, ComparisonOutcomes(params, names[..i])) == Ok(rows)
    ensures Collect(ComparisonHandler, ComparisonOutcomes(params, names[..i + 1])) ==
      var o := ComparisonOutcome(params, names[i]);
      if Fatal(ComparisonHandler, o) then Err(o.error) else Ok(rows + if o.Ok? then [o.value] else [])
  {
    var o := ComparisonOutcome(params, names[i]);
    ComparisonOutcomesPrefix(params, names, i);
    ComparisonOutcomesPrefix(params, names, i + 1);
    assert ComparisonOutcomes(params, names)[..i + 1] == ComparisonOutcomes(params, names)[..i] + [o];
    CollectStep(ComparisonHandler, ComparisonOutcomes(params, names[..i]), o, rows);
  }

  /** A comparison that stops at name i returns what it had there. */
  lemma ComparisonAborted(params: map<string, Scenario>, names: seq<string>, i: nat)
    requires i < |names|
    requires Collect(ComparisonHandler, ComparisonOutcomes(params, names[..i + 1])).Err?
    ensures Collect(ComparisonHandler, ComparisonOutcomes(params, names)) ==
      Collect(ComparisonHandler, ComparisonOutcomes(params, names[..i + 1]))
  {
    ComparisonOutcomesPrefix(params, names, i + 1);
    CollectPrefixStops(ComparisonHandler, ComparisonOutcomes(params, names), ComparisonOutcomes(params, names[..i + 1]));
  }

  /**
   * `scenario_comparison`: one row per scenario whose calculation succeeds,
   * in input order; names that raise a KeyError are skipped, and a
   * ZeroDivisionError aborts the whole comparison.
   */
  method ScenarioComparison(params: map<string, Scenario>, scenarios: Option<seq<string>>)
    returns (r: Result<seq<ComparisonRow>>)
    ensures r == Collect(ComparisonHandler, ComparisonOutcomes(params, ComparedNames(scenarios)))
  {
    var names := if scenarios.None? then DefaultScenarios else scenarios.value;
    r := CompareNames(params, names);
  }

  /** The loop of `scenario_comparison` over the names to compare. */
  method CompareNames(params: map<string, Scenario>, names: seq<string>) returns (r: Result<seq<ComparisonRow>>)
    ensures r == Collect(ComparisonHandler, ComparisonOutcomes(params, names))
  {
    var rows: seq<ComparisonRow> := [];
    var i := 0;
    while i < |names|
      invariant 0 <= i <= |names|
      invariant Collect(ComparisonHandler, ComparisonOutcomes(params, names[..i])) == Ok(rows)
    {
      var next := CompareName(params, names, i, rows);
      if next.Err? {
        ComparisonAborted(params, names, i);
        return next;
      }
      rows := next.value;
      i := i + 1;
    }
    assert names[..i] == names;
    return Ok(rows);
  }

  /**
   * One pass of the loop body: a successful calculation appends its row, a
   * KeyError is skipped, and any other error escapes.
   */
  method CompareName(params: map<string, Scenario>, names: seq<string>, i: nat, rows: seq<ComparisonRow>)
    returns (r: Result<seq<ComparisonRow>>)
    requires i < |names|
    requires Collect(ComparisonHandler, ComparisonOutcomes(params, names[..i])) == Ok(rows)
    ensures r == Collect(ComparisonHandler, ComparisonOutcomes(params, names[..i + 1]))
  {
    var outcome := ComparisonOutcome(params, names[i]);
    ComparisonStep(params, names, i, rows);
    if Fatal(ComparisonHandler, outcome) {
      return Err(outcome.error);
    }
    r := Ok(rows + if outcome.Ok? then [outcome.value] else []);
  }

  /**
   * What `scenario_comparison` returns: it fails exactly when some name's
   * calculation divides by zero, with that error; otherwise the table holds
   * the successful calculations in input order.
   */
  lemma ComparisonMeaning(params: map<string, Scenario>, names: seq<string>)
    ensures Collect(ComparisonHandler, ComparisonOutcomes(params, names)).Err? <==>
      exists i :: 0 <= i < |names| && AbortsComparison(params, names[i])
    ensures Collect(ComparisonHandler, ComparisonOutcomes(params, names)).Err? ==>
      Collect(ComparisonHandler, ComparisonOutcomes(params, names)).error == DivisionByZero
    ensures Collect(ComparisonHandler, ComparisonOutcomes(params, names)).Ok? ==>
      Collect(ComparisonHandler, ComparisonOutcomes(params, names)).value == Kept(ComparisonOutcomes(params, names))
  {
    var outcomes := ComparisonOutcomes(params, names);
    CollectMeaning(ComparisonHandler, outcomes);
    assert forall i :: 0 <= i < |names| ==> (Fatal(ComparisonHandler, outcomes[i]) <==> AbortsComparison(params, names[i]));
  }

  /** The scenario with the series under a series key replaced. */
  function WithSeries(s: Scenario, key: string, flows: seq<real>): Scenario
  {
    if key == PublicInvestmentKey then s.(publicInvestment := Some(flows))
    else if key == TaxRevenueKey then s.(taxRevenue := Some(flows))
    else if key == FiscalAvoidanceKey then s.(fiscalAvoidance := Some(flows))
    else s
  }

  /**
   * One sweep point's change to the copied scenario: a `_cashflows` parameter
   * has every element of its series multiplied by the value (a KeyError when
   * the series is absent); any other parameter is overwritten with the value,
   * which `calculate_fmip` only notices for the social discount rate.
   */
  function Vary(s: Scenario, parameter: string, value: real): (r: Result<Scenario>)
    ensures r.Err? ==> r.error == KeyMissing(parameter)
    ensures EndsWith(parameter, CashflowsSuffix) ==> (r.Ok? <==> Series(s, parameter).Some?)
    ensures !EndsWith(parameter, CashflowsSuffix) ==> r.Ok?
    ensures r.Ok? && EndsWith(parameter, CashflowsSuffix) ==>
      && Series(r.value, parameter) == Some(Scale(Series(s, parameter).value, value))
      && r.value.socialDiscountRate == s.socialDiscountRate
    ensures r.Ok? && !EndsWith(parameter, CashflowsSuffix) ==>
      r.value.socialDiscountRate == if parameter == SocialDiscountRateKey then Some(value) else s.socialDiscountRate
    ensures r.Ok? ==> forall key :: key != parameter ==> Series(r.value, key) == Series(s, key)
  {
    if EndsWith(parameter, CashflowsSuffix) then
      match Series(s, parameter)
      case None => Err(KeyMissing(parameter))
      case Some(flows) => Ok(WithSeries(s, parameter, Scale(flows, value)))
    else if parameter == SocialDiscountRateKey then Ok(s.(socialDiscountRate := Some(value)))
    else Ok(s)
  }

  /**
   * One point of `sensitivity_analysis`: vary the base scenario, evaluate it
   * through an ephemeral one-scenario calculator, and build the row; any
   * failure is an error that the sweep skips.
   */
  function SweepPoint(base: Scenario, baseName: string, parameter: string, value: real): (r: Result<SensitivityRow>)
    ensures Vary(base, parameter, value).Err? ==> r == Err(KeyMissing(parameter))
    ensures r.Err? ==> r.error.IsKeyError() || r.error == DivisionByZero
    ensures r.Ok? ==> r.value.parameter == parameter && r.value.value == value && r.value.scenario == baseName
  {
    match Vary(base, parameter, value)
    case Err(e) => Err(e)
    case Ok(modified) =>
      var temp := "temp_" + parameter;
      match CalculateFmip(map[temp := modified], temp)
      case Err(e) => Err(e)
      case Ok(res) => Ok(SensitivityRow(parameter, value, res.fmip, baseName))
  }

  /** The outcome of every sweep point, in sweep order. */
  function SweepOutcomes(base: Scenario, baseName: string, points: seq<(string, real)>): (r: seq<Result<SensitivityRow>>)
    ensures |r| == |points|
    ensures forall i :: 0 <= i < |points| ==> r[i] == SweepPoint(base, baseName, points[i].0, points[i].1)
  {
    if points == [] then []
    else
      var last := points[|points| - 1];
      SweepOutcomes(base, baseName, points[..|points| - 1]) + [SweepPoint(base, baseName, last.0, last.1)]
  }

  /** One more sweep point: its row is kept when its calculation succeeds. */
  lemma SweepStep(base: Scenario, baseName: string, done: seq<(string, real)>, parameter: string,
                  values: seq<real>, j: nat)
    requires j < |values|
    ensures Kept(SweepOutcomes(base, baseName, done + Pairs(parameter, values[..j + 1]))) ==
      Kept(SweepOutcomes(base, baseName, done + Pairs(parameter, values[..j])))
      + if SweepPoint(base, baseName, parameter, values[j]).Ok?
        then [SweepPoint(base, baseName, parameter, values[j]).value] else []
  {
    var before := done + Pairs(parameter, values[..j]);
    var o := SweepPoint(base, baseName, parameter, values[j]);
    PointsStep(done, parameter, values, j);
    assert (before + [(parameter, values[j])])[..|before|] == before;
    assert SweepOutcomes(base, baseName, before + [(parameter, values[j])]) ==
      SweepOutcomes(base, baseName, before) + [o];
    KeptAppend(SweepOutcomes(base, baseName, before), [o]);
    KeptSingle(o);
  }

  /**
   * `sensitivity_analysis`: an unknown base scenario fails before any row;
   * otherwise one row per sweep point that succeeds, in sweep order, with
   * every failing point skipped.
   */
  method SensitivityAnalysis(params: map<string, Scenario>, baseScenario: string,
                             variations: seq<(string, seq<real>)>)
    returns (r: Result<seq<SensitivityRow>>)
    ensures baseScenario !in params ==> r == Err(KeyMissing(baseScenario))
    ensures baseScenario in params ==>
      r.Ok? && r.value == Kept(SweepOutcomes(params[baseScenario], baseScenario, Grid(variations)))
  {
    if baseScenario !in params {
      return Err(KeyMissing(baseScenario));
    }
    var base := params[baseScenario];
    var rows: seq<SensitivityRow> := [];
    var i := 0;
    while i < |variations|
      invariant 0 <= i <= |variations|
      invariant rows == Kept(SweepOutcomes(base, baseScenario, Grid(variations[..i])))
    {
      var (parameter, values) := variations[i];
      assert Grid(variations[..i]) + Pairs(parameter, values[..0]) == Grid(variations[..i]);
      var j := 0;
      while j < |values|
        invariant 0 <= j <= |values|
        invariant rows == Kept(SweepOutcomes(base, baseScenario, Grid(variations[..i]) + Pairs(parameter, values[..j])))
      {
        rows := SweepRow(base, baseScenario, Grid(variations[..i]), parameter, values, j, rows);
        j := j + 1;
      }
      assert values[..j] == values;
      GridStep(variations, i);
      i := i + 1;
    }
    assert variations[..i] == variations;
    return Ok(rows);
  }

  /** One pass of the inner loop: the j-th value's row is appended when its calculation succeeds. */
  method SweepRow(base: Scenario, baseName: string, ghost done: seq<(string, real)>, parameter: string,
                  values: seq<real>, j: nat, rows: seq<SensitivityRow>)
    returns (next: seq<SensitivityRow>)
    requires j < |values|
    requires rows == Kept(SweepOutcomes(base, baseName, done + Pairs(parameter, values[..j])))
    ensures next == Kept(SweepOutcomes(base, baseName, done + Pairs(parameter, values[..j + 1])))
  {
    var value := values[j];
    SweepStep(base, baseName, done, parameter, values, j);
    next := rows;
    var modified := Vary(base, parameter, value);
    if modified.Ok? {
      var temp := "temp_" + parameter;
      var outcome := CalculateFmip(map[temp := modified.value], temp);
      if outcome.Ok? {
        next := rows + [SensitivityRow(parameter, value, outcome.value.fmip, baseName)];
      }
    }
  }

  /**
   * What the comparison table holds: each row is the successful calculation
   * for its own scenario name (so unknown names never appear), every name that
   * succeeds contributes its row, and every name is either a row or skipped.
   */
  lemma ComparisonRowsAreCalculations(params: map<string, Scenario>, names: seq<string>)
    ensures forall row :: row in Kept(ComparisonOutcomes(params, names)) ==>
      && row.scenario in params
      && CalculateFmip(params, row.scenario).Ok?
      && row == ComparisonRowOf(row.scenario, CalculateFmip(params, row.scenario).value)
    ensures forall i :: 0 <= i < |names| && CalculateFmip(params, names[i]).Ok? ==>
      ComparisonRowOf(names[i], CalculateFmip(params, names[i]).value) in Kept(ComparisonOutcomes(params, names))
    ensures |Kept(ComparisonOutcomes(params, names))| + |Skipped(ComparisonOutcomes(params, names))| == |names|
  {
    var outcomes := ComparisonOutcomes(params, names);
    KeptPlusSkipped(outcomes);
    forall row: ComparisonRow | row in Kept(outcomes)
      ensures row.scenario in params && CalculateFmip(params, row.scenario).Ok?
      ensures row == ComparisonRowOf(row.scenario, CalculateFmip(params, row.scenario).value)
    {
      KeptMembership(outcomes, row);
      var i :| 0 <= i < |outcomes| && outcomes[i] == Ok(row);
      assert ComparisonOutcome(params, names[i]) == Ok(row);
    }
    forall i | 0 <= i < |names| && CalculateFmip(params, names[i]).Ok?
      ensures ComparisonRowOf(names[i], CalculateFmip(params, names[i]).value) in Kept(outcomes)
    {
      KeptMembership(outcomes, ComparisonRowOf(names[i], CalculateFmip(params, names[i]).value));
    }
  }

  /**
   * What a sensitivity row means: it comes from a point of the sweep, it names
   * the base scenario, and its fmip is that of the base scenario varied at
   * that point alone.
   */
  lemma SensitivityRowMeaning(base: Scenario, baseName: string, variations: seq<(string, seq<real>)>,
                              row: SensitivityRow)
    requires row in Kept(SweepOutcomes(base, baseName, Grid(variations)))
    ensures (row.parameter, row.value) in Grid(variations)
    ensures row.scenario == baseName
    ensures Vary(base, row.parameter, row.value).Ok?
    ensures EvaluateScenario(Vary(base, row.parameter, row.value).value, "temp_" + row.parameter).Ok?
    ensures row.fmip == EvaluateScenario(Vary(base, row.parameter, row.value).value, "temp_" + row.parameter).value.fmip
  {
    var points := Grid(variations);
    var outcomes := SweepOutcomes(base, baseName, points);
    KeptMembership(outcomes, row);
    var i :| 0 <= i < |outcomes| && outcomes[i] == Ok(row);
    var modified := Vary(base, points[i].0, points[i].1).value;
    SingletonLookup(modified, "temp_" + points[i].0);
  }

  /** Conversely, every sweep point whose calculation succeeds has its row in the table. */
  lemma SweepRowComplete(base: Scenario, baseName: string, variations: seq<(string, seq<real>)>,
                         parameter: string, value: real)
    requires (parameter, value) in Grid(variations)
    requires SweepPoint(base, baseName, parameter, value).Ok?
    ensures SweepPoint(base, baseName, parameter, value).value in Kept(SweepOutcomes(base, baseName, Grid(variations)))
  {
    var points := Grid(variations);
    var outcomes := SweepOutcomes(base, baseName, points);
    var i :| 0 <= i < |points| && points[i] == (parameter, value);
    assert outcomes[i] == Ok(SweepPoint(base, baseName, parameter, value).value);
    KeptMembership(outcomes, SweepPoint(base, baseName, parameter, value).value);
  }

  /** Every point of the sweep is accounted for: it is either a row or a skipped error. */
  lemma SweepAccountsForEveryPoint(base: Scenario, baseName: string, variations: seq<(string, seq<real>)>)
    ensures |Kept(SweepOutcomes(base, baseName, Grid(variations)))| +
      |Skipped(SweepOutcomes(base, baseName, Grid(variations)))| == |Grid(variations)|
  {
    KeptPlusSkipped(SweepOutcomes(base, baseName, Grid(variations)));
  }

  /** Multiplying a nonzero investment by k != 0 divides the ratio by k. */
  lemma ScaledRatio(total: real, investment: real, k: real)
    requires investment != 0.0 && k != 0.0
    ensures FmipRatio(total, k * investment) == Finite(FmipRatio(total, investment).value / k)
  {
    assert k * investment != 0.0;
    assert total / (k * investment) == (total / investment) / k;
  }

  /** Varying the investment series multiplies it and leaves the rest of the scenario alone. */
  lemma VaryInvestment(base: Scenario, k: real)
    requires base.publicInvestment.Some?
    ensures Vary(base, PublicInvestmentKey, k) ==
      Ok(base.(publicInvestment := Some(Scale(base.publicInvestment.value, k))))
  {
    assert EndsWith(PublicInvestmentKey, CashflowsSuffix);
  }

  /** Two results whose investment PVs differ by a factor k != 0 and whose returns agree have FMIPs a factor k apart. */
  lemma ScaledResult(before: FmipResult, after: FmipResult, k: real)
    requires k != 0.0 && before.pvPublicInvestment != 0.0
    requires before.fmip == FmipRatio(before.totalFiscalReturn, before.pvPublicInvestment)
    requires after.fmip == FmipRatio(after.totalFiscalReturn, after.pvPublicInvestment)
    requires after.pvPublicInvestment == k * before.pvPublicInvestment
    requires after.totalFiscalReturn == before.totalFiscalReturn
    ensures after.fmip == Finite(before.fmip.value / k)
  {
    ScaledRatio(before.totalFiscalReturn, before.pvPublicInvestment, k);
  }

  /** A scenario with its investment scaled by k: k times the investment PV, the same returns. */
  lemma ScaledInvestmentParts(base: Scenario, baseName: string, name: string, k: real)
    requires EvaluateScenario(base, baseName).Ok?
    ensures EvaluateScenario(base.(publicInvestment := Some(Scale(base.publicInvestment.value, k))), name).Ok?
    ensures EvaluateScenario(base.(publicInvestment := Some(Scale(base.publicInvestment.value, k))), name).value.pvPublicInvestment ==
      k * EvaluateScenario(base, baseName).value.pvPublicInvestment
    ensures EvaluateScenario(base.(publicInvestment := Some(Scale(base.publicInvestment.value, k))), name).value.totalFiscalReturn ==
      EvaluateScenario(base, baseName).value.totalFiscalReturn
  {
    PresentValueScale(base.publicInvestment.value, k, base.socialDiscountRate.value);
  }

  /** Scaling the investment by k != 0 divides a finite FMIP by k. */
  lemma EvaluateScaledInvestment(base: Scenario, baseName: string, name: string, k: real)
    requires k != 0.0
    requires EvaluateScenario(base, baseName).Ok?
    requires EvaluateScenario(base, baseName).value.pvPublicInvestment != 0.0
    ensures EvaluateScenario(base.(publicInvestment := Some(Scale(base.publicInvestment.value, k))), name).Ok?
    ensures EvaluateScenario(base.(publicInvestment := Some(Scale(base.publicInvestment.value, k))), name).value.fmip ==
      Finite(EvaluateScenario(base, baseName).value.fmip.value / k)
  {
    var modified := base.(publicInvestment := Some(Scale(base.publicInvestment.value, k)));
    ScaledInvestmentParts(base, baseName, name, k);
    ScaledResult(EvaluateScenario(base, baseName).value, EvaluateScenario(modified, name).value, k);
  }

  /**
   * Scaling the public investment series by k != 0 in the sweep divides a
   * finite FMIP by k: the present value is linear and the returns are untouched.
   */
  lemma SweepScalesInvestment(base: Scenario, baseName: string, k: real)
    requires k != 0.0
    requires EvaluateScenario(base, baseName).Ok?
    requires EvaluateScenario(base, baseName).value.pvPublicInvestment != 0.0
    ensures SweepPoint(base, baseName, PublicInvestmentKey, k).Ok?
    ensures SweepPoint(base, baseName, PublicInvestmentKey, k).value.fmip ==
      Finite(EvaluateScenario(base, baseName).value.fmip.value / k)
  {
    var temp := "temp_" + PublicInvestmentKey;
    var modified := base.(publicInvestment := Some(Scale(base.publicInvestment.value, k)));
    VaryInvestment(base, k);
    EvaluateScaledInvestment(base, baseName, temp, k);
    SweepPointOf(base, baseName, PublicInvestmentKey, k, modified);
  }
}
