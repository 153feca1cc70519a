/**
 * The Levelized Return on Mobility Asset calculator (src/lroma_calculator.py):
 * a vehicle's cash flows are the capital outlay at period 0 followed by one
 * annual profit per year of life; their NPV, discounted from period 0, is
 * divided by the present value of the distance driven in years 1..N.
 */
module Lroma {
  import opened Results
  import opened PresentValue

  const CapexKey := "capex"
  const AnnualDistanceKey := "annual_distance"
  const TcoPerKmKey := "tco_per_km"
  const FreightRateKey := "freight_rate"
  const DiscountRateKey := "discount_rate"
  const VehicleLifeKey := "vehicle_life"

  /** A Python number in a parameter mapping: an int or a float. */
  datatype Num = Int(i: int) | Float(f: real)
  {
    function AsReal(): real
    {
      match this
      case Int(i) => i as real
      case Float(f) => f
    }
  }

  /** A vehicle's parameter mapping. */
  type VehicleParams = map<string, Num>

  /** A row of the `sensitivity_analysis` table. */
  datatype SensitivityRow = SensitivityRow(parameter: string, value: Num, lroma: real)

  /** The six keys `calculate_lroma` reads, all present. */
  predicate HasRequiredKeys(p: VehicleParams)
  {
    && CapexKey in p && AnnualDistanceKey in p && TcoPerKmKey in p
    && FreightRateKey in p && DiscountRateKey in p && VehicleLifeKey in p
  }

  predicate IsRequiredKey(key: string)
  {
    key == CapexKey || key == AnnualDistanceKey || key == TcoPerKmKey
    || key == FreightRateKey || key == DiscountRateKey || key == VehicleLifeKey
  }

  /** `calculate_npv`: the sum of cfs[t-1] / (1 + rate)^t, with the first flow at t = 1. */
  function CalculateNpv(cfs: seq<real>, rate: real): (r: Result<real>)
    ensures cfs == [] ==> r.Ok? && r.value == 0.0
    ensures r.Err? <==> cfs != [] && 1.0 + rate == 0.0
  {
    Discounted(cfs, 1.0 + rate, 1)
  }

  /** A single flow is discounted once: index origin 1. */
  lemma NpvSingle(c: real, rate: real)
    requires 1.0 + rate != 0.0
    ensures CalculateNpv([c], rate).Ok?
    ensures CalculateNpv([c], rate).value == c / (1.0 + rate)
  {
    assert [c][1..] == [];
    DiscountedUnfold([c], 1.0 + rate, 1);
    assert Pow(1.0 + rate, 1) == 1.0 + rate;
  }

  /** At a zero rate `calculate_npv` is the plain sum. */
  lemma NpvAtZeroRate(cfs: seq<real>)
    ensures CalculateNpv(cfs, 0.0) == Ok(Sum(cfs))
  {
    DiscountedAtZeroRate(cfs, 1);
  }

  /** `[x] * n` and `range(1, n + 1)` are empty for a count n <= 0. */
  function Periods(life: int): (n: nat)
    ensures life >= 0 ==> n == life
    ensures life < 0 ==> n == 0
  {
    if life < 0 then 0 else life
  }

  /** `[-capex]` extended with `[annual_profit] * vehicle_life`. */
  function CashFlows(capex: real, profit: real, life: int): (r: seq<real>)
    ensures |r| == Periods(life) + 1
    ensures r[0] == -capex
    ensures forall t :: 1 <= t < |r| ==> r[t] == profit
    ensures life <= 0 ==> r == [-capex]
  {
    [-capex] + Repeat(profit, Periods(life))
  }

  /** The NPV inside `calculate_lroma`: enumeration from 0, so the outlay is not discounted. */
  function Npv(cfs: seq<real>, rate: real): (r: Result<real>)
    ensures r.Err? <==> 1.0 + rate == 0.0 && |cfs| >= 2
    ensures |cfs| == 1 ==> r.Ok? && r.value == cfs[0]
  {
    DiscountedSingle(cfs, 1.0 + rate);
    Discounted(cfs, 1.0 + rate, 0)
  }

  /** Σ_{t=1..N} distance / (1 + rate)^t: no distance is counted at period 0. */
  function PvDistance(distance: real, rate: real, life: int): (r: Result<real>)
    ensures r.Err? <==> 1.0 + rate == 0.0 && life >= 1
    ensures life <= 0 ==> r == Ok(0.0)
  {
    Discounted(Repeat(distance, Periods(life)), 1.0 + rate, 1)
  }

  /** The arithmetic of `calculate_lroma` once the six parameters are read. */
  function LromaOf(capex: real, distance: real, tco: real, freight: real, rate: real, life: int): (r: Result<real>)
    ensures r.Err? <==> 1.0 + rate == 0.0 && life >= 1
    ensures r.Err? ==> r.error == DivisionByZero
    ensures life <= 0 ==> r == Ok(0.0)
  {
    var profit := distance * (freight - tco);
    match Npv(CashFlows(capex, profit, life), rate)
    case Err(e) => Err(e)
    case Ok(npv) =>
      match PvDistance(distance, rate, life)
      case Err(e) => Err(e)
      case Ok(pvDistance) => Ok(if pvDistance != 0.0 then npv / pvDistance else 0.0)
  }

  /**
   * `calculate_lroma`: the keys are read in the source's order (the first
   * absent one is the KeyError), a vehicle_life that is not an int fails when
   * the profit list is repeated, and a zero (1 + rate) fails only when some
   * flow sits at a period >= 1.
   */
  function CalculateLroma(p: VehicleParams): (r: Result<real>)
    ensures CapexKey !in p ==> r == Err(KeyMissing(CapexKey))
    ensures CapexKey in p && AnnualDistanceKey !in p ==> r == Err(KeyMissing(AnnualDistanceKey))
    ensures CapexKey in p && AnnualDistanceKey in p && TcoPerKmKey !in p ==> r == Err(KeyMissing(TcoPerKmKey))
    ensures CapexKey in p && AnnualDistanceKey in p && TcoPerKmKey in p && FreightRateKey !in p ==>
      r == Err(KeyMissing(FreightRateKey))
    ensures CapexKey in p && AnnualDistanceKey in p && TcoPerKmKey in p && FreightRateKey in p && DiscountRateKey !in p ==>
      r == Err(KeyMissing(DiscountRateKey))
    ensures CapexKey in p && AnnualDistanceKey in p && TcoPerKmKey in p && FreightRateKey in p && DiscountRateKey in p
      && VehicleLifeKey !in p
      ==> r == Err(KeyMissing(VehicleLifeKey))
    ensures HasRequiredKeys(p) && p[VehicleLifeKey].Float? ==> r == Err(NotAnInteger(VehicleLifeKey))
    ensures r.Err? && r.error.KeyMissing? ==> IsRequiredKey(r.error.key) && r.error.key !in p
    ensures !HasRequiredKeys(p) ==> r.Err? && r.error.KeyMissing?
    ensures r.Err? && r.error.NotAnInteger? ==>
      HasRequiredKeys(p) && r.error.key == VehicleLifeKey && p[VehicleLifeKey].Float?
    ensures r.Err? ==> r.error.KeyMissing? || r.error.NotAnInteger? || r.error == DivisionByZero
    ensures r.Err? && r.error == DivisionByZero ==>
      HasRequiredKeys(p) && 1.0 + p[DiscountRateKey].AsReal() == 0.0
      && p[VehicleLifeKey].Int? && p[VehicleLifeKey].i >= 1
    ensures r.Ok? <==>
      && HasRequiredKeys(p) && p[VehicleLifeKey].Int?
      && (1.0 + p[DiscountRateKey].AsReal() != 0.0 || p[VehicleLifeKey].i <= 0)
  {
    if CapexKey !in p then Err(KeyMissing(CapexKey))
    else if AnnualDistanceKey !in p then Err(KeyMissing(AnnualDistanceKey))
    else if TcoPerKmKey !in p then Err(KeyMissing(TcoPerKmKey))
    else if FreightRateKey !in p then Err(KeyMissing(FreightRateKey))
    else if DiscountRateKey !in p then Err(KeyMissing(DiscountRateKey))
    else if VehicleLifeKey !in p then Err(KeyMissing(VehicleLifeKey))
    else if p[VehicleLifeKey].Float? then Err(NotAnInteger(VehicleLifeKey))
    else
      LromaOf(p[CapexKey].AsReal(), p[AnnualDistanceKey].AsReal(), p[TcoPerKmKey].AsReal(),
              p[FreightRateKey].AsReal(), p[DiscountRateKey].AsReal(), p[VehicleLifeKey].i)
  }

  /**
   * The index-origin asymmetry: the NPV inside `calculate_lroma` counts the
   * outlay at full value and discounts the profits exactly as `calculate_npv`
   * (origin 1) does.
   */
  lemma NpvOutlayUndiscounted(capex: real, profit: real, life: int, rate: real)
    requires 1.0 + rate != 0.0
    ensures Npv(CashFlows(capex, profit, life), rate).Ok?
    ensures Npv(CashFlows(capex, profit, life), rate).value ==
      -capex + CalculateNpv(Repeat(profit, Periods(life)), rate).value
  {
    var cfs := CashFlows(capex, profit, life);
    assert cfs[1..] == Repeat(profit, Periods(life));
    DiscountedUnfold(cfs, 1.0 + rate, 0);
  }

  lemma LromaOfSteps(capex: real, distance: real, tco: real, freight: real, rate: real, life: int)
    requires Npv(CashFlows(capex, distance * (freight - tco), life), rate).Ok?
    requires PvDistance(distance, rate, life).Ok?
    ensures LromaOf(capex, distance, tco, freight, rate, life).Ok?
    ensures LromaOf(capex, distance, tco, freight, rate, life).value ==
      if PvDistance(distance, rate, life).value != 0.0
      then Npv(CashFlows(capex, distance * (freight - tco), life), rate).value / PvDistance(distance, rate, life).value
      else 0.0
  {
  }

  /** The vehicle's NPV: the outlay plus the profit times the annuity factor of years 1..N. */
  lemma NpvClosedForm(capex: real, profit: real, life: int, rate: real)
    requires 1.0 + rate != 0.0
    ensures Npv(CashFlows(capex, profit, life), rate).Ok?
    ensures Npv(CashFlows(capex, profit, life), rate).value == -capex + profit * Annuity(1.0 + rate, 1, Periods(life))
  {
    NpvOutlayUndiscounted(capex, profit, life, rate);
    DiscountedConstant(profit, Periods(life), 1.0 + rate, 1);
  }

  /** The discounted distance: the annual distance times the annuity factor of years 1..N. */
  lemma PvDistanceClosedForm(distance: real, rate: real, life: int)
    requires 1.0 + rate != 0.0
    ensures PvDistance(distance, rate, life).Ok?
    ensures PvDistance(distance, rate, life).value == distance * Annuity(1.0 + rate, 1, Periods(life))
  {
    DiscountedConstant(distance, Periods(life), 1.0 + rate, 1);
  }

  lemma LevelizedArithmetic(capex: real, distance: real, margin: real, annuity: real)
    requires distance * annuity != 0.0
    ensures (-capex + distance * margin * annuity) / (distance * annuity) == margin - capex / (distance * annuity)
  {
  }

  lemma LevelizedStep(capex: real, distance: real, margin: real, rate: real, life: int)
    requires 1.0 + rate != 0.0
    requires distance * Annuity(1.0 + rate, 1, Periods(life)) != 0.0
    ensures (-capex + distance * margin * Annuity(1.0 + rate, 1, Periods(life))) / (distance * Annuity(1.0 + rate, 1, Periods(life)))
      == margin - capex / (distance * Annuity(1.0 + rate, 1, Periods(life)))
  {
    LevelizedArithmetic(capex, distance, margin, Annuity(1.0 + rate, 1, Periods(life)));
  }

  /**
   * Closed form: with A the annuity factor of years 1..N, the distance PV is
   * distance * A and the LROMA is the per-km margin minus the capex spread
   * over the discounted distance (or 0 when that distance PV is 0).
   */
  lemma LromaClosedForm(capex: real, distance: real, tco: real, freight: real, rate: real, life: int)
    requires 1.0 + rate != 0.0
    ensures PvDistance(distance, rate, life).Ok?
    ensures PvDistance(distance, rate, life).value == distance * Annuity(1.0 + rate, 1, Periods(life))
    ensures LromaOf(capex, distance, tco, freight, rate, life).Ok?
    ensures distance * Annuity(1.0 + rate, 1, Periods(life)) != 0.0 ==>
      LromaOf(capex, distance, tco, freight, rate, life).value ==
        (freight - tco) - capex / (distance * Annuity(1.0 + rate, 1, Periods(life)))
    ensures distance * Annuity(1.0 + rate, 1, Periods(life)) == 0.0 ==>
      LromaOf(capex, distance, tco, freight, rate, life).value == 0.0
  {
    NpvClosedForm(capex, distance * (freight - tco), life, rate);
    PvDistanceClosedForm(distance, rate, life);
    LromaOfSteps(capex, distance, tco, freight, rate, life);
    if distance * Annuity(1.0 + rate, 1, Periods(life)) != 0.0 {
      LevelizedStep(capex, distance, freight - tco, rate, life);
    }
  }

  /**
   * The guarded denominator: with no years of life or no distance, the
   * distance PV is 0 and the LROMA is 0, not an error, even at a rate of -100%
   * when there are no years to discount.
   */
  lemma LromaDegenerate(capex: real, distance: real, tco: real, freight: real, rate: real, life: int)
    requires life <= 0 || distance == 0.0
    requires 1.0 + rate != 0.0 || life <= 0
    ensures LromaOf(capex, distance, tco, freight, rate, life).Ok?
    ensures LromaOf(capex, distance, tco, freight, rate, life).value == 0.0
  {
    if 1.0 + rate != 0.0 {
      LromaClosedForm(capex, distance, tco, freight, rate, life);
    } else {
      assert Repeat(distance, Periods(life)) == [];
      assert CashFlows(capex, distance * (freight - tco), life) == [-capex];
    }
  }

  /**
   * At cost parity (freight rate equal to the cost per km) the profit is 0 but
   * the capex still counts: the LROMA is -capex over the distance PV.
   */
  lemma LromaAtCostParity(capex: real, distance: real, cost: real, rate: real, life: int)
    requires 1.0 + rate != 0.0
    requires PvDistance(distance, rate, life).Ok? && PvDistance(distance, rate, life).value != 0.0
    ensures LromaOf(capex, distance, cost, cost, rate, life).Ok?
    ensures LromaOf(capex, distance, cost, cost, rate, life).value == -capex / PvDistance(distance, rate, life).value
  {
    LromaClosedForm(capex, distance, cost, cost, rate, life);
  }

  /** ... so for a positive outlay, distance, life and a rate above -100% it is negative, not 0. */
  lemma LromaAtCostParityNegative(capex: real, distance: real, cost: real, rate: real, life: int)
    requires capex > 0.0 && distance > 0.0 && rate > -1.0 && life >= 1
    ensures LromaOf(capex, distance, cost, cost, rate, life).Ok?
    ensures LromaOf(capex, distance, cost, cost, rate, life).value < 0.0
  {
    LromaClosedForm(capex, distance, cost, cost, rate, life);
    AnnuityPositive(1.0 + rate, 1, Periods(life));
    var a := Annuity(1.0 + rate, 1, Periods(life));
    assert distance * a > 0.0;
  }

  /**
   * Whenever the distance PV is nonzero, the LROMA moves one for one with the
   * freight rate: raising the rate by d raises the LROMA by exactly d.
   */
  lemma LromaFreightSlope(capex: real, distance: real, tco: real, freight: real, rate: real, life: int, d: real)
    requires 1.0 + rate != 0.0
    requires PvDistance(distance, rate, life).Ok? && PvDistance(distance, rate, life).value != 0.0
    ensures LromaOf(capex, distance, tco, freight, rate, life).Ok?
    ensures LromaOf(capex, distance, tco, freight + d, rate, life).Ok?
    ensures LromaOf(capex, distance, tco, freight + d, rate, life).value ==
      LromaOf(capex, distance, tco, freight, rate, life).value + d
  {
    LromaClosedForm(capex, distance, tco, freight, rate, life);
    LromaClosedForm(capex, distance, tco, freight + d, rate, life);
  }

  /** The reference vehicle: 4.8M outlay, 100,000 km a year, 8 years at 8%. */
  const BaseCase: VehicleParams := map[
    CapexKey := Int(4800000), AnnualDistanceKey := Int(100000),
    TcoPerKmKey := Float(13.20), FreightRateKey := Float(25.00),
    DiscountRateKey := Float(0.08), VehicleLifeKey := Int(8)]

  /** The six parameter names are distinct. */
  lemma KeysDistinct()
    ensures CapexKey != AnnualDistanceKey && CapexKey != TcoPerKmKey && CapexKey != FreightRateKey
    ensures CapexKey != DiscountRateKey && CapexKey != VehicleLifeKey
    ensures AnnualDistanceKey != TcoPerKmKey && AnnualDistanceKey != FreightRateKey
    ensures AnnualDistanceKey != DiscountRateKey && AnnualDistanceKey != VehicleLifeKey
    ensures TcoPerKmKey != FreightRateKey && TcoPerKmKey != DiscountRateKey && TcoPerKmKey != VehicleLifeKey
    ensures FreightRateKey != DiscountRateKey && FreightRateKey != VehicleLifeKey
    ensures DiscountRateKey != VehicleLifeKey
  {
    assert |CapexKey| == 5 && |AnnualDistanceKey| == 15 && |TcoPerKmKey| == 10;
    assert |FreightRateKey| == 12 && |DiscountRateKey| == 13 && |VehicleLifeKey| == 12;
    assert FreightRateKey[0] != VehicleLifeKey[0];
  }

  /** The reference vehicle with a given outlay, read as `calculate_lroma` reads it. */
  lemma OutlayReads(capex: int)
    ensures CalculateLroma(BaseCase[CapexKey := Int(capex)]) ==
      LromaOf(capex as real, 100000.0, 13.2, 25.0, 0.08, 8)
  {
    KeysDistinct();
    var p := BaseCase[CapexKey := Int(capex)];
    assert p[CapexKey] == Int(capex) && p[AnnualDistanceKey] == Int(100000);
    assert p[TcoPerKmKey] == Float(13.2) && p[FreightRateKey] == Float(25.0);
    assert p[DiscountRateKey] == Float(0.08) && p[VehicleLifeKey] == Int(8);
  }

  lemma BaseCaseReads()
    ensures CalculateLroma(BaseCase) == LromaOf(4800000.0, 100000.0, 13.2, 25.0, 0.08, 8)
  {
    KeysDistinct();
    assert BaseCase[CapexKey := Int(4800000)] == BaseCase;
    OutlayReads(4800000);
  }

  /** Eight years at 8%: the annuity factor of years 1..8. */
  lemma EightYearAnnuity()
    ensures 5.7466 < Annuity(1.08, 1, 8) < 5.7467
  {
  }

  lemma ReciprocalBounds(x: real, a: real, lo: real, hi: real)
    requires 0.0 < lo < a < hi && x > 0.0
    ensures x / hi < x / a < x / lo
  {
    assert x / a * a == x;
    assert x / hi * hi == x;
    assert x / lo * lo == x;
  }

  /**
   * The reference vehicle's LROMA for a positive outlay: the 11.80 margin
   * less the outlay spread over between 574,660 and 574,670 discounted km.
   */
  lemma ReferenceLroma(capex: real)
    requires capex > 0.0
    ensures LromaOf(capex, 100000.0, 13.2, 25.0, 0.08, 8).Ok?
    ensures 11.8 - capex / 574660.0 < LromaOf(capex, 100000.0, 13.2, 25.0, 0.08, 8).value < 11.8 - capex / 574670.0
  {
    LromaClosedForm(capex, 100000.0, 13.2, 25.0, 0.08, 8);
    EightYearAnnuity();
    ReciprocalBounds(capex, 100000.0 * Annuity(1.08, 1, 8), 574660.0, 574670.0);
  }

  /**
   * The reference vehicle earns a positive LROMA: an 11.80 per-km margin less
   * the outlay spread over about 574,664 discounted km, about 3.447 per km.
   */
  lemma BaseCaseLroma()
    ensures CalculateLroma(BaseCase).Ok?
    ensures 3.447 < CalculateLroma(BaseCase).value < 3.448
  {
    BaseCaseReads();
    ReferenceLroma(4800000.0);
  }

  /**
   * A freight rate above the cost per km does not by itself make the LROMA
   * positive: the reference vehicle with ten times the outlay loses money.
   */
  lemma PositiveMarginCanStillLose()
    ensures BaseCase[FreightRateKey].AsReal() > BaseCase[TcoPerKmKey].AsReal()
    ensures BaseCase[VehicleLifeKey].i >= 1
    ensures CalculateLroma(BaseCase[CapexKey := Int(48000000)]).Ok?
    ensures CalculateLroma(BaseCase[CapexKey := Int(48000000)]).value < 0.0
  {
    OutlayReads(48000000);
    ReferenceLroma(48000000.0);
  }

  /** The target LROMA `calculate_breakeven` uses when given none. */
  const DefaultTarget := 0.0

  /**
   * `calculate_breakeven`: when the LROMA is below the target, a freight rate
   * raised by twice the shortfall; otherwise no breakeven points. Errors of
   * `calculate_lroma` propagate.
   */
  function CalculateBreakeven(p: VehicleParams, target: real): (r: Result<map<string, real>>)
    ensures r.Err? <==> CalculateLroma(p).Err?
    ensures r.Err? ==> r.error == CalculateLroma(p).error
    ensures r.Ok? ==> (r.value == map[] <==> CalculateLroma(p).value >= target)
    ensures r.Ok? && r.value != map[] ==>
      && r.value.Keys == {FreightRateKey}
      && r.value[FreightRateKey] - p[FreightRateKey].AsReal() == 2.0 * (target - CalculateLroma(p).value)
      && r.value[FreightRateKey] > p[FreightRateKey].AsReal()
  {
    match CalculateLroma(p)
    case Err(e) => Err(e)
    case Ok(baseLroma) =>
      if baseLroma < target then
        var requiredIncrease := (target - baseLroma) * 2.0;
        Ok(map[FreightRateKey := p[FreightRateKey].AsReal() + requiredIncrease])
      else Ok(map[])
  }

  /** At the default target the reference vehicle needs no breakeven points: its LROMA is positive. */
  lemma BaseCaseNeedsNoBreakeven()
    ensures CalculateBreakeven(BaseCase, DefaultTarget) == Ok(map[])
  {
    BaseCaseLroma();
  }

  /** Only the freight rate differs, so the LROMA is read off the same other parameters. */
  lemma WithFreight(p: VehicleParams, freight: real)
    requires CalculateLroma(p).Ok?
    ensures CalculateLroma(p[FreightRateKey := Float(freight)]) ==
      LromaOf(p[CapexKey].AsReal(), p[AnnualDistanceKey].AsReal(), p[TcoPerKmKey].AsReal(),
              freight, p[DiscountRateKey].AsReal(), p[VehicleLifeKey].i)
  {
  }

  /**
   * The breakeven heuristic overshoots: whenever the distance PV is positive
   * the LROMA has slope 1 in the freight rate, so the exact breakeven freight
   * rate is the current one plus the shortfall, and the suggested rate (plus
   * twice the shortfall) yields 2 * target - LROMA, strictly above the target.
   */
  lemma BreakevenOvershoots(p: VehicleParams, target: real)
    requires CalculateLroma(p).Ok? && CalculateLroma(p).value < target
    requires p[AnnualDistanceKey].AsReal() > 0.0 && p[DiscountRateKey].AsReal() > -1.0
    requires p[VehicleLifeKey].i >= 1
    ensures CalculateBreakeven(p, target).Ok? && FreightRateKey in CalculateBreakeven(p, target).value
    ensures CalculateLroma(p[FreightRateKey := Float(CalculateBreakeven(p, target).value[FreightRateKey])]).Ok?
    ensures CalculateLroma(p[FreightRateKey := Float(CalculateBreakeven(p, target).value[FreightRateKey])]).value ==
      2.0 * target - CalculateLroma(p).value
    ensures CalculateLroma(p[FreightRateKey := Float(CalculateBreakeven(p, target).value[FreightRateKey])]).value > target
    ensures CalculateLroma(p[FreightRateKey := Float(p[FreightRateKey].AsReal() + (target - CalculateLroma(p).value))]).Ok?
    ensures CalculateLroma(p[FreightRateKey := Float(p[FreightRateKey].AsReal() + (target - CalculateLroma(p).value))]).value == target
  {
    var capex, distance, tco := p[CapexKey].AsReal(), p[AnnualDistanceKey].AsReal(), p[TcoPerKmKey].AsReal();
    var freight, rate, life := p[FreightRateKey].AsReal(), p[DiscountRateKey].AsReal(), p[VehicleLifeKey].i;
    var shortfall := target - CalculateLroma(p).value;
    LromaClosedForm(capex, distance, tco, freight, rate, life);
    AnnuityPositive(1.0 + rate, 1, Periods(life));
    assert distance * Annuity(1.0 + rate, 1, Periods(life)) > 0.0;
    LromaFreightSlope(capex, distance, tco, freight, rate, life, 2.0 * shortfall);
    LromaFreightSlope(capex, distance, tco, freight, rate, life, shortfall);
    WithFreight(p, freight + 2.0 * shortfall);
    WithFreight(p, freight + shortfall);
  }

  /** One point of `sensitivity_analysis`: a copy of the base mapping with one entry set. */
  function SweepPoint(base: VehicleParams, parameter: string, value: Num): (r: Result<SensitivityRow>)
    ensures r.Ok? <==> CalculateLroma(base[parameter := value]).Ok?
    ensures r.Ok? ==> r.value.parameter == parameter && r.value.value == value
    ensures r.Err? && r.error.KeyMissing? ==> r.error.key != parameter && r.error.key !in base
  {
    match CalculateLroma(base[parameter := value])
    case Err(e) => Err(e)
    case Ok(lroma) => Ok(SensitivityRow(parameter, value, lroma))
  }

  /** The outcome of every sweep point, in sweep order. */
  function SweepOutcomes(base: VehicleParams, points: seq<(string, Num)>): (r: seq<Result<SensitivityRow>>)
    ensures |r| == |points|
    ensures forall k :: 0 <= k < |points| ==> r[k] == SweepPoint(base, points[k].0, points[k].1)
  {
    if points == [] then []
    else SweepOutcomes(base, points[..|points| - 1]) + [SweepPoint(base, points[|points| - 1].0, points[|points| - 1].1)]
  }

  /** The `except` clause of `sensitivity_analysis`: KeyError and ZeroDivisionError. */
  const SweepHandler := CatchKeyAndZeroDivisionErrors

  /** A sweep point whose calculation ends the sweep. */
  predicate Aborts(base: VehicleParams, point: (string, Num))
  {
    Fatal(SweepHandler, SweepPoint(base, point.0, point.1))
  }

  /** The only error the sweep does not catch is a vehicle_life that is not an int. */
  lemma FatalIsFractionalLife(base: VehicleParams, point: (string, Num))
    requires Aborts(base, point)
    ensures SweepPoint(base, point.0, point.1).error == NotAnInteger(VehicleLifeKey)
    ensures point.0 == VehicleLifeKey ==> point.1.Float?
  {
  }

  /**
   * One step of the sweep: the next point's outcome ends the sweep when it is
   * fatal, adds its row when it succeeds, and is skipped otherwise.
   */
  lemma SweepStep(base: VehicleParams, done: seq<(string, Num)>, parameter: string, values: seq<Num>, j: nat,
                  rows: seq<SensitivityRow>)
    requires j < |values|
    requires Collect(SweepHandler, SweepOutcomes(base, done + Pairs(parameter, values[..j]))) == Ok(rows)
    ensures Collect(SweepHandler, SweepOutcomes(base, done + Pairs(parameter, values[..j + 1]))) ==
      var o := SweepPoint(base, parameter, values[j]);
      if Fatal(SweepHandler, o) then Err(o.error) else Ok(rows + if o.Ok? then [o.value] else [])
  {
    var seen := done + Pairs(parameter, values[..j]);
    PointsStep(done, parameter, values, j);
    SweepOutcomesStep(base, seen, (parameter, values[j]));
    CollectStep(SweepHandler, SweepOutcomes(base, seen), SweepPoint(base, parameter, values[j]), rows);
  }

  /** A sweep that stops within one parameter's values returns what it had there. */
  lemma SweepValuesStop(base: VehicleParams, done: seq<(string, Num)>, parameter: string, values: seq<Num>, j: nat)
    requires j < |values|
    requires Collect(SweepHandler, SweepOutcomes(base, done + Pairs(parameter, values[..j + 1]))).Err?
    ensures Collect(SweepHandler, SweepOutcomes(base, done + Pairs(parameter, values))) ==
      Collect(SweepHandler, SweepOutcomes(base, done + Pairs(parameter, values[..j + 1])))
  {
    SweepValuesPrefix(base, done, parameter, values, j + 1);
    CollectPrefixStops(SweepHandler, SweepOutcomes(base, done + Pairs(parameter, values)),
      SweepOutcomes(base, done + Pairs(parameter, values[..j + 1])));
  }

  /** The outcomes of the first j values of a parameter are a prefix of those of all its values. */
  lemma SweepValuesPrefix(base: VehicleParams, done: seq<(string, Num)>, parameter: string, values: seq<Num>, j: nat)
    requires j <= |values|
    ensures SweepOutcomes(base, done + Pairs(parameter, values[..j])) <= SweepOutcomes(base, done + Pairs(parameter, values))
  {
    PairsPrefix(parameter, values, j);
    PrefixOfAppend(done, Pairs(parameter, values), j);
    SweepOutcomesPrefix(base, done + Pairs(parameter, values), |done| + j);
  }

  /** The outcomes of a prefix of the points are a prefix of the outcomes. */
  lemma {:induction false} SweepOutcomesPrefix(base: VehicleParams, points: seq<(string, Num)>, n: nat)
    requires n <= |points|
    ensures SweepOutcomes(base, points[..n]) == SweepOutcomes(base, points)[..n]
    decreases |points|
  {
    if n < |points| {
      var front := points[..|points| - 1];
      assert front[..n] == points[..n];
      SweepOutcomesPrefix(base, front, n);
    } else {
      assert points[..n] == points;
    }
  }

  /** A sweep that stops within parameter i returns what it had there. */
  lemma SweepRangesStop(base: VehicleParams, ranges: seq<(string, seq<Num>)>, i: nat)
    requires i < |ranges|
    requires Collect(SweepHandler, SweepOutcomes(base, Grid(ranges[..i + 1]))).Err?
    ensures Collect(SweepHandler, SweepOutcomes(base, Grid(ranges))) ==
      Collect(SweepHandler, SweepOutcomes(base, Grid(ranges[..i + 1])))
  {
    GridAppend(ranges[..i + 1], ranges[i + 1..]);
    assert ranges[..i + 1] + ranges[i + 1..] == ranges;
    SweepOutcomesAppend(base, Grid(ranges[..i + 1]), Grid(ranges[i + 1..]));
    CollectStops(SweepHandler, SweepOutcomes(base, Grid(ranges[..i + 1])), SweepOutcomes(base, Grid(ranges[i + 1..])));
  }

  /**
   * `sensitivity_analysis`: every (parameter, value) point in order; a point
   * whose calculation fails with a KeyError or a division by zero is skipped,
   * while a vehicle_life that is not an int ends the whole sweep with that error.
   */
  method SensitivityAnalysis(base: VehicleParams, ranges: seq<(string, seq<Num>)>)
    returns (r: Result<seq<SensitivityRow>>)
    ensures r == Collect(SweepHandler, SweepOutcomes(base, Grid(ranges)))
  {
    var rows: seq<SensitivityRow> := [];
    var i := 0;
    while i < |ranges|
      invariant 0 <= i <= |ranges|
      invariant Collect(SweepHandler, SweepOutcomes(base, Grid(ranges[..i]))) == Ok(rows)
    {
      var (parameter, values) := ranges[i];
      var swept := SweepValues(base, Grid(ranges[..i]), rows, parameter, values);
      GridStep(ranges, i);
      if swept.Err? {
        SweepRangesStop(base, ranges, i);
        return swept;
      }
      rows := swept.value;
      i := i + 1;
    }
    assert ranges[..i] == ranges;
    r := Ok(rows);
  }

  /** The inner loop of `sensitivity_analysis`: one parameter's values, continuing the rows so far. */
  method SweepValues(base: VehicleParams, ghost done: seq<(string, Num)>, rows: seq<SensitivityRow>,
                     parameter: string, values: seq<Num>)
    returns (r: Result<seq<SensitivityRow>>)
    requires Collect(SweepHandler, SweepOutcomes(base, done)) == Ok(rows)
    ensures r == Collect(SweepHandler, SweepOutcomes(base, done + Pairs(parameter, values)))
  {
    var acc := rows;
    assert done + Pairs(parameter, values[..0]) == done;
    var j := 0;
    while j < |values|
      invariant 0 <= j <= |values|
      invariant Collect(SweepHandler, SweepOutcomes(base, done + Pairs(parameter, values[..j]))) == Ok(acc)
    {
      var next := SweepValue(base, done, parameter, values, j, acc);
      if next.Err? {
        SweepValuesStop(base, done, parameter, values, j);
        return next;
      }
      acc := next.value;
      j := j + 1;
    }
    assert values[..j] == values;
    r := Ok(acc);
  }

  /** One pass of the inner loop: the j-th value's row is appended, skipped, or ends the sweep. */
  method SweepValue(base: VehicleParams, ghost done: seq<(string, Num)>, parameter: string, values: seq<Num>,
                    j: nat, rows: seq<SensitivityRow>)
    returns (r: Result<seq<SensitivityRow>>)
    requires j < |values|
    requires Collect(SweepHandler, SweepOutcomes(base, done + Pairs(parameter, values[..j]))) == Ok(rows)
    ensures r == Collect(SweepHandler, SweepOutcomes(base, done + Pairs(parameter, values[..j + 1])))
  {
    var outcome := SweepPoint(base, parameter, values[j]);
    SweepStep(base, done, parameter, values, j, rows);
    if Fatal(SweepHandler, outcome) {
      return Err(outcome.error);
    }
    r := Ok(rows + if outcome.Ok? then [outcome.value] else []);
  }

  /** One more sweep point adds its outcome at the end. */
  lemma SweepOutcomesStep(base: VehicleParams, points: seq<(string, Num)>, point: (string, Num))
    ensures SweepOutcomes(base, points + [point]) == SweepOutcomes(base, points) + [SweepPoint(base, point.0, point.1)]
  {
    assert (points + [point])[..|points|] == points;
  }

  lemma SweepOutcomesAppend(base: VehicleParams, a: seq<(string, Num)>, b: seq<(string, Num)>)
    ensures SweepOutcomes(base, a + b) == SweepOutcomes(base, a) + SweepOutcomes(base, b)
  {
    assert forall k :: 0 <= k < |a| ==> (a + b)[k] == a[k];
    assert forall k :: |a| <= k < |a + b| ==> (a + b)[k] == b[k - |a|];
  }

  /**
   * What `sensitivity_analysis` returns: it fails exactly when some point's
   * calculation fails with a vehicle_life that is not an int, and reports that
   * error; otherwise the table holds the successful points in sweep order.
   */
  lemma SensitivityMeaning(base: VehicleParams, ranges: seq<(string, seq<Num>)>)
    ensures Collect(SweepHandler, SweepOutcomes(base, Grid(ranges))).Err? <==>
      exists k :: 0 <= k < |Grid(ranges)| && Aborts(base, Grid(ranges)[k])
    ensures Collect(SweepHandler, SweepOutcomes(base, Grid(ranges))).Err? ==>
      Collect(SweepHandler, SweepOutcomes(base, Grid(ranges))).error == NotAnInteger(VehicleLifeKey)
    ensures Collect(SweepHandler, SweepOutcomes(base, Grid(ranges))).Ok? ==>
      Collect(SweepHandler, SweepOutcomes(base, Grid(ranges))).value == Kept(SweepOutcomes(base, Grid(ranges)))
  {
    var points := Grid(ranges);
    var outcomes := SweepOutcomes(base, points);
    CollectMeaning(SweepHandler, outcomes);
    if Collect(SweepHandler, outcomes).Err? {
      var k :| 0 <= k < |outcomes| && Fatal(SweepHandler, outcomes[k]) && outcomes[k].error == Collect(SweepHandler, outcomes).error
        && forall m :: 0 <= m < k ==> !Fatal(SweepHandler, outcomes[m]);
      FatalIsFractionalLife(base, points[k]);
    }
  }

  /**
   * What the sweep table means: every row is the LROMA of the base mapping
   * with that one entry overridden, and every sweep point is either a row or
   * a skipped error.
   */
  lemma SweepRowsAreCalculations(base: VehicleParams, ranges: seq<(string, seq<Num>)>, row: SensitivityRow)
    ensures row in Kept(SweepOutcomes(base, Grid(ranges))) <==>
      (row.parameter, row.value) in Grid(ranges)
      && CalculateLroma(base[row.parameter := row.value]) == Ok(row.lroma)
    ensures |Kept(SweepOutcomes(base, Grid(ranges)))| + |Skipped(SweepOutcomes(base, Grid(ranges)))| == |Grid(ranges)|
  {
    var points := Grid(ranges);
    var outcomes := SweepOutcomes(base, points);
    KeptMembership(outcomes, row);
    KeptPlusSkipped(outcomes);
    if (row.parameter, row.value) in points && CalculateLroma(base[row.parameter := row.value]) == Ok(row.lroma) {
      var k :| 0 <= k < |points| && points[k] == (row.parameter, row.value);
      assert outcomes[k] == Ok(row);
    }
  }

  /** A rate of -100% is a division by zero that the sweep skips rather than reports. */
  lemma RateOfMinusOneSkipped(base: VehicleParams)
    requires CalculateLroma(base).Ok? && base[VehicleLifeKey].i >= 1
    ensures SweepPoint(base, DiscountRateKey, Float(-1.0)) == Err(DivisionByZero)
    ensures !Aborts(base, (DiscountRateKey, Float(-1.0)))
  {
  }

  /** A fractional vehicle life is not skipped: it aborts the sweep. */
  lemma FractionalLifeAborts(base: VehicleParams, life: real)
    requires HasRequiredKeys(base)
    ensures Aborts(base, (VehicleLifeKey, Float(life)))
  {
  }
}
