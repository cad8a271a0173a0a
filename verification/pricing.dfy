/**
 * The all-in price of streamlit_app.py (`calc_total` and the `RATES` table):
 * each of the three legs (origin pre-carriage, ocean freight, destination
 * on-carriage) is converted to EUR with a static multiplier per currency, and the
 * legs are summed and rounded to cents. The hazard flag picks the hazardous or
 * non-hazardous leg costs and decides whether the ocean IMO surcharge is paid.
 *
 * Amounts are exact reals; Python's binary floating point is not modelled.
 */
module Pricing {

  /** One line of the master table as the dashboard reads it back. */
  datatype Quote = Quote(
    supplier: string, month: string, destination: string, container: string, mode: string,
    oCurr: string, oCostNonHaz: real, oCostHaz: real,
    seaCurr: string, seaBase: real, seaImo: real,
    dCurr: string, dCostNonHaz: real, dCostHaz: real)

  /** Multipliers from each known currency to EUR. */
  const Rates: map<string, real> := map["USD" := 0.92, "EUR" := 1.0, "GBP" := 1.18, "CNY" := 0.13]

  /** `RATES.get(code, 1.0)`: a currency missing from the table is taken as EUR. */
  function Rate(code: string): (m: real)
    ensures m > 0.0
    ensures code !in Rates ==> m == 1.0
    ensures code == "EUR" ==> m == 1.0
  {
    if code in Rates then Rates[code] else 1.0
  }

  /** Origin leg in EUR: the hazardous or non-hazardous pre-carriage cost. */
  function OriginLeg(q: Quote, haz: bool): real
  {
    (if haz then q.oCostHaz else q.oCostNonHaz) * Rate(q.oCurr)
  }

  /** Ocean leg in EUR: the base freight, plus the IMO surcharge only for hazardous goods. */
  function OceanLeg(q: Quote, haz: bool): real
  {
    (q.seaBase + (if haz then q.seaImo else 0.0)) * Rate(q.seaCurr)
  }

  /** Destination leg in EUR: the hazardous or non-hazardous on-carriage cost. */
  function DestinationLeg(q: Quote, haz: bool): real
  {
    (if haz then q.dCostHaz else q.dCostNonHaz) * Rate(q.dCurr)
  }

  /** The all-in price before rounding. */
  function ExactTotal(q: Quote, haz: bool): real
  {
    OriginLeg(q, haz) + OceanLeg(q, haz) + DestinationLeg(q, haz)
  }

  /**
   * `round(x, 2)` on an exact value: to the nearest cent, a tie going to the even
   * cent. The result is a whole number of cents at most half a cent from `x`.
   */
  function Round2(x: real): (r: real)
    ensures -0.005 <= r - x <= 0.005
    ensures (r * 100.0).Floor as real == r * 100.0
  {
    var scaled := x * 100.0;
    var c := scaled.Floor;
    var frac := scaled - c as real;
    var n := if frac > 0.5 || (frac == 0.5 && c % 2 != 0) then c + 1 else c;
    assert n as real / 100.0 * 100.0 == n as real;
    n as real / 100.0
  }

  /** An amount already in whole cents is left as it is. */
  lemma Round2OfCents(x: real)
    requires (x * 100.0).Floor as real == x * 100.0
    ensures Round2(x) == x
  {
  }

  /** Rounding never reverses the order of two amounts. */
  lemma Round2Monotone(x: real, y: real)
    requires x <= y
    ensures Round2(x) <= Round2(y)
  {
    var cx, cy := (x * 100.0).Floor, (y * 100.0).Floor;
    assert cx <= cy;
    var fx, fy := x * 100.0 - cx as real, y * 100.0 - cy as real;
    var nx := if fx > 0.5 || (fx == 0.5 && cx % 2 != 0) then cx + 1 else cx;
    var ny := if fy > 0.5 || (fy == 0.5 && cy % 2 != 0) then cy + 1 else cy;
    assert Round2(x) == nx as real / 100.0;
    assert Round2(y) == ny as real / 100.0;
    if cx == cy {
      assert fx <= fy;
    }
    assert nx <= ny;
  }

  /** `calc_total(row, haz_status)`: the all-in EUR price of one quote. */
  function CalcTotal(q: Quote, haz: bool): (p: real)
    ensures -0.005 <= p - ExactTotal(q, haz) <= 0.005
    ensures (p * 100.0).Floor as real == p * 100.0
  {
    Round2(ExactTotal(q, haz))
  }

  /**
   * Before rounding, the hazardous price exceeds the non-hazardous one by the
   * converted IMO surcharge and the converted hazardous surcharges of both
   * carriage legs, and by nothing else.
   */
  lemma HazardDelta(q: Quote)
    ensures ExactTotal(q, true) - ExactTotal(q, false)
         == Rate(q.oCurr) * (q.oCostHaz - q.oCostNonHaz)
          + Rate(q.seaCurr) * q.seaImo
          + Rate(q.dCurr) * (q.dCostHaz - q.dCostNonHaz)
  {
  }

  /**
   * The hazard flag selects the columns: a non-hazardous price ignores the
   * IMO surcharge and the `_Haz` costs, a hazardous price ignores the `_NonHaz` costs.
   */
  lemma HazardColumnsSelected(q: Quote, imo: real, oCost: real, dCost: real)
    ensures CalcTotal(q.(seaImo := imo, oCostHaz := oCost, dCostHaz := dCost), false) == CalcTotal(q, false)
    ensures CalcTotal(q.(oCostNonHaz := oCost, dCostNonHaz := dCost), true) == CalcTotal(q, true)
  {
    var n, h := q.(seaImo := imo, oCostHaz := oCost, dCostHaz := dCost), q.(oCostNonHaz := oCost, dCostNonHaz := dCost);
    assert ExactTotal(n, false) == ExactTotal(q, false);
    assert ExactTotal(h, true) == ExactTotal(q, true);
  }

  /** With currencies missing from the table, every leg is taken at face value. */
  lemma UnknownCurrenciesAtFaceValue(q: Quote, haz: bool)
    requires q.oCurr !in Rates && q.seaCurr !in Rates && q.dCurr !in Rates
    ensures ExactTotal(q, haz)
         == (if haz then q.oCostHaz + q.seaBase + q.seaImo + q.dCostHaz
             else q.oCostNonHaz + q.seaBase + q.dCostNonHaz)
  {
  }

  /** Conversion keeps signs: non-negative costs give a non-negative price for both flags. */
  lemma NonNegativeCostsGiveNonNegativePrice(q: Quote, haz: bool)
    requires q.oCostNonHaz >= 0.0 && q.oCostHaz >= 0.0 && q.seaBase >= 0.0
    requires q.seaImo >= 0.0 && q.dCostNonHaz >= 0.0 && q.dCostHaz >= 0.0
    ensures CalcTotal(q, haz) >= 0.0
  {
    Round2Monotone(0.0, ExactTotal(q, haz));
    Round2OfCents(0.0);
  }
}
