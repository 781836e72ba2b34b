/** Trading costs: core/costs/model.py and core/costs/slippage.py. */
module Costs {
  import opened Prelude

  datatype Side = Buy | Sell

  datatype CostError = NegativeNotional | NegativeStress

  datatype TradeCost =
    TradeCost(version: string, notional: real, commission: real, spread: real, slippage: real)
  {
    function Total(): real {
      commission + spread + slippage
    }
  }

  /** Only the slippage is checked to be non-negative by the source, when the model is built. */
  datatype CostModel =
    CostModel(version: string, commissionBps: real, spreadBps: real, slippageBps: real)

  function Calculate(m: CostModel, notional: real, side: Side, stress: real): Result<TradeCost, CostError> {
    if notional < 0.0 then Err(NegativeNotional)
    else if stress < 0.0 then Err(NegativeStress)
    else Ok(TradeCost(
              m.version,
              notional,
              notional * m.commissionBps / 10000.0,
              notional * m.spreadBps / 10000.0 * stress,
              notional * m.slippageBps / 10000.0 * stress))
  }

  /** The engine's `_cost`: a run without a cost model trades for free. */
  function Charge(m: Option<CostModel>, notional: real, side: Side, stress: real): Result<real, CostError> {
    match m
    case None => Ok(0.0)
    case Some(model) =>
      var c := Calculate(model, notional, side, stress);
      if c.Ok? then Ok(c.value.Total()) else Err(c.error)
  }

  /** The share of a trade's notional that its cost takes; the same share on both sides. */
  function Rate(m: Option<CostModel>, stress: real): real {
    match m
    case None => 0.0
    case Some(model) =>
      (model.commissionBps + (model.spreadBps + model.slippageBps) * stress) / 10000.0
  }

  /** A basis point is one in ten thousand, and the stress multiplies spread and slippage alone. */
  lemma BasisPoints(model: CostModel, side: Side, stress: real)
    requires stress >= 0.0
    ensures Charge(Some(model), 10000.0, side, stress)
            == Ok(model.commissionBps + (model.spreadBps + model.slippageBps) * stress)
    ensures Charge(None, 10000.0, side, stress) == Ok(0.0)
  {
  }

  /** A cost is refused exactly on a negative notional or stress, and is otherwise the rate's share
      of the notional, whatever the side. */
  lemma ChargeIsProportional(m: Option<CostModel>, notional: real, side: Side, stress: real)
    ensures Charge(m, notional, side, stress).Ok? <==> m.None? || (notional >= 0.0 && stress >= 0.0)
    ensures Charge(m, notional, side, stress).Ok?
            ==> Charge(m, notional, side, stress).value == Rate(m, stress) * notional
  {
    if m.Some? && notional >= 0.0 && stress >= 0.0 {
      var c, s, k := m.value.commissionBps, m.value.spreadBps, m.value.slippageBps;
      assert notional * s / 10000.0 * stress == s * stress / 10000.0 * notional;
      assert notional * k / 10000.0 * stress == k * stress / 10000.0 * notional;
      assert (c + (s + k) * stress) / 10000.0 == c / 10000.0 + s * stress / 10000.0 + k * stress / 10000.0;
    }
  }

  /** Raising the stress never lowers the rate exactly when spread and slippage together are not negative. */
  lemma StressRaisesRate(m: CostModel, low: real, high: real)
    requires low < high
    ensures Rate(Some(m), low) <= Rate(Some(m), high) <==> m.spreadBps + m.slippageBps >= 0.0
  {
    var k := m.spreadBps + m.slippageBps;
    assert Rate(Some(m), high) - Rate(Some(m), low) == k * (high - low) / 10000.0;
    if k >= 0.0 {
      assert k * (high - low) >= 0.0;
    } else {
      assert k * (high - low) < 0.0;
    }
  }
}
