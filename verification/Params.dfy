/** Consensus parameters that the model reads. */
module Params {
  datatype ConsensusParams = ConsensusParams(
    powLimit: nat,
    powTargetSpacing: int,
    powTargetTimespan: int,
    powNoRetargeting: bool,
    genesisBits: nat,
    initialSubsidy: nat,
    halvingInterval: nat,
    maxMoney: nat,
    coinbaseMaturity: nat,
    medianTimeWindow: nat)
  {
    /** Blocks between difficulty adjustments. */
    function RetargetInterval(): (n: nat)
      ensures n >= 1
    {
      var spacing := if powTargetSpacing > 1 then powTargetSpacing else 1;
      var n := powTargetTimespan / spacing;
      if n > 1 then n else 1
    }
  }

  // A halving interval is at least one block.
  type Params = p: ConsensusParams | p.halvingInterval > 0
    witness ConsensusParams(0, 0, 0, false, 0, 0, 1, 0, 0, 0)

  /** The interval is the number of whole target spacings in the target timespan, and at least one block. */
  lemma IntervalExactly(p: ConsensusParams)
    ensures p.powTargetSpacing >= 1 && p.powTargetTimespan >= p.powTargetSpacing ==>
              var n := p.RetargetInterval(); n * p.powTargetSpacing <= p.powTargetTimespan < (n + 1) * p.powTargetSpacing
    ensures p.powTargetSpacing < 1 && p.powTargetTimespan >= 1 ==> p.RetargetInterval() == p.powTargetTimespan
    ensures p.powTargetTimespan < 1 || p.powTargetTimespan < p.powTargetSpacing ==> p.RetargetInterval() == 1
  {
    var spacing := if p.powTargetSpacing > 1 then p.powTargetSpacing else 1;
    var n := p.powTargetTimespan / spacing;
    assert p.powTargetTimespan == n * spacing + p.powTargetTimespan % spacing;
    if p.powTargetTimespan >= spacing {
      AtLeastOnce(p.powTargetTimespan, spacing);
    }
    if p.powTargetTimespan < 1 || p.powTargetTimespan < p.powTargetSpacing {
      NotOnce(p.powTargetTimespan, spacing);
    }
  }

  lemma AtLeastOnce(a: int, d: int)
    requires 0 < d <= a
    ensures a / d >= 1
  {
  }

  lemma NotOnce(a: int, d: int)
    requires d > 0 && a < d
    ensures a / d <= 0
  {
  }
}
