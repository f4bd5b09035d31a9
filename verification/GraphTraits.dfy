// What a path value function reads from a graph edge (src/graph/traits.rs).
module GraphTraits {
  import opened Wrappers

  const TWO_TO_256: nat := 0x1_0000_0000_0000_0000_0000_0000_0000_0000_0000_0000_0000_0000_0000_0000_0000_0000

  // Channel balances and ticket face values.
  type U256 = n: nat | n < TWO_TO_256

  // A health verdict: the only floating point input whose special values have a meaning.
  datatype Float = NaN | NegInfinity | PosInfinity | Finite(value: real)

  datatype ImmediateQos = ImmediateQos(connected: Option<bool>, score: Option<real>, ackRate: Option<real>)

  datatype IntermediateQos = IntermediateQos(balance: Option<U256>, score: Option<real>)

  // `score` is whatever the graph reports as the aggregate of both streams; see FollowsRfc0014.
  datatype Observation = Observation(
    immediate: Option<ImmediateQos>,
    intermediate: Option<IntermediateQos>,
    score: Option<real>,
    health: Option<Float>)

  function ImmediateScore(o: Observation): Option<real> {
    if o.immediate.Some? then o.immediate.value.score else None
  }

  function IntermediateScore(o: Observation): Option<real> {
    if o.intermediate.Some? then o.intermediate.value.score else None
  }

  // Section 4.2 of RFC-0014: the mean of the streams that have observations.
  function AggregateScore(immediate: Option<real>, intermediate: Option<real>): Option<real> {
    match (immediate, intermediate)
    case (Some(x), Some(y)) => Some((x + y) / 2.0)
    case (Some(x), None) => Some(x)
    case (None, Some(y)) => Some(y)
    case (None, None) => None
  }

  predicate FollowsRfc0014(o: Observation) {
    o.score == AggregateScore(ImmediateScore(o), IntermediateScore(o))
  }

  predicate InUnit(x: Option<real>) {
    x.Some? ==> 0.0 <= x.value <= 1.0
  }

  // The ranges the traits promise for scores and acknowledgement rates.
  predicate InRange(o: Observation) {
    && InUnit(o.score)
    && InUnit(ImmediateScore(o))
    && InUnit(IntermediateScore(o))
    && (o.immediate.Some? ==> InUnit(o.immediate.value.ackRate))
  }
}
