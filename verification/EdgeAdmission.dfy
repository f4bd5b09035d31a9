// When a single edge is accepted, stated without values, signs or checked arithmetic, and the
// proof that this is what the sign of an edge value encodes.
module EdgeAdmission {
  import opened Wrappers
  import opened GraphTraits
  import opened EdgeValueFunctions

  // The peer is known, and nothing says that it is disconnected.
  predicate NotDown(o: Observation) {
    match o.immediate
    case Some(qos) => qos.connected.None? || qos.connected.value
    case None => false
  }

  predicate KnownBalance(o: Observation) {
    match o.intermediate
    case Some(qos) => qos.balance.Some?
    case None => false
  }

  // The edge leads into a relayer: into any node but the endpoint, which a probe prefix does not reach.
  predicate JudgedByHealth(f: EdgeValueFn, index: nat) {
    f.direction == ForwardWithoutSelfLoopback || index + 1 < f.length
  }

  // An intermediate stream over a channel that covers one ticket per remaining hop.
  ghost predicate FundedFor(o: Observation, hops: nat, faceValue: nat) {
    && o.intermediate.Some?
    && (hops > 0 ==> o.intermediate.value.balance.Some? && hops * faceValue <= o.intermediate.value.balance.value)
  }

  // The acknowledgement rate reaches the minimum and leaves a positive multiplier.
  ghost predicate AcksEnough(f: EdgeValueFn, ackRate: Option<real>) {
    match ackRate
    case Some(rate) => rate >= f.minAckRate && rate > 0.0
    case None => f.penalty > 0.0
  }

  // The relayer is unjudged or judged above zero.
  ghost predicate Usable(health: Option<Float>) {
    match health
    case Some(NegInfinity) => false
    case Some(Finite(h)) => h > 0.0
    case _ => true
  }

  ghost predicate FirstEdgeAdmits(f: EdgeValueFn, o: Observation) {
    NotDown(o) && FundedFor(o, f.length - 1, f.faceValue) && AcksEnough(f, o.immediate.value.ackRate)
  }

  ghost predicate ForwardLastEdgeAdmits(f: EdgeValueFn, o: Observation) {
    && (KnownBalance(o) || NotDown(o) || f.penalty > 0.0)
    && (f.length == 1 && o.immediate.Some? && (KnownBalance(o) || NotDown(o)) ==>
          AcksEnough(f, o.immediate.value.ackRate))
  }

  ghost predicate StreamsAdmit(f: EdgeValueFn, o: Observation, index: nat) {
    && index < f.length
    && if f.direction == Forward && index == f.length - 1 then ForwardLastEdgeAdmits(f, o)
       else if f.direction == Returning && index == f.length - 1 then NotDown(o) && AcksEnough(f, o.immediate.value.ackRate)
       else if f.direction != Returning && index == 0 then FirstEdgeAdmits(f, o)
       else FundedFor(o, f.length - index - 1, f.faceValue)
  }

  // The rate is accepted and yet leaves nothing: zero is not below a minimum of zero.
  ghost predicate AckVanishes(f: EdgeValueFn, ackRate: Option<real>) {
    match ackRate
    case Some(rate) => rate >= f.minAckRate && rate == 0.0
    case None => f.penalty == 0.0
  }

  // An edge that passes every check and is still worth exactly zero.
  ghost predicate Vanishes(f: EdgeValueFn, o: Observation, index: nat) {
    && index < f.length
    && if f.direction == Forward && index == f.length - 1 then
         if KnownBalance(o) || NotDown(o) then
           f.length == 1 && o.immediate.Some? && AckVanishes(f, o.immediate.value.ackRate)
         else f.penalty == 0.0
       else if f.direction == Returning && index == f.length - 1 then
         NotDown(o) && AckVanishes(f, o.immediate.value.ackRate)
       else if f.direction != Returning && index == 0 then
         NotDown(o) && FundedFor(o, f.length - 1, f.faceValue) && AckVanishes(f, o.immediate.value.ackRate)
       else false
  }

  ghost predicate DeadRelayer(f: EdgeValueFn, o: Observation, index: nat) {
    JudgedByHealth(f, index) && !Usable(o.health)
  }

  ghost predicate Admits(f: EdgeValueFn, o: Observation, index: nat) {
    StreamsAdmit(f, o, index) && !DeadRelayer(f, o, index)
  }

  // What an edge makes of a unit incoming value.
  function Factor(f: EdgeValueFn, o: Observation, index: nat): real {
    Step(f, 1.0, o, index)
  }

  function StreamFactor(f: EdgeValueFn, o: Observation, index: nat): real {
    EdgeValue(f, 1.0, o, index)
  }

  // The share of a positive value a usable relayer keeps.
  function HealthShare(health: Option<Float>): real {
    match health
    case Some(Finite(h)) => if 0.0 < h < 1.0 then h else 1.0
    case _ => 1.0
  }

  // The overflow-checked 256-bit test decides the inequality of the unbounded integers.
  lemma FundingIsExact(balance: Option<U256>, hops: Usize, faceValue: U256)
    ensures BalanceSuffices(balance, hops, faceValue)
       <==> hops == 0 || (balance.Some? && hops * faceValue <= balance.value)
  {}

  lemma ProductOrder(a: nat, b: nat, c: nat, d: nat)
    requires a <= c && b <= d
    ensures a * b <= c * d
  {}

  // A longer remainder or a dearer ticket never becomes affordable; a larger balance never stops sufficing.
  lemma FundingIsMonotone(balance: Option<U256>, hops: Usize, faceValue: U256,
                          richer: Option<U256>, fewer: Usize, cheaper: U256)
    requires BalanceSuffices(balance, hops, faceValue)
    requires fewer <= hops && cheaper <= faceValue
    requires balance.Some? ==> richer.Some? && balance.value <= richer.value
    ensures BalanceSuffices(richer, fewer, cheaper)
  {
    FundingIsExact(balance, hops, faceValue);
    FundingIsExact(richer, fewer, cheaper);
    ProductOrder(fewer, cheaper, hops, faceValue);
  }

  lemma Associate(a: real, b: real, c: real)
    ensures (a * b) * c == a * (b * c)
  {}

  lemma ScoreIsLinear(cost: real, score: Option<real>, penalty: real)
    ensures ScoreOrPenalize(cost, score, penalty) == cost * ScoreOrPenalize(1.0, score, penalty)
    ensures ScoreOrPenalize(1.0, score, penalty) >= MEASURED_DEAD_FLOOR
  {}

  lemma FirstEdgeIsLinear(f: EdgeValueFn, cost: real, o: Observation)
    ensures FirstEdge(f, cost, o) == cost * FirstEdge(f, 1.0, o)
  {}

  lemma ForwardLastEdgeIsLinear(f: EdgeValueFn, cost: real, o: Observation)
    ensures ForwardLastEdge(f, cost, o) == cost * ForwardLastEdge(f, 1.0, o)
  {}

  lemma ReturningLastEdgeIsLinear(f: EdgeValueFn, cost: real, o: Observation)
    ensures ReturningLastEdge(f, cost, o) == cost * ReturningLastEdge(f, 1.0, o)
  {}

  lemma InnerEdgeIsLinear(f: EdgeValueFn, cost: real, o: Observation, index: nat)
    ensures InnerEdge(f, cost, o, index) == cost * InnerEdge(f, 1.0, o, index)
  {}

  // Whatever the sign of the incoming value, the streams only scale it.
  lemma EdgeValueIsLinear(f: EdgeValueFn, cost: real, o: Observation, index: nat)
    ensures EdgeValue(f, cost, o, index) == cost * StreamFactor(f, o, index)
  {
    hide FirstEdge, InnerEdge, ForwardLastEdge, ReturningLastEdge;
    if f.direction == Forward && index == f.length - 1 {
      ForwardLastEdgeIsLinear(f, cost, o);
    } else if f.direction == Returning && index == f.length - 1 {
      ReturningLastEdgeIsLinear(f, cost, o);
    } else if f.direction != Returning && index == 0 {
      FirstEdgeIsLinear(f, cost, o);
    } else {
      InnerEdgeIsLinear(f, cost, o, index);
    }
  }

  lemma AckSign(f: EdgeValueFn, ackRate: Option<real>, base: real)
    requires base > 0.0
    ensures ApplyAckRate(ackRate, base, f.minAckRate, f.penalty) > 0.0 <==> AcksEnough(f, ackRate)
    ensures ApplyAckRate(ackRate, base, f.minAckRate, f.penalty) == 0.0 <==> AckVanishes(f, ackRate)
  {}

  lemma RequireFundingSign(f: EdgeValueFn, o: Observation, hops: Usize)
    ensures RequireFunding(o, 1.0, f.penalty, hops, f.faceValue) > 0.0 <==> FundedFor(o, hops, f.faceValue)
    ensures RequireFunding(o, 1.0, f.penalty, hops, f.faceValue) != 0.0
  {}

  lemma FirstEdgeSign(f: EdgeValueFn, o: Observation)
    ensures FirstEdge(f, 1.0, o) > 0.0 <==> FirstEdgeAdmits(f, o)
    ensures FirstEdge(f, 1.0, o) == 0.0 <==>
              NotDown(o) && FundedFor(o, f.length - 1, f.faceValue) && AckVanishes(f, o.immediate.value.ackRate)
  {}

  lemma LastEdgeSign(f: EdgeValueFn, o: Observation)
    ensures ForwardLastEdge(f, 1.0, o) > 0.0 <==> ForwardLastEdgeAdmits(f, o)
    ensures ReturningLastEdge(f, 1.0, o) > 0.0 <==> NotDown(o) && AcksEnough(f, o.immediate.value.ackRate)
    ensures ForwardLastEdge(f, 1.0, o) == 0.0 <==>
              if KnownBalance(o) || NotDown(o) then
                f.length == 1 && o.immediate.Some? && AckVanishes(f, o.immediate.value.ackRate)
              else f.penalty == 0.0
    ensures ReturningLastEdge(f, 1.0, o) == 0.0 <==> NotDown(o) && AckVanishes(f, o.immediate.value.ackRate)
  {
    ScoreIsLinear(1.0, ImmediateScore(o), f.penalty);
    ScoreIsLinear(1.0, IntermediateScore(o), f.penalty);
    if o.immediate.Some? {
      AckSign(f, o.immediate.value.ackRate, ScoreOrPenalize(1.0, ImmediateScore(o), f.penalty));
      AckSign(f, o.immediate.value.ackRate, ScoreOrPenalize(1.0, IntermediateScore(o), f.penalty));
    }
  }

  // The streams of an edge scale by a positive factor exactly when they admit it, by zero exactly
  // when they let it vanish, and otherwise reject it.
  lemma StreamFactorSign(f: EdgeValueFn, o: Observation, index: nat)
    ensures StreamFactor(f, o, index) > 0.0 <==> StreamsAdmit(f, o, index)
    ensures StreamFactor(f, o, index) == 0.0 <==> Vanishes(f, o, index)
  {
    FirstEdgeSign(f, o);
    LastEdgeSign(f, o);
    if index < f.length {
      RequireFundingSign(f, o, f.length - index - 1);
    }
  }

  // Health only looks at the sign of the value it scales.
  lemma HealthIsHomogeneous(k: real, value: real, health: Option<Float>)
    requires k > 0.0
    ensures ScaleByHealth(k * value, health) == k * ScaleByHealth(value, health)
  {}

  lemma HealthSign(value: real, health: Option<Float>)
    ensures ScaleByHealth(value, health) > 0.0 <==> value > 0.0 && Usable(health)
    ensures value > 0.0 && Usable(health) ==> ScaleByHealth(value, health) == value * HealthShare(health)
    ensures 0.0 < HealthShare(health) <= 1.0
  {}

  // Scaling the incoming value by k > 0 scales the result by k, negative values included.
  lemma StepIsHomogeneous(f: EdgeValueFn, k: real, value: real, o: Observation, index: nat)
    requires k > 0.0
    ensures Step(f, k * value, o, index) == k * Step(f, value, o, index)
  {
    hide EdgeValue;
    var s := StreamFactor(f, o, index);
    assert EdgeValue(f, k * value, o, index) == k * EdgeValue(f, value, o, index) by {
      EdgeValueIsLinear(f, value, o, index);
      EdgeValueIsLinear(f, k * value, o, index);
      Associate(k, value, s);
    }
    HealthIsHomogeneous(k, EdgeValue(f, value, o, index), o.health);
  }

  lemma FactorOfEdge(f: EdgeValueFn, o: Observation, index: nat)
    ensures Factor(f, o, index) > 0.0 <==> Admits(f, o, index)
    ensures Admits(f, o, index) ==>
              Factor(f, o, index)
              == StreamFactor(f, o, index) * (if JudgedByHealth(f, index) then HealthShare(o.health) else 1.0)
  {
    hide EdgeValue, ScaleByHealth, StreamsAdmit;
    StreamFactorSign(f, o, index);
    HealthSign(StreamFactor(f, o, index), o.health);
  }

  lemma SignOfProduct(a: real, b: real)
    requires a > 0.0
    ensures a * b > 0.0 <==> b > 0.0
    ensures a * b < 0.0 <==> b < 0.0
  {}

  // A step keeps a positive value positive exactly when the edge is admitted, and then scales it.
  lemma StepOnPositive(f: EdgeValueFn, value: real, o: Observation, index: nat)
    requires value > 0.0
    ensures Step(f, value, o, index) > 0.0 <==> Admits(f, o, index)
    ensures Step(f, value, o, index) == value * Factor(f, o, index)
  {
    hide Step, Admits;
    FactorOfEdge(f, o, index);
    StepIsHomogeneous(f, value, 1.0, o, index);
    SignOfProduct(value, Factor(f, o, index));
  }
}
