// How path values compare under better observations, and where the constructors agree.
module PathComparisons {
  import opened Wrappers
  import opened GraphTraits
  import opened EdgeValueFunctions
  import opened EdgeAdmission
  import opened PathAcceptance

  ghost predicate NoWorse(x: Option<real>, y: Option<real>) {
    x.Some? == y.Some? && (x.Some? ==> x.value <= y.value)
  }

  // The multiplier a health verdict stands for: unjudged relayers keep the whole value.
  function HealthLevel(health: Option<Float>): real {
    match health
    case Some(NegInfinity) => 0.0
    case Some(Finite(h)) => if h <= 0.0 then 0.0 else Min(h, 1.0)
    case _ => 1.0
  }

  // The same streams, balance and connectivity are known of both edges, and nothing is lower on the better one.
  ghost predicate AtLeastAsGood(worse: Observation, better: Observation) {
    && worse.immediate.Some? == better.immediate.Some?
    && (worse.immediate.Some? ==>
          && worse.immediate.value.connected == better.immediate.value.connected
          && NoWorse(worse.immediate.value.score, better.immediate.value.score)
          && NoWorse(worse.immediate.value.ackRate, better.immediate.value.ackRate))
    && worse.intermediate.Some? == better.intermediate.Some?
    && (worse.intermediate.Some? ==>
          && NoWorse(worse.intermediate.value.score, better.intermediate.value.score)
          && worse.intermediate.value.balance.Some? == better.intermediate.value.balance.Some?
          && (worse.intermediate.value.balance.Some? ==>
                worse.intermediate.value.balance.value <= better.intermediate.value.balance.value))
    && HealthLevel(worse.health) <= HealthLevel(better.health)
  }

  lemma AggregateIsMonotone(worse: Observation, better: Observation)
    requires AtLeastAsGood(worse, better)
    requires FollowsRfc0014(worse) && FollowsRfc0014(better)
    ensures NoWorse(worse.score, better.score)
  {}

  lemma ScoreIsMonotone(f: EdgeValueFn, worse: Option<real>, better: Option<real>)
    requires NoWorse(worse, better)
    ensures 0.0 < ScoreOrPenalize(1.0, worse, f.penalty) <= ScoreOrPenalize(1.0, better, f.penalty)
  {}

  lemma AckIsMonotone(f: EdgeValueFn, worse: Option<real>, better: Option<real>, low: real, high: real)
    requires NoWorse(worse, better) && 0.0 < low <= high
    requires AcksEnough(f, worse)
    ensures AcksEnough(f, better)
    ensures ApplyAckRate(worse, low, f.minAckRate, f.penalty) <= ApplyAckRate(better, high, f.minAckRate, f.penalty)
  {
    match worse
    case Some(rate) => OrderedProducts(low, rate, high, better.value);
    case None => OrderedProducts(low, f.penalty, high, f.penalty);
  }

  lemma StreamsAreMonotone(f: EdgeValueFn, worse: Observation, better: Observation, index: nat)
    requires AtLeastAsGood(worse, better) && NoWorse(worse.score, better.score)
    requires StreamsAdmit(f, worse, index)
    ensures StreamsAdmit(f, better, index)
    ensures StreamFactor(f, worse, index) <= StreamFactor(f, better, index)
  {
    hide ApplyAckRate, ScoreOrPenalize, AcksEnough, BalanceSuffices;
    ScoreIsMonotone(f, worse.score, better.score);
    ScoreIsMonotone(f, ImmediateScore(worse), ImmediateScore(better));
    ScoreIsMonotone(f, IntermediateScore(worse), IntermediateScore(better));
    if worse.intermediate.Some? {
      FundingIsExact(worse.intermediate.value.balance, f.length - index - 1, f.faceValue);
      FundingIsExact(better.intermediate.value.balance, f.length - index - 1, f.faceValue);
    }
    if worse.immediate.Some? && AcksEnough(f, worse.immediate.value.ackRate) {
      var low, high := worse.immediate.value.ackRate, better.immediate.value.ackRate;
      AckIsMonotone(f, low, high,
                    ScoreOrPenalize(1.0, worse.score, f.penalty), ScoreOrPenalize(1.0, better.score, f.penalty));
      AckIsMonotone(f, low, high,
                    ScoreOrPenalize(1.0, ImmediateScore(worse), f.penalty),
                    ScoreOrPenalize(1.0, ImmediateScore(better), f.penalty));
      AckIsMonotone(f, low, high,
                    ScoreOrPenalize(1.0, IntermediateScore(worse), f.penalty),
                    ScoreOrPenalize(1.0, IntermediateScore(better), f.penalty));
    }
  }

  lemma HealthLevels(health: Option<Float>)
    ensures Usable(health) <==> HealthLevel(health) > 0.0
    ensures Usable(health) ==> HealthShare(health) == HealthLevel(health)
  {}

  lemma FactorIsMonotone(f: EdgeValueFn, worse: Observation, better: Observation, index: nat)
    requires AtLeastAsGood(worse, better) && NoWorse(worse.score, better.score)
    requires Admits(f, worse, index)
    ensures Admits(f, better, index)
    ensures 0.0 < Factor(f, worse, index) <= Factor(f, better, index)
  {
    hide Factor, StreamFactor, StreamsAdmit;
    StreamsAreMonotone(f, worse, better, index);
    HealthLevels(worse.health);
    HealthLevels(better.health);
    FactorOfEdge(f, worse, index);
    FactorOfEdge(f, better, index);
    StreamFactorSign(f, worse, index);
    if JudgedByHealth(f, index) {
      OrderedProducts(StreamFactor(f, worse, index), HealthShare(worse.health),
                      StreamFactor(f, better, index), HealthShare(better.health));
    }
  }

  // Better observations on every edge never drop a path and never lower its value.
  lemma BetterObservationsNeverHurt(f: EdgeValueFn, worse: seq<Observation>, better: seq<Observation>)
    requires |worse| == |better|
    requires forall i :: 0 <= i < |worse| ==>
               AtLeastAsGood(worse[i], better[i]) && FollowsRfc0014(worse[i]) && FollowsRfc0014(better[i])
    requires PathValue(f, worse).Some?
    ensures PathValue(f, better).Some?
    ensures PathValue(f, worse).value <= PathValue(f, better).value
  {
    hide PathValue, Factor, Admits, AtLeastAsGood, FollowsRfc0014;
    forall i | 0 <= i < |worse| && Admits(f, worse[i], 0 + i)
      ensures Admits(f, better[i], 0 + i) && Factor(f, worse[i], 0 + i) <= Factor(f, better[i], 0 + i)
    {
      AggregateIsMonotone(worse[i], better[i]);
      FactorIsMonotone(f, worse[i], better[i], i);
    }
    NoEdgeWorseNoPathWorse(f, worse, f, better);
  }

  // ---- Where the constructors agree ----

  // Strictly between the first edge and the last, every stretch of a path folds alike in all directions.
  lemma {:induction false} ConstructorsAgreeInside(f: EdgeValueFn, direction: Direction, value: real,
                                                  stretch: seq<Observation>, index: nat)
    requires 0 < index && index + |stretch| < f.length
    ensures PrunedFold(f.(direction := direction), value, stretch, index) == PrunedFold(f, value, stretch, index)
    decreases |stretch|
  {
    if stretch != [] {
      assert Step(f.(direction := direction), value, stretch[0], index) == Step(f, value, stretch[0], index);
      ConstructorsAgreeInside(f, direction, Step(f, value, stretch[0], index), stretch[1..], index + 1);
    }
  }

  // A probe walks exactly the relays traffic would: both drop and value every proper prefix alike.
  lemma ProbesAgreeWithTraffic(f: EdgeValueFn, path: seq<Observation>)
    requires f.direction == Forward && |path| < f.length
    ensures PathValue(f.(direction := ForwardWithoutSelfLoopback), path) == PathValue(f, path)
  {
    var probe := f.(direction := ForwardWithoutSelfLoopback);
    if path != [] {
      assert Step(probe, 1.0, path[0], 0) == Step(f, 1.0, path[0], 0);
      ConstructorsAgreeInside(f, ForwardWithoutSelfLoopback, Step(f, 1.0, path[0], 0), path[1..], 1);
    }
  }

  // Over a full path a probe asks the last edge for two more things than traffic does: a relayed
  // stream, and a relayer that is not judged dead. Traffic only needs something to value it by.
  lemma ProbesAskMoreOfTheLastEdge(f: EdgeValueFn, path: seq<Observation>)
    requires f.direction == Forward && |path| == f.length && f.length >= 2
    ensures var last := path[f.length - 1];
      && PathValue(f.(direction := ForwardWithoutSelfLoopback), path).Some?
      && (f.penalty > 0.0 || KnownBalance(last) || NotDown(last))
      <==> PathValue(f, path).Some? && last.intermediate.Some? && Usable(last.health)
  {
    var probe := f.(direction := ForwardWithoutSelfLoopback);
    hide PathValue, Usable, AcksEnough;
    ForwardAcceptance(f, path);
    LoopbackAcceptance(probe, path);
    var ack := if path[0].immediate.Some? then path[0].immediate.value.ackRate else None;
    assert AcksEnough(f, ack) <==> AcksEnough(probe, ack) by { SameGate(f, ack); }
    assert FundedFor(path[f.length - 1], 0, f.faceValue) <==> path[f.length - 1].intermediate.Some?;
  }

  lemma SameGate(f: EdgeValueFn, ack: Option<real>)
    ensures AcksEnough(f, ack) <==> AcksEnough(f.(direction := ForwardWithoutSelfLoopback), ack)
  {}
}
