// Bounds on the value of a surviving path.
module PathValues {
  import opened Wrappers
  import opened GraphTraits
  import opened EdgeValueFunctions
  import opened EdgeAdmission
  import opened PathAcceptance

  // ---- Values only shrink ----

  lemma UnitProduct(a: real, b: real)
    requires a >= 0.0 && b <= 1.0
    ensures a * b <= a
  {
    assert a * (1.0 - b) >= 0.0;
  }

  lemma ScaledByScore(f: EdgeValueFn, score: Option<real>, ackRate: Option<real>)
    requires InUnit(score) && InUnit(ackRate)
    ensures 0.0 < ScoreOrPenalize(1.0, score, f.penalty) <= 1.0
    ensures ApplyAckRate(ackRate, ScoreOrPenalize(1.0, score, f.penalty), f.minAckRate, f.penalty) <= 1.0
  {
    AckAtMostOne(f, ScoreOrPenalize(1.0, score, f.penalty), ackRate);
  }

  lemma AckAtMostOne(f: EdgeValueFn, base: real, ackRate: Option<real>)
    requires 0.0 < base <= 1.0 && InUnit(ackRate)
    ensures ApplyAckRate(ackRate, base, f.minAckRate, f.penalty) <= 1.0
  {
    UnitProduct(base, if ackRate.Some? then ackRate.value else f.penalty);
  }

  lemma StreamFactorAtMostOne(f: EdgeValueFn, o: Observation, index: nat)
    requires InRange(o)
    ensures StreamFactor(f, o, index) <= 1.0
  {
    ScaledByScore(f, o.score, if o.immediate.Some? then o.immediate.value.ackRate else None);
    ScaledByScore(f, ImmediateScore(o), if o.immediate.Some? then o.immediate.value.ackRate else None);
    ScaledByScore(f, IntermediateScore(o), if o.immediate.Some? then o.immediate.value.ackRate else None);
  }

  // An edge never raises a positive value.
  lemma StepShrinks(f: EdgeValueFn, value: real, o: Observation, index: nat)
    requires InRange(o) && value > 0.0
    ensures Step(f, value, o, index) <= value
  {
    hide Step, StreamFactor, Admits;
    StepOnPositive(f, value, o, index);
    FactorOfEdge(f, o, index);
    StreamFactorAtMostOne(f, o, index);
    HealthSign(1.0, o.health);
    if Admits(f, o, index) {
      if Factor(f, o, index) > 0.0 && JudgedByHealth(f, index) {
        StreamFactorSign(f, o, index);
        ShrinkByHealth(StreamFactor(f, o, index), HealthShare(o.health));
      }
      UnitProduct(value, Factor(f, o, index));
    }
  }

  lemma ShrinkByHealth(stream: real, share: real)
    requires stream <= 1.0 && 0.0 < share <= 1.0
    ensures stream * share <= 1.0
  {
    if stream >= 0.0 {
      UnitProduct(stream, share);
    }
  }

  lemma {:induction false} FoldShrinks(f: EdgeValueFn, value: real, path: seq<Observation>, index: nat)
    requires value > 0.0
    requires forall i :: 0 <= i < |path| ==> InRange(path[i])
    requires PrunedFold(f, value, path, index).Some?
    ensures 0.0 < PrunedFold(f, value, path, index).value <= value
    decreases |path|
  {
    hide Step, InRange;
    if path != [] {
      StepShrinks(f, value, path[0], index);
      FoldShrinks(f, Step(f, value, path[0], index), path[1..], index + 1);
    }
  }

  // The value of a surviving path lies in (0, 1], and every prefix of it is worth at least as much.
  lemma PrefixesBoundTheirExtensions(f: EdgeValueFn, path: seq<Observation>, cut: nat)
    requires cut <= |path|
    requires forall i :: 0 <= i < |path| ==> InRange(path[i])
    requires PathValue(f, path).Some?
    ensures PathValue(f, path[..cut]).Some?
    ensures 0.0 < PathValue(f, path).value <= PathValue(f, path[..cut]).value <= 1.0
  {
    assert path == path[..cut] + path[cut..];
    FoldOfConcatenation(f, 1.0, path[..cut], path[cut..], 0);
    FoldShrinks(f, 1.0, path[..cut], 0);
    FoldShrinks(f, PathValue(f, path[..cut]).value, path[cut..], cut);
  }

  // ---- Starved but never pruned ----

  // The position whose edge is gated by the acknowledgement rate.
  function AckIndex(f: EdgeValueFn): nat {
    if f.direction == Returning then f.length - 1 else 0
  }

  // The least an accepted acknowledgement rate, or its absence, leaves.
  function AckFloor(f: EdgeValueFn): UnitReal {
    Min(f.minAckRate, f.penalty)
  }

  function AckShare(f: EdgeValueFn, index: nat): UnitReal {
    if index == AckIndex(f) then AckFloor(f) else 1.0
  }

  function HealthShareAt(f: EdgeValueFn, o: Observation, index: nat): real {
    if JudgedByHealth(f, index) then HealthShare(o.health) else 1.0
  }

  // The least an admitted edge leaves of its score: the floor, or the penalty where a forward path
  // ends on an edge with nothing to score by.
  function FloorAt(f: EdgeValueFn, o: Observation, index: nat): real {
    if f.direction == Forward && index == f.length - 1 && !KnownBalance(o) && !NotDown(o) then Min(f.penalty, 0.000000001)
    else 0.000000001
  }

  function FloorProduct(f: EdgeValueFn, path: seq<Observation>, index: nat): real
    decreases |path|
  {
    if path == [] then 1.0 else FloorAt(f, path[0], index) * FloorProduct(f, path[1..], index + 1)
  }

  // (1e-9)^edges
  function FloorPower(edges: nat): real {
    if edges == 0 then 1.0 else 0.000000001 * FloorPower(edges - 1)
  }

  function HealthProduct(f: EdgeValueFn, path: seq<Observation>, index: nat): real
    decreases |path|
  {
    if path == [] then 1.0 else HealthShareAt(f, path[0], index) * HealthProduct(f, path[1..], index + 1)
  }

  lemma AckLowerBound(f: EdgeValueFn, score: Option<real>, ackRate: Option<real>)
    requires AcksEnough(f, ackRate)
    ensures ApplyAckRate(ackRate, ScoreOrPenalize(1.0, score, f.penalty), f.minAckRate, f.penalty)
         >= MEASURED_DEAD_FLOOR * AckFloor(f)
  {
    ScoreIsLinear(1.0, score, f.penalty);
    var base := ScoreOrPenalize(1.0, score, f.penalty);
    var ack := match ackRate case Some(rate) => rate case None => f.penalty;
    ProductBound(base, ack, MEASURED_DEAD_FLOOR, AckFloor(f));
  }

  lemma ProductBound(a: real, b: real, lowA: real, lowB: real)
    requires a >= lowA >= 0.0 && b >= lowB >= 0.0
    ensures a * b >= lowA * lowB >= 0.0
  {
    assert (a - lowA) * b >= 0.0;
    assert lowA * (b - lowB) >= 0.0;
  }

  lemma StreamFactorLowerBound(f: EdgeValueFn, o: Observation, index: nat)
    requires StreamsAdmit(f, o, index)
    ensures FloorAt(f, o, index) > 0.0
    ensures StreamFactor(f, o, index) >= FloorAt(f, o, index) * AckShare(f, index) >= 0.0
  {
    hide ApplyAckRate, ScoreOrPenalize, AcksEnough, BalanceSuffices, AckFloor;
    ScoreIsLinear(1.0, o.score, f.penalty);
    ScoreIsLinear(1.0, ImmediateScore(o), f.penalty);
    ScoreIsLinear(1.0, IntermediateScore(o), f.penalty);
    if o.immediate.Some? && AcksEnough(f, o.immediate.value.ackRate) {
      AckLowerBound(f, o.score, o.immediate.value.ackRate);
      AckLowerBound(f, ImmediateScore(o), o.immediate.value.ackRate);
      AckLowerBound(f, IntermediateScore(o), o.immediate.value.ackRate);
    }
    ProductBound(FloorAt(f, o, index), 1.0, FloorAt(f, o, index), AckShare(f, index));
    if o.intermediate.Some? {
      FundingIsExact(o.intermediate.value.balance, f.length - index - 1, f.faceValue);
    }
  }

  lemma FactorLowerBound(f: EdgeValueFn, o: Observation, index: nat)
    requires Admits(f, o, index)
    ensures FloorAt(f, o, index) > 0.0 && HealthShareAt(f, o, index) > 0.0
    ensures Factor(f, o, index) >= FloorAt(f, o, index) * AckShare(f, index) * HealthShareAt(f, o, index) >= 0.0
  {
    hide Factor, StreamFactor, StreamsAdmit, FloorAt;
    FactorOfEdge(f, o, index);
    StreamFactorLowerBound(f, o, index);
    HealthSign(1.0, o.health);
    ProductBound(StreamFactor(f, o, index), HealthShareAt(f, o, index),
                 FloorAt(f, o, index) * AckShare(f, index), HealthShareAt(f, o, index));
  }

  // One acknowledgement gate at most among the edges from `index` on.
  function AckShareWithin(f: EdgeValueFn, edges: nat, index: nat): UnitReal {
    if index <= AckIndex(f) < index + edges then AckFloor(f) else 1.0
  }

  // The floors of the first edge and of the rest multiply to the floor of the whole.
  lemma RegroupFloors(floor: real, ack: real, health: real, floors: real, acks: real, healths: real)
    ensures (floor * ack * health) * (floors * acks * healths) == (floor * floors) * (ack * acks) * (health * healths)
  {
    calc {
      (floor * ack * health) * (floors * acks * healths);
      (floor * ack) * (floors * acks) * (health * healths);
      (floor * floors) * (ack * acks) * (health * healths);
    }
  }

  lemma {:induction false} ProductLowerBound(f: EdgeValueFn, path: seq<Observation>, index: nat)
    requires AllAdmitted(f, path, index)
    ensures FloorProduct(f, path, index) > 0.0 && HealthProduct(f, path, index) > 0.0
    ensures FactorProduct(f, path, index)
         >= FloorProduct(f, path, index) * AckShareWithin(f, |path|, index) * HealthProduct(f, path, index) >= 0.0
    decreases |path|
  {
    hide Factor, Admits, HealthShareAt, AckFloor, AckIndex, FloorAt;
    if path != [] {
      AllAdmittedUnfolds(f, path, index);
      FactorLowerBound(f, path[0], index);
      var rest := path[1..];
      ProductLowerBound(f, rest, index + 1);
      SignOfProduct(FloorAt(f, path[0], index), FloorProduct(f, rest, index + 1));
      SignOfProduct(HealthShareAt(f, path[0], index), HealthProduct(f, rest, index + 1));
      var first := FloorAt(f, path[0], index) * AckShare(f, index) * HealthShareAt(f, path[0], index);
      var others := FloorProduct(f, rest, index + 1) * AckShareWithin(f, |rest|, index + 1) * HealthProduct(f, rest, index + 1);
      ProductBound(Factor(f, path[0], index), FactorProduct(f, rest, index + 1), first, others);
      RegroupFloors(FloorAt(f, path[0], index), AckShare(f, index), HealthShareAt(f, path[0], index),
                    FloorProduct(f, rest, index + 1), AckShareWithin(f, |rest|, index + 1), HealthProduct(f, rest, index + 1));
      assert AckShareWithin(f, |path|, index) == AckShare(f, index) * AckShareWithin(f, |rest|, index + 1);
    }
  }

  lemma {:induction false} FloorsArePowers(f: EdgeValueFn, path: seq<Observation>, index: nat)
    requires f.penalty >= 0.000000001
    ensures FloorProduct(f, path, index) == FloorPower(|path|)
    decreases |path|
  {
    if path != [] {
      FloorsArePowers(f, path[1..], index + 1);
    }
  }

  // Measured-dead scores starve a path but never drop it: every survivor keeps a positive floor, which
  // for a penalty of at least 1e-9 is a power of 1e-9.
  lemma SurvivorsKeepAFloor(f: EdgeValueFn, path: seq<Observation>)
    requires PathValue(f, path).Some?
    ensures PathValue(f, path).value
         >= FloorProduct(f, path, 0) * AckShareWithin(f, |path|, 0) * HealthProduct(f, path, 0)
    ensures FloorProduct(f, path, 0) > 0.0 && HealthProduct(f, path, 0) > 0.0
    ensures f.penalty >= 0.000000001 ==> FloorProduct(f, path, 0) == FloorPower(|path|)
    ensures f.penalty > 0.0 && f.minAckRate > 0.0 ==> AckShareWithin(f, |path|, 0) > 0.0
  {
    hide PathValue, FactorProduct, FloorProduct, FloorPower, HealthProduct, AllAdmitted;
    PathValueIsProduct(f, path);
    ProductLowerBound(f, path, 0);
    if f.penalty >= 0.000000001 {
      FloorsArePowers(f, path, 0);
    }
  }

  // The same edge with other scores.
  ghost predicate DifferInScoresOnly(o: Observation, other: Observation) {
    && o.health == other.health
    && o.immediate.Some? == other.immediate.Some?
    && (o.immediate.Some? ==> o.immediate.value == other.immediate.value.(score := o.immediate.value.score))
    && o.intermediate.Some? == other.intermediate.Some?
    && (o.intermediate.Some? ==> o.intermediate.value == other.intermediate.value.(score := o.intermediate.value.score))
  }

  // No score, however bad, decides whether a path survives.
  lemma ScoresNeverDrop(f: EdgeValueFn, path: seq<Observation>, other: seq<Observation>)
    requires |path| == |other|
    requires forall i :: 0 <= i < |path| ==> DifferInScoresOnly(path[i], other[i])
    ensures PathValue(f, path).Some? <==> PathValue(f, other).Some?
  {
    PathValueIsProduct(f, path);
    PathValueIsProduct(f, other);
    forall i | 0 <= i < |path| ensures Admits(f, path[i], 0 + i) <==> Admits(f, other[i], 0 + i) {
      assert DifferInScoresOnly(path[i], other[i]);
    }
  }
}
