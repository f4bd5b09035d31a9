// The value of a surviving path in closed form: a product of score shares, one acknowledgement
// share and a product of health shares.
module PathClosedForm {
  import opened Wrappers
  import opened GraphTraits
  import opened EdgeValueFunctions
  import opened EdgeAdmission
  import opened PathAcceptance
  import opened PathValues

  // A measured score counts as it is and an unobserved stream as the penalty, neither below 1e-9.
  ghost function ScoreShare(f: EdgeValueFn, score: Option<real>): real {
    var counted := if score.Some? then score.value else f.penalty;
    if counted < 0.000000001 then 0.000000001 else counted
  }

  // The stream an accepted edge is scored by: the aggregate on a first edge of this node, the
  // immediate stream where a return path arrives, the relayed stream in between.
  ghost function ScoreShareAt(f: EdgeValueFn, o: Observation, index: nat): real {
    if f.direction == Forward && index == f.length - 1 then
      if KnownBalance(o) then ScoreShare(f, IntermediateScore(o))
      else if NotDown(o) then ScoreShare(f, ImmediateScore(o))
      else f.penalty
    else if f.direction == Returning && index == f.length - 1 then ScoreShare(f, ImmediateScore(o))
    else if f.direction != Returning && index == 0 then ScoreShare(f, o.score)
    else ScoreShare(f, IntermediateScore(o))
  }

  // A direct route is only gated when it has acknowledgement data to be gated by.
  ghost predicate AckGated(f: EdgeValueFn, o: Observation, index: nat) {
    && index == AckIndex(f)
    && (f.direction == Forward && f.length == 1 ==> o.immediate.Some? && (KnownBalance(o) || NotDown(o)))
  }

  ghost function AckMultiplier(f: EdgeValueFn, o: Observation, index: nat): real {
    if AckGated(f, o, index) && o.immediate.Some? then
      if o.immediate.value.ackRate.Some? then o.immediate.value.ackRate.value else f.penalty
    else 1.0
  }

  ghost function ScoreProduct(f: EdgeValueFn, path: seq<Observation>, index: nat): real
    decreases |path|
  {
    if path == [] then 1.0 else ScoreShareAt(f, path[0], index) * ScoreProduct(f, path[1..], index + 1)
  }

  // The acknowledgement share of the one gated edge, if it is among these.
  ghost function AckOfPath(f: EdgeValueFn, path: seq<Observation>, index: nat): real {
    if index <= AckIndex(f) < index + |path| then AckMultiplier(f, path[AckIndex(f) - index], AckIndex(f)) else 1.0
  }

  lemma ScoreShareIsScore(f: EdgeValueFn, score: Option<real>)
    ensures ScoreOrPenalize(1.0, score, f.penalty) == ScoreShare(f, score)
  {}

  lemma AckIsMultiplier(f: EdgeValueFn, ackRate: Option<real>, base: real)
    requires AcksEnough(f, ackRate)
    ensures ApplyAckRate(ackRate, base, f.minAckRate, f.penalty)
         == base * if ackRate.Some? then ackRate.value else f.penalty
  {}

  lemma StreamFactorIs(f: EdgeValueFn, o: Observation, index: nat)
    requires StreamsAdmit(f, o, index)
    ensures StreamFactor(f, o, index) == ScoreShareAt(f, o, index) * AckMultiplier(f, o, index)
  {
    hide ScoreOrPenalize, ApplyAckRate, ScoreShare, AcksEnough, BalanceSuffices;
    ScoreShareIsScore(f, o.score);
    ScoreShareIsScore(f, ImmediateScore(o));
    ScoreShareIsScore(f, IntermediateScore(o));
    if o.immediate.Some? && AcksEnough(f, o.immediate.value.ackRate) {
      AckIsMultiplier(f, o.immediate.value.ackRate, ScoreShare(f, o.score));
      AckIsMultiplier(f, o.immediate.value.ackRate, ScoreShare(f, ImmediateScore(o)));
      AckIsMultiplier(f, o.immediate.value.ackRate, ScoreShare(f, IntermediateScore(o)));
    }
    if o.intermediate.Some? {
      FundingIsExact(o.intermediate.value.balance, f.length - index - 1, f.faceValue);
    }
  }

  lemma AckOfPathUnfolds(f: EdgeValueFn, path: seq<Observation>, index: nat)
    requires path != []
    ensures AckOfPath(f, path, index) == AckMultiplier(f, path[0], index) * AckOfPath(f, path[1..], index + 1)
  {
    hide AckMultiplier;
    if index == AckIndex(f) {
      assert AckOfPath(f, path[1..], index + 1) == 1.0;
    } else {
      assert AckMultiplier(f, path[0], index) == 1.0 by { NotTheAckEdge(f, path[0], index); }
    }
  }

  lemma NotTheAckEdge(f: EdgeValueFn, o: Observation, index: nat)
    requires index != AckIndex(f)
    ensures AckMultiplier(f, o, index) == 1.0
  {}

  lemma {:induction false} ProductIs(f: EdgeValueFn, path: seq<Observation>, index: nat)
    requires AllAdmitted(f, path, index)
    ensures FactorProduct(f, path, index)
         == ScoreProduct(f, path, index) * AckOfPath(f, path, index) * HealthProduct(f, path, index)
    decreases |path|
  {
    hide Factor, StreamFactor, Admits, ScoreShareAt, AckOfPath, AckMultiplier, HealthShareAt;
    if path == [] {
      assert AckOfPath(f, path, index) == 1.0 by { EmptyAck(f, index); }
    } else {
      AllAdmittedUnfolds(f, path, index);
      FactorIs(f, path[0], index);
      ProductIs(f, path[1..], index + 1);
      AckOfPathUnfolds(f, path, index);
      RegroupFloors(ScoreShareAt(f, path[0], index), AckMultiplier(f, path[0], index), HealthShareAt(f, path[0], index),
                    ScoreProduct(f, path[1..], index + 1), AckOfPath(f, path[1..], index + 1),
                    HealthProduct(f, path[1..], index + 1));
    }
  }

  lemma EmptyAck(f: EdgeValueFn, index: nat)
    ensures AckOfPath(f, [], index) == 1.0
  {}

  lemma FactorIs(f: EdgeValueFn, o: Observation, index: nat)
    requires Admits(f, o, index)
    ensures Factor(f, o, index) == ScoreShareAt(f, o, index) * AckMultiplier(f, o, index) * HealthShareAt(f, o, index)
  {
    hide Factor, StreamFactor, StreamsAdmit, ScoreShareAt, AckMultiplier;
    FactorOfEdge(f, o, index);
    StreamFactorIs(f, o, index);
  }

  // A path that is not dropped is worth exactly its scores times its acknowledgement share times
  // the health of its relayers.
  lemma SurvivorsAreWorth(f: EdgeValueFn, path: seq<Observation>)
    requires PathValue(f, path).Some?
    ensures PathValue(f, path).value == ScoreProduct(f, path, 0) * AckOfPath(f, path, 0) * HealthProduct(f, path, 0)
  {
    hide PathValue, FactorProduct, AllAdmitted, ScoreProduct, AckOfPath, HealthProduct;
    PathValueIsProduct(f, path);
    ProductIs(f, path, 0);
  }

  // ---- The value of every step ----

  // The edge meets every other requirement of a gated position, and its rate is below the minimum.
  ghost predicate RateTooLow(f: EdgeValueFn, o: Observation, index: nat) {
    && AckGated(f, o, index) && o.immediate.Some?
    && ((f.direction == Forward && f.length == 1)
        || (NotDown(o) && (f.direction == Returning || FundedFor(o, f.length - 1, f.faceValue))))
    && o.immediate.value.ackRate.Some? && o.immediate.value.ackRate.value < f.minAckRate
  }

  lemma RateTooLowNegates(f: EdgeValueFn, o: Observation, index: nat)
    requires RateTooLow(f, o, index)
    ensures !StreamsAdmit(f, o, index) && !Vanishes(f, o, index)
    ensures StreamFactor(f, o, index) == -ScoreShareAt(f, o, index)
  {
    hide ScoreOrPenalize, ScoreShare, BalanceSuffices;
    ScoreShareIsScore(f, o.score);
    ScoreShareIsScore(f, ImmediateScore(o));
    ScoreShareIsScore(f, IntermediateScore(o));
    if o.intermediate.Some? {
      FundingIsExact(o.intermediate.value.balance, f.length - 1, f.faceValue);
    }
  }

  lemma OtherRejectionsNegate(f: EdgeValueFn, o: Observation, index: nat)
    requires !StreamsAdmit(f, o, index) && !Vanishes(f, o, index) && !RateTooLow(f, o, index)
    ensures StreamFactor(f, o, index) == -1.0
  {
    hide ScoreOrPenalize, ScoreShare, BalanceSuffices;
    if index < f.length && o.intermediate.Some? {
      FundingIsExact(o.intermediate.value.balance, f.length - index - 1, f.faceValue);
    }
  }

  // Whatever value comes in, a rejection by the streams returns exactly its negation; only a rate below
  // the minimum is judged after scoring, and negates the scored value. Health negates what the streams
  // made of the value, and leaves a value alone that was rejected before.
  lemma RejectionNegates(f: EdgeValueFn, cost: real, o: Observation, index: nat)
    ensures !StreamsAdmit(f, o, index) && !Vanishes(f, o, index) ==>
              EdgeValue(f, cost, o, index) == if RateTooLow(f, o, index) then -(cost * ScoreShareAt(f, o, index)) else -cost
    ensures StreamsAdmit(f, o, index) ==>
              EdgeValue(f, cost, o, index) == cost * (ScoreShareAt(f, o, index) * AckMultiplier(f, o, index))
    ensures var value := EdgeValue(f, cost, o, index);
      Step(f, cost, o, index)
      == if !JudgedByHealth(f, index) || value <= 0.0 then value
         else if Usable(o.health) then value * HealthShare(o.health)
         else -value
  {
    hide EdgeValue, StreamsAdmit, Vanishes, RateTooLow, ScoreShareAt, AckMultiplier;
    EdgeValueIsLinear(f, cost, o, index);
    if StreamsAdmit(f, o, index) {
      StreamFactorIs(f, o, index);
    } else if RateTooLow(f, o, index) {
      RateTooLowNegates(f, o, index);
      NegatedProduct(cost, ScoreShareAt(f, o, index));
    } else if !Vanishes(f, o, index) {
      OtherRejectionsNegate(f, o, index);
    }
  }

  lemma NegatedProduct(a: real, b: real)
    ensures a * -b == -(a * b)
  {}
}
