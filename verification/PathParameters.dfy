// What each parameter of a value function can change about a path.
module PathParameters {
  import opened Wrappers
  import opened GraphTraits
  import opened EdgeValueFunctions
  import opened EdgeAdmission
  import opened PathAcceptance
  import opened PathValues
  import opened PathClosedForm

  lemma AffordableEdgeIsUnchanged(f: EdgeValueFn, dearer: U256, o: Observation, index: nat)
    requires f.faceValue <= dearer
    requires Admits(f.(faceValue := dearer), o, index)
    ensures Factor(f, o, index) == Factor(f.(faceValue := dearer), o, index)
  {
    if index < f.length && o.intermediate.Some? {
      var hops := f.length - index - 1;
      FundingIsExact(o.intermediate.value.balance, hops, dearer);
      if BalanceSuffices(o.intermediate.value.balance, hops, dearer) {
        FundingIsMonotone(o.intermediate.value.balance, hops, dearer, o.intermediate.value.balance, hops, f.faceValue);
      }
    }
  }

  // A dearer ticket can only drop paths: what it accepts was accepted before, at the same value.
  lemma DearerTicketsOnlyDrop(f: EdgeValueFn, dearer: U256, path: seq<Observation>)
    requires f.faceValue <= dearer
    ensures PathValue(f.(faceValue := dearer), path).None?
         || PathValue(f.(faceValue := dearer), path) == PathValue(f, path)
  {
    hide PathValue, Factor, Admits;
    var g := f.(faceValue := dearer);
    forall i | 0 <= i < |path| && Admits(g, path[i], i)
      ensures Admits(f, path[i], i) && Factor(f, path[i], i) == Factor(g, path[i], i)
    {
      AffordableEdgeIsUnchanged(f, dearer, path[i], i);
      FactorOfEdge(f, path[i], i);
      FactorOfEdge(g, path[i], i);
    }
    SameEdgesSamePath(f, g, path);
  }

  lemma StricterEdgeIsUnchanged(f: EdgeValueFn, stricter: UnitReal, o: Observation, index: nat)
    requires f.minAckRate <= stricter
    requires Admits(f.(minAckRate := stricter), o, index)
    ensures Admits(f, o, index)
    ensures Factor(f, o, index) == Factor(f.(minAckRate := stricter), o, index)
  {
    hide Factor, ScoreShareAt, AckMultiplier, HealthShareAt;
    var g := f.(minAckRate := stricter);
    FactorIs(f, o, index);
    FactorIs(g, o, index);
    SharesIgnoreTheMinimum(f, stricter, o, index);
  }

  lemma SharesIgnoreTheMinimum(f: EdgeValueFn, minimum: UnitReal, o: Observation, index: nat)
    ensures ScoreShareAt(f, o, index) == ScoreShareAt(f.(minAckRate := minimum), o, index)
    ensures AckMultiplier(f, o, index) == AckMultiplier(f.(minAckRate := minimum), o, index)
    ensures HealthShareAt(f, o, index) == HealthShareAt(f.(minAckRate := minimum), o, index)
  {}

  // A higher minimum acknowledgement rate can only drop paths, too.
  lemma StricterRatesOnlyDrop(f: EdgeValueFn, stricter: UnitReal, path: seq<Observation>)
    requires f.minAckRate <= stricter
    ensures PathValue(f.(minAckRate := stricter), path).None?
         || PathValue(f.(minAckRate := stricter), path) == PathValue(f, path)
  {
    hide PathValue, Factor, Admits;
    var g := f.(minAckRate := stricter);
    forall i | 0 <= i < |path| && Admits(g, path[i], i)
      ensures Admits(f, path[i], i) && Factor(f, path[i], i) == Factor(g, path[i], i)
    {
      StricterEdgeIsUnchanged(f, stricter, path[i], i);
    }
    SameEdgesSamePath(f, g, path);
  }

  lemma SharesGrowWithThePenalty(f: EdgeValueFn, milder: UnitReal, o: Observation, index: nat)
    requires f.penalty <= milder && Admits(f, o, index)
    ensures 0.0 <= ScoreShareAt(f, o, index) <= ScoreShareAt(f.(penalty := milder), o, index)
    ensures 0.0 <= AckMultiplier(f, o, index) <= AckMultiplier(f.(penalty := milder), o, index)
    ensures 0.0 <= HealthShareAt(f, o, index) == HealthShareAt(f.(penalty := milder), o, index)
  {}

  lemma MilderEdgeIsNoWorse(f: EdgeValueFn, milder: UnitReal, o: Observation, index: nat)
    requires f.penalty <= milder && Admits(f, o, index)
    ensures Admits(f.(penalty := milder), o, index)
    ensures Factor(f, o, index) <= Factor(f.(penalty := milder), o, index)
  {
    hide Factor, ScoreShareAt, AckMultiplier, HealthShareAt;
    var g := f.(penalty := milder);
    FactorIs(f, o, index);
    FactorIs(g, o, index);
    SharesGrowWithThePenalty(f, milder, o, index);
    OrderedProducts(ScoreShareAt(f, o, index), AckMultiplier(f, o, index),
                    ScoreShareAt(g, o, index), AckMultiplier(g, o, index));
    OrderedProducts(ScoreShareAt(f, o, index) * AckMultiplier(f, o, index), HealthShareAt(f, o, index),
                    ScoreShareAt(g, o, index) * AckMultiplier(g, o, index), HealthShareAt(g, o, index));
  }

  // A milder penalty, that is a higher multiplier, never drops a path and never lowers its value.
  lemma MilderPenaltiesNeverHurt(f: EdgeValueFn, milder: UnitReal, path: seq<Observation>)
    requires f.penalty <= milder && PathValue(f, path).Some?
    ensures PathValue(f.(penalty := milder), path).Some?
    ensures PathValue(f, path).value <= PathValue(f.(penalty := milder), path).value
  {
    hide PathValue, Factor, Admits;
    forall i | 0 <= i < |path| && Admits(f, path[i], 0 + i)
      ensures Admits(f.(penalty := milder), path[i], 0 + i)
      ensures Factor(f, path[i], 0 + i) <= Factor(f.(penalty := milder), path[i], 0 + i)
    {
      MilderEdgeIsNoWorse(f, milder, path[i], i);
    }
    NoEdgeWorseNoPathWorse(f, path, f.(penalty := milder), path);
  }
}
