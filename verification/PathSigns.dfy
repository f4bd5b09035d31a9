// The sign of a fold that is not pruned on the way: rejection is a negation, so two rejections
// cancel. Checking the sign only at the end is not the same as pruning after every edge.
module PathSigns {
  import opened Wrappers
  import opened GraphTraits
  import opened EdgeValueFunctions
  import opened EdgeAdmission
  import opened PathAcceptance

  ghost function Rejections(f: EdgeValueFn, path: seq<Observation>, index: nat): nat
    decreases |path|
  {
    if path == [] then 0
    else (if StreamsAdmit(f, path[0], index) then 0 else 1) + Rejections(f, path[1..], index + 1)
  }

  ghost predicate SomeVanishes(f: EdgeValueFn, path: seq<Observation>, index: nat)
    decreases |path|
  {
    path != [] && (Vanishes(f, path[0], index) || SomeVanishes(f, path[1..], index + 1))
  }

  // The number of rejections after the last dead relayer, if there is a dead relayer.
  ghost function RejectionsSinceDead(f: EdgeValueFn, path: seq<Observation>, index: nat): Option<nat>
    decreases |path|
  {
    if path == [] then None
    else
      match RejectionsSinceDead(f, path[1..], index + 1)
      case Some(n) => Some(n)
      case None => if DeadRelayer(f, path[0], index) then Some(Rejections(f, path[1..], index + 1)) else None
  }

  lemma SignOfAnyProduct(a: real, b: real)
    requires a != 0.0
    ensures a * b == 0.0 <==> b == 0.0
    ensures a * b > 0.0 <==> b != 0.0 && (a > 0.0) == (b > 0.0)
  {
    if a > 0.0 {
      SignOfProduct(a, b);
    } else {
      SignOfProduct(-a, b);
      assert (-a) * b == -(a * b);
    }
  }

  lemma HealthKeepsNonZero(value: real, health: Option<Float>)
    ensures ScaleByHealth(value, health) == 0.0 <==> value == 0.0
    ensures ScaleByHealth(value, health) > 0.0 <==> value > 0.0 && Usable(health)
  {
    HealthSign(value, health);
    if value > 0.0 && Usable(health) {
      SignOfProduct(value, HealthShare(health));
    }
  }

  // One step: a dead relayer makes every value negative, a rejection flips the sign, admission keeps it,
  // and only a vanishing edge makes it zero, for good.
  lemma StepSign(f: EdgeValueFn, value: real, o: Observation, index: nat)
    ensures Step(f, value, o, index) == 0.0 <==> value == 0.0 || Vanishes(f, o, index)
    ensures Step(f, value, o, index) > 0.0 <==>
              && value != 0.0 && !Vanishes(f, o, index) && !DeadRelayer(f, o, index)
              && (value > 0.0) == StreamsAdmit(f, o, index)
  {
    hide EdgeValue, StreamsAdmit, Usable, Vanishes;
    EdgeValueIsLinear(f, value, o, index);
    StreamFactorSign(f, o, index);
    if value != 0.0 {
      SignOfAnyProduct(value, StreamFactor(f, o, index));
    }
    HealthKeepsNonZero(EdgeValue(f, value, o, index), o.health);
  }

  // The sign of the fold of any path: zero if an edge vanishes, and otherwise the parity of the
  // rejections, of which only those after the last dead relayer count.
  lemma {:induction false} SignOfAnyFold(f: EdgeValueFn, value: real, path: seq<Observation>, index: nat)
    ensures UnprunedFold(f, value, path, index) == 0.0 <==> value == 0.0 || SomeVanishes(f, path, index)
    ensures UnprunedFold(f, value, path, index) > 0.0 <==>
              && value != 0.0 && !SomeVanishes(f, path, index)
              && match RejectionsSinceDead(f, path, index)
                 case Some(n) => n % 2 == 1
                 case None => (value > 0.0) == (Rejections(f, path, index) % 2 == 0)
    decreases |path|
  {
    hide Step, StreamsAdmit, DeadRelayer, Vanishes;
    if path != [] {
      StepSign(f, value, path[0], index);
      SignOfAnyFold(f, Step(f, value, path[0], index), path[1..], index + 1);
    }
  }

  lemma {:induction false} UnprunedConcatenation(f: EdgeValueFn, value: real, first: seq<Observation>,
                                                second: seq<Observation>, index: nat)
    ensures UnprunedFold(f, value, first + second, index)
         == UnprunedFold(f, UnprunedFold(f, value, first, index), second, index + |first|)
    decreases |first|
  {
    hide Step;
    if first == [] {
      assert first + second == second;
    } else {
      assert (first + second)[1..] == first[1..] + second;
      UnprunedConcatenation(f, Step(f, value, first[0], index), first[1..], second, index + 1);
    }
  }

  // A dead relayer forgets everything before it: parity restarts there, at a negative value.
  lemma {:induction false} ParityRestartsAfterDeadRelayer(f: EdgeValueFn, before: seq<Observation>, dead: Observation,
                                                          rest: seq<Observation>, index: nat)
    requires DeadRelayer(f, dead, index + |before|)
    ensures RejectionsSinceDead(f, before + [dead] + rest, index)
         == match RejectionsSinceDead(f, rest, index + |before| + 1)
            case Some(n) => Some(n)
            case None => Some(Rejections(f, rest, index + |before| + 1))
    decreases |before|
  {
    hide StreamsAdmit, DeadRelayer;
    var path := before + [dead] + rest;
    if before == [] {
      assert path[0] == dead && path[1..] == rest;
    } else {
      assert path[1..] == before[1..] + [dead] + rest;
      ParityRestartsAfterDeadRelayer(f, before[1..], dead, rest, index + 1);
    }
  }

  // Whenever pruning keeps a path, the unpruned fold has the very same value.
  lemma {:induction false} SurvivorsAgree(f: EdgeValueFn, value: real, path: seq<Observation>, index: nat)
    ensures PrunedFold(f, value, path, index).None?
         || PrunedFold(f, value, path, index) == Some(UnprunedFold(f, value, path, index))
    decreases |path|
  {
    hide Step;
    if path != [] {
      SurvivorsAgree(f, Step(f, value, path[0], index), path[1..], index + 1);
    }
  }

  lemma {:induction false} SurvivorsHaveNoRejection(f: EdgeValueFn, path: seq<Observation>, index: nat)
    ensures AllAdmitted(f, path, index)
       <==> RejectionsSinceDead(f, path, index).None? && Rejections(f, path, index) == 0
    decreases |path|
  {
    hide StreamsAdmit, DeadRelayer;
    if path != [] {
      hide AllAdmitted;
      AllAdmittedUnfolds(f, path, index);
      SurvivorsHaveNoRejection(f, path[1..], index + 1);
    }
  }

  // Looking at the sign only at the end accepts a path that pruning drops exactly when no edge vanishes
  // and the rejections after its last dead relayer are odd or, without dead relayers, even and not none.
  lemma EndCheckDiffersExactly(f: EdgeValueFn, path: seq<Observation>)
    ensures UnprunedFold(f, 1.0, path, 0) > 0.0 && PathValue(f, path).None?
       <==> && !SomeVanishes(f, path, 0)
            && match RejectionsSinceDead(f, path, 0)
               case Some(n) => n % 2 == 1
               case None => Rejections(f, path, 0) > 0 && Rejections(f, path, 0) % 2 == 0
  {
    hide UnprunedFold, PathValue, Rejections, RejectionsSinceDead, AllAdmitted, FactorProduct, SomeVanishes;
    PathValueIsProduct(f, path);
    SignOfAnyFold(f, 1.0, path, 0);
    SurvivorsHaveNoRejection(f, path, 0);
  }

  const UNOBSERVED: Observation := Observation(None, None, None, None)

  // Paths of any length slip through such a check: two edges nobody ever observed, then any good continuation.
  lemma TwoRejectionsSlipThrough(f: EdgeValueFn, continuation: seq<Observation>)
    requires f.length >= 3
    requires AllAdmitted(f, continuation, 2)
    ensures UnprunedFold(f, 1.0, [UNOBSERVED, UNOBSERVED] + continuation, 0) > 0.0
    ensures PathValue(f, [UNOBSERVED, UNOBSERVED] + continuation).None?
  {
    var start := [UNOBSERVED, UNOBSERVED];
    var path := start + continuation;
    UnprunedConcatenation(f, 1.0, start, continuation, 0);
    assert Step(f, 1.0, UNOBSERVED, 0) == -1.0;
    assert Step(f, -1.0, UNOBSERVED, 1) == 1.0;
    assert start[1..] == [UNOBSERVED] && start[1..][1..] == [];
    assert UnprunedFold(f, 1.0, start, 0) == UnprunedFold(f, -1.0, start[1..], 1);
    assert UnprunedFold(f, -1.0, start[1..], 1) == UnprunedFold(f, 1.0, start[1..][1..], 2);
    SurvivorsAgree(f, 1.0, continuation, 2);
    FoldIsProduct(f, 1.0, continuation, 2);
    PathValueIsProduct(f, path);
    assert !Admits(f, path[0], 0 + 0);
  }
}
