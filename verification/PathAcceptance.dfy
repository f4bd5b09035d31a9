// Which whole paths survive the pruned fold, and what they are worth.
module PathAcceptance {
  import opened Wrappers
  import opened GraphTraits
  import opened EdgeValueFunctions
  import opened EdgeAdmission

  // Edges path[0], path[1], ... at positions index, index + 1, ...
  ghost predicate AllAdmitted(f: EdgeValueFn, path: seq<Observation>, index: nat) {
    forall i :: 0 <= i < |path| ==> Admits(f, path[i], index + i)
  }

  function FactorProduct(f: EdgeValueFn, path: seq<Observation>, index: nat): real
    decreases |path|
  {
    if path == [] then 1.0 else Factor(f, path[0], index) * FactorProduct(f, path[1..], index + 1)
  }

  lemma AllAdmittedUnfolds(f: EdgeValueFn, path: seq<Observation>, index: nat)
    requires path != []
    ensures AllAdmitted(f, path, index) <==> Admits(f, path[0], index) && AllAdmitted(f, path[1..], index + 1)
  {}

  lemma Regroup(a: real, b: real, c: real, ab: real, bc: real)
    requires ab == a * b && bc == b * c
    ensures ab * c == a * bc
  {}

  // A fold survives iff every edge is admitted, and is then the product of the factors.
  lemma {:induction false} FoldIsProduct(f: EdgeValueFn, value: real, path: seq<Observation>, index: nat)
    requires value > 0.0
    ensures PrunedFold(f, value, path, index).Some? <==> AllAdmitted(f, path, index)
    ensures AllAdmitted(f, path, index) ==>
              && FactorProduct(f, path, index) > 0.0
              && PrunedFold(f, value, path, index).value == value * FactorProduct(f, path, index)
    decreases |path|
  {
    hide Step, Admits, Factor;
    if path != [] {
      var next := Step(f, value, path[0], index);
      AllAdmittedUnfolds(f, path, index);
      StepOnPositive(f, value, path[0], index);
      if next > 0.0 {
        FoldIsProduct(f, next, path[1..], index + 1);
        SignOfProduct(value, Factor(f, path[0], index));
        if AllAdmitted(f, path, index) {
          SignOfProduct(Factor(f, path[0], index), FactorProduct(f, path[1..], index + 1));
          Regroup(value, Factor(f, path[0], index), FactorProduct(f, path[1..], index + 1),
                  next, FactorProduct(f, path, index));
        }
      }
    }
  }

  // The path value is the product of the edges' own factors, or the path is dropped.
  lemma PathValueIsProduct(f: EdgeValueFn, path: seq<Observation>)
    ensures PathValue(f, path).Some? <==> AllAdmitted(f, path, 0)
    ensures AllAdmitted(f, path, 0) ==> PathValue(f, path) == Some(FactorProduct(f, path, 0))
    ensures AllAdmitted(f, path, 0) ==> FactorProduct(f, path, 0) > 0.0
  {
    FoldIsProduct(f, 1.0, path, 0);
  }

  lemma {:induction false} FoldOfConcatenation(f: EdgeValueFn, value: real, first: seq<Observation>,
                                               second: seq<Observation>, index: nat)
    ensures PrunedFold(f, value, first + second, index)
         == match PrunedFold(f, value, first, index)
            case None => None
            case Some(middle) => PrunedFold(f, middle, second, index + |first|)
    decreases |first|
  {
    hide Step;
    if first == [] {
      assert first + second == second;
    } else {
      assert (first + second)[1..] == first[1..] + second;
      var next := Step(f, value, first[0], index);
      if next > 0.0 {
        FoldOfConcatenation(f, next, first[1..], second, index + 1);
      }
    }
  }

  lemma {:induction false} ProductOfConcatenation(f: EdgeValueFn, first: seq<Observation>, second: seq<Observation>,
                                                 index: nat)
    ensures FactorProduct(f, first + second, index) == FactorProduct(f, first, index) * FactorProduct(f, second, index + |first|)
    decreases |first|
  {
    hide Factor;
    if first == [] {
      assert first + second == second;
    } else {
      assert (first + second)[1..] == first[1..] + second;
      ProductOfConcatenation(f, first[1..], second, index + 1);
      Associate(Factor(f, first[0], index), FactorProduct(f, first[1..], index + 1),
                FactorProduct(f, second, index + |first|));
    }
  }

  // A concatenation is worth the product of its parts, each folded from 1 at its own position.
  lemma ConcatenationIsProduct(f: EdgeValueFn, first: seq<Observation>, second: seq<Observation>)
    ensures PathValue(f, first + second).Some?
       <==> PathValue(f, first).Some? && PrunedFold(f, 1.0, second, |first|).Some?
    ensures PathValue(f, first + second).Some? ==>
              PathValue(f, first + second).value
              == PathValue(f, first).value * PrunedFold(f, 1.0, second, |first|).value
  {
    hide PrunedFold, AllAdmitted, FactorProduct;
    FoldOfConcatenation(f, 1.0, first, second, 0);
    FoldIsProduct(f, 1.0, first, 0);
    FoldIsProduct(f, 1.0, second, |first|);
    if PathValue(f, first).Some? {
      FoldIsProduct(f, PathValue(f, first).value, second, |first|);
    }
  }

  // A dropped prefix never recovers: dropping it early loses no path that would have survived.
  lemma PrefixesOfSurvivorsSurvive(f: EdgeValueFn, path: seq<Observation>, cut: nat)
    requires cut <= |path|
    requires PathValue(f, path).Some?
    ensures PathValue(f, path[..cut]).Some?
  {
    assert path == path[..cut] + path[cut..];
    ConcatenationIsProduct(f, path[..cut], path[cut..]);
  }

  // Two continuations compare the same way behind every surviving prefix.
  lemma RankingIgnoresThePrefix(f: EdgeValueFn, prefix: seq<Observation>, left: seq<Observation>, right: seq<Observation>)
    requires PathValue(f, prefix).Some?
    requires PrunedFold(f, 1.0, left, |prefix|).Some? && PrunedFold(f, 1.0, right, |prefix|).Some?
    ensures PathValue(f, prefix + left).Some? && PathValue(f, prefix + right).Some?
    ensures PathValue(f, prefix + left).value <= PathValue(f, prefix + right).value
       <==> PrunedFold(f, 1.0, left, |prefix|).value <= PrunedFold(f, 1.0, right, |prefix|).value
  {
    hide PrunedFold, PathValue, AllAdmitted, FactorProduct;
    ConcatenationIsProduct(f, prefix, left);
    ConcatenationIsProduct(f, prefix, right);
    PathValueIsProduct(f, prefix);
    OrderOfProducts(PathValue(f, prefix).value,
                    PrunedFold(f, 1.0, left, |prefix|).value, PrunedFold(f, 1.0, right, |prefix|).value,
                    PathValue(f, prefix + left).value, PathValue(f, prefix + right).value);
  }

  lemma OrderOfProducts(k: real, a: real, b: real, ka: real, kb: real)
    requires k > 0.0 && ka == k * a && kb == k * b
    ensures ka <= kb <==> a <= b
  {}

  lemma OrderedProducts(a: real, b: real, c: real, d: real)
    requires 0.0 <= a <= c && 0.0 <= b <= d
    ensures 0.0 <= a * b <= c * d
  {
    assert (c - a) * d >= 0.0;
    assert a * (d - b) >= 0.0;
    assert a * b >= 0.0;
  }

  // Edge by edge, whatever f admits g admits too, for at least as much.
  ghost predicate NoEdgeWorse(f: EdgeValueFn, worse: seq<Observation>, g: EdgeValueFn, better: seq<Observation>, index: nat)
    requires |worse| == |better|
  {
    forall i :: 0 <= i < |worse| && Admits(f, worse[i], index + i) ==>
      Admits(g, better[i], index + i) && Factor(f, worse[i], index + i) <= Factor(g, better[i], index + i)
  }

  lemma NoEdgeWorseUnfolds(f: EdgeValueFn, worse: seq<Observation>, g: EdgeValueFn, better: seq<Observation>, index: nat)
    requires |worse| == |better| && worse != [] && NoEdgeWorse(f, worse, g, better, index)
    ensures Admits(f, worse[0], index) ==>
              Admits(g, better[0], index) && Factor(f, worse[0], index) <= Factor(g, better[0], index)
    ensures NoEdgeWorse(f, worse[1..], g, better[1..], index + 1)
  {
    hide Factor, Admits;
    assert Admits(f, worse[0], index) ==> Admits(f, worse[0], index + 0);
    forall i | 0 <= i < |worse| - 1 && Admits(f, worse[1..][i], index + 1 + i)
      ensures Admits(g, better[1..][i], index + 1 + i)
      ensures Factor(f, worse[1..][i], index + 1 + i) <= Factor(g, better[1..][i], index + 1 + i)
    {
      assert Admits(f, worse[i + 1], index + (i + 1));
    }
  }

  lemma {:induction false} ProductsAreOrdered(f: EdgeValueFn, worse: seq<Observation>,
                                             g: EdgeValueFn, better: seq<Observation>, index: nat)
    requires |worse| == |better| && NoEdgeWorse(f, worse, g, better, index)
    requires AllAdmitted(f, worse, index)
    ensures AllAdmitted(g, better, index)
    ensures 0.0 <= FactorProduct(f, worse, index) <= FactorProduct(g, better, index)
    decreases |worse|
  {
    hide Factor, Admits, NoEdgeWorse;
    if worse != [] {
      hide AllAdmitted;
      NoEdgeWorseUnfolds(f, worse, g, better, index);
      AllAdmittedUnfolds(f, worse, index);
      ProductsAreOrdered(f, worse[1..], g, better[1..], index + 1);
      AllAdmittedUnfolds(g, better, index);
      FactorOfEdge(f, worse[0], index);
      OrderedProducts(Factor(f, worse[0], index), FactorProduct(f, worse[1..], index + 1),
                      Factor(g, better[0], index), FactorProduct(g, better[1..], index + 1));
    }
  }

  // If no edge gets worse, a surviving path survives and is worth at least as much.
  lemma NoEdgeWorseNoPathWorse(f: EdgeValueFn, worse: seq<Observation>, g: EdgeValueFn, better: seq<Observation>)
    requires |worse| == |better| && NoEdgeWorse(f, worse, g, better, 0)
    requires PathValue(f, worse).Some?
    ensures PathValue(g, better).Some? && PathValue(f, worse).value <= PathValue(g, better).value
  {
    hide PathValue, AllAdmitted, FactorProduct, NoEdgeWorse;
    PathValueIsProduct(f, worse);
    ProductsAreOrdered(f, worse, g, better, 0);
    PathValueIsProduct(g, better);
  }

  // If g admits fewer edges than f and values those the same, it only drops paths.
  lemma SameEdgesSamePath(f: EdgeValueFn, g: EdgeValueFn, path: seq<Observation>)
    requires forall i :: 0 <= i < |path| && Admits(g, path[i], i) ==>
               Admits(f, path[i], i) && Factor(f, path[i], i) == Factor(g, path[i], i)
    ensures PathValue(g, path).None? || PathValue(g, path) == PathValue(f, path)
  {
    hide PathValue, Admits, Factor;
    if PathValue(g, path).Some? {
      assert NoEdgeWorse(g, path, f, path, 0);
      NoEdgeWorseNoPathWorse(g, path, f, path);
      PathValueIsProduct(g, path);
      forall i | 0 <= i < |path| && Admits(f, path[i], 0 + i)
        ensures Admits(g, path[i], 0 + i) && Factor(f, path[i], 0 + i) <= Factor(g, path[i], 0 + i)
      {
        assert Admits(g, path[i], 0 + i);
      }
      NoEdgeWorseNoPathWorse(f, path, g, path);
    }
  }

  // Exact acceptance of a full forward path with at least one relay.
  lemma ForwardAcceptance(f: EdgeValueFn, path: seq<Observation>)
    requires f.direction == Forward && |path| == f.length && f.length >= 2
    ensures PathValue(f, path).Some? <==>
      && NotDown(path[0])
      && AcksEnough(f, path[0].immediate.value.ackRate)
      && (forall i :: 0 <= i < f.length - 1 ==> FundedFor(path[i], f.length - i - 1, f.faceValue))
      && (forall i :: 0 <= i < f.length - 1 ==> Usable(path[i].health))
      && (f.penalty > 0.0 || KnownBalance(path[f.length - 1]) || NotDown(path[f.length - 1]))
  {
    PathValueIsProduct(f, path);
    hide FundedFor, AcksEnough, Usable, PathValue, FactorProduct, NotDown, KnownBalance;
    if AllAdmitted(f, path, 0) {
      assert Admits(f, path[0], 0 + 0);
      assert Admits(f, path[f.length - 1], 0 + (f.length - 1));
      forall i | 0 <= i < f.length - 1
        ensures FundedFor(path[i], f.length - i - 1, f.faceValue) && Usable(path[i].health)
      {
        assert Admits(f, path[i], 0 + i);
      }
    }
  }

  // Exact acceptance of a direct route, whose single edge leads to the destination.
  lemma DirectRouteAcceptance(f: EdgeValueFn, o: Observation)
    requires f.direction == Forward && f.length == 1
    ensures PathValue(f, [o]).Some? <==>
      if o.immediate.Some? && (KnownBalance(o) || NotDown(o)) then AcksEnough(f, o.immediate.value.ackRate)
      else KnownBalance(o) || f.penalty > 0.0
  {
    PathValueIsProduct(f, [o]);
    hide AcksEnough, PathValue, FactorProduct;
    assert AllAdmitted(f, [o], 0) <==> Admits(f, o, 0) by {
      AllAdmittedUnfolds(f, [o], 0);
    }
  }

  // Exact acceptance of a full return path: it must reach this node over a live, acknowledging edge.
  lemma ReturningAcceptance(f: EdgeValueFn, path: seq<Observation>)
    requires f.direction == Returning && |path| == f.length
    ensures PathValue(f, path).Some? <==>
      && (forall i :: 0 <= i < f.length - 1 ==> FundedFor(path[i], f.length - i - 1, f.faceValue))
      && (forall i :: 0 <= i < f.length - 1 ==> Usable(path[i].health))
      && NotDown(path[f.length - 1])
      && AcksEnough(f, path[f.length - 1].immediate.value.ackRate)
  {
    PathValueIsProduct(f, path);
    hide FundedFor, AcksEnough, Usable, PathValue, FactorProduct, NotDown, KnownBalance;
    if AllAdmitted(f, path, 0) {
      assert Admits(f, path[f.length - 1], 0 + (f.length - 1));
      forall i | 0 <= i < f.length - 1
        ensures FundedFor(path[i], f.length - i - 1, f.faceValue) && Usable(path[i].health)
      {
        assert Admits(f, path[i], 0 + i);
      }
    }
  }

  // Exact acceptance of a probe path of any length within the declared one: every edge is judged.
  lemma LoopbackAcceptance(f: EdgeValueFn, path: seq<Observation>)
    requires f.direction == ForwardWithoutSelfLoopback && 0 < |path| <= f.length
    ensures PathValue(f, path).Some? <==>
      && NotDown(path[0])
      && AcksEnough(f, path[0].immediate.value.ackRate)
      && (forall i :: 0 <= i < |path| ==> FundedFor(path[i], f.length - i - 1, f.faceValue))
      && (forall i :: 0 <= i < |path| ==> Usable(path[i].health))
  {
    PathValueIsProduct(f, path);
    hide FundedFor, AcksEnough, Usable, PathValue, FactorProduct, NotDown, KnownBalance;
    if AllAdmitted(f, path, 0) {
      assert Admits(f, path[0], 0 + 0);
      forall i | 0 <= i < |path|
        ensures FundedFor(path[i], f.length - i - 1, f.faceValue) && Usable(path[i].health)
      {
        assert Admits(f, path[i], 0 + i);
      }
    }
  }

  // An understated length fails closed, at every face value and penalty.
  lemma LongerThanDeclaredIsDropped(f: EdgeValueFn, path: seq<Observation>)
    requires |path| > f.length
    ensures PathValue(f, path).None?
  {
    PathValueIsProduct(f, path);
    assert !Admits(f, path[f.length], 0 + f.length);
  }
}
