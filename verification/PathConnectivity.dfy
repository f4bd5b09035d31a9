// What the connectivity reported for one edge does to a path: an observed disconnection drops it where
// this node is an end of the edge, and an unchecked edge counts as a connected one everywhere.
module PathConnectivity {
  import opened Wrappers
  import opened GraphTraits
  import opened EdgeValueFunctions
  import opened EdgeAdmission
  import opened PathAcceptance
  import opened PathValues
  import opened PathClosedForm

  function WithConnected(o: Observation, connected: Option<bool>): Observation
    requires o.immediate.Some?
  {
    o.(immediate := Some(o.immediate.value.(connected := connected)))
  }

  // The edges this node is an end of: the first one of a path it emits over relays, the last one of a
  // path that returns to it.
  ghost predicate EndsHere(f: EdgeValueFn, k: nat) {
    match f.direction
    case Forward => k == 0 && f.length >= 2
    case Returning => k == f.length - 1
    case ForwardWithoutSelfLoopback => k == 0
  }

  // The last edge of a forward path, with no balance to value it by.
  ghost predicate UnfundedLast(f: EdgeValueFn, o: Observation, k: nat) {
    && f.direction == Forward && k == f.length - 1
    && (o.intermediate.None? || o.intermediate.value.balance.None?)
  }

  // An edge of this node that was observed to be down, or to whose peer nothing immediate is known,
  // drops every path through it.
  lemma DisconnectionDrops(f: EdgeValueFn, path: seq<Observation>, k: nat)
    requires k < |path| && EndsHere(f, k)
    requires path[k].immediate.None? || path[k].immediate.value.connected == Some(false)
    ensures PathValue(f, path).None?
  {
    PathValueIsProduct(f, path);
    assert !Admits(f, path[k], 0 + k);
  }

  lemma EquallyGoodPaths(f: EdgeValueFn, left: seq<Observation>, right: seq<Observation>)
    requires |left| == |right|
    requires NoEdgeWorse(f, left, f, right, 0) && NoEdgeWorse(f, right, f, left, 0)
    ensures PathValue(f, left) == PathValue(f, right)
  {
    hide PathValue, NoEdgeWorse;
    if PathValue(f, left).Some? {
      NoEdgeWorseNoPathWorse(f, left, f, right);
    }
    if PathValue(f, right).Some? {
      NoEdgeWorseNoPathWorse(f, right, f, left);
    }
  }

  lemma NoWorseInOnePlace(f: EdgeValueFn, path: seq<Observation>, k: nat, a: Observation, b: Observation)
    requires k < |path|
    requires Admits(f, a, k) ==> Admits(f, b, k) && Factor(f, a, k) <= Factor(f, b, k)
    ensures NoEdgeWorse(f, path[k := a], f, path[k := b], 0)
  {
    hide Admits, Factor;
    var left, right := path[k := a], path[k := b];
    forall i | 0 <= i < |left| && Admits(f, left[i], 0 + i)
      ensures Admits(f, right[i], 0 + i) && Factor(f, left[i], 0 + i) <= Factor(f, right[i], 0 + i)
    {
      assert i != k ==> left[i] == right[i];
    }
  }

  lemma SameEdgeSamePath(f: EdgeValueFn, path: seq<Observation>, k: nat, a: Observation, b: Observation)
    requires k < |path|
    requires Admits(f, a, k) <==> Admits(f, b, k)
    requires Admits(f, a, k) ==> Factor(f, a, k) == Factor(f, b, k)
    ensures PathValue(f, path[k := a]) == PathValue(f, path[k := b])
  {
    hide PathValue, Admits, Factor, NoEdgeWorse;
    NoWorseInOnePlace(f, path, k, a, b);
    NoWorseInOnePlace(f, path, k, b, a);
    EquallyGoodPaths(f, path[k := a], path[k := b]);
  }

  // Only an observed disconnection counts against an edge: unchecked and connected are the same, at
  // every position of every path.
  lemma UncheckedCountsAsConnected(f: EdgeValueFn, path: seq<Observation>, k: nat)
    requires k < |path| && path[k].immediate.Some?
    ensures PathValue(f, path[k := WithConnected(path[k], None)])
         == PathValue(f, path[k := WithConnected(path[k], Some(true))])
  {
    hide PathValue;
    var unchecked, connected := WithConnected(path[k], None), WithConnected(path[k], Some(true));
    assert Step(f, 1.0, unchecked, k) == Step(f, 1.0, connected, k);
    SameEdgeSamePath(f, path, k, unchecked, connected);
  }

  // Elsewhere connectivity is not looked at, but for the last edge of a forward path with no balance.
  lemma ConnectivityIsIgnored(f: EdgeValueFn, path: seq<Observation>, k: nat, connected: Option<bool>)
    requires k < |path| && path[k].immediate.Some?
    requires !EndsHere(f, k) && !UnfundedLast(f, path[k], k)
    ensures PathValue(f, path[k := WithConnected(path[k], connected)]) == PathValue(f, path)
  {
    hide PathValue;
    var o := WithConnected(path[k], connected);
    assert Step(f, 1.0, o, k) == Step(f, 1.0, path[k], k);
    assert Admits(f, o, k) <==> Admits(f, path[k], k);
    assert path[k := path[k]] == path;
    SameEdgeSamePath(f, path, k, o, path[k]);
  }

  lemma LastEdgeFactors(f: EdgeValueFn, path: seq<Observation>, o: Observation)
    requires |path| == f.length
    ensures var prefix := path[..f.length - 1];
      && (PathValue(f, path[f.length - 1 := o]).Some? <==> PathValue(f, prefix).Some? && Admits(f, o, f.length - 1))
      && (PathValue(f, path[f.length - 1 := o]).Some? ==>
            PathValue(f, path[f.length - 1 := o]).value == PathValue(f, prefix).value * Factor(f, o, f.length - 1))
  {
    hide PathValue, Admits, Factor;
    var prefix := path[..f.length - 1];
    assert path[f.length - 1 := o] == prefix + [o];
    ConcatenationIsProduct(f, prefix, [o]);
    FactorOfEdge(f, o, f.length - 1);
    OneEdgeFold(f, o, f.length - 1);
  }

  lemma OneEdgeFold(f: EdgeValueFn, o: Observation, index: nat)
    ensures PrunedFold(f, 1.0, [o], index) == if Factor(f, o, index) > 0.0 then Some(Factor(f, o, index)) else None
  {
    hide Step;
    assert [o][1..] == [];
  }

  // Over relays, losing the connection of that last edge trades its immediate score for the penalty: the
  // path survives as before unless the penalty is zero.
  lemma LosingTheLastEdge(f: EdgeValueFn, path: seq<Observation>)
    requires |path| == f.length && f.length >= 2
    requires var last := path[f.length - 1]; UnfundedLast(f, last, f.length - 1) && last.immediate.Some?
    ensures var last := path[f.length - 1];
      var up := PathValue(f, path[f.length - 1 := WithConnected(last, Some(true))]);
      var down := PathValue(f, path[f.length - 1 := WithConnected(last, Some(false))]);
      && (down.Some? <==> up.Some? && f.penalty > 0.0)
      && (down.Some? ==> down.value * ScoreShare(f, last.immediate.value.score) == up.value * f.penalty)
  {
    hide PathValue, ScoreShare;
    var k, last := f.length - 1, path[f.length - 1];
    var up, down := WithConnected(last, Some(true)), WithConnected(last, Some(false));
    LastEdgeFactors(f, path, up);
    LastEdgeFactors(f, path, down);
    if PathValue(f, path[k := down]).Some? {
      FactorIs(f, up, k);
      FactorIs(f, down, k);
      CrossMultiply(PathValue(f, path[..k]).value, ScoreShare(f, last.immediate.value.score), f.penalty);
    }
  }

  lemma CrossMultiply(a: real, b: real, c: real)
    ensures (a * c) * b == (a * b) * c
  {}

  // On a direct route a disconnection also lifts the acknowledgement gate: the route is then worth the
  // penalty whatever its rate, so losing the peer can turn a dropped route into an accepted one.
  lemma LosingADirectRoute(f: EdgeValueFn, o: Observation)
    requires f.length == 1 && UnfundedLast(f, o, 0) && o.immediate.Some?
    ensures PathValue(f, [WithConnected(o, Some(false))]) == if f.penalty > 0.0 then Some(f.penalty) else None
    ensures PathValue(f, [WithConnected(o, Some(true))]).Some? <==> AcksEnough(f, o.immediate.value.ackRate)
    ensures PathValue(f, [WithConnected(o, Some(true))]).Some? ==>
              PathValue(f, [WithConnected(o, Some(true))]).value
              == ScoreShare(f, o.immediate.value.score)
                 * if o.immediate.value.ackRate.Some? then o.immediate.value.ackRate.value else f.penalty
  {
    hide ScoreShare, AcksEnough;
    var up, down := WithConnected(o, Some(true)), WithConnected(o, Some(false));
    OneEdgeFold(f, up, 0);
    OneEdgeFold(f, down, 0);
    FactorOfEdge(f, up, 0);
    FactorOfEdge(f, down, 0);
    if Admits(f, up, 0) {
      FactorIs(f, up, 0);
    }
  }
}
