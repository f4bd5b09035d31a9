// What learning something new about an edge does to a path. Knowing more can hurt: an unobserved
// score counts as the penalty, and the first measurement replaces it, whatever it shows.
module PathMeasurements {
  import opened Wrappers
  import opened GraphTraits
  import opened EdgeValueFunctions
  import opened EdgeAdmission
  import opened PathAcceptance
  import opened PathValues
  import opened PathClosedForm

  // ---- One edge of a surviving path replaced ----

  lemma ReplacedHead(f: EdgeValueFn, o: Observation, other: Observation, rest: seq<Observation>, index: nat)
    requires PrunedFold(f, 1.0, [o] + rest, index).Some? && Admits(f, other, index)
    ensures PrunedFold(f, 1.0, [other] + rest, index).Some?
    ensures PrunedFold(f, 1.0, [o] + rest, index).value <= PrunedFold(f, 1.0, [other] + rest, index).value
       <==> Factor(f, o, index) <= Factor(f, other, index)
  {
    hide PrunedFold, AllAdmitted, Admits, Factor;
    var path, replaced := [o] + rest, [other] + rest;
    assert path[1..] == rest && replaced[1..] == rest;
    AllAdmittedUnfolds(f, path, index);
    AllAdmittedUnfolds(f, replaced, index);
    FoldIsProduct(f, 1.0, path, index);
    FoldIsProduct(f, 1.0, replaced, index);
    FoldIsProduct(f, 1.0, rest, index + 1);
    OrderOfProducts(FactorProduct(f, rest, index + 1), Factor(f, o, index), Factor(f, other, index),
                    FactorProduct(f, path, index), FactorProduct(f, replaced, index));
  }

  lemma HeadIsAdmitted(f: EdgeValueFn, o: Observation, rest: seq<Observation>, index: nat)
    ensures PrunedFold(f, 1.0, [o] + rest, index).Some? ==> Admits(f, o, index)
  {
    hide PrunedFold, AllAdmitted, Admits;
    FoldIsProduct(f, 1.0, [o] + rest, index);
    AllAdmittedUnfolds(f, [o] + rest, index);
  }

  // Replacing one edge of a surviving path keeps the path exactly if the new edge is admitted, and moves
  // its value the way the value of that edge moves.
  lemma ReplacedEdgeDecides(f: EdgeValueFn, path: seq<Observation>, k: nat, other: Observation)
    requires k < |path| && PathValue(f, path).Some?
    ensures PathValue(f, path[k := other]).Some? <==> Admits(f, other, k)
    ensures Admits(f, other, k) ==>
              (PathValue(f, path).value <= PathValue(f, path[k := other]).value <==> Factor(f, path[k], k) <= Factor(f, other, k))
    ensures Admits(f, other, k) ==>
              (PathValue(f, path[k := other]).value <= PathValue(f, path).value <==> Factor(f, other, k) <= Factor(f, path[k], k))
  {
    hide PrunedFold, PathValue, AllAdmitted, Admits, Factor;
    var prefix, rest := path[..k], path[k + 1..];
    assert path == prefix + ([path[k]] + rest);
    assert path[k := other] == prefix + ([other] + rest);
    ConcatenationIsProduct(f, prefix, [path[k]] + rest);
    ConcatenationIsProduct(f, prefix, [other] + rest);
    HeadIsAdmitted(f, path[k], rest, k);
    HeadIsAdmitted(f, other, rest, k);
    if Admits(f, other, k) {
      ReplacedHead(f, path[k], other, rest, k);
      ReplacedHead(f, other, path[k], rest, k);
      RankingIgnoresThePrefix(f, prefix, [path[k]] + rest, [other] + rest);
      RankingIgnoresThePrefix(f, prefix, [other] + rest, [path[k]] + rest);
    }
  }

  lemma ProductWithEdge(f: EdgeValueFn, path: seq<Observation>, k: nat, other: Observation)
    requires k < |path|
    ensures FactorProduct(f, path[k := other], 0)
         == FactorProduct(f, path[..k], 0) * (Factor(f, other, k) * FactorProduct(f, path[k + 1..], k + 1))
  {
    hide Factor;
    var rest := path[k + 1..];
    assert path[k := other] == path[..k] + ([other] + rest);
    assert ([other] + rest)[1..] == rest;
    ProductOfConcatenation(f, path[..k], [other] + rest, 0);
  }

  lemma Exchange(p: real, a: real, b: real, r: real)
    ensures (p * (b * r)) * a == (p * (a * r)) * b
  {}

  // The value is exchanged in the proportion of the two edges' values.
  lemma ReplacedEdgeScales(f: EdgeValueFn, path: seq<Observation>, k: nat, other: Observation)
    requires k < |path| && PathValue(f, path).Some? && Admits(f, other, k)
    ensures PathValue(f, path[k := other]).Some?
    ensures PathValue(f, path[k := other]).value * Factor(f, path[k], k) == PathValue(f, path).value * Factor(f, other, k)
  {
    hide PathValue, AllAdmitted, FactorProduct, Admits, Factor;
    ReplacedEdgeDecides(f, path, k, other);
    PathValueIsProduct(f, path);
    PathValueIsProduct(f, path[k := other]);
    assert path[k := path[k]] == path;
    ProductWithEdge(f, path, k, path[k]);
    ProductWithEdge(f, path, k, other);
    Exchange(FactorProduct(f, path[..k], 0), Factor(f, path[k], k), Factor(f, other, k), FactorProduct(f, path[k + 1..], k + 1));
  }

  // ---- The first score of a stream ----

  datatype Stream = Immediate | Relayed

  // The stream is there, but was never measured.
  predicate Unmeasured(o: Observation, stream: Stream) {
    match stream
    case Immediate => o.immediate.Some? && o.immediate.value.score.None?
    case Relayed => o.intermediate.Some? && o.intermediate.value.score.None?
  }

  // The same edge once the stream has a score, with the aggregate of RFC-0014 brought up to date.
  function Measured(o: Observation, stream: Stream, s: real): (m: Observation)
    requires Unmeasured(o, stream)
    ensures FollowsRfc0014(m) && DifferInScoresOnly(o, m)
  {
    match stream
    case Immediate =>
      o.(immediate := Some(o.immediate.value.(score := Some(s))), score := AggregateScore(Some(s), IntermediateScore(o)))
    case Relayed =>
      o.(intermediate := Some(o.intermediate.value.(score := Some(s))), score := AggregateScore(ImmediateScore(o), Some(s)))
  }

  // The edges this node emits, unless they are the whole route, are scored by both streams together.
  predicate Aggregates(f: EdgeValueFn, index: nat) {
    index == 0 && f.direction != Returning && !(f.direction == Forward && f.length == 1)
  }

  // The position reads the stream.
  predicate Counts(f: EdgeValueFn, o: Observation, index: nat, stream: Stream) {
    if Aggregates(f, index) then true
    else if f.direction == Forward && index == f.length - 1 then
      if KnownBalance(o) then stream.Relayed? else NotDown(o) && stream.Immediate?
    else if f.direction == Returning && index == f.length - 1 then stream.Immediate?
    else stream.Relayed?
  }

  // What stood in for the measurement: the other stream's score where both count, else the penalty.
  function Prior(f: EdgeValueFn, o: Observation, index: nat): real {
    if Aggregates(f, index) && o.score.Some? then o.score.value else f.penalty
  }

  // What the edge is scored by with the measurement: the mean of both streams where both count.
  function Posterior(f: EdgeValueFn, o: Observation, index: nat, s: real): real {
    if Aggregates(f, index) && o.score.Some? then (o.score.value + s) / 2.0 else s
  }

  function Floored(x: real): real {
    if x < 0.000000001 then 0.000000001 else x
  }

  // A first score does not lower a path exactly if it reaches what stood in for it, or if that was
  // already at the floor.
  predicate HoldsUp(f: EdgeValueFn, o: Observation, index: nat, s: real) {
    s >= Prior(f, o, index) || Prior(f, o, index) <= MEASURED_DEAD_FLOOR
  }

  lemma FirstScoreMovesTheShare(f: EdgeValueFn, o: Observation, index: nat, stream: Stream, s: real)
    requires FollowsRfc0014(o) && Unmeasured(o, stream)
    ensures Counts(f, o, index, stream) ==>
              (ScoreShareAt(f, o, index) <= ScoreShareAt(f, Measured(o, stream, s), index) <==> HoldsUp(f, o, index, s))
    ensures Counts(f, o, index, stream) ==>
              && ScoreShareAt(f, o, index) == Floored(Prior(f, o, index))
              && ScoreShareAt(f, Measured(o, stream, s), index) == Floored(Posterior(f, o, index, s))
    ensures !Counts(f, o, index, stream) ==> ScoreShareAt(f, o, index) == ScoreShareAt(f, Measured(o, stream, s), index)
  {}

  lemma ScoresOnlyMoveTheShare(f: EdgeValueFn, o: Observation, other: Observation, index: nat)
    requires Admits(f, o, index) && DifferInScoresOnly(o, other)
    ensures Admits(f, other, index)
    ensures AckMultiplier(f, o, index) == AckMultiplier(f, other, index) > 0.0
    ensures HealthShareAt(f, o, index) == HealthShareAt(f, other, index) > 0.0
  {}

  lemma OrderOfScaled(a: real, b: real, ack: real, health: real)
    requires ack > 0.0 && health > 0.0
    ensures a * ack * health <= b * ack * health <==> a <= b
  {
    OrderOfProducts(ack, a, b, a * ack, b * ack);
    OrderOfProducts(health, a * ack, b * ack, a * ack * health, b * ack * health);
  }

  lemma ScoresMoveTheFactor(f: EdgeValueFn, o: Observation, other: Observation, index: nat)
    requires Admits(f, o, index) && DifferInScoresOnly(o, other)
    ensures Admits(f, other, index)
    ensures Factor(f, o, index) <= Factor(f, other, index) <==> ScoreShareAt(f, o, index) <= ScoreShareAt(f, other, index)
    ensures Factor(f, other, index) <= Factor(f, o, index) <==> ScoreShareAt(f, other, index) <= ScoreShareAt(f, o, index)
  {
    hide Admits, Factor, ScoreShareAt, AckMultiplier, HealthShareAt, DifferInScoresOnly;
    ScoresOnlyMoveTheShare(f, o, other, index);
    FactorIs(f, o, index);
    FactorIs(f, other, index);
    var ack, health := AckMultiplier(f, o, index), HealthShareAt(f, o, index);
    OrderOfScaled(ScoreShareAt(f, o, index), ScoreShareAt(f, other, index), ack, health);
    OrderOfScaled(ScoreShareAt(f, other, index), ScoreShareAt(f, o, index), ack, health);
  }

  lemma Rescale(before: real, after: real, a: real, b: real, ack: real, health: real)
    requires ack > 0.0 && health > 0.0
    requires after * (a * ack * health) == before * (b * ack * health)
    ensures after * a == before * b
  {
    var k := ack * health;
    SignOfProduct(ack, health);
    assert (after * a) * k == after * (a * ack * health);
    assert (before * b) * k == before * (b * ack * health);
    Cancel(after * a, before * b, k);
  }

  lemma Cancel(x: real, y: real, k: real)
    requires k > 0.0 && x * k == y * k
    ensures x == y
  {
    assert (x - y) * k == 0.0;
  }

  lemma ScoresRescaleThePath(f: EdgeValueFn, path: seq<Observation>, k: nat, other: Observation)
    requires k < |path| && PathValue(f, path).Some? && DifferInScoresOnly(path[k], other)
    ensures PathValue(f, path[k := other]).Some?
    ensures PathValue(f, path[k := other]).value * ScoreShareAt(f, path[k], k)
         == PathValue(f, path).value * ScoreShareAt(f, other, k)
  {
    hide PathValue, Admits, Factor, ScoreShareAt, AckMultiplier, HealthShareAt, DifferInScoresOnly;
    assert path[k := path[k]] == path;
    ReplacedEdgeDecides(f, path, k, path[k]);
    ScoresOnlyMoveTheShare(f, path[k], other, k);
    ReplacedEdgeScales(f, path, k, other);
    FactorIs(f, path[k], k);
    FactorIs(f, other, k);
    Rescale(PathValue(f, path).value, PathValue(f, path[k := other]).value,
            ScoreShareAt(f, path[k], k), ScoreShareAt(f, other, k),
            AckMultiplier(f, other, k), HealthShareAt(f, other, k));
  }

  // The first score of a stream never drops a surviving path. It leaves the value alone where the
  // position does not read that stream. Elsewhere it exchanges what stood in for it, and so lowers the
  // value exactly if it does not hold up.
  lemma FirstScoreMovesThePath(f: EdgeValueFn, path: seq<Observation>, k: nat, stream: Stream, s: real)
    requires k < |path| && PathValue(f, path).Some?
    requires FollowsRfc0014(path[k]) && Unmeasured(path[k], stream)
    ensures var measured := path[k := Measured(path[k], stream, s)];
      && PathValue(f, measured).Some?
      && (if Counts(f, path[k], k, stream) then
            PathValue(f, path).value <= PathValue(f, measured).value <==> HoldsUp(f, path[k], k, s)
          else PathValue(f, measured) == PathValue(f, path))
      && (Counts(f, path[k], k, stream) ==>
            PathValue(f, measured).value * Floored(Prior(f, path[k], k))
            == PathValue(f, path).value * Floored(Posterior(f, path[k], k, s)))
  {
    hide PathValue, Admits, Factor, ScoreShareAt, Counts, HoldsUp, FollowsRfc0014, DifferInScoresOnly, Floored, Prior, Posterior;
    var o, m := path[k], Measured(path[k], stream, s);
    ReplacedEdgeDecides(f, path, k, o);
    assert path[k := o] == path;
    ReplacedEdgeDecides(f, path, k, m);
    ScoresMoveTheFactor(f, o, m, k);
    FirstScoreMovesTheShare(f, o, k, stream, s);
    ScoresRescaleThePath(f, path, k, m);
  }

  // A first probe that fails lowers every surviving path whose edge it counts for, unless what stood
  // in for the probe was at the floor.
  lemma FirstFailedProbeHurts(f: EdgeValueFn, path: seq<Observation>, k: nat, stream: Stream)
    requires k < |path| && PathValue(f, path).Some?
    requires FollowsRfc0014(path[k]) && Unmeasured(path[k], stream) && Counts(f, path[k], k, stream)
    ensures var probed := path[k := Measured(path[k], stream, 0.0)];
      && PathValue(f, probed).Some?
      && (PathValue(f, probed).value < PathValue(f, path).value <==> Prior(f, path[k], k) > MEASURED_DEAD_FLOOR)
  {
    FirstScoreMovesThePath(f, path, k, stream, 0.0);
  }

  // For instance a relayed last hop with a known but empty channel, at a penalty of 0.2.
  lemma FailedProbeExample()
    ensures var f := New(Forward, 2, 0.2, 0.1, None);
      var unprobed := Observation(None, Some(IntermediateQos(Some(0), None)), None, None);
      Admits(f, unprobed, 1) && Factor(f, Measured(unprobed, Relayed, 0.0), 1) < Factor(f, unprobed, 1)
  {
    var f := New(Forward, 2, 0.2, 0.1, None);
    var unprobed := Observation(None, Some(IntermediateQos(Some(0), None)), None, None);
    ScoresMoveTheFactor(f, unprobed, Measured(unprobed, Relayed, 0.0), 1);
    FirstScoreMovesTheShare(f, unprobed, 1, Relayed, 0.0);
  }

  // ---- The first acknowledgement rate and the first health verdict ----

  // Where acknowledgements gate the edge, the first rate keeps the path exactly if it is accepted, and
  // then lowers it exactly if it is below the penalty that stood in for it. Elsewhere it changes nothing.
  lemma FirstAckRateMovesThePath(f: EdgeValueFn, path: seq<Observation>, k: nat, rate: real)
    requires k < |path| && PathValue(f, path).Some?
    requires path[k].immediate.Some? && path[k].immediate.value.ackRate.None?
    ensures var observed := path[k := Acknowledged(path[k], rate)];
      if AckGated(f, path[k], k) then
        && (PathValue(f, observed).Some? <==> rate >= f.minAckRate && rate > 0.0)
        && (PathValue(f, observed).Some? ==>
              (PathValue(f, path).value <= PathValue(f, observed).value <==> rate >= f.penalty))
      else PathValue(f, observed) == PathValue(f, path)
  {
    hide PathValue, Admits, Factor, AckGated;
    var o, m := path[k], Acknowledged(path[k], rate);
    ReplacedEdgeDecides(f, path, k, o);
    assert path[k := o] == path;
    ReplacedEdgeDecides(f, path, k, m);
    FirstAckRateMovesTheEdge(f, o, k, rate);
  }

  function Acknowledged(o: Observation, rate: real): Observation
    requires o.immediate.Some?
  {
    o.(immediate := Some(o.immediate.value.(ackRate := Some(rate))))
  }

  lemma FirstAckRateMovesTheEdge(f: EdgeValueFn, o: Observation, index: nat, rate: real)
    requires Admits(f, o, index) && o.immediate.Some? && o.immediate.value.ackRate.None?
    ensures Admits(f, Acknowledged(o, rate), index) <==> AckGated(f, o, index) ==> rate >= f.minAckRate && rate > 0.0
    ensures Admits(f, Acknowledged(o, rate), index) ==>
              (Factor(f, o, index) <= Factor(f, Acknowledged(o, rate), index)
               <==> (AckGated(f, o, index) ==> rate >= f.penalty))
    ensures Admits(f, Acknowledged(o, rate), index) && !AckGated(f, o, index) ==>
              Factor(f, Acknowledged(o, rate), index) == Factor(f, o, index)
  {
    hide Factor, ScoreShareAt, HealthShareAt;
    var m := Acknowledged(o, rate);
    if Admits(f, m, index) {
      FactorIs(f, o, index);
      FactorIs(f, m, index);
      RateOnlyMovesTheGate(f, o, index, rate);
      var share, health := ScoreShareAt(f, o, index), HealthShareAt(f, o, index);
      var before, after := AckMultiplier(f, o, index), AckMultiplier(f, m, index);
      OrderOfProducts(share, before, after, share * before, share * after);
      OrderOfProducts(health, share * before, share * after, share * before * health, share * after * health);
    }
  }

  lemma RateOnlyMovesTheGate(f: EdgeValueFn, o: Observation, index: nat, rate: real)
    requires Admits(f, o, index) && o.immediate.Some? && o.immediate.value.ackRate.None?
    ensures ScoreShareAt(f, Acknowledged(o, rate), index) == ScoreShareAt(f, o, index) > 0.0
    ensures HealthShareAt(f, Acknowledged(o, rate), index) == HealthShareAt(f, o, index) > 0.0
  {}

  // The first health verdict keeps a path exactly if the relayer is usable or not judged at its
  // position, and then never raises its value.
  lemma FirstHealthMovesThePath(f: EdgeValueFn, path: seq<Observation>, k: nat, health: Float)
    requires k < |path| && PathValue(f, path).Some? && path[k].health.None?
    ensures var judged := path[k := path[k].(health := Some(health))];
      && (PathValue(f, judged).Some? <==> JudgedByHealth(f, k) ==> Usable(Some(health)))
      && (PathValue(f, judged).Some? ==> PathValue(f, judged).value <= PathValue(f, path).value)
      && (PathValue(f, judged).Some? ==>
            (PathValue(f, judged) == PathValue(f, path) <==> JudgedByHealth(f, k) ==> HealthShare(Some(health)) == 1.0))
  {
    hide PathValue, Admits, Factor, AllAdmitted, FactorProduct, PrunedFold;
    var o, m := path[k], path[k].(health := Some(health));
    ReplacedEdgeDecides(f, path, k, o);
    assert path[k := o] == path;
    ReplacedEdgeDecides(f, path, k, m);
    FirstHealthMovesTheEdge(f, o, k, health);
  }

  lemma FirstHealthMovesTheEdge(f: EdgeValueFn, o: Observation, index: nat, health: Float)
    requires Admits(f, o, index) && o.health.None?
    ensures var m := o.(health := Some(health));
      && (Admits(f, m, index) <==> JudgedByHealth(f, index) ==> Usable(m.health))
      && (Admits(f, m, index) ==>
            && Factor(f, m, index) <= Factor(f, o, index)
            && (Factor(f, m, index) >= Factor(f, o, index) <==> JudgedByHealth(f, index) ==> HealthShare(m.health) == 1.0))
  {
    hide Factor, StreamFactor;
    var m := o.(health := Some(health));
    FactorOfEdge(f, o, index);
    FactorOfEdge(f, m, index);
    StreamsIgnoreHealth(f, o, index, health);
    HealthSign(1.0, m.health);
    StreamFactorSign(f, o, index);
    OrderOfProducts(StreamFactor(f, o, index), HealthShare(m.health), 1.0,
                    StreamFactor(f, o, index) * HealthShare(m.health), StreamFactor(f, o, index) * 1.0);
    OrderOfProducts(StreamFactor(f, o, index), 1.0, HealthShare(m.health),
                    StreamFactor(f, o, index) * 1.0, StreamFactor(f, o, index) * HealthShare(m.health));
  }

  lemma StreamsIgnoreHealth(f: EdgeValueFn, o: Observation, index: nat, health: Float)
    ensures StreamFactor(f, o.(health := Some(health)), index) == StreamFactor(f, o, index)
    ensures StreamsAdmit(f, o.(health := Some(health)), index) == StreamsAdmit(f, o, index)
  {}
}
