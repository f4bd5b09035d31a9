// The three constructors in terms of the arguments they are called with: which full paths they accept
// and what these are worth.
module PathConstructors {
  import opened Wrappers
  import opened GraphTraits
  import opened EdgeValueFunctions
  import opened EdgeAdmission
  import opened PathAcceptance
  import opened PathValues
  import opened PathClosedForm
  import opened PathFunding

  // A measured score counts as it is, a missing one as the penalty p, and neither below 1e-9.
  ghost function Scored(score: Option<real>, p: real): real {
    match score
    case Some(s) => if s < 0.000000001 then 0.000000001 else s
    case None => if p < 0.000000001 then 0.000000001 else p
  }

  // A measured rate must reach the minimum m, a missing one counts as the penalty p, and zero is nothing.
  ghost predicate Acknowledges(rate: Option<real>, p: real, m: real) {
    match rate
    case Some(r) => r >= m && r > 0.0
    case None => p > 0.0
  }

  ghost function Rate(rate: Option<real>, p: real): real {
    match rate
    case Some(r) => r
    case None => p
  }

  // One base unit a ticket, where the caller names no face value.
  ghost function TicketValue(faceValue: Option<U256>): nat {
    match faceValue
    case Some(value) => value
    case None => 1
  }

  // The edges at positions from, ..., to - 1 of an n-edge path fund their tickets and lead to usable relayers.
  ghost predicate Relays(path: seq<Observation>, to: nat, n: nat, ticket: nat)
    requires to <= |path| && to <= n
  {
    forall i :: 0 <= i < to ==> FundedFor(path[i], n - 1 - i, ticket) && Usable(path[i].health)
  }

  ghost function RelayedWorth(path: seq<Observation>, p: real): real {
    if path == [] then 1.0
    else Scored(IntermediateScore(path[0]), p) * HealthShare(path[0].health) * RelayedWorth(path[1..], p)
  }

  // What this node's own edge into the first relayer is worth.
  ghost function FirstWorth(o: Observation, p: real): real
    requires o.immediate.Some?
  {
    Scored(o.score, p) * Rate(o.immediate.value.ackRate, p) * HealthShare(o.health)
  }

  // What the edge into the destination is worth: by its relayed stream if it is funded, by its immediate
  // one if it is not down, else the bare penalty.
  ghost function LastWorth(o: Observation, p: real): real {
    if KnownBalance(o) then Scored(IntermediateScore(o), p)
    else if NotDown(o) then Scored(ImmediateScore(o), p)
    else p
  }

  lemma ArgumentsInRange(direction: Direction, length: NonZeroUsize, p: real, m: real, faceValue: Option<U256>)
    requires 0.0 <= p <= 1.0 && 0.0 <= m <= 1.0
    ensures var f := New(direction, length, p, m, faceValue);
      f.direction == direction && f.length == length && f.penalty == p && f.minAckRate == m
      && f.faceValue == TicketValue(faceValue)
  {}

  lemma ScoreShareIsScored(f: EdgeValueFn, score: Option<real>)
    ensures ScoreShare(f, score) == Scored(score, f.penalty)
  {}

  lemma InnerFactorIs(f: EdgeValueFn, o: Observation, index: nat)
    requires Admits(f, o, index)
    requires f.direction != Returning ==> index > 0
    requires f.direction != ForwardWithoutSelfLoopback ==> index + 1 < f.length
    ensures Factor(f, o, index) == Scored(IntermediateScore(o), f.penalty) * HealthShare(o.health)
  {
    hide Factor, Admits, HealthShare, ScoreShare, Scored;
    FactorIs(f, o, index);
    ScoreShareIsScored(f, IntermediateScore(o));
  }

  lemma {:induction false} InnerProductIs(f: EdgeValueFn, stretch: seq<Observation>, index: nat)
    requires AllAdmitted(f, stretch, index)
    requires f.direction != Returning ==> index > 0
    requires f.direction != ForwardWithoutSelfLoopback ==> index + |stretch| < f.length
    ensures FactorProduct(f, stretch, index) == RelayedWorth(stretch, f.penalty)
    decreases |stretch|
  {
    hide Factor, Admits, HealthShare, Scored, AllAdmitted;
    if stretch != [] {
      AllAdmittedUnfolds(f, stretch, index);
      InnerFactorIs(f, stretch[0], index);
      InnerProductIs(f, stretch[1..], index + 1);
    }
  }

  lemma FirstFactorIs(f: EdgeValueFn, o: Observation)
    requires Admits(f, o, 0) && f.direction != Returning && !(f.direction == Forward && f.length == 1)
    ensures o.immediate.Some? && Factor(f, o, 0) == FirstWorth(o, f.penalty)
  {
    hide Factor, HealthShare, ScoreShare, Scored;
    FactorIs(f, o, 0);
    ScoreShareIsScored(f, o.score);
  }

  lemma LastFactorIs(f: EdgeValueFn, o: Observation)
    requires f.direction == Forward && f.length >= 2 && Admits(f, o, f.length - 1)
    ensures Factor(f, o, f.length - 1) == LastWorth(o, f.penalty)
  {
    hide Factor, HealthShare, ScoreShare, Scored;
    FactorIs(f, o, f.length - 1);
    ScoreShareIsScored(f, IntermediateScore(o));
    ScoreShareIsScored(f, ImmediateScore(o));
  }

  lemma ArrivalFactorIs(f: EdgeValueFn, o: Observation)
    requires f.direction == Returning && Admits(f, o, f.length - 1)
    ensures o.immediate.Some?
    ensures Factor(f, o, f.length - 1)
         == Scored(ImmediateScore(o), f.penalty) * Rate(o.immediate.value.ackRate, f.penalty)
  {
    hide Factor, ScoreShare, Scored;
    FactorIs(f, o, f.length - 1);
    ScoreShareIsScored(f, ImmediateScore(o));
  }

  lemma OneEdgeProduct(f: EdgeValueFn, o: Observation, index: nat)
    ensures FactorProduct(f, [o], index) == Factor(f, o, index)
    ensures AllAdmitted(f, [o], index) <==> Admits(f, o, index)
  {
    hide Factor, Admits;
    assert [o][1..] == [];
    assert FactorProduct(f, [o], index) == Factor(f, o, index) * FactorProduct(f, [o][1..], index + 1);
    hide AllAdmitted;
    AllAdmittedUnfolds(f, [o], index);
    assert AllAdmitted(f, [], index + 1) by { NothingToAdmit(f, index + 1); }
  }

  lemma NothingToAdmit(f: EdgeValueFn, index: nat)
    ensures AllAdmitted(f, [], index)
  {}

  lemma {:induction false} AdmittedConcatenation(f: EdgeValueFn, first: seq<Observation>, second: seq<Observation>, index: nat)
    ensures AllAdmitted(f, first + second, index)
       <==> AllAdmitted(f, first, index) && AllAdmitted(f, second, index + |first|)
    decreases |first|
  {
    hide Admits, AllAdmitted;
    if first == [] {
      assert first + second == second;
      NothingToAdmit(f, index);
    } else {
      assert (first + second)[1..] == first[1..] + second;
      AllAdmittedUnfolds(f, first + second, index);
      AllAdmittedUnfolds(f, first, index);
      AdmittedConcatenation(f, first[1..], second, index + 1);
    }
  }

  // `forward` over at least one relay.
  lemma ForwardFromArguments(n: NonZeroUsize, p: real, m: real, faceValue: Option<U256>, path: seq<Observation>)
    requires 0.0 <= p <= 1.0 && 0.0 <= m <= 1.0 && |path| == n && n >= 2
    ensures var value, first, last := PathValue(New(Forward, n, p, m, faceValue), path), path[0], path[n - 1];
      && (value.Some? <==>
            && NotDown(first) && Acknowledges(first.immediate.value.ackRate, p, m)
            && Relays(path, n - 1, n, TicketValue(faceValue))
            && (p > 0.0 || KnownBalance(last) || NotDown(last)))
      && (value.Some? ==> value.value == FirstWorth(first, p) * RelayedWorth(path[1..n - 1], p) * LastWorth(last, p))
  {
    hide PathValue, FundedFor, Usable, NotDown, KnownBalance, FirstWorth, LastWorth, RelayedWorth, AllAdmitted, FactorProduct,
      Factor, Admits, New;
    var f := New(Forward, n, p, m, faceValue);
    ArgumentsInRange(Forward, n, p, m, faceValue);
    ForwardAcceptance(f, path);
    if PathValue(f, path).Some? {
      PathValueIsProduct(f, path);
      assert path == [path[0]] + (path[1..n - 1] + [path[n - 1]]);
      AdmittedConcatenation(f, [path[0]], path[1..n - 1] + [path[n - 1]], 0);
      AdmittedConcatenation(f, path[1..n - 1], [path[n - 1]], 1);
      ProductOfConcatenation(f, [path[0]], path[1..n - 1] + [path[n - 1]], 0);
      ProductOfConcatenation(f, path[1..n - 1], [path[n - 1]], 1);
      OneEdgeProduct(f, path[0], 0);
      OneEdgeProduct(f, path[n - 1], n - 1);
      FirstFactorIs(f, path[0]);
      InnerProductIs(f, path[1..n - 1], 1);
      LastFactorIs(f, path[n - 1]);
      Associate(FirstWorth(path[0], p), RelayedWorth(path[1..n - 1], p), LastWorth(path[n - 1], p));
    }
  }

  // `forward` over a single edge: acknowledgements gate it where there is immediate data to gate it by.
  lemma DirectFromArguments(p: real, m: real, faceValue: Option<U256>, o: Observation)
    requires 0.0 <= p <= 1.0 && 0.0 <= m <= 1.0
    ensures var value := PathValue(New(Forward, 1, p, m, faceValue), [o]);
      if o.immediate.Some? && (KnownBalance(o) || NotDown(o)) then
        && (value.Some? <==> Acknowledges(o.immediate.value.ackRate, p, m))
        && (value.Some? ==> value.value == LastWorth(o, p) * Rate(o.immediate.value.ackRate, p))
      else
        && (value.Some? <==> KnownBalance(o) || p > 0.0)
        && (value.Some? ==> value.value == LastWorth(o, p))
  {
    hide PathValue, NotDown, KnownBalance, AllAdmitted, FactorProduct, Factor, Admits, New, ScoreShare, Scored;
    var f := New(Forward, 1, p, m, faceValue);
    ArgumentsInRange(Forward, 1, p, m, faceValue);
    DirectRouteAcceptance(f, o);
    if PathValue(f, [o]).Some? {
      PathValueIsProduct(f, [o]);
      OneEdgeProduct(f, o, 0);
      FactorIs(f, o, 0);
      ScoreShareIsScored(f, IntermediateScore(o));
      ScoreShareIsScored(f, ImmediateScore(o));
    }
  }

  // `returning`: the last edge arrives at this node.
  lemma ReturningFromArguments(n: NonZeroUsize, p: real, m: real, faceValue: Option<U256>, path: seq<Observation>)
    requires 0.0 <= p <= 1.0 && 0.0 <= m <= 1.0 && |path| == n
    ensures var value, last := PathValue(New(Returning, n, p, m, faceValue), path), path[n - 1];
      && (value.Some? <==>
            && NotDown(last) && Acknowledges(last.immediate.value.ackRate, p, m)
            && Relays(path, n - 1, n, TicketValue(faceValue)))
      && (value.Some? ==>
            value.value == RelayedWorth(path[..n - 1], p)
                           * (Scored(ImmediateScore(last), p) * Rate(last.immediate.value.ackRate, p)))
  {
    hide PathValue, FundedFor, Usable, NotDown, KnownBalance, RelayedWorth, AllAdmitted, FactorProduct,
      Factor, Admits, New, ScoreShare, Scored;
    var f := New(Returning, n, p, m, faceValue);
    ArgumentsInRange(Returning, n, p, m, faceValue);
    ReturningAcceptance(f, path);
    if PathValue(f, path).Some? {
      PathValueIsProduct(f, path);
      assert path == path[..n - 1] + [path[n - 1]];
      AdmittedConcatenation(f, path[..n - 1], [path[n - 1]], 0);
      ProductOfConcatenation(f, path[..n - 1], [path[n - 1]], 0);
      OneEdgeProduct(f, path[n - 1], n - 1);
      InnerProductIs(f, path[..n - 1], 0);
      ArrivalFactorIs(f, path[n - 1]);
    }
  }

  // `forward_without_self_loopback`, for a probe path of any length within the declared one.
  lemma LoopbackFromArguments(n: NonZeroUsize, p: real, m: real, faceValue: Option<U256>, path: seq<Observation>)
    requires 0.0 <= p <= 1.0 && 0.0 <= m <= 1.0 && 0 < |path| <= n
    ensures var value, first := PathValue(New(ForwardWithoutSelfLoopback, n, p, m, faceValue), path), path[0];
      && (value.Some? <==>
            && NotDown(first) && Acknowledges(first.immediate.value.ackRate, p, m)
            && Relays(path, |path|, n, TicketValue(faceValue)))
      && (value.Some? ==> value.value == FirstWorth(first, p) * RelayedWorth(path[1..], p))
  {
    hide PathValue, FundedFor, Usable, NotDown, KnownBalance, FirstWorth, RelayedWorth, AllAdmitted, FactorProduct,
      Factor, Admits, New;
    var f := New(ForwardWithoutSelfLoopback, n, p, m, faceValue);
    ArgumentsInRange(ForwardWithoutSelfLoopback, n, p, m, faceValue);
    LoopbackAcceptance(f, path);
    if PathValue(f, path).Some? {
      PathValueIsProduct(f, path);
      assert path == [path[0]] + path[1..];
      AdmittedConcatenation(f, [path[0]], path[1..], 0);
      ProductOfConcatenation(f, [path[0]], path[1..], 0);
      OneEdgeProduct(f, path[0], 0);
      FirstFactorIs(f, path[0]);
      InnerProductIs(f, path[1..], 1);
    }
  }

  // A rate out of [0, 1] acts on every path as the nearest bound.
  lemma RatesActAsTheNearest(direction: Direction, length: NonZeroUsize, p: real, m: real, faceValue: Option<U256>,
                             path: seq<Observation>, x: real)
    ensures x < 0.0 ==>
              && PathValue(New(direction, length, x, m, faceValue), path) == PathValue(New(direction, length, 0.0, m, faceValue), path)
              && PathValue(New(direction, length, p, x, faceValue), path) == PathValue(New(direction, length, p, 0.0, faceValue), path)
    ensures x > 1.0 ==>
              && PathValue(New(direction, length, x, m, faceValue), path) == PathValue(New(direction, length, 1.0, m, faceValue), path)
              && PathValue(New(direction, length, p, x, faceValue), path) == PathValue(New(direction, length, p, 1.0, faceValue), path)
  {
    hide PathValue;
  }

  // Without a face value an edge must hold one base unit for every hop behind it.
  lemma OmittedFaceValueCountsHops(direction: Direction, n: NonZeroUsize, p: real, m: real, path: seq<Observation>, i: nat)
    requires |path| <= n && i < |path| && i < n - 1
    requires PathValue(New(direction, n, p, m, None), path).Some?
    ensures path[i].intermediate.Some? && path[i].intermediate.value.balance.Some?
    ensures path[i].intermediate.value.balance.value >= n - 1 - i
  {
    hide PathValue, AllAdmitted, Admits;
    var f := New(direction, n, p, m, None);
    PathValueIsProduct(f, path);
    assert Admits(f, path[i], 0 + i) by { EdgeOfAdmitted(f, path, i); }
    AdmittedEdgeIsFunded(f, path[i], i);
  }

  lemma EdgeOfAdmitted(f: EdgeValueFn, path: seq<Observation>, i: nat)
    requires AllAdmitted(f, path, 0) && i < |path|
    ensures Admits(f, path[i], 0 + i)
  {}
}
