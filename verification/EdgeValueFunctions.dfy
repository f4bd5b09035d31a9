// The edge value functions of src/graph/function.rs, over real values.
//
// The source builds a closure; here the captured parameters are the fields of EdgeValueFn and
// the closure is the function Step. A rejected edge is encoded by negating the incoming value.
module EdgeValueFunctions {
  import opened Wrappers
  import opened GraphTraits

  const TWO_TO_64: nat := 0x1_0000_0000_0000_0000

  const MEASURED_DEAD_FLOOR: real := 0.000000001

  const DEFAULT_TICKET_FACE_VALUE: U256 := 1

  type Usize = n: nat | n < TWO_TO_64

  type NonZeroUsize = n: nat | 0 < n < TWO_TO_64 witness 1

  type UnitReal = r: real | 0.0 <= r <= 1.0

  datatype Direction = Forward | Returning | ForwardWithoutSelfLoopback

  datatype EdgeValueFn = EdgeValueFn(
    direction: Direction,
    length: NonZeroUsize,
    penalty: UnitReal,
    minAckRate: UnitReal,
    faceValue: U256)

  function Min(x: real, y: real): real {
    if x <= y then x else y
  }

  function Max(x: real, y: real): real {
    if x >= y then x else y
  }

  function Clamp(x: real): UnitReal {
    if x < 0.0 then 0.0 else if x > 1.0 then 1.0 else x
  }

  // The preamble the three constructors share.
  function New(direction: Direction, length: NonZeroUsize, penalty: real, minAckRate: real,
               faceValue: Option<U256>): EdgeValueFn
  {
    EdgeValueFn(direction, length, Clamp(penalty), Clamp(minAckRate),
                if faceValue.Some? then faceValue.value else DEFAULT_TICKET_FACE_VALUE)
  }

  function ScoreOrPenalize(cost: real, score: Option<real>, penalty: real): real {
    var multiplier := match score case None => penalty case Some(s) => s;
    cost * Max(multiplier, MEASURED_DEAD_FLOOR)
  }

  // A NaN health counts as unjudged, and a value already rejected is passed through.
  function ScaleByHealth(value: real, health: Option<Float>): real {
    if value <= 0.0 then value
    else
      match health
      case None => value
      case Some(NaN) => value
      case Some(NegInfinity) => -value
      case Some(PosInfinity) => value * 1.0
      case Some(Finite(h)) => if h <= 0.0 then -value else value * Min(h, 1.0)
  }

  function ApplyAckRate(ackRate: Option<real>, cost: real, minAckRate: real, penalty: real): real {
    match ackRate
    case Some(rate) => if rate < minAckRate then -cost else cost * rate
    case None => cost * penalty
  }

  function CheckedMul(x: U256, y: U256): Option<U256> {
    if x * y < TWO_TO_256 then Some(x * y) else None
  }

  predicate BalanceSuffices(balance: Option<U256>, remainingHops: Usize, faceValue: U256) {
    if remainingHops == 0 then true
    else if faceValue == 0 then balance.Some?
    else
      match balance
      case None => false
      case Some(available) =>
        var required := CheckedMul(remainingHops, faceValue);
        required.Some? && available >= required.value
  }

  function RequireFunding(o: Observation, cost: real, penalty: real, remainingHops: Usize, faceValue: U256): real {
    if o.intermediate.Some? && BalanceSuffices(o.intermediate.value.balance, remainingHops, faceValue) then
      ScoreOrPenalize(cost, o.intermediate.value.score, penalty)
    else
      -cost
  }

  // First edge of a path this node emits: forward and forward_without_self_loopback.
  function FirstEdge(f: EdgeValueFn, cost: real, o: Observation): real {
    if o.immediate.Some? && o.immediate.value.connected != Some(false) && o.intermediate.Some?
       && BalanceSuffices(o.intermediate.value.balance, f.length - 1, f.faceValue)
    then
      ApplyAckRate(o.immediate.value.ackRate, ScoreOrPenalize(cost, o.score, f.penalty), f.minAckRate, f.penalty)
    else
      -cost
  }

  // Last edge of a forward path: its ticket is worth nothing, so it is penalized, not rejected.
  function ForwardLastEdge(f: EdgeValueFn, cost: real, o: Observation): real {
    if o.intermediate.Some? && o.intermediate.value.balance.Some? then
      var base := ScoreOrPenalize(cost, o.intermediate.value.score, f.penalty);
      if f.length == 1 && o.immediate.Some? then
        ApplyAckRate(o.immediate.value.ackRate, base, f.minAckRate, f.penalty)
      else base
    else if o.immediate.Some? && o.immediate.value.connected != Some(false) then
      var base := ScoreOrPenalize(cost, o.immediate.value.score, f.penalty);
      if f.length == 1 then ApplyAckRate(o.immediate.value.ackRate, base, f.minAckRate, f.penalty) else base
    else
      cost * f.penalty
  }

  // Last edge of a return path: it ends at this node, which must be reachable.
  function ReturningLastEdge(f: EdgeValueFn, cost: real, o: Observation): real {
    if o.immediate.Some? && o.immediate.value.connected != Some(false) then
      ApplyAckRate(o.immediate.value.ackRate, ScoreOrPenalize(cost, o.immediate.value.score, f.penalty),
                   f.minAckRate, f.penalty)
    else
      -cost
  }

  // `f.length - index - 1` is only evaluated below `index < f.length`: its type is unsigned.
  function InnerEdge(f: EdgeValueFn, cost: real, o: Observation, index: nat): real {
    if index >= f.length then -cost
    else RequireFunding(o, cost, f.penalty, f.length - index - 1, f.faceValue)
  }

  function EdgeValue(f: EdgeValueFn, cost: real, o: Observation, index: nat): real {
    match f.direction
    case Forward =>
      if index == f.length - 1 then ForwardLastEdge(f, cost, o)
      else if index == 0 then FirstEdge(f, cost, o)
      else InnerEdge(f, cost, o, index)
    case Returning =>
      if index == f.length - 1 then ReturningLastEdge(f, cost, o)
      else InnerEdge(f, cost, o, index)
    case ForwardWithoutSelfLoopback =>
      if index == 0 then FirstEdge(f, cost, o)
      else InnerEdge(f, cost, o, index)
  }

  // The edge into the endpoint is not scaled by health; a loopback prefix has no endpoint.
  function Step(f: EdgeValueFn, cost: real, o: Observation, index: nat): real {
    var value := EdgeValue(f, cost, o, index);
    match f.direction
    case Forward => if index + 1 < f.length then ScaleByHealth(value, o.health) else value
    case Returning => if index + 1 < f.length then ScaleByHealth(value, o.health) else value
    case ForwardWithoutSelfLoopback => ScaleByHealth(value, o.health)
  }

  // The search folds from 1 and drops a path as soon as its value is not positive.
  function PrunedFold(f: EdgeValueFn, value: real, path: seq<Observation>, index: nat): Option<real>
    decreases |path|
  {
    if path == [] then Some(value)
    else
      var next := Step(f, value, path[0], index);
      if next <= 0.0 then None else PrunedFold(f, next, path[1..], index + 1)
  }

  function PathValue(f: EdgeValueFn, path: seq<Observation>): Option<real> {
    PrunedFold(f, 1.0, path, 0)
  }

  // The same fold when nothing is dropped on the way.
  function UnprunedFold(f: EdgeValueFn, value: real, path: seq<Observation>, index: nat): real
    decreases |path|
  {
    if path == [] then value
    else UnprunedFold(f, Step(f, value, path[0], index), path[1..], index + 1)
  }
}
