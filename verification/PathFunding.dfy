// What a surviving path says about channel balances.
module PathFunding {
  import opened Wrappers
  import opened GraphTraits
  import opened EdgeValueFunctions
  import opened EdgeAdmission
  import opened PathAcceptance

  function BalanceOf(o: Observation): nat {
    if KnownBalance(o) then o.intermediate.value.balance.value else 0
  }

  function TotalBalance(path: seq<Observation>): nat {
    if path == [] then 0 else TotalBalance(path[..|path| - 1]) + BalanceOf(path[|path| - 1])
  }

  lemma AdmittedEdgeIsFunded(f: EdgeValueFn, o: Observation, index: nat)
    requires Admits(f, o, index) && index < f.length - 1
    ensures KnownBalance(o) && (f.length - 1 - index) * f.faceValue <= BalanceOf(o)
  {}

  lemma TriangleStep(face: nat, length: nat, count: nat, total: nat, balance: nat)
    requires 0 < count < length
    requires 2 * total >= face * ((count - 1) * (2 * length - count))
    requires balance >= (length - count) * face
    ensures 2 * (total + balance) >= face * (count * (2 * length - 1 - count))
  {
    assert count * (2 * length - 1 - count) == (count - 1) * (2 * length - count) + 2 * (length - count);
    var before, more := (count - 1) * (2 * length - count), length - count;
    assert face * (before + 2 * more) == face * before + 2 * (more * face);
  }

  // The first `count` edges of a surviving path each fund the tickets of the hops that remain,
  // so together they hold at least a triangle of face values.
  lemma {:induction false} SurvivorsHoldATriangle(f: EdgeValueFn, path: seq<Observation>, count: nat)
    requires count <= |path| && count < f.length
    requires PathValue(f, path).Some?
    ensures forall i :: 0 <= i < count ==>
              KnownBalance(path[i]) && (f.length - 1 - i) * f.faceValue <= BalanceOf(path[i])
    ensures 2 * TotalBalance(path[..count]) >= f.faceValue * (count * (2 * f.length - 1 - count))
  {
    hide PathValue, FactorProduct, Admits, KnownBalance, BalanceOf;
    PathValueIsProduct(f, path);
    if count > 0 {
      var last := count - 1;
      SurvivorsHoldATriangle(f, path, last);
      assert Admits(f, path[last], 0 + last);
      AdmittedEdgeIsFunded(f, path[last], last);
      assert path[..count][..last] == path[..last];
      TriangleStep(f.faceValue, f.length, count, TotalBalance(path[..last]), BalanceOf(path[last]));
    }
  }

  // Over all edges that issue a ticket, the total is at least face * n * (n - 1) / 2.
  lemma TriangularFunding(f: EdgeValueFn, path: seq<Observation>)
    requires |path| >= f.length - 1
    requires PathValue(f, path[..f.length - 1]).Some?
    ensures forall i :: 0 <= i < f.length - 1 ==> (f.length - 1 - i) * f.faceValue <= BalanceOf(path[i])
    ensures 2 * TotalBalance(path[..f.length - 1]) >= f.faceValue * (f.length * (f.length - 1))
  {
    var issuing := path[..f.length - 1];
    SurvivorsHoldATriangle(f, issuing, f.length - 1);
    assert issuing[..f.length - 1] == issuing;
    assert (f.length - 1) * (2 * f.length - 1 - (f.length - 1)) == f.length * (f.length - 1);
    forall i | 0 <= i < f.length - 1 ensures (f.length - 1 - i) * f.faceValue <= BalanceOf(path[i]) {
      assert path[i] == issuing[i];
    }
  }
}
