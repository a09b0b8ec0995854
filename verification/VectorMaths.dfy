/** The loops of cpp_17/navigation/vector_maths.h. Every one of them adds to what its result already
    holds; the callers start from zero. */
module VectorMaths {

  function Sum(s: seq<real>): real {
    if |s| == 0 then 0.0 else Sum(s[..|s| - 1]) + s[|s| - 1]
  }

  function Dot(a: seq<real>, b: seq<real>): real
    requires |a| == |b|
  {
    if |a| == 0 then 0.0 else PlusProduct(Dot(a[..|a| - 1], b[..|a| - 1]), a[|a| - 1], b[|a| - 1])
  }

  function PlusProduct(r: real, a: real, b: real): real {
    r + a * b
  }

  function PlusCube(r: real, a: real): real {
    r + a * a * a
  }

  /** `now` is `was` with the products of `a` and `b` added element by element. */
  predicate ProductsAdded(was: seq<real>, a: seq<real>, b: seq<real>, now: seq<real>)
    requires |was| == |a| == |b| == |now|
  {
    |now| == 0
    || var k := |now| - 1;
       && ProductsAdded(was[..k], a[..k], b[..k], now[..k])
       && now[k] == PlusProduct(was[k], a[k], b[k])
  }

  predicate CubesAdded(was: seq<real>, a: seq<real>, now: seq<real>)
    requires |was| == |a| == |now|
  {
    |now| == 0
    || var k := |now| - 1;
       && CubesAdded(was[..k], a[..k], now[..k])
       && now[k] == PlusCube(was[k], a[k])
  }

  predicate AllZero(s: seq<real>) {
    |s| == 0 || (AllZero(s[..|s| - 1]) && s[|s| - 1] == 0.0)
  }

  lemma {:induction false} ZerosAreAllZero(s: seq<real>)
    requires forall i :: 0 <= i < |s| ==> s[i] == 0.0
    ensures AllZero(s)
  {
    if |s| != 0 {
      ZerosAreAllZero(s[..|s| - 1]);
    }
  }

  lemma {:induction false} LastZero(s: seq<real>)
    requires |s| > 0 && AllZero(s)
    ensures AllZero(s[..|s| - 1]) && s[|s| - 1] == 0.0
  {}

  lemma {:induction false} LastSum(s: seq<real>)
    requires |s| > 0
    ensures Sum(s) == Sum(s[..|s| - 1]) + s[|s| - 1]
  {}

  lemma {:induction false} LastDot(a: seq<real>, b: seq<real>)
    requires |a| == |b| > 0
    ensures var k := |a| - 1; Dot(a, b) == PlusProduct(Dot(a[..k], b[..k]), a[k], b[k])
  {
    hide PlusProduct;
  }

  lemma {:induction false} LastProductAdded(was: seq<real>, a: seq<real>, b: seq<real>, now: seq<real>)
    requires |was| == |a| == |b| == |now| > 0 && ProductsAdded(was, a, b, now)
    ensures var k := |was| - 1;
            ProductsAdded(was[..k], a[..k], b[..k], now[..k]) && now[k] == PlusProduct(was[k], a[k], b[k])
  {
    hide PlusProduct;
  }

  lemma {:induction false} LastCubeAdded(was: seq<real>, a: seq<real>, now: seq<real>)
    requires |was| == |a| == |now| > 0 && CubesAdded(was, a, now)
    ensures var k := |was| - 1;
            CubesAdded(was[..k], a[..k], now[..k]) && now[k] == PlusCube(was[k], a[k])
  {
    hide PlusCube;
  }

  lemma OneMoreProduct(was: seq<real>, a: seq<real>, b: seq<real>, now: seq<real>, i: nat)
    requires |was| == |now| && i < |now| && i < |a| && i < |b|
    requires ProductsAdded(was[..i], a[..i], b[..i], now[..i])
    requires now[i] == PlusProduct(was[i], a[i], b[i])
    ensures ProductsAdded(was[..i + 1], a[..i + 1], b[..i + 1], now[..i + 1])
  {
    hide PlusProduct;
    assert was[..i + 1][..i] == was[..i] && now[..i + 1][..i] == now[..i];
    assert a[..i + 1][..i] == a[..i] && b[..i + 1][..i] == b[..i];
  }

  lemma OneMoreCube(was: seq<real>, a: seq<real>, now: seq<real>, i: nat)
    requires |was| == |now| && i < |now| && i < |a|
    requires CubesAdded(was[..i], a[..i], now[..i])
    requires now[i] == PlusCube(was[i], a[i])
    ensures CubesAdded(was[..i + 1], a[..i + 1], now[..i + 1])
  {
    hide PlusCube;
    assert was[..i + 1][..i] == was[..i] && now[..i + 1][..i] == now[..i];
    assert a[..i + 1][..i] == a[..i];
  }

  method ScalarSum(data: array<real>, length: nat, result: real) returns (r: real)
    requires length <= data.Length
    ensures r == result + Sum(data[..length])
  {
    r := result;
    for index := 0 to length
      invariant r == result + Sum(data[..index])
    {
      assert data[..index + 1][..index] == data[..index];
      r := r + data[index];
    }
  }

  method ScalarSquare(data: array<real>, length: nat, result: real) returns (r: real)
    requires length <= data.Length
    ensures r == result + Dot(data[..length], data[..length])
  {
    r := result;
    for index := 0 to length
      invariant r == result + Dot(data[..index], data[..index])
    {
      assert data[..index + 1][..index] == data[..index];
      r := r + data[index] * data[index];
    }
  }

  method VectorSquare(data: array<real>, length: nat, result: array<real>)
    requires length <= data.Length && length <= result.Length && data != result
    modifies result
    ensures ProductsAdded(old(result[..length]), data[..length], data[..length], result[..length])
    ensures result[length..] == old(result[length..])
  {
    ghost var was, a, b := result[..], data[..], data[..];
    for index := 0 to length
      invariant ProductsAdded(was[..index], a[..index], b[..index], result[..][..index])
      invariant result[index..] == was[index..]
    {
      NextElement(was, result, index);
      ghost var before := result[..];
      result[index] := result[index] + data[index] * data[index];
      assert result[..][..index] == before[..index];
      OneMoreProduct(was, a, b, result[..], index);
    }
    assert was[..length] == old(result[..length]) && result[..][..length] == result[..length];
    assert a[..length] == data[..length] && b[..length] == data[..length];
  }

  method VectorCube(data: array<real>, length: nat, result: array<real>)
    requires length <= data.Length && length <= result.Length && data != result
    modifies result
    ensures CubesAdded(old(result[..length]), data[..length], result[..length])
    ensures result[length..] == old(result[length..])
  {
    ghost var was, a := result[..], data[..];
    for index := 0 to length
      invariant CubesAdded(was[..index], a[..index], result[..][..index])
      invariant result[index..] == was[index..]
    {
      NextElement(was, result, index);
      ghost var before := result[..];
      result[index] := result[index] + data[index] * data[index] * data[index];
      assert result[..][..index] == before[..index];
      OneMoreCube(was, a, result[..], index);
    }
    assert was[..length] == old(result[..length]) && result[..][..length] == result[..length];
    assert a[..length] == data[..length];
  }

  method VectorMultiply(data1: array<real>, data2: array<real>, length: nat, result: array<real>)
    requires length <= data1.Length && length <= data2.Length && length <= result.Length
    requires data1 != result && data2 != result
    modifies result
    ensures ProductsAdded(old(result[..length]), data1[..length], data2[..length], result[..length])
    ensures result[length..] == old(result[length..])
  {
    ghost var was, a, b := result[..], data1[..], data2[..];
    for index := 0 to length
      invariant ProductsAdded(was[..index], a[..index], b[..index], result[..][..index])
      invariant result[index..] == was[index..]
    {
      NextElement(was, result, index);
      ghost var before := result[..];
      result[index] := result[index] + data1[index] * data2[index];
      assert result[..][..index] == before[..index];
      OneMoreProduct(was, a, b, result[..], index);
    }
    assert was[..length] == old(result[..length]) && result[..][..length] == result[..length];
    assert a[..length] == data1[..length] && b[..length] == data2[..length];
  }

  /** The element a loop has come to is still the one it found. */
  lemma NextElement(was: seq<real>, now: array<real>, index: nat)
    requires index < |was| == now.Length && now[index..] == was[index..]
    ensures now[index] == was[index] && now[index + 1..] == was[index + 1..]
    ensures was[..index + 1][..index] == was[..index]
  {
    assert now[index] == now[index..][0] && was[index] == was[index..][0];
    assert now[index + 1..] == now[index..][1..] && was[index + 1..] == was[index..][1..];
  }
}
