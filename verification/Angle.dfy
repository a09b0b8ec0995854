/** Angles in degrees (cpp_17/utility/angle.h), over the reals. */
module Angle {

  const TURN := 360.0

  /** What the loop of `normalise` leaves. */
  function Reduced(v: real): (r: real)
    ensures r < TURN
    decreases if v >= TURN then v.Floor else 0
  {
    if v >= TURN then Reduced(v - TURN) else v
  }

  function Raised(v: real): real {
    var w := if v <= -TURN then v + TURN else v;
    if w < 0.0 then TURN + w else w
  }

  function Normalised(v: real): real {
    Raised(Reduced(v))
  }

  function Turns(k: int): (r: real)
    ensures r == 360.0 * k as real
  {
    TURN * k as real
  }

  ghost predicate SameDirection(v: real, w: real) {
    exists k: int :: v == w + Turns(k)
  }

  predicate IsNormal(v: real) {
    0.0 <= v < TURN
  }

  method Normalise(value: real) returns (result: real)
    ensures result == Normalised(value)
  {
    var v := value;
    while v >= TURN
      invariant Reduced(v) == Reduced(value)
      decreases if v >= TURN then v.Floor else 0
    {
      v := v - TURN;
    }
    if v <= -TURN {
      v := v + TURN;
    }
    if v < 0.0 {
      v := TURN + v;
    }
    result := 0.0 + v;
  }

  lemma {:induction false} ReducedKeepsDirection(v: real)
    ensures SameDirection(v, Reduced(v))
    ensures v < TURN ==> Reduced(v) == v
    ensures v >= TURN ==> Reduced(v) >= 0.0
    decreases if v >= TURN then v.Floor else 0
  {
    if v >= TURN {
      ReducedKeepsDirection(v - TURN);
      var k: int :| v - TURN == Reduced(v - TURN) + Turns(k);
      assert v == Reduced(v) + Turns(k + 1);
    } else {
      assert v == v + Turns(0);
    }
  }

  lemma RaisedKeepsDirection(v: real)
    ensures SameDirection(v, Raised(v))
  {
    var k := if v <= -TURN then (if v + TURN < 0.0 then -2 else -1) else if v < 0.0 then -1 else 0;
    assert v == Raised(v) + Turns(k);
  }

  lemma DirectionsChain(u: real, v: real, w: real)
    requires SameDirection(u, v) && SameDirection(v, w)
    ensures SameDirection(u, w)
  {
    var k: int :| u == v + Turns(k);
    var l: int :| v == w + Turns(l);
    assert u == w + Turns(k + l);
  }

  /** The direction is always kept; the result is a normal angle exactly when the value was not more
      than two turns below zero, because only the upward loop repeats. */
  lemma NormalisedIsNormalIff(v: real)
    ensures SameDirection(v, Normalised(v))
    ensures 0.0 <= Normalised(v) < 360.0 <==> v >= -720.0
  {
    ReducedKeepsDirection(v);
    RaisedKeepsDirection(Reduced(v));
    DirectionsChain(v, Reduced(v), Normalised(v));
  }

  /** An angle built from -1000 is not normal, and not the same when it is normalised again. */
  lemma DeepAngle()
    ensures Normalised(-1000.0) == -280.0 && Normalised(-280.0) == 80.0
  {}

  /** Two normal angles of the same direction are the same. */
  lemma NormalIsUnique(v: real, w: real)
    requires IsNormal(v) && IsNormal(w) && SameDirection(v, w)
    ensures v == w
  {
    var k: int :| v == w + Turns(k);
    assert -1.0 < k as real < 1.0;
  }

  lemma SameDirectionSymmetric(v: real, w: real)
    requires SameDirection(v, w)
    ensures SameDirection(w, v)
  {
    var k: int :| v == w + Turns(k);
    assert w == v + Turns(-k);
  }

  lemma Shift(u: real, v: real, d: real)
    requires SameDirection(u, v)
    ensures SameDirection(u + d, v + d)
  {
    var k: int :| u == v + Turns(k);
    assert u + d == v + d + Turns(k);
  }

  lemma NormalisedBelow(v: real)
    ensures Normalised(v) < TURN
    ensures v < -2.0 * TURN ==> Normalised(v) == v + 2.0 * TURN
  {
    ReducedKeepsDirection(v);
  }

  /** Normalising again changes nothing exactly when the value was not more than two turns below zero. */
  lemma NormalisedTwiceIff(v: real)
    ensures Normalised(Normalised(v)) == Normalised(v) <==> v >= -2.0 * TURN
  {
    hide Normalised;
    var w := Normalised(v);
    NormalisedIsNormalIff(v);
    NormalisedBelow(v);
    if v >= -2.0 * TURN {
      NormalStays(w);
    } else {
      NormalisedIsNormalIff(w);
      NormalisedBelow(w);
      RaisedOnce(w);
    }
  }

  lemma NormalStays(w: real)
    requires IsNormal(w)
    ensures Normalised(w) == w
  {}

  lemma RaisedOnce(w: real)
    requires w < 0.0
    ensures Normalised(w) > w
  {}

  /** An angle, which is always less than a turn, is given back by adding another and subtracting it
      again exactly when it is a normal one. */
  lemma SubtractUndoesAddIff(a: real, b: real)
    requires a < TURN && b < TURN
    ensures Normalised(Normalised(a + b) - b) == a <==> IsNormal(a)
  {
    hide Normalised;
    var sum := Normalised(a + b);
    NormalisedIsNormalIff(a + b);
    NormalisedBelow(a + b);
    NormalisedIsNormalIff(sum - b);
    NormalisedBelow(sum - b);
    Shift(a + b, sum, -b);
    assert a + b + -b == a && sum + -b == sum - b;
    DirectionsChain(a, sum - b, Normalised(sum - b));
    if IsNormal(a) {
      NormalIsUnique(a, Normalised(sum - b));
    }
  }

  /** Whichever sum is taken first, the direction is the same; the angle is too exactly when neither
      outer sum lies more than two turns below zero, or they are the same number to begin with. */
  lemma AddAssociatesIff(a: real, b: real, c: real)
    ensures var left, right := Normalised(a + b) + c, a + Normalised(b + c);
            && SameDirection(Normalised(left), Normalised(right))
            && (Normalised(left) == Normalised(right)
                <==> (left >= -2.0 * TURN && right >= -2.0 * TURN) || left == right)
  {
    hide Normalised, SameDirection;
    var ab, bc := Normalised(a + b), Normalised(b + c);
    var left, right := ab + c, a + bc;
    NormalisedIsNormalIff(a + b);
    NormalisedIsNormalIff(b + c);
    NormalisedIsNormalIff(left);
    NormalisedIsNormalIff(right);
    NormalisedBelow(left);
    NormalisedBelow(right);
    Shift(a + b, ab, c);
    Shift(b + c, bc, a);
    assert a + b + c == b + c + a && bc + a == right;
    DirectionsChain(a + b + c, left, Normalised(left));
    DirectionsChain(a + b + c, right, Normalised(right));
    SameDirectionSymmetric(a + b + c, Normalised(left));
    DirectionsChain(Normalised(left), a + b + c, Normalised(right));
    if IsNormal(Normalised(left)) && IsNormal(Normalised(right)) {
      NormalIsUnique(Normalised(left), Normalised(right));
    }
  }
}
