/** Small arithmetic and option vocabulary shared by the component models. */
module Basics {

  datatype Option<+T> = None | Some(value: T) {
    predicate IsFailure() {
      None?
    }

    function PropagateFailure<U>(): Option<U>
      requires None?
    {
      None
    }

    function Extract(): T
      requires Some?
    {
      value
    }
  }

  function Min(a: real, b: real): real {
    if a <= b then a else b
  }

  function Max(a: real, b: real): real {
    if a >= b then a else b
  }

  function Abs(a: real): real {
    if a < 0.0 then -a else a
  }

  function MaxNat(a: nat, b: nat): nat {
    if a >= b then a else b
  }

  function Square(a: real): real {
    a * a
  }

  // std::clamp, whose callers must pass an ordered interval.
  function Clamp(v: real, lo: real, hi: real): (c: real)
    requires lo <= hi
    ensures lo <= c <= hi
  {
    if v < lo then lo else if hi < v then hi else v
  }

  // std::sqrt enters the models as a parameter; this is all that is used of it.
  ghost predicate IsRoot(root: real -> real) {
    forall x: real :: x >= 0.0 ==> root(x) >= 0.0 && root(x) * root(x) == x
  }

  // Roots compare as their squares do.
  lemma RootOrder(root: real -> real, a: real, b: real)
    requires IsRoot(root) && a >= 0.0 && b >= 0.0
    ensures root(a) <= root(b) <==> a <= b
    ensures root(a) <= b <==> a <= b * b
  {
    SquareOrder(root(a), root(b));
    SquareOrder(root(a), b);
  }

  lemma RootOfZero(root: real -> real)
    requires IsRoot(root)
    ensures root(0.0) == 0.0
  {
    SquareOrder(root(0.0), 0.0);
  }

  lemma SquareOrder(a: real, b: real)
    requires a >= 0.0 && b >= 0.0
    ensures a * a <= b * b <==> a <= b
    ensures Square(a) <= Square(b) <==> a <= b
  {
    if a < b {
      SquareGrows(a, b, (b - a) * (b + a));
    } else if b < a {
      SquareGrows(b, a, (a - b) * (a + b));
    }
  }

  lemma SquareGrows(a: real, b: real, product: real)
    requires 0.0 <= a < b && product == (b - a) * (b + a)
    ensures a * a < b * b
  {
    ProductSign(b - a, b + a, product);
    DifferenceOfSquares(a, b, product);
  }

  lemma DifferenceOfSquares(a: real, b: real, product: real)
    requires product == (b - a) * (b + a)
    ensures b * b - a * a == product
  {
  }

  lemma SquareDominates(a: real, b: real)
    requires Abs(a) <= Abs(b)
    ensures Square(a) <= Square(b)
  {
    SquareOrder(Abs(a), Abs(b));
    assert Square(Abs(a)) == Square(a) && Square(Abs(b)) == Square(b);
  }

  lemma ProductSign(a: real, b: real, product: real)
    requires a >= 0.0 && b >= 0.0 && product == a * b
    ensures product >= 0.0
    ensures a > 0.0 && b > 0.0 ==> product > 0.0
  {
  }

  lemma SquareSign(a: real)
    ensures Square(a) >= 0.0
  {
  }
}
