/** The checked dimensions that every buffer of the LTV problem is sized by. */
module LtvQpDimensions {
  import opened Basics

  const SIZE_MAX: nat := 0xFFFF_FFFF_FFFF_FFFF
  const INT_MAX: nat := 0x7FFF_FFFF
  const MAXIMUM_HORIZON: int := 64
  const MAXIMUM_BYTES: nat := 3 * 1024 * 1024

  datatype Dimensions = Dimensions(decision: nat, equality: nat, inequality: nat, constraintRows: nat, bytes: nat)

  function CheckedAdd(a: nat, b: nat): Option<nat> {
    if a > SIZE_MAX || b > SIZE_MAX - a then None else Some(a + b)
  }

  function CheckedMultiply(a: nat, b: nat): Option<nat> {
    if a != 0 && b > SIZE_MAX / a then None else Some(a * b)
  }

  function FitsInt(a: nat): Option<nat> {
    if a <= INT_MAX then Some(a) else None
  }

  // Bytes of all matrices and vectors as doubles.
  function Payload(decision: nat, equality: nat, inequality: nat): Option<nat> {
    var hessian :- CheckedMultiply(decision, decision);
    var equalities :- CheckedMultiply(equality, decision);
    var inequalities :- CheckedMultiply(inequality, decision);
    var coefficients :- CheckedAdd(equalities, inequalities);
    var matrices :- CheckedAdd(hessian, coefficients);
    var vectors :- CheckedMultiply(decision, 3);
    var dense :- CheckedAdd(matrices, vectors);
    var rows :- CheckedAdd(equality, inequality);
    var bounds :- CheckedMultiply(rows, 2);
    var elements :- CheckedAdd(dense, bounds);
    CheckedMultiply(elements, 8)
  }

  function Checked(horizon: int): Option<Dimensions> {
    if horizon <= 0 || horizon > MAXIMUM_HORIZON then None
    else
      var states :- CheckedAdd(horizon, 1);
      var equality :- CheckedMultiply(states, 3);
      var inequality :- CheckedMultiply(horizon, 3);
      var paired :- CheckedMultiply(horizon, 6);
      var decision :- CheckedAdd(paired, 3);
      var _ :- FitsInt(decision);
      var _ :- FitsInt(equality);
      var _ :- FitsInt(inequality);
      var bytes :- Payload(decision, equality, inequality);
      if bytes > MAXIMUM_BYTES then None
      else
        var rows :- CheckedAdd(equality, inequality);
        var constraintRows :- CheckedAdd(rows, decision);
        var _ :- FitsInt(constraintRows);
        Some(Dimensions(decision, equality, inequality, constraintRows, bytes))
  }

  // The division test refuses exactly the products that would wrap.
  lemma MultiplicationIsExact(a: nat, b: nat)
    ensures CheckedMultiply(a, b) == if a * b <= SIZE_MAX then Some(a * b) else None
  {
    if a != 0 {
      var q := SIZE_MAX / a;
      if b <= q {
        assert a * b <= a * q;
      } else {
        assert a * b >= a * (q + 1);
      }
    }
  }

  lemma SmallProduct(a: nat, b: nat, c: nat)
    requires a <= 400 && b <= 500000 && c == a * b
    ensures CheckedMultiply(a, b) == CheckedMultiply(b, a) == Some(c) && c <= 400 * b
  {
    MultiplicationIsExact(a, b);
    MultiplicationIsExact(b, a);
    assert a * b <= 400 * b;
  }

  // Two matrices of d columns whose rows add up to d are one square matrix.
  lemma StackedMatrices(d: nat, e: nat, i: nat, equalities: nat, inequalities: nat, square: nat)
    requires e + i == d && equalities == e * d && inequalities == i * d && square == d * d
    ensures equalities + inequalities == square
  {
    calc {
      e * d + i * d;
      (e + i) * d;
      d * d;
    }
  }

  lemma PayloadFits(d: nat, e: nat, i: nat)
    requires e + i == d <= 387
    ensures Payload(d, e, i).Some? && Payload(d, e, i).value <= MAXIMUM_BYTES
  {
    PayloadOf(d, e, i, d * d, e * d, i * d);
  }

  lemma PayloadOf(d: nat, e: nat, i: nat, square: nat, equalities: nat, inequalities: nat)
    requires e + i == d <= 387 && square == d * d && equalities == e * d && inequalities == i * d
    ensures Payload(d, e, i).Some? && Payload(d, e, i).value <= MAXIMUM_BYTES
  {
    hide CheckedMultiply;
    SmallProduct(d, d, square);
    SmallProduct(e, d, equalities);
    SmallProduct(i, d, inequalities);
    StackedMatrices(d, e, i, equalities, inequalities, square);
    Bytes(d, e, i, square, equalities, inequalities);
  }

  lemma Bytes(d: nat, e: nat, i: nat, square: nat, equalities: nat, inequalities: nat)
    requires e + i == d <= 387 && square <= 400 * 387 && equalities + inequalities == square
    requires CheckedMultiply(d, d) == Some(square) && CheckedMultiply(e, d) == Some(equalities) &&
             CheckedMultiply(i, d) == Some(inequalities)
    ensures Payload(d, e, i).Some? && Payload(d, e, i).value <= MAXIMUM_BYTES
  {
    hide CheckedMultiply;
    SmallProduct(3, d, d * 3);
    SmallProduct(2, d, d * 2);
    var elements := 2 * square + d * 3 + d * 2;
    SmallProduct(8, elements, elements * 8);
  }

  // Every horizon from 1 to 64 is admitted, with the sizes the layout needs: no
  // intermediate wraps, and the byte cap never refuses anything the horizon cap admits.
  lemma DimensionsAreExact(horizon: int)
    ensures Checked(horizon).Some? <==> 1 <= horizon <= MAXIMUM_HORIZON
    ensures 1 <= horizon <= MAXIMUM_HORIZON ==>
              var d := Checked(horizon).value;
              && d.decision == 6 * horizon + 3 && d.equality == 3 * (horizon + 1) && d.inequality == 3 * horizon
              && d.constraintRows == 12 * horizon + 6 && d.bytes <= MAXIMUM_BYTES
  {
    if 1 <= horizon <= MAXIMUM_HORIZON {
      var decision: nat := 6 * horizon + 3;
      var equality: nat := 3 * horizon + 3;
      SmallProduct(3, horizon + 1, equality);
      SmallProduct(3, horizon, 3 * horizon);
      SmallProduct(6, horizon, 6 * horizon);
      PayloadFits(decision, equality, 3 * horizon);
      SmallSum(horizon, 1);
      SmallSum(6 * horizon, 3);
      SmallSum(equality, 3 * horizon);
      SmallSum(decision, decision);
      hide CheckedMultiply, Payload, CheckedAdd;
    }
  }

  lemma SmallSum(a: nat, b: nat)
    requires a <= 1000 && b <= 1000
    ensures CheckedAdd(a, b) == Some(a + b) && FitsInt(a + b) == Some(a + b)
    ensures FitsInt(a) == Some(a) && FitsInt(b) == Some(b)
  {
  }
}
