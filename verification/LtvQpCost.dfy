/** The quadratic cost of the LTV problem: each penalty is a weighted square of a
    decision entry, or of the difference of two, plus a constant. */
module LtvQpCost {

  datatype Term =
    | Single(i: nat, weight: real, error: real)
    | Pair(i: nat, j: nat, weight: real, error: real)

  predicate InRange(t: Term, n: nat) {
    t.i < n && (t.Pair? ==> t.j < n && t.i != t.j)
  }

  predicate AllInRange(terms: seq<Term>, n: nat) {
    forall k | 0 <= k < |terms| :: InRange(terms[k], n)
  }

  // What a term adds to the Hessian and to the gradient.
  function HessianOf(t: Term, r: nat, c: nat): real {
    match t
    case Single(i, w, _) => if r == i && c == i then 2.0 * w else 0.0
    case Pair(i, j, w, _) => Coupling(i, j, 2.0 * w, r, c)
  }

  function Coupling(i: nat, j: nat, d: real, r: nat, c: nat): real {
    if r == c && (r == i || r == j) then d
    else if (r == i && c == j) || (r == j && c == i) then -d
    else 0.0
  }

  function GradientOf(t: Term, r: nat): real {
    match t
    case Single(i, w, e) => if r == i then 2.0 * w * e else 0.0
    case Pair(i, j, w, e) => if r == i then 2.0 * w * e else if r == j then -2.0 * w * e else 0.0
  }

  function Hessian(terms: seq<Term>, r: nat, c: nat): real {
    if terms == [] then 0.0 else Hessian(terms[..|terms| - 1], r, c) + HessianOf(terms[|terms| - 1], r, c)
  }

  function Gradient(terms: seq<Term>, r: nat): real {
    if terms == [] then 0.0 else Gradient(terms[..|terms| - 1], r) + GradientOf(terms[|terms| - 1], r)
  }

  ghost predicate Holds(h: array2<real>, g: array<real>, n: nat, terms: seq<Term>)
    reads h, g
  {
    && h.Length0 == n && h.Length1 == n && g.Length == n
    && (forall r, c | 0 <= r < n && 0 <= c < n :: h[r, c] == Hessian(terms, r, c))
    && (forall r | 0 <= r < n :: g[r] == Gradient(terms, r))
  }

  lemma AppendTerm(terms: seq<Term>, t: Term)
    ensures forall r, c :: Hessian(terms + [t], r, c) == Hessian(terms, r, c) + HessianOf(t, r, c)
    ensures forall r :: Gradient(terms + [t], r) == Gradient(terms, r) + GradientOf(t, r)
  {
    assert (terms + [t])[..|terms|] == terms;
  }

  method AddSingle(h: array2<real>, g: array<real>, n: nat, i: nat, weight: real, error: real, ghost terms: seq<Term>)
    requires Holds(h, g, n, terms) && i < n
    modifies h, g
    ensures Holds(h, g, n, terms + [Single(i, weight, error)])
  {
    AppendTerm(terms, Single(i, weight, error));
    h[i, i] := h[i, i] + 2.0 * weight;
    g[i] := g[i] + 2.0 * weight * error;
  }

  method AddCoupling(h: array2<real>, i: nat, j: nat, d: real)
    requires i < h.Length0 == h.Length1 && j < h.Length0 && i != j
    modifies h
    ensures forall r, c | 0 <= r < h.Length0 && 0 <= c < h.Length1 :: h[r, c] == old(h[r, c]) + Coupling(i, j, d, r, c)
  {
    h[i, i] := h[i, i] + d;
    h[j, j] := h[j, j] + d;
    h[i, j] := h[i, j] - d;
    h[j, i] := h[j, i] - d;
  }

  method AddPair(h: array2<real>, g: array<real>, n: nat, i: nat, j: nat, weight: real, error: real,
                 ghost terms: seq<Term>)
    requires Holds(h, g, n, terms) && i < n && j < n && i != j
    modifies h, g
    ensures Holds(h, g, n, terms + [Pair(i, j, weight, error)])
  {
    AppendTerm(terms, Pair(i, j, weight, error));
    hide Hessian, Gradient, Coupling;
    g[i] := g[i] + 2.0 * weight * error;
    g[j] := g[j] - 2.0 * weight * error;
    AddCoupling(h, i, j, 2.0 * weight);
  }

  // The value of a term at a decision, and its deviation.
  function Deviation(t: Term, z: seq<real>): real
    requires InRange(t, |z|)
  {
    if t.Single? then z[t.i] else z[t.i] - z[t.j]
  }

  function Weigh(weight: real, x: real): real {
    weight * (x * x)
  }

  function Penalty(t: Term, z: seq<real>): real
    requires InRange(t, |z|)
  {
    Weigh(t.weight, t.error + Deviation(t, z))
  }

  function Cost(terms: seq<Term>, z: seq<real>): real
    requires AllInRange(terms, |z|)
  {
    if terms == [] then 0.0 else Cost(terms[..|terms| - 1], z) + Penalty(terms[|terms| - 1], z)
  }

  function Origin(n: nat): (z: seq<real>)
    ensures |z| == n && forall i | 0 <= i < n :: z[i] == 0.0
  {
    seq(n, _ => 0.0)
  }

  function Times(a: real, x: real): real {
    a * x
  }

  // The matrix forms, summed entry by entry: row r of H times z, then zᵀHz, and gᵀz.
  function RowForm(terms: seq<Term>, r: nat, m: nat, z: seq<real>): real
    requires m <= |z|
  {
    if m == 0 then 0.0 else RowForm(terms, r, m - 1, z) + Times(Hessian(terms, r, m - 1), z[m - 1])
  }

  function QuadraticForm(terms: seq<Term>, m: nat, z: seq<real>): real
    requires m <= |z|
  {
    if m == 0 then 0.0 else QuadraticForm(terms, m - 1, z) + Times(RowForm(terms, m - 1, |z|, z), z[m - 1])
  }

  function LinearForm(terms: seq<Term>, m: nat, z: seq<real>): real
    requires m <= |z|
  {
    if m == 0 then 0.0 else LinearForm(terms, m - 1, z) + Times(Gradient(terms, m - 1), z[m - 1])
  }

  // One term's share of each sum, in closed form.
  function RowShare(t: Term, r: nat, m: nat, z: seq<real>): real
    requires m <= |z| && InRange(t, |z|)
  {
    match t
    case Single(i, w, _) => if r == i && i < m then 2.0 * w * z[i] else 0.0
    case Pair(i, j, w, _) =>
      if r == i then (if i < m then 2.0 * w * z[i] else 0.0) - (if j < m then 2.0 * w * z[j] else 0.0)
      else if r == j then (if j < m then 2.0 * w * z[j] else 0.0) - (if i < m then 2.0 * w * z[i] else 0.0)
      else 0.0
  }

  lemma RowShareStep(t: Term, r: nat, m: nat, z: seq<real>)
    requires m < |z| && InRange(t, |z|)
    ensures RowShare(t, r, m + 1, z) == RowShare(t, r, m, z) + Times(HessianOf(t, r, m), z[m])
  {
  }

  lemma {:induction false} RowFormAppend(terms: seq<Term>, t: Term, r: nat, m: nat, z: seq<real>)
    requires m <= |z| && InRange(t, |z|)
    ensures RowForm(terms + [t], r, m, z) == RowForm(terms, r, m, z) + RowShare(t, r, m, z)
  {
    if m > 0 {
      hide RowShare, Hessian, HessianOf, Times;
      RowFormAppend(terms, t, r, m - 1, z);
      RowShareStep(t, r, m - 1, z);
      AppendTerm(terms, t);
      Distribute(Hessian(terms, r, m - 1), HessianOf(t, r, m - 1), z[m - 1]);
    }
  }

  lemma Distribute(a: real, b: real, x: real)
    ensures Times(a + b, x) == Times(a, x) + Times(b, x)
  {
  }

  function QuadraticShare(t: Term, m: nat, z: seq<real>): real
    requires m <= |z| && InRange(t, |z|)
  {
    if m == 0 then 0.0 else QuadraticShare(t, m - 1, z) + Times(RowShare(t, m - 1, |z|, z), z[m - 1])
  }

  lemma {:induction false} QuadraticFormAppend(terms: seq<Term>, t: Term, m: nat, z: seq<real>)
    requires m <= |z| && InRange(t, |z|)
    ensures QuadraticForm(terms + [t], m, z) == QuadraticForm(terms, m, z) + QuadraticShare(t, m, z)
  {
    hide RowShare, RowForm, Times, InRange;
    if m > 0 {
      QuadraticFormAppend(terms, t, m - 1, z);
      RowFormAppend(terms, t, m - 1, |z|, z);
      Distribute(RowForm(terms, m - 1, |z|, z), RowShare(t, m - 1, |z|, z), z[m - 1]);
    }
  }

  // Only the rows the term names contribute.
  function Partial(t: Term, m: nat, z: seq<real>): real
    requires m <= |z| && InRange(t, |z|)
  {
    match t
    case Single(i, w, _) => if i < m then z[i] * (2.0 * w * z[i]) else 0.0
    case Pair(i, j, w, _) =>
      (if i < m then z[i] * (2.0 * w * z[i] - 2.0 * w * z[j]) else 0.0) +
      (if j < m then z[j] * (2.0 * w * z[j] - 2.0 * w * z[i]) else 0.0)
  }

  lemma PartialStep(t: Term, m: nat, z: seq<real>)
    requires m < |z| && InRange(t, |z|)
    ensures Partial(t, m + 1, z) == Partial(t, m, z) + Times(RowShare(t, m, |z|, z), z[m])
  {
    Commute(z[m], RowShare(t, m, |z|, z));
    match t {
      case Single(i, w, _) => assert Times(0.0, z[m]) == 0.0;
      case Pair(i, j, w, _) => assert Times(0.0, z[m]) == 0.0;
    }
  }

  lemma Commute(a: real, b: real)
    ensures a * b == Times(b, a)
  {
  }

  lemma {:induction false} QuadraticShareIsPartial(t: Term, m: nat, z: seq<real>)
    requires m <= |z| && InRange(t, |z|)
    ensures QuadraticShare(t, m, z) == Partial(t, m, z)
  {
    if m == 0 {
      assert Partial(t, 0, z) == 0.0;
    } else {
      QuadraticShareIsPartial(t, m - 1, z);
      hide Partial, RowShare, Times;
      PartialStep(t, m - 1, z);
    }
  }

  lemma PairSquare(w: real, x: real, y: real)
    ensures x * (2.0 * w * x - 2.0 * w * y) + y * (2.0 * w * y - 2.0 * w * x) == 2.0 * Weigh(w, x - y)
  {
    var d := x - y;
    calc {
      x * (2.0 * w * x - 2.0 * w * y) + y * (2.0 * w * y - 2.0 * w * x);
      x * (2.0 * w * d) - y * (2.0 * w * d);
      2.0 * w * (d * d);
    }
  }

  lemma QuadraticShareIsSquare(t: Term, z: seq<real>)
    requires InRange(t, |z|)
    ensures QuadraticShare(t, |z|, z) == 2.0 * Weigh(t.weight, Deviation(t, z))
  {
    QuadraticShareIsPartial(t, |z|, z);
    match t {
      case Single(i, w, _) =>
        var x := z[i];
        assert x * (2.0 * w * x) == 2.0 * (w * (x * x));
      case Pair(i, j, w, _) =>
        hide Weigh;
        PairSquare(w, z[i], z[j]);
    }
  }

  function LinearShare(t: Term, m: nat, z: seq<real>): real
    requires m <= |z| && InRange(t, |z|)
  {
    match t
    case Single(i, w, e) => if i < m then 2.0 * w * e * z[i] else 0.0
    case Pair(i, j, w, e) => (if i < m then 2.0 * w * e * z[i] else 0.0) - (if j < m then 2.0 * w * e * z[j] else 0.0)
  }

  lemma {:induction false} LinearFormAppend(terms: seq<Term>, t: Term, m: nat, z: seq<real>)
    requires m <= |z| && InRange(t, |z|)
    ensures LinearForm(terms + [t], m, z) == LinearForm(terms, m, z) + LinearShare(t, m, z)
  {
    if m > 0 {
      LinearFormAppend(terms, t, m - 1, z);
      AppendTerm(terms, t);
      LinearShareStep(t, m - 1, z);
      hide LinearShare, Gradient, GradientOf, Times;
      Distribute(Gradient(terms, m - 1), GradientOf(t, m - 1), z[m - 1]);
    }
  }

  lemma LinearShareStep(t: Term, m: nat, z: seq<real>)
    requires m < |z| && InRange(t, |z|)
    ensures LinearShare(t, m + 1, z) == LinearShare(t, m, z) + Times(GradientOf(t, m), z[m])
  {
  }

  lemma Complete(w: real, e: real, d: real)
    ensures Weigh(w, d) + 2.0 * w * e * d == Weigh(w, e + d) - Weigh(w, e)
  {
    calc {
      w * ((e + d) * (e + d)) - w * (e * e);
      w * ((e + d) * (e + d) - e * e);
      w * (2.0 * (e * d) + d * d);
      w * (d * d) + 2.0 * w * e * d;
    }
  }

  lemma LinearShareIsProduct(t: Term, z: seq<real>)
    requires InRange(t, |z|)
    ensures LinearShare(t, |z|, z) == 2.0 * t.weight * t.error * Deviation(t, z)
  {
  }

  // The share of one term in both forms is its change from the origin.
  lemma TermIsItsChange(t: Term, z: seq<real>)
    requires InRange(t, |z|)
    ensures 0.5 * QuadraticShare(t, |z|, z) + LinearShare(t, |z|, z) == Penalty(t, z) - Penalty(t, Origin(|z|))
  {
    hide Weigh, QuadraticShare, LinearShare;
    QuadraticShareIsSquare(t, z);
    LinearShareIsProduct(t, z);
    Complete(t.weight, t.error, Deviation(t, z));
    assert t.error + Deviation(t, Origin(|z|)) == t.error;
  }

  // The assembled problem is the tracking cost: its matrices give, at every
  // decision, the change of the cost from the nominal trajectory.
  lemma {:induction false} FormsAreTheCostChange(terms: seq<Term>, z: seq<real>)
    requires AllInRange(terms, |z|)
    ensures 0.5 * QuadraticForm(terms, |z|, z) + LinearForm(terms, |z|, z) == Cost(terms, z) - Cost(terms, Origin(|z|))
  {
    if terms == [] {
      EmptyForms(|z|, z);
    } else {
      var init, t := terms[..|terms| - 1], terms[|terms| - 1];
      assert terms == init + [t];
      assert InRange(t, |z|);
      FormsAreTheCostChange(init, z);
      QuadraticFormAppend(init, t, |z|, z);
      LinearFormAppend(init, t, |z|, z);
      hide QuadraticShare, LinearShare, Penalty, QuadraticForm, LinearForm;
      TermIsItsChange(t, z);
    }
  }

  lemma {:induction false} EmptyForms(m: nat, z: seq<real>)
    requires m <= |z|
    ensures QuadraticForm([], m, z) == 0.0 && LinearForm([], m, z) == 0.0
  {
    if m > 0 {
      EmptyForms(m - 1, z);
      EmptyRow(m - 1, |z|, z);
    }
  }

  lemma {:induction false} EmptyRow(r: nat, m: nat, z: seq<real>)
    requires m <= |z|
    ensures RowForm([], r, m, z) == 0.0
  {
    if m > 0 {
      EmptyRow(r, m - 1, z);
    }
  }

  predicate Weighted(terms: seq<Term>) {
    forall k | 0 <= k < |terms| :: terms[k].weight >= 0.0
  }

  lemma WeightedSquare(w: real, d: real)
    requires w >= 0.0
    ensures Weigh(w, d) >= 0.0
  {
    assert d * d >= 0.0;
  }

  // Convexity: the Hessian is positive semidefinite and symmetric.
  lemma {:induction false} HessianIsConvex(terms: seq<Term>, z: seq<real>)
    requires AllInRange(terms, |z|) && Weighted(terms)
    ensures QuadraticForm(terms, |z|, z) >= 0.0
  {
    if terms == [] {
      EmptyForms(|z|, z);
    } else {
      var init, t := terms[..|terms| - 1], terms[|terms| - 1];
      assert terms == init + [t];
      assert InRange(t, |z|);
      HessianIsConvex(init, z);
      hide QuadraticForm, QuadraticShare, Weigh;
      QuadraticFormAppend(init, t, |z|, z);
      QuadraticShareIsSquare(t, z);
      WeightedSquare(t.weight, Deviation(t, z));
    }
  }

  lemma {:induction false} HessianIsSymmetric(terms: seq<Term>, r: nat, c: nat)
    ensures Hessian(terms, r, c) == Hessian(terms, c, r)
  {
    if terms != [] {
      HessianIsSymmetric(terms[..|terms| - 1], r, c);
    }
  }
}
