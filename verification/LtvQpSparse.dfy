/** The fixed sparse layout of the LTV problem, which every cycle only refills:
    it has room for every entry the dense build can make non-zero, so nothing is lost. */
module LtvQpSparse {
  import opened Basics
  import opened LtvQpCost
  import opened LtvQpPlan
  import opened LtvQpTracking
  import opened LtvQpConstraints
  import LtvQpProblem
  import opened Csc

  // Sizes for a horizon: decision entries, and where the controls start, which is
  // also the number of equality rows.
  function Decision(h: nat): nat {
    6 * h + 3
  }

  function Start(h: nat): nat {
    3 * (h + 1)
  }

  function Rows(h: nat): nat {
    12 * h + 6
  }

  // The rows of one Hessian column on or above the diagonal.
  function HessianColumn(h: nat, c: nat): seq<int> {
    if c >= Start(h) + 3 then [c - 3, c] else [c]
  }

  ghost predicate HessianStarted(s: Structure, h: nat, n: nat, columns: seq<seq<int>>) {
    Lays(s, columns) && |columns| == n && forall c | 0 <= c < n :: columns[c] == HessianColumn(h, c)
  }

  lemma HessianNext(s: Structure, h: nat, column: nat, columns: seq<seq<int>>)
    requires HessianStarted(s, h, column, columns)
    ensures var indices := s.indices + HessianColumn(h, column);
            HessianStarted(s.(indices := indices, offsets := s.offsets + [|indices|]), h, column + 1,
                           columns + [HessianColumn(h, column)])
  {
    hide Lays, HessianColumn;
    LayNext(s, columns, HessianColumn(h, column));
  }

  lemma HessianColumnIsOrdered(h: nat, c: nat)
    requires c < Decision(h)
    ensures Ordered(HessianColumn(h, c), Decision(h))
  {
  }

  method LtvHessianPattern(h: nat) returns (s: Structure, ghost columns: seq<seq<int>>)
    requires h > 0
    ensures s.rows == s.columns == Decision(h) && HessianStarted(s, h, Decision(h), columns) && Valid(s)
  {
    s := Structure(Decision(h), Decision(h), [0], []);
    columns := [];
    assert HessianStarted(s, h, 0, columns);
    hide HessianStarted, Lays;
    for column := 0 to Decision(h)
      invariant s.rows == s.columns == Decision(h) && HessianStarted(s, h, column, columns)
    {
      HessianNext(s, h, column, columns);
      ghost var before := s.indices;
      if column >= Start(h) && column >= Start(h) + 3 {
        s := s.(indices := s.indices + [column - 3]);
      }
      s := s.(indices := s.indices + [column]);
      s := s.(offsets := s.offsets + [|s.indices|]);
      assert s.indices == before + HessianColumn(h, column);
      columns := columns + [HessianColumn(h, column)];
    }
    HessianIsLaid(s, h, columns);
  }

  lemma HessianIsLaid(s: Structure, h: nat, columns: seq<seq<int>>)
    requires h > 0 && s.rows == s.columns == Decision(h) && HessianStarted(s, h, Decision(h), columns)
    ensures Valid(s)
  {
    hide Lays, Ordered, HessianColumn;
    forall c | 0 <= c < |columns|
      ensures Ordered(columns[c], s.rows)
    {
      HessianColumnIsOrdered(h, c);
    }
    LaidIsValid(s, columns);
  }

  // The pairs that the constraint pattern touches: identity on the initial state,
  // the three blocks of each dynamics row, the two entries of each increment row,
  // and the identity of the bounds.
  predicate InitialTouch(r: int, c: int) {
    0 <= r < 3 && c == r
  }

  predicate DynamicsTouch(h: nat, k: int, r: int, c: int) {
    3 * k + 3 <= r < 3 * k + 6 && (3 * k <= c < 3 * k + 3 || Start(h) + 3 * k <= c < Start(h) + 3 * k + 3 || c == r)
  }

  predicate IncrementTouch(h: nat, k: int, r: int, c: int) {
    Start(h) + 3 * k <= r < Start(h) + 3 * k + 3 && (c == r || (k > 0 && c == r - 3))
  }

  predicate BoundTouch(h: nat, r: int, c: int) {
    r == Start(h) + 3 * h + c
  }

  predicate DynamicsUpTo(h: nat, steps: nat, r: int, c: int) {
    3 <= r < 3 * steps + 3 && DynamicsTouch(h, r / 3 - 1, r, c)
  }

  predicate IncrementsUpTo(h: nat, steps: nat, r: int, c: int) {
    Start(h) <= r < Start(h) + 3 * steps && IncrementTouch(h, (r - Start(h)) / 3, r, c)
  }

  predicate Touches(h: nat, r: int, c: int) {
    InitialTouch(r, c) || DynamicsUpTo(h, h, r, c) || IncrementsUpTo(h, h, r, c) ||
    (BoundTouch(h, r, c) && c < Decision(h))
  }


  method Add(lists: array<seq<int>>, row: int, column: int)
    requires 0 <= column < lists.Length
    modifies lists
    ensures forall c | 0 <= c < lists.Length && c != column :: lists[c] == old(lists[c])
    ensures forall r :: r in lists[column] <==> r in old(lists[column]) || r == row
  {
    lists[column] := lists[column] + [row];
  }

  // The nine-by-two and three pushes of one step of the dynamics.
  method AddDynamics(lists: array<seq<int>>, h: nat, step: nat)
    requires step < h && lists.Length == Decision(h)
    modifies lists
    ensures forall c, r | 0 <= c < lists.Length :: r in lists[c] <==> r in old(lists[c]) || DynamicsTouch(h, step, r, c)
  {
    var row, current, control := 3 * step + 3, 3 * step, Start(h) + 3 * step;
    for columnAxis := 0 to 3
      invariant forall c, r | 0 <= c < lists.Length ::
          r in lists[c] <==>
          r in old(lists[c]) ||
          (row <= r < row + 3 && (current <= c < current + columnAxis || control <= c < control + columnAxis))
    {
      ghost var before := lists[..];
      for rowAxis := 0 to 3
        invariant forall c, r | 0 <= c < lists.Length ::
            r in lists[c] <==>
            r in before[c] ||
            (row <= r < row + rowAxis && (c == current + columnAxis || c == control + columnAxis))
      {
        Add(lists, row + rowAxis, current + columnAxis);
        Add(lists, row + rowAxis, control + columnAxis);
      }
    }
    ghost var before := lists[..];
    for axis := 0 to 3
      invariant forall c, r | 0 <= c < lists.Length ::
                  r in lists[c] <==> r in before[c] || (row <= r < row + axis && c == r)
    {
      Add(lists, row + axis, row + axis);
    }
  }

  method AddIncrements(lists: array<seq<int>>, h: nat, step: nat)
    requires step < h && lists.Length == Decision(h)
    modifies lists
    ensures forall c, r | 0 <= c < lists.Length ::
              r in lists[c] <==> r in old(lists[c]) || IncrementTouch(h, step, r, c)
  {
    var row := Start(h) + 3 * step;
    for axis := 0 to 3
      invariant forall c, r | 0 <= c < lists.Length ::
          r in lists[c] <==> r in old(lists[c]) || (row <= r < row + axis && (c == r || (step > 0 && c == r - 3)))
    {
      Add(lists, row + axis, row + axis);
      if step > 0 {
        Add(lists, row + axis, row - 3 + axis);
      }
    }
  }

  method GatherRows(h: nat) returns (lists: array<seq<int>>)
    requires h > 0
    ensures fresh(lists) && lists.Length == Decision(h)
    ensures forall c, r | 0 <= c < lists.Length :: r in lists[c] <==> Touches(h, r, c)
  {
    lists := new seq<int>[Decision(h)](_ => []);
    for axis := 0 to 3
      invariant forall c, r | 0 <= c < lists.Length :: r in lists[c] <==> 0 <= r < axis && c == r
    {
      Add(lists, axis, axis);
    }
    for step := 0 to h
      invariant forall c, r | 0 <= c < lists.Length ::
                  r in lists[c] <==> InitialTouch(r, c) || DynamicsUpTo(h, step, r, c)
    {
      AddDynamics(lists, h, step);
      DynamicsNext(h, step);
    }
    for step := 0 to h
      invariant forall c, r | 0 <= c < lists.Length ::
          r in lists[c] <==> InitialTouch(r, c) || DynamicsUpTo(h, h, r, c) || IncrementsUpTo(h, step, r, c)
    {
      AddIncrements(lists, h, step);
      IncrementsNext(h, step);
    }
    for index := 0 to Decision(h)
      invariant forall c, r | 0 <= c < lists.Length ::
          r in lists[c] <==>
          InitialTouch(r, c) || DynamicsUpTo(h, h, r, c) || IncrementsUpTo(h, h, r, c) ||
          (BoundTouch(h, r, c) && c < index)
    {
      Add(lists, Start(h) + 3 * h + index, index);
    }
  }

  lemma DynamicsNext(h: nat, step: nat)
    ensures forall r, c ::
              DynamicsUpTo(h, step + 1, r, c) <==> DynamicsUpTo(h, step, r, c) || DynamicsTouch(h, step, r, c)
  {
  }

  lemma IncrementsNext(h: nat, step: nat)
    ensures forall r, c ::
              IncrementsUpTo(h, step + 1, r, c) <==> IncrementsUpTo(h, step, r, c) || IncrementTouch(h, step, r, c)
  {
  }

  // Exactly the touched rows, in increasing order.
  ghost predicate HoldsTouched(h: nat, c: nat, column: seq<int>) {
    Increasing(column) && forall r :: r in column <==> Touches(h, r, c)
  }

  lemma TouchedIsOrdered(h: nat, c: nat, column: seq<int>)
    requires c < Decision(h) && HoldsTouched(h, c, column)
    ensures Ordered(column, Rows(h))
  {
    forall i | 0 <= i < |column|
      ensures 0 <= column[i] < Rows(h)
    {
      assert column[i] in column;
    }
  }

  lemma SortedIsTouched(h: nat, c: nat, list: seq<int>)
    requires forall r :: r in list <==> Touches(h, r, c)
    ensures HoldsTouched(h, c, SortUnique(list))
  {
    hide Touches;
    SortedAndUnique(list);
  }

  method LtvConstraintPattern(h: nat) returns (s: Structure, ghost columns: seq<seq<int>>)
    requires h > 0
    ensures s.rows == Rows(h) && s.columns == Decision(h) && Valid(s) && Lays(s, columns) && |columns| == Decision(h)
    ensures forall c | 0 <= c < Decision(h) :: HoldsTouched(h, c, columns[c])
  {
    hide Touches, HoldsTouched, SortUnique, Ordered;
    var lists := GatherRows(h);
    var gathered := lists[..];
    assert forall c, r | 0 <= c < |gathered| :: r in gathered[c] <==> Touches(h, r, c);
    s := Structure(Rows(h), Decision(h), [0], []);
    columns := [];
    assert Lays(s, columns);
    hide Lays;
    for column := 0 to Decision(h)
      invariant s.rows == Rows(h) && s.columns == Decision(h) && Lays(s, columns) && |columns| == column
      invariant forall c | 0 <= c < column :: HoldsTouched(h, c, columns[c])
    {
      var rows := SortUnique(gathered[column]);
      SortedIsTouched(h, column, gathered[column]);
      LayNext(s, columns, rows);
      s := s.(indices := s.indices + rows, offsets := s.offsets + [|s.indices + rows|]);
      columns := columns + [rows];
    }
    forall c | 0 <= c < Decision(h)
      ensures Ordered(columns[c], Rows(h))
    {
      TouchedIsOrdered(h, c, columns[c]);
    }
    LaidIsValid(s, columns);
  }

  // The dense stack that the layout replaces.
  function StackEntry(plan: Plan, r: nat, c: nat): real {
    var h := plan.Horizon();
    if r < Start(h) then EqualityEntry(plan, r, c)
    else if r < Start(h) + 3 * h then InequalityEntry(plan, r - Start(h), c)
    else if r - Start(h) - 3 * h == c then 1.0 else 0.0
  }

  lemma EqualityIsCovered(plan: Plan, r: nat, c: nat)
    requires r < Start(plan.Horizon()) && c < Decision(plan.Horizon()) && EqualityEntry(plan, r, c) != 0.0
    ensures Touches(plan.Horizon(), r, c)
  {
    hide StateJacobian, ControlJacobian;
    if r >= 3 {
      var k := r / 3 - 1;
      assert r == 3 * (k + 1) + r % 3;
    }
  }

  lemma InequalityIsCovered(plan: Plan, r: nat, c: nat)
    requires r < 3 * plan.Horizon() && c < Decision(plan.Horizon()) && InequalityEntry(plan, r, c) != 0.0
    ensures Touches(plan.Horizon(), r + Start(plan.Horizon()), c)
  {
    var k := r / 3;
    assert r == 3 * k + r % 3;
  }

  // No entry that the build can make non-zero is outside the constraint pattern.
  lemma StackIsCovered(plan: Plan, r: nat, c: nat)
    requires r < Rows(plan.Horizon()) && c < Decision(plan.Horizon()) && StackEntry(plan, r, c) != 0.0
    ensures Touches(plan.Horizon(), r, c)
  {
    var h := plan.Horizon();
    if r < Start(h) {
      EqualityIsCovered(plan, r, c);
    } else if r < Start(h) + 3 * h {
      InequalityIsCovered(plan, r - Start(h), c);
    }
  }

  predicate Banded(t: Term, h: nat) {
    t.Pair? ==> t.j >= Start(h) && t.i == t.j + 3
  }

  ghost predicate AllBanded(terms: seq<Term>, h: nat) {
    forall k | 0 <= k < |terms| :: Banded(terms[k], h)
  }

  lemma {:induction false} BandedHessian(terms: seq<Term>, h: nat, r: nat, c: nat)
    requires AllBanded(terms, h) && r <= c && r != c && !(c >= Start(h) + 3 && r == c - 3)
    ensures Hessian(terms, r, c) == 0.0
  {
    if terms != [] {
      BandedHessian(terms[..|terms| - 1], h, r, c);
      assert Banded(terms[|terms| - 1], h);
    }
  }

  lemma {:induction false} StagesAreBanded(plan: Plan, n: nat)
    requires n <= plan.Horizon()
    ensures AllBanded(StagesTerms(plan, n), plan.Horizon())
  {
    if n > 0 {
      StagesAreBanded(plan, n - 1);
      hide StagesTerms;
      assert AllBanded(StageTerms(plan, n - 1), plan.Horizon());
      assert StagesTerms(plan, n) == StagesTerms(plan, n - 1) + StageTerms(plan, n - 1) by {
        StagesUnfold(plan, n);
      }
    }
  }

  lemma StagesUnfold(plan: Plan, n: nat)
    requires 0 < n <= plan.Horizon()
    ensures StagesTerms(plan, n) == StagesTerms(plan, n - 1) + StageTerms(plan, n - 1)
  {
  }

  // Nor outside the Hessian pattern, on and above the diagonal.
  lemma HessianIsCovered(plan: Plan, r: nat, c: nat)
    requires r <= c && Hessian(AllTerms(plan), r, c) != 0.0
    ensures r in HessianColumn(plan.Horizon(), c)
  {
    StagesAreBanded(plan, plan.Horizon());
    hide StagesTerms;
    assert AllBanded(AllTerms(plan), plan.Horizon());
    if r != c && !(c >= Start(plan.Horizon()) + 3 && r == c - 3) {
      BandedHessian(AllTerms(plan), plan.Horizon(), r, c);
    }
  }

  // Entry o of the layout belongs to column c.
  ghost predicate InColumn(s: Structure, o: int, c: int) {
    && 0 <= c < |s.offsets| - 1 && 0 <= s.offsets[c] <= o < s.offsets[c + 1] <= |s.indices| &&
       0 <= s.indices[o] < s.rows
  }

  lemma ColumnsAreDisjoint(s: Structure, o: int, c: int, d: int)
    requires Valid(s) && InColumn(s, o, c) && InColumn(s, o, d)
    ensures c == d
  {
    if c < d {
      OffsetsClimb(s, c + 1, d);
    } else if d < c {
      OffsetsClimb(s, d + 1, c);
    }
  }

  lemma {:induction false} OffsetsClimb(s: Structure, c: int, d: int)
    requires Valid(s) && 0 <= c <= d <= s.columns
    ensures s.offsets[c] <= s.offsets[d]
    decreases d
  {
    if c < d {
      OffsetsClimb(s, c, d - 1);
      assert ColumnInRange(s, d - 1);
    }
  }

  lemma EntryIsInColumn(s: Structure, o: int, c: int)
    requires Valid(s) && 0 <= c < s.columns && s.offsets[c] <= o < s.offsets[c + 1]
    ensures InColumn(s, o, c)
  {
    assert ColumnInRange(s, c) && ColumnIsOrdered(s, c);
    assert s.indices[s.offsets[c]..s.offsets[c + 1]][o - s.offsets[c]] == s.indices[o];
  }

  // The first `count` stored values are those of the dense Hessian.
  ghost predicate HessianFilled(s: Structure, values: array<real>, h: array2<real>, count: int)
    reads values, h
  {
    && values.Length == |s.indices| && h.Length0 == h.Length1 == s.rows == s.columns
    && (forall o, c | InColumn(s, o, c) && o < count && c < s.columns :: values[o] == h[s.indices[o], c])
  }

  method CopyHessian(s: Structure, h: array2<real>, values: array<real>)
    requires Valid(s) && h.Length0 == h.Length1 == s.rows == s.columns && values.Length == |s.indices|
    modifies values
    ensures HessianFilled(s, values, h, |s.indices|)
  {
    for column := 0 to s.columns
      invariant HessianFilled(s, values, h, s.offsets[column])
    {
      assert ColumnInRange(s, column);
      var offset := s.offsets[column];
      while offset < s.offsets[column + 1]
        invariant s.offsets[column] <= offset <= s.offsets[column + 1]
        invariant HessianFilled(s, values, h, offset)
      {
        EntryIsInColumn(s, offset, column);
        values[offset] := h[s.indices[offset], column];
        forall c | InColumn(s, offset, c)
          ensures c == column
        {
          ColumnsAreDisjoint(s, offset, c, column);
        }
        offset := offset + 1;
      }
    }
  }

  // One row of the stack: equality, then inequality, then identity.
  function ConstraintValue(equality: array2<real>, inequality: array2<real>, row: int, column: int): real
    requires equality.Length1 == inequality.Length1 && 0 <= row && 0 <= column < equality.Length1
    reads equality, inequality
  {
    if row < equality.Length0 then equality[row, column]
    else if row < equality.Length0 + inequality.Length0 then inequality[row - equality.Length0, column]
    else if row - equality.Length0 - inequality.Length0 == column then 1.0 else 0.0
  }

  ghost predicate ConstraintsFilled(s: Structure, values: array<real>, equality: array2<real>, inequality: array2<real>,
                                    count: int)
    reads values, equality, inequality
  {
    && values.Length == |s.indices| && equality.Length1 == inequality.Length1 == s.columns
    && (forall o, c | InColumn(s, o, c) && o < count && c < s.columns ::
          values[o] == ConstraintValue(equality, inequality, s.indices[o], c))
  }

  method CopyConstraints(s: Structure, equality: array2<real>, inequality: array2<real>, values: array<real>)
    requires Valid(s) && equality.Length1 == inequality.Length1 == s.columns && values.Length == |s.indices|
    modifies values
    ensures ConstraintsFilled(s, values, equality, inequality, |s.indices|)
  {
    hide ConstraintValue;
    for column := 0 to s.columns
      invariant ConstraintsFilled(s, values, equality, inequality, s.offsets[column])
    {
      assert ColumnInRange(s, column);
      var offset := s.offsets[column];
      while offset < s.offsets[column + 1]
        invariant s.offsets[column] <= offset <= s.offsets[column + 1]
        invariant ConstraintsFilled(s, values, equality, inequality, offset)
      {
        EntryIsInColumn(s, offset, column);
        values[offset] := ConstraintValue(equality, inequality, s.indices[offset], column);
        forall c | InColumn(s, offset, c)
          ensures c == column
        {
          ColumnsAreDisjoint(s, offset, c, column);
        }
        offset := offset + 1;
      }
    }
  }

  // Expanding the copied Hessian gives back its upper triangle.
  lemma HessianIsRestored(plan: Plan, s: Structure, columns: seq<seq<int>>, values: array<real>, h: array2<real>,
                          g: array<real>,
                          r: nat, c: nat)
    requires Holds(h, g, plan.Size(), AllTerms(plan)) && r < plan.Size() && c < plan.Size()
    requires Valid(s) && s.rows == s.columns == plan.Size() && HessianStarted(s, plan.Horizon(), plan.Size(), columns)
    requires HessianFilled(s, values, h, |s.indices|)
    ensures ColumnInRange(s, c) && Entry(s, values[..], r, c) == if r <= c then h[r, c] else 0.0
  {
    hide AllTerms, Sum;
    assert ColumnInRange(s, c) && columns[c] == HessianColumn(plan.Horizon(), c);
    assert s.indices[s.offsets[c]..s.offsets[c + 1]] == columns[c];
    var dense := if r <= c then h[r, c] else 0.0;
    forall o | s.offsets[c] <= o < s.offsets[c + 1] && s.indices[o] == r
      ensures values[..][o] == dense
    {
      EntryIsInColumn(s, o, c);
      assert s.indices[o] == columns[c][o - s.offsets[c]];
    }
    if dense != 0.0 {
      HessianIsCovered(plan, r, c);
    }
    EntryIsStored(s, values[..], r, c, dense);
  }

  // Expanding the copied constraints gives back the whole dense stack.
  lemma ConstraintsAreRestored(plan: Plan, s: Structure, columns: seq<seq<int>>, values: array<real>,
                               equality: array2<real>, inequality: array2<real>, r: nat, c: nat)
    requires LtvQpProblem.EqualityRows(equality, plan, equality.Length0) &&
             LtvQpProblem.InequalityRows(inequality, plan, inequality.Length0)
    requires Valid(s) && s.rows == Rows(plan.Horizon()) && s.columns == plan.Size() == |columns| && Lays(s, columns)
    requires r < Rows(plan.Horizon()) && c < plan.Size() && HoldsTouched(plan.Horizon(), c, columns[c])
    requires ConstraintsFilled(s, values, equality, inequality, |s.indices|)
    ensures ColumnInRange(s, c) &&
            Entry(s, values[..], r, c) == ConstraintValue(equality, inequality, r, c) == StackEntry(plan, r, c)
  {
    hide Sum, Touches, EqualityEntry, InequalityEntry;
    var dense := ConstraintValue(equality, inequality, r, c);
    assert dense == StackEntry(plan, r, c);
    hide LtvQpProblem.EqualityRows, LtvQpProblem.InequalityRows, ConstraintValue, StackEntry;
    assert ColumnInRange(s, c) && s.indices[s.offsets[c]..s.offsets[c + 1]] == columns[c];
    forall o | s.offsets[c] <= o < s.offsets[c + 1] && s.indices[o] == r
      ensures values[..][o] == dense
    {
      EntryIsInColumn(s, o, c);
    }
    if dense != 0.0 {
      StackIsCovered(plan, r, c);
    }
    EntryIsStored(s, values[..], r, c, dense);
  }
}
