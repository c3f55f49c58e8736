/** Compressed sparse columns: the layout, the check that admits one, and the
    matrix that a layout and its values stand for. */
module Csc {

  datatype Structure = Structure(rows: int, columns: int, offsets: seq<int>, indices: seq<int>)

  // What an admissible layout is: offsets climb from 0 to the number of entries,
  // and each column's rows are in range and strictly increasing.
  ghost predicate Valid(s: Structure) {
    && s.rows > 0 && s.columns > 0 && |s.offsets| == s.columns + 1
    && s.offsets[0] == 0 && s.offsets[s.columns] == |s.indices|
    && (forall c | 0 <= c < s.columns :: ColumnInRange(s, c) && ColumnIsOrdered(s, c))
  }

  predicate ColumnInRange(s: Structure, c: int)
    requires 0 <= c < |s.offsets| - 1
  {
    0 <= s.offsets[c] <= s.offsets[c + 1] <= |s.indices|
  }

  ghost predicate ColumnIsOrdered(s: Structure, c: int)
    requires 0 <= c < |s.offsets| - 1 && ColumnInRange(s, c)
  {
    Ordered(s.indices[s.offsets[c]..s.offsets[c + 1]], s.rows)
  }

  ghost predicate Ordered(column: seq<int>, rows: int) {
    && (forall i | 0 <= i < |column| :: 0 <= column[i] < rows)
    && (forall i, j | 0 <= i < j < |column| :: column[i] < column[j])
  }

  // The run-time check: one pass that remembers only the previous row.
  method Check(s: Structure) returns (valid: bool)
    ensures valid <==> Valid(s)
  {
    if s.rows <= 0 || s.columns <= 0 || |s.offsets| != s.columns + 1 || s.offsets[0] != 0 ||
       s.offsets[s.columns] != |s.indices| {
      return false;
    }
    for column := 0 to s.columns
      invariant forall c | 0 <= c < column :: ColumnInRange(s, c) && ColumnIsOrdered(s, c)
    {
      if !ColumnInRange(s, column) {
        return false;
      }
      var ordered := CheckColumn(s, column);
      if !ordered {
        return false;
      }
    }
    return true;
  }

  method CheckColumn(s: Structure, column: int) returns (ordered: bool)
    requires 0 <= column < |s.offsets| - 1 && ColumnInRange(s, column)
    ensures ordered <==> ColumnIsOrdered(s, column)
  {
    ghost var entries := s.indices[s.offsets[column]..s.offsets[column + 1]];
    var previous := -1;
    var offset := s.offsets[column];
    while offset < s.offsets[column + 1]
      invariant s.offsets[column] <= offset <= s.offsets[column + 1]
      invariant Ordered(entries[..offset - s.offsets[column]], s.rows)
      invariant previous == if offset == s.offsets[column] then -1 else s.indices[offset - 1]
    {
      var row := s.indices[offset];
      ghost var i := offset - s.offsets[column];
      assert entries[i] == row;
      assert i > 0 ==> entries[i - 1] == previous;
      if row < 0 || row >= s.rows || row <= previous {
        assert !Ordered(entries, s.rows);
        return false;
      }
      OrderedAppend(entries[..i], row, s.rows);
      assert entries[..i + 1] == entries[..i] + [row];
      previous := row;
      offset := offset + 1;
    }
    assert entries[..offset - s.offsets[column]] == entries;
    return true;
  }

  lemma OrderedAppend(column: seq<int>, row: int, rows: int)
    requires Ordered(column, rows) && 0 <= row < rows && (column != [] ==> column[|column| - 1] < row)
    ensures Ordered(column + [row], rows)
  {
  }

  // The matrix: an entry is the sum of the values stored for its row and column.
  function Sum(s: Structure, values: seq<real>, row: int, lo: int, hi: int): real
    requires 0 <= lo <= hi <= |s.indices| == |values|
    decreases hi
  {
    if lo == hi then 0.0 else Sum(s, values, row, lo, hi - 1) + if s.indices[hi - 1] == row then values[hi - 1] else 0.0
  }

  function Entry(s: Structure, values: seq<real>, row: int, column: int): real
    requires 0 <= column < |s.offsets| - 1 && ColumnInRange(s, column) && |values| == |s.indices|
  {
    Sum(s, values, row, s.offsets[column], s.offsets[column + 1])
  }

  lemma {:induction false} SumMisses(s: Structure, values: seq<real>, row: int, lo: int, hi: int)
    requires 0 <= lo <= hi <= |s.indices| == |values|
    requires forall o | lo <= o < hi :: s.indices[o] != row
    ensures Sum(s, values, row, lo, hi) == 0.0
    decreases hi
  {
    if lo < hi {
      SumMisses(s, values, row, lo, hi - 1);
    }
  }

  lemma {:induction false} SumHits(s: Structure, values: seq<real>, row: int, lo: int, hi: int, at: int)
    requires 0 <= lo <= at < hi <= |s.indices| == |values| && s.indices[at] == row
    requires forall o | lo <= o < hi && o != at :: s.indices[o] != row
    ensures Sum(s, values, row, lo, hi) == values[at]
    decreases hi
  {
    if at == hi - 1 {
      SumMisses(s, values, row, lo, hi - 1);
    } else {
      SumHits(s, values, row, lo, hi - 1, at);
    }
  }

  ghost predicate Stores(s: Structure, row: int, column: int)
    requires 0 <= column < |s.offsets| - 1 && ColumnInRange(s, column)
  {
    row in s.indices[s.offsets[column]..s.offsets[column + 1]]
  }

  // In a valid layout an entry is its one stored value, or zero.
  lemma EntryIsStored(s: Structure, values: seq<real>, row: int, column: int, dense: real)
    requires Valid(s) && 0 <= column < s.columns && |values| == |s.indices| && ColumnInRange(s, column)
    requires forall o | s.offsets[column] <= o < s.offsets[column + 1] && s.indices[o] == row :: values[o] == dense
    requires !Stores(s, row, column) ==> dense == 0.0
    ensures Entry(s, values, row, column) == dense
  {
    var lo, hi := s.offsets[column], s.offsets[column + 1];
    assert ColumnInRange(s, column) && ColumnIsOrdered(s, column);
    var entries := s.indices[lo..hi];
    if Stores(s, row, column) {
      var i :| 0 <= i < |entries| && entries[i] == row;
      forall o | lo <= o < hi && o != lo + i
        ensures s.indices[o] != row
      {
        assert s.indices[o] == entries[o - lo];
      }
      SumHits(s, values, row, lo, hi, lo + i);
    } else {
      forall o | lo <= o < hi
        ensures s.indices[o] != row
      {
        assert s.indices[o] == entries[o - lo];
      }
      SumMisses(s, values, row, lo, hi);
    }
  }

  // Laying columns end to end.
  ghost predicate Lays(s: Structure, columns: seq<seq<int>>) {
    && |s.offsets| == |columns| + 1 && s.offsets[0] == 0 && s.offsets[|columns|] == |s.indices|
    && (forall c | 0 <= c < |columns| :: ColumnInRange(s, c) && s.indices[s.offsets[c]..s.offsets[c + 1]] == columns[c])
  }

  lemma LayNext(s: Structure, columns: seq<seq<int>>, column: seq<int>)
    requires Lays(s, columns)
    ensures var s' := s.(indices := s.indices + column, offsets := s.offsets + [|s.indices + column|]);
            Lays(s', columns + [column])
  {
    var s' := s.(indices := s.indices + column, offsets := s.offsets + [|s.indices + column|]);
    forall c | 0 <= c < |columns + [column]|
      ensures ColumnInRange(s', c) && s'.indices[s'.offsets[c]..s'.offsets[c + 1]] == (columns + [column])[c]
    {
      if c < |columns| {
        assert ColumnInRange(s, c);
        assert s'.indices[s'.offsets[c]..s'.offsets[c + 1]] == s.indices[s.offsets[c]..s.offsets[c + 1]];
      }
    }
  }

  lemma LaidIsValid(s: Structure, columns: seq<seq<int>>)
    requires Lays(s, columns) && s.rows > 0 && s.columns == |columns| > 0
    requires forall c | 0 <= c < |columns| :: Ordered(columns[c], s.rows)
    ensures Valid(s)
  {
  }

  // std::sort followed by std::unique.
  function Insert(column: seq<int>, row: int): (inserted: seq<int>) {
    if column == [] then [row]
    else if row < column[0] then [row] + column
    else if row == column[0] then column
    else [column[0]] + Insert(column[1..], row)
  }

  function SortUnique(rows: seq<int>): seq<int> {
    if rows == [] then [] else Insert(SortUnique(rows[..|rows| - 1]), rows[|rows| - 1])
  }

  lemma {:induction false} InsertMembers(column: seq<int>, row: int)
    ensures forall r :: r in Insert(column, row) <==> r in column || r == row
  {
    if column != [] && row > column[0] {
      InsertMembers(column[1..], row);
      assert column == [column[0]] + column[1..];
    }
  }

  ghost predicate Increasing(column: seq<int>) {
    forall i, j | 0 <= i < j < |column| :: column[i] < column[j]
  }

  lemma {:induction false} InsertIncreases(column: seq<int>, row: int)
    requires Increasing(column)
    ensures Increasing(Insert(column, row))
  {
    if column != [] && row > column[0] {
      var tail := column[1..];
      InsertIncreases(tail, row);
      InsertMembers(tail, row);
      var inserted := Insert(tail, row);
      forall j | 0 <= j < |inserted|
        ensures column[0] < inserted[j]
      {
        assert inserted[j] in inserted;
        if inserted[j] != row {
          assert inserted[j] in tail;
        }
      }
    }
  }

  lemma {:induction false} SortedAndUnique(rows: seq<int>)
    ensures Increasing(SortUnique(rows))
    ensures forall r :: r in SortUnique(rows) <==> r in rows
  {
    if rows != [] {
      var init, last := rows[..|rows| - 1], rows[|rows| - 1];
      SortedAndUnique(init);
      InsertIncreases(SortUnique(init), last);
      InsertMembers(SortUnique(init), last);
      assert rows == init + [last];
    }
  }
}
