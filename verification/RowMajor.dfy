/** Row-major addressing: the flat index of a cell, and that it names one cell. */
module RowMajor {

  function Cell(width: nat, x: int, y: int): int {
    y * width + x
  }

  lemma CellInRange(width: nat, height: nat, x: int, y: int)
    requires 0 <= x < width && 0 <= y < height
    ensures 0 <= Cell(width, x, y) < width * height
  {
    assert y * width <= (height - 1) * width;
  }

  lemma RowsAscend(width: nat, y: int, y': int)
    requires y < y'
    ensures y * width + width <= y' * width
  {
    var gap := y' - y - 1;
    assert gap * width >= 0;
    assert y' * width == (y + 1 + gap) * width == y * width + width + gap * width;
  }

  lemma CellIsInjective(width: nat, x: int, y: int, x': int, y': int)
    requires 0 <= x < width && 0 <= x' < width && Cell(width, x, y) == Cell(width, x', y')
    ensures x == x' && y == y'
  {
    if y < y' {
      RowsAscend(width, y, y');
    } else if y' < y {
      RowsAscend(width, y', y);
    }
  }

  lemma CellOf(width: nat, height: nat, i: int) returns (x: int, y: int)
    requires 0 <= i < width * height
    ensures 0 <= x < width && 0 <= y < height && i == Cell(width, x, y)
  {
    x, y := i % width, i / width;
    if y >= height {
      RowsAscend(width, height - 1, y);
    }
  }
}
