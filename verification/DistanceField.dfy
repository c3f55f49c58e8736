/** The two-dimensional exact distance transform over a row-major mask, its
    blocked-border form, and the signed field built from both. */
module DistanceField {
  import opened Basics
  import opened DistanceTransform
  import opened RowMajor

  predicate IsMask(mask: seq<bool>, width: nat, height: nat) {
    |mask| == width * height
  }

  // The seed at (x, y) of a mask that covers the grid.
  predicate Seeded(mask: seq<bool>, width: nat, height: nat, x: int, y: int)
    requires IsMask(mask, width, height)
  {
    0 <= x < width && 0 <= y < height && (CellInRange(width, height, x, y); mask[Cell(width, x, y)])
  }

  function SquaredGap(x: int, y: int, sx: int, sy: int): real {
    Square(x as real - sx as real) + Square(y as real - sy as real)
  }

  // The brute-force specification: the least squared distance to a seed, or
  // infinity when there is none.
  ghost predicate IsNearest(mask: seq<bool>, width: nat, height: nat, x: int, y: int, d: Extended)
    requires IsMask(mask, width, height)
  {
    && (forall sx, sy | Seeded(mask, width, height, sx, sy) :: d.Fin? && d.value <= SquaredGap(x, y, sx, sy))
    && (d.Fin? ==> exists sx, sy :: Seeded(mask, width, height, sx, sy) && d.value == SquaredGap(x, y, sx, sy))
    && d != MinusInfinity
  }

  function RowInput(mask: seq<bool>, width: nat, height: nat, y: int): (f: seq<Extended>)
    requires IsMask(mask, width, height) && 0 <= y < height
    ensures |f| == width
    ensures forall x | 0 <= x < width :: f[x] == if Seeded(mask, width, height, x, y) then Fin(0.0) else PlusInfinity
  {
    seq(width, x requires 0 <= x < width => if Seeded(mask, width, height, x, y) then Fin(0.0) else PlusInfinity)
  }

  // What the row pass leaves at (x, y).
  function RowPass(mask: seq<bool>, width: nat, height: nat, x: int, y: int): Extended
    requires IsMask(mask, width, height) && 0 <= y < height
  {
    Envelope(RowInput(mask, width, height, y), width, x as real)
  }

  function ColumnInput(mask: seq<bool>, width: nat, height: nat, x: int): (f: seq<Extended>)
    requires IsMask(mask, width, height)
    ensures |f| == height
    ensures forall y | 0 <= y < height :: f[y] == RowPass(mask, width, height, x, y)
  {
    seq(height, y requires 0 <= y < height => RowPass(mask, width, height, x, y))
  }

  function ColumnPass(mask: seq<bool>, width: nat, height: nat, x: int, y: int): Extended
    requires IsMask(mask, width, height)
  {
    Envelope(ColumnInput(mask, width, height, x), height, y as real)
  }

  // The row pass is the least squared distance within the row.
  lemma RowPassIsNearestInRow(mask: seq<bool>, width: nat, height: nat, x: int, y: int)
    requires IsMask(mask, width, height) && 0 <= y < height
    ensures RowPass(mask, width, height, x, y) != MinusInfinity
    ensures forall sx | Seeded(mask, width, height, sx, y) ::
              RowPass(mask, width, height, x, y).Fin? &&
              RowPass(mask, width, height, x, y).value <= Square(x as real - sx as real)
    ensures RowPass(mask, width, height, x, y).Fin? ==>
              exists sx :: Seeded(mask, width, height, sx, y) &&
                           RowPass(mask, width, height, x, y).value == Square(x as real - sx as real)
  {
    hide Square;
    var f := RowInput(mask, width, height, y);
    EnvelopeIsMinimum(f, width, x as real);
    forall sx | Seeded(mask, width, height, sx, y)
      ensures RowPass(mask, width, height, x, y).Fin? &&
              RowPass(mask, width, height, x, y).value <= Square(x as real - sx as real)
    {
      assert Parabola(f, sx, x as real) == Square(x as real - sx as real) + 0.0;
    }
    if RowPass(mask, width, height, x, y).Fin? {
      var sx :| 0 <= sx < width && f[sx].Fin? && Envelope(f, width, x as real).value == Parabola(f, sx, x as real);
      assert Seeded(mask, width, height, sx, y);
    }
  }

  // Separability: the column pass over the row pass is the planar minimum.
  lemma ColumnPassIsNearest(mask: seq<bool>, width: nat, height: nat, x: int, y: int)
    requires IsMask(mask, width, height)
    ensures IsNearest(mask, width, height, x, y, ColumnPass(mask, width, height, x, y))
  {
    hide Square, RowPass;
    var f := ColumnInput(mask, width, height, x);
    var d := ColumnPass(mask, width, height, x, y);
    EnvelopeIsMinimum(f, height, y as real);
    forall sx, sy | Seeded(mask, width, height, sx, sy)
      ensures d.Fin? && d.value <= SquaredGap(x, y, sx, sy)
    {
      RowPassIsNearestInRow(mask, width, height, x, sy);
      assert d.value <= Parabola(f, sy, y as real);
    }
    if d.Fin? {
      var sy :| 0 <= sy < height && f[sy].Fin? && d.value == Parabola(f, sy, y as real);
      RowPassIsNearestInRow(mask, width, height, x, sy);
      var sx :| Seeded(mask, width, height, sx, sy) &&
        RowPass(mask, width, height, x, sy).value == Square(x as real - sx as real);
      assert d.value == SquaredGap(x, y, sx, sy);
    }
  }

  // The specification determines the field.
  lemma NearestIsUnique(mask: seq<bool>, width: nat, height: nat, x: int, y: int, d: Extended, e: Extended)
    requires IsMask(mask, width, height)
    requires IsNearest(mask, width, height, x, y, d) && IsNearest(mask, width, height, x, y, e)
    ensures d == e
  {
    hide SquaredGap;
  }

  // More seeds never move a cell farther away.
  lemma MoreSeedsAreNearer(mask: seq<bool>, more: seq<bool>, width: nat, height: nat, x: int, y: int, d: Extended,
                           e: Extended)
    requires IsMask(mask, width, height) && IsMask(more, width, height)
    requires forall i | 0 <= i < |mask| :: mask[i] ==> more[i]
    requires IsNearest(mask, width, height, x, y, d) && IsNearest(more, width, height, x, y, e)
    ensures !Less(d, e)
  {
    hide SquaredGap;
    if d.Fin? {
      var sx, sy :| Seeded(mask, width, height, sx, sy) && d.value == SquaredGap(x, y, sx, sy);
      CellInRange(width, height, sx, sy);
      assert Seeded(more, width, height, sx, sy);
    }
  }

  // A row-major buffer holds d at (x, y).
  predicate At<T(==)>(field: seq<T>, width: nat, x: int, y: int, d: T) {
    0 <= Cell(width, x, y) < |field| && field[Cell(width, x, y)] == d
  }

  lemma WriteCell<T>(field: seq<T>, width: nat, height: nat, x: int, y: int, d: T)
    requires |field| == width * height && 0 <= x < width && 0 <= y < height
    ensures 0 <= Cell(width, x, y) < |field|
    ensures At(field[Cell(width, x, y) := d], width, x, y, d)
    ensures forall x', y', e | 0 <= x' < width && (x', y') != (x, y) && At(field, width, x', y', e) ::
              At(field[Cell(width, x, y) := d], width, x', y', e)
  {
    CellInRange(width, height, x, y);
    forall x', y', e | 0 <= x' < width && (x', y') != (x, y) && At(field, width, x', y', e)
      ensures At(field[Cell(width, x, y) := d], width, x', y', e)
    {
      if Cell(width, x', y') == Cell(width, x, y) {
        CellIsInjective(width, x, y, x', y');
      }
    }
  }

  // The row pass fills one row, and leaves the rows above it alone.
  method RunRow(mask: seq<bool>, width: nat, height: nat, y: nat, rows: array<Extended>)
    requires IsMask(mask, width, height) && rows.Length == width * height && y < height
    modifies rows
    ensures forall x | 0 <= x < width :: At(rows[..], width, x, y, RowPass(mask, width, height, x, y))
    ensures forall x', y', e | 0 <= x' < width && y' != y && At(old(rows[..]), width, x', y', e) ::
              At(rows[..], width, x', y', e)
  {
    hide Envelope, Cell, At;
    var input := RowInput(mask, width, height, y);
    var output, _ := SquaredDistanceTransform1d(input);
    for x := 0 to width
      invariant forall x' | 0 <= x' < x :: At(rows[..], width, x', y, RowPass(mask, width, height, x', y))
      invariant forall x', y', e | 0 <= x' < width && y' != y && At(old(rows[..]), width, x', y', e) ::
                  At(rows[..], width, x', y', e)
    {
      WriteCell(rows[..], width, height, x, y, output[x]);
      ghost var before := rows[..];
      rows[Cell(width, x, y)] := output[x];
      assert rows[..] == before[Cell(width, x, y) := output[x]];
    }
  }

  // The column pass turns one column of the row pass into squared distances.
  method RunColumn(mask: seq<bool>, width: nat, height: nat, x: nat, rows: seq<Extended>, field: array<Extended>)
    requires IsMask(mask, width, height) && field.Length == width * height == |rows| && x < width
    requires forall y | 0 <= y < height :: At(rows, width, x, y, RowPass(mask, width, height, x, y))
    modifies field
    ensures forall y | 0 <= y < height :: At(field[..], width, x, y, ColumnPass(mask, width, height, x, y))
    ensures forall x', y', e | 0 <= x' < width && x' != x && At(old(field[..]), width, x', y', e) ::
              At(field[..], width, x', y', e)
  {
    var input := GatherColumn(width, height, x, rows);
    assert input == ColumnInput(mask, width, height, x);
    hide Envelope, Cell, At;
    var output, _ := SquaredDistanceTransform1d(input);
    for y := 0 to height
      invariant forall y' | 0 <= y' < y :: At(field[..], width, x, y', ColumnPass(mask, width, height, x, y'))
      invariant forall x', y', e | 0 <= x' < width && x' != x && At(old(field[..]), width, x', y', e) ::
                  At(field[..], width, x', y', e)
    {
      WriteCell(field[..], width, height, x, y, output[y]);
      ghost var before := field[..];
      field[Cell(width, x, y)] := output[y];
      assert field[..] == before[Cell(width, x, y) := output[y]];
    }
  }

  method GatherColumn(width: nat, height: nat, x: nat, rows: seq<Extended>) returns (input: seq<Extended>)
    requires |rows| == width * height && x < width
    ensures |input| == height && forall y | 0 <= y < height :: At(rows, width, x, y, input[y])
  {
    input := [];
    for y := 0 to height
      invariant |input| == y && forall y' | 0 <= y' < y :: At(rows, width, x, y', input[y'])
    {
      CellInRange(width, height, x, y);
      input := input + [rows[Cell(width, x, y)]];
    }
  }

  lemma SeedlessCellIsInfinite(mask: seq<bool>, width: nat, height: nat, x: int, y: int)
    requires IsMask(mask, width, height)
    requires forall i | 0 <= i < |mask| :: !mask[i]
    ensures ColumnPass(mask, width, height, x, y) == PlusInfinity
  {
    hide ColumnPass, SquaredGap, Cell;
    ColumnPassIsNearest(mask, width, height, x, y);
    forall sx, sy | 0 <= sx < width && 0 <= sy < height ensures !Seeded(mask, width, height, sx, sy) {
      CellInRange(width, height, sx, sy);
    }
  }

  lemma SeedlessFieldIsInfinite(mask: seq<bool>, width: nat, height: nat, field: seq<Extended>)
    requires IsMask(mask, width, height) && |field| == width * height
    requires forall i | 0 <= i < |mask| :: !mask[i]
    requires forall i | 0 <= i < |field| :: field[i] == PlusInfinity
    ensures forall x, y | 0 <= x < width && 0 <= y < height ::
              At(field, width, x, y, ColumnPass(mask, width, height, x, y))
  {
    hide ColumnPass, Cell;
    forall x, y | 0 <= x < width && 0 <= y < height
      ensures At(field, width, x, y, ColumnPass(mask, width, height, x, y))
    {
      CellInRange(width, height, x, y);
      SeedlessCellIsInfinite(mask, width, height, x, y);
    }
  }

  // The squared field of a mask; anything but a usable mask with a seed in it
  // leaves every cell at infinity.
  method ExactEuclideanDistanceTransform(seedMask: seq<bool>, width: nat, height: nat) returns (field: seq<Extended>)
    ensures |field| == width * height
    ensures |seedMask| < width * height ==> forall i | 0 <= i < |field| :: field[i] == PlusInfinity
    ensures |seedMask| >= width * height ==>
              forall x, y | 0 <= x < width && 0 <= y < height ::
                At(field, width, x, y, ColumnPass(seedMask[..width * height], width, height, x, y))
  {
    hide At, ColumnPass;
    var count := width * height;
    if width == 0 || height == 0 || |seedMask| < count || !(exists i | 0 <= i < |seedMask| :: seedMask[i]) {
      field := seq(count, _ => PlusInfinity);
      if |seedMask| >= count {
        SeedlessFieldIsInfinite(seedMask[..count], width, height, field);
      }
      return;
    }
    field := RunPasses(seedMask[..count], width, height);
  }

  method RunPasses(mask: seq<bool>, width: nat, height: nat) returns (result: seq<Extended>)
    requires IsMask(mask, width, height)
    ensures |result| == width * height
    ensures forall x, y | 0 <= x < width && 0 <= y < height ::
              At(result, width, x, y, ColumnPass(mask, width, height, x, y))
  {
    hide At, RowPass, ColumnPass;
    var rows := new Extended[width * height](_ => PlusInfinity);
    for y := 0 to height
      invariant forall x, y' | 0 <= x < width && 0 <= y' < y ::
                  At(rows[..], width, x, y', RowPass(mask, width, height, x, y'))
    {
      RunRow(mask, width, height, y, rows);
    }
    var field := new Extended[width * height](_ => PlusInfinity);
    ghost var filled := rows[..];
    for x := 0 to width
      invariant rows[..] == filled
      invariant forall x', y | 0 <= x' < x && 0 <= y < height ::
                  At(field[..], width, x', y, ColumnPass(mask, width, height, x', y))
    {
      RunColumn(mask, width, height, x, rows[..], field);
    }
    result := field[..];
  }

  // Outside the grid counts as blocked: one ring of obstacles all round.
  function PaddedSeed(mask: seq<bool>, width: nat, height: nat, px: int, py: int): bool
    requires IsMask(mask, width, height)
  {
    px == 0 || py == 0 || px == width + 1 || py == height + 1 || Seeded(mask, width, height, px - 1, py - 1)
  }

  ghost predicate IsPadded(padded: seq<bool>, outerWidth: nat, outerHeight: nat, mask: seq<bool>, width: nat,
                           height: nat)
    requires IsMask(mask, width, height)
  {
    && outerWidth == width + 2 && outerHeight == height + 2 && IsMask(padded, outerWidth, outerHeight)
    && forall px, py | 0 <= px < outerWidth && 0 <= py < outerHeight ::
         Seeded(padded, outerWidth, outerHeight, px, py) == PaddedSeed(mask, width, height, px, py)
  }

  function Reach(width: nat, height: nat, x: int, y: int): int {
    var across := if x + 1 <= width - x then x + 1 else width - x;
    var along := if y + 1 <= height - y then y + 1 else height - y;
    if across <= along then across else along
  }

  // The squared clearance of a cell: to the nearest obstacle or to the edge of
  // the grid, whichever is the nearer.
  ghost predicate IsClearance(mask: seq<bool>, width: nat, height: nat, x: int, y: int, d: Extended)
    requires IsMask(mask, width, height)
  {
    && d.Fin?
    && d.value <= Square(Reach(width, height, x, y) as real)
    && (forall sx, sy | Seeded(mask, width, height, sx, sy) :: d.value <= SquaredGap(x, y, sx, sy))
    && (d.value == Square(Reach(width, height, x, y) as real) ||
        exists sx, sy :: Seeded(mask, width, height, sx, sy) && d.value == SquaredGap(x, y, sx, sy))
  }

  lemma GapShifts(x: int, y: int, px: int, py: int)
    ensures SquaredGap(x + 1, y + 1, px, py) == SquaredGap(x, y, px - 1, py - 1)
  {
    assert (x + 1) as real - px as real == x as real - (px - 1) as real;
    assert (y + 1) as real - py as real == y as real - (py - 1) as real;
  }

  lemma BorderIsBeyondReach(width: nat, height: nat, x: int, y: int, px: int, py: int)
    requires 0 <= x < width && 0 <= y < height && 0 <= px < width + 2 && 0 <= py < height + 2
    requires (px == 0 || py == 0 || px == width + 1 || py == height + 1)
    ensures Square(Reach(width, height, x, y) as real) <= SquaredGap(x + 1, y + 1, px, py)
  {
    var r := Reach(width, height, x, y) as real;
    var dx, dy := (x + 1) as real - px as real, (y + 1) as real - py as real;
    assert Square(dx) >= 0.0 && Square(dy) >= 0.0;
    if px == 0 || px == width + 1 {
      SquareDominates(r, dx);
    } else {
      SquareDominates(r, dy);
    }
  }

  lemma ReachIsAttained(width: nat, height: nat, x: int, y: int) returns (px: int, py: int)
    requires 0 <= x < width && 0 <= y < height
    ensures 0 <= px < width + 2 && 0 <= py < height + 2 && (px == 0 || py == 0 || px == width + 1 || py == height + 1)
    ensures SquaredGap(x + 1, y + 1, px, py) == Square(Reach(width, height, x, y) as real)
  {
    var r := Reach(width, height, x, y);
    px, py := x + 1, y + 1;
    if r == x + 1 {
      px := 0;
    } else if r == width - x {
      px := width + 1;
    } else if r == y + 1 {
      py := 0;
    } else {
      py := height + 1;
    }
    var dx, dy := (x + 1) as real - px as real, (y + 1) as real - py as real;
    assert Square(0.0) == 0.0;
    if px != x + 1 {
      SquareDominates(dx, r as real);
      SquareDominates(r as real, dx);
    } else {
      SquareDominates(dy, r as real);
      SquareDominates(r as real, dy);
    }
  }

  // The padded minimum is the clearance.
  lemma PaddedNearestIsClearance(mask: seq<bool>, padded: seq<bool>, outerWidth: nat, outerHeight: nat,
                                 width: nat, height: nat, x: int, y: int, d: Extended)
    requires IsMask(mask, width, height) && IsPadded(padded, outerWidth, outerHeight, mask, width, height)
    requires 0 <= x < width && 0 <= y < height
    requires IsNearest(padded, outerWidth, outerHeight, x + 1, y + 1, d)
    ensures IsClearance(mask, width, height, x, y, d)
  {
    hide Square, SquaredGap, Reach;
    var edgeX, edgeY := ReachIsAttained(width, height, x, y);
    assert Seeded(padded, outerWidth, outerHeight, edgeX, edgeY);
    forall sx, sy | Seeded(mask, width, height, sx, sy)
      ensures d.value <= SquaredGap(x, y, sx, sy)
    {
      var px, py := sx + 1, sy + 1;
      assert PaddedSeed(mask, width, height, px, py);
      assert Seeded(padded, outerWidth, outerHeight, px, py);
      GapShifts(x, y, px, py);
    }
    var px, py :| Seeded(padded, outerWidth, outerHeight, px, py) && d.value == SquaredGap(x + 1, y + 1, px, py);
    if px == 0 || py == 0 || px == width + 1 || py == height + 1 {
      BorderIsBeyondReach(width, height, x, y, px, py);
    } else {
      GapShifts(x, y, px, py);
      assert Seeded(mask, width, height, px - 1, py - 1);
    }
  }

  function PartlySeeded(mask: seq<bool>, width: nat, height: nat, px: int, row: int, n: int): bool
    requires IsMask(mask, width, height)
  {
    px > n || PaddedSeed(mask, width, height, px, row)
  }

  // A row of the ring with the mask moved into its first cells.
  ghost predicate RowPadded(padded: seq<bool>, mask: seq<bool>, width: nat, height: nat, row: nat, outerWidth: nat,
                            n: int)
    requires IsMask(mask, width, height) && 0 < row <= height && outerWidth == width + 2
  {
    forall px | 0 <= px < outerWidth :: At(padded, outerWidth, px, row, PartlySeeded(mask, width, height, px, row, n))
  }

  ghost predicate OtherRowsKept(padded: seq<bool>, before: seq<bool>, outerWidth: nat, row: nat) {
    forall px, py, e | 0 <= px < outerWidth && py != row && At(before, outerWidth, px, py, e) ::
      At(padded, outerWidth, px, py, e)
  }

  lemma PadCell(padded: seq<bool>, mask: seq<bool>, width: nat, height: nat, row: nat, outerWidth: nat,
                outerHeight: nat,
                x: nat)
    requires IsMask(mask, width, height) && 0 < row <= height && x < width
    requires outerWidth == width + 2 && outerHeight == height + 2 && |padded| == outerWidth * outerHeight
    requires RowPadded(padded, mask, width, height, row, outerWidth, x)
    ensures 0 <= Cell(outerWidth, x + 1, row) < |padded|
    ensures var next := padded[Cell(outerWidth, x + 1, row) := Seeded(mask, width, height, x, row - 1)];
            RowPadded(next, mask, width, height, row, outerWidth, x + 1) && OtherRowsKept(next, padded, outerWidth, row)
  {
    hide Cell, Seeded, At;
    var seed := Seeded(mask, width, height, x, row - 1);
    WriteCell(padded, outerWidth, outerHeight, x + 1, row, seed);
    var next := padded[Cell(outerWidth, x + 1, row) := seed];
    var done := x + 1;
    forall px | 0 <= px < outerWidth
      ensures At(next, outerWidth, px, row, PartlySeeded(mask, width, height, px, row, done))
    {
      if px != x + 1 {
        assert At(padded, outerWidth, px, row, PartlySeeded(mask, width, height, px, row, x));
      }
    }
  }

  lemma PaddingStarts(padded: seq<bool>, mask: seq<bool>, width: nat, height: nat, row: nat, outerWidth: nat)
    requires IsMask(mask, width, height) && 0 < row <= height && outerWidth == width + 2
    requires forall px | 0 <= px < outerWidth :: At(padded, outerWidth, px, row, true)
    ensures RowPadded(padded, mask, width, height, row, outerWidth, 0)
    ensures OtherRowsKept(padded, padded, outerWidth, row)
  {
    hide At, Seeded;
    forall px | 0 <= px < outerWidth
      ensures At(padded, outerWidth, px, row, PartlySeeded(mask, width, height, px, row, 0))
    {
      assert PartlySeeded(mask, width, height, px, row, 0);
    }
  }

  lemma PaddingEnds(padded: seq<bool>, mask: seq<bool>, width: nat, height: nat, row: nat, outerWidth: nat)
    requires IsMask(mask, width, height) && 0 < row <= height && outerWidth == width + 2
    requires RowPadded(padded, mask, width, height, row, outerWidth, width)
    ensures forall px | 0 <= px < outerWidth ::
              At(padded, outerWidth, px, row, PaddedSeed(mask, width, height, px, row))
  {
    hide At, Seeded;
    forall px | 0 <= px < outerWidth
      ensures At(padded, outerWidth, px, row, PaddedSeed(mask, width, height, px, row))
    {
      assert PartlySeeded(mask, width, height, px, row, width) == PaddedSeed(mask, width, height, px, row);
    }
  }

  lemma KeptOnwards(after: seq<bool>, between: seq<bool>, before: seq<bool>, outerWidth: nat, row: nat)
    requires OtherRowsKept(after, between, outerWidth, row) && OtherRowsKept(between, before, outerWidth, row)
    ensures OtherRowsKept(after, before, outerWidth, row)
  {
    hide At;
  }

  // One row of the mask moves inside the ring.
  method PadRow(mask: seq<bool>, width: nat, height: nat, row: nat, outerWidth: nat, outerHeight: nat,
                padded: array<bool>)
    requires IsMask(mask, width, height) && 0 < row <= height
    requires outerWidth == width + 2 && outerHeight == height + 2 && padded.Length == outerWidth * outerHeight
    requires forall px | 0 <= px < outerWidth :: At(padded[..], outerWidth, px, row, true)
    modifies padded
    ensures forall px | 0 <= px < outerWidth ::
              At(padded[..], outerWidth, px, row, PaddedSeed(mask, width, height, px, row))
    ensures OtherRowsKept(padded[..], old(padded[..]), outerWidth, row)
  {
    hide Cell, Seeded, At, PaddedSeed, RowPadded, OtherRowsKept;
    PaddingStarts(padded[..], mask, width, height, row, outerWidth);
    for x := 0 to width
      invariant RowPadded(padded[..], mask, width, height, row, outerWidth, x)
      invariant OtherRowsKept(padded[..], old(padded[..]), outerWidth, row)
    {
      ghost var before := padded[..];
      PadCell(before, mask, width, height, row, outerWidth, outerHeight, x);
      padded[Cell(outerWidth, x + 1, row)] := Seeded(mask, width, height, x, row - 1);
      assert padded[..] == before[Cell(outerWidth, x + 1, row) := Seeded(mask, width, height, x, row - 1)];
      KeptOnwards(padded[..], before, old(padded[..]), outerWidth, row);
    }
    PaddingEnds(padded[..], mask, width, height, row, outerWidth);
  }

  lemma AllTrue(padded: seq<bool>, width: nat, height: nat)
    requires |padded| == width * height && forall i | 0 <= i < |padded| :: padded[i]
    ensures forall px, py | 0 <= px < width && 0 <= py < height :: At(padded, width, px, py, true)
  {
    forall px, py | 0 <= px < width && 0 <= py < height ensures At(padded, width, px, py, true) {
      CellInRange(width, height, px, py);
    }
  }

  method PadMask(mask: seq<bool>, width: nat, height: nat, outerWidth: nat, outerHeight: nat)
    returns (result: seq<bool>)
    requires IsMask(mask, width, height) && outerWidth == width + 2 && outerHeight == height + 2
    ensures IsPadded(result, outerWidth, outerHeight, mask, width, height)
  {
    var padded := new bool[outerWidth * outerHeight](_ => true);
    AllTrue(padded[..], outerWidth, outerHeight);
    hide Seeded, At;
    for y := 0 to height
      invariant forall px, py | 0 <= px < outerWidth && 0 <= py <= y ::
                  At(padded[..], outerWidth, px, py, PaddedSeed(mask, width, height, px, py))
      invariant forall px, py | 0 <= px < outerWidth && y < py < outerHeight :: At(padded[..], outerWidth, px, py, true)
    {
      PadRow(mask, width, height, y + 1, outerWidth, outerHeight, padded);
    }
    result := padded[..];
    PaddedCells(mask, result, outerWidth, outerHeight, width, height);
  }

  lemma PaddedCells(mask: seq<bool>, padded: seq<bool>, outerWidth: nat, outerHeight: nat, width: nat, height: nat)
    requires IsMask(mask, width, height)
    requires outerWidth == width + 2 && outerHeight == height + 2 && |padded| == outerWidth * outerHeight
    requires forall px, py | 0 <= px < outerWidth && 0 <= py < outerHeight ::
               At(padded, outerWidth, px, py, PaddedSeed(mask, width, height, px, py))
    ensures IsPadded(padded, outerWidth, outerHeight, mask, width, height)
  {
    hide Cell;
  }

  // The squared distance found for the padded copy of a cell.
  function InnerPass(padded: seq<bool>, outerWidth: nat, outerHeight: nat, x: int, y: int): Extended
    requires IsMask(padded, outerWidth, outerHeight)
  {
    ColumnPass(padded, outerWidth, outerHeight, x + 1, y + 1)
  }

  method CopyInnerRow(padded: seq<bool>, outer: seq<Extended>, outerWidth: nat, outerHeight: nat,
                      width: nat, height: nat, y: nat, inner: array<Extended>)
    requires outerWidth == width + 2 && outerHeight == height + 2
    requires IsMask(padded, outerWidth, outerHeight) && |outer| == outerWidth * outerHeight
    requires forall px, py | 0 <= px < outerWidth && 0 <= py < outerHeight ::
               At(outer, outerWidth, px, py, ColumnPass(padded, outerWidth, outerHeight, px, py))
    requires y < height && inner.Length == width * height
    modifies inner
    ensures forall x | 0 <= x < width :: At(inner[..], width, x, y, InnerPass(padded, outerWidth, outerHeight, x, y))
    ensures forall x', y', e | 0 <= x' < width && y' != y && At(old(inner[..]), width, x', y', e) ::
              At(inner[..], width, x', y', e)
  {
    hide ColumnPass;
    for x := 0 to width
      invariant forall x' | 0 <= x' < x ::
                  At(inner[..], width, x', y, InnerPass(padded, outerWidth, outerHeight, x', y))
      invariant forall x', y', e | 0 <= x' < width && y' != y && At(old(inner[..]), width, x', y', e) ::
                  At(inner[..], width, x', y', e)
    {
      assert At(outer, outerWidth, x + 1, y + 1, InnerPass(padded, outerWidth, outerHeight, x, y));
      var d := outer[Cell(outerWidth, x + 1, y + 1)];
      hide At, Cell;
      WriteCell(inner[..], width, height, x, y, d);
      ghost var before := inner[..];
      inner[Cell(width, x, y)] := d;
      assert inner[..] == before[Cell(width, x, y) := d];
    }
  }

  ghost predicate HoldsClearance(field: seq<Extended>, mask: seq<bool>, width: nat, height: nat, x: int, y: int)
    requires IsMask(mask, width, height)
  {
    exists d :: At(field, width, x, y, d) && IsClearance(mask, width, height, x, y, d)
  }

  // The squared clearance of every cell of the grid.
  method BlockedDistanceTransformWithBlockedBorder(obstacles: seq<bool>, width: nat, height: nat)
    returns (field: seq<Extended>)
    requires IsMask(obstacles, width, height)
    ensures |field| == width * height
    ensures forall x, y | 0 <= x < width && 0 <= y < height :: HoldsClearance(field, obstacles, width, height, x, y)
  {
    var outerWidth, outerHeight := width + 2, height + 2;
    var padded := PadMask(obstacles, width, height, outerWidth, outerHeight);
    assert IsMask(padded, outerWidth, outerHeight);
    hide IsClearance, At, ColumnPass, InnerPass, IsPadded;
    var outer := ExactEuclideanDistanceTransform(padded, outerWidth, outerHeight);
    assert padded[..outerWidth * outerHeight] == padded;
    var inner := new Extended[width * height](_ => PlusInfinity);
    for y := 0 to height
      invariant forall x, y' | 0 <= x < width && 0 <= y' < y ::
                  At(inner[..], width, x, y', InnerPass(padded, outerWidth, outerHeight, x, y'))
    {
      CopyInnerRow(padded, outer, outerWidth, outerHeight, width, height, y, inner);
    }
    field := inner[..];
    InnerFieldHoldsClearance(obstacles, padded, outerWidth, outerHeight, width, height, field);
  }

  lemma InnerFieldHoldsClearance(mask: seq<bool>, padded: seq<bool>, outerWidth: nat, outerHeight: nat,
                                 width: nat, height: nat, field: seq<Extended>)
    requires IsMask(mask, width, height) && IsPadded(padded, outerWidth, outerHeight, mask, width, height)
    requires forall x, y | 0 <= x < width && 0 <= y < height ::
               At(field, width, x, y, InnerPass(padded, outerWidth, outerHeight, x, y))
    ensures forall x, y | 0 <= x < width && 0 <= y < height :: HoldsClearance(field, mask, width, height, x, y)
  {
    hide At, ColumnPass, IsClearance, IsNearest;
    forall x, y | 0 <= x < width && 0 <= y < height ensures HoldsClearance(field, mask, width, height, x, y) {
      var d := InnerPass(padded, outerWidth, outerHeight, x, y);
      ColumnPassIsNearest(padded, outerWidth, outerHeight, x + 1, y + 1);
      PaddedNearestIsClearance(mask, padded, outerWidth, outerHeight, width, height, x, y, d);
    }
  }

  // sqrt(max(0, d)) * resolution, with std::sqrt as a parameter.
  function Metric(root: real -> real, resolution: real, d: Extended): Extended {
    match d
    case PlusInfinity => PlusInfinity
    case MinusInfinity => Fin(root(0.0) * resolution)
    case Fin(v) => Fin(root(Max(0.0, v)) * resolution)
  }

  // One cell of the signed field; None is NaN.
  function SignedValue(occupied: Extended, free: Extended): Option<real> {
    if !occupied.Fin? && !free.Fin? then None
    else if !free.Fin? then Some(-occupied.value)
    else if !occupied.Fin? then Some(free.value)
    else Some(occupied.value - free.value)
  }

  ghost predicate IsSigned(obstacles: seq<bool>, free: seq<bool>, width: nat, height: nat, root: real -> real,
                           resolution: real, x: int, y: int, value: Option<real>)
    requires IsMask(obstacles, width, height) && IsMask(free, width, height)
  {
    exists d, e :: IsClearance(obstacles, width, height, x, y, d) && IsNearest(free, width, height, x, y, e) &&
                   value == SignedValue(Metric(root, resolution, d), Metric(root, resolution, e))
  }

  lemma MetricBounds(root: real -> real, resolution: real, d: real)
    requires IsRoot(root) && resolution > 0.0
    ensures d >= 1.0 ==> Metric(root, resolution, Fin(d)).value >= resolution
    ensures d == 0.0 ==> Metric(root, resolution, Fin(d)).value == 0.0
  {
    if d >= 1.0 {
      RootOrder(root, 1.0, d);
      SquareOrder(1.0, root(1.0));
      assert root(d) >= 1.0;
      assert (root(d) - 1.0) * resolution >= 0.0;
    } else if d == 0.0 {
      SquareOrder(root(0.0), 0.0);
    }
  }

  lemma DistinctCellsAreApart(x: int, y: int, sx: int, sy: int)
    ensures SquaredGap(x, y, x, y) == 0.0
    ensures (x, y) != (sx, sy) ==> SquaredGap(x, y, sx, sy) >= 1.0
  {
    var dx, dy := x as real - sx as real, y as real - sy as real;
    assert Square(dx) >= 0.0 && Square(dy) >= 0.0 && Square(1.0) == 1.0;
    if x != sx {
      SquareDominates(1.0, dx);
    } else if y != sy {
      SquareDominates(1.0, dy);
    }
  }

  lemma ReachIsApart(width: nat, height: nat, x: int, y: int)
    requires 0 <= x < width && 0 <= y < height
    ensures Square(Reach(width, height, x, y) as real) >= 1.0
  {
    SquareDominates(1.0, Reach(width, height, x, y) as real);
  }

  // The sign convention of the planner stack: a free cell keeps at least one
  // resolution of clearance, an obstacle cell at least one of penetration, and a
  // grid without free cells reads zero everywhere.
  lemma SignedFieldSeparates(obstacles: seq<bool>, free: seq<bool>, width: nat, height: nat, root: real -> real,
                             resolution: real, x: int, y: int, value: Option<real>)
    requires IsMask(obstacles, width, height) && IsMask(free, width, height)
    requires forall i | 0 <= i < |free| :: free[i] == !obstacles[i]
    requires IsRoot(root) && resolution > 0.0 && 0 <= x < width && 0 <= y < height
    requires IsSigned(obstacles, free, width, height, root, resolution, x, y, value)
    ensures value.Some?
    ensures (exists i :: 0 <= i < |free| && free[i]) ==>
              if Seeded(free, width, height, x, y) then value.value >= resolution else value.value <= -resolution
    ensures !(exists i :: 0 <= i < |free| && free[i]) ==> value.value == 0.0
  {
    hide SquaredGap, Square, Reach, Metric;
    var d, e :| IsClearance(obstacles, width, height, x, y, d) && IsNearest(free, width, height, x, y, e) &&
                value == SignedValue(Metric(root, resolution, d), Metric(root, resolution, e));
    ClearanceBounds(obstacles, width, height, x, y, d);
    NearestBounds(free, width, height, x, y, e);
    CellInRange(width, height, x, y);
    MetricShape(root, resolution, d);
    MetricShape(root, resolution, e);
    MetricBounds(root, resolution, d.value);
    if e.Fin? {
      MetricBounds(root, resolution, e.value);
    }
  }

  lemma MetricShape(root: real -> real, resolution: real, d: Extended)
    requires d != MinusInfinity
    ensures Metric(root, resolution, d).Fin? == d.Fin?
  {
  }

  lemma ClearanceBounds(mask: seq<bool>, width: nat, height: nat, x: int, y: int, d: Extended)
    requires IsMask(mask, width, height) && 0 <= x < width && 0 <= y < height
    requires IsClearance(mask, width, height, x, y, d)
    ensures d.Fin? && (if Seeded(mask, width, height, x, y) then d.value == 0.0 else d.value >= 1.0)
  {
    hide SquaredGap, Square, Reach;
    ReachIsApart(width, height, x, y);
    DistinctCellsAreApart(x, y, x, y);
    if d.value != Square(Reach(width, height, x, y) as real) {
      var sx, sy :| Seeded(mask, width, height, sx, sy) && d.value == SquaredGap(x, y, sx, sy);
      DistinctCellsAreApart(x, y, sx, sy);
    }
  }

  lemma NearestBounds(mask: seq<bool>, width: nat, height: nat, x: int, y: int, d: Extended)
    requires IsMask(mask, width, height) && 0 <= x < width && 0 <= y < height
    requires IsNearest(mask, width, height, x, y, d)
    ensures Seeded(mask, width, height, x, y) ==> d == Fin(0.0)
    ensures !Seeded(mask, width, height, x, y) && d.Fin? ==> d.value >= 1.0
    ensures d.Fin? <==> exists i :: 0 <= i < |mask| && mask[i]
  {
    hide SquaredGap;
    DistinctCellsAreApart(x, y, x, y);
    if d.Fin? {
      var sx, sy :| Seeded(mask, width, height, sx, sy) && d.value == SquaredGap(x, y, sx, sy);
      CellInRange(width, height, sx, sy);
      DistinctCellsAreApart(x, y, sx, sy);
    }
    forall i | 0 <= i < |mask| && mask[i] ensures d.Fin? {
      var sx, sy := CellOf(width, height, i);
      assert Seeded(mask, width, height, sx, sy);
    }
  }

  ghost predicate HoldsSigned(signed: seq<Option<real>>, obstacles: seq<bool>, free: seq<bool>, width: nat, height: nat,
                              root: real -> real, resolution: real, x: int, y: int)
    requires IsMask(obstacles, width, height) && IsMask(free, width, height)
  {
    exists value ::
      At(signed, width, x, y, value) && IsSigned(obstacles, free, width, height, root, resolution, x, y, value)
  }

  method RebuildSignedDistanceField(obstacles: seq<bool>, free: seq<bool>, width: nat, height: nat,
                                    root: real -> real, resolution: real)
    returns (signed: seq<Option<real>>)
    requires IsMask(obstacles, width, height) && IsMask(free, width, height)
    ensures |signed| == width * height
    ensures forall x, y | 0 <= x < width && 0 <= y < height ::
              HoldsSigned(signed, obstacles, free, width, height, root, resolution, x, y)
  {
    hide HoldsClearance, At, ColumnPass;
    var toObstacle := BlockedDistanceTransformWithBlockedBorder(obstacles, width, height);
    var toFree := ExactEuclideanDistanceTransform(free, width, height);
    assert free[..width * height] == free;
    signed := [];
    for i := 0 to width * height
      invariant |signed| == i
      invariant forall j | 0 <= j < i ::
                  signed[j] == SignedValue(Metric(root, resolution, toObstacle[j]), Metric(root, resolution, toFree[j]))
    {
      signed := signed + [SignedValue(Metric(root, resolution, toObstacle[i]), Metric(root, resolution, toFree[i]))];
    }
    SignedCells(obstacles, free, width, height, root, resolution, toObstacle, toFree, signed);
  }

  lemma SignedCells(obstacles: seq<bool>, free: seq<bool>, width: nat, height: nat, root: real -> real,
                    resolution: real,
                    toObstacle: seq<Extended>, toFree: seq<Extended>, signed: seq<Option<real>>)
    requires IsMask(obstacles, width, height) && IsMask(free, width, height)
    requires |toObstacle| == |toFree| == |signed| == width * height
    requires forall x, y | 0 <= x < width && 0 <= y < height ::
               HoldsClearance(toObstacle, obstacles, width, height, x, y)
    requires forall x, y | 0 <= x < width && 0 <= y < height ::
               At(toFree, width, x, y, ColumnPass(free, width, height, x, y))
    requires forall j | 0 <= j < |signed| ::
               signed[j] == SignedValue(Metric(root, resolution, toObstacle[j]), Metric(root, resolution, toFree[j]))
    ensures forall x, y | 0 <= x < width && 0 <= y < height ::
              HoldsSigned(signed, obstacles, free, width, height, root, resolution, x, y)
  {
    hide Cell, IsClearance, IsNearest, ColumnPass, Metric, SignedValue;
    forall x, y | 0 <= x < width && 0 <= y < height
      ensures HoldsSigned(signed, obstacles, free, width, height, root, resolution, x, y)
    {
      assert HoldsClearance(toObstacle, obstacles, width, height, x, y);
      var d :| At(toObstacle, width, x, y, d) && IsClearance(obstacles, width, height, x, y, d);
      var e := ColumnPass(free, width, height, x, y);
      ColumnPassIsNearest(free, width, height, x, y);
      var value := SignedValue(Metric(root, resolution, d), Metric(root, resolution, e));
      assert At(signed, width, x, y, value);
      assert IsSigned(obstacles, free, width, height, root, resolution, x, y, value);
    }
  }

  // Every cell of the field that is rebuilt from complementary masks.
  lemma RebuiltFieldSeparates(signed: seq<Option<real>>, obstacles: seq<bool>, free: seq<bool>, width: nat, height: nat,
                              root: real -> real, resolution: real, x: int, y: int)
    requires IsMask(obstacles, width, height) && IsMask(free, width, height)
    requires forall i | 0 <= i < |free| :: free[i] == !obstacles[i]
    requires IsRoot(root) && resolution > 0.0 && 0 <= x < width && 0 <= y < height
    requires HoldsSigned(signed, obstacles, free, width, height, root, resolution, x, y)
    ensures 0 <= Cell(width, x, y) < |signed| && signed[Cell(width, x, y)].Some?
    ensures var value := signed[Cell(width, x, y)].value;
            if forall i | 0 <= i < |free| :: !free[i] then value == 0.0
            else if Seeded(free, width, height, x, y) then value >= resolution
            else value <= -resolution
  {
    hide Cell, Seeded, IsSigned;
    var value :| At(signed, width, x, y, value) &&
      IsSigned(obstacles, free, width, height, root, resolution, x, y, value);
    SignedFieldSeparates(obstacles, free, width, height, root, resolution, x, y, value);
  }

  // In metres: a free cell reads its distance to the nearest obstacle or border,
  // an obstacle cell minus its distance to the nearest free cell.
  ghost predicate IsMetric(obstacles: seq<bool>, free: seq<bool>, width: nat, height: nat, resolution: real, x: int,
                           y: int, value: real)
    requires IsMask(obstacles, width, height) && IsMask(free, width, height)
  {
    if Seeded(free, width, height, x, y)
    then value >= 0.0 && exists d :: IsClearance(obstacles, width, height, x, y, d) &&
                                     IsLength(value, resolution, d)
    else value <= 0.0 && exists e :: IsNearest(free, width, height, x, y, e) && IsLength(value, resolution, e)
  }

  // The length of so many squared cells.
  predicate IsLength(value: real, resolution: real, squared: Extended) {
    squared.Fin? && Square(value) == Square(resolution) * squared.value
  }

  lemma MetricIsLength(root: real -> real, resolution: real, d: Extended)
    requires IsRoot(root) && resolution > 0.0 && d.Fin? && d.value >= 0.0
    ensures Metric(root, resolution, d).Fin? && Metric(root, resolution, d).value >= 0.0
    ensures IsLength(Metric(root, resolution, d).value, resolution, d)
    ensures IsLength(-Metric(root, resolution, d).value, resolution, d)
  {
    var r := root(d.value);
    var length := r * resolution;
    ProductSign(r, resolution, length);
    assert Square(length) == (r * r) * Square(resolution);
    assert Square(-length) == Square(length);
  }

  lemma SignedFieldIsMetric(obstacles: seq<bool>, free: seq<bool>, width: nat, height: nat, root: real -> real,
                            resolution: real, x: int, y: int, value: Option<real>)
    requires IsMask(obstacles, width, height) && IsMask(free, width, height)
    requires forall i | 0 <= i < |free| :: free[i] == !obstacles[i]
    requires IsRoot(root) && resolution > 0.0 && 0 <= x < width && 0 <= y < height
    requires exists i :: 0 <= i < |free| && free[i]
    requires IsSigned(obstacles, free, width, height, root, resolution, x, y, value)
    ensures value.Some? && IsMetric(obstacles, free, width, height, resolution, x, y, value.value)
  {
    hide SquaredGap, Square, Reach, IsLength, IsRoot, Metric;
    var d, e :| IsClearance(obstacles, width, height, x, y, d) && IsNearest(free, width, height, x, y, e) &&
                value == SignedValue(Metric(root, resolution, d), Metric(root, resolution, e));
    ClearanceBounds(obstacles, width, height, x, y, d);
    NearestBounds(free, width, height, x, y, e);
    CellInRange(width, height, x, y);
    hide IsClearance, IsNearest;
    MetricIsLength(root, resolution, d);
    MetricIsLength(root, resolution, e);
    MetricBounds(root, resolution, d.value);
    MetricBounds(root, resolution, e.value);
  }

  ghost predicate IsDifference(value: real, resolution: real, d: Extended, e: Extended, a: real, b: real) {
    && a >= 0.0 && IsLength(a, resolution, d) && d.Fin?
    && if e.Fin? then b >= 0.0 && IsLength(b, resolution, e) && value == a - b else value == -a
  }

  // Whatever the two masks are: the clearance less the distance to the nearest
  // free cell, or minus the clearance where there is none.
  lemma SignedCellIsTheDifference(obstacles: seq<bool>, free: seq<bool>, width: nat, height: nat, root: real -> real,
                                  resolution: real, x: int, y: int, value: Option<real>)
    requires IsMask(obstacles, width, height) && IsMask(free, width, height)
    requires IsRoot(root) && resolution > 0.0 && 0 <= x < width && 0 <= y < height
    requires IsSigned(obstacles, free, width, height, root, resolution, x, y, value)
    ensures value.Some?
    ensures exists d, e, a, b ::
              IsClearance(obstacles, width, height, x, y, d) && IsNearest(free, width, height, x, y, e) &&
              IsDifference(value.value, resolution, d, e, a, b)
  {
    hide SquaredGap, Square, Reach, IsLength, IsRoot;
    var d, e :| IsClearance(obstacles, width, height, x, y, d) && IsNearest(free, width, height, x, y, e) &&
                value == SignedValue(Metric(root, resolution, d), Metric(root, resolution, e));
    ClearanceBounds(obstacles, width, height, x, y, d);
    NearestBounds(free, width, height, x, y, e);
    MetricShape(root, resolution, e);
    var a, b := Metric(root, resolution, d).value, if e.Fin? then Metric(root, resolution, e).value else 0.0;
    NearestIsNotNegative(free, width, height, x, y, e);
    MetricIsLength(root, resolution, d);
    if e.Fin? {
      MetricIsLength(root, resolution, e);
    }
    hide Metric, IsClearance, IsNearest;
    assert IsDifference(value.value, resolution, d, e, a, b);
  }

  lemma NearestIsNotNegative(mask: seq<bool>, width: nat, height: nat, x: int, y: int, d: Extended)
    requires IsMask(mask, width, height) && IsNearest(mask, width, height, x, y, d)
    ensures d.Fin? ==> d.value >= 0.0
  {
    if d.Fin? {
      var sx, sy :| Seeded(mask, width, height, sx, sy) && d.value == SquaredGap(x, y, sx, sy);
      SquareSign(x as real - sx as real);
      SquareSign(y as real - sy as real);
    }
  }

  // Of every cell of the rebuilt field.
  lemma RebuiltFieldIsMetric(signed: seq<Option<real>>, obstacles: seq<bool>, free: seq<bool>, width: nat, height: nat,
                             root: real -> real, resolution: real, x: int, y: int)
    requires IsMask(obstacles, width, height) && IsMask(free, width, height)
    requires forall i | 0 <= i < |free| :: free[i] == !obstacles[i]
    requires IsRoot(root) && resolution > 0.0 && 0 <= x < width && 0 <= y < height
    requires exists i :: 0 <= i < |free| && free[i]
    requires HoldsSigned(signed, obstacles, free, width, height, root, resolution, x, y)
    ensures 0 <= Cell(width, x, y) < |signed| && signed[Cell(width, x, y)].Some?
    ensures IsMetric(obstacles, free, width, height, resolution, x, y, signed[Cell(width, x, y)].value)
  {
    hide Cell, IsSigned, IsMetric;
    var value :| At(signed, width, x, y, value) &&
      IsSigned(obstacles, free, width, height, root, resolution, x, y, value);
    SignedFieldIsMetric(obstacles, free, width, height, root, resolution, x, y, value);
  }
}
