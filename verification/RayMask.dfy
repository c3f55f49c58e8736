/** The per-frame voxel mask: one pair of bits per voxel of a small enough box,
    hash sets of voxels otherwise. Both are proved against the same two sets. */
module RayMask {
  import opened RowMajor
  import opened RayWalk

  const MAX_VOXELS := 128 * 1024 * 1024

  // uint64_t{1} << i, with the bit number assembled from its octal digits.
  function Octal(d: nat): bv6
    requires d < 8
  {
    if d == 0 then 0 else if d == 1 then 1 else if d == 2 then 2 else if d == 3 then 3
    else if d == 4 then 4 else if d == 5 then 5 else if d == 6 then 6 else 7
  }

  function BitNumber(i: nat): bv6
    requires i < 64
  {
    (Octal(i / 8) << 3) | Octal(i % 8)
  }

  lemma OctalIsExact(d: nat, e: nat)
    requires d < 8 && e < 8
    ensures Octal(d) & 7 == Octal(d)
    ensures Octal(d) == Octal(e) ==> d == e
  {
  }

  lemma DigitsUnpack(a: bv6, b: bv6, c: bv6, d: bv6)
    requires a & 7 == a && b & 7 == b && c & 7 == c && d & 7 == d
    requires (a << 3) | b == (c << 3) | d
    ensures a == c && b == d
  {
  }

  lemma BitNumbersDiffer(i: nat, j: nat)
    requires i < 64 && j < 64 && BitNumber(i) == BitNumber(j)
    ensures i == j
  {
    hide Octal;
    OctalIsExact(i / 8, j / 8);
    OctalIsExact(i % 8, j % 8);
    OctalIsExact(j / 8, i / 8);
    OctalIsExact(j % 8, i % 8);
    DigitsUnpack(Octal(i / 8), Octal(i % 8), Octal(j / 8), Octal(j % 8));
  }

  // The machine operators, named so that word reasoning can be kept local.
  function And(a: bv64, b: bv64): bv64 {
    a & b
  }

  function Or(a: bv64, b: bv64): bv64 {
    a | b
  }

  function AndNot(a: bv64, b: bv64): bv64 {
    a & !b
  }

  function Shifted(i: bv6): bv64 {
    (1 as bv64) << i
  }

  function Bit(i: nat): bv64
    requires i < 64
  {
    Shifted(BitNumber(i))
  }

  predicate Has(w: bv64, i: nat)
    requires i < 64
  {
    And(w, Bit(i)) != 0
  }

  lemma ShiftedBitsDiffer(i: bv6, j: bv6)
    ensures i != j ==> And(Shifted(i), Shifted(j)) == 0
    ensures Shifted(i) != 0
  {
  }

  lemma RawOrDistributes(e: bv64, t: bv64, m: bv64)
    ensures (e | t) & m == (e & m) | (t & m)
  {
  }

  lemma RawDifferenceDistributes(e: bv64, t: bv64, m: bv64)
    ensures (t & !e) & m == (t & m) & !(e & m)
  {
  }

  lemma OrDistributes(e: bv64, t: bv64, m: bv64)
    ensures And(Or(e, t), m) == Or(And(e, m), And(t, m))
  {
    calc {
      And(Or(e, t), m);
      Or(e, t) & m;
      (e | t) & m;
      { RawOrDistributes(e, t, m); }
      (e & m) | (t & m);
      And(e, m) | And(t, m);
      Or(And(e, m), And(t, m));
    }
  }

  lemma DifferenceDistributes(e: bv64, t: bv64, m: bv64)
    ensures And(AndNot(t, e), m) == AndNot(And(t, m), And(e, m))
  {
    calc {
      And(AndNot(t, e), m);
      AndNot(t, e) & m;
      (t & !e) & m;
      { RawDifferenceDistributes(e, t, m); }
      (t & m) & !(e & m);
      And(t, m) & !And(e, m);
      AndNot(And(t, m), And(e, m));
    }
  }

  lemma Zeros(a: bv64, b: bv64)
    ensures Or(a, b) == 0 <==> a == 0 && b == 0
    ensures Or(a, 0) == a == AndNot(a, 0)
    ensures AndNot(a, a) == AndNot(0, a) == 0
  {
  }

  lemma OneBit(w: bv64, i: bv6)
    ensures And(w, Shifted(i)) == 0 || And(w, Shifted(i)) == Shifted(i)
  {
  }

  lemma OtherBits(w: bv64, a: bv64, b: bv64)
    requires And(a, b) == 0
    ensures And(Or(w, a), b) == And(w, b)
    ensures And(AndNot(w, a), b) == And(w, b)
  {
    hide And, Or, AndNot;
    OrDistributes(w, a, b);
    DifferenceDistributes(a, w, b);
    Zeros(And(w, b), 0);
  }

  lemma OwnBit(w: bv64, a: bv64)
    ensures And(Or(w, a), a) == a
    ensures And(AndNot(w, a), a) == 0
  {
  }

  lemma BitsDiffer(i: nat, j: nat)
    requires i < 64 && j < 64
    ensures i != j ==> And(Bit(i), Bit(j)) == 0
    ensures Bit(i) != 0
  {
    hide BitNumber, Shifted, And;
    if BitNumber(i) == BitNumber(j) {
      BitNumbersDiffer(i, j);
    }
    ShiftedBitsDiffer(BitNumber(i), BitNumber(j));
  }

  // Setting or clearing one bit leaves the others alone.
  lemma OneBitChanges(w: bv64, i: nat, j: nat)
    requires i < 64 && j < 64
    ensures Has(Or(w, Bit(i)), j) <==> i == j || Has(w, j)
    ensures Has(AndNot(w, Bit(i)), j) <==> i != j && Has(w, j)
  {
    hide Bit, And, Or, AndNot;
    BitsDiffer(i, j);
    if i == j {
      OwnBit(w, Bit(i));
    } else {
      OtherBits(w, Bit(i), Bit(j));
    }
  }

  lemma OrBits(e: bv64, t: bv64, i: nat)
    requires i < 64
    ensures Has(Or(e, t), i) <==> Has(e, i) || Has(t, i)
  {
    hide And, Or, Bit;
    OrDistributes(e, t, Bit(i));
    Zeros(And(e, Bit(i)), And(t, Bit(i)));
  }

  lemma AndNotBits(t: bv64, e: bv64, i: nat)
    requires i < 64
    ensures Has(AndNot(t, e), i) <==> Has(t, i) && !Has(e, i)
  {
    hide BitNumber, Shifted, And, AndNot;
    var m := Bit(i);
    OneBit(e, BitNumber(i));
    OneBit(t, BitNumber(i));
    DifferenceDistributes(e, t, m);
    Zeros(m, And(e, m));
    Zeros(And(t, m), 0);
  }

  lemma CombinedBits(e: bv64, t: bv64, i: nat)
    requires i < 64
    ensures Has(Or(e, t), i) <==> Has(e, i) || Has(t, i)
    ensures Has(AndNot(t, e), i) <==> Has(t, i) && !Has(e, i)
  {
    hide Has, Or, AndNot;
    OrBits(e, t, i);
    AndNotBits(t, e, i);
  }

  datatype Word = Word(endpoints: bv64, traversed: bv64)

  predicate InBox(k: Key, minimum: Key, maximum: Key) {
    forall a | 0 <= a < 3 :: minimum[a] <= k[a] <= maximum[a]
  }

  function Volume(dims: seq<nat>): nat
    requires |dims| == 3
  {
    dims[0] * (dims[1] * dims[2])
  }

  // The mixed-radix index of a voxel of the box.
  function Index(k: Key, minimum: Key, dims: seq<nat>): int
    requires |dims| == 3
  {
    Cell(dims[0], k[0] - minimum[0], Cell(dims[1], k[1] - minimum[1], k[2] - minimum[2]))
  }

  lemma IndexIsInjective(k: Key, l: Key, minimum: Key, maximum: Key, dims: seq<nat>)
    requires |dims| == 3 && forall a | 0 <= a < 3 :: dims[a] == maximum[a] - minimum[a] + 1
    requires InBox(k, minimum, maximum) && InBox(l, minimum, maximum)
    ensures 0 <= Index(k, minimum, dims) < Volume(dims)
    ensures Index(k, minimum, dims) == Index(l, minimum, dims) ==> k == l
  {
    hide Cell;
    var rest, rest' := Cell(dims[1], k[1] - minimum[1], k[2] - minimum[2]),
      Cell(dims[1], l[1] - minimum[1], l[2] - minimum[2]);
    CellInRange(dims[1], dims[2], k[1] - minimum[1], k[2] - minimum[2]);
    CellInRange(dims[0], dims[1] * dims[2], k[0] - minimum[0], rest);
    if Index(k, minimum, dims) == Index(l, minimum, dims) {
      CellIsInjective(dims[0], k[0] - minimum[0], rest, l[0] - minimum[0], rest');
      CellIsInjective(dims[1], k[1] - minimum[1], k[2] - minimum[2], l[1] - minimum[1], l[2] - minimum[2]);
    }
  }

  // The bit of voxel index i, among the endpoint or the traversal bits.
  predicate BitAt(words: seq<Word>, i: int, traversal: bool)
    requires 0 <= i < 64 * |words|
  {
    Has(if traversal then words[i / 64].traversed else words[i / 64].endpoints, i % 64)
  }

  function SetAt(words: seq<Word>, i: int, traversal: bool): (updated: seq<Word>)
    requires 0 <= i < 64 * |words|
    ensures |updated| == |words|
  {
    var w := words[i / 64];
    words[i / 64 := if traversal then w.(traversed := Or(w.traversed, Bit(i % 64)))
                    else w.(endpoints := Or(w.endpoints, Bit(i % 64)))]
  }

  function ClearAt(words: seq<Word>, i: int): (updated: seq<Word>)
    requires 0 <= i < 64 * |words|
    ensures |updated| == |words|
  {
    words[i / 64 := words[i / 64].(traversed := AndNot(words[i / 64].traversed, Bit(i % 64)))]
  }

  lemma SetAtSetsOne(words: seq<Word>, i: int, traversal: bool, j: int, other: bool)
    requires 0 <= i < 64 * |words| && 0 <= j < 64 * |words|
    ensures BitAt(SetAt(words, i, traversal), j, other) <==> (i == j && traversal == other) || BitAt(words, j, other)
    ensures BitAt(ClearAt(words, i), j, other) <==> !(i == j && other) && BitAt(words, j, other)
  {
    hide Has, Or, AndNot, Bit;
    assert i == j <==> i / 64 == j / 64 && i % 64 == j % 64;
    OneBitChanges(words[j / 64].traversed, i % 64, j % 64);
    OneBitChanges(words[j / 64].endpoints, i % 64, j % 64);
  }

  lemma FreshWordsAreClear(words: seq<Word>, i: int, traversal: bool)
    requires 0 <= i < 64 * |words| && forall j | 0 <= j < |words| :: words[j] == Word(0, 0)
    ensures !BitAt(words, i, traversal)
  {
  }

  ghost predicate IsBox(minimum: Key, maximum: Key, dims: seq<nat>, words: seq<Word>) {
    && |dims| == 3 && (forall a | 0 <= a < 3 :: dims[a] == maximum[a] - minimum[a] + 1)
    && Volume(dims) <= 64 * |words|
  }

  // The words hold voxel k exactly as the two sets do.
  ghost predicate HoldsKey(words: seq<Word>, minimum: Key, maximum: Key, dims: seq<nat>, endpoints: set<Key>,
                           traversed: set<Key>, k: Key)
    requires IsBox(minimum, maximum, dims, words)
  {
    var i := Index(k, minimum, dims);
    0 <= i < 64 * |words| && (k in endpoints <==> BitAt(words, i, false)) && (k in traversed <==> BitAt(words, i, true))
  }

  ghost predicate Holds(words: seq<Word>, minimum: Key, maximum: Key, dims: seq<nat>, endpoints: set<Key>,
                        traversed: set<Key>)
    requires IsBox(minimum, maximum, dims, words)
  {
    forall k: Key | InBox(k, minimum, maximum) :: HoldsKey(words, minimum, maximum, dims, endpoints, traversed, k)
  }

  lemma HoldsKeyAfter(words: seq<Word>, minimum: Key, maximum: Key, dims: seq<nat>, endpoints: set<Key>,
                      traversed: set<Key>, k: Key, l: Key)
    requires IsBox(minimum, maximum, dims, words) && InBox(k, minimum, maximum) && InBox(l, minimum, maximum)
    requires HoldsKey(words, minimum, maximum, dims, endpoints, traversed, l)
    ensures 0 <= Index(k, minimum, dims) < 64 * |words|
    ensures HoldsKey(SetAt(words, Index(k, minimum, dims), false), minimum, maximum, dims, endpoints + {k}, traversed,
                     l)
    ensures HoldsKey(SetAt(words, Index(k, minimum, dims), true), minimum, maximum, dims, endpoints, traversed + {k}, l)
    ensures HoldsKey(ClearAt(words, Index(k, minimum, dims)), minimum, maximum, dims, endpoints, traversed - {k}, l)
  {
    hide BitAt, SetAt, ClearAt, Index, Volume;
    var i, j := Index(k, minimum, dims), Index(l, minimum, dims);
    IndexIsInjective(k, l, minimum, maximum, dims);
    SetAtSetsOne(words, i, false, j, false);
    SetAtSetsOne(words, i, false, j, true);
    SetAtSetsOne(words, i, true, j, false);
    SetAtSetsOne(words, i, true, j, true);
  }

  lemma HoldsAfter(words: seq<Word>, minimum: Key, maximum: Key, dims: seq<nat>, endpoints: set<Key>,
                   traversed: set<Key>, k: Key)
    requires IsBox(minimum, maximum, dims, words) && InBox(k, minimum, maximum)
    requires Holds(words, minimum, maximum, dims, endpoints, traversed)
    ensures 0 <= Index(k, minimum, dims) < 64 * |words|
    ensures k in endpoints <==> BitAt(words, Index(k, minimum, dims), false)
    ensures k in traversed <==> BitAt(words, Index(k, minimum, dims), true)
    ensures Holds(SetAt(words, Index(k, minimum, dims), false), minimum, maximum, dims, endpoints + {k}, traversed)
    ensures Holds(SetAt(words, Index(k, minimum, dims), true), minimum, maximum, dims, endpoints, traversed + {k})
    ensures Holds(ClearAt(words, Index(k, minimum, dims)), minimum, maximum, dims, endpoints, traversed - {k})
  {
    hide BitAt, SetAt, ClearAt, Index, Volume;
    assert HoldsKey(words, minimum, maximum, dims, endpoints, traversed, k);
    HoldsKeyAfter(words, minimum, maximum, dims, endpoints, traversed, k, k);
    hide HoldsKey;
    var i := Index(k, minimum, dims);
    forall l: Key | InBox(l, minimum, maximum)
      ensures HoldsKey(SetAt(words, i, false), minimum, maximum, dims, endpoints + {k}, traversed, l)
      ensures HoldsKey(SetAt(words, i, true), minimum, maximum, dims, endpoints, traversed + {k}, l)
      ensures HoldsKey(ClearAt(words, i), minimum, maximum, dims, endpoints, traversed - {k}, l)
    {
      HoldsKeyAfter(words, minimum, maximum, dims, endpoints, traversed, k, l);
    }
  }

  lemma FreshWordsHoldNothing(words: seq<Word>, minimum: Key, maximum: Key, dims: seq<nat>)
    requires IsBox(minimum, maximum, dims, words) && forall j | 0 <= j < |words| :: words[j] == Word(0, 0)
    ensures Holds(words, minimum, maximum, dims, {}, {})
  {
    hide BitAt, Index, Volume;
    forall k: Key | InBox(k, minimum, maximum) ensures HoldsKey(words, minimum, maximum, dims, {}, {}, k) {
      IndexIsInjective(k, k, minimum, maximum, dims);
      FreshWordsAreClear(words, Index(k, minimum, dims), false);
      FreshWordsAreClear(words, Index(k, minimum, dims), true);
    }
  }

  // The box of the sensor and the returns.
  method BoundingBox(points: seq<Key>, sensor: Key) returns (minimum: Key, maximum: Key)
    ensures InBox(sensor, minimum, maximum) && forall i | 0 <= i < |points| :: InBox(points[i], minimum, maximum)
  {
    minimum, maximum := sensor, sensor;
    for i := 0 to |points|
      invariant InBox(sensor, minimum, maximum) && forall j | 0 <= j < i :: InBox(points[j], minimum, maximum)
    {
      minimum := LowCorner(minimum, points[i]);
      maximum := HighCorner(maximum, points[i]);
    }
  }

  function LowCorner(k: Key, l: Key): Key {
    [if l[0] < k[0] then l[0] else k[0], if l[1] < k[1] then l[1] else k[1], if l[2] < k[2] then l[2] else k[2]]
  }

  function HighCorner(k: Key, l: Key): Key {
    [if l[0] > k[0] then l[0] else k[0], if l[1] > k[1] then l[1] else k[1], if l[2] > k[2] then l[2] else k[2]]
  }

  function Product(dims: seq<nat>, n: nat): nat
    requires n <= |dims|
  {
    if n == 0 then 1 else Product(dims, n - 1) * dims[n - 1]
  }

  // The number of voxels of the box, or 0 when there are too many for the words.
  method DenseSize(dims: seq<nat>) returns (size: nat)
    requires |dims| == 3 && forall a | 0 <= a < 3 :: dims[a] > 0
    ensures size == if Volume(dims) <= MAX_VOXELS then Volume(dims) else 0
  {
    VolumeAssociates(dims);
    hide Volume, Product;
    size := 1;
    assert Product(dims, 0) == 1 by { ProductSteps(dims, 0); }
    for a := 0 to 3
      invariant 0 < size <= MAX_VOXELS && size == Product(dims, a)
    {
      ProductSteps(dims, a);
      QuotientBound(MAX_VOXELS, size, dims[a]);
      if dims[a] > MAX_VOXELS / size {
        ProductsGrow(dims, a + 1);
        return 0;
      }
      size := size * dims[a];
    }
  }

  lemma ProductSteps(dims: seq<nat>, a: nat)
    requires a < |dims| && forall b | 0 <= b < |dims| :: dims[b] > 0
    ensures Product(dims, 0) == 1 && Product(dims, a + 1) == Product(dims, a) * dims[a]
    ensures Product(dims, a) > 0 ==> Product(dims, a + 1) > 0
  {
    if Product(dims, a) > 0 {
      assert Product(dims, a) * dims[a] > 0;
    }
  }

  lemma {:induction false} ProductsGrow(dims: seq<nat>, a: nat)
    requires a <= |dims| && forall b | 0 <= b < |dims| :: dims[b] > 0
    ensures Product(dims, a) <= Product(dims, |dims|)
    decreases |dims| - a
  {
    if a < |dims| {
      ProductsGrow(dims, a + 1);
      assert Product(dims, a) * (dims[a] - 1) >= 0;
    }
  }

  lemma VolumeAssociates(dims: seq<nat>)
    requires |dims| == 3
    ensures Product(dims, 3) == Volume(dims)
  {
    assert Product(dims, 2) == dims[0] * dims[1] by {
      assert Product(dims, 1) == dims[0];
    }
    assert dims[0] * dims[1] * dims[2] == dims[0] * (dims[1] * dims[2]);
  }

  lemma QuotientBound(limit: nat, size: nat, d: nat)
    requires size > 0
    ensures size * d <= limit <==> d <= limit / size
  {
    if d <= limit / size {
      assert size * d <= size * (limit / size);
    } else {
      assert size * d >= size * (limit / size + 1) > limit;
    }
  }

  // Both forms of the mask stand for two sets of voxels of the box.
  class RayFrameMask {
    const minimum: Key
    const maximum: Key
    const dims: seq<nat>
    const words: array<Word>
    var endpointSet: set<Key>
    var traversedSet: set<Key>
    var visited: nat
    ghost var endpoints: set<Key>
    ghost var traversed: set<Key>

    ghost predicate Valid()
      reads this, words
    {
      && (forall k | k in endpoints + traversed :: InBox(k, minimum, maximum))
      && if words.Length == 0 then endpointSet == endpoints && traversedSet == traversed
         else IsBox(minimum, maximum, dims, words[..]) && Holds(words[..], minimum, maximum, dims, endpoints, traversed)
    }

    constructor (points: seq<Key>, sensor: Key)
      ensures Valid() && fresh(words)
      ensures endpoints == (set i | 0 <= i < |points| :: points[i]) && traversed == {} && visited == 0
      ensures InBox(sensor, minimum, maximum)
    {
      var lo, hi := BoundingBox(points, sensor);
      var extent: seq<nat> := [hi[0] - lo[0] + 1, hi[1] - lo[1] + 1, hi[2] - lo[2] + 1];
      var size := DenseSize(extent);
      minimum, maximum, dims := lo, hi, extent;
      words := new Word[(size + 63) / 64](_ => Word(0, 0));
      endpointSet, traversedSet, visited := {}, {}, 0;
      endpoints, traversed := {}, {};
      new;
      hide Holds, InBox, Volume;
      if words.Length != 0 {
        FreshWordsHoldNothing(words[..], minimum, maximum, dims);
      }
      for i := 0 to |points|
        invariant Valid() && endpoints == (set j | 0 <= j < i :: points[j]) && traversed == {} && visited == 0
      {
        InsertEndpoint(points[i]);
      }
    }

    method InsertEndpoint(k: Key)
      requires Valid() && InBox(k, minimum, maximum)
      modifies this`endpointSet, this`endpoints, words
      ensures Valid() && endpoints == old(endpoints) + {k}
    {
      if words.Length == 0 {
        endpointSet := endpointSet + {k};
      } else {
        var i := Index(k, minimum, dims);
        HoldsAfter(words[..], minimum, maximum, dims, endpoints, traversed, k);
        ghost var before := words[..];
        words[i / 64] := words[i / 64].(endpoints := Or(words[i / 64].endpoints, Bit(i % 64)));
        assert words[..] == SetAt(before, i, false);
      }
      endpoints := endpoints + {k};
    }

    // The first visit of a voxel that is no endpoint.
    method ClearOnce(k: Key) returns (first: bool)
      requires Valid() && InBox(k, minimum, maximum)
      modifies this`traversedSet, this`traversed, this`visited, words
      ensures Valid()
      ensures first <==> k !in endpoints && k !in old(traversed)
      ensures traversed == if first then old(traversed) + {k} else old(traversed)
      ensures visited == if first then old(visited) + 1 else old(visited)
    {
      if words.Length == 0 {
        if k in endpointSet || k in traversedSet {
          return false;
        }
        traversedSet := traversedSet + {k};
      } else {
        var i := Index(k, minimum, dims);
        HoldsAfter(words[..], minimum, maximum, dims, endpoints, traversed, k);
        var word := words[i / 64];
        CombinedBits(word.endpoints, word.traversed, i % 64);
        if Has(Or(word.endpoints, word.traversed), i % 64) {
          return false;
        }
        ghost var before := words[..];
        words[i / 64] := word.(traversed := Or(word.traversed, Bit(i % 64)));
        assert words[..] == SetAt(before, i, true);
      }
      traversed := traversed + {k};
      visited := visited + 1;
      return true;
    }

    method AddCandidate(k: Key)
      requires Valid()
      modifies this`traversedSet, this`traversed, words
      ensures Valid()
      ensures traversed == if InBox(k, minimum, maximum) then old(traversed) + {k} else old(traversed)
    {
      if !InBox(k, minimum, maximum) {
        return;
      }
      if words.Length == 0 {
        traversedSet := traversedSet + {k};
      } else {
        var i := Index(k, minimum, dims);
        HoldsAfter(words[..], minimum, maximum, dims, endpoints, traversed, k);
        ghost var before := words[..];
        words[i / 64] := words[i / 64].(traversed := Or(words[i / 64].traversed, Bit(i % 64)));
        assert words[..] == SetAt(before, i, true);
      }
      traversed := traversed + {k};
    }

    method Candidate(k: Key) returns (candidate: bool)
      requires Valid() && InBox(k, minimum, maximum)
      ensures candidate <==> k in traversed && k !in endpoints
    {
      if words.Length == 0 {
        return k in traversedSet && k !in endpointSet;
      }
      var i := Index(k, minimum, dims);
      HoldsAfter(words[..], minimum, maximum, dims, endpoints, traversed, k);
      var word := words[i / 64];
      CombinedBits(word.endpoints, word.traversed, i % 64);
      return Has(AndNot(word.traversed, word.endpoints), i % 64);
    }

    method RemoveCandidate(k: Key)
      requires Valid() && InBox(k, minimum, maximum)
      modifies this`traversedSet, this`traversed, words
      ensures Valid() && traversed == old(traversed) - {k}
    {
      if words.Length == 0 {
        traversedSet := traversedSet - {k};
      } else {
        var i := Index(k, minimum, dims);
        HoldsAfter(words[..], minimum, maximum, dims, endpoints, traversed, k);
        ghost var before := words[..];
        words[i / 64] := words[i / 64].(traversed := AndNot(words[i / 64].traversed, Bit(i % 64)));
        assert words[..] == ClearAt(before, i);
      }
      traversed := traversed - {k};
    }
  }
}
