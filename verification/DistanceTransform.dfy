/** The one-dimensional squared distance transform: a stack of parabolas and the
    boundaries between their regions of minimality, proved equal to the minimum
    taken over every finite site. */
module DistanceTransform {
  import opened Basics

  // A double that may be infinite. Only Fin entries pass std::isfinite.
  datatype Extended = MinusInfinity | Fin(value: real) | PlusInfinity

  predicate Less(a: Extended, b: Extended) {
    match (a, b)
    case (Fin(x), Fin(y)) => x < y
    case (MinusInfinity, _) => b != MinusInfinity
    case (_, PlusInfinity) => a != PlusInfinity
    case _ => false
  }

  // The squared distance from x to site i, plus the cost already stored at i.
  function Parabola(f: seq<Extended>, i: int, x: real): real
    requires 0 <= i < |f| && f[i].Fin?
  {
    Square(x - i as real) + f[i].value
  }

  // The specification: the minimum over the finite sites among the first n.
  function Envelope(f: seq<Extended>, n: nat, x: real): Extended
    requires n <= |f|
  {
    if n == 0 then PlusInfinity
    else
      var rest := Envelope(f, n - 1, x);
      if f[n - 1].Fin? && Less(Fin(Parabola(f, n - 1, x)), rest) then Fin(Parabola(f, n - 1, x)) else rest
  }

  // What it means to be that minimum: a lower bound that some site attains.
  lemma EnvelopeIsMinimum(f: seq<Extended>, n: nat, x: real)
    requires n <= |f|
    ensures forall i | 0 <= i < n && f[i].Fin? :: Envelope(f, n, x).Fin? && Envelope(f, n, x).value <= Parabola(f, i, x)
    ensures Envelope(f, n, x).Fin? ==>
              exists i :: 0 <= i < n && f[i].Fin? && Envelope(f, n, x).value == Parabola(f, i, x)
    ensures Envelope(f, n, x) != MinusInfinity
  {
    if n != 0 {
      EnvelopeIsMinimum(f, n - 1, x);
    }
  }

  // A site that no earlier site beats at x attains the minimum there.
  lemma EnvelopeAt(f: seq<Extended>, n: nat, x: real, site: int)
    requires n <= |f| && 0 <= site < n && f[site].Fin?
    requires forall i | 0 <= i < n && f[i].Fin? :: Parabola(f, site, x) <= Parabola(f, i, x)
    ensures Envelope(f, n, x) == Fin(Parabola(f, site, x))
  {
    EnvelopeIsMinimum(f, n, x);
  }

  function Intersection(f: seq<Extended>, site: int, query: int): real
    requires 0 <= site < query < |f| && f[site].Fin? && f[query].Fin?
  {
    ((f[query].value + (query * query) as real) - (f[site].value + (site * site) as real)) /
    (2 * (query - site)) as real
  }

  // The later parabola is the lower one exactly to the right of the intersection.
  lemma Crossing(f: seq<Extended>, site: int, query: int, x: real)
    requires 0 <= site < query < |f| && f[site].Fin? && f[query].Fin?
    ensures x >= Intersection(f, site, query) ==> Parabola(f, query, x) <= Parabola(f, site, x)
    ensures x <= Intersection(f, site, query) ==> Parabola(f, site, x) <= Parabola(f, query, x)
  {
    var gap := (2 * (query - site)) as real;
    var meet := Intersection(f, site, query);
    var s, q := site as real, query as real;
    assert (query * query) as real == q * q && (site * site) as real == s * s && gap == 2.0 * (q - s);
    assert gap * meet == (f[query].value + q * q) - (f[site].value + s * s);
    assert Parabola(f, site, x) - Parabola(f, query, x) == gap * (x - meet) by {
      assert Parabola(f, site, x) == x * x - 2.0 * s * x + s * s + f[site].value;
      assert Parabola(f, query, x) == x * x - 2.0 * q * x + q * q + f[query].value;
      assert gap * (x - meet) == gap * x - gap * meet;
      assert gap * x == 2.0 * q * x - 2.0 * s * x;
    }
    if x >= meet {
      assert gap * (x - meet) >= 0.0;
    }
    if x <= meet {
      assert gap * (meet - x) >= 0.0;
    }
  }

  // Between lo and hi, site is at most every finite parabola among the first n,
  // or rival is (rival == site when there is no rival).
  ghost predicate Covers(f: seq<Extended>, n: nat, site: int, rival: int, lo: Extended, hi: Extended)
    requires n <= |f|
    requires 0 <= site < |f| && f[site].Fin?
    requires 0 <= rival < |f| && f[rival].Fin?
  {
    forall x: real, i: int | 0 <= i < n && f[i].Fin? && !Less(Fin(x), lo) && !Less(hi, Fin(x)) ::
      Parabola(f, site, x) <= Parabola(f, i, x) || Parabola(f, rival, x) <= Parabola(f, i, x)
  }

  // The stack over the first n entries: finite sites in increasing order, with
  // increasing boundaries above the bottom one.
  ghost predicate Stack(f: seq<Extended>, n: nat, sites: seq<int>, bounds: seq<Extended>, top: nat)
  {
    && n <= |f| == |sites| && top < n && |bounds| == |f| + 1
    && (forall j | 0 <= j <= top :: j <= sites[j] < n && f[sites[j]].Fin?)
    && (forall j | 0 <= j < top :: sites[j] < sites[j + 1])
    && bounds[0] == MinusInfinity
    && (forall j | 1 <= j <= top :: bounds[j].Fin?)
    && (forall j | 0 <= j < top :: Less(bounds[j], bounds[j + 1]))
  }

  // Below the top region every region is final; the top site shares its
  // unbounded region with rival while the rival's place is being sought.
  ghost predicate Partition(f: seq<Extended>, n: nat, sites: seq<int>, bounds: seq<Extended>, top: nat, rival: int)
  {
    && Stack(f, n, sites, bounds, top)
    && (forall j | 0 <= j < top :: Covers(f, n, sites[j], sites[j], bounds[j], bounds[j + 1]))
    && 0 <= rival < |f| && f[rival].Fin?
    && Covers(f, n, sites[top], rival, bounds[top], PlusInfinity)
  }

  // The partition is complete: the stack alone is the lower envelope.
  ghost predicate Complete(f: seq<Extended>, n: nat, sites: seq<int>, bounds: seq<Extended>, top: nat)
  {
    && Stack(f, n, sites, bounds, top)
    && Partition(f, n, sites, bounds, top, sites[top])
    && bounds[top + 1] == PlusInfinity
  }

  lemma FirstSiteCompletes(f: seq<Extended>, first: nat, sites: seq<int>, bounds: seq<Extended>)
    requires first < |f| == |sites| && |bounds| == |f| + 1
    requires f[first].Fin? && forall i | 0 <= i < first :: !f[i].Fin?
    requires sites[0] == first && bounds[0] == MinusInfinity && bounds[1] == PlusInfinity
    ensures Complete(f, first + 1, sites, bounds, 0)
  {
  }

  lemma InfiniteEntryChangesNothing(f: seq<Extended>, n: nat, sites: seq<int>, bounds: seq<Extended>, top: nat)
    requires Complete(f, n, sites, bounds, top) && n < |f| && !f[n].Fin?
    ensures Complete(f, n + 1, sites, bounds, top)
  {
    hide Parabola, Intersection, Less;
    forall j | 0 <= j < top ensures Covers(f, n + 1, sites[j], sites[j], bounds[j], bounds[j + 1]) {
      assert Covers(f, n, sites[j], sites[j], bounds[j], bounds[j + 1]);
    }
  }

  lemma RivalJoins(f: seq<Extended>, query: nat, sites: seq<int>, bounds: seq<Extended>, top: nat)
    requires Complete(f, query, sites, bounds, top) && query < |f| && f[query].Fin?
    ensures Partition(f, query, sites, bounds, top, query)
    ensures 0 <= sites[top] < query && f[sites[top]].Fin?
  {
  }

  // Popping: where the popped region ends the query has already taken over.
  lemma PopKeepsPartition(f: seq<Extended>, query: nat, sites: seq<int>, bounds: seq<Extended>, top: nat)
    requires query < |f| && f[query].Fin? && Partition(f, query, sites, bounds, top, query)
    requires !Less(bounds[top], Fin(Intersection(f, sites[top], query)))
    ensures 0 < top && Partition(f, query, sites, bounds, top - 1, query)
    ensures 0 <= sites[top - 1] < query && f[sites[top - 1]].Fin?
  {
    hide Parabola, Intersection;
    var below := sites[top - 1];
    forall x: real, i: int | 0 <= i < query && f[i].Fin? && !Less(Fin(x), bounds[top - 1])
      ensures Parabola(f, below, x) <= Parabola(f, i, x) || Parabola(f, query, x) <= Parabola(f, i, x)
    {
      if !Less(bounds[top], Fin(x)) {
        assert Covers(f, query, below, below, bounds[top - 1], bounds[top - 1 + 1]);
      } else {
        Crossing(f, sites[top], query, x);
      }
    }
  }

  // Pushing: the regions below the query's start keep their sites.
  lemma OlderRegionHolds(f: seq<Extended>, query: nat, sites: seq<int>, bounds: seq<Extended>, top: nat, j: nat)
    requires query < |f| && f[query].Fin? && Partition(f, query, sites, bounds, top, query) && j <= top
    requires Less(bounds[top], Fin(Intersection(f, sites[top], query)))
    ensures Covers(f, query + 1, sites[j], sites[j], bounds[j],
                   if j < top then bounds[j + 1] else Fin(Intersection(f, sites[top], query)))
  {
    hide Parabola, Intersection;
    var last, meet := sites[top], Intersection(f, sites[top], query);
    var hi := if j < top then bounds[j + 1] else Fin(meet);
    BoundsAscend(f, query, sites, bounds, top, if j < top then j + 1 else j);
    forall x: real, i: int | 0 <= i < query + 1 && f[i].Fin? && !Less(Fin(x), bounds[j]) && !Less(hi, Fin(x))
      ensures Parabola(f, sites[j], x) <= Parabola(f, i, x)
    {
      Crossing(f, last, query, x);
      assert Parabola(f, last, x) <= Parabola(f, query, x);
      if j < top {
        assert Covers(f, query, sites[j], sites[j], bounds[j], bounds[j + 1]);
        assert Parabola(f, sites[j], x) <= Parabola(f, last, x);
      }
    }
  }

  // The query holds everything from its start on.
  lemma QueryRegionHolds(f: seq<Extended>, query: nat, sites: seq<int>, bounds: seq<Extended>, top: nat)
    requires query < |f| && f[query].Fin? && Partition(f, query, sites, bounds, top, query)
    requires Less(bounds[top], Fin(Intersection(f, sites[top], query)))
    ensures Covers(f, query + 1, query, query, Fin(Intersection(f, sites[top], query)), PlusInfinity)
  {
    hide Parabola, Intersection;
    var last, meet := sites[top], Intersection(f, sites[top], query);
    forall x: real, i: int | 0 <= i < query + 1 && f[i].Fin? && !Less(Fin(x), Fin(meet))
      ensures Parabola(f, query, x) <= Parabola(f, i, x)
    {
      Crossing(f, last, query, x);
    }
  }

  // Pushing: the query's region starts where it overtakes the remaining top.
  lemma PushCompletes(f: seq<Extended>, query: nat, sites: seq<int>, bounds: seq<Extended>, top: nat,
                      sites': seq<int>, bounds': seq<Extended>)
    requires query < |f| && f[query].Fin? && Partition(f, query, sites, bounds, top, query)
    requires Less(bounds[top], Fin(Intersection(f, sites[top], query)))
    requires sites' == sites[top + 1 := query]
    requires bounds' == bounds[top + 1 := Fin(Intersection(f, sites[top], query))][top + 2 := PlusInfinity]
    ensures Complete(f, query + 1, sites', bounds', top + 1)
  {
    hide Parabola, Intersection, Covers;
    forall j | 0 <= j < top + 1
      ensures Covers(f, query + 1, sites'[j], sites'[j], bounds'[j], bounds'[j + 1])
    {
      OlderRegionHolds(f, query, sites, bounds, top, j);
    }
    QueryRegionHolds(f, query, sites, bounds, top);
  }

  lemma BoundsAscend(f: seq<Extended>, n: nat, sites: seq<int>, bounds: seq<Extended>, top: nat, j: nat)
    requires Stack(f, n, sites, bounds, top) && j <= top
    ensures bounds[j] == bounds[top] || Less(bounds[j], bounds[top])
    decreases top - j
  {
    if j < top {
      BoundsAscend(f, n, sites, bounds, top, j + 1);
    }
  }

  lemma RegionHoldsMinimum(f: seq<Extended>, sites: seq<int>, bounds: seq<Extended>, top: nat, j: nat, x: real)
    requires Complete(f, |f|, sites, bounds, top)
    requires j <= top && !Less(Fin(x), bounds[j]) && !Less(bounds[j + 1], Fin(x))
    ensures 0 <= sites[j] < |f| && f[sites[j]].Fin?
    ensures Envelope(f, |f|, x) == Fin(Parabola(f, sites[j], x))
  {
    hide Parabola, Intersection;
    assert Covers(f, |f|, sites[j], sites[j], bounds[j], bounds[j + 1]);
    EnvelopeAt(f, |f|, x, sites[j]);
  }

  function DistanceVia(f: seq<Extended>, site: int, query: int): (d: Extended)
    requires 0 <= site < |f| && f[site].Fin?
    ensures d == Fin(Parabola(f, site, query as real))
  {
    var delta := (query - site) as real;
    assert delta == query as real - site as real;
    Fin(Square(delta) + f[site].value)
  }

  lemma BeyondStaysBeyond(bound: Extended, q: int)
    requires !Less(Fin(q as real), bound)
    ensures !Less(Fin((q + 1) as real), bound)
  {
  }

  lemma CompleteShape(f: seq<Extended>, n: nat, sites: seq<int>, bounds: seq<Extended>, top: nat)
    requires Complete(f, n, sites, bounds, top)
    ensures top < n <= |f| == |sites| && |bounds| == |f| + 1
    ensures bounds[0] == MinusInfinity && bounds[top + 1] == PlusInfinity
  {
  }

  // One query: pop every site it makes redundant, then push it.
  method PushSite(input: seq<Extended>, query: nat, sites: array<int>, boundaries: array<Extended>, count: nat)
    returns (siteCount: nat, ghost pops: nat)
    requires query < |input| && input[query].Fin?
    requires sites.Length == |input| && boundaries.Length == |input| + 1
    requires Complete(input, query, sites[..], boundaries[..], count)
    modifies sites, boundaries
    ensures siteCount + pops == count + 1
    ensures Complete(input, query + 1, sites[..], boundaries[..], siteCount)
  {
    CompleteShape(input, query, sites[..], boundaries[..], count);
    RivalJoins(input, query, sites[..], boundaries[..], count);
    hide Covers, Complete, Partition, Stack;
    siteCount, pops := count, 0;
    ghost var stack, bounds := sites[..], boundaries[..];
    var intersection := 0.0;
    while true
      invariant siteCount + pops == count && sites[..] == stack && boundaries[..] == bounds
      invariant 0 <= stack[siteCount] < query && input[stack[siteCount]].Fin?
      invariant Partition(input, query, stack, bounds, siteCount, query)
      decreases siteCount
    {
      var site := sites[siteCount];
      assert site == stack[siteCount];
      intersection := Intersection(input, site, query);
      if Less(boundaries[siteCount], Fin(intersection)) {
        break;
      }
      PopKeepsPartition(input, query, stack, bounds, siteCount);
      siteCount := siteCount - 1;
      pops := pops + 1;
    }
    siteCount := siteCount + 1;
    sites[siteCount] := query;
    boundaries[siteCount] := Fin(intersection);
    boundaries[siteCount + 1] := PlusInfinity;
    PushCompletes(input, query, stack, bounds, siteCount - 1, sites[..], boundaries[..]);
  }

  // The region holding the query, never passing the unbounded last one.
  method AdvanceRegion(boundaries: seq<Extended>, last: nat, from: nat, query: int) returns (siteCount: nat)
    requires from <= last && last + 1 < |boundaries| && boundaries[last + 1] == PlusInfinity
    requires !Less(Fin(query as real), boundaries[from])
    ensures siteCount <= last && !Less(Fin(query as real), boundaries[siteCount])
    ensures !Less(boundaries[siteCount + 1], Fin(query as real))
  {
    siteCount := from;
    while Less(boundaries[siteCount + 1], Fin(query as real))
      invariant siteCount <= last && !Less(Fin(query as real), boundaries[siteCount])
      decreases last - siteCount
    {
      siteCount := siteCount + 1;
    }
  }

  // Walk the regions from left to right, never passing the unbounded last one.
  method EvaluateEnvelope(input: seq<Extended>, sites: seq<int>, boundaries: seq<Extended>, last: nat)
    returns (output: seq<Extended>)
    requires Complete(input, |input|, sites, boundaries, last)
    ensures |output| == |input|
    ensures forall q | 0 <= q < |input| :: output[q] == Envelope(input, |input|, q as real)
  {
    CompleteShape(input, |input|, sites, boundaries, last);
    assert !Less(Fin(0 as real), boundaries[0]);
    hide Envelope, Complete, Parabola, Less, DistanceVia;
    var siteCount := 0;
    output := [];
    for query := 0 to |input|
      invariant query == |output| && siteCount <= last
      invariant !Less(Fin(query as real), boundaries[siteCount])
      invariant forall q | 0 <= q < query :: output[q] == Envelope(input, |input|, q as real)
    {
      siteCount := AdvanceRegion(boundaries, last, siteCount, query);
      RegionHoldsMinimum(input, sites, boundaries, last, siteCount, query as real);
      BeyondStaysBeyond(boundaries[siteCount], query);
      output := output + [DistanceVia(input, sites[siteCount], query)];
    }
  }

  method BuildEnvelope(input: seq<Extended>, firstSite: nat, sites: array<int>, boundaries: array<Extended>)
    returns (siteCount: nat, ghost pops: nat)
    requires firstSite < |input| == sites.Length && boundaries.Length == |input| + 1
    requires Complete(input, firstSite + 1, sites[..], boundaries[..], 0)
    modifies sites, boundaries
    ensures Complete(input, |input|, sites[..], boundaries[..], siteCount)
    ensures siteCount + pops < |input|
  {
    hide Complete;
    siteCount, pops := 0, 0;
    var query := firstSite + 1;
    while query < |input|
      invariant siteCount + pops < query <= |input|
      invariant Complete(input, query, sites[..], boundaries[..], siteCount)
    {
      if input[query].Fin? {
        ghost var popped;
        siteCount, popped := PushSite(input, query, sites, boundaries, siteCount);
        pops := pops + popped;
      } else {
        InfiniteEntryChangesNothing(input, query, sites[..], boundaries[..], siteCount);
      }
      query := query + 1;
    }
  }

  method FindFirstSite(input: seq<Extended>) returns (firstSite: nat)
    ensures firstSite <= |input| && (firstSite < |input| ==> input[firstSite].Fin?)
    ensures forall i | 0 <= i < firstSite :: !input[i].Fin?
  {
    firstSite := 0;
    while firstSite < |input| && !input[firstSite].Fin?
      invariant firstSite <= |input|
      invariant forall i | 0 <= i < firstSite :: !input[i].Fin?
    {
      firstSite := firstSite + 1;
    }
  }

  method SquaredDistanceTransform1d(input: seq<Extended>) returns (output: seq<Extended>, ghost pops: nat)
    ensures |output| == |input|
    ensures forall q | 0 <= q < |input| :: output[q] == Envelope(input, |input|, q as real)
    ensures pops <= |input|
  {
    var size := |input|;
    pops := 0;
    var firstSite := FindFirstSite(input);
    if firstSite == size {
      output := seq(size, _ => PlusInfinity);
      forall q | 0 <= q < size ensures output[q] == Envelope(input, size, q as real) {
        EnvelopeIsMinimum(input, size, q as real);
      }
      return;
    }
    var sites := new int[size](_ => 0);
    var boundaries := new Extended[size + 1](_ => Fin(0.0));
    sites[0] := firstSite;
    boundaries[0] := MinusInfinity;
    boundaries[1] := PlusInfinity;
    FirstSiteCompletes(input, firstSite, sites[..], boundaries[..]);
    hide Envelope, Complete;
    var siteCount;
    siteCount, pops := BuildEnvelope(input, firstSite, sites, boundaries);
    output := EvaluateEnvelope(input, sites[..], boundaries[..], siteCount);
  }
}
