/** When a ray speaks against a stored return, as a matter of distances. */
module RayGeometry {
  import opened Basics
  import opened OdomLayer

  // The point of the ray's line at parameter t: 0 at the sensor, 1 at the endpoint.
  function OnLine(sensor: Point, endpoint: Point, t: real): Point {
    [sensor[0] + (endpoint[0] - sensor[0]) * t, sensor[1] + (endpoint[1] - sensor[1]) * t,
     sensor[2] + (endpoint[2] - sensor[2]) * t]
  }

  function Gap(a: Point, b: Point): (square: real)
    ensures square >= 0.0
  {
    SquareSign(a[0] - b[0]);
    SquareSign(a[1] - b[1]);
    SquareSign(a[2] - b[2]);
    Square(a[0] - b[0]) + Square(a[1] - b[1]) + Square(a[2] - b[2])
  }

  // No point of the line is closer.
  ghost predicate IsFoot(point: Point, sensor: Point, endpoint: Point, t: real) {
    forall u: real :: Gap(point, OnLine(sensor, endpoint, t)) <= Gap(point, OnLine(sensor, endpoint, u))
  }

  function Quadratic(vv: real, vd: real, dd: real, t: real): real {
    vv - 2.0 * t * vd + t * t * dd
  }

  // One coordinate's share of a dot product.
  function Share(a: Point, b: Point, i: nat): real
    requires i < 3
  {
    a[i] * b[i]
  }

  lemma DotShares(a: Point, b: Point)
    ensures Dot(a, b) == Share(a, b, 0) + Share(a, b, 1) + Share(a, b, 2)
  {
  }

  lemma AxisExpands(point: Point, sensor: Point, endpoint: Point, t: real, i: nat)
    requires i < 3
    ensures var d, v := Minus(endpoint, sensor), Minus(point, sensor);
            Square(point[i] - OnLine(sensor, endpoint, t)[i]) ==
            Quadratic(Share(v, v, i), Share(v, d, i), Share(d, d, i), t)
  {
    hide OnLine, Minus, Quadratic, Square, Share;
    var d, v := Minus(endpoint, sensor), Minus(point, sensor);
    var along := AxisAlong(point, sensor, endpoint, t, i);
    SharesAre(v, d, i);
    SquareExpands(point[i] - OnLine(sensor, endpoint, t)[i], v[i], d[i], t, along, Share(v, v, i), Share(v, d, i),
                  Share(d, d, i));
  }

  lemma AxisAlong(point: Point, sensor: Point, endpoint: Point, t: real, i: nat) returns (along: real)
    requires i < 3
    ensures along == Minus(endpoint, sensor)[i] * t
    ensures point[i] - OnLine(sensor, endpoint, t)[i] == Minus(point, sensor)[i] - along
  {
    along := (endpoint[i] - sensor[i]) * t;
  }

  lemma SharesAre(v: Point, d: Point, i: nat)
    requires i < 3
    ensures Share(v, v, i) == v[i] * v[i] && Share(v, d, i) == v[i] * d[i] && Share(d, d, i) == d[i] * d[i]
  {
  }

  lemma SquareExpands(x: real, v: real, d: real, t: real, along: real, vv: real, vd: real, dd: real)
    requires x == v - along && along == d * t && vv == v * v && vd == v * d && dd == d * d
    ensures Square(x) == Quadratic(vv, vd, dd, t)
  {
    assert (v - d * t) * (v - d * t) == v * v - 2.0 * t * (v * d) + t * t * (d * d);
  }

  lemma QuadraticsAdd(a: real, b: real, c: real, a': real, b': real, c': real, a'': real, b'': real, c'': real, t: real)
    ensures Quadratic(a, b, c, t) + Quadratic(a', b', c', t) + Quadratic(a'', b'', c'', t) ==
            Quadratic(a + a' + a'', b + b' + b'', c + c' + c'', t)
  {
  }

  lemma GapExpands(point: Point, sensor: Point, endpoint: Point, t: real, vv: real, vd: real, dd: real)
    requires var d, v := Minus(endpoint, sensor), Minus(point, sensor);
             vv == Dot(v, v) && vd == Dot(v, d) && dd == Dot(d, d)
    ensures Gap(point, OnLine(sensor, endpoint, t)) == Quadratic(vv, vd, dd, t)
  {
    hide Quadratic, Square, Dot, OnLine, Share, Minus;
    var d, v := Minus(endpoint, sensor), Minus(point, sensor);
    DotShares(v, v);
    DotShares(v, d);
    DotShares(d, d);
    AxisExpands(point, sensor, endpoint, t, 0);
    AxisExpands(point, sensor, endpoint, t, 1);
    AxisExpands(point, sensor, endpoint, t, 2);
    QuadraticsAdd(Share(v, v, 0), Share(v, d, 0), Share(d, d, 0), Share(v, v, 1), Share(v, d, 1), Share(d, d, 1),
                  Share(v, v, 2), Share(v, d, 2), Share(d, d, 2), t);
  }

  lemma QuadraticAroundItsLowest(vv: real, vd: real, dd: real, t: real, u: real)
    requires vd == t * dd
    ensures Quadratic(vv, vd, dd, u) == Quadratic(vv, vd, dd, t) + dd * Square(u - t)
    ensures Quadratic(vv, vd, dd, t) == vv - t * t * dd
  {
    assert 2.0 * u * vd == 2.0 * u * t * dd && 2.0 * t * vd == 2.0 * t * t * dd;
    assert Square(u - t) == u * u - 2.0 * u * t + t * t;
  }

  lemma FootIsTheProjection(point: Point, sensor: Point, endpoint: Point, t: real, vd: real, dd: real)
    requires vd == Dot(Minus(point, sensor), Minus(endpoint, sensor))
    requires dd == Dot(Minus(endpoint, sensor), Minus(endpoint, sensor)) && dd > 0.0 && vd == t * dd
    ensures forall u :: IsFoot(point, sensor, endpoint, u) <==> u == t
    ensures var vv := Dot(Minus(point, sensor), Minus(point, sensor));
            Gap(point, OnLine(sensor, endpoint, t)) == vv - t * t * dd
  {
    hide Dot, Gap, OnLine, Quadratic, Square;
    var vv := Dot(Minus(point, sensor), Minus(point, sensor));
    GapExpands(point, sensor, endpoint, t, vv, vd, dd);
    QuadraticAroundItsLowest(vv, vd, dd, t, t);
    forall u ensures Gap(point, OnLine(sensor, endpoint, t)) <= Gap(point, OnLine(sensor, endpoint, u))
      ensures Gap(point, OnLine(sensor, endpoint, u)) <= Gap(point, OnLine(sensor, endpoint, t)) ==> u == t
    {
      GapExpands(point, sensor, endpoint, u, vv, vd, dd);
      QuadraticAroundItsLowest(vv, vd, dd, t, u);
      Excess(dd, u - t);
    }
  }

  lemma Excess(dd: real, x: real)
    requires dd > 0.0
    ensures dd * Square(x) >= 0.0 && (dd * Square(x) <= 0.0 ==> x == 0.0)
  {
    SquareSign(x);
    if x > 0.0 {
      ProductSign(x, x, Square(x));
    } else if x < 0.0 {
      ProductSign(-x, -x, Square(x));
    }
    hide Square;
    ProductSign(dd, Square(x), dd * Square(x));
  }

  // A ray speaks against a return when it passes it within the clearing radius,
  // ahead of the sensor and by more than the margin before its own endpoint.
  ghost predicate PassesBy(config: StoreConfig, point: Point, sensor: Point, endpoint: Point, t: real) {
    && IsFoot(point, sensor, endpoint, t) && t > 0.0
    && (1.0 - t) * config.root(Gap(endpoint, sensor)) > config.endpointMargin
    && Gap(point, OnLine(sensor, endpoint, t)) <= Square(config.clearRadius)
  }

  lemma ContradictsIff(config: StoreConfig, point: Point, sensor: Point, endpoint: Point)
    requires config.Valid()
    ensures Contradicts(config, point, sensor, endpoint) <==>
            Gap(endpoint, sensor) > 0.000000001 && exists t :: PassesBy(config, point, sensor, endpoint, t)
  {
    hide IsFoot, Dot, Gap, OnLine, Minus;
    var d, v := Minus(endpoint, sensor), Minus(point, sensor);
    var norm, projection := Dot(d, d), Dot(v, d);
    GapIsTheNorm(sensor, endpoint);
    if norm > 0.000000001 {
      var t, length := projection / norm, config.root(norm);
      Shares(projection, norm, t, length, projection / length, config.endpointMargin);
      FootIsTheProjection(point, sensor, endpoint, t, projection, norm);
      AlongSquared(t, length, projection / length, norm);
      hide Square, IsRoot;
      assert Contradicts(config, point, sensor, endpoint) <==> PassesBy(config, point, sensor, endpoint, t);
    }
  }

  lemma GapIsTheNorm(sensor: Point, endpoint: Point)
    ensures Gap(endpoint, sensor) == Dot(Minus(endpoint, sensor), Minus(endpoint, sensor))
  {
  }

  lemma Shares(projection: real, norm: real, t: real, length: real, along: real, margin: real)
    requires norm > 0.0 && length > 0.0 && length * length == norm && t == projection / norm
    requires along == projection / length
    ensures projection == t * norm && along == t * length && (projection > 0.0 <==> t > 0.0)
    ensures along < length - margin <==> (1.0 - t) * length > margin
  {
    assert t * norm == projection;
    assert along * length == projection;
    assert (along - t * length) * length == 0.0;
    if t > 0.0 {
      ProductSign(t, norm, projection);
    } else {
      ProductSign(-t, norm, -projection);
    }
  }

  lemma AlongSquared(t: real, length: real, along: real, norm: real)
    requires along == t * length && length * length == norm
    ensures along * along == t * t * norm
  {
  }

  // The grid holds a point that lies over one of its cells.
  lemma OnGridIff(config: StoreConfig, p: Point)
    requires config.Valid()
    ensures config.OnGrid(p) <==>
            && 0.0 <= p[0] - config.originX < config.width as real * config.resolution
            && 0.0 <= p[1] - config.originY < config.height as real * config.resolution
  {
    FloorWithin(p[0] - config.originX, config.resolution, config.width);
    FloorWithin(p[1] - config.originY, config.resolution, config.height);
  }

  lemma FloorWithin(v: real, size: real, n: nat)
    requires size > 0.0
    ensures 0 <= (v / size).Floor < n <==> 0.0 <= v < n as real * size
  {
    var q := v / size;
    assert q * size == v;
    if q >= 0.0 {
      ProductSign(q, size, v);
    } else {
      ProductSign(-q, size, -v);
    }
    if q < n as real {
      ProductSign(n as real - q, size, (n as real - q) * size);
    } else {
      ProductSign(q - n as real, size, (q - n as real) * size);
    }
  }
}
