/** Offline boundary lookup (geo/offline.go).

    A ring is a GeoJSON linear ring (section 3.1.6 of RFC 7946): a closed chain of positions.
    Positions stay sequences of numbers, as they are decoded, so that positions with fewer than two
    coordinates reach the same `continue` branches as in the original. */
module OfflineBoundary {
  type Position = seq<real>
  type Ring = seq<Position>
  type Polygon = seq<Ring>

  // ---------------------------------------------------------------------------------------------
  // The crossing test
  // ---------------------------------------------------------------------------------------------

  /** One step of the ray cast: does the edge from `a` to `b` meet the ray that leaves the point eastwards? */
  predicate Crosses(a: Position, b: Position, lat: real, lon: real) {
    |a| >= 2 && |b| >= 2 && Meets(b[0], b[1], a[0], a[1], lat, lon)
  }

  predicate Meets(xi: real, yi: real, xj: real, yj: real, lat: real, lon: real) {
    (yi > lat) != (yj > lat) && lon < (xj - xi) * (lat - yi) / (yj - yi) + xi
  }

  /** Twice the signed area of the triangle `u`, `v`, point: positive when the point lies left of the edge. */
  function Side(u: Position, v: Position, lat: real, lon: real): real
    requires |u| >= 2 && |v| >= 2
  {
    (v[0] - u[0]) * (lat - u[1]) - (v[1] - u[1]) * (lon - u[0])
  }

  /** The division in the crossing test only ever decides on which side of the edge the point lies. */
  lemma CrossesIsSideTest(a: Position, b: Position, lat: real, lon: real)
    requires |a| >= 2 && |b| >= 2
    ensures Crosses(a, b, lat, lon) <==>
            || (a[1] <= lat < b[1] && Side(a, b, lat, lon) > 0.0)
            || (b[1] <= lat < a[1] && Side(a, b, lat, lon) < 0.0)
  {
    if (b[1] > lat) != (a[1] > lat) {
      var n, d := (a[0] - b[0]) * (lat - b[1]), a[1] - b[1];
      var q := n / d;
      assert q * d == n;
      assert Side(a, b, lat, lon) == (q + b[0] - lon) * (b[1] - a[1]) by {
        assert (q + b[0] - lon) * (b[1] - a[1]) == -(q * d) - (b[0] - lon) * d;
      }
      SignOfProduct(q + b[0] - lon, b[1] - a[1]);
    }
  }

  lemma SignOfProduct(x: real, y: real)
    ensures y > 0.0 ==> (x * y > 0.0 <==> x > 0.0)
    ensures y < 0.0 ==> (x * y < 0.0 <==> x > 0.0)
  {
  }

  /** The test does not depend on the direction in which an edge is listed. */
  lemma CrossesSymmetric(a: Position, b: Position, lat: real, lon: real)
    ensures Crosses(a, b, lat, lon) == Crosses(b, a, lat, lon)
  {
    if |a| >= 2 && |b| >= 2 {
      CrossesIsSideTest(a, b, lat, lon);
      CrossesIsSideTest(b, a, lat, lon);
      assert Side(a, b, lat, lon) == -Side(b, a, lat, lon);
    }
  }

  // ---------------------------------------------------------------------------------------------
  // Counting crossings along a path
  // ---------------------------------------------------------------------------------------------

  function Crossings(path: seq<Position>, lat: real, lon: real): nat {
    if |path| < 2 then 0
    else (if Crosses(path[0], path[1], lat, lon) then 1 else 0) + Crossings(path[1..], lat, lon)
  }

  /** The walk around a ring: it starts at the last position, so that the closing edge comes first. */
  function Walk(ring: Ring): seq<Position> {
    if ring == [] then [] else [ring[|ring| - 1]] + ring
  }

  /** Reference meaning of the ray cast: an odd number of edges is crossed. */
  predicate Inside(ring: Ring, lat: real, lon: real) {
    Crossings(Walk(ring), lat, lon) % 2 == 1
  }

  lemma {:induction false} CrossingsJoin(p: seq<Position>, m: Position, q: seq<Position>, lat: real, lon: real)
    ensures Crossings(p + [m] + q, lat, lon) == Crossings(p + [m], lat, lon) + Crossings([m] + q, lat, lon)
  {
    if p == [] {
      assert p + [m] + q == [m] + q;
    } else {
      CrossingsJoin(p[1..], m, q, lat, lon);
      assert (p + [m] + q)[1..] == p[1..] + [m] + q;
      assert (p + [m])[1..] == p[1..] + [m];
    }
  }

  /** Parity of the crossings among the first `n` positions of the walk. */
  predicate Odd(ring: Ring, n: nat, lat: real, lon: real)
    requires n <= |Walk(ring)|
  {
    Crossings(Walk(ring)[..n], lat, lon) % 2 == 1
  }

  lemma FirstPosition(ring: Ring, lat: real, lon: real)
    ensures ring != [] ==> !Odd(ring, 1, lat, lon)
  {
  }

  lemma WholeWalk(ring: Ring, lat: real, lon: real)
    ensures Inside(ring, lat, lon) == (ring != [] && Odd(ring, |ring| + 1, lat, lon))
  {
    assert ring != [] ==> Walk(ring)[..|ring| + 1] == Walk(ring);
  }

  lemma WalkStep(ring: Ring, i: nat, lat: real, lon: real)
    requires i < |ring|
    ensures Odd(ring, i + 2, lat, lon) ==
            (Odd(ring, i + 1, lat, lon) != Crosses(ring[if i == 0 then |ring| - 1 else i - 1], ring[i], lat, lon))
  {
    hide Crosses;
    var walk := Walk(ring);
    assert walk[..i + 2] == walk[..i] + [walk[i]] + [walk[i + 1]];
    assert walk[..i + 1] == walk[..i] + [walk[i]];
    CrossingsJoin(walk[..i], walk[i], [walk[i + 1]], lat, lon);
    assert [walk[i]] + [walk[i + 1]] == [walk[i], walk[i + 1]];
  }

  /** geo/offline.go's loop: `j` trails `i` around the ring, malformed positions are skipped. */
  method PointInRing(ring: Ring, lat: real, lon: real) returns (inside: bool)
    ensures inside == Inside(ring, lat, lon)
  {
    hide Odd, Crossings, Meets;
    inside := false;
    assert ring != [] ==> !Odd(ring, 1, lat, lon) by { FirstPosition(ring, lat, lon); }
    var i, j := 0, |ring| - 1;
    while i < |ring|
      invariant 0 <= i <= |ring|
      invariant j == if i == 0 then |ring| - 1 else i - 1
      invariant ring != [] ==> inside == Odd(ring, i + 1, lat, lon)
      invariant ring == [] ==> !inside
    {
      WalkStep(ring, i, lat, lon);
      if |ring[i]| < 2 || |ring[j]| < 2 {
        j, i := i, i + 1;
        continue;
      }
      var xi, yi := ring[i][0], ring[i][1];
      var xj, yj := ring[j][0], ring[j][1];
      if Meets(xi, yi, xj, yj, lat, lon) {
        inside := !inside;
      }
      j, i := i, i + 1;
    }
    assert inside == Inside(ring, lat, lon) by { WholeWalk(ring, lat, lon); }
  }

  // ---------------------------------------------------------------------------------------------
  // What the ring test does not depend on
  // ---------------------------------------------------------------------------------------------

  /** Starting the ring at another vertex changes nothing. */
  lemma RotationInvariant(a: Ring, b: Ring, lat: real, lon: real)
    ensures Inside(a + b, lat, lon) == Inside(b + a, lat, lon)
  {
    hide Crossings, Walk;
    if a == [] || b == [] {
      assert a + b == b + a;
    } else {
      RotatedCount(a, b, lat, lon);
      RotatedCount(b, a, lat, lon);
    }
  }

  lemma RotatedCount(a: Ring, b: Ring, lat: real, lon: real)
    requires a != [] && b != []
    ensures Crossings(Walk(a + b), lat, lon) ==
            Crossings([b[|b| - 1]] + a, lat, lon) + Crossings([a[|a| - 1]] + b, lat, lon)
  {
    hide *;
    WalkJoin(a, b);
    Regroup(b[|b| - 1], a, b);
    CrossingsJoin([b[|b| - 1]] + a[..|a| - 1], a[|a| - 1], b, lat, lon);
  }

  lemma Regroup(x: Position, a: Ring, b: Ring)
    requires a != []
    ensures [x] + a[..|a| - 1] + [a[|a| - 1]] == [x] + a
    ensures [x] + a[..|a| - 1] + [a[|a| - 1]] + b == [x] + (a + b)
  {
    Prepend(x, a[..|a| - 1], [a[|a| - 1]]);
    assert a[..|a| - 1] + [a[|a| - 1]] == a;
    Prepend(x, a, b);
  }

  lemma Prepend(x: Position, a: Ring, b: Ring)
    ensures [x] + a + b == [x] + (a + b)
  {
  }

  lemma WalkJoin(a: Ring, b: Ring)
    requires b != []
    ensures Walk(a + b) == [b[|b| - 1]] + (a + b)
  {
  }

  function Reversed(path: seq<Position>): seq<Position> {
    if path == [] then [] else Reversed(path[1..]) + [path[0]]
  }

  lemma {:induction false} CrossingsReversed(path: seq<Position>, lat: real, lon: real)
    ensures Crossings(Reversed(path), lat, lon) == Crossings(path, lat, lon)
  {
    if |path| >= 2 {
      var rest := Reversed(path[2..]);
      assert Reversed(path[1..]) == rest + [path[1]];
      CrossingsJoin(rest, path[1], [path[0]], lat, lon);
      CrossingsReversed(path[1..], lat, lon);
      CrossesSymmetric(path[0], path[1], lat, lon);
      assert [path[1]] + [path[0]] == [path[1], path[0]];
    }
  }

  lemma {:induction false} ReversedAppend(path: seq<Position>, last: Position)
    ensures Reversed(path + [last]) == [last] + Reversed(path)
  {
    if path != [] {
      assert (path + [last])[1..] == path[1..] + [last];
      ReversedAppend(path[1..], last);
    }
  }

  /** Clockwise or counterclockwise: the winding of the ring changes nothing. */
  lemma ReversalInvariant(ring: Ring, lat: real, lon: real)
    ensures Inside(Reversed(ring), lat, lon) == Inside(ring, lat, lon)
  {
    if ring != [] {
      var first, last := ring[0], ring[|ring| - 1];
      assert ring == ring[..|ring| - 1] + [last];
      ReversedAppend(ring[..|ring| - 1], last);
      var back := Reversed(ring);
      assert back == Reversed(ring[1..]) + [first];
      // walking back from `first` is the mirror image of walking on to `first`
      assert Reversed(ring + [first]) == Walk(back) by { ReversedAppend(ring, first); }
      CrossingsReversed(ring + [first], lat, lon);
      ClosingEdgeMoves(ring, lat, lon);
    }
  }

  lemma ClosingEdgeMoves(ring: Ring, lat: real, lon: real)
    requires ring != []
    ensures Crossings(ring + [ring[0]], lat, lon) == Crossings(Walk(ring), lat, lon)
  {
    var first, last := ring[0], ring[|ring| - 1];
    assert ring == ring[..|ring| - 1] + [last];
    CrossingsJoin(ring[..|ring| - 1], last, [first], lat, lon);
    assert Walk(ring)[1..] == ring;
    assert [last] + [first] == [last, first];
  }

  /** RFC 7946 repeats the first position at the end; whether it is repeated changes nothing. */
  lemma ClosingVertexInvariant(ring: Ring, lat: real, lon: real)
    requires ring != []
    ensures Inside(ring + [ring[0]], lat, lon) == Inside(ring, lat, lon)
  {
    var walk := Walk(ring + [ring[0]]);
    assert walk[1..] == ring + [ring[0]];
    assert walk[0] == walk[1] == ring[0];
    ClosingEdgeMoves(ring, lat, lon);
  }

  /** Cutting a ring along the chord between two of its vertices: the parts overlap only in the chord, which
      both of them cross or neither does. */
  lemma ChordSplits(a: Ring, p: Position, b: Ring, q: Position, lat: real, lon: real)
    ensures Inside([p] + a + [q] + b, lat, lon) ==
            (Inside([p] + a + [q], lat, lon) != Inside([q] + b + [p], lat, lon))
  {
    hide Crosses;
    var whole, left, right := [p] + a + [q] + b, [p] + a + [q], [q] + b + [p];
    var along, back := Crossings(left, lat, lon), Crossings(right, lat, lon);
    var chord := Crossings([q, p], lat, lon);
    assert Crossings(Walk(whole), lat, lon) == along + back by {
      ClosingEdgeMoves(whole, lat, lon);
      assert whole + [p] == ([p] + a) + [q] + (b + [p]);
      CrossingsJoin([p] + a, q, b + [p], lat, lon);
      assert [q] + (b + [p]) == right;
    }
    assert Crossings(Walk(left), lat, lon) == along + chord by { ChordCloses(a, p, q, lat, lon); }
    assert Crossings(Walk(right), lat, lon) == back + chord by {
      ChordCloses(b, q, p, lat, lon);
      CrossesSymmetric(p, q, lat, lon);
    }
  }

  lemma ChordCloses(a: Ring, p: Position, q: Position, lat: real, lon: real)
    ensures Crossings(Walk([p] + a + [q]), lat, lon) == Crossings([p] + a + [q], lat, lon) + Crossings([q, p], lat, lon)
  {
    var ring := [p] + a + [q];
    ClosingEdgeMoves(ring, lat, lon);
    assert ring + [p] == ([p] + a) + [q] + [p];
    CrossingsJoin([p] + a, q, [p], lat, lon);
    assert [q] + [p] == [q, p];
  }

  // ---------------------------------------------------------------------------------------------
  // What the ring test means: triangles
  // ---------------------------------------------------------------------------------------------

  predicate WellFormed(ring: Ring) {
    forall p <- ring :: |p| >= 2
  }

  /** Weighted by the three sides, the heights of the corners over the point cancel out. */
  lemma SidesBalance(a: Position, b: Position, c: Position, lat: real, lon: real)
    requires WellFormed([a, b, c])
    ensures |a| >= 2 && |b| >= 2 && |c| >= 2
    ensures Side(b, c, lat, lon) * (a[1] - lat) + Side(c, a, lat, lon) * (b[1] - lat)
            + Side(a, b, lat, lon) * (c[1] - lat) == 0.0
  {
    assert a in [a, b, c] && b in [a, b, c] && c in [a, b, c];
    var ax, bx, cx := a[0] - lon, b[0] - lon, c[0] - lon;
    var ay, by_, cy := a[1] - lat, b[1] - lat, c[1] - lat;
    assert Side(b, c, lat, lon) == bx * cy - by_ * cx by { SideIsCross(b, c, lat, lon); }
    assert Side(c, a, lat, lon) == cx * ay - cy * ax by { SideIsCross(c, a, lat, lon); }
    assert Side(a, b, lat, lon) == ax * by_ - ay * bx by { SideIsCross(a, b, lat, lon); }
    hide Side;
    Cancel(ax, bx, cx, ay, by_, cy);
  }

  lemma SideIsCross(u: Position, v: Position, lat: real, lon: real)
    requires |u| >= 2 && |v| >= 2
    ensures Side(u, v, lat, lon) == (u[0] - lon) * (v[1] - lat) - (u[1] - lat) * (v[0] - lon)
  {
  }

  lemma Cancel(ax: real, bx: real, cx: real, ay: real, by_: real, cy: real)
    ensures (bx * cy - by_ * cx) * ay + (cx * ay - cy * ax) * by_ + (ax * by_ - ay * bx) * cy == 0.0
  {
  }

  ghost predicate StrictlyInTriangle(a: Position, b: Position, c: Position, lat: real, lon: real)
    requires |a| >= 2 && |b| >= 2 && |c| >= 2
  {
    var ab, bc, ca := Side(a, b, lat, lon), Side(b, c, lat, lon), Side(c, a, lat, lon);
    (ab > 0.0 && bc > 0.0 && ca > 0.0) || (ab < 0.0 && bc < 0.0 && ca < 0.0)
  }

  /** The closed triangle: the interior and its three edges. */
  ghost predicate InClosedTriangle(a: Position, b: Position, c: Position, lat: real, lon: real)
    requires |a| >= 2 && |b| >= 2 && |c| >= 2
  {
    var ab, bc, ca := Side(a, b, lat, lon), Side(b, c, lat, lon), Side(c, a, lat, lon);
    (ab >= 0.0 && bc >= 0.0 && ca >= 0.0) || (ab <= 0.0 && bc <= 0.0 && ca <= 0.0)
  }

  lemma TriangleCount(a: Position, b: Position, c: Position, lat: real, lon: real)
    ensures Inside([a, b, c], lat, lon) ==
            ((Crosses(c, a, lat, lon) != Crosses(a, b, lat, lon)) != Crosses(b, c, lat, lon))
  {
    hide Crosses;
    assert Walk([a, b, c]) == [c, a, b, c];
    assert [c, a, b, c][1..] == [a, b, c] && [a, b, c][1..] == [b, c];
    assert Crossings([b, c], lat, lon) == if Crosses(b, c, lat, lon) then 1 else 0;
    assert Crossings([a, b, c], lat, lon) == (if Crosses(a, b, lat, lon) then 1 else 0) + Crossings([b, c], lat, lon);
  }

  /** Ray casting on a triangle is membership in the triangle, up to which points of its edges belong to it.
      By `ChordSplits`, a ring test is the exclusive-or of such triangle tests for any way of cutting it up. */
  lemma TriangleMembership(a: Position, b: Position, c: Position, lat: real, lon: real)
    requires |a| >= 2 && |b| >= 2 && |c| >= 2
    ensures StrictlyInTriangle(a, b, c, lat, lon) ==> Inside([a, b, c], lat, lon)
    ensures Inside([a, b, c], lat, lon) ==> InClosedTriangle(a, b, c, lat, lon)
  {
    hide Inside;
    if a[1] <= lat < b[1] {
      UpwardEdge(a, b, c, lat, lon);
    } else if b[1] <= lat < c[1] {
      UpwardEdge(b, c, a, lat, lon);
      assert Inside([a] + [b, c], lat, lon) == Inside([b, c] + [a], lat, lon) by {
        RotationInvariant([a], [b, c], lat, lon);
      }
      assert [a] + [b, c] == [a, b, c] && [b, c] + [a] == [b, c, a];
    } else if c[1] <= lat < a[1] {
      UpwardEdge(c, a, b, lat, lon);
      assert Inside([c] + [a, b], lat, lon) == Inside([a, b] + [c], lat, lon) by {
        RotationInvariant([c], [a, b], lat, lon);
      }
      assert [c] + [a, b] == [c, a, b] && [a, b] + [c] == [a, b, c];
    } else {
      LevelTriangle(a, b, c, lat, lon);
    }
  }

  lemma UpwardEdge(a: Position, b: Position, c: Position, lat: real, lon: real)
    requires |a| >= 2 && |b| >= 2 && |c| >= 2
    requires a[1] <= lat < b[1]
    ensures StrictlyInTriangle(a, b, c, lat, lon) ==> Inside([a, b, c], lat, lon)
    ensures Inside([a, b, c], lat, lon) ==> InClosedTriangle(a, b, c, lat, lon)
  {
    TriangleCount(a, b, c, lat, lon);
    CrossesIsSideTest(a, b, lat, lon);
    CrossesIsSideTest(b, c, lat, lon);
    CrossesIsSideTest(c, a, lat, lon);
    SidesBalance(a, b, c, lat, lon);
    hide Crosses, Side, Inside;
    var ab, bc, ca := Side(a, b, lat, lon), Side(b, c, lat, lon), Side(c, a, lat, lon);
    if c[1] > lat {
      ThirdSign(bc, lat - a[1], ca, b[1] - lat, ab, c[1] - lat);
    } else {
      ThirdSign(ca, b[1] - lat, bc, lat - a[1], ab, lat - c[1]);
    }
  }

  lemma ThirdSign(t: real, ht: real, u: real, hu: real, v: real, hv: real)
    requires ht >= 0.0 && hu >= 0.0 && hv >= 0.0 && t * ht == u * hu + v * hv
    requires ht > 0.0 || (hu > 0.0 && hv > 0.0)
    ensures u >= 0.0 && v >= 0.0 ==> t >= 0.0 || (u == 0.0 && v == 0.0)
    ensures u <= 0.0 && v <= 0.0 ==> t <= 0.0 || (u == 0.0 && v == 0.0)
  {
    if u >= 0.0 && v >= 0.0 {
      assert u * hu >= 0.0 && v * hv >= 0.0;
    }
    if u <= 0.0 && v <= 0.0 {
      assert u * hu <= 0.0 && v * hv <= 0.0;
    }
  }

  /** No edge rises through the point's latitude, so none falls through it either. */
  lemma LevelTriangle(a: Position, b: Position, c: Position, lat: real, lon: real)
    requires |a| >= 2 && |b| >= 2 && |c| >= 2
    requires (a[1] > lat) == (b[1] > lat) == (c[1] > lat)
    ensures !Inside([a, b, c], lat, lon) && !StrictlyInTriangle(a, b, c, lat, lon)
  {
    TriangleCount(a, b, c, lat, lon);
    LevelEdge(a, b, lat, lon);
    LevelEdge(b, c, lat, lon);
    LevelEdge(c, a, lat, lon);
    LevelNotStrict(a, b, c, lat, lon);
    hide *;
  }

  lemma LevelNotStrict(a: Position, b: Position, c: Position, lat: real, lon: real)
    requires |a| >= 2 && |b| >= 2 && |c| >= 2
    requires (a[1] > lat) == (b[1] > lat) == (c[1] > lat)
    ensures !StrictlyInTriangle(a, b, c, lat, lon)
  {
    SidesBalance(a, b, c, lat, lon);
    LevelEdge(a, b, lat, lon);
    StrictSides(a, b, c, lat, lon);
    hide *;
    if a[1] != lat || b[1] != lat {
      Unbalanced(Side(b, c, lat, lon), a[1] - lat, Side(c, a, lat, lon), b[1] - lat, Side(a, b, lat, lon), c[1] - lat);
    }
  }

  lemma StrictSides(a: Position, b: Position, c: Position, lat: real, lon: real)
    requires |a| >= 2 && |b| >= 2 && |c| >= 2
    ensures StrictlyInTriangle(a, b, c, lat, lon) <==>
              var ab, bc, ca := Side(a, b, lat, lon), Side(b, c, lat, lon), Side(c, a, lat, lon);
              (ab > 0.0 && bc > 0.0 && ca > 0.0) || (ab < 0.0 && bc < 0.0 && ca < 0.0)
  {
    hide Side;
  }

  lemma LevelEdge(a: Position, b: Position, lat: real, lon: real)
    requires |a| >= 2 && |b| >= 2 && (a[1] > lat) == (b[1] > lat)
    ensures !Crosses(a, b, lat, lon)
    ensures a[1] == b[1] == lat ==> Side(a, b, lat, lon) == 0.0
  {
  }

  /** Three weights of one strict sign cannot balance heights that all lie on one side. */
  lemma Unbalanced(x: real, hx: real, y: real, hy: real, z: real, hz: real)
    requires x * hx + y * hy + z * hz == 0.0
    requires (hx > 0.0 && hy > 0.0 && hz > 0.0) || (hx <= 0.0 && hy <= 0.0 && hz <= 0.0 && (hx != 0.0 || hy != 0.0))
    ensures !(x > 0.0 && y > 0.0 && z > 0.0) && !(x < 0.0 && y < 0.0 && z < 0.0)
  {
    ProductSign(x, hx);
    ProductSign(y, hy);
    ProductSign(z, hz);
  }

  lemma ProductSign(x: real, h: real)
    ensures h == 0.0 ==> x * h == 0.0
    ensures h > 0.0 && x > 0.0 ==> x * h > 0.0
    ensures h > 0.0 && x < 0.0 ==> x * h < 0.0
    ensures h < 0.0 && x > 0.0 ==> x * h < 0.0
    ensures h < 0.0 && x < 0.0 ==> x * h > 0.0
  {
  }

  // ---------------------------------------------------------------------------------------------
  // Polygons, boundaries and the bounding-box shortcut
  // ---------------------------------------------------------------------------------------------

  /** Inside the exterior ring and inside no hole. */
  ghost predicate InPolygon(rings: Polygon, lat: real, lon: real) {
    && rings != []
    && Inside(rings[0], lat, lon)
    && forall k :: 1 <= k < |rings| ==> !Inside(rings[k], lat, lon)
  }

  method PointInPolygonRings(rings: Polygon, lat: real, lon: real) returns (inside: bool)
    ensures inside == InPolygon(rings, lat, lon)
  {
    hide Inside;
    if |rings| == 0 {
      return false;
    }
    var exterior := PointInRing(rings[0], lat, lon);
    if !exterior {
      return false;
    }
    for k := 1 to |rings|
      invariant forall h :: 1 <= h < k ==> !Inside(rings[h], lat, lon)
    {
      var inHole := PointInRing(rings[k], lat, lon);
      if inHole {
        return false;
      }
    }
    return true;
  }

  /** A decoded geometry: a Polygon or a MultiPolygon, the other one empty. */
  datatype Geometry = Geometry(polygon: Polygon, multiPolygon: seq<Polygon>)

  ghost predicate InGeometry(g: Geometry, lat: real, lon: real) {
    if g.polygon != [] then InPolygon(g.polygon, lat, lon)
    else exists k :: 0 <= k < |g.multiPolygon| && InPolygon(g.multiPolygon[k], lat, lon)
  }

  /** Every position of a sequence of rings has its coordinates, as section 3.1.1 of RFC 7946 asks. */
  predicate WellFormedGeometry(g: Geometry) {
    && (forall r <- g.polygon :: WellFormed(r))
    && (forall p <- g.multiPolygon :: forall r <- p :: WellFormed(r))
  }

  datatype Box = Box(minLat: real, maxLat: real, minLon: real, maxLon: real)
  {
    predicate Has(lat: real, lon: real) {
      minLat <= lat <= maxLat && minLon <= lon <= maxLon
    }
  }

  const UNSET := Box(90.0, -90.0, 180.0, -180.0)

  /** The loop state of `setBounds`: the extremes of the positions seen so far and of the start values. */
  ghost predicate Spans(box: Box, seen: seq<Position>) {
    && (forall p <- seen :: |p| >= 2 ==> box.Has(p[1], p[0]))
    && (box.minLat == UNSET.minLat || exists p <- seen :: |p| >= 2 && p[1] == box.minLat)
    && (box.maxLat == UNSET.maxLat || exists p <- seen :: |p| >= 2 && p[1] == box.maxLat)
    && (box.minLon == UNSET.minLon || exists p <- seen :: |p| >= 2 && p[0] == box.minLon)
    && (box.maxLon == UNSET.maxLon || exists p <- seen :: |p| >= 2 && p[0] == box.maxLon)
    && box.minLat <= UNSET.minLat && box.maxLat >= UNSET.maxLat
    && box.minLon <= UNSET.minLon && box.maxLon >= UNSET.maxLon
  }

  function Flat(rings: seq<Ring>): seq<Position> {
    if rings == [] then [] else Flat(rings[..|rings| - 1]) + rings[|rings| - 1]
  }

  function FlatMulti(polygons: seq<Polygon>): seq<Position> {
    if polygons == [] then [] else FlatMulti(polygons[..|polygons| - 1]) + Flat(polygons[|polygons| - 1])
  }

  function Positions(g: Geometry): seq<Position> {
    Flat(g.polygon) + FlatMulti(g.multiPolygon)
  }

  /** geo/offline.go's `visit` closure: one position of one ring widens the running box. */
  method Visit(ring: Ring, box: Box, ghost seen: seq<Position>) returns (r: Box)
    requires Spans(box, seen)
    ensures Spans(r, seen + ring)
  {
    r := box;
    assert seen + ring[..0] == seen;
    for k := 0 to |ring|
      invariant Spans(r, seen + ring[..k])
    {
      var point := ring[k];
      ghost var before := seen + ring[..k];
      assert seen + ring[..k + 1] == before + [point];
      if |point| < 2 {
        continue;
      }
      var old_ := r;
      if point[1] < r.minLat { r := r.(minLat := point[1]); }
      if point[1] > r.maxLat { r := r.(maxLat := point[1]); }
      if point[0] < r.minLon { r := r.(minLon := point[0]); }
      if point[0] > r.maxLon { r := r.(maxLon := point[0]); }
      Widened(old_, r, before, point);
    }
    assert ring[..|ring|] == ring;
  }

  /** The loops of `setBounds` over the rings of one polygon and over the polygons of a MultiPolygon. */
  method VisitRings(rings: Polygon, box: Box, ghost seen: seq<Position>) returns (r: Box)
    requires Spans(box, seen)
    ensures Spans(r, seen + Flat(rings))
  {
    hide Spans;
    r := box;
    assert seen + Flat(rings[..0]) == seen;
    for k := 0 to |rings|
      invariant Spans(r, seen + Flat(rings[..k]))
    {
      r := Visit(rings[k], r, seen + Flat(rings[..k]));
      assert rings[..k + 1][..k] == rings[..k];
      assert seen + Flat(rings[..k]) + rings[k] == seen + Flat(rings[..k + 1]);
    }
    assert rings[..|rings|] == rings;
  }

  method VisitPolygons(polygons: seq<Polygon>, box: Box, ghost seen: seq<Position>) returns (r: Box)
    requires Spans(box, seen)
    ensures Spans(r, seen + FlatMulti(polygons))
  {
    hide Spans;
    r := box;
    assert seen + FlatMulti(polygons[..0]) == seen;
    for k := 0 to |polygons|
      invariant Spans(r, seen + FlatMulti(polygons[..k]))
    {
      r := VisitRings(polygons[k], r, seen + FlatMulti(polygons[..k]));
      assert polygons[..k + 1][..k] == polygons[..k];
      assert seen + FlatMulti(polygons[..k]) + Flat(polygons[k]) == seen + FlatMulti(polygons[..k + 1]);
    }
    assert polygons[..|polygons|] == polygons;
  }

  lemma Widened(box: Box, wider: Box, seen: seq<Position>, p: Position)
    requires Spans(box, seen) && |p| >= 2
    requires wider.minLat == if p[1] < box.minLat then p[1] else box.minLat
    requires wider.maxLat == if p[1] > box.maxLat then p[1] else box.maxLat
    requires wider.minLon == if p[0] < box.minLon then p[0] else box.minLon
    requires wider.maxLon == if p[0] > box.maxLon then p[0] else box.maxLon
    ensures Spans(wider, seen + [p])
  {
    assert forall q :: q in seen ==> q in seen + [p];
    assert p in seen + [p];
  }

  class BoundaryFeature {
    const country: string
    const cityId: string
    const geometry: Geometry
    var box: Box
    var hasBounds: bool

    constructor (country: string, cityId: string, geometry: Geometry)
      ensures this.country == country && this.cityId == cityId && this.geometry == geometry && !hasBounds
    {
      this.country, this.cityId, this.geometry := country, cityId, geometry;
      box, hasBounds := UNSET, false;
    }

    /** The box, when it is set, is the one that belongs to the geometry. */
    ghost predicate Valid()
      reads this
    {
      hasBounds ==> Spans(box, Positions(geometry))
    }

    /** What a lookup answers: bounds, if any, are consulted first. */
    ghost predicate Answer(lat: real, lon: real)
      reads this
    {
      InGeometry(geometry, lat, lon) && (!hasBounds || box.Has(lat, lon))
    }

    /** Fails exactly for a boundary without a single usable position. */
    method SetBounds() returns (ok: bool)
      modifies this
      ensures ok <==> exists p <- Positions(geometry) :: |p| >= 2
      ensures ok ==> hasBounds && Valid()
      ensures !ok ==> hasBounds == old(hasBounds) && box == old(box)
    {
      var b := VisitRings(geometry.polygon, UNSET, []);
      assert [] + Flat(geometry.polygon) == Flat(geometry.polygon);
      b := VisitPolygons(geometry.multiPolygon, b, Flat(geometry.polygon));
      if b.minLat > b.maxLat || b.minLon > b.maxLon {
        return false;
      }
      box, hasBounds := b, true;
      return true;
    }

    /** The lookup with its shortcut. Without bounds, and with bounds on every geometry without open breaks,
        it answers exactly what the geometry says. */
    method Contains(lat: real, lon: real) returns (found: bool)
      requires Valid()
      ensures found == Answer(lat, lon)
      ensures !hasBounds || Unbroken(geometry) ==> found == InGeometry(geometry, lat, lon)
    {
      hide InPolygon, Unbroken, Spans;
      if hasBounds && (lat < box.minLat || lat > box.maxLat || lon < box.minLon || lon > box.maxLon) {
        if Unbroken(geometry) {
          OutsideBox(geometry, box, lat, lon);
        }
        return false;
      }
      if |geometry.polygon| > 0 {
        found := PointInPolygonRings(geometry.polygon, lat, lon);
        return;
      }
      if |geometry.multiPolygon| > 0 {
        for k := 0 to |geometry.multiPolygon|
          invariant forall h :: 0 <= h < k ==> !InPolygon(geometry.multiPolygon[h], lat, lon)
        {
          var inside := PointInPolygonRings(geometry.multiPolygon[k], lat, lon);
          if inside {
            return true;
          }
        }
        return false;
      }
      return false;
    }
  }

  // ---------------------------------------------------------------------------------------------
  // Where a ring with malformed positions is open
  // ---------------------------------------------------------------------------------------------

  /** How many edges of a path pass a latitude. */
  function Passages(path: seq<Position>, lat: real): nat {
    if |path| < 2 then 0 else Passage(path[0], path[1], lat) + Passages(path[1..], lat)
  }

  predicate Passes(a: Position, b: Position, lat: real) {
    |a| >= 2 && |b| >= 2 && (a[1] > lat) != (b[1] > lat)
  }

  function Passage(a: Position, b: Position, lat: real): nat {
    if Passes(a, b, lat) then 1 else 0
  }

  /** The latitudes at which a path breaks off: that of a usable position for each malformed one beside it. */
  function Breaks(path: seq<Position>): seq<real> {
    if |path| < 2 then [] else Break(path[0], path[1]) + Breaks(path[1..])
  }

  function Break(a: Position, b: Position): seq<real> {
    if |a| >= 2 && |b| < 2 then [a[1]] else if |a| < 2 && |b| >= 2 then [b[1]] else []
  }

  function Above(lats: seq<real>, lat: real): nat {
    if lats == [] then 0 else (if lats[0] > lat then 1 else 0) + Above(lats[1..], lat)
  }

  predicate Up(p: Position, lat: real) {
    |p| >= 2 && p[1] > lat
  }

  predicate Even(n: nat) {
    n % 2 == 0
  }

  lemma EvenSum(m: nat, n: nat)
    ensures Even(m + n) == (Even(m) == Even(n))
  {
  }

  lemma {:induction false} AboveJoin(a: seq<real>, b: seq<real>, lat: real)
    ensures Above(a + b, lat) == Above(a, lat) + Above(b, lat)
  {
    if a == [] {
      assert a + b == b;
    } else {
      assert (a + b)[1..] == a[1..] + b;
      AboveJoin(a[1..], b, lat);
    }
  }

  lemma EdgeParity(a: Position, b: Position, lat: real)
    ensures (Even(Passage(a, b, lat)) == Even(Above(Break(a, b), lat))) == (Up(a, lat) == Up(b, lat))
    ensures Even(|Break(a, b)|) == ((|a| >= 2) == (|b| >= 2))
  {
  }

  /** Every passage leads from one side to the other, unless the path breaks off in between. */
  lemma {:induction false} PassagesParity(path: seq<Position>, lat: real)
    requires path != []
    ensures (Even(Passages(path, lat)) == Even(Above(Breaks(path), lat)))
         == (Up(path[0], lat) == Up(path[|path| - 1], lat))
    ensures Even(|Breaks(path)|) == ((|path[0]| >= 2) == (|path[|path| - 1]| >= 2))
  {
    if |path| >= 2 {
      var a, b, rest := path[0], path[1], path[1..];
      EdgeParity(a, b, lat);
      EvenSum(Passage(a, b, lat), Passages(rest, lat));
      AboveJoin(Break(a, b), Breaks(rest), lat);
      EvenSum(Above(Break(a, b), lat), Above(Breaks(rest), lat));
      EvenSum(|Break(a, b)|, |Breaks(rest)|);
      hide Passage, Break, Up, Above, Even;
      PassagesParity(rest, lat);
    }
  }

  /** West of a ring, an odd number of breaks lies above the latitude of the point. */
  predicate Leaks(ring: Ring, lat: real) {
    !Even(Above(Breaks(Walk(ring)), lat))
  }

  lemma LeaksIs(ring: Ring, lat: real)
    ensures Leaks(ring, lat) <==> Passages(Walk(ring), lat) % 2 == 1
    ensures Even(|Breaks(Walk(ring))|)
  {
    if ring != [] {
      PassagesParity(Walk(ring), lat);
      hide Passages, Breaks, Above, Up;
    }
  }

  predicate LeaksPolygon(rings: Polygon, lat: real) {
    && rings != []
    && Leaks(rings[0], lat)
    && forall k :: 1 <= k < |rings| ==> !Leaks(rings[k], lat)
  }

  /** Points far enough west at this latitude count as inside. */
  predicate LeaksAt(g: Geometry, lat: real) {
    if g.polygon != [] then LeaksPolygon(g.polygon, lat)
    else exists k :: 0 <= k < |g.multiPolygon| && LeaksPolygon(g.multiPolygon[k], lat)
  }

  function Rings(g: Geometry): set<Ring> {
    (set r <- g.polygon) + set p <- g.multiPolygon, r <- p :: r
  }

  function BreakLatitudes(g: Geometry): set<real> {
    set r <- Rings(g), lat <- Breaks(Walk(r)) :: lat
  }

  /** No latitude at which a ring breaks off leaks. */
  predicate Unbroken(g: Geometry) {
    forall lat <- BreakLatitudes(g) :: !LeaksAt(g, lat)
  }

  lemma {:induction false} NoBreaks(path: seq<Position>)
    requires forall p <- path :: |p| >= 2
    ensures Breaks(path) == []
  {
    if |path| >= 2 {
      assert path[0] in path && path[1] in path;
      NoBreaks(path[1..]);
    }
  }

  /** Well-formed geometries do not break off at all. */
  lemma WellFormedUnbroken(g: Geometry)
    requires WellFormedGeometry(g)
    ensures Unbroken(g)
  {
    forall r <- Rings(g) ensures Breaks(Walk(r)) == [] {
      NoBreaks(Walk(r));
    }
    hide Breaks, Walk, LeaksAt, Rings;
  }

  // ---------------------------------------------------------------------------------------------
  // When the bounding box changes no answer
  // ---------------------------------------------------------------------------------------------

  /** Outside the box of its usable positions, a ring holds the points west of it at the latitudes where it leaks. */
  lemma OutsideRing(ring: Ring, box: Box, lat: real, lon: real)
    requires (forall p <- ring :: |p| >= 2 ==> box.Has(p[1], p[0])) && !box.Has(lat, lon)
    ensures Inside(ring, lat, lon) <==> lon < box.minLon && Leaks(ring, lat)
  {
    var walk := Walk(ring);
    assert forall p <- walk :: p in ring;
    LeaksIs(ring, lat);
    hide Walk, Leaks, Passages;
    if lon < box.minLon {
      WestOfPath(walk, lat, lon);
    } else {
      NothingToTheEast(walk, box, lat, lon);
    }
  }

  lemma OutsidePolygon(rings: Polygon, box: Box, lat: real, lon: real)
    requires (forall p <- Flat(rings) :: |p| >= 2 ==> box.Has(p[1], p[0])) && !box.Has(lat, lon)
    ensures InPolygon(rings, lat, lon) <==> lon < box.minLon && LeaksPolygon(rings, lat)
  {
    forall k | 0 <= k < |rings| ensures Inside(rings[k], lat, lon) <==> lon < box.minLon && Leaks(rings[k], lat) {
      FlatHas(rings, k);
      OutsideRing(rings[k], box, lat, lon);
    }
    hide Inside, Leaks, Flat;
  }

  lemma OutsideGeometry(g: Geometry, box: Box, lat: real, lon: real)
    requires Spans(box, Positions(g)) && !box.Has(lat, lon)
    ensures InGeometry(g, lat, lon) <==> lon < box.minLon && LeaksAt(g, lat)
  {
    forall p <- Positions(g) ensures |p| >= 2 ==> box.Has(p[1], p[0]) {
      BoxHas(g, box, p);
    }
    assert forall p <- Flat(g.polygon) + FlatMulti(g.multiPolygon) :: p in Positions(g);
    hide Spans, InPolygon, LeaksPolygon, Flat, FlatMulti;
    OutsidePolygon(g.polygon, box, lat, lon);
    forall k | 0 <= k < |g.multiPolygon|
      ensures InPolygon(g.multiPolygon[k], lat, lon) <==> lon < box.minLon && LeaksPolygon(g.multiPolygon[k], lat)
    {
      FlatMultiHas(g.multiPolygon, k);
      OutsidePolygon(g.multiPolygon[k], box, lat, lon);
    }
  }

  lemma {:induction false} AboveSame(lats: seq<real>, low: real, high: real)
    requires low <= high && forall x <- lats :: !(low < x <= high)
    ensures Above(lats, low) == Above(lats, high)
  {
    if lats != [] {
      assert lats[0] in lats && forall x <- lats[1..] :: x in lats;
      AboveSame(lats[1..], low, high);
    }
  }

  lemma {:induction false} AboveAll(lats: seq<real>, lat: real)
    requires forall x <- lats :: x > lat
    ensures Above(lats, lat) == |lats|
  {
    if lats != [] {
      assert lats[0] in lats && forall x <- lats[1..] :: x in lats;
      AboveAll(lats[1..], lat);
    }
  }

  lemma {:induction false} LargestUpTo(s: set<real>, lat: real) returns (b: real)
    requires exists x <- s :: x <= lat
    ensures b in s && b <= lat && forall x <- s :: x <= lat ==> x <= b
    decreases s
  {
    var first :| first in s && first <= lat;
    b := first;
    if larger :| larger in s && first < larger <= lat {
      assert larger in s - {first};
      b := LargestUpTo(s - {first}, lat);
      assert larger <= b;
      assert forall x <- s :: x == first || x in s - {first};
    }
  }

  /** Between two break latitudes nothing changes, and below all of them nothing leaks. */
  lemma LeaksFromBreak(g: Geometry, lat: real)
    requires LeaksAt(g, lat)
    ensures !Unbroken(g)
  {
    var lats := BreakLatitudes(g);
    assert forall r <- Rings(g) :: forall x <- Breaks(Walk(r)) :: x in lats;
    if exists x <- lats :: x <= lat {
      var b := LargestUpTo(lats, lat);
      forall r <- Rings(g) ensures Leaks(r, lat) == Leaks(r, b) {
        AboveSame(Breaks(Walk(r)), b, lat);
      }
      SameLeaks(g, lat, b);
    } else {
      forall r <- Rings(g) ensures !Leaks(r, lat) {
        AboveAll(Breaks(Walk(r)), lat);
        LeaksIs(r, lat);
      }
      SomeLeak(g, lat);
    }
  }

  lemma SameLeaks(g: Geometry, low: real, high: real)
    requires forall r <- Rings(g) :: Leaks(r, low) == Leaks(r, high)
    ensures LeaksAt(g, low) == LeaksAt(g, high)
  {
    hide Leaks;
    forall p <- g.multiPolygon ensures LeaksPolygon(p, low) == LeaksPolygon(p, high) {
      assert forall r <- p :: r in Rings(g);
    }
    assert forall r <- g.polygon :: r in Rings(g);
  }

  lemma SomeLeak(g: Geometry, lat: real)
    requires LeaksAt(g, lat)
    ensures exists r <- Rings(g) :: Leaks(r, lat)
  {
    hide Leaks;
    if g.polygon != [] {
      assert g.polygon[0] in Rings(g);
    } else {
      var k :| 0 <= k < |g.multiPolygon| && LeaksPolygon(g.multiPolygon[k], lat);
      var polygon := g.multiPolygon[k];
      assert polygon in g.multiPolygon && polygon[0] in polygon;
      assert polygon[0] in Rings(g);
    }
  }

  /** On a geometry without open breaks the shortcut never changes an answer. */
  lemma OutsideBox(g: Geometry, box: Box, lat: real, lon: real)
    requires Unbroken(g) && Spans(box, Positions(g)) && !box.Has(lat, lon)
    ensures !InGeometry(g, lat, lon)
  {
    hide *;
    OutsideGeometry(g, box, lat, lon);
    if LeaksAt(g, lat) {
      LeaksFromBreak(g, lat);
    }
  }

  /** The shortcut changes no answer exactly if the geometry has no open break. */
  lemma ShortcutExactly(g: Geometry, box: Box)
    requires Spans(box, Positions(g))
    ensures Unbroken(g) <==> forall lat, lon :: InGeometry(g, lat, lon) ==> box.Has(lat, lon)
  {
    if Unbroken(g) {
      forall lat, lon | InGeometry(g, lat, lon) ensures box.Has(lat, lon) {
        if !box.Has(lat, lon) {
          OutsideBox(g, box, lat, lon);
        }
      }
    } else {
      var lat :| lat in BreakLatitudes(g) && LeaksAt(g, lat);
      OutsideGeometry(g, box, lat, box.minLon - 1.0);
      assert !box.Has(lat, box.minLon - 1.0);
    }
    hide Unbroken, InGeometry;
  }

  lemma BoxHas(g: Geometry, box: Box, p: Position)
    requires Spans(box, Positions(g)) && p in Positions(g)
    ensures |p| >= 2 ==> box.Has(p[1], p[0])
  {
  }

  lemma {:induction false} FlatHas(rings: seq<Ring>, k: nat)
    requires k < |rings|
    ensures forall p <- rings[k] :: p in Flat(rings)
  {
    if k < |rings| - 1 {
      FlatHas(rings[..|rings| - 1], k);
    }
  }

  lemma {:induction false} FlatMultiHas(polygons: seq<Polygon>, k: nat)
    requires k < |polygons|
    ensures forall p <- Flat(polygons[k]) :: p in FlatMulti(polygons)
  {
    if k < |polygons| - 1 {
      FlatMultiHas(polygons[..|polygons| - 1], k);
    }
  }

  /** North, south and east of the box no edge is crossed at all. */
  lemma {:induction false} NothingToTheEast(path: seq<Position>, box: Box, lat: real, lon: real)
    requires forall p <- path :: |p| >= 2 ==> box.Has(p[1], p[0])
    requires lat < box.minLat || lat > box.maxLat || lon > box.maxLon
    ensures Crossings(path, lat, lon) == 0
  {
    if |path| >= 2 {
      var a, b := path[0], path[1];
      NothingToTheEast(path[1..], box, lat, lon);
      assert a in path && b in path;
      if |a| >= 2 && |b| >= 2 {
        CrossesIsSideTest(a, b, lat, lon);
        if a[1] <= lat < b[1] {
          EastOfEdge(a, b, lat, lon);
        } else if b[1] <= lat < a[1] {
          EastOfEdge(b, a, lat, lon);
          assert Side(a, b, lat, lon) == -Side(b, a, lat, lon);
        }
      }
    }
  }

  lemma EastOfEdge(a: Position, b: Position, lat: real, lon: real)
    requires |a| >= 2 && |b| >= 2 && a[1] <= lat < b[1] && lon > a[0] && lon > b[0]
    ensures Side(a, b, lat, lon) <= 0.0
  {
    var dx, up, dy, east := b[0] - a[0], lat - a[1], b[1] - a[1], lon - a[0];
    assert dx * up <= east * up by { ProductOrder(dx, east, up); }
    assert up * east <= dy * east by { ProductOrder(up, dy, east); }
  }

  lemma ProductOrder(x: real, y: real, k: real)
    requires x <= y && k >= 0.0
    ensures x * k <= y * k
  {
  }

  /** West of the box every edge through the point's latitude is crossed. */
  lemma {:induction false} WestOfPath(path: seq<Position>, lat: real, lon: real)
    requires forall p <- path :: |p| >= 2 ==> lon < p[0]
    ensures Crossings(path, lat, lon) == Passages(path, lat)
  {
    if |path| >= 2 {
      var a, b := path[0], path[1];
      assert a in path && b in path;
      WestOfPath(path[1..], lat, lon);
      if |a| >= 2 && |b| >= 2 {
        WestOfEdge(a, b, lat, lon);
      }
      hide Meets;
    }
  }

  lemma WestOfEdge(a: Position, b: Position, lat: real, lon: real)
    requires |a| >= 2 && |b| >= 2 && lon < a[0] && lon < b[0]
    ensures Crosses(a, b, lat, lon) == ((a[1] > lat) != (b[1] > lat))
  {
    CrossesIsSideTest(a, b, lat, lon);
    if a[1] <= lat < b[1] {
      WestOfRisingEdge(a, b, lat, lon);
    } else if b[1] <= lat < a[1] {
      WestOfRisingEdge(b, a, lat, lon);
      assert Side(a, b, lat, lon) == -Side(b, a, lat, lon);
    }
  }

  lemma WestOfRisingEdge(a: Position, b: Position, lat: real, lon: real)
    requires |a| >= 2 && |b| >= 2 && a[1] <= lat < b[1] && lon < a[0] && lon < b[0]
    ensures Side(a, b, lat, lon) > 0.0
  {
    var up, rest, wa, wb := lat - a[1], b[1] - lat, a[0] - lon, b[0] - lon;
    assert Side(a, b, lat, lon) == wb * up + wa * rest;
    assert wb * up >= 0.0 && wa * rest > 0.0;
  }

  /** The shortcut does rely on positions having both coordinates: with a malformed one the ring is open where
      the position was skipped, and a point west of it can count as inside although it is outside the box. */
  lemma MalformedPositionDefeatsShortcut(f: Geometry, box: Box)
    requires f == Geometry([[[0.0, 0.0], [0.0, 2.0], []]], []) && box == Box(0.0, 2.0, 0.0, 0.0)
    ensures Spans(box, Positions(f)) && !box.Has(1.0, -1.0) && InGeometry(f, 1.0, -1.0)
  {
    var south, north, bad := [0.0, 0.0], [0.0, 2.0], [];
    var ring := [south, north, bad];
    assert f.polygon == [ring];
    assert Flat([ring]) == Flat([ring][..0]) + ring;
    assert Positions(f) == ring;
    assert south in ring && north in ring;
    assert Crosses(south, north, 1.0, -1.0) by { CrossesIsSideTest(south, north, 1.0, -1.0); }
    TriangleCount(south, north, bad, 1.0, -1.0);
  }

  // ---------------------------------------------------------------------------------------------
  // The city of a coordinate
  // ---------------------------------------------------------------------------------------------

  datatype CityStatus = Unmapped | Resolved | Ambiguous

  ghost predicate Eligible(f: BoundaryFeature, country: string, lat: real, lon: real)
    reads f
  {
    (f.country == "" || f.country == country) && f.cityId != "" && f.Answer(lat, lon)
  }

  /** The ids of the matching city boundaries, in file order. */
  ghost function Matches(cities: seq<BoundaryFeature>, country: string, lat: real, lon: real): seq<string>
    reads cities
  {
    if cities == [] then []
    else
      var last := cities[|cities| - 1];
      Matches(cities[..|cities| - 1], country, lat, lon)
      + if Eligible(last, country, lat, lon) then [last.cityId] else []
  }

  lemma NoMatches(country: string, lat: real, lon: real)
    ensures Matches([], country, lat, lon) == [] && ParityRule([], "", Unmapped)
  {
  }

  lemma EligibleIs(f: BoundaryFeature, country: string, lat: real, lon: real)
    ensures Eligible(f, country, lat, lon) <==>
            (f.country == "" || f.country == country) && f.cityId != "" && f.Answer(lat, lon)
  {
  }

  lemma MatchesNext(cities: seq<BoundaryFeature>, k: nat, country: string, lat: real, lon: real)
    requires k < |cities|
    ensures Matches(cities[..k + 1], country, lat, lon)
         == if Eligible(cities[k], country, lat, lon) then Matches(cities[..k], country, lat, lon) + [cities[k].cityId]
            else Matches(cities[..k], country, lat, lon)
  {
    hide Eligible;
    assert cities[..k + 1][..k] == cities[..k];
  }

  /** The outcome follows the parity of the number of matches: a second match clears the city, a third one
      sets it again. */
  ghost predicate ParityRule(matches: seq<string>, cityId: string, status: CityStatus) {
    && (cityId != "" <==> |matches| % 2 == 1)
    && (|matches| % 2 == 1 ==> cityId == matches[|matches| - 1])
    && status == if |matches| == 0 then Unmapped else if |matches| % 2 == 1 then Resolved else Ambiguous
  }

  lemma ParityStep(matches: seq<string>, cityId: string, status: CityStatus, id: string)
    requires ParityRule(matches, cityId, status) && id != ""
    ensures ParityRule(matches + [id], if cityId != "" then "" else id, if cityId != "" then Ambiguous else Resolved)
  {
  }

  /** geo/offline.go's fold over the city boundaries. */
  method ResolveCity(cities: seq<BoundaryFeature>, country: string, lat: real, lon: real)
    returns (cityId: string, status: CityStatus)
    requires forall f <- cities :: f.Valid()
    ensures ParityRule(Matches(cities, country, lat, lon), cityId, status)
  {
    hide *;
    cityId, status := "", Unmapped;
    NoMatches(country, lat, lon);
    for k := 0 to |cities|
      invariant ParityRule(Matches(cities[..k], country, lat, lon), cityId, status)
    {
      var feature := cities[k];
      assert feature in cities;
      ghost var before := Matches(cities[..k], country, lat, lon);
      MatchesNext(cities, k, country, lat, lon);
      EligibleIs(feature, country, lat, lon);
      if feature.country != "" && feature.country != country {
        continue;
      }
      if feature.cityId != "" {
        var found := feature.Contains(lat, lon);
        if found {
          ParityStep(before, cityId, status, feature.cityId);
          if cityId != "" {
            cityId, status := "", Ambiguous;
            continue;
          }
          cityId, status := feature.cityId, Resolved;
        }
      }
    }
    assert cities[..|cities|] == cities;
  }

  /** The documented rule: a city is reported only when a unique polygon contains the coordinate. */
  ghost predicate UniqueCityRule(matches: seq<string>, cityId: string, status: CityStatus) {
    && (cityId != "" <==> |matches| == 1)
    && (|matches| == 1 ==> cityId == matches[0])
    && status == if |matches| == 0 then Unmapped else if |matches| == 1 then Resolved else Ambiguous
  }

  /** A right triangle at the origin, closed as in section 3.1.6 of RFC 7946. */
  function Corner(size: real): Ring {
    [[0.0, 0.0], [size, 0.0], [0.0, size], [0.0, 0.0]]
  }

  lemma CornerHolds(size: real)
    requires size > 2.0
    ensures Inside(Corner(size), 1.0, 1.0)
    ensures InGeometry(Geometry([Corner(size)], []), 1.0, 1.0)
    ensures forall box :: Spans(box, Positions(Geometry([Corner(size)], []))) ==> box.Has(1.0, 1.0)
  {
    var a, b, c := [0.0, 0.0], [size, 0.0], [0.0, size];
    assert Corner(size) == [a, b, c] + [a];
    ClosingVertexInvariant([a, b, c], 1.0, 1.0);
    SignOfProduct(size, size - 2.0);
    assert Side(b, c, 1.0, 1.0) == size * (size - 2.0);
    assert StrictlyInTriangle(a, b, c, 1.0, 1.0);
    TriangleMembership(a, b, c, 1.0, 1.0);
    var ring := Corner(size);
    assert Flat([ring][..0]) == [] && Flat([ring]) == Flat([ring][..0]) + ring;
    assert Positions(Geometry([ring], [])) == ring;
    assert a in ring && b in ring && c in ring;
    hide Inside, StrictlyInTriangle;
  }

  /** Loads one of the boundaries of the example below. */
  method LoadCorner(country: string, cityId: string, size: real) returns (f: BoundaryFeature)
    requires size > 2.0 && cityId != ""
    ensures fresh(f) && f.Valid() && f.cityId == cityId && Eligible(f, country, 1.0, 1.0)
  {
    f := new BoundaryFeature(country, cityId, Geometry([Corner(size)], []));
    CornerHolds(size);
    hide InGeometry, Spans, Positions;
    var _ := f.SetBounds();
  }

  /** Three concrete boundaries that overlap resolve to the last of them, against the rule. */
  method ThreeMatchesResolve(country: string) returns (cities: seq<BoundaryFeature>, cityId: string, status: CityStatus)
    ensures forall f <- cities :: f.Valid()
    ensures Matches(cities, country, 1.0, 1.0) == ["a", "b", "c"]
    ensures status == Resolved && cityId == "c"
    ensures !UniqueCityRule(Matches(cities, country, 1.0, 1.0), cityId, status)
  {
    hide Eligible;
    var a := LoadCorner(country, "a", 7.0);
    var b := LoadCorner(country, "b", 8.0);
    var c := LoadCorner(country, "c", 9.0);
    cities := [a, b, c];
    assert cities[..2] == [a, b] && [a, b][..1] == [a] && [a][..0] == [];
    assert Matches([a], country, 1.0, 1.0) == ["a"];
    assert Matches([a, b], country, 1.0, 1.0) == ["a", "b"];
    cityId, status := ResolveCity(cities, country, 1.0, 1.0);
  }

  /** The rule holds exactly when the number of matching boundaries is one or even. */
  lemma UniqueCityExactly(matches: seq<string>, cityId: string, status: CityStatus)
    requires ParityRule(matches, cityId, status)
    ensures UniqueCityRule(matches, cityId, status) <==> |matches| == 1 || |matches| % 2 == 0
  {
  }

  // ---------------------------------------------------------------------------------------------
  // Distance to an exterior edge
  // ---------------------------------------------------------------------------------------------

  function Clamp(t: real): real {
    if t < 0.0 then 0.0 else if t > 1.0 then 1.0 else t
  }

  function LengthSquared(dx: real, dy: real): real {
    dx * dx + dy * dy
  }

  /** The parameter at which `exteriorDistanceMeters` evaluates the edge from (ax, ay) along (dx, dy). */
  function NearestParameter(ax: real, ay: real, dx: real, dy: real): real {
    if LengthSquared(dx, dy) > 0.0 then Clamp(-(ax * dx + ay * dy) / LengthSquared(dx, dy)) else 0.0
  }

  function SquaredDistance(ax: real, ay: real, dx: real, dy: real, t: real): real {
    LengthSquared(ax + t * dx, ay + t * dy)
  }

  /** How the squared distance depends on the parameter. */
  function Quadratic(base: real, along: real, len: real, t: real): real {
    base + 2.0 * (t * along) + t * t * len
  }

  function Along(ax: real, ay: real, dx: real, dy: real): real {
    ax * dx + ay * dy
  }

  /** No point of the edge is closer to the origin. */
  lemma NearestParameterIsNearest(ax: real, ay: real, dx: real, dy: real, s: real)
    requires 0.0 <= s <= 1.0
    ensures var t := NearestParameter(ax, ay, dx, dy);
            0.0 <= t <= 1.0 && SquaredDistance(ax, ay, dx, dy, t) <= SquaredDistance(ax, ay, dx, dy, s)
  {
    hide *;
    var t := NearestParameter(ax, ay, dx, dy);
    if dx == 0.0 && dy == 0.0 {
      PointDistance(ax, ay, s);
    } else {
      NearestClamped(ax, ay, dx, dy);
      Expand(ax, ay, dx, dy, s);
      Expand(ax, ay, dx, dy, t);
      QuadraticMinimum(LengthSquared(ax, ay), Along(ax, ay, dx, dy), LengthSquared(dx, dy), s, t);
    }
  }

  lemma PointDistance(ax: real, ay: real, s: real)
    ensures var t := NearestParameter(ax, ay, 0.0, 0.0);
            t == 0.0 && SquaredDistance(ax, ay, 0.0, 0.0, t) == SquaredDistance(ax, ay, 0.0, 0.0, s)
  {
    assert ax + s * 0.0 == ax && ay + s * 0.0 == ay;
  }

  lemma NearestClamped(ax: real, ay: real, dx: real, dy: real)
    requires dx != 0.0 || dy != 0.0
    ensures LengthSquared(dx, dy) > 0.0
    ensures NearestParameter(ax, ay, dx, dy) == Clamp(-Along(ax, ay, dx, dy) / LengthSquared(dx, dy))
  {
    LengthPositive(dx, dy);
    hide LengthSquared, Clamp;
  }

  lemma QuadraticMinimum(base: real, along: real, len: real, s: real, t: real)
    requires len > 0.0 && 0.0 <= s <= 1.0 && t == Clamp(-along / len)
    ensures 0.0 <= t <= 1.0 && Quadratic(base, along, len, t) <= Quadratic(base, along, len, s)
  {
    var free := -along / len;
    assert along == -(free * len);
    ParabolaMinimum(free, len, s);
    Parabola(along, free, len, s);
    Parabola(along, free, len, t);
  }

  lemma LengthPositive(dx: real, dy: real)
    requires dx != 0.0 || dy != 0.0
    ensures LengthSquared(dx, dy) > 0.0
  {
    calc {
      LengthSquared(dx, dy);
    ==
      dx * dx + dy * dy;
    >  { LegPositive(dx, dy); LegPositive(dy, dx); }
      0.0;
    }
  }

  lemma LegPositive(x: real, y: real)
    ensures x != 0.0 ==> x * x + y * y > 0.0
  {
    ProductSign(x, x);
  }

  lemma Expand(ax: real, ay: real, dx: real, dy: real, t: real)
    ensures SquaredDistance(ax, ay, dx, dy, t) ==
            Quadratic(LengthSquared(ax, ay), Along(ax, ay, dx, dy), LengthSquared(dx, dy), t)
  {
    assert (ax + t * dx) * (ax + t * dx) == ax * ax + 2.0 * (t * (ax * dx)) + t * t * (dx * dx);
    assert (ay + t * dy) * (ay + t * dy) == ay * ay + 2.0 * (t * (ay * dy)) + t * t * (dy * dy);
  }

  lemma Parabola(along: real, free: real, len: real, t: real)
    requires along == -(free * len)
    ensures 2.0 * (t * along) + t * t * len == len * ((t - free) * (t - free)) - len * (free * free)
  {
  }

  lemma ParabolaMinimum(free: real, len: real, s: real)
    requires len > 0.0 && 0.0 <= s <= 1.0
    ensures len * ((Clamp(free) - free) * (Clamp(free) - free)) <= len * ((s - free) * (s - free))
  {
    var near, far := Clamp(free) - free, s - free;
    assert near * near <= far * far by {
      if free < 0.0 {
        assert 0.0 <= near <= far;
      } else if free > 1.0 {
        assert far <= near <= 0.0;
      } else {
        assert near == 0.0;
      }
      assert far * far - near * near == (far - near) * (far + near);
    }
  }

  // ---------------------------------------------------------------------------------------------
  // Holes and parts
  // ---------------------------------------------------------------------------------------------

  /** A hole is cut out of its polygon, and a MultiPolygon is the union of its parts: shown on triangles. */
  lemma TriangleWithHole(a: Position, b: Position, c: Position, d: Position, e: Position, f: Position, lat: real,
                         lon: real)
    requires WellFormed([a, b, c]) && WellFormed([d, e, f])
    ensures var outer, hole := [a, b, c], [d, e, f];
            var holed := InGeometry(Geometry([outer, hole], []), lat, lon);
            var parts := InGeometry(Geometry([], [[outer], [hole]]), lat, lon);
            && (StrictlyInTriangle(a, b, c, lat, lon) && !InClosedTriangle(d, e, f, lat, lon) ==> holed)
            && (!InClosedTriangle(a, b, c, lat, lon) || StrictlyInTriangle(d, e, f, lat, lon) ==> !holed)
            && (StrictlyInTriangle(a, b, c, lat, lon) || StrictlyInTriangle(d, e, f, lat, lon) ==> parts)
            && (!InClosedTriangle(a, b, c, lat, lon) && !InClosedTriangle(d, e, f, lat, lon) ==> !parts)
  {
    assert a in [a, b, c] && b in [a, b, c] && c in [a, b, c] && d in [d, e, f] && e in [d, e, f] && f in [d, e, f];
    TriangleMembership(a, b, c, lat, lon);
    TriangleMembership(d, e, f, lat, lon);
    hide Inside, StrictlyInTriangle, InClosedTriangle, InGeometry;
    HoleAndParts([a, b, c], [d, e, f], lat, lon);
  }

  lemma HoleAndParts(outer: Ring, hole: Ring, lat: real, lon: real)
    ensures InGeometry(Geometry([outer, hole], []), lat, lon) <==> Inside(outer, lat, lon) && !Inside(hole, lat, lon)
    ensures InGeometry(Geometry([], [[outer], [hole]]), lat, lon) <==> Inside(outer, lat, lon) || Inside(hole, lat, lon)
  {
    hide Inside;
    var parts := [[outer], [hole]];
    assert InPolygon(parts[0], lat, lon) <==> Inside(outer, lat, lon);
    assert InPolygon(parts[1], lat, lon) <==> Inside(hole, lat, lon);
    assert [outer, hole][1] == hole;
  }

  /** The matching boundaries are those of the country, or of none, that belong to a city and hold the point. */
  lemma {:induction false} MatchesAre(cities: seq<BoundaryFeature>, country: string, lat: real, lon: real,
                                      cityId: string)
    ensures cityId in Matches(cities, country, lat, lon) <==>
            cityId != "" && exists f <- cities ::
              && f.cityId == cityId && (f.country == "" || f.country == country)
              && InGeometry(f.geometry, lat, lon) && (!f.hasBounds || f.box.Has(lat, lon))
  {
    if cities == [] {
      NoMatches(country, lat, lon);
    } else {
      var rest, last := cities[..|cities| - 1], cities[|cities| - 1];
      assert cities == rest + [last];
      hide InGeometry, ParityRule;
      MatchesAre(rest, country, lat, lon, cityId);
    }
  }
}
