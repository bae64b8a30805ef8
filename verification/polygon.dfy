/**
 * The SoQL polygon value: a sequence of rings, each ring a sequence of
 * positions. Positions are a type parameter, so the model never touches
 * floating-point coordinates.
 */
module Polygon {

  /** Geometry type name reported for the value (GeoJSON spelling). */
  const GeometryTypeName: string := "Polygon"

  /** Column type tag used in layer schemas and summaries. */
  const ColumnTypeTag: string := "polygon"

  datatype SoQLPolygon<P> = SoQLPolygon(rings: seq<seq<P>>)

  /** The geometry type name of a value; the same for every polygon. */
  function TypeName<P>(p: SoQLPolygon<P>): string
  {
    GeometryTypeName
  }

  /** The column type tag; it does not depend on any value. */
  function CType(): string
  {
    ColumnTypeTag
  }

  /** ASCII lower-casing, used to relate the two tags. */
  function LowerAscii(s: string): (r: string)
    ensures |r| == |s|
    ensures forall i :: 0 <= i < |s| && 'A' <= s[i] <= 'Z' ==> r[i] as int == s[i] as int + 32
    ensures forall i :: 0 <= i < |s| && !('A' <= s[i] <= 'Z') ==> r[i] == s[i]
  {
    if |s| == 0 then []
    else
      var c := s[0];
      [if 'A' <= c <= 'Z' then (c as int + 32) as char else c] + LowerAscii(s[1..])
  }

  /**
   * Every polygon has the type name `Polygon` and the column tag `polygon`;
   * the column tag is the type name in lower case.
   */
  lemma ColumnTagIsLowerTypeName<P>(p: SoQLPolygon<P>, q: SoQLPolygon<P>)
    ensures TypeName(p) == TypeName(q) == "Polygon"
    ensures CType() == "polygon"
    ensures CType() == LowerAscii(TypeName(p))
  {
    var s := TypeName(p);
    var r := LowerAscii(s);
    assert s[0] == 'P' && r[0] == 'p';
    assert forall i :: 1 <= i < |s| ==> r[i] == s[i];
    assert r == "polygon";
  }

  /** `coords.map(fn)` on one ring. */
  function MapRing<P, Q>(ring: seq<P>, f: P -> Q): (r: seq<Q>)
    ensures |r| == |ring|
    ensures forall j :: 0 <= j < |ring| ==> r[j] == f(ring[j])
  {
    if |ring| == 0 then [] else [f(ring[0])] + MapRing(ring[1..], f)
  }

  /** The outer `map` over the rings. */
  function MapRings<P, Q>(rings: seq<seq<P>>, f: P -> Q): (r: seq<seq<Q>>)
    ensures |r| == |rings|
    ensures forall i :: 0 <= i < |rings| ==> r[i] == MapRing(rings[i], f)
  {
    if |rings| == 0 then [] else [MapRing(rings[0], f)] + MapRings(rings[1..], f)
  }

  /**
   * Applies `f` to every position of every ring and keeps the nesting:
   * same number of rings, same ring lengths, `f` applied in place.
   */
  function MapCoordinates<P, Q>(p: SoQLPolygon<P>, f: P -> Q): (r: SoQLPolygon<Q>)
    ensures |r.rings| == |p.rings|
    ensures forall i :: 0 <= i < |p.rings| ==> |r.rings[i]| == |p.rings[i]|
    ensures forall i, j :: 0 <= i < |p.rings| && 0 <= j < |p.rings[i]| ==>
              r.rings[i][j] == f(p.rings[i][j])
  {
    SoQLPolygon(MapRings(p.rings, f))
  }

  /** The `reduce` in `vertexCount`: the ring lengths added up from the front. */
  function SumRingLengths<P>(rings: seq<seq<P>>): nat
  {
    if |rings| == 0 then 0 else |rings[0]| + SumRingLengths(rings[1..])
  }

  /** Number of positions over all rings. */
  function VertexCount<P>(p: SoQLPolygon<P>): (r: nat)
    ensures r == |Positions(p.rings)|
    ensures |p.rings| == 0 ==> r == 0
  {
    RingSumIsPositionCount(p.rings);
    SumRingLengths(p.rings)
  }

  /** All positions, ring after ring, each ring in its own order. */
  function Positions<P>(rings: seq<seq<P>>): seq<P>
  {
    if |rings| == 0 then [] else rings[0] + Positions(rings[1..])
  }

  /** `f` applied to each element of a flat sequence, as an independent reference. */
  function MapSeq<P, Q>(s: seq<P>, f: P -> Q): (r: seq<Q>)
    ensures |r| == |s|
    ensures forall k :: 0 <= k < |s| ==> r[k] == f(s[k])
  {
    seq(|s|, k requires 0 <= k < |s| => f(s[k]))
  }

  lemma {:induction false} PositionsAppend<P>(a: seq<seq<P>>, b: seq<seq<P>>)
    ensures Positions(a + b) == Positions(a) + Positions(b)
  {
    if |a| == 0 {
      assert a + b == b;
    } else {
      assert (a + b)[1..] == a[1..] + b;
      PositionsAppend(a[1..], b);
    }
  }

  /** The vertex count is the number of positions, so it counts every position once. */
  lemma {:induction false} VertexCountIsPositionCount<P>(p: SoQLPolygon<P>)
    ensures VertexCount(p) == |Positions(p.rings)|
  {
    RingSumIsPositionCount(p.rings);
  }

  lemma {:induction false} RingSumIsPositionCount<P>(rings: seq<seq<P>>)
    ensures SumRingLengths(rings) == |Positions(rings)|
  {
    if |rings| > 0 {
      RingSumIsPositionCount(rings[1..]);
    }
  }

  /** The vertex count of a polygon with one more ring grows by that ring's length. */
  lemma {:induction false} VertexCountAddRing<P>(p: SoQLPolygon<P>, ring: seq<P>)
    ensures VertexCount(SoQLPolygon(p.rings + [ring])) == VertexCount(p) + |ring|
  {
    RingSumIsPositionCount(p.rings + [ring]);
    RingSumIsPositionCount(p.rings);
    PositionsAppend(p.rings, [ring]);
    assert Positions([ring]) == ring + Positions([ring][1..]);
    assert [ring][1..] == [];
  }

  /** Mapping visits positions in ring order, then position order. */
  lemma {:induction false} MapCoordinatesInOrder<P, Q>(p: SoQLPolygon<P>, f: P -> Q)
    ensures Positions(MapCoordinates(p, f).rings) == MapSeq(Positions(p.rings), f)
  {
    MapRingsPositions(p.rings, f);
  }

  lemma {:induction false} MapRingsPositions<P, Q>(rings: seq<seq<P>>, f: P -> Q)
    ensures Positions(MapRings(rings, f)) == MapSeq(Positions(rings), f)
  {
    if |rings| > 0 {
      var m := MapRings(rings, f);
      assert m[1..] == MapRings(rings[1..], f);
      MapRingsPositions(rings[1..], f);
      assert Positions(m) == MapRing(rings[0], f) + Positions(m[1..]);
      assert Positions(rings) == rings[0] + Positions(rings[1..]);
    }
  }

  /** Reprojection never changes the vertex count. */
  lemma {:induction false} MapCoordinatesKeepsVertexCount<P, Q>(p: SoQLPolygon<P>, f: P -> Q)
    ensures VertexCount(MapCoordinates(p, f)) == VertexCount(p)
  {
    VertexCountIsPositionCount(p);
    VertexCountIsPositionCount(MapCoordinates(p, f));
    MapCoordinatesInOrder(p, f);
  }

  /** Mapping with the identity returns an equal polygon. */
  lemma MapCoordinatesIdentity<P>(p: SoQLPolygon<P>)
    ensures MapCoordinates(p, x => x) == p
  {
    var r := MapCoordinates(p, x => x);
    assert |r.rings| == |p.rings|;
    forall i | 0 <= i < |p.rings|
      ensures r.rings[i] == p.rings[i]
    {
    }
  }

  /** Mapping with `f` then `g` is mapping once with `g` after `f`. */
  lemma MapCoordinatesCompose<P, Q, R>(p: SoQLPolygon<P>, f: P -> Q, g: Q -> R)
    ensures MapCoordinates(MapCoordinates(p, f), g) == MapCoordinates(p, x => g(f(x)))
  {
    var a := MapCoordinates(MapCoordinates(p, f), g);
    var b := MapCoordinates(p, x => g(f(x)));
    assert |a.rings| == |b.rings|;
    forall i | 0 <= i < |p.rings|
      ensures a.rings[i] == b.rings[i]
    {
    }
  }

  /** A position of the merger fixture, longitude then latitude. */
  datatype LonLat = LonLat(lon: real, lat: real)

  /** The second polygon of the WGS84 merger fixture: two rings of five positions. */
  function Wgs84Fixture(): SoQLPolygon<LonLat>
  {
    SoQLPolygon([
      [LonLat(100.0, 0.0), LonLat(101.0, 0.0), LonLat(101.0, 1.0), LonLat(100.0, 1.0), LonLat(100.0, 0.0)],
      [LonLat(100.2, 0.2), LonLat(100.8, 0.2), LonLat(100.8, 0.8), LonLat(100.2, 0.8), LonLat(100.2, 0.2)]
    ])
  }

  /** The fixture has ten vertices and comes through an identity reprojection unchanged. */
  lemma Wgs84FixtureUnchanged()
    ensures VertexCount(Wgs84Fixture()) == 10
    ensures MapCoordinates(Wgs84Fixture(), x => x) == Wgs84Fixture()
  {
    MapCoordinatesIdentity(Wgs84Fixture());
  }
}
