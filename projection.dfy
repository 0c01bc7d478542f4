/**
 * Placing a train on the drawn polyline of its segment: the distance travelled is
 * turned into a ratio of the segment length, clamped to [0, 1], and the ratio is
 * spread evenly over the polyline's pieces.
 */
module Projection {

  import opened Snapshot

  /** `Math.max(0, Math.min(1, x))`. */
  function Clamp01(x: real): (r: real)
    ensures 0.0 <= r <= 1.0
    ensures x <= 0.0 ==> r == 0.0
    ensures x >= 1.0 ==> r == 1.0
    ensures 0.0 <= x <= 1.0 ==> r == x
  {
    if x < 0.0 then 0.0 else if x > 1.0 then 1.0 else x
  }

  /** The point a fraction `w` of the way from `a` to `b`. */
  function Lerp(a: Point, b: Point, w: real): (p: Point)
    ensures w == 0.0 ==> p == a
    ensures w == 1.0 ==> p == b
  {
    Point(a.lng + (b.lng - a.lng) * w, a.lat + (b.lat - a.lat) * w)
  }

  /**
   * Where a ratio falls on a polyline of `pieces` pieces: the piece `k` and the
   * fraction `w` of the way along it. The corrected rule: the fraction is taken
   * from the clamped piece index.
   */
  function Locate(pieces: nat, ratio: real): (loc: (nat, real))
    requires pieces >= 1 && 0.0 <= ratio <= 1.0
    ensures loc.0 < pieces && 0.0 <= loc.1 <= 1.0
    ensures loc.0 as real + loc.1 == ratio * pieces as real
  {
    var index := ratio * pieces as real;
    var k := if index.Floor < pieces - 1 then index.Floor else pieces - 1;
    (k, index - k as real)
  }

  /**
   * `getPositionAlongLine` with the fraction taken from the clamped index, so a
   * ratio of 1 lands on the last point.
   */
  function PositionAlongLine(coordinates: seq<Point>, position: real, length: real): (p: Point)
    requires |coordinates| >= 2 && length != 0.0
  {
    var loc := Locate(|coordinates| - 1, Clamp01(position / length));
    Lerp(coordinates[loc.0], coordinates[loc.0 + 1], loc.1)
  }

  lemma RatioBelowOne(position: real, length: real)
    requires length > 0.0 && position < length
    ensures position / length < 1.0
  {
    assert position / length * length == position;
  }

  /** A train that has not started, or stands before the start, is drawn at the first point. */
  lemma StartIsFirstPoint(coordinates: seq<Point>, position: real, length: real)
    requires |coordinates| >= 2 && length > 0.0 && position <= 0.0
    ensures PositionAlongLine(coordinates, position, length) == coordinates[0]
  {
    assert position / length <= 0.0;
  }

  /** A train at or past the end of its segment is drawn at the last point. */
  lemma EndIsLastPoint(coordinates: seq<Point>, position: real, length: real)
    requires |coordinates| >= 2 && length > 0.0 && position >= length
    ensures PositionAlongLine(coordinates, position, length) == coordinates[|coordinates| - 1]
  {
    assert position / length >= 1.0;
  }

  /** Positions outside [0, length] are drawn like the nearer end of the segment. */
  lemma ProjectionClamps(coordinates: seq<Point>, position: real, length: real)
    requires |coordinates| >= 2 && length > 0.0
    ensures position < 0.0 ==> PositionAlongLine(coordinates, position, length) == PositionAlongLine(coordinates, 0.0, length)
    ensures position > length ==> PositionAlongLine(coordinates, position, length) == PositionAlongLine(coordinates, length, length)
  {
    if position < 0.0 {
      assert position / length < 0.0;
    }
    if position > length {
      assert position / length > 1.0;
    }
  }

  lemma ScaledBelow(ratio: real, pieces: nat)
    requires 0.0 <= ratio < 1.0 && pieces >= 1
    ensures 0.0 <= ratio * pieces as real < pieces as real
    ensures 0 <= (ratio * pieces as real).Floor < pieces
  {
    assert pieces as real - ratio * pieces as real == (1.0 - ratio) * pieces as real;
  }

  /** Below a ratio of 1 the piece is the whole part of ratio * pieces and the weight its fractional part. */
  lemma LocateInterior(pieces: nat, ratio: real)
    requires pieces >= 1 && 0.0 <= ratio < 1.0
    ensures Locate(pieces, ratio).0 == (ratio * pieces as real).Floor
    ensures Locate(pieces, ratio).1 == ratio * pieces as real - (ratio * pieces as real).Floor as real
  {
    ScaledBelow(ratio, pieces);
  }

  /**
   * Below the end, the point is the interpolation between point k and point k + 1,
   * where k is the whole part of ratio * (n - 1) and the weight its fractional part.
   */
  lemma InteriorInterpolates(coordinates: seq<Point>, position: real, length: real, ratio: real)
    requires |coordinates| >= 2 && length > 0.0 && 0.0 <= position < length && ratio == position / length
    ensures var index := ratio * (|coordinates| - 1) as real;
            var k := index.Floor;
            0 <= k < |coordinates| - 1 &&
            PositionAlongLine(coordinates, position, length)
              == Lerp(coordinates[k], coordinates[k + 1], index - k as real)
  {
    RatioBelowOne(position, length);
    assert Clamp01(ratio) == ratio;
    ScaledBelow(ratio, |coordinates| - 1);
    LocateInterior(|coordinates| - 1, ratio);
  }

  /**
   * `getPositionAlongLine` as the front end writes it: the piece index is clamped
   * but the fraction is taken from the unclamped index.
   */
  function LocateAsWritten(pieces: nat, ratio: real): (loc: (nat, real))
    requires pieces >= 1 && 0.0 <= ratio <= 1.0
    ensures loc.0 < pieces && 0.0 <= loc.1 < 1.0
  {
    var index := ratio * pieces as real;
    var k := if index.Floor < pieces - 1 then index.Floor else pieces - 1;
    (k, index - index.Floor as real)
  }

  function PositionAlongLineAsWritten(coordinates: seq<Point>, position: real, length: real): (p: Point)
    requires |coordinates| >= 2 && length != 0.0
  {
    var loc := LocateAsWritten(|coordinates| - 1, Clamp01(position / length));
    Lerp(coordinates[loc.0], coordinates[loc.0 + 1], loc.1)
  }

  /** Below a ratio of 1 the written rule and the corrected rule agree. */
  lemma AsWrittenAgreesBelowEnd(coordinates: seq<Point>, position: real, length: real)
    requires |coordinates| >= 2 && length > 0.0 && position < length
    ensures PositionAlongLineAsWritten(coordinates, position, length) == PositionAlongLine(coordinates, position, length)
  {
    RatioBelowOne(position, length);
    ScaledBelow(Clamp01(position / length), |coordinates| - 1);
  }

  /** At a ratio of 1 the written rule lands on the second-to-last point, not on the last one. */
  lemma AsWrittenEndIsSecondToLast(coordinates: seq<Point>, position: real, length: real)
    requires |coordinates| >= 2 && length > 0.0 && position >= length
    ensures PositionAlongLineAsWritten(coordinates, position, length) == coordinates[|coordinates| - 2]
  {
    var n := |coordinates| - 1;
    assert position / length >= 1.0;
    assert Clamp01(position / length) == 1.0;
    assert 1.0 * n as real == n as real;
    assert (n as real).Floor == n;
  }

  /** On a two-point line from (0,0) to (1,1), a train at the end is drawn at (0,0). */
  lemma AsWrittenEndCounterexample()
    ensures PositionAlongLineAsWritten([Point(0.0, 0.0), Point(1.0, 1.0)], 100.0, 100.0) == Point(0.0, 0.0)
    ensures PositionAlongLine([Point(0.0, 0.0), Point(1.0, 1.0)], 100.0, 100.0) == Point(1.0, 1.0)
  {
    AsWrittenEndIsSecondToLast([Point(0.0, 0.0), Point(1.0, 1.0)], 100.0, 100.0);
    EndIsLastPoint([Point(0.0, 0.0), Point(1.0, 1.0)], 100.0, 100.0);
  }
}
