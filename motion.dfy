/** updateBullets: each bullet advances by one frame's displacement; it is
    deleted when that step crosses a reported obstacle or leaves the map. */
module Motion {
  import opened Wrappers
  import opened Entities

  /** Where the projection of (a, b) falls along (c, e), as a fraction of
      its length; -1 for a segment of length 0. */
  function Param(a: real, b: real, c: real, e: real): real
  {
    var lenSq := c * c + e * e;
    if lenSq != 0.0 then (a * c + b * e) / lenSq else -1.0
  }

  /** Squared distance from (px, py) to the segment (x1, y1)-(x2, y2): the
      projection of the point is clamped to the segment's end points, and a
      segment of length 0 counts as its start point. */
  function SegmentDistSq(px: real, py: real, x1: real, y1: real, x2: real, y2: real): (d: real)
    ensures d >= 0.0
  {
    var t := Param(px - x1, py - y1, x2 - x1, y2 - y1);
    var xx := if t < 0.0 then x1 else if t > 1.0 then x2 else x1 + t * (x2 - x1);
    var yy := if t < 0.0 then y1 else if t > 1.0 then y2 else y1 + t * (y2 - y1);
    DistSq(px, py, xx, yy)
  }

  /** The step meets collider c: its distance to the centre is below 0.8 of
      the radius (compared squared, so a radius that is not positive never
      blocks). The source first skips colliders farther from the start than
      the step length plus 50 plus the adjusted radius; such a collider is
      too far to meet this test, so the model has no such shortcut. */
  predicate Meets(c: Collider, x1: real, y1: real, x2: real, y2: real)
  {
    var r := c.radius * 0.8;
    r > 0.0 && SegmentDistSq(c.x, c.y, x1, y1, x2, y2) < r * r
  }

  predicate Blocked(colliders: seq<Collider>, x1: real, y1: real, x2: real, y2: real)
  {
    exists i :: 0 <= i < |colliders| && Meets(colliders[i], x1, y1, x2, y2)
  }

  predicate OffMap(x: real, y: real)
  {
    x < 0.0 || x > MapWidth || y < 0.0 || y > MapHeight
  }

  /** One frame of one bullet, for the displacement (dx, dy) the source
      computes as cos/sin of the rotation times speed / 60: None when the
      bullet is deleted. */
  function Advance(b: Bullet, dx: real, dy: real, colliders: seq<Collider>): (r: Option<Bullet>)
    ensures r.Some? ==> r.value == b.(x := b.x + dx, y := b.y + dy) && !OffMap(r.value.x, r.value.y)
    ensures r.None? <==> Blocked(colliders, b.x, b.y, b.x + dx, b.y + dy) || OffMap(b.x + dx, b.y + dy)
  {
    var nx := b.x + dx;
    var ny := b.y + dy;
    if Blocked(colliders, b.x, b.y, nx, ny) then None
    else if OffMap(nx, ny) then None
    else Some(b.(x := nx, y := ny))
  }

  /** updateBullets over the bullets with id below k, in id order. */
  function Frame(bs0: map<nat, Bullet>, delta: Bullet -> (real, real), colliders: seq<Collider>, k: nat): (bs: map<nat, Bullet>)
    ensures bs.Keys <= bs0.Keys
  {
    if k == 0 then bs0
    else
      var bs := Frame(bs0, delta, colliders, k - 1);
      if k - 1 in bs then
        var b := bs[k - 1];
        match Advance(b, delta(b).0, delta(b).1, colliders)
        case None => bs - {k - 1}
        case Some(b') => bs[k - 1 := b']
      else bs
  }

  /** Every bullet is advanced once by its own displacement; it survives the
      frame exactly when that step is neither blocked nor off the map. */
  lemma {:induction false} FrameEffect(bs0: map<nat, Bullet>, delta: Bullet -> (real, real), colliders: seq<Collider>, k: nat, id: nat)
    requires id in bs0
    ensures var b := bs0[id]; var a := Advance(b, delta(b).0, delta(b).1, colliders);
      id < k ==> (id in Frame(bs0, delta, colliders, k) <==> a.Some?)
                 && (a.Some? ==> Frame(bs0, delta, colliders, k)[id] == a.value)
    ensures id >= k ==> id in Frame(bs0, delta, colliders, k) && Frame(bs0, delta, colliders, k)[id] == bs0[id]
  {
    if k > 0 {
      FrameEffect(bs0, delta, colliders, k - 1, id);
    }
  }

  lemma Expand(a: real, b: real, c: real, e: real, t: real)
    ensures (a - t * c) * (a - t * c) + (b - t * e) * (b - t * e)
      == a * a + b * b - 2.0 * t * (a * c + b * e) + t * t * (c * c + e * e)
  {
  }

  lemma NonNegProduct(u: real, v: real)
    requires u >= 0.0 && v >= 0.0
    ensures u * v >= 0.0
  {
  }

  lemma PositiveSquare(u: real)
    requires u > 0.0
    ensures u * u > 0.0
  {
  }

  lemma SquareNonNeg(u: real)
    ensures u * u >= 0.0
  {
    if u < 0.0 {
      assert u * u == (-u) * (-u);
      NonNegProduct(-u, -u);
    } else {
      NonNegProduct(u, u);
    }
  }

  lemma FarEndCloser(a: real, b: real, c: real, e: real)
    requires a * c + b * e > c * c + e * e
    ensures (a - c) * (a - c) + (b - e) * (b - e) <= a * a + b * b
  {
    Expand(a, b, c, e, 1.0);
    SquareNonNeg(c);
    SquareNonNeg(e);
  }

  lemma ProjectionCloser(a: real, b: real, c: real, e: real, t: real)
    requires c * c + e * e > 0.0 && t >= 0.0
    requires t * (c * c + e * e) == a * c + b * e
    ensures DistSq(a, b, t * c, t * e) <= DistSq(a, b, 0.0, 0.0)
  {
    var lenSq := c * c + e * e;
    var dot := a * c + b * e;
    Expand(a, b, c, e, t);
    assert t * t * lenSq == t * dot;
    NonNegProduct(t, t * lenSq);
  }

  lemma DivMul(x: real, y: real)
    requires y != 0.0
    ensures (x / y) * y == x
  {
  }

  lemma ClampedBefore(px: real, py: real, x1: real, y1: real, x2: real, y2: real)
    requires Param(px - x1, py - y1, x2 - x1, y2 - y1) < 0.0
    ensures SegmentDistSq(px, py, x1, y1, x2, y2) == DistSq(px, py, x1, y1)
  {
  }

  lemma ClampedAfter(px: real, py: real, x1: real, y1: real, x2: real, y2: real)
    requires Param(px - x1, py - y1, x2 - x1, y2 - y1) > 1.0
    ensures SegmentDistSq(px, py, x1, y1, x2, y2) == DistSq(px, py, x2, y2)
  {
  }

  lemma Projected(px: real, py: real, x1: real, y1: real, x2: real, y2: real, t: real)
    requires t == Param(px - x1, py - y1, x2 - x1, y2 - y1) && 0.0 <= t <= 1.0
    ensures SegmentDistSq(px, py, x1, y1, x2, y2) == DistSq(px, py, x1 + t * (x2 - x1), y1 + t * (y2 - y1))
  {
  }

  /** The fraction Param returns satisfies t * |c, e|^2 == (a, b) . (c, e). */
  lemma ParamFacts(a: real, b: real, c: real, e: real)
    requires c * c + e * e != 0.0
    ensures c * c + e * e > 0.0 && Param(a, b, c, e) * (c * c + e * e) == a * c + b * e
  {
    SquareNonNeg(c);
    SquareNonNeg(e);
    DivMul(a * c + b * e, c * c + e * e);
  }

  lemma MiddleCloser(px: real, py: real, x1: real, y1: real, x2: real, y2: real, t: real)
    requires t == Param(px - x1, py - y1, x2 - x1, y2 - y1) && 0.0 <= t <= 1.0
    ensures SegmentDistSq(px, py, x1, y1, x2, y2) <= DistSq(px, py, x1, y1)
  {
    assert (x2 - x1) * (x2 - x1) + (y2 - y1) * (y2 - y1) != 0.0;
    ParamFacts(px - x1, py - y1, x2 - x1, y2 - y1);
    calc {
      SegmentDistSq(px, py, x1, y1, x2, y2);
    == { Projected(px, py, x1, y1, x2, y2, t); }
      DistSq(px, py, x1 + t * (x2 - x1), y1 + t * (y2 - y1));
    == { ShiftToStart(px, py, x1, y1, t * (x2 - x1), t * (y2 - y1)); }
      DistSq(px - x1, py - y1, t * (x2 - x1), t * (y2 - y1));
    <= { ProjectionCloser(px - x1, py - y1, x2 - x1, y2 - y1, t); }
      DistSq(px - x1, py - y1, 0.0, 0.0);
    == { ShiftToStart(px, py, x1, y1, 0.0, 0.0); }
      DistSq(px, py, x1 + 0.0, y1 + 0.0);
    }
  }

  /** Distances do not change when both points move by (-x1, -y1). */
  lemma ShiftToStart(px: real, py: real, x1: real, y1: real, dx: real, dy: real)
    ensures DistSq(px, py, x1 + dx, y1 + dy) == DistSq(px - x1, py - y1, dx, dy)
  {
    SameSquare(px - (x1 + dx), (px - x1) - dx);
    SameSquare(py - (y1 + dy), (py - y1) - dy);
  }

  lemma SameSquare(u: real, v: real)
    requires u == v
    ensures u * u == v * v
  {
  }

  lemma AfterCloser(px: real, py: real, x1: real, y1: real, x2: real, y2: real)
    requires Param(px - x1, py - y1, x2 - x1, y2 - y1) > 1.0
    ensures SegmentDistSq(px, py, x1, y1, x2, y2) <= DistSq(px, py, x1, y1)
  {
    var a := px - x1;
    var b := py - y1;
    var c := x2 - x1;
    var e := y2 - y1;
    var lenSq := c * c + e * e;
    var t := Param(a, b, c, e);
    assert lenSq != 0.0;
    SquareNonNeg(c);
    SquareNonNeg(e);
    DivMul(a * c + b * e, lenSq);
    NonNegProduct(t - 1.0, lenSq);
    FarEndCloser(a, b, c, e);
    ClampedAfter(px, py, x1, y1, x2, y2);
  }

  /** A point is no farther from a segment than from the segment's start. */
  lemma SegmentNoFartherThanStart(px: real, py: real, x1: real, y1: real, x2: real, y2: real)
    ensures SegmentDistSq(px, py, x1, y1, x2, y2) <= DistSq(px, py, x1, y1)
  {
    var t := Param(px - x1, py - y1, x2 - x1, y2 - y1);
    if t < 0.0 {
      ClampedBefore(px, py, x1, y1, x2, y2);
    } else if t > 1.0 {
      AfterCloser(px, py, x1, y1, x2, y2);
    } else {
      MiddleCloser(px, py, x1, y1, x2, y2, t);
    }
  }

  /** A step that starts within 0.8 of an obstacle's radius from its centre
      is blocked, wherever it ends. */
  lemma StartInsideBlocks(c: Collider, colliders: seq<Collider>, x1: real, y1: real, x2: real, y2: real)
    requires c in colliders && c.radius > 0.0
    requires DistSq(c.x, c.y, x1, y1) < (c.radius * 0.8) * (c.radius * 0.8)
    ensures Blocked(colliders, x1, y1, x2, y2)
  {
    var i :| 0 <= i < |colliders| && colliders[i] == c;
    SegmentNoFartherThanStart(c.x, c.y, x1, y1, x2, y2);
    assert Meets(colliders[i], x1, y1, x2, y2);
  }
}
