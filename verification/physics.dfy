/** How bodies move and when the frog touches something. */
module Physics {
  import opened Entities

  /** Beyond this x a body moving right has left the canvas and reappears on
      the left; a body moving left reappears here. */
  const WRAP_X: real := 650.0

  /** One tick of movement for a car or log: slide by `speed`, or, once it is
      fully off-canvas on the side it moves towards, jump to the other side.
      Only a direction of exactly 1 counts as rightwards. */
  function MoveObj(b: Body): (r: Body)
    ensures r == b.(x := r.x)
    ensures b.direction == 1.0 && b.x > WRAP_X ==> r.x == -b.width
    ensures b.direction == 1.0 && b.x <= WRAP_X ==> r.x == b.x + b.speed
    ensures b.direction != 1.0 && b.x < -b.width ==> r.x == WRAP_X
    ensures b.direction != 1.0 && b.x >= -b.width ==> r.x == b.x - b.speed
  {
    b.(x := if b.direction == 1.0 then (if b.x > WRAP_X then 0.0 - b.width else b.x + b.speed)
            else (if b.x < 0.0 - b.width then WRAP_X else b.x - b.speed))
  }

  /** The horizontal range a body keeps to forever once it is in it. */
  predicate InLane(b: Body)
  {
    -b.width - b.speed <= b.x <= WRAP_X + b.speed
  }

  /** A lane-bound body stays lane-bound, and on a lane with direction +1 or
      -1 it either moves by exactly `speed * direction` or wraps round to the
      edge it is moving away from. */
  lemma MoveObjStaysInLane(b: Body)
    requires b.width >= 0.0 && b.speed >= 0.0
    requires InLane(b)
    ensures InLane(MoveObj(b))
    ensures b.direction == 1.0 || b.direction == -1.0 ==>
      MoveObj(b).x == b.x + b.speed * b.direction
      || (b.direction == 1.0 && MoveObj(b).x + b.width == 0.0)
      || (b.direction == -1.0 && MoveObj(b).x == WRAP_X)
  {
  }

  /** Move every body of a lane list one tick, keeping the list's order. */
  function MoveAll(bs: seq<Body>): (r: seq<Body>)
    ensures |r| == |bs|
    ensures forall i :: 0 <= i < |bs| ==> r[i] == MoveObj(bs[i])
  {
    seq(|bs|, i requires 0 <= i < |bs| => MoveObj(bs[i]))
  }

  /** Whether the frog is in the river band: strictly inside the drawn
      river, which spans y = 200 to y = 360. */
  function IsOnRiver(f: Frog): (on: bool)
    ensures on <==> 5.0 * SPACING < f.y < 9.0 * SPACING
  {
    f.y < 360.0 && f.y > 200.0
  }

  /** On the grid, the river band is exactly the four log rows. */
  lemma RiverRows(f: Frog)
    requires OnGrid(f.y)
    ensures IsOnRiver(f) <==> f.y in {220.0, 260.0, 300.0, 340.0}
  {
  }

  /** The collision test: the rectangle's row, offset by 20, must equal the
      frog's y exactly, and the frog's horizontal extent must overlap the
      rectangle's on open intervals. */
  function Collided(f: Frog, b: Rect): (hit: bool)
    ensures hit ==> b.y + 20.0 == f.y
    ensures hit ==> b.x - f.r < f.x < b.x + b.width + f.r
    ensures b.y + 20.0 == f.y && b.x <= f.x <= b.x + b.width && f.r > 0.0 ==> hit
  {
    if b.y + 20.0 == f.y then f.x + f.r > b.x && f.x - f.r < b.x + b.width
    else false
  }

  /** `x` lies strictly inside both the frog's and the rectangle's horizontal extent. */
  predicate SharedPoint(x: real, f: Frog, b: Rect)
  {
    f.x - f.r < x < f.x + f.r && b.x < x < b.x + b.width
  }

  /** For a frog of positive radius and a rectangle of positive width, the
      collision test holds exactly when they share a row and some point lies
      strictly inside both horizontal extents. */
  lemma CollidedIffOverlap(f: Frog, b: Rect)
    requires f.r > 0.0 && b.width > 0.0
    ensures Collided(f, b) <==>
      b.y + 20.0 == f.y
      && exists x :: SharedPoint(x, f, b)
  {
    if Collided(f, b) {
      var lo := if f.x - f.r < b.x then b.x else f.x - f.r;
      var hi := if f.x + f.r < b.x + b.width then f.x + f.r else b.x + b.width;
      var mid := (lo + hi) / 2.0;
      assert SharedPoint(mid, f, b);
    }
  }

  /** `i` is the first body in the list that the frog collides with. */
  ghost predicate IsFirstHit(f: Frog, bs: seq<Body>, i: int)
  {
    && 0 <= i < |bs|
    && Collided(f, bs[i].Footprint())
    && forall j :: 0 <= j < i ==> !Collided(f, bs[j].Footprint())
  }

  /** At most one index is the first hit. */
  lemma FirstHitUnique(f: Frog, bs: seq<Body>, i: int, k: int)
    requires IsFirstHit(f, bs, i) && IsFirstHit(f, bs, k)
    ensures i == k
  {
  }

  /** The bodies the frog collides with, in list order. */
  function Colliding(f: Frog, bs: seq<Body>): (hits: seq<Body>)
    ensures |hits| <= |bs|
    ensures forall h :: h in hits ==> h in bs && Collided(f, h.Footprint())
    ensures forall i :: 0 <= i < |bs| && Collided(f, bs[i].Footprint()) ==> bs[i] in hits
    ensures |hits| > 0 ==> exists i :: IsFirstHit(f, bs, i) && hits[0] == bs[i]
  {
    if |bs| == 0 then []
    else
      var rest := Colliding(f, bs[1..]);
      if Collided(f, bs[0].Footprint()) then
        assert IsFirstHit(f, bs, 0);
        [bs[0]] + rest
      else
        assert |rest| > 0 ==> exists i :: IsFirstHit(f, bs, i) && rest[0] == bs[i] by {
          if |rest| > 0 {
            var i :| IsFirstHit(f, bs[1..], i) && rest[0] == bs[1..][i];
            assert IsFirstHit(f, bs, i + 1);
          }
        }
        rest
  }
}
