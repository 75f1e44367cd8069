/** Movement of the bodies and of the frog: wrap-around for the rows,
    free flight for the frog, and the clamped, obstacle-aware key moves. */
module Kinematics {
  import opened Vectors
  import opened Entities

  /** A body whose x stays in [-width, 600], the band `TorusWrap` maintains. */
  predicate InBand(b: RectBody)
  {
    -b.width <= b.pos.x <= CanvasWidth
  }

  /** `torusWrap(o, v)`: horizontal wrap-around; y is never touched. A body
      that has left through the left edge reappears shifted right by
      `width + 600`, one that has left through the right edge shifted left by
      the same amount, and any other position is kept. */
  function TorusWrap(o: RectBody, v: Vec): (r: Vec)
    ensures r.y == v.y
    ensures -o.width <= v.x <= CanvasWidth ==> r == v
    ensures v.x + o.width < 0.0 ==> r.x == v.x + (o.width + CanvasWidth)
    ensures 0.0 <= v.x + o.width && CanvasWidth < v.x ==> r.x == v.x - (o.width + CanvasWidth)
  {
    var s := CanvasWidth;
    var wrap := (x: real) => if x + o.width < 0.0 then x + o.width + s else if x > s then x - o.width - s else x;
    Vec(wrap(v.x), v.y)
  }

  /** A step of at most one body width from inside the band lands, after the
      wrap, inside the band again. */
  lemma WrapKeepsBand(o: RectBody, v: Vec)
    requires 0.0 <= o.width
    requires -2.0 * o.width <= v.x <= CanvasWidth + o.width
    ensures -o.width <= TorusWrap(o, v).x <= CanvasWidth
  {
  }

  /** `moveRectBody(o)`: the body moves by its velocity and wraps; its
      velocity grows by its acceleration; nothing else changes. A body in the
      band whose speed is at most its width stays in the band. */
  function MoveRectBody(o: RectBody): (r: RectBody)
    ensures r.(pos := o.pos, vel := o.vel) == o
    ensures r.pos == TorusWrap(o, Add(o.pos, o.vel))
    ensures r.pos.y == o.pos.y + o.vel.y
    ensures r.vel == Add(o.vel, o.acc)
    ensures o.acc == Zero ==> r.vel == o.vel
    ensures InBand(o) && -o.width <= o.vel.x <= o.width ==> InBand(r)
  {
    var r := o.(pos := TorusWrap(o, Add(o.pos, o.vel)), vel := Add(o.vel, o.acc));
    if InBand(o) && -o.width <= o.vel.x <= o.width then
      WrapKeepsBand(o, Add(o.pos, o.vel)); r
    else r
  }

  /** `moveFrog(o)`: the frog moves by exactly its velocity, without wrapping;
      only its position and velocity change. */
  function MoveFrog(o: FrogBody): (r: FrogBody)
    ensures r.(pos := o.pos, vel := o.vel) == o
    ensures r.pos.x - o.pos.x == o.vel.x && r.pos.y - o.pos.y == o.vel.y
    ensures o.acc == Zero ==> r.vel == o.vel
  {
    o.(pos := Add(o.pos, o.vel), vel := Add(o.vel, o.acc))
  }

  /** `obstacleCond(o, x, y)`: the candidate position lies above the obstacle
      line y = 260 and inside one of the five blocked x-intervals. */
  function ObstacleCond(o: FrogBody, x: real, y: real): (blocked: bool)
    ensures blocked ==> o.pos.y + y < HeightObstacle && 0.0 <= o.pos.x + x <= 670.0
  {
    var cx := o.pos.x + x;
    (o.pos.y + y) < HeightObstacle &&
    ((cx >= 0.0 && cx <= 30.0) ||
     (cx >= 90.0 && cx <= 190.0) ||
     (cx >= 250.0 && cx <= 350.0) ||
     (cx >= 410.0 && cx <= 510.0) ||
     (cx >= 570.0 && cx <= 670.0))
  }

  /** Inside the field, the blocked intervals are exactly what the four exit
      columns leave: above the obstacle line, a candidate x in [0, 600] is
      let through if and only if it lies strictly inside an exit's x-span. */
  lemma ObstacleStripIsComplementOfExits(o: FrogBody, x: real, y: real)
    requires 0.0 <= o.pos.x + x <= CanvasWidth
    requires o.pos.y + y < HeightObstacle
    ensures !ObstacleCond(o, x, y) <==>
      exists i :: 0 <= i < |ExitsArr()| &&
        ExitsArr()[i].pos.x < o.pos.x + x < ExitsArr()[i].pos.x + ExitsArr()[i].width
  {
    var cx := o.pos.x + x;
    var e := ExitsArr();
    if !ObstacleCond(o, x, y) {
      if cx < 90.0 { assert e[0].pos.x < cx < e[0].pos.x + e[0].width; }
      else if cx < 250.0 { assert e[1].pos.x < cx < e[1].pos.x + e[1].width; }
      else if cx < 410.0 { assert e[2].pos.x < cx < e[2].pos.x + e[2].width; }
      else { assert e[3].pos.x < cx < e[3].pos.x + e[3].width; }
    }
  }

  /** `moveFrogByKey(o, {x, y})`: the frog's new position after a key press.
      The candidate is the current position plus the displacement. x is kept
      inside [0, 600], else set to 20 (left of the field) or 580 (right of
      it). y is 260 when the candidate is blocked, 780 when it is below the
      field, and the candidate's otherwise. */
  function MoveFrogByKey(o: FrogBody, d: Vec): (r: Vec)
    ensures 0.0 <= r.x <= CanvasWidth && r.y <= CanvasHeight
    ensures 0.0 <= o.pos.x + d.x <= CanvasWidth ==> r.x == o.pos.x + d.x
    ensures o.pos.x + d.x < 0.0 ==> r.x == 20.0
    ensures CanvasWidth < o.pos.x + d.x ==> r.x == CanvasWidth - 20.0
    ensures ObstacleCond(o, d.x, d.y) ==> r.y == HeightObstacle
    ensures !ObstacleCond(o, d.x, d.y) && o.pos.y + d.y <= CanvasHeight ==> r.y == o.pos.y + d.y
    ensures !ObstacleCond(o, d.x, d.y) && CanvasHeight < o.pos.y + d.y ==> r.y == CanvasHeight - 20.0
  {
    var x, y := d.x, d.y;
    var wrapX := (x: real) =>
      if o.pos.x + x < 0.0 then 20.0
      else if o.pos.x + x > CanvasWidth then CanvasWidth - 20.0
      else o.pos.x + x;
    var wrapY := (y: real) =>
      if ObstacleCond(o, x, y) then HeightObstacle
      else if o.pos.y + y > CanvasHeight then CanvasHeight - 20.0
      else o.pos.y + y;
    Vec(wrapX(x), wrapY(y))
  }

  /** A key move whose candidate is inside the field never lands the frog in
      the blocked strip: it either stays below the obstacle line or sits in an
      exit column. */
  lemma KeyMoveAvoidsObstacles(o: FrogBody, d: Vec)
    requires 0.0 <= o.pos.x + d.x <= CanvasWidth
    ensures var r := MoveFrogByKey(o, d);
      r.y < HeightObstacle ==>
        exists i :: 0 <= i < |ExitsArr()| && ExitsArr()[i].pos.x < r.x < ExitsArr()[i].pos.x + ExitsArr()[i].width
  {
    var r := MoveFrogByKey(o, d);
    if r.y < HeightObstacle {
      ObstacleStripIsComplementOfExits(o, d.x, d.y);
    }
  }

  /** The blocked strip does not reach past the left edge: its first
      interval starts at x = 0. A left move from (35, 240) has the candidate
      (-5, 240), which is not blocked, and the clamp then puts the frog at
      (20, 240), inside the blocked interval [0, 30] and in no exit column. */
  lemma LeftClampIntoStrip()
    ensures var o := FrogBody("frog", Frog, Vec(35.0, 240.0), Zero, Zero, 10.0, 0);
      var r := MoveFrogByKey(o, Vec(-40.0, 0.0));
      && !ObstacleCond(o, -40.0, 0.0)
      && r == Vec(20.0, 240.0)
      && r.y < HeightObstacle && 0.0 <= r.x <= 30.0
      && forall i :: 0 <= i < |ExitsArr()| ==>
           !(ExitsArr()[i].pos.x < r.x < ExitsArr()[i].pos.x + ExitsArr()[i].width)
  {
  }

  /** The right edge is covered: the last blocked interval runs to 670, so a
      candidate past the right edge and above the obstacle line, up to 670,
      is snapped to (580, 260). */
  lemma RightEdgeBlocked(o: FrogBody, d: Vec)
    requires CanvasWidth < o.pos.x + d.x <= 670.0 && o.pos.y + d.y < HeightObstacle
    ensures MoveFrogByKey(o, d) == Vec(CanvasWidth - 20.0, HeightObstacle)
  {
  }
}
