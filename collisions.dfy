/** `handleCollisions`: what the frog touches after every body has moved,
    and what follows from it (its carried velocity and the end flags). */
module Collisions {
  import opened Vectors
  import opened ListHelpers
  import opened Entities

  /** Closed containment of a point in a rectangle. */
  predicate InRect(p: Vec, r: Rect)
  {
    r.pos.x <= p.x <= r.pos.x + r.width && r.pos.y <= p.y <= r.pos.y + r.height
  }

  /** A rectangle with `d` taken off every side. */
  function Shrink(r: Rect, d: real): (s: Rect)
    ensures s.pos.x - r.pos.x == d && s.pos.y - r.pos.y == d
    ensures s.width == r.width - 2.0 * d && s.height == r.height - 2.0 * d
  {
    Rect(Vec(r.pos.x + d, r.pos.y + d), r.width - 2.0 * d, r.height - 2.0 * d)
  }

  /** `groundBodiesCollided([a, b])`: the frog is hit by a ground body when it
      is within `radius` of the body on both axes and, besides, lies inside
      the body's span on at least one axis. That is, the frog's position lies
      in the body stretched by `radius` vertically or in the body stretched
      by `radius` horizontally. */
  function GroundHit(a: FrogBody, b: RectBody): (hit: bool)
    ensures hit ==> ScaleX(a.pos, b.pos, b.width) <= b.width / 2.0 + a.radius
    ensures hit ==> ScaleY(a.pos, b.pos, b.height) <= b.height / 2.0 + a.radius
    ensures 0.0 <= a.radius ==>
      (hit <==>
        InRect(a.pos, Rect(Vec(b.pos.x, b.pos.y - a.radius), b.width, b.height + 2.0 * a.radius)) ||
        InRect(a.pos, Rect(Vec(b.pos.x - a.radius, b.pos.y), b.width + 2.0 * a.radius, b.height)))
  {
    ScaleXWithin(a.pos, b.pos, b.width, a.radius);
    ScaleYWithin(a.pos, b.pos, b.height, a.radius);
    if ScaleX(a.pos, b.pos, b.width) > b.width / 2.0 + a.radius ||
       ScaleY(a.pos, b.pos, b.height) > b.height / 2.0 + a.radius then false
    else ScaleX(a.pos, b.pos, b.width) <= b.width / 2.0 ||
         ScaleY(a.pos, b.pos, b.height) <= b.height / 2.0
  }

  /** A frog at the centre of a ground body is always hit. */
  lemma GroundHitAtCentre(a: FrogBody, b: RectBody)
    requires 0.0 <= b.width && 0.0 <= b.height && 0.0 <= a.radius
    requires a.pos == Vec(b.pos.x + b.width / 2.0, b.pos.y + b.height / 2.0)
    ensures GroundHit(a, b)
  {
  }

  /** Lying in a body's x-span is not enough to be hit: the vertical distance
      is still bounded, so the test is not a bare either-axis test. */
  lemma GroundHitNeedsBothAxes()
    ensures var a := FrogBody("frog", Frog, Vec(50.0, 300.0), Zero, Zero, 10.0, 0);
            var b := RectBody("truck10", Truck1, Vec(0.0, 500.0), 100.0, 40.0, Vec(1.0, 0.0), Zero);
            ScaleX(a.pos, b.pos, b.width) <= b.width / 2.0 && !GroundHit(a, b)
  {
  }

  /** `riverBodiesCollided([a, b])` on a rectangle: the frog's position lies
      in the rectangle shrunk by the frog's radius on every side. */
  function RiverHit(a: FrogBody, r: Rect): (hit: bool)
    ensures hit <==> InRect(a.pos, Shrink(r, a.radius))
  {
    (a.pos.x >= (r.pos.x + a.radius) && a.pos.x <= (r.pos.x + r.width - a.radius)) &&
    (a.pos.y >= (r.pos.y + a.radius) && a.pos.y <= (r.pos.y + r.height - a.radius))
  }

  /** A position strictly inside the shrunk rectangle is a hit; one strictly
      outside it is not. */
  lemma RiverHitStrict(a: FrogBody, r: Rect)
    ensures var s := Shrink(r, a.radius);
      (s.pos.x < a.pos.x < s.pos.x + s.width && s.pos.y < a.pos.y < s.pos.y + s.height ==> RiverHit(a, r)) &&
      (a.pos.x < s.pos.x || s.pos.x + s.width < a.pos.x || a.pos.y < s.pos.y || s.pos.y + s.height < a.pos.y ==> !RiverHit(a, r))
  {
  }

  function BodyRect(b: RectBody): Rect { Rect(b.pos, b.width, b.height) }
  function ExitRect(e: ExitBody): Rect { Rect(e.pos, e.width, e.height) }

  // The per-body tests as predicates over a row, as they are passed to
  // `filter` and `some`.
  function GroundHitOf(f: FrogBody): RectBody -> bool { b => GroundHit(f, b) }
  function RiverHitOf(f: FrogBody): RectBody -> bool { b => RiverHit(f, BodyRect(b)) }
  function ExitHitOf(f: FrogBody): ExitBody -> bool { e => RiverHit(f, ExitRect(e)) }

  /** `row.filter(r => groundBodiesCollided([frog, r])).length > 0`. */
  predicate GroundRowHit(f: FrogBody, row: seq<RectBody>)
  {
    |Filter(GroundHitOf(f), row)| > 0
  }

  /** `row.filter(r => riverBodiesCollided([frog, r])).length > 0`. */
  predicate FloatRowHit(f: FrogBody, row: seq<RectBody>)
  {
    |Filter(RiverHitOf(f), row)| > 0
  }

  /** Every float body, row after row in the order the rows are consulted. */
  function Floats(s: State): seq<RectBody>
  {
    s.plank1 + s.plank2 + s.plank3 + s.turtle1 + s.turtle2
  }

  /** The velocity the frog picks up: that of the first hit body of the first
      float row, in the order plank1, plank2, plank3, turtle1, turtle2, that
      has a hit; zero if none has. That is the velocity of the first body
      of all the float rows, taken in that order, that carries the frog. */
  function FloatVel(s: State): (v: Vec)
    ensures var c := Filter(RiverHitOf(s.frog), Floats(s));
      v == if |c| > 0 then c[0].vel else Zero
  {
    var f, p := s.frog, RiverHitOf(s.frog);
    FilterFirst(p, s.plank1); FilterFirst(p, s.plank2); FilterFirst(p, s.plank3);
    FilterFirst(p, s.turtle1); FilterFirst(p, s.turtle2);
    FilterFirstOfConcat(p, s.plank1, s.plank2);
    FilterFirstOfConcat(p, s.plank1 + s.plank2, s.plank3);
    FilterFirstOfConcat(p, s.plank1 + s.plank2 + s.plank3, s.turtle1);
    FilterFirstOfConcat(p, s.plank1 + s.plank2 + s.plank3 + s.turtle1, s.turtle2);
    if Any(RiverHitOf(f), s.plank1) then Filter(RiverHitOf(f), s.plank1)[0].vel
    else if Any(RiverHitOf(f), s.plank2) then Filter(RiverHitOf(f), s.plank2)[0].vel
    else if Any(RiverHitOf(f), s.plank3) then Filter(RiverHitOf(f), s.plank3)[0].vel
    else if Any(RiverHitOf(f), s.turtle1) then Filter(RiverHitOf(f), s.turtle1)[0].vel
    else if Any(RiverHitOf(f), s.turtle2) then Filter(RiverHitOf(f), s.turtle2)[0].vel
    else Zero
  }

  /** The frog is in the river band. */
  predicate InRiver(f: FrogBody)
  {
    RiverY1 <= f.pos.y <= RiverY2
  }

  /** `handleCollisions(s)`: afterwards the frog carries the velocity of the
      float it stands on (zero when it stands on none), `gameOver` and
      `gameWin` are recomputed, and nothing else changes. */
  function HandleCollisions(s: State): (r: State)
    ensures r.(frog := s.frog, gameOver := s.gameOver, gameWin := s.gameWin) == s
    ensures r.frog.(vel := s.frog.vel) == s.frog
    ensures r.frog.vel == FloatVel(s) || r.frog.vel == Zero
  {
    var f := s.frog;
    var frogCollidedRectGround :=
      GroundRowHit(f, s.trucks1) || GroundRowHit(f, s.trucks2) ||
      GroundRowHit(f, s.cars1) || GroundRowHit(f, s.cars2);
    var frogCollidedRectRiverVel := FloatVel(s);
    var frogInRiver := InRiver(f);
    var frogCollidedRectRiver := frogInRiver &&
      (FloatRowHit(f, s.plank1) || FloatRowHit(f, s.plank2) || FloatRowHit(f, s.plank3) ||
       FloatRowHit(f, s.turtle1) || FloatRowHit(f, s.turtle2));
    var frogCollidedRiver := frogInRiver &&
      (!FloatRowHit(f, s.plank1) && !FloatRowHit(f, s.plank2) && !FloatRowHit(f, s.plank3) &&
       !FloatRowHit(f, s.turtle1) && !FloatRowHit(f, s.turtle2));
    var frogOutOfBoundary := f.pos.x < 0.0 || f.pos.x > CanvasWidth;
    var frogAtExit := Any(ExitHitOf(f), ExitsArr());
    s.(frog := if frogCollidedRectRiver then f.(vel := frogCollidedRectRiverVel) else f.(vel := Zero),
       gameOver := frogCollidedRectGround || (frogCollidedRiver && !frogAtExit) || frogOutOfBoundary,
       gameWin := frogAtExit)
  }

  /** The ground rows and the float rows, in the order the rule engine
      consults them. */
  function GroundRows(s: State): (rows: seq<seq<RectBody>>)
    ensures |rows| == 4
  {
    [s.trucks1, s.trucks2, s.cars1, s.cars2]
  }

  function FloatRows(s: State): (rows: seq<seq<RectBody>>)
    ensures |rows| == 5
  {
    [s.plank1, s.plank2, s.plank3, s.turtle1, s.turtle2]
  }

  /** Some body of some ground row hits the frog. */
  predicate SomeGroundHit(s: State)
  {
    exists k, i :: 0 <= k < 4 && 0 <= i < |GroundRows(s)[k]| && GroundHit(s.frog, GroundRows(s)[k][i])
  }

  /** Some body of some float row carries the frog. */
  predicate SomeFloatHit(s: State)
  {
    exists k, i :: 0 <= k < 5 && 0 <= i < |FloatRows(s)[k]| && RiverHit(s.frog, BodyRect(FloatRows(s)[k][i]))
  }

  /** The frog is in one of the four exit slots. */
  predicate AtSomeExit(s: State)
  {
    exists j :: 0 <= j < 4 && RiverHit(s.frog, ExitRect(ExitsArr()[j]))
  }

  lemma GroundRowHitIff(f: FrogBody, row: seq<RectBody>)
    ensures GroundRowHit(f, row) <==> exists i :: 0 <= i < |row| && GroundHit(f, row[i])
  {
    FilterFirst(GroundHitOf(f), row);
    if exists i :: 0 <= i < |row| && GroundHit(f, row[i]) {
      var i :| 0 <= i < |row| && GroundHit(f, row[i]);
      assert GroundHitOf(f)(row[i]);
    }
  }

  lemma FloatRowHitIff(f: FrogBody, row: seq<RectBody>)
    ensures FloatRowHit(f, row) <==> exists i :: 0 <= i < |row| && RiverHit(f, BodyRect(row[i]))
    ensures FloatRowHit(f, row) <==> Any(RiverHitOf(f), row)
  {
    FilterFirst(RiverHitOf(f), row);
    if exists i :: 0 <= i < |row| && RiverHit(f, BodyRect(row[i])) {
      var i :| 0 <= i < |row| && RiverHit(f, BodyRect(row[i]));
      assert RiverHitOf(f)(row[i]);
    }
  }

  /** The first hit body of a row, as `filter(...)[0]` finds it. */
  lemma FirstFloatOfRow(f: FrogBody, row: seq<RectBody>, i: nat)
    requires i < |row| && RiverHit(f, BodyRect(row[i]))
    requires forall j :: 0 <= j < i ==> !RiverHit(f, BodyRect(row[j]))
    ensures Any(RiverHitOf(f), row) && Filter(RiverHitOf(f), row)[0] == row[i]
  {
    FilterFirst(RiverHitOf(f), row);
    assert RiverHitOf(f)(row[i]);
    forall j | 0 <= j < i ensures !RiverHitOf(f)(row[j]) {
    }
  }

  /** For every float row: it has a hit exactly when one of its bodies
      carries the frog, in the terms `filter` and `some` use. */
  lemma FloatRowsHitIff(s: State)
    ensures forall k :: 0 <= k < 5 ==>
      (FloatRowHit(s.frog, FloatRows(s)[k]) <==> Any(RiverHitOf(s.frog), FloatRows(s)[k])) &&
      (FloatRowHit(s.frog, FloatRows(s)[k]) <==>
        exists i :: 0 <= i < |FloatRows(s)[k]| && RiverHit(s.frog, BodyRect(FloatRows(s)[k][i])))
  {
    forall k | 0 <= k < 5
      ensures (FloatRowHit(s.frog, FloatRows(s)[k]) <==> Any(RiverHitOf(s.frog), FloatRows(s)[k])) &&
        (FloatRowHit(s.frog, FloatRows(s)[k]) <==>
          exists i :: 0 <= i < |FloatRows(s)[k]| && RiverHit(s.frog, BodyRect(FloatRows(s)[k][i])))
    {
      FloatRowHitIff(s.frog, FloatRows(s)[k]);
    }
  }

  /** Carried velocity. In the river band, when the first float row (in the
      order plank1, plank2, plank3, turtle1, turtle2) with a hit is row `k`
      and its first hit body is body `i`, the frog takes that body's
      velocity. */
  lemma CarriedVelocity(s: State, k: nat, i: nat)
    requires InRiver(s.frog)
    requires k < 5 && i < |FloatRows(s)[k]|
    requires RiverHit(s.frog, BodyRect(FloatRows(s)[k][i]))
    requires forall j :: 0 <= j < i ==> !RiverHit(s.frog, BodyRect(FloatRows(s)[k][j]))
    requires forall k', j :: 0 <= k' < k && 0 <= j < |FloatRows(s)[k']| ==>
      !RiverHit(s.frog, BodyRect(FloatRows(s)[k'][j]))
    ensures HandleCollisions(s).frog.vel == FloatRows(s)[k][i].vel
  {
    var f, rows := s.frog, FloatRows(s);
    FirstFloatOfRow(f, rows[k], i);
    FloatRowsHitIff(s);
    assert FloatRowHit(f, rows[k]);
    assert k > 0 ==> !Any(RiverHitOf(f), rows[0]);
    assert k > 1 ==> !Any(RiverHitOf(f), rows[1]);
    assert k > 2 ==> !Any(RiverHitOf(f), rows[2]);
    assert k > 3 ==> !Any(RiverHitOf(f), rows[3]);
    assert FloatVel(s) == rows[k][i].vel;
  }

  /** Otherwise, outside the river band or on no float, the frog stops. */
  lemma NotCarried(s: State)
    requires !(InRiver(s.frog) && SomeFloatHit(s))
    ensures HandleCollisions(s).frog.vel == Zero
  {
    FloatRowsHitIff(s);
    var rows := FloatRows(s);
    if InRiver(s.frog) {
      assert !FloatRowHit(s.frog, rows[0]) && !FloatRowHit(s.frog, rows[1]) && !FloatRowHit(s.frog, rows[2]);
      assert !FloatRowHit(s.frog, rows[3]) && !FloatRowHit(s.frog, rows[4]);
    }
  }

  /** `gameOver` holds exactly when a ground body hits the frog, or the frog
      is in the river band on no float and at no exit, or its x is outside
      [0, 600]. */
  lemma GameOverIff(s: State)
    ensures HandleCollisions(s).gameOver <==>
      SomeGroundHit(s) ||
      (InRiver(s.frog) && !SomeFloatHit(s) && !AtSomeExit(s)) ||
      s.frog.pos.x < 0.0 || CanvasWidth < s.frog.pos.x
  {
    var f, g, rows := s.frog, GroundRows(s), FloatRows(s);
    GroundRowHitIff(f, s.trucks1);
    GroundRowHitIff(f, s.trucks2);
    GroundRowHitIff(f, s.cars1);
    GroundRowHitIff(f, s.cars2);
    assert SomeGroundHit(s) <==>
      GroundRowHit(f, g[0]) || GroundRowHit(f, g[1]) || GroundRowHit(f, g[2]) || GroundRowHit(f, g[3]);
    FloatRowsHitIff(s);
    assert SomeFloatHit(s) <==>
      FloatRowHit(f, rows[0]) || FloatRowHit(f, rows[1]) || FloatRowHit(f, rows[2]) ||
      FloatRowHit(f, rows[3]) || FloatRowHit(f, rows[4]);
    ExitHitIff(s);
  }

  lemma ExitHitIff(s: State)
    ensures Any(ExitHitOf(s.frog), ExitsArr()) <==> AtSomeExit(s)
  {
  }

  /** `gameWin` holds exactly when the frog, of radius 10, is inside one of
      the four exit slots shrunk by its radius: y in [200, 220] and x in
      [40, 80], [200, 240], [360, 400] or [520, 560]. */
  lemma GameWinIff(s: State)
    requires s.frog.radius == 10.0
    ensures HandleCollisions(s).gameWin <==>
      var p := s.frog.pos;
      200.0 <= p.y <= 220.0 &&
      ((40.0 <= p.x <= 80.0) || (200.0 <= p.x <= 240.0) || (360.0 <= p.x <= 400.0) || (520.0 <= p.x <= 560.0))
  {
    ExitHitIff(s);
    var p, e := s.frog.pos, ExitsArr();
    if 200.0 <= p.y <= 220.0 {
      if 40.0 <= p.x <= 80.0 { assert RiverHit(s.frog, ExitRect(e[0])); }
      if 200.0 <= p.x <= 240.0 { assert RiverHit(s.frog, ExitRect(e[1])); }
      if 360.0 <= p.x <= 400.0 { assert RiverHit(s.frog, ExitRect(e[2])); }
      if 520.0 <= p.x <= 560.0 { assert RiverHit(s.frog, ExitRect(e[3])); }
    }
  }
}
