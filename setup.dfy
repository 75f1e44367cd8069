/** Building the initial state: the nine rows drawn from the seeded
    generator in the order the row factories run, the frog and the flags. */
module Setup {
  import opened Vectors
  import opened Entities
  import opened SeededRandom

  /** The row a factory builds from the generator state `seed`. */
  function RowFrom(cfg: RowConfig, seed: bv32): (row: seq<RectBody>)
    ensures |row| == cfg.count
  {
    Row(cfg, Draws(seed, cfg.count))
  }

  /** Number of `Math.random()` calls the nine factories make. */
  const SpawnDraws: nat := 22

  /** `initialState` built from the generator state `seed`: the factories run
      trucks1, cars1, cars2, trucks2, plank1, plank2, plank3, turtle1,
      turtle2, each drawing one value per body. */
  function InitialStateOf(seed: bv32): (s: State)
    ensures s.time == 0.0 && s.frog == CreateFrog() && s.exits == []
    ensures !s.gameOver && !s.gameWin
  {
    var t1 := seed;
    var c1 := SeedAfter(t1, Trucks1Config.count);
    var c2 := SeedAfter(c1, Cars1Config.count);
    var t2 := SeedAfter(c2, Cars2Config.count);
    var p1 := SeedAfter(t2, Trucks2Config.count);
    var p2 := SeedAfter(p1, Planks1Config.count);
    var p3 := SeedAfter(p2, Planks2Config.count);
    var u1 := SeedAfter(p3, Planks3Config.count);
    var u2 := SeedAfter(u1, Turtles1Config.count);
    State(
      time := 0.0,
      frog := CreateFrog(),
      trucks1 := RowFrom(Trucks1Config, t1),
      trucks2 := RowFrom(Trucks2Config, t2),
      cars1 := RowFrom(Cars1Config, c1),
      cars2 := RowFrom(Cars2Config, c2),
      plank1 := RowFrom(Planks1Config, p1),
      plank2 := RowFrom(Planks2Config, p2),
      plank3 := RowFrom(Planks3Config, p3),
      turtle1 := RowFrom(Turtles1Config, u1),
      turtle2 := RowFrom(Turtles2Config, u2),
      gameOver := false,
      exits := [],
      gameWin := false)
  }

  /** One row factory, `[...Array(N)].map((_, i) => createX(...))`, calling
      `Math.random()` once per body. */
  method MakeRow(g: Generator, cfg: RowConfig) returns (row: seq<RectBody>)
    modifies g
    ensures row == RowFrom(cfg, old(g.seed))
    ensures g.seed == SeedAfter(old(g.seed), cfg.count)
  {
    ghost var s0 := g.seed;
    row := [];
    for i := 0 to cfg.count
      invariant row == Row(cfg, Draws(s0, i))
      invariant g.seed == SeedAfter(s0, i)
    {
      var r := g.Next();
      var body := Spawn(cfg, i, r);
      RowSnoc(cfg, Draws(s0, i), r);
      row := row + [body];
    }
  }

  /** The nine factories and `initialState`, drawing from `g`. */
  method CreateInitialState(g: Generator) returns (s: State)
    modifies g
    ensures s == InitialStateOf(old(g.seed))
    ensures g.seed == SeedAfter(old(g.seed), SpawnDraws)
  {
    ghost var s0 := g.seed;
    var trucks1 := MakeRow(g, Trucks1Config);
    SeedAfterSplit(s0, 0, 1);
    var cars1 := MakeRow(g, Cars1Config);
    SeedAfterSplit(s0, 1, 2);
    var cars2 := MakeRow(g, Cars2Config);
    SeedAfterSplit(s0, 3, 3);
    var trucks2 := MakeRow(g, Trucks2Config);
    SeedAfterSplit(s0, 6, 1);
    var plank1 := MakeRow(g, Planks1Config);
    SeedAfterSplit(s0, 7, 1);
    var plank2 := MakeRow(g, Planks2Config);
    SeedAfterSplit(s0, 8, 3);
    var plank3 := MakeRow(g, Planks3Config);
    SeedAfterSplit(s0, 11, 3);
    var turtle1 := MakeRow(g, Turtles1Config);
    SeedAfterSplit(s0, 14, 4);
    var turtle2 := MakeRow(g, Turtles2Config);
    SeedAfterSplit(s0, 18, 4);
    s := State(0.0, CreateFrog(), trucks1, trucks2, cars1, cars2, plank1, plank2, plank3,
               turtle1, turtle2, false, [], false);
  }

  /** Two fresh sessions start from identical snapshots. */
  method TwoSessions() returns (a: State, b: State)
    ensures a == b && a == InitialStateOf(InitialSeed)
  {
    var g1 := new Generator();
    a := CreateInitialState(g1);
    var g2 := new Generator();
    b := CreateInitialState(g2);
  }
}
