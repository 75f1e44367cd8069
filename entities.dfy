/** The game's constants, records and state, and the factories that build
    its bodies. */
module Entities {
  import opened Vectors

  // The playing field (`Constants.CANVAS_SIZE`).
  const CanvasWidth: real := 600.0
  const CanvasHeight: real := 800.0
  const HeightObstacle: real := 260.0
  const RiverY1: real := 150.0
  const RiverY2: real := 440.0

  /** `ViewType`: what a body is drawn as. */
  datatype ViewType =
    | Frog | Car1 | Car2 | Truck1 | Truck2
    | Plank1 | Plank2 | Plank3 | Turtle1 | Turtle2 | Exit

  /** The string spelling of a view type, used to build body ids. */
  function ViewName(v: ViewType): (name: string)
    ensures |name| >= 4
  {
    match v
    case Frog => "frog"
    case Car1 => "car1"
    case Car2 => "car2"
    case Truck1 => "truck1"
    case Truck2 => "truck2"
    case Plank1 => "plank1"
    case Plank2 => "plank2"
    case Plank3 => "plank3"
    case Turtle1 => "turtle1"
    case Turtle2 => "turtle2"
    case Exit => "exit"
  }

  /** `Rect`: a top-left corner and a size. */
  datatype Rect = Rect(pos: Vec, width: real, height: real)

  /** `FrogBody`: the player. */
  datatype FrogBody = FrogBody(
    id: string, viewType: ViewType, pos: Vec, vel: Vec, acc: Vec, radius: real, score: int)

  /** `RectBody`: one vehicle, plank or turtle; `pos` is its top-left corner. */
  datatype RectBody = RectBody(
    id: string, viewType: ViewType, pos: Vec, width: real, height: real, vel: Vec, acc: Vec)

  /** An exit slot, as `createExit` builds it: a rectangle with a view type
      and an occupation flag. */
  datatype ExitBody = ExitBody(viewType: ViewType, pos: Vec, width: real, height: real, isOccupied: bool)

  /** `State`: one snapshot of the game. */
  datatype State = State(
    time: real,
    frog: FrogBody,
    trucks1: seq<RectBody>,
    trucks2: seq<RectBody>,
    cars1: seq<RectBody>,
    cars2: seq<RectBody>,
    plank1: seq<RectBody>,
    plank2: seq<RectBody>,
    plank3: seq<RectBody>,
    turtle1: seq<RectBody>,
    turtle2: seq<RectBody>,
    gameOver: bool,
    exits: seq<RectBody>,
    gameWin: bool)

  /** One row of bodies: its view type, its `START_..._COUNT`, its lane, the
      size of its bodies and the velocity its direction array holds. */
  datatype RowConfig = RowConfig(viewType: ViewType, count: nat, laneY: real, width: real, height: real, vel: Vec)

  const Trucks1Config: RowConfig := RowConfig(Truck1, 1, 500.0, 100.0, 40.0, Vec(1.0, 0.0))
  const Cars1Config: RowConfig := RowConfig(Car1, 2, 570.0, 60.0, 40.0, Vec(-0.5, 0.0))
  const Cars2Config: RowConfig := RowConfig(Car2, 3, 630.0, 50.0, 40.0, Vec(1.0, 0.0))
  const Trucks2Config: RowConfig := RowConfig(Truck2, 1, 700.0, 100.0, 40.0, Vec(-1.0, 0.0))
  const Planks1Config: RowConfig := RowConfig(Plank1, 1, 240.0, 200.0, 40.0, Vec(-1.0, 0.0))
  const Planks2Config: RowConfig := RowConfig(Plank2, 3, 290.0, 150.0, 25.0, Vec(0.5, 0.0))
  const Planks3Config: RowConfig := RowConfig(Plank3, 3, 360.0, 100.0, 40.0, Vec(-0.5, 0.0))
  const Turtles1Config: RowConfig := RowConfig(Turtle1, 4, 408.0, 35.0, 25.0, Vec(0.5, 0.0))
  const Turtles2Config: RowConfig := RowConfig(Turtle2, 4, 328.0, 35.0, 25.0, Vec(0.25, 0.0))

  /** The character of one decimal digit. */
  function Digit(d: nat): (c: char)
    requires d < 10
    ensures '0' <= c <= '9'
    ensures c as int - '0' as int == d
  {
    ('0' as int + d) as char
  }

  /** `String(n)` for a natural number: its decimal spelling. */
  function DecimalString(n: nat): (r: string)
    ensures 1 <= |r|
    ensures |r| == 1 <==> n < 10
    ensures forall i :: 0 <= i < |r| ==> '0' <= r[i] <= '9'
    decreases n
  {
    if n < 10 then [Digit(n)] else DecimalString(n / 10) + [Digit(n % 10)]
  }

  /** Different numbers have different decimal spellings. */
  lemma {:induction false} DecimalStringInjective(m: nat, n: nat)
    requires DecimalString(m) == DecimalString(n)
    ensures m == n
    decreases m
  {
    var dm, dn := DecimalString(m), DecimalString(n);
    if m >= 10 && n >= 10 {
      assert dm[|dm| - 1] == dn[|dn| - 1];
      assert m % 10 == n % 10;
      assert dm[..|dm| - 1] == DecimalString(m / 10);
      assert dn[..|dn| - 1] == DecimalString(n / 10);
      DecimalStringInjective(m / 10, n / 10);
    }
  }

  /** No view name is a prefix of another one. */
  lemma ViewNamePrefixFree(u: ViewType, v: ViewType)
    ensures u != v && |ViewName(u)| <= |ViewName(v)| ==> ViewName(v)[..|ViewName(u)|] != ViewName(u)
  {
    var nu, nv := ViewName(u), ViewName(v);
    match v
    case Frog =>
      match u {
        case Frog =>
        case Car1 => assert nv[..|nu|][0] == 'f' != nu[0];
        case Car2 => assert nv[..|nu|][0] == 'f' != nu[0];
        case Truck1 =>
        case Truck2 =>
        case Plank1 =>
        case Plank2 =>
        case Plank3 =>
        case Turtle1 =>
        case Turtle2 =>
        case Exit => assert nv[..|nu|][0] == 'f' != nu[0];
      }
    case Car1 =>
      match u {
        case Frog => assert nv[..|nu|][0] == 'c' != nu[0];
        case Car1 =>
        case Car2 => assert nv[..|nu|][3] == '1' != nu[3];
        case Truck1 =>
        case Truck2 =>
        case Plank1 =>
        case Plank2 =>
        case Plank3 =>
        case Turtle1 =>
        case Turtle2 =>
        case Exit => assert nv[..|nu|][0] == 'c' != nu[0];
      }
    case Car2 =>
      match u {
        case Frog => assert nv[..|nu|][0] == 'c' != nu[0];
        case Car1 => assert nv[..|nu|][3] == '2' != nu[3];
        case Car2 =>
        case Truck1 =>
        case Truck2 =>
        case Plank1 =>
        case Plank2 =>
        case Plank3 =>
        case Turtle1 =>
        case Turtle2 =>
        case Exit => assert nv[..|nu|][0] == 'c' != nu[0];
      }
    case Truck1 =>
      match u {
        case Frog => assert nv[..|nu|][0] == 't' != nu[0];
        case Car1 => assert nv[..|nu|][0] == 't' != nu[0];
        case Car2 => assert nv[..|nu|][0] == 't' != nu[0];
        case Truck1 =>
        case Truck2 => assert nv[..|nu|][5] == '1' != nu[5];
        case Plank1 => assert nv[..|nu|][0] == 't' != nu[0];
        case Plank2 => assert nv[..|nu|][0] == 't' != nu[0];
        case Plank3 => assert nv[..|nu|][0] == 't' != nu[0];
        case Turtle1 =>
        case Turtle2 =>
        case Exit => assert nv[..|nu|][0] == 't' != nu[0];
      }
    case Truck2 =>
      match u {
        case Frog => assert nv[..|nu|][0] == 't' != nu[0];
        case Car1 => assert nv[..|nu|][0] == 't' != nu[0];
        case Car2 => assert nv[..|nu|][0] == 't' != nu[0];
        case Truck1 => assert nv[..|nu|][5] == '2' != nu[5];
        case Truck2 =>
        case Plank1 => assert nv[..|nu|][0] == 't' != nu[0];
        case Plank2 => assert nv[..|nu|][0] == 't' != nu[0];
        case Plank3 => assert nv[..|nu|][0] == 't' != nu[0];
        case Turtle1 =>
        case Turtle2 =>
        case Exit => assert nv[..|nu|][0] == 't' != nu[0];
      }
    case Plank1 =>
      match u {
        case Frog => assert nv[..|nu|][0] == 'p' != nu[0];
        case Car1 => assert nv[..|nu|][0] == 'p' != nu[0];
        case Car2 => assert nv[..|nu|][0] == 'p' != nu[0];
        case Truck1 => assert nv[..|nu|][0] == 'p' != nu[0];
        case Truck2 => assert nv[..|nu|][0] == 'p' != nu[0];
        case Plank1 =>
        case Plank2 => assert nv[..|nu|][5] == '1' != nu[5];
        case Plank3 => assert nv[..|nu|][5] == '1' != nu[5];
        case Turtle1 =>
        case Turtle2 =>
        case Exit => assert nv[..|nu|][0] == 'p' != nu[0];
      }
    case Plank2 =>
      match u {
        case Frog => assert nv[..|nu|][0] == 'p' != nu[0];
        case Car1 => assert nv[..|nu|][0] == 'p' != nu[0];
        case Car2 => assert nv[..|nu|][0] == 'p' != nu[0];
        case Truck1 => assert nv[..|nu|][0] == 'p' != nu[0];
        case Truck2 => assert nv[..|nu|][0] == 'p' != nu[0];
        case Plank1 => assert nv[..|nu|][5] == '2' != nu[5];
        case Plank2 =>
        case Plank3 => assert nv[..|nu|][5] == '2' != nu[5];
        case Turtle1 =>
        case Turtle2 =>
        case Exit => assert nv[..|nu|][0] == 'p' != nu[0];
      }
    case Plank3 =>
      match u {
        case Frog => assert nv[..|nu|][0] == 'p' != nu[0];
        case Car1 => assert nv[..|nu|][0] == 'p' != nu[0];
        case Car2 => assert nv[..|nu|][0] == 'p' != nu[0];
        case Truck1 => assert nv[..|nu|][0] == 'p' != nu[0];
        case Truck2 => assert nv[..|nu|][0] == 'p' != nu[0];
        case Plank1 => assert nv[..|nu|][5] == '3' != nu[5];
        case Plank2 => assert nv[..|nu|][5] == '3' != nu[5];
        case Plank3 =>
        case Turtle1 =>
        case Turtle2 =>
        case Exit => assert nv[..|nu|][0] == 'p' != nu[0];
      }
    case Turtle1 =>
      match u {
        case Frog => assert nv[..|nu|][0] == 't' != nu[0];
        case Car1 => assert nv[..|nu|][0] == 't' != nu[0];
        case Car2 => assert nv[..|nu|][0] == 't' != nu[0];
        case Truck1 => assert nv[..|nu|][1] == 'u' != nu[1];
        case Truck2 => assert nv[..|nu|][1] == 'u' != nu[1];
        case Plank1 => assert nv[..|nu|][0] == 't' != nu[0];
        case Plank2 => assert nv[..|nu|][0] == 't' != nu[0];
        case Plank3 => assert nv[..|nu|][0] == 't' != nu[0];
        case Turtle1 =>
        case Turtle2 => assert nv[..|nu|][6] == '1' != nu[6];
        case Exit => assert nv[..|nu|][0] == 't' != nu[0];
      }
    case Turtle2 =>
      match u {
        case Frog => assert nv[..|nu|][0] == 't' != nu[0];
        case Car1 => assert nv[..|nu|][0] == 't' != nu[0];
        case Car2 => assert nv[..|nu|][0] == 't' != nu[0];
        case Truck1 => assert nv[..|nu|][1] == 'u' != nu[1];
        case Truck2 => assert nv[..|nu|][1] == 'u' != nu[1];
        case Plank1 => assert nv[..|nu|][0] == 't' != nu[0];
        case Plank2 => assert nv[..|nu|][0] == 't' != nu[0];
        case Plank3 => assert nv[..|nu|][0] == 't' != nu[0];
        case Turtle1 => assert nv[..|nu|][6] == '2' != nu[6];
        case Turtle2 =>
        case Exit => assert nv[..|nu|][0] == 't' != nu[0];
      }
    case Exit =>
      match u {
        case Frog => assert nv[..|nu|][0] == 'e' != nu[0];
        case Car1 => assert nv[..|nu|][0] == 'e' != nu[0];
        case Car2 => assert nv[..|nu|][0] == 'e' != nu[0];
        case Truck1 =>
        case Truck2 =>
        case Plank1 =>
        case Plank2 =>
        case Plank3 =>
        case Turtle1 =>
        case Turtle2 =>
        case Exit =>
      }
  }

  /** A body id, a view name followed by the decimal spelling of an index,
      determines both the view type and the index, so no two bodies of any
      rows share an id. */
  lemma BodyIdInjective(u: ViewType, i: nat, v: ViewType, j: nat)
    requires ViewName(u) + DecimalString(i) == ViewName(v) + DecimalString(j)
    ensures u == v && i == j
  {
    var nu, nv, id := ViewName(u), ViewName(v), ViewName(u) + DecimalString(i);
    if |nu| <= |nv| {
      assert id[..|nu|] == nu;
      assert (nv + DecimalString(j))[..|nu|] == nv[..|nu|];
      ViewNamePrefixFree(u, v);
    } else {
      assert (nv + DecimalString(j))[..|nv|] == nv;
      assert id[..|nv|] == nu[..|nv|];
      ViewNamePrefixFree(v, u);
    }
    assert id[|nu|..] == DecimalString(i);
    assert (nv + DecimalString(j))[|nv|..] == DecimalString(j);
    DecimalStringInjective(i, j);
  }

  /** `createRect(viewType)(oid)(rect)(vel)`: a body whose id is the view
      name followed by `oid`, with zero acceleration. */
  function CreateRect(viewType: ViewType, oid: string, rect: Rect, vel: Vec): (b: RectBody)
    ensures |b.id| == |ViewName(viewType)| + |oid|
    ensures b.id[..|ViewName(viewType)|] == ViewName(viewType) && b.id[|ViewName(viewType)|..] == oid
    ensures b.pos == rect.pos && b.width == rect.width && b.height == rect.height
    ensures b.viewType == viewType && b.vel == vel && b.acc == Zero
  {
    RectBody(ViewName(viewType) + oid, viewType, rect.pos, rect.width, rect.height, vel, Zero)
  }

  /** Body `i` of a factory row, placed at `draw * 600` on the row's lane,
      where `draw` is the value `Math.random()` returned for it. */
  function Spawn(cfg: RowConfig, i: nat, draw: real): (b: RectBody)
    ensures b.pos == Vec(600.0 * draw, cfg.laneY)
    ensures b.id == ViewName(cfg.viewType) + DecimalString(i) && b.viewType == cfg.viewType
    ensures b.width == cfg.width && b.height == cfg.height && b.vel == cfg.vel && b.acc == Zero
  {
    CreateRect(cfg.viewType, DecimalString(i),
               Rect(Vec(draw * 600.0, cfg.laneY), cfg.width, cfg.height), cfg.vel)
  }

  /** One row stamped out by its factory from the values drawn for it. */
  function Row(cfg: RowConfig, draws: seq<real>): (row: seq<RectBody>)
    ensures |row| == |draws|
  {
    seq(|draws|, i requires 0 <= i < |draws| => Spawn(cfg, i, draws[i]))
  }

  /** A factory row grows by one body per draw. */
  lemma RowSnoc(cfg: RowConfig, draws: seq<real>, d: real)
    ensures Row(cfg, draws + [d]) == Row(cfg, draws) + [Spawn(cfg, |draws|, d)]
  {
  }

  /** Every body of a factory row has the row's id pattern, size, velocity
      and lane, and the x coordinate 600 times its draw, which lies in
      [0, 600) when the draws are in [0, 1). */
  lemma RowFacts(cfg: RowConfig, draws: seq<real>)
    requires forall i :: 0 <= i < |draws| ==> 0.0 <= draws[i] < 1.0
    ensures forall i :: 0 <= i < |draws| ==>
      && Row(cfg, draws)[i].id == ViewName(cfg.viewType) + DecimalString(i)
      && Row(cfg, draws)[i].viewType == cfg.viewType
      && Row(cfg, draws)[i].width == cfg.width && Row(cfg, draws)[i].height == cfg.height
      && Row(cfg, draws)[i].vel == cfg.vel && Row(cfg, draws)[i].acc == Zero
      && Row(cfg, draws)[i].pos.y == cfg.laneY
      && Row(cfg, draws)[i].pos.x == 600.0 * draws[i]
      && 0.0 <= Row(cfg, draws)[i].pos.x < CanvasWidth
  {
  }

  /** No two bodies of a factory row share an id. */
  lemma RowIdsDistinct(cfg: RowConfig, draws: seq<real>)
    ensures forall i, j :: 0 <= i < j < |draws| ==> Row(cfg, draws)[i].id != Row(cfg, draws)[j].id
  {
    var row := Row(cfg, draws);
    var name := ViewName(cfg.viewType);
    forall i, j | 0 <= i < j < |draws| ensures row[i].id != row[j].id {
      if row[i].id == row[j].id {
        assert row[i].id[|name|..] == DecimalString(i);
        assert row[j].id[|name|..] == DecimalString(j);
        DecimalStringInjective(i, j);
      }
    }
  }

  /** `createExit(viewType)(rect)(occupied)`. */
  function CreateExit(viewType: ViewType, rect: Rect, occupied: bool): (e: ExitBody)
    ensures e.pos == rect.pos && e.width == rect.width && e.height == rect.height
    ensures e.viewType == viewType && e.isOccupied == occupied
  {
    ExitBody(viewType, rect.pos, rect.width, rect.height, occupied)
  }

  /** `exitsArr`: the four fixed, unoccupied exit slots on the lane y = 190. */
  function ExitsArr(): (exits: seq<ExitBody>)
    ensures |exits| == 4
    ensures forall i :: 0 <= i < 4 ==>
      exits[i].pos == Vec(30.0 + 160.0 * i as real, 190.0) && exits[i].width == 60.0 &&
      exits[i].height == 40.0 && exits[i].viewType == Exit && !exits[i].isOccupied
  {
    [CreateExit(Exit, Rect(Vec(30.0, 190.0), 60.0, 40.0), false),
     CreateExit(Exit, Rect(Vec(190.0, 190.0), 60.0, 40.0), false),
     CreateExit(Exit, Rect(Vec(350.0, 190.0), 60.0, 40.0), false),
     CreateExit(Exit, Rect(Vec(510.0, 190.0), 60.0, 40.0), false)]
  }

  /** `createFrog()`: the player at its spawn point, at rest, with no score. */
  function CreateFrog(): (f: FrogBody)
    ensures f.pos == Vec(300.0, 780.0) && f.vel == Zero && f.acc == Zero
    ensures f.radius == 10.0 && f.score == 0 && f.id == "frog" && f.viewType == Frog
  {
    FrogBody("frog", Frog, Vec(300.0, 780.0), Zero, Zero, 10.0, 0)
  }
}
