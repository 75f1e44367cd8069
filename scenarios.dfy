/** Consequences of the rules for whole runs: where the ground rows can reach
    the frog, why a win is never also a loss, the first moments of a fresh
    session, the arrow-key column grid, and why the end of a game is a
    property of the stream rather than of the state. */
module Scenarios {
  import opened Vectors
  import opened ListHelpers
  import opened Entities
  import opened Kinematics
  import opened Collisions
  import opened Engine
  import opened Setup
  import opened Invariants

  /** A ground row can only reach a frog of radius 10 whose y is within 10
      of the row's lane band [laneY, laneY + height]. */
  lemma GroundRowOutOfReach(f: FrogBody, row: seq<RectBody>, cfg: RowConfig)
    requires RowOk(row, cfg) && 0.0 <= cfg.height && f.radius == 10.0
    requires f.pos.y < cfg.laneY - 10.0 || cfg.laneY + cfg.height + 10.0 < f.pos.y
    ensures forall i :: 0 <= i < |row| ==> !GroundHit(f, row[i])
  {
  }

  /** The road lanes span y in [500, 740]: a frog of radius 10 above 490 or
      below 750 is hit by no ground body. */
  lemma GroundSafeOutsideLanes(s: State)
    requires RowsOk(s) && s.frog.radius == 10.0
    requires s.frog.pos.y < 490.0 || 750.0 < s.frog.pos.y
    ensures !SomeGroundHit(s)
  {
    GroundRowOutOfReach(s.frog, s.trucks1, Trucks1Config);
    GroundRowOutOfReach(s.frog, s.trucks2, Trucks2Config);
    GroundRowOutOfReach(s.frog, s.cars1, Cars1Config);
    GroundRowOutOfReach(s.frog, s.cars2, Cars2Config);
  }

  /** Collisions never report a win and a loss together on a snapshot that
      satisfies the invariant. */
  lemma WinExcludesOverAt(a: State)
    requires RowsOk(a) && a.frog.radius == 10.0
    ensures HandleCollisions(a).gameWin ==> !HandleCollisions(a).gameOver
  {
    GameWinIff(a);
    GameOverIff(a);
    ExitHitIff(a);
    if HandleCollisions(a).gameWin {
      GroundSafeOutsideLanes(a);
    }
  }

  /** A frog of radius 10 standing on a float inside the field is safe: the
      river lies above the road, and the float excuses the water. */
  lemma FloatIsSafe(a: State)
    requires RowsOk(a) && a.frog.radius == 10.0
    requires InRiver(a.frog) && SomeFloatHit(a) && 0.0 <= a.frog.pos.x <= CanvasWidth
    ensures !HandleCollisions(a).gameOver
  {
    GroundSafeOutsideLanes(a);
    GameOverIff(a);
  }

  /** A tick that wins the game never loses it: an exit slot lies above the
      road and inside the field, and being at an exit excuses the river. */
  lemma WinExcludesOver(s: State, elapsed: real)
    requires Invariant(s)
    ensures TickStep(s, elapsed).gameWin ==> !TickStep(s, elapsed).gameOver
  {
    AdvanceKeepsRows(s, elapsed);
    WinExcludesOverAt(Advance(s, elapsed));
  }

  /** A tick that leaves the frog below the road and inside the field ends
      nothing. */
  lemma QuietTick(s: State, elapsed: real)
    requires Invariant(s)
    requires var p := Add(s.frog.pos, s.frog.vel); 750.0 < p.y && 0.0 <= p.x <= CanvasWidth
    ensures !TickStep(s, elapsed).gameOver && !TickStep(s, elapsed).gameWin
  {
    AdvanceKeepsRows(s, elapsed);
    var a := Advance(s, elapsed);
    GroundSafeOutsideLanes(a);
    GameOverIff(a);
    GameWinIff(a);
  }

  /** The first tick of a fresh session ends nothing: the frog sits still at
      (300, 780), below the road and far from every exit. */
  lemma FirstTickRunning(seed: bv32, elapsed: real)
    ensures var r := TickStep(InitialStateOf(seed), elapsed);
      !r.gameOver && !r.gameWin && r.frog.pos == Vec(300.0, 780.0)
  {
    InitialInvariant(seed);
    QuietTick(InitialStateOf(seed), elapsed);
  }

  /** The first up move of a fresh session takes the frog to (300, 740) and
      scores 10. */
  lemma FirstMoveUp(seed: bv32)
    ensures var r := ReduceState(InitialStateOf(seed), Move(0.0, -40.0));
      r.frog.pos == Vec(300.0, 740.0) && r.frog.score == 10
  {
  }

  /** A down move from the bottom row, y = 780, leaves the frog where it is
      (the candidate 820 is below the field and is clamped back to 780), and
      still costs 10 points, since the guard compares the frog's current y
      with the canvas height. */
  lemma DownAtBottomEdge(s: State, dx: real)
    requires s.frog.pos.y == 780.0 && 0.0 <= s.frog.pos.x + dx <= CanvasWidth
    ensures var r := ReduceState(s, Move(dx, 40.0));
      r.frog.pos == Vec(s.frog.pos.x + dx, 780.0) && r.frog.score == s.frog.score - 10
  {
  }

  /** The four displacements the arrow keys emit. */
  predicate ArrowMove(dx: real, dy: real)
  {
    (dx == -40.0 && dy == 0.0) || (dx == 40.0 && dy == 0.0) ||
    (dx == 0.0 && dy == -40.0) || (dx == 0.0 && dy == 40.0)
  }

  /** Column `k` of the arrow-key grid; columns 0 to 14 span [20, 580]. */
  function GridX(k: int): real
  {
    20.0 + 40.0 * k as real
  }

  /** An arrow key moves a frog on column `k` to a column `k'` of the grid,
      the clamp included: from column 0 a left move is clamped to 20 and from
      column 14 a right move to 580. */
  lemma ArrowMoveStaysOnGrid(o: FrogBody, dx: real, dy: real, k: int) returns (k': int)
    requires ArrowMove(dx, dy) && 0 <= k <= 14 && o.pos.x == GridX(k)
    ensures 0 <= k' <= 14 && MoveFrogByKey(o, Vec(dx, dy)).x == GridX(k')
    ensures k - 1 <= k' <= k + 1
  {
    if dx == -40.0 {
      k' := if k == 0 then 0 else k - 1;
    } else if dx == 40.0 {
      k' := if k == 14 then 14 else k + 1;
    } else {
      k' := k;
    }
  }

  /** A run of arrow keys only, with no tick between them, keeps the frog on
      the column grid, hence x in [20, 580]. */
  lemma {:induction false} ArrowRunClamp(s: State, events: seq<Event>, k: int) returns (k': int)
    requires 0 <= k <= 14 && s.frog.pos.x == GridX(k)
    requires forall i :: 0 <= i < |events| ==> events[i].Move? && ArrowMove(events[i].dx, events[i].dy)
    ensures 0 <= k' <= 14 && Play(s, events).frog.pos.x == GridX(k')
    ensures 20.0 <= Play(s, events).frog.pos.x <= 580.0
    decreases |events|
  {
    if |events| == 0 || Ended(s) {
      k' := k;
    } else {
      var e := events[0];
      var j := ArrowMoveStaysOnGrid(s.frog, e.dx, e.dy, k);
      k' := ArrowRunClamp(ReduceState(s, e), events[1..], j);
    }
  }

  /** From a fresh session, where the frog starts on column 7 (x = 300),
      arrow keys alone keep x in [20, 580]. */
  lemma ArrowRunFromStart(seed: bv32, events: seq<Event>)
    requires forall i :: 0 <= i < |events| ==> events[i].Move? && ArrowMove(events[i].dx, events[i].dy)
    ensures 20.0 <= Play(InitialStateOf(seed), events).frog.pos.x <= 580.0
  {
    var _ := ArrowRunClamp(InitialStateOf(seed), events, 7);
  }

  /** Folding two runs one after the other is folding their concatenation. */
  lemma {:induction false} PlayConcat(s: State, e1: seq<Event>, e2: seq<Event>)
    ensures Play(s, e1 + e2) == Play(Play(s, e1), e2)
    decreases |e1|
  {
    if |e1| == 0 {
      assert e1 + e2 == e2;
    } else if !Ended(s) {
      assert (e1 + e2)[1..] == e1[1..] + e2;
      PlayConcat(ReduceState(s, e1[0]), e1[1..], e2);
    }
  }

  /** The flags are recomputed on every tick, so the engine alone would
      clear `gameOver`: with the frog safe below the road, a snapshot that
      has `gameOver` set ticks to one that does not. The game over sticks
      only because the stream stops at the first terminal snapshot. */
  lemma TickCanClearGameOver()
    ensures var s := State(0.0, CreateFrog(), [], [], [], [], [], [], [], [], [], true, [], false);
      s.gameOver && !TickStep(s, 10.0).gameOver && Play(s, [Tick(10.0)]) == s
  {
  }
}
