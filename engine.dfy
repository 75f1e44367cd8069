/** The transition function: a timer tick advances the world and resolves
    collisions, a key press moves the frog and adjusts the score. */
module Engine {
  import opened Vectors
  import opened ListHelpers
  import opened Entities
  import opened Kinematics
  import opened Collisions

  /** The two stimuli of the engine, in place of the `Tick` and `Move`
      classes. */
  datatype Event = Tick(elapsed: real) | Move(dx: real, dy: real)

  /** `row'` is `row` with every body moved by `moveRectBody`, one for one. */
  predicate RowMoved(row: seq<RectBody>, row': seq<RectBody>)
  {
    |row'| == |row| && forall i :: 0 <= i < |row| ==> row'[i] == MoveRectBody(row[i])
  }

  /** The snapshot `tick` hands to `handleCollisions`: the frog moved by
      `moveFrog`, every row moved body by body, `time` set to `elapsed`, and
      the exits and the flags as they were. */
  function Advance(s: State, elapsed: real): (r: State)
    ensures r.time == elapsed && r.exits == s.exits
    ensures r.gameOver == s.gameOver && r.gameWin == s.gameWin
    ensures r.frog == MoveFrog(s.frog)
    ensures RowMoved(s.trucks1, r.trucks1) && RowMoved(s.trucks2, r.trucks2)
    ensures RowMoved(s.cars1, r.cars1) && RowMoved(s.cars2, r.cars2)
    ensures RowMoved(s.plank1, r.plank1) && RowMoved(s.plank2, r.plank2)
    ensures RowMoved(s.plank3, r.plank3)
    ensures RowMoved(s.turtle1, r.turtle1) && RowMoved(s.turtle2, r.turtle2)
  {
    s.(frog := MoveFrog(s.frog),
       trucks1 := Map(MoveRectBody, s.trucks1),
       cars1 := Map(MoveRectBody, s.cars1),
       cars2 := Map(MoveRectBody, s.cars2),
       trucks2 := Map(MoveRectBody, s.trucks2),
       plank1 := Map(MoveRectBody, s.plank1),
       plank2 := Map(MoveRectBody, s.plank2),
       plank3 := Map(MoveRectBody, s.plank3),
       turtle1 := Map(MoveRectBody, s.turtle1),
       turtle2 := Map(MoveRectBody, s.turtle2),
       time := elapsed)
  }

  /** `row'` is `row` after a tick: same length, and every body keeps its
      id, view type and size, moves to the wrapped position `pos + vel`, and
      keeps its velocity when it does not accelerate. */
  predicate RowShapeKept(row: seq<RectBody>, row': seq<RectBody>)
  {
    |row'| == |row| &&
    forall i :: 0 <= i < |row| ==>
      row'[i].id == row[i].id && row'[i].viewType == row[i].viewType &&
      row'[i].width == row[i].width && row'[i].height == row[i].height &&
      row'[i].pos == TorusWrap(row[i], Add(row[i].pos, row[i].vel)) &&
      (row[i].acc == Zero ==> row'[i].vel == row[i].vel)
  }

  /** `tick(s, elapsed)`. Every row keeps its length and its bodies' ids,
      sizes and (without acceleration) velocities; `time` becomes `elapsed`;
      the exits and the score are untouched; the frog advances by exactly its
      velocity before the tick. */
  function TickStep(s: State, elapsed: real): (r: State)
    ensures r.time == elapsed && r.exits == s.exits
    ensures r.frog.pos == Add(s.frog.pos, s.frog.vel)
    ensures r.frog.(pos := s.frog.pos, vel := s.frog.vel) == s.frog
    ensures RowShapeKept(s.trucks1, r.trucks1) && RowShapeKept(s.trucks2, r.trucks2)
    ensures RowShapeKept(s.cars1, r.cars1) && RowShapeKept(s.cars2, r.cars2)
    ensures RowShapeKept(s.plank1, r.plank1) && RowShapeKept(s.plank2, r.plank2)
    ensures RowShapeKept(s.plank3, r.plank3)
    ensures RowShapeKept(s.turtle1, r.turtle1) && RowShapeKept(s.turtle2, r.turtle2)
  {
    HandleCollisions(Advance(s, elapsed))
  }

  /** `reduceState(s, e)`. A key press moves only the frog, to the position
      `moveFrogByKey` computes, and changes at most its score; a tick is
      `tick`. */
  function ReduceState(s: State, e: Event): (r: State)
    ensures e.Move? ==> r.(frog := s.frog) == s
    ensures e.Move? ==> r.frog.(pos := s.frog.pos, score := s.frog.score) == s.frog
    ensures e.Move? ==> r.frog.pos == MoveFrogByKey(s.frog, Vec(e.dx, e.dy))
  {
    match e
    case Move(dx, dy) =>
      if dy == -40.0 && !ObstacleCond(s.frog, dx, dy) then
        s.(frog := s.frog.(pos := MoveFrogByKey(s.frog, Vec(dx, dy)), score := s.frog.score + 10))
      else if dy == 40.0 && s.frog.pos.y <= CanvasHeight then
        s.(frog := s.frog.(pos := MoveFrogByKey(s.frog, Vec(dx, dy)), score := s.frog.score - 10))
      else
        s.(frog := s.frog.(pos := MoveFrogByKey(s.frog, Vec(dx, dy))))
    case Tick(elapsed) => TickStep(s, elapsed)
  }

  /** The score after a key press: +10 for an unblocked move up, -10 for a
      move down while the frog is in the field, unchanged otherwise. */
  lemma MoveScore(s: State, dx: real, dy: real)
    ensures var r := ReduceState(s, Move(dx, dy));
      && (dy == -40.0 && !ObstacleCond(s.frog, dx, dy) ==> r.frog.score == s.frog.score + 10)
      && (dy == 40.0 && s.frog.pos.y <= CanvasHeight ==> r.frog.score == s.frog.score - 10)
      && (dy != -40.0 && dy != 40.0 ==> r.frog.score == s.frog.score)
      && (dy == -40.0 && ObstacleCond(s.frog, dx, dy) ==> r.frog.score == s.frog.score)
      && (dy == 40.0 && CanvasHeight < s.frog.pos.y ==> r.frog.score == s.frog.score)
  {
  }

  /** The game has ended. */
  predicate Ended(s: State)
  {
    s.gameOver || s.gameWin
  }

  /** The game stream `scan(reduceState, initialState)`: events are folded in
      order until a snapshot with `gameOver` or `gameWin` has been produced,
      after which `updateView` cancels the subscription and no further event
      reaches the engine. */
  function Play(s: State, events: seq<Event>): (r: State)
    ensures Ended(s) ==> r == s
    decreases |events|
  {
    if |events| == 0 || Ended(s) then s else Play(ReduceState(s, events[0]), events[1..])
  }
}
