/** The game's data model: configuration constants, the entity records, the
    aggregate game state, the events the reducer folds over, and the factories
    that build the initial entities.

    Every coordinate in the game is a small multiple of 0.5, so positions,
    widths, speeds, directions and the frog's radius are exact `real`s; the
    clock and the score are integers. */
module Entities {

  // Configuration constants of the game.
  const FROG_START_X: real := 300.0
  const FROG_START_Y: real := 580.0
  const FROG_MOVE_DIST: real := 40.0
  const SPACING: real := 40.0
  const BODY_HEIGHT: real := 40.0
  const CAR_WIDTH: real := 50.0
  const LOG_WIDTH: real := 120.0
  const FROG_RADIUS: real := 17.5
  const TARGET_WIDTH: real := 40.0
  /** Score awarded each time the frog is reset from a goal zone. */
  const GOAL_BONUS: int := 50

  /** The player token: a circle of radius `r` centred on (x, y). */
  datatype Frog = Frog(id: string, x: real, y: real, r: real)

  /** The horizontal extent and row of a rectangle, which is all the
      collision test looks at. */
  datatype Rect = Rect(x: real, y: real, width: real)

  /** A car or a log: both move sideways by `speed` in `direction` each tick. */
  datatype Body = Body(id: string, x: real, y: real, width: real, direction: real, speed: real)
  {
    function Footprint(): Rect { Rect(x, y, width) }
  }

  type Car = Body
  type Log = Body

  /** A goal zone; `frogOn` records whether the frog touched it on the last tick. */
  datatype Target = Target(id: string, x: real, y: real, width: real, frogOn: bool)
  {
    function Footprint(): Rect { Rect(x, y, width) }
  }

  datatype State = State(
    time: int,
    frog: Frog,
    cars: seq<Car>,
    logs: seq<Log>,
    targets: seq<Target>,
    gameOver: bool,
    score: int)

  /** What the reducer folds over: a timer tick carrying its counter, a
      displacement requested from the keyboard, or any other value, which the
      reducer passes over. */
  datatype Event = Tick(elapsed: int) | Move(dx: real, dy: real) | Other

  /** The rows a frog can stand on: the centres of the fifteen 40-unit grid
      rows of the 600-unit canvas. */
  function GridRows(): set<real>
  {
    {20.0, 60.0, 100.0, 140.0, 180.0, 220.0, 260.0, 300.0,
     340.0, 380.0, 420.0, 460.0, 500.0, 540.0, 580.0}
  }

  predicate OnGrid(y: real)
  {
    y in GridRows()
  }

  /** The drawn road: the band from y = 400 to y = 560. */
  predicate InRoadBand(b: Body)
  {
    600.0 - 5.0 * SPACING <= b.y && b.y + BODY_HEIGHT <= 600.0 - SPACING
  }

  /** The drawn river: the band from y = 200 to y = 360. */
  predicate InRiverBand(b: Body)
  {
    5.0 * SPACING <= b.y && b.y + BODY_HEIGHT <= 9.0 * SPACING
  }

  /** The sign of a lane's direction alternates with the parity of its row. */
  function LaneDirection(row: int): (d: real)
    ensures d == 1.0 || d == -1.0
    ensures d == 1.0 <==> row % 2 != 0
  {
    if row % 2 == 0 then -1.0 else 1.0
  }

  /** Neighbouring lanes always run in opposite directions. */
  lemma AdjacentLanesOpposite(row: int)
    ensures LaneDirection(row + 1) == -LaneDirection(row)
  {
  }

  /** Where a lane's first body appears: rightward lanes start at the left
      edge, leftward lanes at x = 500. */
  function LaneStartX(row: int): real
  {
    if row % 2 == 0 then 500.0 else 0.0
  }

  /** The frog, at the start position every goal reset sends it back to. */
  function CreateFrog(): (f: Frog)
    ensures f.x == FROG_START_X && f.y == FROG_START_Y && f.r == FROG_RADIUS
    ensures f.r > 0.0
    ensures OnGrid(f.y) && f.y + SPACING > 600.0
    ensures 0.0 <= f.x - f.r && f.x + f.r <= 600.0
  {
    Frog("frog", FROG_START_X, FROG_START_Y, FROG_RADIUS)
  }

  /** A car in road lane `row`, counted upwards from the bottom of the canvas. */
  function CreateCar(id: string, row: int, speed: real): (c: Car)
    ensures c.id == id && c.speed == speed && c.width == CAR_WIDTH
    ensures c.direction == 1.0 || c.direction == -1.0
    ensures c.direction == 1.0 <==> row % 2 != 0
    ensures c.direction == 1.0 ==> c.x == 0.0
    ensures c.direction == -1.0 ==> c.x == 500.0
    ensures 1 <= row <= 4 ==> InRoadBand(c) && OnGrid(c.y + 20.0)
  {
    Body(id, LaneStartX(row), 600.0 - (row + 1) as real * SPACING, CAR_WIDTH, LaneDirection(row), speed)
  }

  /** Different road rows give cars on different rows of the canvas. */
  lemma CarRowsDistinct(id1: string, row1: int, speed1: real, id2: string, row2: int, speed2: real)
    requires row1 != row2
    ensures CreateCar(id1, row1, speed1).y != CreateCar(id2, row2, speed2).y
  {
  }

  /** A log in river lane `row`, counted downwards from the top of the river. */
  function CreateLog(id: string, row: int, speed: real): (l: Log)
    ensures l.id == id && l.speed == speed && l.width == LOG_WIDTH
    ensures l.direction == 1.0 || l.direction == -1.0
    ensures l.direction == 1.0 <==> row % 2 != 0
    ensures l.direction == 1.0 ==> l.x == 0.0
    ensures l.direction == -1.0 ==> l.x == 500.0
    ensures 1 <= row <= 4 ==> InRiverBand(l) && OnGrid(l.y + 20.0)
  {
    Body(id, LaneStartX(row), 0.0 + (row + 4) as real * SPACING, LOG_WIDTH, LaneDirection(row), speed)
  }

  /** Different river rows give logs on different rows of the canvas. */
  lemma LogRowsDistinct(id1: string, row1: int, speed1: real, id2: string, row2: int, speed2: real)
    requires row1 != row2
    ensures CreateLog(id1, row1, speed1).y != CreateLog(id2, row2, speed2).y
  {
  }

  /** Goal zone number `col`; all goal zones share the row centred on y = 140. */
  function CreateTarget(id: string, col: int): (t: Target)
    ensures t.id == id && !t.frogOn && t.width == TARGET_WIDTH
    ensures OnGrid(t.y + 20.0) && t.y + 20.0 < 200.0
    ensures 1 <= col <= 3 ==> 0.0 <= t.x && t.x + t.width <= 600.0
  {
    Target(id, 3.0 * col as real * SPACING, 3.0 * SPACING, TARGET_WIDTH, false)
  }

  /** Goal zones made for different columns do not overlap: a lower column
      ends before a higher one begins. */
  lemma TargetsDisjoint(id1: string, col1: int, id2: string, col2: int)
    requires col1 < col2
    ensures CreateTarget(id1, col1).x + TARGET_WIDTH <= CreateTarget(id2, col2).x
  {
  }

  /** The state the game starts from. */
  function InitialState(): (s: State)
    ensures s.time == 0 && s.score == 0 && !s.gameOver
    ensures s.frog == CreateFrog()
    ensures |s.cars| == 4 && |s.logs| == 4 && |s.targets| == 3
    ensures forall i :: 0 <= i < |s.cars| ==> InRoadBand(s.cars[i]) && s.cars[i].speed > 0.0
    ensures forall i :: 0 <= i < |s.logs| ==> InRiverBand(s.logs[i]) && s.logs[i].speed > 0.0
    ensures forall i :: 0 <= i < |s.targets| ==> !s.targets[i].frogOn
    ensures forall i :: 0 <= i < 3 ==> s.cars[i + 1].direction == -s.cars[i].direction
    ensures forall i :: 0 <= i < 3 ==> s.logs[i + 1].direction == -s.logs[i].direction
    ensures forall i, j :: 0 <= i < j < 4 ==> s.cars[i].y != s.cars[j].y
    ensures forall i, j :: 0 <= i < j < 4 ==> s.logs[i].y != s.logs[j].y
  {
    State(
      0,
      CreateFrog(),
      [CreateCar("car1", 1, 3.0), CreateCar("car2", 2, 1.0), CreateCar("car3", 3, 2.0), CreateCar("car4", 4, 4.0)],
      [CreateLog("log1", 1, 2.0), CreateLog("log2", 2, 1.0), CreateLog("log3", 3, 1.5), CreateLog("log4", 4, 2.0)],
      [CreateTarget("target1", 1), CreateTarget("target2", 2), CreateTarget("target3", 3)],
      false,
      0)
  }
}
