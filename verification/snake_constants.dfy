/**
 * The grid snake game's fixed parameters: the grid, the four unit directions, the nine speed
 * levels and the boost and food settings. Floating-point settings that no grid logic reads
 * (colours, the boost multiplier, collision thresholds) are not part of this model.
 */
module SnakeConstants {

  /** A grid cell, or a unit step between cells. */
  datatype Point = Point(x: int, y: int)

  function Add(a: Point, b: Point): (r: Point)
    ensures r.x - a.x == b.x && r.y - a.y == b.y
  {
    Point(a.x + b.x, a.y + b.y)
  }

  function Abs(n: int): (r: nat)
    ensures n >= 0 ==> r == n
    ensures n < 0 ==> r == -n
  {
    if n < 0 then -n else n
  }

  /** The Manhattan distance the bots measure with. */
  function Manhattan(a: Point, b: Point): nat
  {
    Abs(a.x - b.x) + Abs(a.y - b.y)
  }

  const GridWidth: int := 40
  const GridHeight: int := 30
  const CellSize: int := 1
  const BoundaryWidth: int := 40
  const BoundaryHeight: int := 30

  const InitialSpeed: int := 5
  /** Milliseconds between moves. */
  const MoveInterval: int := 200

  /** The four movement directions; `Step` gives each one's unit vector. */
  datatype Direction = Up | Down | Left | Right

  /** UP is +y and RIGHT is +x, as in the source's direction table. */
  function Step(d: Direction): Point
  {
    match d
    case Up => Point(0, 1)
    case Down => Point(0, -1)
    case Left => Point(-1, 0)
    case Right => Point(1, 0)
  }

  /** The opposite direction. */
  function Reverse(d: Direction): (r: Direction)
    ensures r != d
  {
    match d
    case Up => Down
    case Down => Up
    case Left => Right
    case Right => Left
  }

  /** The directions in declaration order, which is the order `Object.values` lists them in. */
  const Directions: seq<Direction> := [Up, Down, Left, Right]

  datatype SpeedLevel = SpeedLevel(framesPerMove: nat, name: string)

  const SpeedLevels: seq<SpeedLevel> := [
    SpeedLevel(20, "Level 1 - Very Slow"),
    SpeedLevel(15, "Level 2 - Slow"),
    SpeedLevel(12, "Level 3 - Casual"),
    SpeedLevel(10, "Level 4 - Normal"),
    SpeedLevel(8, "Level 5 - Fast"),
    SpeedLevel(6, "Level 6 - Very Fast"),
    SpeedLevel(5, "Level 7 - Super Fast"),
    SpeedLevel(4, "Level 8 - Extreme"),
    SpeedLevel(3, "Level 9 - Impossible")
  ]

  /** How many speed levels there are; the length of `SpeedLevels`. */
  const LevelCount: int := 9

  const DefaultSpeedLevel: int := 3

  /** Seconds a boost lasts and seconds before the next may start; whole numbers in the source. */
  const BoostDuration: int := 3
  const BoostCooldown: int := 5

  const FoodValue: int := 1

  /**
   * Every step is a unit step, different directions step differently, the reverse's step undoes
   * the step, and reversing twice is the identity.
   */
  lemma StepsDistinct(d: Direction, e: Direction)
    ensures Abs(Step(d).x) + Abs(Step(d).y) == 1
    ensures Step(d) == Step(e) <==> d == e
    ensures Add(Step(d), Step(Reverse(d))) == Point(0, 0)
    ensures Reverse(Reverse(d)) == d
  {
  }

  /** The table lists every direction exactly once. */
  lemma DirectionsComplete(d: Direction)
    ensures d in Directions
    ensures forall i, j :: 0 <= i < j < |Directions| ==> Directions[i] != Directions[j]
  {
  }

  /** Nine speed levels, each strictly faster (fewer frames per move) than the one before. */
  lemma SpeedLevelsDecrease()
    ensures |SpeedLevels| == LevelCount == 9
    ensures forall i, j :: 0 <= i < j < |SpeedLevels| ==> SpeedLevels[i].framesPerMove > SpeedLevels[j].framesPerMove
    ensures 0 <= DefaultSpeedLevel < |SpeedLevels|
  {
  }

  /** The boundary is the grid, and the move interval is one second divided by the initial speed. */
  lemma GridAgreement()
    ensures BoundaryWidth == GridWidth * CellSize && BoundaryHeight == GridHeight * CellSize
    ensures MoveInterval * InitialSpeed == 1000
  {
  }
}
