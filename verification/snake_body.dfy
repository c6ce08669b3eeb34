/**
 * One snake on the grid: its cells head first, the direction it moves in and the one it will
 * take at the next move, its boost flags and whether it is dead. The player and the bots share
 * this record; they differ only at the boundary.
 */
module SnakeBody {
  import opened Wrappers
  import opened SnakeConstants

  datatype Snake = Snake(
    isPlayer: bool,
    positions: seq<Point>,
    direction: Direction,
    nextDirection: Direction,
    speedLevel: int,
    isBoosting: bool,
    boostTime: int,
    boostCooldown: int,
    isDead: bool)
  {
    /**
     * A snake has a head and never has the reverse of its current direction queued.
     */
    predicate Valid()
    {
      |positions| >= 1 && nextDirection != Reverse(direction)
    }
  }

  /** A freshly created (or reset) snake: one cell at the origin, heading right, idle. */
  function NewSnake(isPlayer: bool): (s: Snake)
    ensures s.Valid() && s.isPlayer == isPlayer
    ensures s.positions == [Point(0, 0)]
    ensures s.direction == Right && s.nextDirection == Right
    ensures !s.isDead && !s.isBoosting && s.boostTime == 0 && s.boostCooldown == 0 && s.speedLevel == 0
  {
    Snake(isPlayer, [Point(0, 0)], Right, Right, 0, false, 0, 0, false)
  }

  /** `reset` re-runs the initialisation and keeps only whether the snake is the player. */
  function Reset(s: Snake): (r: Snake)
    ensures r == NewSnake(s.isPlayer)
    ensures |r.positions| == 1 && !r.isDead
  {
    NewSnake(s.isPlayer)
  }

  /** The head cell; an empty snake reports the origin. */
  function Head(s: Snake): (p: Point)
    ensures |s.positions| > 0 ==> p == s.positions[0]
    ensures |s.positions| == 0 ==> p == Point(0, 0)
  {
    if |s.positions| == 0 then Point(0, 0) else s.positions[0]
  }

  /** The cells a snake may occupy: x in [-20, 20] and y in [-15, 15]. */
  predicate InBounds(p: Point)
  {
    -GridWidth / 2 <= p.x <= GridWidth / 2 && -GridHeight / 2 <= p.y <= GridHeight / 2
  }

  /** `checkBoundaryCollision`: the cell lies left of, right of, below or above the playing field. */
  function BoundaryCollision(p: Point): (hit: bool)
    ensures !hit <==> InBounds(p)
    ensures !hit <==> (-20 <= p.x <= 20 && -15 <= p.y <= 15)
  {
    p.x < -GridWidth / 2 || p.x >= GridWidth / 2 + 1 || p.y < -GridHeight / 2 || p.y >= GridHeight / 2 + 1
  }

  /**
   * `setDirection`: the current direction and its reverse are ignored; anything else is queued
   * for the next move. Nothing but the queued direction ever changes.
   */
  function SetDirection(s: Snake, d: Direction): (r: Snake)
    ensures d == s.direction || d == Reverse(s.direction) ==> r == s
    ensures d != s.direction && d != Reverse(s.direction) ==> r == s.(nextDirection := d)
    ensures s.Valid() ==> r.Valid()
  {
    if d == Reverse(s.direction) || d == s.direction then s else s.(nextDirection := d)
  }

  /**
   * `changeRandomDirection`: `pick` is the draw the source's loop accepts, which is never the
   * reverse of the current direction; it is then offered to `SetDirection`.
   */
  function ChangeRandomDirection(s: Snake, pick: Direction): (r: Snake)
    requires pick != Reverse(s.direction)
    ensures r.nextDirection == pick || r == s
    ensures s.Valid() ==> r.Valid()
  {
    SetDirection(s, pick)
  }

  function Die(s: Snake): (r: Snake)
    ensures r.isDead && r.positions == s.positions && r.isPlayer == s.isPlayer
    ensures s.isDead ==> r == s
    ensures s.Valid() ==> r.Valid()
  {
    s.(isDead := true)
  }

  /** The first index at or after `from` whose cell is the head's, scanning as the source's loop does. */
  function HitFrom(ps: seq<Point>, from: nat): (r: Option<nat>)
    requires |ps| > 0
    decreases |ps| - from
    ensures r.Some? ==> from <= r.value < |ps| && ps[r.value] == ps[0]
    ensures r.None? ==> forall i :: from <= i < |ps| ==> ps[i] != ps[0]
  {
    if from >= |ps| then None
    else if ps[from] == ps[0] then Some(from)
    else HitFrom(ps, from + 1)
  }

  /**
   * `checkSelfCollision`: never for a snake of at most two cells or a dead one; otherwise the
   * head meeting any cell from index 2 on is a collision, and the snake dies of it.
   */
  function SelfCollision(s: Snake): (r: (bool, Snake))
    ensures r.0 <==> |s.positions| > 2 && !s.isDead && exists i :: 2 <= i < |s.positions| && s.positions[i] == s.positions[0]
    ensures r.0 ==> r.1 == Die(s)
    ensures !r.0 ==> r.1 == s
  {
    if |s.positions| <= 2 || s.isDead then (false, s)
    else
      match HitFrom(s.positions, 2)
      case Some(_) => (true, Die(s))
      case None => (false, s)
  }

  /** Every cell moves into the place of the one before it; the head takes `newHead`. */
  function Shift(ps: seq<Point>, newHead: Point): (r: seq<Point>)
    requires |ps| > 0
    ensures |r| == |ps| && r[0] == newHead
    ensures forall i :: 1 <= i < |ps| ==> r[i] == ps[i - 1]
  {
    [newHead] + ps[..|ps| - 1]
  }

  /**
   * `move`: the queued direction becomes the current one and the head advances by it. Beyond
   * the boundary a bot turns (`pick` is its random draw) and stays where it is, while the player
   * dies and still moves. After a move the self-collision check runs.
   */
  function Move(s: Snake, pick: Direction): (r: Snake)
    requires |s.positions| > 0
    requires pick != Reverse(s.nextDirection)
    ensures r.direction == s.nextDirection && r.isPlayer == s.isPlayer && r.isBoosting == s.isBoosting
    ensures |r.positions| == |s.positions|
    ensures s.Valid() ==> r.Valid()
    ensures !s.isPlayer && BoundaryCollision(Add(s.positions[0], Step(s.nextDirection))) ==>
              r.positions == s.positions && r.isDead == s.isDead
    ensures s.isPlayer || !BoundaryCollision(Add(s.positions[0], Step(s.nextDirection))) ==>
              r.positions[0] == Add(s.positions[0], Step(s.nextDirection))
              && (forall i :: 1 <= i < |s.positions| ==> r.positions[i] == s.positions[i - 1])
    ensures s.isPlayer && BoundaryCollision(Add(s.positions[0], Step(s.nextDirection))) ==> r.isDead
    ensures s.isDead ==> r.isDead
  {
    var turned := s.(direction := s.nextDirection);
    var newHead := Add(s.positions[0], Step(s.nextDirection));
    if BoundaryCollision(newHead) && !s.isPlayer then
      ChangeRandomDirection(turned, pick)
    else
      var alive := if BoundaryCollision(newHead) then Die(turned) else turned;
      SelfCollision(alive.(positions := Shift(s.positions, newHead))).1
  }

  /**
   * `update`: the snake moves when its move interval has elapsed (`due`), and is untouched
   * otherwise. `updateBoostState` is never called from here, so a boost, once started, never ends.
   */
  function Update(s: Snake, due: bool, pick: Direction): (r: Snake)
    requires |s.positions| > 0
    requires pick != Reverse(s.nextDirection)
    ensures !due ==> r == s
    ensures due ==> r == Move(s, pick)
    ensures s.Valid() ==> r.Valid()
    ensures r.isBoosting == s.isBoosting
  {
    if due then Move(s, pick) else s
  }

  /**
   * `grow(amount)`: `amount` copies of the tail cell are appended one at a time; the cells already
   * there are untouched.
   */
  function Grow(s: Snake, amount: int): (r: Snake)
    requires |s.positions| > 0
    decreases amount
    ensures amount >= 0 ==> |r.positions| == |s.positions| + amount
    ensures amount < 0 ==> r == s
    ensures r.positions[..|s.positions|] == s.positions
    ensures forall i :: |s.positions| <= i < |r.positions| ==> r.positions[i] == s.positions[|s.positions| - 1]
    ensures r == s.(positions := r.positions)
    ensures s.Valid() ==> r.Valid()
  {
    if amount <= 0 then s
    else
      var tail := s.positions[|s.positions| - 1];
      var longer := s.(positions := s.positions + [tail]);
      var r := Grow(longer, amount - 1);
      assert r.positions[..|s.positions|] == longer.positions[..|s.positions|];
      r
  }

  /** `boost`: starts a boost only when none is running and the cooldown is over. */
  function Boost(s: Snake): (r: Snake)
    ensures s.boostCooldown <= 0 && !s.isBoosting ==> r == s.(isBoosting := true, boostTime := BoostDuration)
    ensures s.boostCooldown > 0 || s.isBoosting ==> r == s
    ensures s.Valid() ==> r.Valid()
  {
    if s.boostCooldown <= 0 && !s.isBoosting then s.(isBoosting := true, boostTime := BoostDuration) else s
  }

  function SetSpeedLevel(s: Snake, level: int): (r: Snake)
    ensures r.speedLevel == level && r == s.(speedLevel := level)
  {
    s.(speedLevel := level)
  }

  /** Dying twice is dying once. */
  lemma DieIdempotent(s: Snake)
    ensures Die(Die(s)) == Die(s)
  {
  }
}
