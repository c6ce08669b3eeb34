/**
 * The single food orb: where it appears, when it is replaced, and what eating it does to the
 * snake and the score.
 */
module SnakeFood {
  import opened Wrappers
  import opened SnakeConstants
  import opened SnakeBody

  datatype Orb = Orb(position: Point, value: int)

  /** The food system holds at most one orb. */
  datatype Food = Food(orb: Option<Orb>)

  /**
   * The two random draws behind a spawn: `Math.floor(Math.random() * (GRID_WIDTH + 1))` and
   * `Math.floor(Math.random() * (GRID_HEIGHT + 1))`.
   */
  predicate SpawnDraw(d: Point)
  {
    0 <= d.x < GridWidth + 1 && 0 <= d.y < GridHeight + 1
  }

  /** The cell a pair of draws denotes once the half grid is subtracted. */
  function SpawnCell(d: Point): (p: Point)
    ensures p.x == d.x - 20 && p.y == d.y - 15
  {
    Point(d.x - GridWidth / 2, d.y - GridHeight / 2)
  }

  /** Every orb the food system holds lies on a legal cell and is worth one point. */
  predicate ValidFood(f: Food)
  {
    f.orb.Some? ==> InBounds(f.orb.value.position) && f.orb.value.value == FoodValue
  }

  /** The new orb appears only when there is none; an existing orb is kept. */
  function SpawnOrb(f: Food, draw: Point): (r: Food)
    requires SpawnDraw(draw)
    ensures f.orb.Some? ==> r == f
    ensures f.orb.None? ==> r.orb == Some(Orb(SpawnCell(draw), FoodValue))
    ensures r.orb.Some? && (ValidFood(f) ==> ValidFood(r))
  {
    if f.orb.Some? then f else Food(Some(Orb(SpawnCell(draw), FoodValue)))
  }

  /**
   * The spawn range is exactly the legal region: every pair of draws lands in bounds, and every
   * in-bounds cell is reached by exactly one pair of draws.
   */
  lemma SpawnRangeIsLegalRegion(p: Point)
    ensures InBounds(p) <==> exists d :: SpawnDraw(d) && SpawnCell(d) == p
    ensures forall d, e :: SpawnDraw(d) && SpawnDraw(e) && SpawnCell(d) == SpawnCell(e) ==> d == e
  {
    if InBounds(p) {
      var d := Point(p.x + 20, p.y + 15);
      assert SpawnDraw(d) && SpawnCell(d) == p;
    }
  }

  function ClearOrb(f: Food): (r: Food)
    ensures r.orb.None?
  {
    Food(None)
  }

  /** `reset`: the orb is cleared and a fresh one spawned from the draws. */
  function ResetFood(f: Food, draw: Point): (r: Food)
    requires SpawnDraw(draw)
    ensures r.orb == Some(Orb(SpawnCell(draw), FoodValue)) && ValidFood(r)
  {
    SpawnOrb(ClearOrb(f), draw)
  }

  /** `update`: an orb is spawned when none exists, so afterwards one always does. */
  function UpdateFood(f: Food, draw: Point): (r: Food)
    requires SpawnDraw(draw)
    ensures r.orb.Some?
    ensures f.orb.Some? ==> r == f
    ensures ValidFood(f) ==> ValidFood(r)
  {
    if f.orb.None? then SpawnOrb(f, draw) else f
  }

  /** `isPositionOccupied`: an orb lies at exactly that cell. */
  function IsPositionOccupied(f: Food, x: int, y: int): (r: bool)
    ensures r <==> f.orb.Some? && f.orb.value.position == Point(x, y)
  {
    match f.orb
    case None => false
    case Some(o) => o.position.x == x && o.position.y == y
  }

  /** What one `checkCollision` call yields: whether food was eaten, and the state it leaves. */
  datatype Eating = Eating(eaten: bool, food: Food, snake: Snake, score: int)

  /**
   * `checkCollision`: with no orb nothing happens. When the snake's head is on the orb, the snake
   * grows by one cell, the score rises by the orb's value, and the orb is replaced by a fresh one
   * from `draw`. Otherwise nothing changes.
   */
  function CheckCollision(f: Food, s: Snake, score: int, draw: Point): (r: Eating)
    requires |s.positions| > 0 && SpawnDraw(draw)
    ensures f.orb.None? ==> r == Eating(false, f, s, score)
    ensures r.eaten <==> f.orb.Some? && Head(s) == f.orb.value.position
    ensures r.eaten ==> r.snake == Grow(s, 1) && r.score == score + f.orb.value.value
                        && r.food.orb == Some(Orb(SpawnCell(draw), FoodValue))
    ensures !r.eaten ==> r == Eating(false, f, s, score)
    ensures ValidFood(f) ==> ValidFood(r.food)
    ensures s.Valid() ==> r.snake.Valid()
  {
    match f.orb
    case None => Eating(false, f, s, score)
    case Some(o) =>
      var head := Head(s);
      if head.x == o.position.x && head.y == o.position.y then
        Eating(true, SpawnOrb(Food(None), draw), Grow(s, 1), score + o.value)
      else Eating(false, f, s, score)
  }

  /** Eating adds exactly one cell at the tail and keeps the rest of the snake in place. */
  lemma EatingGrowsByOne(f: Food, s: Snake, score: int, draw: Point)
    requires |s.positions| > 0 && SpawnDraw(draw)
    requires CheckCollision(f, s, score, draw).eaten
    ensures CheckCollision(f, s, score, draw).snake.positions == s.positions + [s.positions[|s.positions| - 1]]
    ensures ValidFood(f) ==> CheckCollision(f, s, score, draw).score == score + 1
  {
    var g := Grow(s, 1).positions;
    assert g == s.positions + [s.positions[|s.positions| - 1]] by {
      assert g[..|s.positions|] == s.positions;
    }
  }
}
