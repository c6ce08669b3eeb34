/**
 * The bot steering helpers: heading towards or away from a point, picking the nearest obstacle
 * to avoid, the head-on-body collision test, removing a bot and the spawn distance rule. The bots
 * are not wired into the game, so the player's head and the thresholds they read are inputs.
 */
module SnakeBots {
  import opened Wrappers
  import opened SnakeConstants
  import opened SnakeBody

  /**
   * `getDirectionToTarget`: along x (by the sign of dx) when the target is further away
   * horizontally than vertically, otherwise along y, UP exactly when the target is above.
   */
  function DirectionToTarget(from: Point, target: Point): (r: Direction)
    ensures (r.Left? || r.Right?) <==> Abs(target.x - from.x) > Abs(target.y - from.y)
    ensures (r.Left? || r.Right?) ==> (r.Right? <==> target.x > from.x)
    ensures (r.Up? || r.Down?) ==> (r.Up? <==> target.y > from.y)
  {
    var dx := target.x - from.x;
    var dy := target.y - from.y;
    if Abs(dx) > Abs(dy) then (if dx > 0 then Right else Left)
    else (if dy > 0 then Up else Down)
  }

  /** A step towards a different cell brings the bot one cell closer to it. */
  lemma {:induction false} StepCloser(from: Point, target: Point)
    requires from != target
    ensures Manhattan(Add(from, Step(DirectionToTarget(from, target))), target) + 1 == Manhattan(from, target)
  {
    var d := DirectionToTarget(from, target);
    var next := Add(from, Step(d));
    match d
    case Up => assert next == Point(from.x, from.y + 1);
    case Down => assert next == Point(from.x, from.y - 1);
    case Left => assert next == Point(from.x - 1, from.y);
    case Right => assert next == Point(from.x + 1, from.y);
  }

  /** `getAvoidanceDirection`: the same axis rule applied to the vector from the obstacle to the bot. */
  function AvoidanceDirection(from: Point, obstacle: Point): (r: Direction)
    ensures (r.Left? || r.Right?) <==> Abs(from.x - obstacle.x) > Abs(from.y - obstacle.y)
    ensures (r.Left? || r.Right?) ==> (r.Right? <==> from.x > obstacle.x)
    ensures (r.Up? || r.Down?) ==> (r.Up? <==> from.y > obstacle.y)
  {
    var dx := from.x - obstacle.x;
    var dy := from.y - obstacle.y;
    if Abs(dx) > Abs(dy) then (if dx > 0 then Right else Left)
    else (if dy > 0 then Up else Down)
  }

  /** Avoiding an obstacle is heading for the bot's own cell as seen from the obstacle. */
  lemma AvoidanceIsTargetReversed(a: Point, b: Point)
    ensures AvoidanceDirection(a, b) == DirectionToTarget(b, a)
  {
  }

  /** A step away from a different cell moves the bot one cell further from it. */
  lemma StepAway(from: Point, obstacle: Point)
    requires from != obstacle
    ensures Manhattan(Add(from, Step(AvoidanceDirection(from, obstacle))), obstacle) == Manhattan(from, obstacle) + 1
  {
    var d := AvoidanceDirection(from, obstacle);
    var next := Add(from, Step(d));
    match d
    case Up => assert next == Point(from.x, from.y + 1);
    case Down => assert next == Point(from.x, from.y - 1);
    case Left => assert next == Point(from.x - 1, from.y);
    case Right => assert next == Point(from.x + 1, from.y);
  }

  /**
   * A distance is under the avoidance threshold. The threshold constant the source reads is not
   * defined, so `None` stands for `undefined`, under which no comparison holds.
   */
  predicate Under(d: int, threshold: Option<int>)
  {
    threshold.Some? && d < threshold.value
  }

  /** The heads of every bot except the one at index `self`, in order. */
  function Others(heads: seq<Point>, self: nat): (r: seq<Point>)
    ensures |r| <= |heads|
    ensures forall q :: q in r ==> q in heads
    ensures self >= |heads| ==> r == heads
  {
    if |heads| == 0 then []
    else Others(heads[..|heads| - 1], self) + (if |heads| - 1 != self then [heads[|heads| - 1]] else [])
  }

  /**
   * The index of the candidate to avoid: the nearest candidate under the threshold, the earliest
   * of equally near ones; `None` when no candidate is under the threshold.
   */
  function Nearest(head: Point, cands: seq<Point>, threshold: Option<int>): (r: Option<nat>)
    ensures r.Some? ==> r.value < |cands| && Under(Manhattan(head, cands[r.value]), threshold)
    ensures r.Some? ==> forall j :: 0 <= j < |cands| && Under(Manhattan(head, cands[j]), threshold) ==>
                          Manhattan(head, cands[r.value]) <= Manhattan(head, cands[j])
    ensures r.Some? ==> forall j :: 0 <= j < r.value && Under(Manhattan(head, cands[j]), threshold) ==>
                          Manhattan(head, cands[r.value]) < Manhattan(head, cands[j])
    ensures r.None? <==> forall j :: 0 <= j < |cands| ==> !Under(Manhattan(head, cands[j]), threshold)
  {
    if |cands| == 0 then None
    else
      var n := |cands| - 1;
      var prev := Nearest(head, cands[..n], threshold);
      var d := Manhattan(head, cands[n]);
      if Under(d, threshold) && (prev.None? || d < Manhattan(head, cands[..n][prev.value])) then Some(n)
      else prev
  }

  /** The candidates in the order the source visits them: the player's head, then the other bots'. */
  function Candidates(playerHead: Point, heads: seq<Point>, self: nat): (r: seq<Point>)
    ensures |r| >= 1 && r[0] == playerHead
  {
    [playerHead] + Others(heads, self)
  }

  /** The direction away from the chosen candidate, if there is one. */
  function AvoidChosen(head: Point, cands: seq<Point>, threshold: Option<int>): (r: Option<Direction>)
    ensures r.None? <==> Nearest(head, cands, threshold).None?
    ensures r.Some? ==> r.value == AvoidanceDirection(head, cands[Nearest(head, cands, threshold).value])
  {
    match Nearest(head, cands, threshold)
    case None => None
    case Some(i) => Some(AvoidanceDirection(head, cands[i]))
  }

  /** One more head: the candidates grow by it unless it is the bot's own. */
  lemma CandidatesStep(playerHead: Point, heads: seq<Point>, self: nat, i: nat)
    requires i < |heads|
    ensures var before := Candidates(playerHead, heads[..i], self);
            Candidates(playerHead, heads[..i + 1], self) == if i != self then before + [heads[i]] else before
  {
    assert heads[..i + 1][..i] == heads[..i];
  }

  /** The distance to the candidate `Nearest` picks, if it picks one. */
  function NearestDistance(head: Point, cands: seq<Point>, threshold: Option<int>): (r: Option<nat>)
    ensures r.None? <==> Nearest(head, cands, threshold).None?
    ensures r.Some? ==> r.value == Manhattan(head, cands[Nearest(head, cands, threshold).value])
  {
    var k := Nearest(head, cands, threshold);
    if k.None? then None else Some(Manhattan(head, cands[k.value]))
  }

  /** A candidate appended is chosen exactly when it is under the threshold and strictly nearer. */
  lemma AvoidSnoc(head: Point, before: seq<Point>, x: Point, threshold: Option<int>)
    ensures var near := NearestDistance(head, before, threshold);
            var d := Manhattan(head, x);
            var taken := Under(d, threshold) && (near.None? || d < near.value);
            && NearestDistance(head, before + [x], threshold) == (if taken then Some(d) else near)
            && AvoidChosen(head, before + [x], threshold)
               == (if taken then Some(AvoidanceDirection(head, x)) else AvoidChosen(head, before, threshold))
  {
    var c := before + [x];
    assert c[..|c| - 1] == before;
    assert c[|c| - 1] == x;
  }

  /**
   * `getObstacleAvoidanceDirection` for the bot at index `self`, whose head is `head`: the player
   * is tested first against the threshold alone, then each other bot must also be strictly nearer
   * than the closest so far; the result steers away from the last one taken.
   */
  method ObstacleAvoidance(head: Point, playerHead: Point, heads: seq<Point>, self: nat, threshold: Option<int>)
    returns (r: Option<Direction>)
    ensures r == AvoidChosen(head, Candidates(playerHead, heads, self), threshold)
  {
    var closest: Option<nat> := None;
    r := None;
    var toPlayer := Manhattan(head, playerHead);
    if Under(toPlayer, threshold) {
      closest := Some(toPlayer);
      r := Some(AvoidanceDirection(head, playerHead));
    }
    var i := 0;
    assert Candidates(playerHead, heads[..0], self) == [] + [playerHead];
    AvoidSnoc(head, [], playerHead, threshold);
    while i < |heads|
      invariant 0 <= i <= |heads|
      invariant closest == NearestDistance(head, Candidates(playerHead, heads[..i], self), threshold)
      invariant r == AvoidChosen(head, Candidates(playerHead, heads[..i], self), threshold)
    {
      var before := Candidates(playerHead, heads[..i], self);
      CandidatesStep(playerHead, heads, self, i);
      if i != self {
        AvoidSnoc(head, before, heads[i], threshold);
        var distance := Manhattan(head, heads[i]);
        if Under(distance, threshold) && (closest.None? || distance < closest.value) {
          closest := Some(distance);
          r := Some(AvoidanceDirection(head, heads[i]));
        }
      }
      i := i + 1;
    }
    assert heads[..|heads|] == heads;
  }

  /** With the threshold undefined no obstacle is ever avoided. */
  lemma UndefinedThresholdNeverAvoids(head: Point, playerHead: Point, heads: seq<Point>, self: nat)
    ensures AvoidChosen(head, Candidates(playerHead, heads, self), None).None?
  {
  }

  /** The head lies on some cell of `body`. */
  function HitInBody(head: Point, body: seq<Point>): (r: bool)
    ensures r <==> exists j :: 0 <= j < |body| && body[j] == head
  {
    head in body
  }

  /** `checkCollisions`: the head lies on some segment of some bot. */
  function BotCollision(head: Point, bots: seq<Snake>): (r: bool)
    ensures r <==> exists i, j :: 0 <= i < |bots| && 0 <= j < |bots[i].positions| && bots[i].positions[j] == head
    decreases |bots|, 1
  {
    if |bots| == 0 then false
    else HitInBody(head, bots[0].positions) || BotCollisionTail(head, bots)
  }

  /** The collision test over all bots but the first. */
  function BotCollisionTail(head: Point, bots: seq<Snake>): (r: bool)
    requires |bots| > 0
    ensures r <==> exists i, j :: 1 <= i < |bots| && 0 <= j < |bots[i].positions| && bots[i].positions[j] == head
    decreases |bots|, 0
  {
    var rest := BotCollision(head, bots[1..]);
    assert forall i :: 1 <= i < |bots| ==> bots[i] == bots[1..][i - 1];
    if rest then
      var i, j :| 0 <= i < |bots[1..]| && 0 <= j < |bots[1..][i].positions| && bots[1..][i].positions[j] == head;
      assert bots[i + 1].positions[j] == head;
      true
    else false
  }

  /**
   * `removeBot` finds the bot by identity and splices it out. The bot is named by its index;
   * `indexOf` gives -1 for a bot that is not in the list, and then nothing is removed.
   */
  function RemoveBot(bots: seq<Snake>, index: int): (r: seq<Snake>)
    ensures 0 <= index < |bots| ==> |r| == |bots| - 1
    ensures 0 <= index < |bots| ==> forall i :: 0 <= i < index ==> r[i] == bots[i]
    ensures 0 <= index < |bots| ==> forall i :: index <= i < |r| ==> r[i] == bots[i + 1]
    ensures !(0 <= index < |bots|) ==> r == bots
  {
    if 0 <= index < |bots| then bots[..index] + bots[index + 1..] else bots
  }

  /** Removing a bot takes exactly that one out of the multiset of bots. */
  lemma RemoveBotMultiset(bots: seq<Snake>, index: int)
    requires 0 <= index < |bots|
    ensures multiset(RemoveBot(bots, index)) + multiset{bots[index]} == multiset(bots)
  {
    assert bots == bots[..index] + [bots[index]] + bots[index + 1..];
  }

  /**
   * The two draws behind a bot's spawn cell: `Math.floor(Math.random() * GRID_WIDTH)` and
   * `Math.floor(Math.random() * GRID_HEIGHT)`; one row and one column fewer than the food draws.
   */
  predicate BotDraw(d: Point)
  {
    0 <= d.x < GridWidth && 0 <= d.y < GridHeight
  }

  /** A spawn cell is far enough when its Manhattan distance to the player exceeds a quarter of the grid width. */
  predicate FarEnough(p: Point, playerHead: Point)
  {
    4 * Manhattan(p, playerHead) > GridWidth
  }

  /** The cell a pair of bot draws denotes once the half grid is subtracted. */
  function BotCell(d: Point): (p: Point)
    requires BotDraw(d)
    ensures -20 <= p.x < 20 && -15 <= p.y < 15 && InBounds(p)
  {
    Point(d.x - GridWidth / 2, d.y - GridHeight / 2)
  }

  /** The index, from `from` on, of the first draw whose cell is far enough from the player. */
  function FirstFar(draws: seq<Point>, playerHead: Point, from: nat): (r: Option<nat>)
    requires forall i :: 0 <= i < |draws| ==> BotDraw(draws[i])
    decreases |draws| - from
    ensures r.Some? ==> from <= r.value < |draws| && FarEnough(BotCell(draws[r.value]), playerHead)
    ensures r.Some? ==> forall j :: from <= j < r.value ==> !FarEnough(BotCell(draws[j]), playerHead)
    ensures r.None? ==> forall j :: from <= j < |draws| ==> !FarEnough(BotCell(draws[j]), playerHead)
  {
    if from >= |draws| then None
    else if FarEnough(BotCell(draws[from]), playerHead) then Some(from)
    else FirstFar(draws, playerHead, from + 1)
  }

  /**
   * `getRandomSpawnPosition`: the cell of the first draw far enough from the player. The source
   * draws until one is; `None` stands for a sequence of draws that runs out first.
   */
  function SpawnPosition(draws: seq<Point>, playerHead: Point): (r: Option<Point>)
    requires forall i :: 0 <= i < |draws| ==> BotDraw(draws[i])
    ensures r.Some? ==> Manhattan(r.value, playerHead) > 10 && InBounds(r.value)
    ensures r.Some? <==> FirstFar(draws, playerHead, 0).Some?
    ensures r.Some? ==> r.value == BotCell(draws[FirstFar(draws, playerHead, 0).value])
    ensures r.None? <==> forall j :: 0 <= j < |draws| ==> !FarEnough(BotCell(draws[j]), playerHead)
  {
    match FirstFar(draws, playerHead, 0)
    case None => None
    case Some(i) => Some(BotCell(draws[i]))
  }
}
