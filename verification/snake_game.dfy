/**
 * The snake game's controller: its running/paused state machine, the speed level, the keyboard,
 * swipe and double-tap input, and the per-frame update with its collision checks and game over.
 */
module SnakeGame {
  import opened Wrappers
  import opened Text
  import opened SnakeConstants
  import opened SnakeBody
  import opened SnakeFood
  import opened SnakeStorage

  datatype Game = Game(
    score: nat,
    isRunning: bool,
    isPaused: bool,
    speedLevel: int,
    player: Option<Snake>,
    food: Option<Food>)
  {
    /**
     * A game is only paused while running; while running it has a living player and a food
     * system; the speed level indexes the level table; the player is a valid player snake and
     * every orb is legal.
     */
    predicate Valid()
    {
      (isPaused ==> isRunning)
      && (isRunning ==> player.Some? && food.Some? && !player.value.isDead)
      && (player.Some? ==> player.value.Valid() && player.value.isPlayer)
      && (food.Some? ==> ValidFood(food.value))
      && 0 <= speedLevel < LevelCount
    }
  }

  /** The events the game dispatches on the window. */
  datatype Event =
    | ScoreUpdate(score: int)
    | GameOverEvent(score: int, level: int)
    | LevelChange(level: int, name: string)

  /**
   * One frame's outcome: the game, the events dispatched, local storage afterwards, and the error
   * that escaped the frame, if any.
   */
  datatype Frame = Frame(game: Game, events: seq<Event>, store: Store, error: Option<string>)

  /**
   * A new game: the constructor's default speed level is immediately overwritten by `initGame`
   * with 0; nothing runs yet and neither the player nor the food exists.
   */
  function NewGame(): (g: Game)
    ensures g.Valid() && !g.isRunning && !g.isPaused && g.score == 0
    ensures g.speedLevel == 0 && g.speedLevel != DefaultSpeedLevel
    ensures g.player.None? && g.food.None?
  {
    Game(0, false, false, 0, None, None)
  }

  /**
   * `start`: running, not paused, score 0; a fresh player snake (or the old one reset) at the
   * game's speed level; a first food system without an orb, or the old one reset with a new orb.
   */
  function Start(g: Game, draw: Point): (r: (Game, seq<Event>))
    requires SpawnDraw(draw)
    ensures r.0.isRunning && !r.0.isPaused && r.0.score == 0 && r.0.speedLevel == g.speedLevel
    ensures g.Valid() ==> r.0.Valid() && r.0.player == Some(SetSpeedLevel(NewSnake(true), g.speedLevel))
    ensures g.food.None? ==> r.0.food == Some(Food(None))
    ensures g.food.Some? ==> r.0.food == Some(ResetFood(g.food.value, draw))
    ensures r.1 == [ScoreUpdate(0)]
  {
    var p := match g.player
             case None => NewSnake(true)
             case Some(s) => Reset(s);
    var f := match g.food
             case None => Food(None)
             case Some(prior) => ResetFood(prior, draw);
    (Game(0, true, false, g.speedLevel, Some(SetSpeedLevel(p, g.speedLevel)), Some(f)), [ScoreUpdate(0)])
  }

  /** `reset`: stopped, not paused, score 0, with the player and the food reset where they exist. */
  function ResetGame(g: Game, draw: Point): (r: (Game, seq<Event>))
    requires SpawnDraw(draw)
    ensures !r.0.isRunning && !r.0.isPaused && r.0.score == 0 && r.0.speedLevel == g.speedLevel
    ensures r.0.player.Some? <==> g.player.Some?
    ensures g.player.Some? ==> r.0.player == Some(Reset(g.player.value))
    ensures g.food.Some? ==> r.0.food == Some(ResetFood(g.food.value, draw))
    ensures g.food.None? ==> r.0.food.None?
    ensures g.Valid() ==> r.0.Valid()
    ensures r.1 == [ScoreUpdate(0)]
  {
    var p := match g.player
             case None => None
             case Some(s) => Some(Reset(s));
    var f := match g.food
             case None => None
             case Some(prior) => Some(ResetFood(prior, draw));
    (Game(0, false, false, g.speedLevel, p, f), [ScoreUpdate(0)])
  }

  /** `pause` acts only on a running game that is not paused. */
  function Pause(g: Game): (r: Game)
    ensures g.isRunning && !g.isPaused ==> r == g.(isPaused := true)
    ensures !(g.isRunning && !g.isPaused) ==> r == g
    ensures g.Valid() ==> r.Valid()
  {
    if g.isRunning && !g.isPaused then g.(isPaused := true) else g
  }

  /** `resume` acts only on a running game that is paused. */
  function Resume(g: Game): (r: Game)
    ensures g.isRunning && g.isPaused ==> r == g.(isPaused := false)
    ensures !(g.isRunning && g.isPaused) ==> r == g
    ensures g.Valid() ==> r.Valid()
  {
    if g.isRunning && g.isPaused then g.(isPaused := false) else g
  }

  /** Pausing and then resuming a running, unpaused game restores it. */
  lemma PauseResume(g: Game)
    requires g.isRunning && !g.isPaused
    ensures Resume(Pause(g)) == g
  {
  }

  /** `Math.max(0, Math.min(SPEED_LEVELS.length - 1, level))`. */
  function ClampLevel(level: int): (r: int)
    ensures 0 <= r < LevelCount
    ensures 0 <= level < LevelCount ==> r == level
    ensures level < 0 ==> r == 0
    ensures level >= LevelCount ==> r == LevelCount - 1
  {
    var low := if LevelCount - 1 < level then LevelCount - 1 else level;
    if 0 > low then 0 else low
  }

  /** `setSpeedLevel`: the clamped level is stored on the game and on the player, if there is one. */
  function SetGameSpeed(g: Game, level: int): (r: Game)
    ensures r.speedLevel == ClampLevel(level)
    ensures r.player.Some? <==> g.player.Some?
    ensures g.player.Some? ==> r.player == Some(SetSpeedLevel(g.player.value, ClampLevel(level)))
    ensures r == g.(speedLevel := r.speedLevel, player := r.player)
    ensures g.Valid() ==> r.Valid()
  {
    var l := ClampLevel(level);
    var p := match g.player
             case None => None
             case Some(s) => Some(SetSpeedLevel(s, l));
    g.(speedLevel := l, player := p)
  }

  /** Applies a snake operation to the player, if there is one. */
  function WithPlayer(g: Game, f: Snake -> Snake): (r: Game)
    ensures g.player.None? ==> r == g
    ensures g.player.Some? ==> r == g.(player := Some(f(g.player.value)))
  {
    match g.player
    case None => g
    case Some(p) => g.(player := Some(f(p)))
  }

  /**
   * The number keys while the game is stopped: a key that `parseInt` reads as 1 to 9 selects
   * speed level n - 1 and announces level n with its name; any other key does nothing.
   */
  function LevelKey(g: Game, key: string): (r: (Game, seq<Event>))
    ensures (match ParseInt(key) case Some(n) => 1 <= n <= 9 case None => false) ==>
              var n := ParseInt(key).value;
              r.0 == SetGameSpeed(g, n - 1) && r.0.speedLevel == n - 1
              && r.1 == [LevelChange(n, SpeedLevels[n - 1].name)]
    ensures !(match ParseInt(key) case Some(n) => 1 <= n <= 9 case None => false) ==> r == (g, [])
  {
    SpeedLevelsDecrease();
    match ParseInt(key)
    case Some(n) =>
      if 1 <= n <= 9 then (SetGameSpeed(g, n - 1), [LevelChange(n, SpeedLevels[n - 1].name)]) else (g, [])
    case None => (g, [])
  }

  /**
   * The two keyboard listeners: while running, arrows steer the player, space boosts, `p`
   * pauses and `r` resumes; while stopped, only the level keys act.
   */
  function KeyDown(g: Game, key: string): (r: (Game, seq<Event>))
    ensures !g.isRunning ==> r == LevelKey(g, key)
    ensures g.isRunning ==> r.1 == [] && r.0.speedLevel == g.speedLevel
    ensures g.isRunning && key == "ArrowUp" ==> r.0 == WithPlayer(g, s => SetDirection(s, Up))
    ensures g.isRunning && key == "ArrowDown" ==> r.0 == WithPlayer(g, s => SetDirection(s, Down))
    ensures g.isRunning && key == "ArrowLeft" ==> r.0 == WithPlayer(g, s => SetDirection(s, Left))
    ensures g.isRunning && key == "ArrowRight" ==> r.0 == WithPlayer(g, s => SetDirection(s, Right))
    ensures g.isRunning && key == " " ==> r.0 == WithPlayer(g, Boost)
    ensures g.isRunning && key == "p" ==> r.0 == Pause(g)
    ensures g.isRunning && key == "r" ==> r.0 == Resume(g)
    ensures g.isRunning && key !in {"ArrowUp", "ArrowDown", "ArrowLeft", "ArrowRight", " ", "p", "r"} ==> r.0 == g
    ensures g.Valid() ==> r.0.Valid()
  {
    if !g.isRunning then LevelKey(g, key)
    else if key == "ArrowUp" then (WithPlayer(g, s => SetDirection(s, Up)), [])
    else if key == "ArrowDown" then (WithPlayer(g, s => SetDirection(s, Down)), [])
    else if key == "ArrowLeft" then (WithPlayer(g, s => SetDirection(s, Left)), [])
    else if key == "ArrowRight" then (WithPlayer(g, s => SetDirection(s, Right)), [])
    else if key == " " then (WithPlayer(g, Boost), [])
    else if key == "p" then (Pause(g), [])
    else if key == "r" then (Resume(g), [])
    else (g, [])
  }

  /**
   * The swipe classifier: a move of more than 20 pixels on either axis picks the horizontal
   * direction when it moved further sideways, and the vertical one otherwise, with a move down
   * the screen (positive dy) meaning DOWN.
   */
  function SwipeDirection(dx: int, dy: int): (r: Option<Direction>)
    ensures r.None? <==> Abs(dx) <= 20 && Abs(dy) <= 20
    ensures r.Some? ==> ((r.value.Left? || r.value.Right?) <==> Abs(dx) > Abs(dy))
    ensures r.Some? && Abs(dx) > Abs(dy) ==> (r.value == Right <==> dx > 0)
    ensures r.Some? && Abs(dx) <= Abs(dy) ==> (r.value == Down <==> dy > 0)
  {
    if Abs(dx) > 20 || Abs(dy) > 20 then
      if Abs(dx) > Abs(dy) then Some(if dx > 0 then Right else Left)
      else Some(if dy > 0 then Down else Up)
    else None
  }

  /** A swipe steers the player only while the game runs. */
  function Swipe(g: Game, dx: int, dy: int): (r: Game)
    ensures !g.isRunning || SwipeDirection(dx, dy).None? ==> r == g
    ensures g.isRunning && SwipeDirection(dx, dy).Some? ==>
              r == WithPlayer(g, s => SetDirection(s, SwipeDirection(dx, dy).value))
    ensures g.Valid() ==> r.Valid()
  {
    if !g.isRunning then g
    else match SwipeDirection(dx, dy)
         case None => g
         case Some(d) => WithPlayer(g, s => SetDirection(s, d))
  }

  /** A second tap within 300 ms (and after a positive interval) boosts while the game runs. */
  function DoubleTap(g: Game, tapLength: int): (r: Game)
    ensures g.isRunning && 0 < tapLength < 300 ==> r == WithPlayer(g, Boost)
    ensures !(g.isRunning && 0 < tapLength < 300) ==> r == g
    ensures g.Valid() ==> r.Valid()
  {
    if g.isRunning && tapLength < 300 && tapLength > 0 then WithPlayer(g, Boost) else g
  }

  // ---------------------------------------------------------------- game over

  /** The error raised by the call to a storage method that does not exist. */
  const NoSetHighScore: string := "TypeError: this.storage.setHighScore is not a function"

  /**
   * `gameOver` as written: the game stops, and when the score beats the stored high score the
   * call to the missing `setHighScore` throws, so neither the high score is stored nor the
   * game-over event dispatched. Storage is never written.
   */
  function GameOverAsWritten(g: Game, store: Store, k: Keys): (r: Frame)
    ensures r.game == g.(isRunning := false, isPaused := false) && r.store == store
    ensures Beats(g.score, GetHighScore(store, k)) ==> r.events == [] && r.error == Some(NoSetHighScore)
    ensures !Beats(g.score, GetHighScore(store, k)) ==> r.events == [GameOverEvent(g.score, g.speedLevel)] && r.error.None?
  {
    var stopped := g.(isRunning := false, isPaused := false);
    if Beats(g.score, GetHighScore(store, k)) then Frame(stopped, [], store, Some(NoSetHighScore))
    else Frame(stopped, [GameOverEvent(g.score, g.speedLevel)], store, None)
  }

  /**
   * The first game to score a point on a fresh store: the as-written game over throws, stores
   * nothing and never tells the interface the game ended.
   */
  lemma FirstRecordIsLost(k: Keys)
    ensures var g := Game(1, true, false, 0, Some(NewSnake(true)), Some(Food(None)));
            var r := GameOverAsWritten(g, map[], k);
            r.events == [] && r.error == Some(NoSetHighScore) && !r.game.isRunning
  {
    assert GetHighScore(map[], k) == Some(0);
  }

  /**
   * `gameOver` as intended: the game stops, a score that beats the stored high score is stored
   * as the new high score, and the game-over event always carries the final score and level.
   */
  function GameOver(g: Game, store: Store, k: Keys): (r: Frame)
    ensures r.game == g.(isRunning := false, isPaused := false)
    ensures r.events == [GameOverEvent(g.score, g.speedLevel)]
    ensures r.store == RaiseHighScore(store, k, g.score) && r.error.None?
  {
    Frame(g.(isRunning := false, isPaused := false), [GameOverEvent(g.score, g.speedLevel)],
          RaiseHighScore(store, k, g.score), None)
  }

  /** After the corrected game over the stored high score is the best of the old one and the final score. */
  lemma GameOverKeepsBest(g: Game, store: Store, k: Keys, high: int)
    requires GetHighScore(store, k) == Some(high)
    ensures GetHighScore(GameOver(g, store, k).store, k) == Some(if g.score > high then g.score else high)
  {
    if g.score > high {
      HighScoreRoundTrip(store, k, g.score);
      assert IntToString(g.score) == NatToString(g.score);
    }
  }

  // ---------------------------------------------------------------- the frame

  /** The parts a frame works on: a valid player snake, a legal food system and a known level. */
  predicate Playable(g: Game)
  {
    g.player.Some? && g.player.value.Valid() && g.player.value.isPlayer
    && g.food.Some? && ValidFood(g.food.value) && 0 <= g.speedLevel < LevelCount
  }

  /**
   * The checks of `checkCollisions` before the game over: the food check (which may grow the
   * player, raise the score and replace the orb), then self collision and the boundary, each of
   * which kills the player. The events are the score updates of the food check.
   */
  function Collide(g: Game, draw: Point): (r: (Game, seq<Event>))
    requires Playable(g) && g.isRunning && !g.isPaused && SpawnDraw(draw)
    ensures Playable(r.0) && r.0 == g.(score := r.0.score, player := r.0.player, food := r.0.food)
    ensures r.0.score == g.score || r.0.score == g.score + 1
    ensures g.player.value.isDead ==> r.0.player.value.isDead
    ensures forall i :: 0 <= i < |r.1| ==> r.1[i].ScoreUpdate?
  {
    var eat := CheckCollision(g.food.value, g.player.value, g.score, draw);
    var ate := if eat.eaten then [ScoreUpdate(eat.score)] else [];
    var selfHit := SelfCollision(eat.snake);
    var p1 := if selfHit.0 then Die(selfHit.1) else selfHit.1;
    var p2 := if BoundaryCollision(Head(p1)) then Die(p1) else p1;
    (g.(score := eat.score, player := Some(p2), food := Some(eat.food)), ate)
  }

  /**
   * `checkCollisions` as written: a dead player, whether killed by the checks or already by its
   * move, ends the game through the as-written game over. A score that beats the stored record
   * then throws out of the frame with no game-over event; storage is never written.
   */
  function CheckCollisions(g: Game, draw: Point, store: Store, k: Keys): (r: Frame)
    requires Playable(g) && g.isRunning && !g.isPaused && SpawnDraw(draw)
    ensures r.game.Valid() && r.store == store
    ensures r.game.score == g.score || r.game.score == g.score + 1
    ensures r.game.player.Some? && (r.game.isRunning <==> !r.game.player.value.isDead)
    ensures g.player.value.isDead ==> !r.game.isRunning
    ensures !r.game.isRunning && !Beats(r.game.score, GetHighScore(store, k)) ==>
              r.error.None? && |r.events| >= 1 && r.events[|r.events| - 1] == GameOverEvent(r.game.score, g.speedLevel)
    ensures !r.game.isRunning && Beats(r.game.score, GetHighScore(store, k)) ==>
              r.error == Some(NoSetHighScore) && forall i :: 0 <= i < |r.events| ==> r.events[i].ScoreUpdate?
    ensures r.game.isRunning ==> r.error.None? && forall i :: 0 <= i < |r.events| ==> r.events[i].ScoreUpdate?
    ensures r.game.speedLevel == g.speedLevel
  {
    var (g1, ate) := Collide(g, draw);
    if g1.player.value.isDead then
      var over := GameOverAsWritten(g1, store, k);
      Frame(over.game, ate + over.events, over.store, over.error)
    else Frame(g1, ate, store, None)
  }

  /**
   * `checkCollisions` with the corrected game over: a dead player ends the game, the record is
   * raised, and the game-over event is always the frame's last.
   */
  function CheckCollisionsIntended(g: Game, draw: Point, store: Store, k: Keys): (r: Frame)
    requires Playable(g) && g.isRunning && !g.isPaused && SpawnDraw(draw)
    ensures r.game.Valid() && r.error.None?
    ensures r.game.score == g.score || r.game.score == g.score + 1
    ensures r.game.player.Some? && (r.game.isRunning <==> !r.game.player.value.isDead)
    ensures g.player.value.isDead ==> !r.game.isRunning
    ensures !r.game.isRunning ==> |r.events| >= 1 && r.events[|r.events| - 1] == GameOverEvent(r.game.score, g.speedLevel)
                                  && r.store == RaiseHighScore(store, k, r.game.score)
    ensures r.game.isRunning ==> r.store == store && forall i :: 0 <= i < |r.events| ==> r.events[i].ScoreUpdate?
    ensures r.game.speedLevel == g.speedLevel
  {
    var (g1, ate) := Collide(g, draw);
    if g1.player.value.isDead then
      var over := GameOver(g1, store, k);
      Frame(over.game, ate + over.events, over.store, over.error)
    else Frame(g1, ate, store, None)
  }

  /** The player's move and the food update that `update` makes before its collision checks. */
  function Advance(g: Game, due: bool, spawnDraw: Point): (r: Game)
    requires g.Valid() && g.isRunning && !g.isPaused && SpawnDraw(spawnDraw)
    ensures Playable(r) && r.isRunning && !r.isPaused && r.score == g.score && r.speedLevel == g.speedLevel
  {
    var p := g.player.value;
    g.(player := Some(SnakeBody.Update(p, due, p.nextDirection)), food := Some(UpdateFood(g.food.value, spawnDraw)))
  }

  /**
   * `update`: nothing happens unless the game runs unpaused. Otherwise the player moves when due,
   * the food system spawns an orb if it has none, and the collision checks run as written.
   * `spawnDraw` and `eatDraw` are the random draws for the orb spawned by the update and for the
   * one that replaces an eaten orb.
   */
  function Update(g: Game, due: bool, spawnDraw: Point, eatDraw: Point, store: Store, k: Keys): (r: Frame)
    requires g.Valid() && SpawnDraw(spawnDraw) && SpawnDraw(eatDraw)
    ensures !g.isRunning || g.isPaused ==> r == Frame(g, [], store, None)
    ensures r.game.Valid() && r.store == store
    ensures g.isRunning && !g.isPaused ==>
              (r.game.score == g.score || r.game.score == g.score + 1)
              && (!r.game.isRunning && !Beats(r.game.score, GetHighScore(store, k)) ==>
                    r.error.None? && |r.events| >= 1 && r.events[|r.events| - 1] == GameOverEvent(r.game.score, g.speedLevel))
              && (!r.game.isRunning && Beats(r.game.score, GetHighScore(store, k)) ==> r.error == Some(NoSetHighScore))
              && (r.game.isRunning ==> r.error.None?)
  {
    if !g.isRunning || g.isPaused then Frame(g, [], store, None)
    else CheckCollisions(Advance(g, due, spawnDraw), eatDraw, store, k)
  }

  /** `update` with the corrected game over. */
  function UpdateIntended(g: Game, due: bool, spawnDraw: Point, eatDraw: Point, store: Store, k: Keys): (r: Frame)
    requires g.Valid() && SpawnDraw(spawnDraw) && SpawnDraw(eatDraw)
    ensures !g.isRunning || g.isPaused ==> r == Frame(g, [], store, None)
    ensures r.game.Valid() && r.error.None?
    ensures g.isRunning && !g.isPaused ==>
              (r.game.score == g.score || r.game.score == g.score + 1)
              && (!r.game.isRunning ==> |r.events| >= 1 && r.events[|r.events| - 1] == GameOverEvent(r.game.score, g.speedLevel)
                                        && r.store == RaiseHighScore(store, k, r.game.score))
              && (r.game.isRunning ==> r.store == store)
  {
    if !g.isRunning || g.isPaused then Frame(g, [], store, None)
    else CheckCollisionsIntended(Advance(g, due, spawnDraw), eatDraw, store, k)
  }

  /**
   * A player that runs into the wall with a score above the stored record: as written the frame
   * throws, stores nothing and dispatches no game-over event, so the interface never learns the
   * game ended; with the corrected game over the same frame stores the record and ends with the
   * event.
   */
  lemma RecordCrashLosesGameOver(g: Game, spawnDraw: Point, eatDraw: Point, store: Store, k: Keys)
    requires g.Valid() && g.isRunning && !g.isPaused && SpawnDraw(spawnDraw) && SpawnDraw(eatDraw)
    requires BoundaryCollision(Add(g.player.value.positions[0], Step(g.player.value.nextDirection)))
    requires Beats(g.score, GetHighScore(store, k))
    ensures var r := Update(g, true, spawnDraw, eatDraw, store, k);
            !r.game.isRunning && r.error == Some(NoSetHighScore) && r.store == store
            && forall i :: 0 <= i < |r.events| ==> !r.events[i].GameOverEvent?
    ensures var r := UpdateIntended(g, true, spawnDraw, eatDraw, store, k);
            !r.game.isRunning && r.error.None? && r.store == RaiseHighScore(store, k, r.game.score)
            && r.events[|r.events| - 1] == GameOverEvent(r.game.score, g.speedLevel)
  {
    WallEndsGame(g, spawnDraw, eatDraw, store, k);
    var r := Update(g, true, spawnDraw, eatDraw, store, k);
    assert Beats(r.game.score, GetHighScore(store, k));
  }

  /** A player that runs into the wall ends the game in the same frame, as written and as intended. */
  lemma WallEndsGame(g: Game, spawnDraw: Point, eatDraw: Point, store: Store, k: Keys)
    requires g.Valid() && g.isRunning && !g.isPaused && SpawnDraw(spawnDraw) && SpawnDraw(eatDraw)
    requires BoundaryCollision(Add(g.player.value.positions[0], Step(g.player.value.nextDirection)))
    ensures !Update(g, true, spawnDraw, eatDraw, store, k).game.isRunning
    ensures !UpdateIntended(g, true, spawnDraw, eatDraw, store, k).game.isRunning
  {
  }
}
