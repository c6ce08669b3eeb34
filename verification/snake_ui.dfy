/**
 * The snake game's interface layer: which of the four screens is shown, the texts they display,
 * level selection from the 3x3 grid and the number keys, the Escape pause toggle, and the
 * `on`/`emit` callback registry. Callbacks are named by numbers; emitting reports the callbacks
 * run, in order.
 */
module SnakeUi {
  import opened Wrappers
  import opened Text

  /** Event name to the callbacks registered for it, in registration order. */
  type Listeners = map<string, seq<nat>>

  datatype Ui = Ui(
    highScore: int,
    selectedLevel: int,
    menuShown: bool,
    gameShown: bool,
    gameOverShown: bool,
    pauseShown: bool,
    levelDisplay: string,
    scoreDisplay: string,
    gameLevelDisplay: string,
    pauseScore: string,
    pauseHighScore: string,
    pauseLevelInfo: string,
    finalScore: string,
    highScoreDisplay: string,
    levelInfo: string,
    listeners: Listeners)

  /** What a user action yields: the interface afterwards and the callbacks it ran, in order. */
  datatype Reaction = Reaction(ui: Ui, ran: seq<nat>)

  /**
   * The interface as constructed: level 4 selected, the menu showing and the other three
   * screens hidden, no callbacks registered.
   */
  function NewUi(highScore: int): (u: Ui)
    ensures u.selectedLevel == 4 && u.highScore == highScore
    ensures u.menuShown && !u.gameShown && !u.gameOverShown && !u.pauseShown
    ensures u.levelDisplay == "Level 4 - Normal" && u.gameLevelDisplay == "Level: 4" && u.scoreDisplay == "Score: 0"
    ensures u.pauseHighScore == "High Score: " + IntToString(highScore) && u.pauseLevelInfo == "Level: 4"
    ensures u.listeners == map[]
  {
    Ui(highScore, 4, true, false, false, false,
       "Level 4 - Normal", "Score: 0", "Level: 4",
       "Score: 0", "High Score: " + IntToString(highScore), "Level: " + IntToString(4),
       "", "", "", map[])
  }

  // ---------------------------------------------------------------- the callback registry

  /** `on`: the callback joins the end of its event's list, which is created when missing. */
  function On(l: Listeners, event: string, callback: nat): (r: Listeners)
    ensures event in r && r[event] == (if event in l then l[event] else []) + [callback]
    ensures forall e :: e != event ==> (e in r <==> e in l) && (e in l ==> r[e] == l[e])
  {
    l[event := (if event in l then l[event] else []) + [callback]]
  }

  /** `emit`: the callbacks of that event, run in registration order; none when there are none. */
  function Emit(l: Listeners, event: string): (r: seq<nat>)
    ensures event !in l ==> r == []
    ensures event in l ==> r == l[event]
  {
    if event in l then l[event] else []
  }

  /** The registry built by a log of `on` calls, oldest first. */
  function Register(log: seq<(string, nat)>): (r: Listeners)
  {
    if |log| == 0 then map[] else On(Register(log[..|log| - 1]), log[|log| - 1].0, log[|log| - 1].1)
  }

  /** The callbacks of the log registered for `event`, oldest first. */
  function RegisteredFor(log: seq<(string, nat)>, event: string): (r: seq<nat>)
    ensures |r| <= |log|
  {
    if |log| == 0 then []
    else RegisteredFor(log[..|log| - 1], event) + (if log[|log| - 1].0 == event then [log[|log| - 1].1] else [])
  }

  /** Emitting an event runs exactly the callbacks registered for it, in registration order. */
  lemma {:induction false} EmitRunsRegistered(log: seq<(string, nat)>, event: string)
    ensures Emit(Register(log), event) == RegisteredFor(log, event)
  {
    if |log| > 0 {
      EmitRunsRegistered(log[..|log| - 1], event);
    }
  }

  // ---------------------------------------------------------------- levels

  /** The level on the button in row `row` and column `col` of the 3x3 grid. */
  function LevelAt(row: int, col: int): (level: int)
    requires 0 <= row < 3 && 0 <= col < 3
    ensures 1 <= level <= 9
  {
    row * 3 + col + 1
  }

  /** The grid holds each level 1 to 9 on exactly one button. */
  lemma LevelGridIsBijection(level: int)
    requires 1 <= level <= 9
    ensures 0 <= (level - 1) / 3 < 3 && 0 <= (level - 1) % 3 < 3
    ensures LevelAt((level - 1) / 3, (level - 1) % 3) == level
    ensures forall row, col :: 0 <= row < 3 && 0 <= col < 3 && LevelAt(row, col) == level ==>
              row == (level - 1) / 3 && col == (level - 1) % 3
  {
  }

  /** `"Level " + level`, the name used when a level change carries none. */
  function DefaultLevelName(level: int): string
  {
    "Level " + IntToString(level)
  }

  /**
   * `onLevelChange`: the menu shows the event's name, or "Level n" when the name is missing or
   * empty; the in-game display shows "Level: n"; the level becomes the selected one.
   */
  function OnLevelChange(u: Ui, level: int, name: Option<string>): (r: Ui)
    ensures r.selectedLevel == level
    ensures r.levelDisplay == (if name.Some? && name.value != "" then name.value else DefaultLevelName(level))
    ensures r.gameLevelDisplay == "Level: " + IntToString(level)
    ensures r == u.(selectedLevel := level, levelDisplay := r.levelDisplay, gameLevelDisplay := r.gameLevelDisplay)
  {
    var shown := match name
                 case Some(n) => if n != "" then n else DefaultLevelName(level)
                 case None => DefaultLevelName(level);
    u.(levelDisplay := shown, gameLevelDisplay := "Level: " + IntToString(level), selectedLevel := level)
  }

  /** A level button's click: it selects its level and announces it under the name "Level n". */
  function ClickLevel(u: Ui, row: int, col: int): (r: Ui)
    requires 0 <= row < 3 && 0 <= col < 3
    ensures r.selectedLevel == LevelAt(row, col)
    ensures r.levelDisplay == DefaultLevelName(LevelAt(row, col))
  {
    var level := LevelAt(row, col);
    OnLevelChange(u.(selectedLevel := level), level, Some(DefaultLevelName(level)))
  }

  // ---------------------------------------------------------------- screens

  /** `updateScore`. */
  function UpdateScore(u: Ui, score: int): (r: Ui)
    ensures r == u.(scoreDisplay := "Score: " + IntToString(score))
  {
    u.(scoreDisplay := "Score: " + IntToString(score))
  }

  /**
   * `pauseGame`: the pause screen copies the score and level texts and shows the high score;
   * it is shown and "pause" is emitted.
   */
  function PauseGame(u: Ui): (r: Reaction)
    ensures r.ui.pauseShown && r.ran == Emit(u.listeners, "pause")
    ensures r.ui.pauseScore == u.scoreDisplay && r.ui.pauseLevelInfo == u.gameLevelDisplay
    ensures r.ui.pauseHighScore == "High Score: " + IntToString(u.highScore)
    ensures r.ui.menuShown == u.menuShown && r.ui.gameShown == u.gameShown && r.ui.gameOverShown == u.gameOverShown
  {
    Reaction(u.(pauseScore := u.scoreDisplay, pauseHighScore := "High Score: " + IntToString(u.highScore),
                pauseLevelInfo := u.gameLevelDisplay, pauseShown := true),
             Emit(u.listeners, "pause"))
  }

  /** `resumeGame`: the pause screen is hidden and "resume" is emitted. */
  function ResumeGame(u: Ui): (r: Reaction)
    ensures r.ui == u.(pauseShown := false) && r.ran == Emit(u.listeners, "resume")
  {
    Reaction(u.(pauseShown := false), Emit(u.listeners, "resume"))
  }

  /** `showGameUI`: only the in-game screen is shown. */
  function ShowGameUi(u: Ui): (r: Ui)
    ensures r.gameShown && !r.menuShown && !r.gameOverShown && !r.pauseShown
    ensures r == u.(menuShown := false, gameShown := true, gameOverShown := false, pauseShown := false)
  {
    u.(menuShown := false, gameOverShown := false, pauseShown := false, gameShown := true)
  }

  /**
   * `showGameOver`: the game-over screen is shown with the score, the high score and the level;
   * the in-game and pause screens are hidden and the menu is left as it was.
   */
  function ShowGameOver(u: Ui, score: int, level: int): (r: Ui)
    ensures r.gameOverShown && !r.gameShown && !r.pauseShown && r.menuShown == u.menuShown
    ensures r.finalScore == "Score: " + IntToString(score)
    ensures r.highScoreDisplay == "High Score: " + IntToString(u.highScore)
    ensures r.levelInfo == "Level: " + IntToString(level)
  {
    u.(gameShown := false, pauseShown := false, gameOverShown := true,
       finalScore := "Score: " + IntToString(score),
       highScoreDisplay := "High Score: " + IntToString(u.highScore),
       levelInfo := "Level: " + IntToString(level))
  }

  /** `showMenu`: only the menu is shown, and "menu" is emitted. */
  function ShowMenu(u: Ui): (r: Reaction)
    ensures r.ui.menuShown && !r.ui.gameShown && !r.ui.gameOverShown && !r.ui.pauseShown
    ensures r.ui == u.(menuShown := true, gameShown := false, gameOverShown := false, pauseShown := false)
    ensures r.ran == Emit(u.listeners, "menu")
  {
    Reaction(u.(gameShown := false, gameOverShown := false, pauseShown := false, menuShown := true),
             Emit(u.listeners, "menu"))
  }

  function HideMenu(u: Ui): (r: Ui)
    ensures !r.menuShown && r == u.(menuShown := false)
  {
    u.(menuShown := false)
  }

  function HideGameOver(u: Ui): (r: Ui)
    ensures !r.gameOverShown && r == u.(gameOverShown := false)
  {
    u.(gameOverShown := false)
  }

  /** The key reads as a level: `parseInt` gives a number from 1 to 9. */
  predicate LevelKey(key: string)
  {
    match ParseInt(key)
    case Some(n) => 1 <= n <= 9
    case None => false
  }

  /**
   * The keyboard listener: while the menu is shown, a level key selects its level (named
   * "Level n"); otherwise Escape during gameplay pauses, or resumes when already paused.
   */
  function KeyDown(u: Ui, key: string): (r: Reaction)
    ensures u.menuShown && LevelKey(key) ==>
              r == Reaction(OnLevelChange(u, ParseInt(key).value, None), [])
    ensures u.menuShown && !LevelKey(key) ==> r == Reaction(u, [])
    ensures !u.menuShown && key == "Escape" && u.gameShown ==>
              r == (if u.pauseShown then ResumeGame(u) else PauseGame(u))
    ensures !u.menuShown && !(key == "Escape" && u.gameShown) ==> r == Reaction(u, [])
  {
    if u.menuShown then
      match ParseInt(key)
      case Some(n) =>
        if 1 <= n <= 9 then Reaction(OnLevelChange(u.(selectedLevel := n), n, None), []) else Reaction(u, [])
      case None => Reaction(u, [])
    else if key == "Escape" && u.gameShown then
      if u.pauseShown then ResumeGame(u) else PauseGame(u)
    else Reaction(u, [])
  }

  /**
   * Escape twice during unpaused gameplay pauses and then resumes: the pause screen is hidden
   * again and the "pause" callbacks run before the "resume" ones.
   */
  lemma EscapeTwiceResumes(u: Ui)
    requires !u.menuShown && u.gameShown && !u.pauseShown
    ensures var once := KeyDown(u, "Escape");
            once.ui.pauseShown
            && var twice := KeyDown(once.ui, "Escape");
               !twice.ui.pauseShown
               && once.ran + twice.ran == Emit(u.listeners, "pause") + Emit(u.listeners, "resume")
  {
    var once := KeyDown(u, "Escape");
    assert once == PauseGame(u);
    assert once.ui.listeners == u.listeners;
  }
}
