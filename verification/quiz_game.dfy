/**
 * The first quiz's game flow: a game of twenty problems in challenge mode, or an endless one in
 * practice mode, with a score line, a clock, a skip button that appears after three misses, and
 * the bookkeeping when a challenge ends. The next problem drawn from the level, the clock and
 * the date are parameters; the timer interval is left out, so each handler runs to completion.
 * The 300 ms delay before an automatic check is kept as a count of callbacks still waiting
 * (`Session`), each of which fires as a later step.
 */
module QuizGame {
  import opened Wrappers
  import opened Text
  import QuizLevels
  import QuizProgress
  import QuizRankings
  import QuizUi

  /** Problems in a challenge. */
  const TotalProblems: int := 20
  /** Misses on one problem after which a challenge offers to skip it. */
  const SkipThreshold: int := 3

  datatype Game = Game(
    mode: QuizProgress.Mode,
    difficulty: Option<string>,
    problem: Option<QuizLevels.Problem>,
    correctAnswers: int,
    wrongAttempts: int,
    /** Whether a problem of this game was skipped; the game as written does not keep this. */
    skippedAny: bool,
    startTime: Option<int>,
    timerRunning: bool,
    difficultyButtonsShown: bool,
    scoreText: string,
    timerText: string,
    ui: QuizUi.Ui,
    progress: QuizProgress.Progress,
    rankings: QuizRankings.Rankings)

  /**
   * The constructor: challenge mode, no game under way, and the rankings saved earlier, or none
   * when nothing is saved.
   */
  function NewGame(ui: QuizUi.Ui, progress: QuizProgress.Progress, saved: Option<QuizRankings.Rankings>): (g: Game)
    ensures g.mode == QuizProgress.Challenge && g.difficulty.None? && g.problem.None? && g.startTime.None?
    ensures g.correctAnswers == 0 && g.wrongAttempts == 0 && !g.timerRunning
    ensures saved.Some? ==> g.rankings == saved.value
    ensures saved.None? ==> g.rankings == map[]
    ensures g.ui == ui && g.progress == progress
  {
    Game(QuizProgress.Challenge, None, None, 0, 0, false, None, false, false, "", "", ui, progress,
         match saved case Some(r) => r case None => map[])
  }

  /** `selectMode`: the mode is chosen and the difficulty buttons appear; nothing else changes. */
  function SelectMode(g: Game, mode: QuizProgress.Mode): (r: Game)
    ensures r.mode == mode && r.difficultyButtonsShown
    ensures r.(mode := g.mode, difficultyButtonsShown := g.difficultyButtonsShown) == g
  {
    g.(mode := mode, difficultyButtonsShown := true)
  }

  /**
   * `generateProblem`: `next` is the problem the level's generator drew. It is displayed with
   * the answer cleared and the skip button hidden; the explanation is shown exactly in practice
   * mode. Nothing else changes.
   */
  function GenerateProblem(g: Game, next: QuizLevels.Problem): (r: Game)
    ensures r.problem == Some(next) && r.ui.problemText == next.question && r.ui.answer == ""
    ensures !r.ui.skipShown && (r.ui.explanationShown <==> g.mode == QuizProgress.Practice)
    ensures r.ui.(problemText := g.ui.problemText, answer := g.ui.answer, skipShown := g.ui.skipShown,
                  explanationShown := g.ui.explanationShown) == g.ui
    ensures r.(problem := g.problem, ui := g.ui) == g
  {
    var shown := QuizUi.DisplayProblem(g.ui, next.question).(skipShown := false);
    g.(problem := Some(next),
       ui := shown.(explanationShown := g.mode == QuizProgress.Practice))
  }

  /** The score line: correct answers out of twenty in a challenge, out of infinity in practice. */
  function ScoreText(mode: QuizProgress.Mode, correct: int): (r: string)
    ensures mode == QuizProgress.Challenge ==> r == IntToString(correct) + "/20"
    ensures mode == QuizProgress.Practice ==> r == IntToString(correct) + "/\U{221E}"
  {
    IntToString(correct) + "/" + (if mode == QuizProgress.Challenge then IntToString(TotalProblems) else "\U{221E}")
  }

  /**
   * `updateTimer`: with a start time (one that is not 0, which JavaScript treats as missing) the
   * clock shows the whole seconds since then as `MM:SS`; otherwise nothing changes.
   */
  function UpdateTimer(g: Game, now: int): (r: Game)
    ensures (g.startTime.None? || g.startTime == Some(0)) ==> r == g
    ensures g.startTime.Some? && g.startTime.value != 0 ==>
              r == g.(timerText := QuizUi.FormatTime((now - g.startTime.value) / 1000))
  {
    if g.startTime.None? || g.startTime.value == 0 then g
    else
      // Math.floor of a quotient by a positive divisor is Dafny's division.
      var shown := QuizUi.FormatTime((now - g.startTime.value) / 1000);
      g.(timerText := shown)
  }

  /** The clock on a running game reads back as the whole seconds elapsed. */
  lemma TimerShowsElapsedSeconds(g: Game, now: int)
    requires g.startTime.Some? && g.startTime.value != 0 && now >= g.startTime.value
    ensures QuizUi.ReadsAsSeconds(UpdateTimer(g, now).timerText, (now - g.startTime.value) / 1000)
  {
    QuizUi.ClockReadsBack(UpdateTimer(g, now).timerText, (now - g.startTime.value) / 1000);
  }

  /**
   * `startGame`: a new game at the chosen difficulty with nothing answered, the clock started
   * at `now` and showing `00:00`, the game screen shown with a score of `0/20`, and the first
   * problem displayed.
   */
  function StartGame(g: Game, difficulty: string, now: int, next: QuizLevels.Problem): (r: Game)
    requires now != 0
    ensures r.difficulty == Some(difficulty) && r.correctAnswers == 0 && r.wrongAttempts == 0 && !r.skippedAny
    ensures r.startTime == Some(now) && r.timerRunning && r.timerText == "00:00" && r.scoreText == "0/20"
    ensures QuizUi.OneScreen(r.ui) && r.ui.gameShown
    ensures r.problem == Some(next) && r.ui.problemText == next.question && r.ui.answer == "" && !r.ui.skipShown
    ensures r.mode == g.mode && r.progress == g.progress && r.rankings == g.rankings
  {
    var started := g.(difficulty := Some(difficulty), correctAnswers := 0, wrongAttempts := 0, skippedAny := false,
                      startTime := Some(now), ui := QuizUi.ShowGameScreen(g.ui), scoreText := "0/20");
    assert QuizUi.FormatTime((now - now) / 1000) == "00:00" by {
      assert (now - now) / 1000 == 0;
      assert NatToString(0) == "0";
    }
    var ticking := UpdateTimer(started, now).(timerRunning := true);
    GenerateProblem(ticking, next)
  }

  /**
   * `Date.now() - startTime` when the game ends. A missing start time is `null`, which the
   * subtraction reads as 0.
   */
  function ElapsedSeconds(g: Game, now: int): (s: int)
    ensures g.startTime.Some? ==> s == (now - g.startTime.value) / 1000
    ensures g.startTime.None? ==> s == now / 1000
  {
    (now - match g.startTime case Some(t) => t case None => 0) / 1000
  }

  /** The difficulty as an object key: a missing one (`null`) is the key `"null"`. */
  function DifficultyKey(g: Game): (k: string)
    ensures g.difficulty.Some? ==> k == g.difficulty.value
  {
    match g.difficulty case Some(d) => d case None => "null"
  }

  /** What `endGame` reports, as written: the game counts as skipped when the last problem had misses. */
  function RecordedAsWritten(g: Game, time: int): (d: QuizProgress.GameData)
    ensures d.skipped <==> g.wrongAttempts > 0
    ensures d.mode == g.mode && d.difficulty == DifficultyKey(g) && d.correct == g.correctAnswers
    ensures d.total == TotalProblems && d.time == time
  {
    QuizProgress.GameData(g.mode, DifficultyKey(g), g.correctAnswers, TotalProblems, time, g.wrongAttempts > 0)
  }

  /** What `endGame` reports when a skip is remembered: the game counts as skipped when any problem was. */
  function Recorded(g: Game, time: int): (d: QuizProgress.GameData)
    ensures d.skipped <==> g.skippedAny
    ensures d.(skipped := false) == RecordedAsWritten(g, time).(skipped := false)
  {
    QuizProgress.GameData(g.mode, DifficultyKey(g), g.correctAnswers, TotalProblems, time, g.skippedAny)
  }

  /**
   * The end of a game given what it reports: the clock stops, the statistics record the game,
   * and a challenge enters the rankings and shows them, while practice shows the progress.
   */
  function Finish(g: Game, data: QuizProgress.GameData, now: int, date: string): (r: Game)
    requires data.mode == g.mode && data.difficulty == DifficultyKey(g)
    ensures !r.timerRunning
    ensures r.progress == QuizProgress.UpdateStats(g.progress, data, now)
    ensures g.mode == QuizProgress.Challenge ==>
              r.rankings == QuizRankings.UpdateRankings(g.rankings, data.difficulty, data.correct, data.time, date)
              && r.ui.rankingsShown
              && r.ui.rankingRows == QuizUi.RankingRows(QuizRankings.GetRankings(r.rankings, data.difficulty))
    ensures g.mode == QuizProgress.Practice ==> r.rankings == g.rankings && r.ui.progressShown
    ensures QuizUi.OneScreen(r.ui)
    ensures r.correctAnswers == g.correctAnswers && r.wrongAttempts == g.wrongAttempts && r.mode == g.mode
  {
    var stopped := g.(timerRunning := false, progress := QuizProgress.UpdateStats(g.progress, data, now));
    if g.mode == QuizProgress.Challenge then
      var rankings := QuizRankings.UpdateRankings(g.rankings, data.difficulty, data.correct, data.time, date);
      stopped.(rankings := rankings, ui := QuizUi.ShowRankings(g.ui, QuizRankings.GetRankings(rankings, data.difficulty)))
    else
      stopped.(ui := QuizUi.ShowProgress(g.ui))
  }

  /**
   * `endGame` as written: the clock stops, the statistics record the game with the misses on
   * the last problem standing for a skip, and a challenge enters the rankings and shows them,
   * while practice shows the progress.
   */
  function EndGameAsWritten(g: Game, now: int, date: string): (r: Game)
    ensures var data := RecordedAsWritten(g, ElapsedSeconds(g, now));
            && !r.timerRunning && QuizUi.OneScreen(r.ui)
            && r.progress == QuizProgress.UpdateStats(g.progress, data, now)
            && (data.skipped <==> g.wrongAttempts > 0)
    ensures g.mode == QuizProgress.Challenge ==>
              r.rankings == QuizRankings.UpdateRankings(g.rankings, DifficultyKey(g), g.correctAnswers, ElapsedSeconds(g, now), date)
              && r.ui.rankingsShown
    ensures g.mode == QuizProgress.Practice ==> r.rankings == g.rankings && r.ui.progressShown
  {
    Finish(g, RecordedAsWritten(g, ElapsedSeconds(g, now)), now, date)
  }

  /**
   * `endGame` with the skip remembered for the whole game, the evidently intended report; the
   * rest is as written.
   */
  function EndGame(g: Game, now: int, date: string): (r: Game)
    ensures var data := Recorded(g, ElapsedSeconds(g, now));
            && !r.timerRunning && QuizUi.OneScreen(r.ui)
            && r.progress == QuizProgress.UpdateStats(g.progress, data, now)
            && (data.skipped <==> g.skippedAny)
    ensures g.mode == QuizProgress.Challenge ==>
              r.rankings == QuizRankings.UpdateRankings(g.rankings, DifficultyKey(g), g.correctAnswers, ElapsedSeconds(g, now), date)
              && r.ui.rankingsShown
    ensures g.mode == QuizProgress.Practice ==> r.rankings == g.rankings && r.ui.progressShown
  {
    Finish(g, Recorded(g, ElapsedSeconds(g, now)), now, date)
  }

  /**
   * The first steps of `processCorrectAnswer`: one more correct answer, no misses, and the score
   * line; nothing else changes.
   */
  function Scored(g: Game): (r: Game)
    ensures r.correctAnswers == g.correctAnswers + 1 && r.wrongAttempts == 0
    ensures r.scoreText == ScoreText(g.mode, g.correctAnswers + 1)
    ensures r.(correctAnswers := g.correctAnswers, wrongAttempts := g.wrongAttempts, scoreText := g.scoreText) == g
  {
    g.(correctAnswers := g.correctAnswers + 1, wrongAttempts := 0, scoreText := ScoreText(g.mode, g.correctAnswers + 1))
  }

  /** The game after a correct answer is counted: the score, and in practice the explanation shown. */
  function Counted(g: Game): (r: Game)
    ensures r.correctAnswers == g.correctAnswers + 1 && r.wrongAttempts == 0
    ensures r.scoreText == ScoreText(g.mode, g.correctAnswers + 1)
    ensures r.mode == g.mode && r.progress == g.progress && r.rankings == g.rankings && r.problem == g.problem
    ensures r.skippedAny == g.skippedAny && r.timerRunning == g.timerRunning
  {
    var counted := Scored(g);
    if g.mode == QuizProgress.Practice then counted.(ui := counted.ui.(explanationShown := true)) else counted
  }

  /**
   * Practice with no problem showing, as after `quitGame`: reading the problem's explanation for
   * the practice message throws, so a correct answer stops after the score.
   */
  predicate NoProblemInPractice(g: Game)
  {
    g.mode == QuizProgress.Practice && g.problem.None?
  }

  /** This correct answer completes a challenge. */
  predicate Completes(g: Game)
  {
    g.mode == QuizProgress.Challenge && g.correctAnswers + 1 >= TotalProblems
  }

  /**
   * `processCorrectAnswer` as written: one more correct answer and no misses on the new problem;
   * the score line follows. A challenge ends at twenty correct answers, through `endGame` as
   * written; practice with no problem showing throws when it reads the explanation, leaving the
   * rest undone; otherwise `next` is displayed.
   */
  function ProcessCorrect(g: Game, next: QuizLevels.Problem, now: int, date: string): (r: Game)
    ensures r.correctAnswers == g.correctAnswers + 1 && r.wrongAttempts == 0
    ensures r.scoreText == ScoreText(g.mode, g.correctAnswers + 1)
    ensures Completes(g) ==> r == EndGameAsWritten(Counted(g), now, date) && !r.timerRunning && r.ui.rankingsShown
    ensures NoProblemInPractice(g) ==> r == Scored(g) && r.problem.None? && r.ui == g.ui
    ensures !Completes(g) && !NoProblemInPractice(g) ==>
              r.problem == Some(next) && r.progress == g.progress && r.rankings == g.rankings
              && r.timerRunning == g.timerRunning
  {
    if Completes(g) then EndGameAsWritten(Counted(g), now, date)
    else if NoProblemInPractice(g) then Scored(g)
    else GenerateProblem(Counted(g), next)
  }

  /**
   * `processCorrectAnswer` as evidently intended: a completed challenge reports whether any of
   * its problems was skipped, and each problem solved in practice counts towards Practice
   * Master; the rest is as written.
   */
  function ProcessCorrectIntended(g: Game, next: QuizLevels.Problem, now: int, date: string): (r: Game)
    ensures r.correctAnswers == g.correctAnswers + 1 && r.wrongAttempts == 0
    ensures r.scoreText == ScoreText(g.mode, g.correctAnswers + 1)
    ensures Completes(g) ==> r == EndGame(Counted(g), now, date) && !r.timerRunning && r.ui.rankingsShown
    ensures g.mode == QuizProgress.Practice ==>
              r.problem == Some(next) && r.progress == QuizProgress.SolvePractice(g.progress) && r.rankings == g.rankings
    ensures g.mode == QuizProgress.Challenge && !Completes(g) ==>
              r.problem == Some(next) && r.progress == g.progress && r.rankings == g.rankings
  {
    var counted := Counted(g);
    if Completes(g) then EndGame(counted, now, date)
    else if g.mode == QuizProgress.Practice then
      GenerateProblem(counted.(progress := QuizProgress.SolvePractice(g.progress)), next)
    else GenerateProblem(counted, next)
  }

  /**
   * `processIncorrectAnswer`: one more miss on this problem; a challenge shows the skip button
   * from the third miss on, practice shows the hint. Nothing else changes.
   */
  function ProcessIncorrect(g: Game): (r: Game)
    ensures r.wrongAttempts == g.wrongAttempts + 1
    ensures g.mode == QuizProgress.Challenge ==>
              (r.ui.skipShown <==> g.ui.skipShown || g.wrongAttempts + 1 >= SkipThreshold)
              && r.ui.explanationShown == g.ui.explanationShown
    ensures g.mode == QuizProgress.Practice ==> r.ui.skipShown == g.ui.skipShown && r.ui.explanationShown
    ensures r.ui.(skipShown := g.ui.skipShown, explanationShown := g.ui.explanationShown) == g.ui
    ensures r.(wrongAttempts := g.wrongAttempts, ui := g.ui) == g
  {
    var missed := g.(wrongAttempts := g.wrongAttempts + 1);
    var skippable := if missed.wrongAttempts >= SkipThreshold && g.mode == QuizProgress.Challenge
                     then missed.(ui := missed.ui.(skipShown := true)) else missed;
    if g.mode == QuizProgress.Practice then skippable.(ui := skippable.ui.(explanationShown := true)) else skippable
  }

  /** The answer matches the problem: only a numeric answer can equal the parsed integer. */
  predicate Accepts(p: QuizLevels.Problem, n: int)
  {
    p.answer == QuizLevels.Num(n)
  }

  /**
   * `checkAnswer`: an answer that does not parse is ignored; one equal to the problem's answer
   * takes the correct path, any other the incorrect path. With no problem the comparison throws
   * before anything changes.
   */
  function CheckAnswer(g: Game, next: QuizLevels.Problem, now: int, date: string): (r: Game)
    ensures ParseInt(QuizUi.GetAnswer(g.ui)).None? || g.problem.None? ==> r == g
    ensures ParseInt(QuizUi.GetAnswer(g.ui)).Some? && g.problem.Some? ==>
              var n := ParseInt(QuizUi.GetAnswer(g.ui)).value;
              (Accepts(g.problem.value, n) ==> r == ProcessCorrect(g, next, now, date))
              && (!Accepts(g.problem.value, n) ==> r == ProcessIncorrect(g))
  {
    match ParseInt(QuizUi.GetAnswer(g.ui))
    case None => g
    case Some(n) =>
      match g.problem
      case None => g
      case Some(p) => if Accepts(p, n) then ProcessCorrect(g, next, now, date) else ProcessIncorrect(g)
  }

  /** The typed answer parses to the current problem's answer. */
  predicate Matches(g: Game)
  {
    g.problem.Some? && ParseInt(QuizUi.GetAnswer(g.ui)).Some?
    && Accepts(g.problem.value, ParseInt(QuizUi.GetAnswer(g.ui)).value)
  }

  /**
   * The check an automatic check makes: an answer that parses and matches takes the correct
   * path, anything else leaves the game as it is, so a miss is counted only on submit. The
   * callback as written makes it when the digit is typed; the corrected one makes it again
   * when it fires (`FireIntended`).
   */
  function AutoCheckAnswer(g: Game, next: QuizLevels.Problem, now: int, date: string): (r: Game)
    ensures Matches(g) ==> r == CheckAnswer(g, next, now, date) && r.correctAnswers == g.correctAnswers + 1
    ensures !Matches(g) ==> r == g
  {
    if Matches(g) then ProcessCorrect(g, next, now, date) else g
  }

  /** The game together with the number of automatic-check callbacks scheduled and not yet run. */
  datatype Session = Session(game: Game, pending: nat)

  /**
   * `autoCheckAnswer` as written: a matching answer schedules one callback 300 ms ahead and
   * changes nothing yet; any other answer schedules nothing.
   */
  function AutoCheckAsWritten(s: Session): (r: Session)
    ensures r.game == s.game
    ensures r.pending == s.pending + 1 <==> Matches(s.game)
    ensures !Matches(s.game) ==> r.pending == s.pending
  {
    if Matches(s.game) then s.(pending := s.pending + 1) else s
  }

  /** The answer is submitted (Enter or the pad's enter key) while callbacks may still be waiting. */
  function Submit(s: Session, next: QuizLevels.Problem, now: int, date: string): (r: Session)
    ensures r.pending == s.pending && r.game == CheckAnswer(s.game, next, now, date)
  {
    s.(game := CheckAnswer(s.game, next, now, date))
  }

  /**
   * A scheduled callback fires as written: it takes the correct path for whatever game is
   * showing then, without looking at the answer or the problem again.
   */
  function FireAsWritten(s: Session, next: QuizLevels.Problem, now: int, date: string): (r: Session)
    requires s.pending > 0
    ensures r.pending == s.pending - 1
    ensures r.game.correctAnswers == s.game.correctAnswers + 1 && r.game.wrongAttempts == 0
    ensures r.game == ProcessCorrect(s.game, next, now, date)
  {
    Session(ProcessCorrect(s.game, next, now, date), s.pending - 1)
  }

  /**
   * A scheduled callback as evidently intended, standing for the Enter press it simulates: it
   * counts the answer only if the answer shown still matches the problem shown.
   */
  function FireIntended(s: Session, next: QuizLevels.Problem, now: int, date: string): (r: Session)
    requires s.pending > 0
    ensures r.pending == s.pending - 1
    ensures Matches(s.game) ==> r.game.correctAnswers == s.game.correctAnswers + 1
    ensures !Matches(s.game) ==> r.game == s.game
  {
    Session(AutoCheckAnswer(s.game, next, now, date), s.pending - 1)
  }

  /** A problem just displayed has an empty answer, which never matches. */
  lemma FreshProblemDoesNotMatch(g: Game, next: QuizLevels.Problem)
    ensures !Matches(GenerateProblem(g, next))
  {
    var u := GenerateProblem(g, next).ui;
    assert u.answer == "";
    assert QuizUi.GetAnswer(u) == "";
    EmptyIsNaN();
  }

  /**
   * As written, a matching answer submitted before its callback fires is counted twice: the
   * submit takes the correct path and shows `next1`, then the callback counts again and
   * replaces `next1`, unseen and unanswered, by `next2`.
   */
  lemma SubmitBeforeCallbackCountsTwice(g: Game, next1: QuizLevels.Problem, next2: QuizLevels.Problem, now: int, date: string)
    requires Matches(g) && !Completes(g)
    ensures var scheduled := AutoCheckAsWritten(Session(g, 0));
            scheduled.pending == 1
            && var r := FireAsWritten(Submit(scheduled, next1, now, date), next2, now, date);
            r.pending == 0 && r.game.correctAnswers == g.correctAnswers + 2
            && (g.mode == QuizProgress.Practice || g.correctAnswers + 2 < TotalProblems ==> r.game.problem == Some(next2))
  {
    var submitted := Submit(AutoCheckAsWritten(Session(g, 0)), next1, now, date);
    assert submitted.game == ProcessCorrect(g, next1, now, date);
    assert submitted.game.problem == Some(next1) && submitted.game.mode == g.mode;
    assert !NoProblemInPractice(submitted.game);
  }

  /** With the corrected callback the same answer is counted once and `next1` stays to be answered. */
  lemma SubmitBeforeCallbackCountsOnce(g: Game, next1: QuizLevels.Problem, next2: QuizLevels.Problem, now: int, date: string)
    requires Matches(g) && !Completes(g)
    ensures var scheduled := AutoCheckAsWritten(Session(g, 0));
            var submitted := Submit(scheduled, next1, now, date);
            var r := FireIntended(submitted, next2, now, date);
            r.pending == 0 && r.game == submitted.game
            && r.game.correctAnswers == g.correctAnswers + 1 && r.game.problem == Some(next1)
  {
    var submitted := Submit(AutoCheckAsWritten(Session(g, 0)), next1, now, date);
    assert submitted.game == GenerateProblem(Counted(g), next1);
    FreshProblemDoesNotMatch(Counted(g), next1);
  }

  /**
   * As written, quitting practice while a callback waits does not cancel it: when it fires it
   * counts the answer on the difficulty screen, writes the practice score line over the reset
   * one, and throws on the missing problem, which stays missing.
   */
  lemma QuitThenFireCounts(g: Game, next: QuizLevels.Problem, now: int, date: string)
    requires g.mode == QuizProgress.Practice && Matches(g)
    ensures var scheduled := AutoCheckAsWritten(Session(g, 0));
            var quit := scheduled.(game := QuitGame(scheduled.game));
            var r := FireAsWritten(quit, next, now, date);
            scheduled.pending == 1 && r.pending == 0
            && r.game.correctAnswers == g.correctAnswers + 1 && r.game.problem.None?
            && r.game.ui == QuitGame(g).ui && r.game.scoreText == ScoreText(QuizProgress.Practice, g.correctAnswers + 1)
  {
    assert NoProblemInPractice(QuitGame(g));
  }

  /** With the corrected callback the quit game stays as `quitGame` left it. */
  lemma QuitThenFireIntendedKeepsQuit(g: Game, next: QuizLevels.Problem, now: int, date: string)
    requires Matches(g)
    ensures var scheduled := AutoCheckAsWritten(Session(g, 0));
            var quit := scheduled.(game := QuitGame(scheduled.game));
            var r := FireIntended(quit, next, now, date);
            r.pending == 0 && r.game == QuitGame(g)
  {
    assert !Matches(QuitGame(g));
  }

  /**
   * `skipProblem`: in a challenge the next problem replaces the current one and the skip is
   * remembered for the game; in practice nothing changes. The misses are not reset.
   */
  function SkipProblem(g: Game, next: QuizLevels.Problem): (r: Game)
    ensures g.mode == QuizProgress.Practice ==> r == g
    ensures g.mode == QuizProgress.Challenge ==> r.problem == Some(next) && r.skippedAny && !r.ui.skipShown
    ensures r.wrongAttempts == g.wrongAttempts && r.correctAnswers == g.correctAnswers
  {
    if g.mode == QuizProgress.Challenge then GenerateProblem(g.(skippedAny := true), next) else g
  }

  /**
   * `quitGame`: the clock stops and is reset, the problem and start time are dropped, the
   * difficulty screen is shown with its buttons hidden, and the score line resets.
   */
  function QuitGame(g: Game): (r: Game)
    ensures !r.timerRunning && r.problem.None? && r.startTime.None?
    ensures QuizUi.OneScreen(r.ui) && r.ui.difficultyShown && !r.difficultyButtonsShown
    ensures r.timerText == "00:00" && r.scoreText == "0/20"
    ensures r.correctAnswers == g.correctAnswers && r.progress == g.progress && r.rankings == g.rankings
  {
    g.(timerRunning := false, problem := None, startTime := None, ui := QuizUi.ShowDifficultySelect(g.ui),
       difficultyButtonsShown := false, timerText := "00:00", scoreText := "0/20")
  }

  /** The `view-progress` event: the progress screen is shown. */
  function ViewProgress(g: Game): (r: Game)
    ensures QuizUi.OneScreen(r.ui) && r.ui.progressShown
    ensures r.(ui := g.ui) == g
  {
    g.(ui := QuizUi.ShowProgress(g.ui))
  }

  // ---------------------------------------------------------------- properties of the flow

  /**
   * A fraction's answer is text, and text never equals a parsed integer: no answer to a
   * fraction problem is ever accepted, and submitting one always counts as a miss.
   */
  lemma FractionsNeverAccepted(g: Game, next: QuizLevels.Problem, now: int, date: string)
    requires g.problem.Some? && g.problem.value.answer.Fixed?
    ensures AutoCheckAnswer(g, next, now, date) == g
    ensures CheckAnswer(g, next, now, date).correctAnswers == g.correctAnswers
    ensures ParseInt(QuizUi.GetAnswer(g.ui)).Some? ==> CheckAnswer(g, next, now, date) == ProcessIncorrect(g)
  {
  }

  /**
   * A game ends only in a challenge: in practice a correct answer never touches the statistics,
   * and shows `next` unless there was no problem to explain.
   */
  lemma PracticeNeverEnds(g: Game, next: QuizLevels.Problem, now: int, date: string)
    requires g.mode == QuizProgress.Practice
    ensures var r := ProcessCorrect(g, next, now, date);
            r.progress == g.progress && r.rankings == g.rankings
            && r.problem == (if g.problem.Some? then Some(next) else None)
  {
  }

  /**
   * Since only a challenge ends, no game ever adds to the practice count the Practice Master
   * achievement waits for.
   */
  lemma PracticeCountNeverGrows(g: Game, next: QuizLevels.Problem, now: int, date: string)
    ensures ProcessCorrect(g, next, now, date).progress.practiceProblems == g.progress.practiceProblems
  {
  }

  /**
   * After a skip the misses are not reset, so in a challenge a single further miss brings the
   * skip button back.
   */
  lemma SkipReturnsAfterOneMiss(g: Game, next: QuizLevels.Problem)
    requires g.mode == QuizProgress.Challenge && g.wrongAttempts >= SkipThreshold
    ensures ProcessIncorrect(SkipProblem(g, next)).ui.skipShown
  {
  }

  /**
   * As written, `endGame` is only reached from `processCorrectAnswer` right after the misses
   * are reset, so the game it reports is never skipped: a challenge finished after a skip is
   * still awarded Persistent ("complete a challenge without skipping").
   */
  lemma SkippedNeverRecorded(g: Game, next: QuizLevels.Problem, now: int, date: string)
    requires Completes(g)
    ensures !RecordedAsWritten(Counted(g), ElapsedSeconds(g, now)).skipped
    ensures QuizProgress.Persistent in ProcessCorrect(g, next, now, date).progress.achievements
  {
    var ended := Counted(g);
    var data := RecordedAsWritten(ended, ElapsedSeconds(ended, now));
    assert QuizProgress.Earned(QuizProgress.Persistent, data, QuizProgress.UpdateStats(g.progress, data, now).practiceProblems);
  }

  /**
   * With the skip remembered, a challenge that ends after a skip is reported as skipped and
   * earns no Persistent of its own, and one without a skip earns it; the history ends with the
   * game's result.
   */
  lemma SkipIsRecorded(g: Game, next: QuizLevels.Problem, now: int, date: string)
    requires Completes(g) && QuizProgress.Valid(g.progress)
    ensures var p := ProcessCorrectIntended(g, next, now, date).progress;
            |p.history| > 0 && p.history[|p.history| - 1].correct == g.correctAnswers + 1
            && (QuizProgress.Persistent in p.achievements
                <==> QuizProgress.Persistent in g.progress.achievements || !g.skippedAny)
  {
    var ended := Counted(g);
    var data := Recorded(ended, ElapsedSeconds(ended, now));
    var p := ProcessCorrectIntended(g, next, now, date).progress;
    assert p == QuizProgress.UpdateStats(g.progress, data, now);
    var entry := QuizProgress.HistoryEntry(now, data.mode, data.difficulty, data.correct, data.total, data.time);
    assert p.history == QuizProgress.PushHistory(g.progress.history, entry);
    assert p.history[|p.history| - 1] == entry;
    QuizProgress.PersistentAfterGame(g.progress, data, now);
  }

  /** As intended, every problem solved in practice counts, and the hundredth earns Practice Master. */
  lemma PracticeSolvesCount(g: Game, next: QuizLevels.Problem, now: int, date: string)
    requires g.mode == QuizProgress.Practice
    ensures var p := ProcessCorrectIntended(g, next, now, date).progress;
            p.practiceProblems == g.progress.practiceProblems + 1
            && (g.progress.practiceProblems + 1 >= 100 ==> QuizProgress.PracticeMaster in p.achievements)
  {
  }

  /**
   * `checkAnswer` as evidently intended: a fraction's answer, which is text, is compared with
   * the typed answer as text; a numeric answer is compared as written.
   */
  function CheckAnswerIntended(g: Game, next: QuizLevels.Problem, now: int, date: string): (r: Game)
    ensures g.problem.Some? && g.problem.value.answer.Fixed? && QuizUi.GetAnswer(g.ui) == g.problem.value.answer.text ==>
              r == ProcessCorrectIntended(g, next, now, date)
    ensures g.problem.Some? && g.problem.value.answer.Num? ==>
              (ParseInt(QuizUi.GetAnswer(g.ui)).None? ==> r == g)
              && (ParseInt(QuizUi.GetAnswer(g.ui)).Some? && Accepts(g.problem.value, ParseInt(QuizUi.GetAnswer(g.ui)).value) ==>
                    r == ProcessCorrectIntended(g, next, now, date))
              && (ParseInt(QuizUi.GetAnswer(g.ui)).Some? && !Accepts(g.problem.value, ParseInt(QuizUi.GetAnswer(g.ui)).value) ==>
                    r == ProcessIncorrect(g))
    ensures g.problem.None? ==> r == g
  {
    var typed := QuizUi.GetAnswer(g.ui);
    match g.problem
    case None => g
    case Some(p) =>
      if p.answer.Fixed? && typed == p.answer.text then ProcessCorrectIntended(g, next, now, date)
      else
        match ParseInt(typed)
        case None => g
        case Some(n) => if Accepts(p, n) then ProcessCorrectIntended(g, next, now, date) else ProcessIncorrect(g)
  }

  /** As intended, a fraction is solved by typing its rounded decimal; as written it never is. */
  lemma FractionAcceptedAsText(g: Game, next: QuizLevels.Problem, now: int, date: string)
    requires g.problem.Some? && g.problem.value.answer.Fixed? && QuizUi.GetAnswer(g.ui) == g.problem.value.answer.text
    ensures CheckAnswerIntended(g, next, now, date).correctAnswers == g.correctAnswers + 1
    ensures CheckAnswer(g, next, now, date).correctAnswers == g.correctAnswers
  {
  }
}
