/**
 * The first quiz's interface state: which of the four screens is shown, the skip button and
 * the explanation, the problem text, the answer being typed, and the rendered ranking rows.
 * Input handlers return the document events they dispatch. Focus, the press and shake
 * animations and the style sheet are left out.
 */
module QuizUi {
  import opened Text
  import QuizRankings

  datatype Ui = Ui(
    difficultyShown: bool,
    gameShown: bool,
    progressShown: bool,
    rankingsShown: bool,
    skipShown: bool,
    explanationShown: bool,
    problemText: string,
    answer: string,
    rankingRows: seq<RankingRow>)

  /** The document events the interface dispatches for the game to handle. */
  datatype UiEvent = AnswerSubmit | AnswerCheck | SkipProblem | ViewProgress | QuitGame

  datatype Reaction = Reaction(ui: Ui, events: seq<UiEvent>)

  const MaxAnswerLength: nat := 10

  /** Exactly one of the four screens is shown. */
  predicate OneScreen(u: Ui)
  {
    (if u.difficultyShown then 1 else 0) + (if u.gameShown then 1 else 0)
    + (if u.progressShown then 1 else 0) + (if u.rankingsShown then 1 else 0) == 1
  }

  // ---------------------------------------------------------------- number formatting

  /** JavaScript's `%`: the remainder takes the sign of the dividend. */
  function JsRem(a: int, b: int): (r: int)
    requires b > 0
    ensures a >= 0 ==> r == a % b
    ensures a < 0 ==> -b < r <= 0
  {
    if a >= 0 then a % b else -((-a) % b)
  }

  /**
   * `formatTime(seconds)`: whole minutes (`Math.floor`, which Dafny's division matches for a
   * positive divisor) and the remaining seconds, each padded to two digits and joined by `:`.
   */
  function FormatTime(seconds: int): (r: string)
    ensures seconds >= 0 ==> r == Pad2(NatToString(seconds / 60)) + ":" + Pad2(NatToString(seconds % 60))
  {
    Pad2(IntToString(seconds / 60)) + ":" + Pad2(IntToString(JsRem(seconds, 60)))
  }

  /** A number padded to two digits still reads as that number. */
  lemma Pad2Value(n: nat)
    ensures AllDigits(Pad2(NatToString(n))) && |Pad2(NatToString(n))| >= 2
    ensures DigitsValue(Pad2(NatToString(n))) == n
    ensures n < 100 ==> |Pad2(NatToString(n))| == 2
  {
    var s := NatToString(n);
    if |s| < 2 {
      var p := Pad2(s);
      assert p == "0" + s;
      assert p[..1] == "0";
      assert DigitsValue(p[..1]) == 0 by { assert p[..1][..0] == ""; }
    }
    if n < 100 && |s| > 2 {
      NatToStringLength(n);
    }
  }

  /** Numbers below 100 have at most two digits. */
  lemma NatToStringLength(n: nat)
    requires n < 100
    ensures |NatToString(n)| <= 2
  {
  }

  /**
   * `t` reads back as `seconds`: before the last three characters are the minutes' digits, then
   * a colon and two digits of seconds, and minutes times sixty plus seconds gives `seconds`.
   */
  predicate ReadsAsSeconds(t: string, seconds: int)
  {
    |t| >= 4 && t[|t| - 3] == ':'
    && AllDigits(t[..|t| - 3]) && AllDigits(t[|t| - 2..])
    && DigitsValue(t[..|t| - 3]) * 60 + DigitsValue(t[|t| - 2..]) == seconds
  }

  /** Any text equal to the clock for `seconds` reads back as `seconds`. */
  lemma ClockReadsBack(t: string, seconds: nat)
    requires t == FormatTime(seconds)
    ensures ReadsAsSeconds(t, seconds)
  {
    FormatTimeReadsBack(seconds);
  }

  /** The clock text reads back as its seconds, with at least two digits of minutes: `MM:SS` below 100 minutes. */
  lemma FormatTimeReadsBack(seconds: nat)
    ensures var r := FormatTime(seconds);
            ReadsAsSeconds(r, seconds) && |r| >= 5 && (seconds < 6000 ==> |r| == 5)
  {
    var m := Pad2(NatToString(seconds / 60));
    var s := Pad2(NatToString(seconds % 60));
    Pad2Value(seconds / 60);
    Pad2Value(seconds % 60);
    SplitClock(m, s);
    assert DigitsValue(m) * 60 + DigitsValue(s) == seconds;
  }

  /** `m:s` with two-digit seconds splits back into `m` and `s` at the third character from the end. */
  lemma SplitClock(m: string, s: string)
    requires |s| == 2
    ensures var r := m + ":" + s;
            |r| == |m| + 3 && r[|r| - 3] == ':' && r[..|r| - 3] == m && r[|r| - 2..] == s
  {
  }

  // ---------------------------------------------------------------- the answer

  /** `getAnswer`: the typed answer without surrounding white space. */
  function GetAnswer(u: Ui): (r: string)
    ensures |r| <= |u.answer|
    ensures AllDigits(u.answer) ==> r == u.answer
  {
    TrimKeepsDigits(u.answer);
    Trim(u.answer)
  }

  /** A string of digits has no white space to trim. */
  lemma TrimKeepsDigits(s: string)
    ensures AllDigits(s) ==> Trim(s) == s
  {
    if AllDigits(s) && |s| > 0 {
      DigitNotSpace(s[0]);
      DigitNotSpace(s[|s| - 1]);
    }
    if AllDigits(s) {
      TrimNoEdgeSpace(s);
    }
  }

  /** `answer.slice(0, -1)`: the last character removed; an empty answer stays empty. */
  function Erase(answer: string): (r: string)
    ensures |answer| == 0 ==> r == ""
    ensures |answer| > 0 ==> r + [answer[|answer| - 1]] == answer
  {
    if |answer| == 0 then "" else answer[..|answer| - 1]
  }

  /** Erasing shortens the answer and keeps it all digits. */
  lemma EraseKeepsDigits(answer: string)
    ensures |Erase(answer)| <= |answer|
    ensures AllDigits(answer) ==> AllDigits(Erase(answer))
  {
    if |answer| > 0 {
      assert Erase(answer) == answer[..|answer| - 1];
    }
  }

  /** A digit is appended only while the answer is shorter than ten characters; then "answer-check" is dispatched. */
  function TypeDigit(u: Ui, c: char): (r: Reaction)
    ensures |u.answer| < MaxAnswerLength ==> r == Reaction(u.(answer := u.answer + [c]), [AnswerCheck])
    ensures |u.answer| >= MaxAnswerLength ==> r == Reaction(u, [])
  {
    if |u.answer| < MaxAnswerLength then Reaction(u.(answer := u.answer + [c]), [AnswerCheck]) else Reaction(u, [])
  }

  datatype PadButton = EnterButton | EraseButton | DigitButton(text: char)

  /** A number-pad click: Enter submits, the erase button drops the last character, a digit is typed. */
  function PadClick(u: Ui, b: PadButton): (r: Reaction)
    ensures b.EnterButton? ==> r == Reaction(u, [AnswerSubmit])
    ensures b.EraseButton? ==> r == Reaction(u.(answer := Erase(u.answer)), [])
    ensures b.DigitButton? ==> r == TypeDigit(u, b.text)
  {
    match b
    case EnterButton => Reaction(u, [AnswerSubmit])
    case EraseButton => Reaction(u.(answer := Erase(u.answer)), [])
    case DigitButton(c) => TypeDigit(u, c)
  }

  /**
   * The keyboard: nothing unless the game screen is shown; a single digit key types it (while
   * there is room), Enter submits, Backspace erases; every other key is ignored.
   */
  function KeyDown(u: Ui, key: string): (r: Reaction)
    ensures !u.gameShown ==> r == Reaction(u, [])
    ensures u.gameShown && |key| == 1 && IsDigit(key[0]) ==> r == TypeDigit(u, key[0])
    ensures u.gameShown && key == "Enter" ==> r == Reaction(u, [AnswerSubmit])
    ensures u.gameShown && key == "Backspace" ==> r == Reaction(u.(answer := Erase(u.answer)), [])
    ensures u.gameShown && !(|key| == 1 && IsDigit(key[0])) && key != "Enter" && key != "Backspace" ==> r == Reaction(u, [])
  {
    if !u.gameShown then Reaction(u, [])
    else if |key| == 1 && IsDigit(key[0]) then TypeDigit(u, key[0])
    else if key == "Enter" then Reaction(u, [AnswerSubmit])
    else if key == "Backspace" then Reaction(u.(answer := Erase(u.answer)), [])
    else Reaction(u, [])
  }

  /** No input ever makes the answer longer than ten characters. */
  lemma AnswerStaysShort(u: Ui, key: string, b: PadButton)
    requires |u.answer| <= MaxAnswerLength
    ensures |KeyDown(u, key).ui.answer| <= MaxAnswerLength
    ensures |PadClick(u, b).ui.answer| <= MaxAnswerLength
  {
  }

  /** Typing a digit and then erasing restores the answer, when there was room for the digit. */
  lemma EraseUndoesDigit(u: Ui, c: char)
    requires |u.answer| < MaxAnswerLength
    ensures Erase(TypeDigit(u, c).ui.answer) == u.answer
  {
    assert (u.answer + [c])[..|u.answer|] == u.answer;
  }

  /** Digits typed through the keyboard keep the answer all digits, so `getAnswer` returns it untrimmed. */
  lemma DigitKeysKeepDigits(u: Ui, key: string)
    requires AllDigits(u.answer)
    ensures AllDigits(KeyDown(u, key).ui.answer)
  {
    var r := KeyDown(u, key);
    if u.gameShown && key == "Backspace" && |u.answer| > 0 {
      assert r.ui.answer == u.answer[..|u.answer| - 1];
    }
  }

  // ---------------------------------------------------------------- screens

  /** `showGameScreen`: only the game screen is shown, skip and explanation hidden, answer empty. */
  function ShowGameScreen(u: Ui): (r: Ui)
    ensures OneScreen(r) && r.gameShown
    ensures !r.skipShown && !r.explanationShown && r.answer == ""
    ensures r.problemText == u.problemText && r.rankingRows == u.rankingRows
  {
    u.(difficultyShown := false, gameShown := true, progressShown := false, rankingsShown := false,
       skipShown := false, explanationShown := false, answer := "")
  }

  /** `showDifficultySelect`: only the difficulty screen is shown; nothing else changes. */
  function ShowDifficultySelect(u: Ui): (r: Ui)
    ensures OneScreen(r) && r.difficultyShown
    ensures r == u.(difficultyShown := true, gameShown := false, progressShown := false, rankingsShown := false)
  {
    u.(difficultyShown := true, gameShown := false, progressShown := false, rankingsShown := false)
  }

  /** `showProgress`: only the progress screen is shown. */
  function ShowProgress(u: Ui): (r: Ui)
    ensures OneScreen(r) && r.progressShown
    ensures r == u.(difficultyShown := false, gameShown := false, progressShown := true, rankingsShown := false)
  {
    u.(difficultyShown := false, gameShown := false, rankingsShown := false, progressShown := true)
  }

  datatype RankingRow = RankingRow(position: string, score: string, time: string)

  /**
   * One row of the rankings list: `#` and the place counted from one, the correct answers out
   * of 20, and the time as unpadded minutes, a colon and two-digit seconds.
   */
  function RankingRowOf(index: nat, e: QuizRankings.RankEntry): (r: RankingRow)
    ensures r.position == "#" + NatToString(index + 1)
    ensures r.score == IntToString(e.correct) + "/20"
    ensures e.time >= 0 ==> r.time == NatToString(e.time / 60) + ":" + Pad2(NatToString(e.time % 60))
  {
    RankingRow("#" + IntToString(index + 1), IntToString(e.correct) + "/20",
               IntToString(e.time / 60) + ":" + Pad2(IntToString(JsRem(e.time, 60))))
  }

  function RankingRows(rankings: seq<QuizRankings.RankEntry>): (r: seq<RankingRow>)
    ensures |r| == |rankings|
    ensures forall i :: 0 <= i < |r| ==> r[i] == RankingRowOf(i, rankings[i])
  {
    seq(|rankings|, i requires 0 <= i < |rankings| => RankingRowOf(i, rankings[i]))
  }

  /** `showRankings`: the list is rebuilt with one row per entry, and only the rankings screen is shown. */
  function ShowRankings(u: Ui, rankings: seq<QuizRankings.RankEntry>): (r: Ui)
    ensures OneScreen(r) && r.rankingsShown
    ensures |r.rankingRows| == |rankings|
    ensures forall i :: 0 <= i < |rankings| ==> r.rankingRows[i] == RankingRowOf(i, rankings[i])
  {
    u.(rankingRows := RankingRows(rankings),
       difficultyShown := false, gameShown := false, progressShown := false, rankingsShown := true)
  }

  /** A ranking row's time reads back as the entry's seconds. */
  lemma RankingTimeReadsBack(index: nat, e: QuizRankings.RankEntry)
    requires e.time >= 0
    ensures ReadsAsSeconds(RankingRowOf(index, e).time, e.time)
  {
    var q := e.time / 60;
    var m := NatToString(q);
    var s := Pad2(NatToString(e.time % 60));
    Pad2Value(e.time % 60);
    SplitClock(m, s);
    var t := RankingRowOf(index, e).time;
    assert t == m + ":" + s;
    assert DigitsValue(m) == q;
    assert q * 60 + e.time % 60 == e.time;
  }

  /** `displayProblem`: the question is shown, the answer cleared and the explanation hidden. */
  function DisplayProblem(u: Ui, problem: string): (r: Ui)
    ensures r.problemText == problem && r.answer == "" && !r.explanationShown
    ensures r == u.(problemText := problem, answer := "", explanationShown := false)
  {
    u.(problemText := problem, answer := "", explanationShown := false)
  }

  /** `clearAnswer`. */
  function ClearAnswer(u: Ui): (r: Ui)
    ensures r.answer == "" && r == u.(answer := "")
  {
    u.(answer := "")
  }

  /** The four screen switches, named. */
  datatype Show = ShowGame | ShowDifficulty | ShowProgressScreen | ShowRankingsScreen(rankings: seq<QuizRankings.RankEntry>)

  function Apply(u: Ui, s: Show): (r: Ui)
  {
    match s
    case ShowGame => ShowGameScreen(u)
    case ShowDifficulty => ShowDifficultySelect(u)
    case ShowProgressScreen => ShowProgress(u)
    case ShowRankingsScreen(rs) => ShowRankings(u, rs)
  }

  /** After any non-empty sequence of screen switches exactly one screen is shown: the last one asked for. */
  lemma {:induction false} SwitchesLeaveOneScreen(u: Ui, shows: seq<Show>)
    requires |shows| > 0
    ensures var r := ApplyAll(u, shows);
            OneScreen(r)
            && (shows[|shows| - 1].ShowGame? <==> r.gameShown)
            && (shows[|shows| - 1].ShowDifficulty? <==> r.difficultyShown)
            && (shows[|shows| - 1].ShowProgressScreen? <==> r.progressShown)
            && (shows[|shows| - 1].ShowRankingsScreen? <==> r.rankingsShown)
  {
    var front := ApplyAll(u, shows[..|shows| - 1]);
    assert ApplyAll(u, shows) == Apply(front, shows[|shows| - 1]);
  }

  function ApplyAll(u: Ui, shows: seq<Show>): Ui
  {
    if |shows| == 0 then u else Apply(ApplyAll(u, shows[..|shows| - 1]), shows[|shows| - 1])
  }
}
