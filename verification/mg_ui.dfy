/**
 * The second quiz's interface. The screens, the rankings list and the clock behave as in the
 * first quiz (`QuizUi`); what differs is that the answer is typed into the question itself:
 * the display is the stored question with its first blank `_`, or else its first `?`, filled
 * by the answer typed so far, or with ` = ` and the answer appended when it has neither.
 */
module MgUi {
  import opened Text
  import QuizUi
  import MgLevels

  /**
   * The interface state: the first quiz's (whose `problemText` is what the display shows and
   * whose `answer` is the answer typed so far) and the question as generated.
   */
  datatype Ui = Ui(base: QuizUi.Ui, original: string)

  /** `currentAnswer || placeholder`: the empty answer shows the placeholder. */
  function OrPlaceholder(answer: string, placeholder: string): (r: string)
    ensures answer != "" ==> r == answer
    ensures answer == "" ==> r == placeholder
  {
    if answer == "" then placeholder else answer
  }

  /** The text `updateProblemDisplay` shows for a non-empty question. */
  function Displayed(question: string, answer: string): (r: string)
    ensures Contains(question, "_") ==> r == ReplaceFirst(question, "_", OrPlaceholder(answer, "_"))
    ensures !Contains(question, "_") && Contains(question, "?") ==> r == ReplaceFirst(question, "?", OrPlaceholder(answer, "?"))
    ensures !Contains(question, "_") && !Contains(question, "?") ==> r == question + " = " + OrPlaceholder(answer, "_")
  {
    if Contains(question, "_") then ReplaceFirst(question, "_", OrPlaceholder(answer, "_"))
    else if Contains(question, "?") then ReplaceFirst(question, "?", OrPlaceholder(answer, "?"))
    else question + " = " + OrPlaceholder(answer, "_")
  }

  /** `updateProblemDisplay`: nothing happens while no question is stored. */
  function UpdateProblemDisplay(u: Ui): (r: Ui)
    ensures u.original == "" ==> r == u
    ensures u.original != "" ==> r == u.(base := u.base.(problemText := Displayed(u.original, u.base.answer)))
    ensures r.base.answer == u.base.answer && r.original == u.original
  {
    if u.original == "" then u else u.(base := u.base.(problemText := Displayed(u.original, u.base.answer)))
  }

  /** Replacing the first occurrence of a one-character pattern by itself changes nothing. */
  lemma ReplaceBySelf(q: string, c: char)
    requires Contains(q, [c]) && c != '$'
    ensures ReplaceFirst(q, [c], [c]) == q
  {
    ReplaceFirstLiteral(q, [c], [c]);
    var i := IndexOf(q, [c]).value;
    assert q[i..i + 1] == [c];
    assert q == q[..i] + q[i..i + 1] + q[i + 1..];
  }

  /** With nothing typed, a question holding a blank or a question mark is shown as it is. */
  lemma EmptyAnswerShowsQuestion(question: string)
    requires Contains(question, "_") || Contains(question, "?")
    ensures Displayed(question, "") == question
  {
    if Contains(question, "_") {
      ReplaceBySelf(question, '_');
    } else {
      ReplaceBySelf(question, '?');
    }
  }

  /**
   * A typed answer of digits lands in the place of the first blank, or of the first question
   * mark when there is no blank, and the rest of the question is kept; a question with neither
   * gets ` = ` and the answer.
   */
  lemma DigitsFillPlaceholder(question: string, answer: string)
    requires AllDigits(answer) && answer != ""
    ensures Contains(question, "_") ==>
              var i := IndexOf(question, "_").value;
              Displayed(question, answer) == question[..i] + answer + question[i + 1..]
    ensures !Contains(question, "_") && Contains(question, "?") ==>
              var i := IndexOf(question, "?").value;
              Displayed(question, answer) == question[..i] + answer + question[i + 1..]
    ensures !Contains(question, "_") && !Contains(question, "?") ==>
              Displayed(question, answer) == question + " = " + answer
  {
    MgLevels.DigitsNoSymbol(answer, '$');
    if Contains(question, "_") {
      ReplaceFirstLiteral(question, "_", answer);
    } else if Contains(question, "?") {
      ReplaceFirstLiteral(question, "?", answer);
    }
  }

  /**
   * Typing the answer to a number bond turns the displayed question into the true sum: the two
   * parts in the question's order, then `= total`.
   */
  lemma NumberBondDisplaysSum(total: int, known: int, isFirstNumber: bool)
    requires (total == 10 || total == 20) && 0 <= known <= total
    ensures var p := MgLevels.NumberBond(total, known, isFirstNumber);
            Displayed(p.question, IntToString(p.answer.n))
            == IntToString(p.visual.num1) + " + " + IntToString(p.visual.num2) + " = " + IntToString(total)
  {
    MgLevels.NumberBondBlankFilled(total, known, isFirstNumber);
  }

  /**
   * The hidden input's `input` event: the last character of its value is typed when it is a
   * digit and the answer is shorter than ten characters; the display follows and "answer-check"
   * is dispatched. Anything else changes nothing.
   */
  function Input(u: Ui, value: string): (r: QuizUi.Reaction)
    ensures |value| > 0 && IsDigit(value[|value| - 1]) && |u.base.answer| < QuizUi.MaxAnswerLength ==>
              var typed := UpdateProblemDisplay(u.(base := u.base.(answer := u.base.answer + [value[|value| - 1]])));
              r == QuizUi.Reaction(typed.base, [QuizUi.AnswerCheck])
    ensures !(|value| > 0 && IsDigit(value[|value| - 1]) && |u.base.answer| < QuizUi.MaxAnswerLength) ==>
              r == QuizUi.Reaction(u.base, [])
  {
    if |value| > 0 && IsDigit(value[|value| - 1]) && |u.base.answer| < QuizUi.MaxAnswerLength then
      var typed := UpdateProblemDisplay(u.(base := u.base.(answer := u.base.answer + [value[|value| - 1]])));
      QuizUi.Reaction(typed.base, [QuizUi.AnswerCheck])
    else QuizUi.Reaction(u.base, [])
  }

  /**
   * The hidden input's `keydown` event: Enter (or the keypad's Enter) submits; Backspace and
   * Delete drop the last character and refresh the display; other keys change nothing.
   */
  function KeyDown(u: Ui, key: string, code: string): (r: QuizUi.Reaction)
    ensures key == "Enter" || code == "NumpadEnter" ==> r == QuizUi.Reaction(u.base, [QuizUi.AnswerSubmit])
    ensures key != "Enter" && code != "NumpadEnter" && (key == "Backspace" || key == "Delete") ==>
              r == QuizUi.Reaction(UpdateProblemDisplay(u.(base := u.base.(answer := QuizUi.Erase(u.base.answer)))).base, [])
    ensures key != "Enter" && code != "NumpadEnter" && key != "Backspace" && key != "Delete" ==>
              r == QuizUi.Reaction(u.base, [])
  {
    if key == "Enter" || code == "NumpadEnter" then QuizUi.Reaction(u.base, [QuizUi.AnswerSubmit])
    else if key == "Backspace" || key == "Delete" then
      QuizUi.Reaction(UpdateProblemDisplay(u.(base := u.base.(answer := QuizUi.Erase(u.base.answer)))).base, [])
    else QuizUi.Reaction(u.base, [])
  }

  /** Typing never makes the answer longer than ten characters, and typed answers stay all digits. */
  lemma InputStaysShortDigits(u: Ui, value: string)
    requires |u.base.answer| <= QuizUi.MaxAnswerLength && AllDigits(u.base.answer)
    ensures |Input(u, value).ui.answer| <= QuizUi.MaxAnswerLength && AllDigits(Input(u, value).ui.answer)
  {
    var a := u.base.answer;
    if |value| > 0 && IsDigit(value[|value| - 1]) && |a| < QuizUi.MaxAnswerLength {
      var typed := a + [value[|value| - 1]];
      assert AllDigits(typed) by {
        forall i | 0 <= i < |typed| ensures IsDigit(typed[i]) {
          if i < |a| { assert typed[i] == a[i]; }
        }
      }
      assert Input(u, value).ui.answer == typed;
    }
  }

  /** The keys never lengthen the answer, and erasing keeps it all digits. */
  lemma KeyDownStaysShortDigits(u: Ui, key: string, code: string)
    requires |u.base.answer| <= QuizUi.MaxAnswerLength && AllDigits(u.base.answer)
    ensures |KeyDown(u, key, code).ui.answer| <= QuizUi.MaxAnswerLength && AllDigits(KeyDown(u, key, code).ui.answer)
  {
    if key != "Enter" && code != "NumpadEnter" && (key == "Backspace" || key == "Delete") {
      QuizUi.EraseKeepsDigits(u.base.answer);
      assert KeyDown(u, key, code).ui.answer == QuizUi.Erase(u.base.answer);
    }
  }

  /** Erasing after typing a digit restores the answer and the display. */
  lemma EraseUndoesInput(u: Ui, value: string)
    requires |value| > 0 && IsDigit(value[|value| - 1]) && |u.base.answer| < QuizUi.MaxAnswerLength
    ensures var typed := Ui(Input(u, value).ui, u.original);
            var erased := KeyDown(typed, "Backspace", "").ui;
            erased.answer == u.base.answer
            && (u.original != "" ==> erased.problemText == Displayed(u.original, u.base.answer))
  {
    var a := u.base.answer + [value[|value| - 1]];
    assert QuizUi.Erase(a) == u.base.answer by { assert a[..|a| - 1] == u.base.answer; }
  }

  /**
   * `displayProblem`: the question is stored, the answer cleared and the display refreshed to
   * show the question with its placeholder; the explanation is hidden.
   */
  function DisplayProblem(u: Ui, problem: string): (r: Ui)
    ensures r.original == problem && r.base.answer == "" && !r.base.explanationShown
    ensures problem != "" ==> r.base.problemText == Displayed(problem, "")
    ensures problem == "" ==> r.base.problemText == u.base.problemText
  {
    var stored := UpdateProblemDisplay(Ui(u.base.(answer := ""), problem));
    stored.(base := stored.base.(explanationShown := false))
  }

  /** A question with a placeholder is shown exactly as generated until something is typed. */
  lemma DisplayedProblemIsQuestion(u: Ui, problem: string)
    requires Contains(problem, "_") || Contains(problem, "?")
    ensures DisplayProblem(u, problem).base.problemText == problem
  {
    EmptyAnswerShowsQuestion(problem);
  }

  /** `showGameScreen`: the first quiz's screen switch, then the display is refreshed for the empty answer. */
  function ShowGameScreen(u: Ui): (r: Ui)
    ensures QuizUi.OneScreen(r.base) && r.base.gameShown && r.base.answer == ""
    ensures !r.base.skipShown && !r.base.explanationShown && r.original == u.original
    ensures u.original != "" ==> r.base.problemText == Displayed(u.original, "")
  {
    UpdateProblemDisplay(u.(base := QuizUi.ShowGameScreen(u.base)))
  }

  /** `showDifficultySelect`: only the difficulty screen is shown, and the answer, question and display are emptied. */
  function ShowDifficultySelect(u: Ui): (r: Ui)
    ensures QuizUi.OneScreen(r.base) && r.base.difficultyShown
    ensures r.base.answer == "" && r.original == "" && r.base.problemText == ""
  {
    Ui(QuizUi.ShowDifficultySelect(u.base).(answer := "", problemText := ""), "")
  }

  /** `clearAnswer`: the answer is emptied and the display refreshed. */
  function ClearAnswer(u: Ui): (r: Ui)
    ensures r.base.answer == "" && r.original == u.original
    ensures u.original != "" ==> r.base.problemText == Displayed(u.original, "")
    ensures u.original == "" ==> r.base.problemText == u.base.problemText
  {
    UpdateProblemDisplay(u.(base := u.base.(answer := "")))
  }

  /** After the reset the display can only change once a question is displayed again. */
  lemma ResetStaysBlank(u: Ui, value: string, key: string, code: string)
    ensures var r := ShowDifficultySelect(u);
            Input(r, value).ui.problemText == "" && KeyDown(r, key, code).ui.problemText == ""
            && ClearAnswer(r).base.problemText == ""
  {
  }
}
