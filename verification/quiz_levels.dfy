/**
 * The first quiz's problem generators and its three levels. Every generator is a pure function of
 * its random draws: a draw `Math.floor(Math.random() * k)` is a parameter in [0, k), and a draw
 * shifted by `+ 1` is a parameter in [1, k].
 */
module QuizLevels {
  import opened Wrappers
  import opened Text
  import QuizUi

  /**
   * A problem's expected answer: a number for every concept except fractions, whose answer is the
   * string `toFixed(1)` produces.
   */
  datatype Answer = Num(n: int) | Fixed(text: string)

  datatype Problem = Problem(question: string, answer: Answer)

  /** The decimal texts of the numbers joined by `", "`, as `Array.join(', ')` writes them. */
  function JoinNumbers(xs: seq<int>): (r: string)
    ensures |xs| == 0 <==> r == ""
  {
    if |xs| == 0 then ""
    else if |xs| == 1 then IntToString(xs[0])
    else JoinNumbers(xs[..|xs| - 1]) + ", " + IntToString(xs[|xs| - 1])
  }

  /** Addition: `num1` in [0, 10], `num2` in [0, 19 - num1]; the sum stays below 20. */
  function Addition(num1: int, num2: int): (p: Problem)
    requires 0 <= num1 < 11 && 0 <= num2 < 20 - num1
    ensures p.answer == Num(num1 + num2) && 0 <= p.answer.n <= 19
    ensures p.question == IntToString(num1) + " + " + IntToString(num2) + " = ?"
  {
    Problem(IntToString(num1) + " + " + IntToString(num2) + " = ?", Num(num1 + num2))
  }

  /** Subtraction: `num1` in [1, 20] and `num2` in [0, num1 - 1], so the difference is positive. */
  function Subtraction(num1: int, num2: int): (p: Problem)
    requires 1 <= num1 <= 20 && 0 <= num2 < num1
    ensures p.answer == Num(num1 - num2) && 1 <= p.answer.n <= 20
    ensures p.question == IntToString(num1) + " - " + IntToString(num2) + " = ?"
  {
    Problem(IntToString(num1) + " - " + IntToString(num2) + " = ?", Num(num1 - num2))
  }

  /** The first `len` terms of the progression from `start` by `step`. */
  function Progression(start: int, step: int, len: nat): (r: seq<int>)
    ensures |r| == len
    ensures forall i :: 0 <= i < len ==> r[i] == start + step * i
  {
    if len == 0 then [] else Progression(start, step, len - 1) + [start + step * (len - 1)]
  }

  /**
   * Sequence: four terms from `start` in [1, 5] by `step` in [1, 3]; the answer is the fifth term.
   */
  function Sequence(start: int, step: int): (p: Problem)
    requires 1 <= start <= 5 && 1 <= step <= 3
    ensures p.answer == Num(start + 4 * step) && 5 <= p.answer.n <= 17
    ensures p.question == "What comes next? " + JoinNumbers(Progression(start, step, 4)) + ", ?"
  {
    Problem("What comes next? " + JoinNumbers(Progression(start, step, 4)) + ", ?", Num(start + step * 4))
  }

  /** The shown terms and the answer form one progression: the answer is the term after the last. */
  lemma SequenceAnswerIsNextTerm(start: int, step: int)
    requires 1 <= start <= 5 && 1 <= step <= 3
    ensures Progression(start, step, 5) == Progression(start, step, 4) + [Sequence(start, step).answer.n]
    ensures Sequence(start, step).answer.n - Progression(start, step, 4)[3] == step
  {
  }

  /**
   * The operator text the multiplication question carries. The level file holds the UTF-8 bytes
   * of the multiplication sign (U+00D7), C3 97, decoded as TIS-620 and saved again as UTF-8:
   * U+0E23 followed by U+0097.
   */
  const TimesSign: string := "\U{0E23}\U{0097}"

  /** The operator text the division question carries: the bytes C3 B7 of the division sign (U+00F7) decoded the same way, U+0E23 U+0E17. */
  const DivideSign: string := "\U{0E23}\U{0E17}"

  /** The question `a <sign> b = ?` that the multiplication and division generators build. */
  function OperatorQuestion(a: int, sign: string, b: int): string
  {
    IntToString(a) + " " + sign + " " + IntToString(b) + " = ?"
  }

  /** Multiplication: both factors in [0, 10]. */
  function Multiplication(num1: int, num2: int): (p: Problem)
    requires 0 <= num1 < 11 && 0 <= num2 < 11
    ensures p.answer == Num(num1 * num2) && 0 <= p.answer.n <= 100
    ensures p.question == IntToString(num1) + " " + TimesSign + " " + IntToString(num2) + " = ?"
  {
    Problem(OperatorQuestion(num1, TimesSign, num2), Num(num1 * num2))
  }

  /**
   * Division: the dividend is built as `divisor * quotient` with `divisor` in [1, 9] and
   * `quotient` in [1, 10], so the division is always exact.
   */
  function Division(divisor: int, quotient: int): (p: Problem)
    requires 1 <= divisor <= 9 && 1 <= quotient <= 10
    ensures p.answer == Num(quotient) && 1 <= p.answer.n <= 10
    ensures p.question == IntToString(divisor * quotient) + " " + DivideSign + " " + IntToString(divisor) + " = ?"
  {
    Problem(OperatorQuestion(divisor * quotient, DivideSign, divisor), Num(quotient))
  }

  /** The dividend shown divides exactly by the divisor, giving the expected answer. */
  lemma DivisionIsExact(divisor: int, quotient: int)
    requires 1 <= divisor <= 9 && 1 <= quotient <= 10
    ensures (divisor * quotient) % divisor == 0
    ensures (divisor * quotient) / divisor == Division(divisor, quotient).answer.n
  {
    // One case per divisor keeps the arithmetic linear.
    if divisor == 1 {
      assert (1 * quotient) % 1 == 0 && (1 * quotient) / 1 == quotient;
    } else if divisor == 2 {
      assert (2 * quotient) % 2 == 0 && (2 * quotient) / 2 == quotient;
    } else if divisor == 3 {
      assert (3 * quotient) % 3 == 0 && (3 * quotient) / 3 == quotient;
    } else if divisor == 4 {
      assert (4 * quotient) % 4 == 0 && (4 * quotient) / 4 == quotient;
    } else if divisor == 5 {
      assert (5 * quotient) % 5 == 0 && (5 * quotient) / 5 == quotient;
    } else if divisor == 6 {
      assert (6 * quotient) % 6 == 0 && (6 * quotient) / 6 == quotient;
    } else if divisor == 7 {
      assert (7 * quotient) % 7 == 0 && (7 * quotient) / 7 == quotient;
    } else if divisor == 8 {
      assert (8 * quotient) % 8 == 0 && (8 * quotient) / 8 == quotient;
    } else {
      assert (9 * quotient) % 9 == 0 && (9 * quotient) / 9 == quotient;
    }
  }

  /** Money: `dollars` in [1, 20] and `cents` in [0, 99], asked as a dollar amount with two-digit cents. */
  function Money(dollars: int, cents: int): (p: Problem)
    requires 1 <= dollars <= 20 && 0 <= cents < 100
    ensures p.answer == Num(dollars * 100 + cents)
    ensures p.answer.n / 100 == dollars && p.answer.n % 100 == cents
    ensures p.question == "How many cents in $" + IntToString(dollars) + "." + Pad2(IntToString(cents)) + "?"
  {
    Problem("How many cents in $" + IntToString(dollars) + "." + Pad2(IntToString(cents)) + "?", Num(dollars * 100 + cents))
  }

  /**
   * `x.toFixed(1)` for x = num / den >= 0: the tenths nearest to x, a tie going to the larger.
   * For the fractions generated here the only ties are at .25 and .75, which a double holds
   * exactly, so the rational rounding is the floating-point one.
   */
  function RoundTenths(num: nat, den: nat): (t: nat)
    requires den > 0
    ensures 2 * den * t <= 20 * num + den < 2 * den * t + 2 * den
  {
    (20 * num + den) / (2 * den)
  }

  /** The text `toFixed(1)` writes for `t` tenths: whole part, a point, one digit. */
  function TenthsText(t: nat): (r: string)
    ensures |r| >= 3 && r[|r| - 2] == '.' && IsDigit(r[|r| - 1])
  {
    NatToString(t / 10) + "." + [DigitChar(t % 10)]
  }

  /** The tenths nearest to the mixed number `wholeNumber + numerator / denominator`, a tie going up. */
  function MixedTenths(wholeNumber: int, numerator: int, denominator: int): (t: nat)
    requires 1 <= wholeNumber && 1 <= numerator && 2 <= denominator
    ensures 2 * denominator * t <= 20 * (wholeNumber * denominator + numerator) + denominator < 2 * denominator * t + 2 * denominator
  {
    RoundTenths(wholeNumber * denominator + numerator, denominator)
  }

  /**
   * Fractions: `wholeNumber` in [1, 5] plus `numerator / denominator` with `denominator` in [2, 9]
   * and `numerator` in [1, denominator]; the answer is the sum to one decimal place, as text.
   */
  function Fractions(denominator: int, numerator: int, wholeNumber: int): (p: Problem)
    requires 2 <= denominator <= 9 && 1 <= numerator <= denominator && 1 <= wholeNumber <= 5
    ensures p.answer.Fixed?
    ensures p.answer.text == TenthsText(MixedTenths(wholeNumber, numerator, denominator))
    ensures p.question == IntToString(wholeNumber) + " + " + IntToString(numerator) + "/" + IntToString(denominator)
                          + " = ? (Convert to decimal, round to 1 decimal place)"
  {
    Problem(IntToString(wholeNumber) + " + " + IntToString(numerator) + "/" + IntToString(denominator)
              + " = ? (Convert to decimal, round to 1 decimal place)",
            Fixed(TenthsText(MixedTenths(wholeNumber, numerator, denominator))))
  }

  /** Time: `hours` in [1, 12] and `minutes` in [0, 59]; the answer is the minutes past the hour. */
  function Time(hours: int, minutes: int): (p: Problem)
    requires 1 <= hours <= 12 && 0 <= minutes < 60
    ensures p.answer == Num(minutes) && 0 <= p.answer.n <= 59
    ensures p.question == "If it's " + IntToString(hours) + ":" + Pad2(IntToString(minutes)) + ", how many minutes past "
                          + IntToString(hours) + ":00?"
  {
    Problem("If it's " + IntToString(hours) + ":" + Pad2(IntToString(minutes)) + ", how many minutes past "
              + IntToString(hours) + ":00?", Num(minutes))
  }

  /** The clock in the time question shows the minutes as two digits, and they read back as the answer. */
  lemma TimeQuestionShowsMinutes(hours: int, minutes: int)
    requires 1 <= hours <= 12 && 0 <= minutes < 60
    ensures var p := Time(hours, minutes);
            var at := |"If it's " + IntToString(hours) + ":"|;
            at + 2 <= |p.question| && AllDigits(p.question[at..at + 2]) && DigitsValue(p.question[at..at + 2]) == p.answer.n
  {
    MinutesRead(Time(hours, minutes).question, hours, minutes);
  }

  /** The two characters after `If it's <hours>:` in the time question read as `minutes`. */
  lemma MinutesRead(q: string, hours: int, minutes: int)
    requires 0 <= minutes < 60
    requires q == "If it's " + IntToString(hours) + ":" + Pad2(IntToString(minutes)) + ", how many minutes past "
                  + IntToString(hours) + ":00?"
    ensures var at := |"If it's " + IntToString(hours) + ":"|;
            at + 2 <= |q| && AllDigits(q[at..at + 2]) && DigitsValue(q[at..at + 2]) == minutes
  {
    QuizUi.Pad2Value(minutes);
    SecondOfFive("If it's " + IntToString(hours) + ":", Pad2(IntToString(minutes)), ", how many minutes past ",
                 IntToString(hours), ":00?");
  }

  /** In `a + b + c + d + e`, the characters after `a` are those of `b`. */
  lemma SecondOfFive(a: string, b: string, c: string, d: string, e: string)
    ensures var s := a + b + c + d + e;
            |a| + |b| <= |s| && s[|a|..|a| + |b|] == b
  {
    var s := a + b + c + d + e;
    PrefixOfConcat(a + b + c + d, e);
    PrefixOfConcat(a + b + c, d);
    PrefixOfConcat(a + b, c);
    assert s[..|a + b|] == a + b;
    assert (a + b)[|a|..] == b;
  }

  const Items: seq<string> := ["apples", "oranges", "books", "pencils"]

  /**
   * Word problem: one of four items, `price` in [1, 5] and `quantity` in [1, 10]; the answer is
   * the total cost.
   */
  function WordProblem(item: int, price: int, quantity: int): (p: Problem)
    requires 0 <= item < |Items| && 1 <= price <= 5 && 1 <= quantity <= 10
    ensures p.answer == Num(price * quantity) && 1 <= p.answer.n <= 50
    ensures p.question == "If one " + Items[item] + " costs $" + IntToString(price) + ", how much do "
                          + IntToString(quantity) + " " + Items[item] + " cost?"
  {
    Problem("If one " + Items[item] + " costs $" + IntToString(price) + ", how much do " + IntToString(quantity)
              + " " + Items[item] + " cost?", Num(price * quantity))
  }

  /** The concepts the levels refer to. */
  datatype Concept = AdditionC | SubtractionC | SequenceC | MultiplicationC | DivisionC | MoneyC
                   | FractionsC | TimeC | WordProblemsC

  datatype Level = Level(name: string, problems: seq<Concept>)

  /** `LEVELS[difficulty]`: the three levels by key, none for any other key. */
  function LevelOf(difficulty: string): (r: Option<Level>)
    ensures r.Some? <==> difficulty in {"easy", "medium", "hard"}
    ensures r.Some? ==> |r.value.problems| == 3
  {
    if difficulty == "easy" then Some(Level("Easy (Grade 1)", [AdditionC, SubtractionC, SequenceC]))
    else if difficulty == "medium" then Some(Level("Medium (Grade 2)", [MultiplicationC, DivisionC, MoneyC]))
    else if difficulty == "hard" then Some(Level("Hard (Grade 3)", [FractionsC, TimeC, WordProblemsC]))
    else None
  }

  /** The three levels share no concept, and together they list each concept once. */
  lemma LevelsPartitionConcepts(c: Concept)
    ensures var inEasy := c in LevelOf("easy").value.problems;
            var inMedium := c in LevelOf("medium").value.problems;
            var inHard := c in LevelOf("hard").value.problems;
            (inEasy || inMedium || inHard) && !(inEasy && inMedium) && !(inEasy && inHard) && !(inMedium && inHard)
  {
  }
}
