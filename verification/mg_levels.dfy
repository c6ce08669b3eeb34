/**
 * The second quiz's problem generators and its seven levels. Its arithmetic concepts ask the
 * first quiz's questions, except that multiplication and division write the real signs, and
 * add a visualization; it adds counting sequences by 1, 2,
 * 5 and 10 and number bonds to 10 and 20. Draws are parameters, as in `QuizLevels`; a coin toss
 * `Math.random() < 0.5` is a `bool`.
 */
module MgLevels {
  import opened Wrappers
  import opened Text
  import QuizLevels

  /**
   * A problem's visualization. Only the number line and the blocks are ever drawn; the other
   * kinds are recorded by their type name and values and draw nothing.
   */
  datatype Visual =
    | NumberLine(sequence: seq<int>, stepSize: int, isAscending: bool)
    | Blocks(num1: int, num2: int, total: Option<int>)
    | Undrawn(kind: string, values: seq<int>)

  datatype Problem = Problem(question: string, answer: QuizLevels.Answer, explanation: Option<string>, visual: Visual)

  /** A problem of the first quiz with a visualization and no explanation. */
  function Shown(p: QuizLevels.Problem, v: Visual): (r: Problem)
    ensures r.question == p.question && r.answer == p.answer && r.explanation.None? && r.visual == v
  {
    Problem(p.question, p.answer, None, v)
  }

  function Addition(num1: int, num2: int): (p: Problem)
    requires 0 <= num1 < 11 && 0 <= num2 < 20 - num1
    ensures p.answer == QuizLevels.Num(num1 + num2) && p.visual == Blocks(num1, num2, None)
    ensures p.question == IntToString(num1) + " + " + IntToString(num2) + " = ?"
  {
    Shown(QuizLevels.Addition(num1, num2), Blocks(num1, num2, None))
  }

  function Subtraction(num1: int, num2: int): (p: Problem)
    requires 1 <= num1 <= 20 && 0 <= num2 < num1
    ensures p.answer == QuizLevels.Num(num1 - num2) && p.visual == Blocks(num1, num2, None)
    ensures p.question == IntToString(num1) + " - " + IntToString(num2) + " = ?"
  {
    Shown(QuizLevels.Subtraction(num1, num2), Blocks(num1, num2, None))
  }

  /** The multiplication sign (U+00D7) as the second quiz's level file writes it. */
  const TimesSign: string := "\U{00D7}"
  /** The division sign (U+00F7) as the second quiz's level file writes it. */
  const DivideSign: string := "\U{00F7}"

  function Multiplication(num1: int, num2: int): (p: Problem)
    requires 0 <= num1 < 11 && 0 <= num2 < 11
    ensures p.question == IntToString(num1) + " " + TimesSign + " " + IntToString(num2) + " = ?"
    ensures p.answer == QuizLevels.Num(num1 * num2) && p.explanation.None? && p.visual == Undrawn("arrays", [num1, num2])
  {
    Problem(QuizLevels.OperatorQuestion(num1, TimesSign, num2), QuizLevels.Num(num1 * num2), None,
            Undrawn("arrays", [num1, num2]))
  }

  function Division(divisor: int, quotient: int): (p: Problem)
    requires 1 <= divisor <= 9 && 1 <= quotient <= 10
    ensures p.question == IntToString(divisor * quotient) + " " + DivideSign + " " + IntToString(divisor) + " = ?"
    ensures p.answer == QuizLevels.Num(quotient) && p.explanation.None? && p.visual == Undrawn("groups", [divisor, quotient])
  {
    Problem(QuizLevels.OperatorQuestion(divisor * quotient, DivideSign, divisor), QuizLevels.Num(quotient), None,
            Undrawn("groups", [divisor, quotient]))
  }

  /** The question `a <sign> b = ?` as the digits of `a`, the sign between spaces, and the rest. */
  lemma QuestionParts(a: nat, sign: char, b: nat)
    ensures QuizLevels.OperatorQuestion(a, [sign], b) == NatToString(a) + ([' ', sign, ' '] + (NatToString(b) + " = ?"))
  {
  }

  /** Digits, ` sign `, digits and ` = ?`: the leading digits are the first operand, the ones after the sign the second. */
  lemma SplitAtSign(x: string, sign: char, y: string)
    requires AllDigits(x) && AllDigits(y) && !IsDigit(sign)
    ensures var q := x + ([' ', sign, ' '] + (y + " = ?"));
            LeadingDigits(q) == x && q[|x|..|x| + 3] == [' ', sign, ' '] && LeadingDigits(q[|x| + 3..]) == y
  {
    var rest := y + " = ?";
    var tail := [' ', sign, ' '] + rest;
    LeadingDigitsAppend(x, tail);
    assert (x + tail)[|x|..] == tail;
    assert tail[..3] == [' ', sign, ' '] && tail[3..] == rest;
    LeadingDigitsAppend(y, " = ?");
  }

  /**
   * In `a <sign> b = ?` with a sign that is not a digit, the leading digits read back as `a`, the
   * sign stands between single spaces after them, and the digits after that read back as `b`.
   */
  lemma OperandsOfQuestion(a: nat, sign: char, b: nat)
    requires !IsDigit(sign)
    ensures var q := QuizLevels.OperatorQuestion(a, [sign], b);
            var first := LeadingDigits(q);
            |first| + 3 <= |q| && q[|first|..|first| + 3] == [' ', sign, ' ']
            && DigitsValue(first) == a && DigitsValue(LeadingDigits(q[|first| + 3..])) == b
  {
    QuestionParts(a, sign, b);
    SplitAtSign(NatToString(a), sign, NatToString(b));
  }

  /** The product asked for is the answer: the factors read from the question multiply to it. */
  lemma MultiplicationAnswersQuestion(num1: int, num2: int)
    requires 0 <= num1 < 11 && 0 <= num2 < 11
    ensures var q := Multiplication(num1, num2).question;
            var first := LeadingDigits(q);
            |first| + 3 <= |q| && q[|first|..|first| + 3] == " " + TimesSign + " "
            && DigitsValue(first) * DigitsValue(LeadingDigits(q[|first| + 3..])) == Multiplication(num1, num2).answer.n
  {
    assert " " + TimesSign + " " == [' ', '\U{00D7}', ' '];
    var p := Multiplication(num1, num2);
    ReadOperands(p.question, num1, '\U{00D7}', num2);
    var first := LeadingDigits(p.question);
    Product(DigitsValue(first), DigitsValue(LeadingDigits(p.question[|first| + 3..])), num1, num2, p.answer.n);
  }

  /** The division asked for is exact and yields the answer: the dividend read is the divisor read times the answer. */
  lemma DivisionAnswersQuestion(divisor: int, quotient: int)
    requires 1 <= divisor <= 9 && 1 <= quotient <= 10
    ensures var q := Division(divisor, quotient).question;
            var first := LeadingDigits(q);
            |first| + 3 <= |q| && q[|first|..|first| + 3] == " " + DivideSign + " "
            && DigitsValue(first) == DigitsValue(LeadingDigits(q[|first| + 3..])) * Division(divisor, quotient).answer.n
  {
    assert " " + DivideSign + " " == [' ', '\U{00F7}', ' '];
    QuotientRead(Division(divisor, quotient).question, '\U{00F7}', divisor, quotient);
  }

  /** In `divisor * quotient <sign> divisor = ?`, the dividend read is the divisor read times `quotient`. */
  lemma QuotientRead(q: string, sign: char, divisor: nat, quotient: nat)
    requires !IsDigit(sign) && q == QuizLevels.OperatorQuestion(divisor * quotient, [sign], divisor)
    ensures var first := LeadingDigits(q);
            |first| + 3 <= |q| && q[|first|..|first| + 3] == [' ', sign, ' ']
            && DigitsValue(first) == DigitsValue(LeadingDigits(q[|first| + 3..])) * quotient
  {
    ReadOperands(q, divisor * quotient, sign, divisor);
    var first := LeadingDigits(q);
    Product(DigitsValue(LeadingDigits(q[|first| + 3..])), quotient, divisor, quotient, DigitsValue(first));
  }

  /** `OperandsOfQuestion`, for a question known to have that form. */
  lemma ReadOperands(q: string, a: nat, sign: char, b: nat)
    requires !IsDigit(sign) && q == QuizLevels.OperatorQuestion(a, [sign], b)
    ensures var first := LeadingDigits(q);
            |first| + 3 <= |q| && q[|first|..|first| + 3] == [' ', sign, ' ']
            && DigitsValue(first) == a && DigitsValue(LeadingDigits(q[|first| + 3..])) == b
  {
    OperandsOfQuestion(a, sign, b);
  }

  /** Factors equal to `a` and `b` multiply to `a * b`. */
  lemma Product(x: int, y: int, a: int, b: int, n: int)
    requires x == a && y == b && n == a * b
    ensures x * y == n
  { }

  /**
   * Money: the first quiz's question, with the amount drawn as dollars and cents; the amount
   * shown is the answer in cents.
   */
  function Money(dollars: int, cents: int): (p: Problem)
    requires 1 <= dollars <= 20 && 0 <= cents < 100
    ensures p.question == "How many cents in $" + IntToString(dollars) + "." + Pad2(IntToString(cents)) + "?"
    ensures p.answer == QuizLevels.Num(dollars * 100 + cents) && p.answer.n / 100 == dollars && p.answer.n % 100 == cents
    ensures p.explanation.None? && p.visual == Undrawn("money", [dollars, cents])
  {
    Shown(QuizLevels.Money(dollars, cents), Undrawn("money", [dollars, cents]))
  }

  /**
   * Fractions: the first quiz's question, with the mixed number drawn as numerator, denominator
   * and whole part; the answer is the drawn number to one decimal place, as text.
   */
  function Fractions(denominator: int, numerator: int, wholeNumber: int): (p: Problem)
    requires 2 <= denominator <= 9 && 1 <= numerator <= denominator && 1 <= wholeNumber <= 5
    ensures p.question == IntToString(wholeNumber) + " + " + IntToString(numerator) + "/" + IntToString(denominator)
                          + " = ? (Convert to decimal, round to 1 decimal place)"
    ensures p.explanation.None? && p.visual == Undrawn("fractions", [numerator, denominator, wholeNumber])
    ensures p.answer == QuizLevels.Fixed(QuizLevels.TenthsText(QuizLevels.MixedTenths(wholeNumber, numerator, denominator)))
  {
    Shown(QuizLevels.Fractions(denominator, numerator, wholeNumber),
          Undrawn("fractions", [numerator, denominator, wholeNumber]))
  }

  /** Time: the first quiz's question, with a clock drawn at the hours and minutes; the answer is the clock's minutes. */
  function Time(hours: int, minutes: int): (p: Problem)
    requires 1 <= hours <= 12 && 0 <= minutes < 60
    ensures p.question == "If it's " + IntToString(hours) + ":" + Pad2(IntToString(minutes)) + ", how many minutes past "
                          + IntToString(hours) + ":00?"
    ensures p.explanation.None? && p.visual == Undrawn("clock", [hours, minutes])
    ensures p.answer == QuizLevels.Num(minutes)
  {
    Shown(QuizLevels.Time(hours, minutes), Undrawn("clock", [hours, minutes]))
  }

  /**
   * Word problem: the first quiz's question, with groups drawn by price and quantity; the answer
   * is the price times the quantity drawn.
   */
  function WordProblem(item: int, price: int, quantity: int): (p: Problem)
    requires 0 <= item < |QuizLevels.Items| && 1 <= price <= 5 && 1 <= quantity <= 10
    ensures p.question == "If one " + QuizLevels.Items[item] + " costs $" + IntToString(price) + ", how much do "
                          + IntToString(quantity) + " " + QuizLevels.Items[item] + " cost?"
    ensures p.explanation.None? && p.visual == Undrawn("groups", [price, quantity])
    ensures p.answer == QuizLevels.Num(price * quantity)
  {
    Shown(QuizLevels.WordProblem(item, price, quantity), Undrawn("groups", [price, quantity]))
  }

  /** The step sizes of the four sequence concepts. */
  predicate Multiple(m: int)
  {
    m == 1 || m == 2 || m == 5 || m == 10
  }

  const Limit: int := 100
  const Len: int := 4

  /**
   * The first term: a draw `k` in [0, 100/m - 4) times `m` when ascending, and `4m` more than
   * that when descending.
   */
  function SequenceStart(m: int, isAscending: bool, k: int): (start: int)
    requires Multiple(m) && 0 <= k < Limit / m - Len
    ensures start % m == 0
    ensures isAscending ==> 0 <= start <= Limit - 5 * m
    ensures !isAscending ==> 4 * m <= start <= Limit - m
  {
    if isAscending then k * m else m * Len + k * m
  }

  function SequenceExplanation(m: int, isAscending: bool): string
  {
    var way := if isAscending then "adding" else "subtracting";
    var tail := " Each number is " + way + " " + IntToString(m) + " to get the next number.";
    if m == 1 then "This is a sequence that " + (if isAscending then "increases" else "decreases") + " by 1 each time." + tail
    else if m == 2 then "This is a sequence of even numbers that " + (if isAscending then "increases" else "decreases") + " by 2 each time." + tail
    else "This is a sequence that counts by " + IntToString(m) + "s." + tail
  }

  /**
   * A counting sequence by `m`: four terms from the start, each `m` more (or less) than the one
   * before; the answer is the term that follows, written as the blank `_`.
   */
  function CountingSequence(m: int, isAscending: bool, k: int): (p: Problem)
    requires Multiple(m) && 0 <= k < Limit / m - Len
    ensures p.visual.NumberLine? && p.visual.stepSize == m && p.visual.isAscending == isAscending
    ensures |p.visual.sequence| == 4
    ensures p.answer.Num?
    ensures p.question == "What comes next in this " + (if isAscending then "increasing" else "decreasing")
                          + " sequence " + QuizLevels.JoinNumbers(p.visual.sequence) + ", _"
  {
    var start := SequenceStart(m, isAscending, k);
    var step := if isAscending then m else -m;
    var sequence := QuizLevels.Progression(start, step, 4);
    Problem("What comes next in this " + (if isAscending then "increasing" else "decreasing") + " sequence "
              + QuizLevels.JoinNumbers(sequence) + ", _",
            QuizLevels.Num(start + step * Len),
            Some(SequenceExplanation(m, isAscending)),
            NumberLine(sequence, m, isAscending))
  }

  /**
   * Every counting sequence moves by exactly `m` each time in its direction, and the answer is
   * the term that comes next.
   */
  lemma CountingSequenceSteps(m: int, isAscending: bool, k: int)
    requires Multiple(m) && 0 <= k < Limit / m - Len
    ensures var p := CountingSequence(m, isAscending, k);
            var s := p.visual.sequence;
            (forall i :: 0 <= i < 3 ==> s[i + 1] - s[i] == (if isAscending then m else -m))
            && p.answer.n - s[3] == (if isAscending then m else -m)
  {
    var start := SequenceStart(m, isAscending, k);
    var d := if isAscending then m else -m;
    var s := CountingSequence(m, isAscending, k).visual.sequence;
    assert s == QuizLevels.Progression(start, d, 4);
    assert s[0] == start && s[1] == start + d && s[2] == start + d * 2 && s[3] == start + d * 3;
    assert CountingSequence(m, isAscending, k).answer.n == start + d * 4;
  }

  /**
   * Every term of a counting sequence, and its answer, is a multiple of `m` between 0 and
   * `100 - m`: the sequence never reaches 100.
   */
  lemma CountingSequenceMultiples(m: int, isAscending: bool, k: int)
    requires Multiple(m) && 0 <= k < Limit / m - Len
    ensures var p := CountingSequence(m, isAscending, k);
            var s := p.visual.sequence;
            (forall i :: 0 <= i < 4 ==> 0 <= s[i] <= Limit - m && s[i] % m == 0)
            && 0 <= p.answer.n <= Limit - m && p.answer.n % m == 0
  {
    var start := SequenceStart(m, isAscending, k);
    var d := if isAscending then m else -m;
    var p := CountingSequence(m, isAscending, k);
    assert p.visual.sequence == QuizLevels.Progression(start, d, 4) && p.answer.n == start + d * Len;
    ProgressionStaysInRange(start, m, isAscending);
  }

  /** The four terms from such a start, and the fifth that answers them, all stay in range. */
  lemma ProgressionStaysInRange(t0: int, m: int, up: bool)
    requires Multiple(m) && t0 % m == 0
    requires up ==> 0 <= t0 <= Limit - 5 * m
    requires !up ==> 4 * m <= t0 <= Limit - m
    ensures var d := if up then m else -m;
            var s := QuizLevels.Progression(t0, d, 4);
            (forall i :: 0 <= i < 4 ==> InRange(s[i], m)) && InRange(t0 + d * Len, m)
  {
    var d := if up then m else -m;
    var s := QuizLevels.Progression(t0, d, 4);
    StepsStayInRange(t0, m, up);
    assert s[0] == t0 && s[1] == t0 + d && s[2] == t0 + d + d && s[3] == t0 + d + d + d;
    assert d * Len == d + d + d + d;
  }

  /**
   * From a start that `SequenceStart` can produce, the start and the next four terms, each `m`
   * further on in the direction `up`, are multiples of `m` between 0 and `100 - m`.
   */
  lemma StepsStayInRange(t0: int, m: int, up: bool)
    requires Multiple(m) && t0 % m == 0
    requires up ==> 0 <= t0 <= Limit - 5 * m
    requires !up ==> 4 * m <= t0 <= Limit - m
    ensures var d := if up then m else -m;
            InRange(t0, m) && InRange(t0 + d, m) && InRange(t0 + d + d, m)
            && InRange(t0 + d + d + d, m) && InRange(t0 + d + d + d + d, m)
  {
    var d := if up then m else -m;
    StepKeepsMultiple(t0, m, up);
    StepKeepsMultiple(t0 + d, m, up);
    StepKeepsMultiple(t0 + d + d, m, up);
    StepKeepsMultiple(t0 + d + d + d, m, up);
  }

  /** A term a counting sequence by `m` may show: a multiple of `m` in [0, 100 - m]. */
  predicate InRange(x: int, m: int)
    requires Multiple(m)
  {
    0 <= x <= Limit - m && x % m == 0
  }

  lemma StepKeepsMultiple(x: int, m: int, up: bool)
    requires Multiple(m) && x % m == 0
    ensures (x + (if up then m else -m)) % m == 0
  {
    // For each of the four fixed step sizes the remainder is linear.
    if m == 1 {
    } else if m == 2 {
    } else if m == 5 {
    } else {
    }
  }

  // ---------------------------------------------------------------- number bonds

  /**
   * A number bond to `total` (10 or 20): `known` is drawn from [0, total], the answer is the
   * missing part, and the blank stands first or second as the coin says. The blocks show the two
   * parts in the order of the question, with the total.
   */
  function NumberBond(total: int, known: int, isFirstNumber: bool): (p: Problem)
    requires (total == 10 || total == 20) && 0 <= known <= total
    ensures p.answer == QuizLevels.Num(total - known)
    ensures p.question == (if isFirstNumber then "_ + " + IntToString(known) else IntToString(known) + " + _")
                          + " = " + IntToString(total)
    ensures p.visual.Blocks? && p.visual.total == Some(total)
    ensures (p.visual.num1, p.visual.num2) == (if isFirstNumber then (total - known, known) else (known, total - known))
  {
    var unknown := total - known;
    Problem((if isFirstNumber then "_ + " + IntToString(known) else IntToString(known) + " + _") + " = " + IntToString(total),
            QuizLevels.Num(unknown),
            Some(IntToString(unknown) + " + " + IntToString(known) + " = " + IntToString(total) + " or "
                   + IntToString(known) + " + " + IntToString(unknown) + " = " + IntToString(total)
                   + ". These numbers add up to " + IntToString(total) + "."),
            Blocks(if isFirstNumber then unknown else known, if isFirstNumber then known else unknown, Some(total)))
  }

  /** The two parts a number bond's blocks show add up to the total they are drawn against. */
  lemma NumberBondParts(total: int, known: int, isFirstNumber: bool)
    requires (total == 10 || total == 20) && 0 <= known <= total
    ensures var v := NumberBond(total, known, isFirstNumber).visual;
            0 <= v.num1 && 0 <= v.num2 && v.num1 + v.num2 == v.total.value
  {
  }

  /**
   * Filling a number bond's blank with its answer, as `String.replace('_', ...)` does, gives a
   * true sum: the parts in the question's order, then `= total`.
   */
  lemma NumberBondBlankFilled(total: int, known: int, isFirstNumber: bool)
    requires (total == 10 || total == 20) && 0 <= known <= total
    ensures var p := NumberBond(total, known, isFirstNumber);
            Contains(p.question, "_")
            && ReplaceFirst(p.question, "_", IntToString(p.answer.n))
            == IntToString(p.visual.num1) + " + " + IntToString(p.visual.num2) + " = " + IntToString(total)
  {
    if isFirstNumber {
      FilledFirst(IntToString(known), IntToString(total - known), IntToString(total));
    } else {
      FilledSecond(IntToString(known), IntToString(total - known), IntToString(total));
    }
  }

  lemma FilledFirst(k: string, u: string, t: string)
    requires AllDigits(u)
    ensures Contains("_ + " + k + " = " + t, "_")
    ensures ReplaceFirst("_ + " + k + " = " + t, "_", u) == u + " + " + k + " = " + t
  {
    BlankFirst(" + " + k + " = " + t, u);
    assert "_ + " + k + " = " + t == "_" + (" + " + k + " = " + t);
    assert u + (" + " + k + " = " + t) == u + " + " + k + " = " + t;
  }

  lemma FilledSecond(k: string, u: string, t: string)
    requires AllDigits(k) && AllDigits(u)
    ensures Contains(k + " + _" + " = " + t, "_")
    ensures ReplaceFirst(k + " + _" + " = " + t, "_", u) == k + " + " + u + " = " + t
  {
    assert '_' !in k + " + " by { DigitsNoSymbol(k, '_'); }
    BlankAfter(k + " + ", " = " + t, u);
    assert k + " + _" + " = " + t == (k + " + ") + "_" + (" = " + t);
    assert (k + " + ") + u + (" = " + t) == k + " + " + u + " = " + t;
  }

  /** Replacing a leading blank puts the digits in its place. */
  lemma BlankFirst(rest: string, u: string)
    requires AllDigits(u)
    ensures Contains("_" + rest, "_")
    ensures ReplaceFirst("_" + rest, "_", u) == u + rest
  {
    var q := "_" + rest;
    assert q[0..1] == "_";
    assert OccursAt(q, "_", 0);
    ContainsAt(q, "_", 0);
    DigitsNoSymbol(u, '$');
    ReplaceFirstLiteral(q, "_", u);
  }

  /** Replacing the first blank after a prefix of digits and ` + ` puts the digits in its place. */
  lemma BlankAfter(prefix: string, rest: string, u: string)
    requires '_' !in prefix && AllDigits(u)
    ensures Contains(prefix + "_" + rest, "_")
    ensures ReplaceFirst(prefix + "_" + rest, "_", u) == prefix + u + rest
  {
    var q := prefix + "_" + rest;
    var i := |prefix|;
    assert q[i..i + 1] == "_";
    forall j | 0 <= j < i ensures !OccursAt(q, "_", j) {
      assert q[j..j + 1] == [prefix[j]];
    }
    assert OccursAt(q, "_", i);
    ContainsAt(q, "_", i);
    assert IndexOf(q, "_") == Some(i);
    DigitsNoSymbol(u, '$');
    ReplaceFirstLiteral(q, "_", u);
    assert q[..i] == prefix && q[i + 1..] == rest;
  }

  /** Decimal digits are never the given non-digit character. */
  lemma DigitsNoSymbol(s: string, c: char)
    requires AllDigits(s) && !IsDigit(c)
    ensures c !in s
  {
  }

  // ---------------------------------------------------------------- levels

  datatype Concept = AdditionC | SubtractionC | SequenceOneC | SequenceTwoC | SequenceFiveC | SequenceTenC
                   | MultiplicationC | DivisionC | MoneyC | FractionsC | TimeC | WordProblemsC
                   | NumberBondsTenC | NumberBondsTwentyC

  datatype Level = Level(name: string, problems: seq<Concept>)

  /** The step size of a sequence concept. */
  function SequenceStep(c: Concept): (m: int)
    requires c.SequenceOneC? || c.SequenceTwoC? || c.SequenceFiveC? || c.SequenceTenC?
    ensures Multiple(m)
  {
    match c
    case SequenceOneC => 1
    case SequenceTwoC => 2
    case SequenceFiveC => 5
    case SequenceTenC => 10
  }

  const LevelKeys: seq<string> := ["grade1_1", "grade1_2", "grade1_3", "grade1_4", "grade1_5", "grade2_1", "grade3_1"]

  /** `LEVELS[key]` for the seven keys, none for any other key. */
  function LevelOf(key: string): (r: Option<Level>)
    ensures r.Some? <==> key in LevelKeys
    ensures r.Some? ==> 1 <= |r.value.problems| <= 3
  {
    if key == "grade1_1" then Some(Level("Grade 1 - 1", [SequenceOneC, SequenceTwoC]))
    else if key == "grade1_2" then Some(Level("Grade 1 - 2", [SequenceTwoC, SequenceFiveC, SequenceTenC]))
    else if key == "grade1_3" then Some(Level("Grade 1 - 3", [NumberBondsTenC]))
    else if key == "grade1_4" then Some(Level("Grade 1 - 4", [NumberBondsTenC, NumberBondsTwentyC]))
    else if key == "grade1_5" then Some(Level("Grade 1 - 5", [AdditionC, SubtractionC, NumberBondsTwentyC]))
    else if key == "grade2_1" then Some(Level("Grade 2 - 1", [MultiplicationC, DivisionC, MoneyC]))
    else if key == "grade3_1" then Some(Level("Grade 3 - 1", [FractionsC, TimeC, WordProblemsC]))
    else None
  }

  /** Every concept appears in some level: none is defined without being reachable. */
  lemma EveryConceptReachable(c: Concept)
    ensures exists i :: 0 <= i < |LevelKeys| && c in LevelOf(LevelKeys[i]).value.problems
  {
    var i := match c
      case SequenceOneC => 0
      case SequenceTwoC | SequenceFiveC | SequenceTenC => 1
      case NumberBondsTenC => 2
      case AdditionC | SubtractionC | NumberBondsTwentyC => 4
      case MultiplicationC | DivisionC | MoneyC => 5
      case FractionsC | TimeC | WordProblemsC => 6;
    assert c in LevelOf(LevelKeys[i]).value.problems;
  }
}
