/**
 * The problem visualizations: a number line for counting sequences and base-ten blocks for
 * sums and number bonds. Only what is drawn is modelled - which lines and cells appear, in
 * which colour, and which markers and arcs the number line carries - not the SVG coordinates.
 */
module QuizVisual {
  import opened Wrappers
  import QuizUi
  import MgLevels

  datatype Colour = FirstColour | SecondColour

  /**
   * One line of a block display: the empty block drawn for zero, a block of ten segments, or a
   * line of unit blocks.
   */
  datatype Line = EmptyLine | TenBlock(segments: seq<Colour>) | UnitLine(blocks: seq<Colour>)

  function Max0(x: int): (r: nat)
    ensures r >= x && (x >= 0 ==> r == x)
  {
    if x > 0 then x else 0
  }

  function Min(a: int, b: int): (r: int)
    ensures r <= a && r <= b && (r == a || r == b)
  {
    if a <= b then a else b
  }

  /** `n` cells of colour `c`. */
  function Repeat(c: Colour, n: nat): (r: seq<Colour>)
    ensures |r| == n
  {
    seq(n, _ => c)
  }

  /** The cells of a line, in drawing order; the empty block is no cell. */
  function Cells(l: Line): seq<Colour>
  {
    match l
    case EmptyLine => []
    case TenBlock(s) => s
    case UnitLine(b) => b
  }

  /** The cells of all lines, in drawing order. */
  function Colours(lines: seq<Line>): seq<Colour>
  {
    if |lines| == 0 then [] else Colours(lines[..|lines| - 1]) + Cells(lines[|lines| - 1])
  }

  lemma ColoursSnoc(lines: seq<Line>, l: Line)
    ensures Colours(lines + [l]) == Colours(lines) + Cells(l)
  {
    assert (lines + [l])[..|lines|] == lines;
  }

  lemma RepeatAdd(c: Colour, a: nat, b: nat)
    ensures Repeat(c, a) + Repeat(c, b) == Repeat(c, a + b)
  {
  }

  /**
   * First-colour cells, then second-colour ones, then first-colour ones again, then second
   * ones, form one run of each when one of the middle runs is empty.
   */
  lemma RepeatJoin(a: nat, b: nat, c: nat, d: nat)
    requires b == 0 || c == 0
    ensures (Repeat(FirstColour, a) + Repeat(SecondColour, b)) + (Repeat(FirstColour, c) + Repeat(SecondColour, d))
            == Repeat(FirstColour, a + c) + Repeat(SecondColour, b + d)
  {
    if b == 0 {
      assert Repeat(SecondColour, b) == [];
      RepeatAdd(FirstColour, a, c);
      assert (Repeat(FirstColour, a) + Repeat(SecondColour, b)) + (Repeat(FirstColour, c) + Repeat(SecondColour, d))
             == (Repeat(FirstColour, a) + Repeat(FirstColour, c)) + Repeat(SecondColour, d);
    } else {
      assert Repeat(FirstColour, c) == [];
      RepeatAdd(SecondColour, b, d);
      assert (Repeat(FirstColour, a) + Repeat(SecondColour, b)) + (Repeat(FirstColour, c) + Repeat(SecondColour, d))
             == Repeat(FirstColour, a) + (Repeat(SecondColour, b) + Repeat(SecondColour, d));
    }
  }

  /**
   * Lines holding `f` first-colour cells at most, then second-colour ones, stay that way when a
   * line continues the count: first-colour cells while some of `f` is left, then second-colour.
   */
  lemma AppendRun(lines: seq<Line>, l: Line, f: nat, done: nat, count: nat)
    requires Colours(lines) == Repeat(FirstColour, Min(f, done)) + Repeat(SecondColour, done - Min(f, done))
    requires Cells(l) == Repeat(FirstColour, Min(count, Max0(f - done)))
                         + Repeat(SecondColour, count - Min(count, Max0(f - done)))
    ensures Colours(lines + [l]) == Repeat(FirstColour, Min(f, done + count))
                                    + Repeat(SecondColour, done + count - Min(f, done + count))
  {
    ColoursSnoc(lines, l);
    var u := Min(count, Max0(f - done));
    RepeatJoin(Min(f, done), done - Min(f, done), u, count - u);
  }

  // ---------------------------------------------------------------- blocks for one number

  function ColourOf(isFirstNumber: bool): Colour
  {
    if isFirstNumber then FirstColour else SecondColour
  }

  /** `k` blocks of ten segments of one colour, each on its own line. */
  function TenBlocks(k: int, c: Colour): (r: seq<Line>)
    ensures |r| == Max0(k)
    ensures forall i :: 0 <= i < |r| ==> r[i] == TenBlock(Repeat(c, 10))
  {
    if k <= 0 then [] else TenBlocks(k - 1, c) + [TenBlock(Repeat(c, 10))]
  }

  /**
   * `createBlocks`: one empty block for zero; otherwise a ten-block for each whole ten
   * (`Math.floor(n / 10)`), then one line of `n % 10` unit blocks when that is positive. A
   * negative number draws nothing.
   */
  function CreateBlocks(n: int, isFirstNumber: bool): (r: seq<Line>)
    ensures n == 0 ==> r == [EmptyLine]
    ensures n < 0 ==> r == []
    ensures n > 0 ==> |r| == n / 10 + (if n % 10 > 0 then 1 else 0)
                      && (forall i :: 0 <= i < n / 10 ==> r[i] == TenBlock(Repeat(ColourOf(isFirstNumber), 10)))
                      && (n % 10 > 0 ==> r[|r| - 1] == UnitLine(Repeat(ColourOf(isFirstNumber), n % 10)))
  {
    if n == 0 then [EmptyLine]
    else
      var ones := QuizUi.JsRem(n, 10);
      TenBlocks(n / 10, ColourOf(isFirstNumber)) + (if ones > 0 then [UnitLine(Repeat(ColourOf(isFirstNumber), ones))] else [])
  }

  lemma {:induction false} TenBlocksCells(k: nat, c: Colour)
    ensures Colours(TenBlocks(k, c)) == Repeat(c, 10 * k)
  {
    if k > 0 {
      TenBlocksCells(k - 1, c);
      ColoursSnoc(TenBlocks(k - 1, c), TenBlock(Repeat(c, 10)));
      RepeatAdd(c, 10 * (k - 1), 10);
    }
  }

  /** The blocks for a number other than zero hold exactly that many cells, all of its colour. */
  lemma BlocksShowNumber(n: nat, isFirstNumber: bool)
    requires n > 0
    ensures Colours(CreateBlocks(n, isFirstNumber)) == Repeat(ColourOf(isFirstNumber), n)
  {
    var c := ColourOf(isFirstNumber);
    var tens := TenBlocks(n / 10, c);
    var ones := n % 10;
    assert n == 10 * (n / 10) + ones;
    assert QuizUi.JsRem(n, 10) == ones;
    assert Colours(tens) == Repeat(c, 10 * (n / 10)) by { TenBlocksCells(n / 10, c); }
    if ones > 0 {
      assert CreateBlocks(n, isFirstNumber) == tens + [UnitLine(Repeat(c, ones))];
      ColoursSnoc(tens, UnitLine(Repeat(c, ones)));
      RepeatAdd(c, 10 * (n / 10), ones);
    } else {
      assert CreateBlocks(n, isFirstNumber) == tens by { assert tens + [] == tens; }
    }
  }

  // ---------------------------------------------------------------- blocks for the total

  /**
   * One run of `count` cells, coloured for the first number while the count `left` still to
   * draw of it is positive; `left` goes down by one with every cell.
   */
  method FillCells(left: int, count: nat) returns (cells: seq<Colour>)
    ensures cells == Repeat(FirstColour, Min(count, Max0(left))) + Repeat(SecondColour, count - Min(count, Max0(left)))
  {
    var u0 := Max0(left);
    var remaining := left;
    cells := [];
    var k := 0;
    while k < count
      invariant 0 <= k <= count
      invariant remaining == left - k
      invariant cells == Repeat(FirstColour, Min(k, u0)) + Repeat(SecondColour, k - Min(k, u0))
    {
      if remaining > 0 {
        RepeatAdd(FirstColour, k, 1);
        cells := cells + [FirstColour];
      } else {
        assert cells + [SecondColour]
               == Repeat(FirstColour, u0) + (Repeat(SecondColour, k - u0) + Repeat(SecondColour, 1));
        RepeatAdd(SecondColour, k - u0, 1);
        cells := cells + [SecondColour];
      }
      remaining := remaining - 1;
      k := k + 1;
    }
  }

  /**
   * The ten-blocks of `createTotalBlocks`: `tens` lines of ten segments, filled from the first
   * number's `num1` cells first; `left` is what is left of the first number afterwards.
   */
  method TenLines(num1: int, tens: int) returns (lines: seq<Line>, left: int)
    ensures |lines| == Max0(tens)
    ensures forall k :: 0 <= k < |lines| ==> lines[k].TenBlock? && |lines[k].segments| == 10
    ensures Max0(left) == Max0(Max0(num1) - 10 * Max0(tens))
    ensures Colours(lines) == Repeat(FirstColour, Min(Max0(num1), 10 * Max0(tens)))
                              + Repeat(SecondColour, 10 * Max0(tens) - Min(Max0(num1), 10 * Max0(tens)))
  {
    var f := Max0(num1);
    lines := [];
    left := num1;
    var i := 0;
    while i < tens
      invariant 0 <= i <= Max0(tens)
      invariant |lines| == i
      invariant Max0(left) == Max0(f - 10 * i)
      invariant forall k :: 0 <= k < i ==> lines[k].TenBlock? && |lines[k].segments| == 10
      invariant Colours(lines) == Repeat(FirstColour, Min(f, 10 * i)) + Repeat(SecondColour, 10 * i - Min(f, 10 * i))
    {
      var segments := FillCells(Min(10, left), 10);
      // The second number's own count is kept by the source as well but never read.
      AppendRun(lines, TenBlock(segments), f, 10 * i, 10);
      lines := lines + [TenBlock(segments)];
      left := Max0(left - 10);
      i := i + 1;
    }
  }

  /** `createTotalBlocks` for a positive total: the ten-blocks, then the unit line if the total is not a whole number of tens. */
  method PositiveTotalBlocks(num1: int, num2: int) returns (lines: seq<Line>)
    requires num1 + num2 > 0
    ensures |lines| == (num1 + num2) / 10 + (if (num1 + num2) % 10 > 0 then 1 else 0)
    ensures forall i :: 0 <= i < (num1 + num2) / 10 ==> lines[i].TenBlock? && |lines[i].segments| == 10
    ensures Colours(lines) == Repeat(FirstColour, Min(Max0(num1), num1 + num2))
                              + Repeat(SecondColour, num1 + num2 - Min(Max0(num1), num1 + num2))
  {
    var total := num1 + num2;
    var tens := total / 10;
    var ones := QuizUi.JsRem(total, 10);
    var left;
    lines, left := TenLines(num1, tens);
    assert total == 10 * tens + ones;
    if ones > 0 {
      var units := FillCells(left, ones);
      AppendRun(lines, UnitLine(units), Max0(num1), 10 * tens, ones);
      lines := lines + [UnitLine(units)];
    }
  }

  /**
   * `createTotalBlocks`: the total `num1 + num2` drawn as in `createBlocks`, the cells coloured
   * for the first number as long as some of it is left to draw. For parts that are not negative,
   * the first `num1` cells take the first number's colour and the remaining `num2` the
   * second's. A negative total leaves both loops empty.
   */
  method CreateTotalBlocks(num1: int, num2: int) returns (lines: seq<Line>)
    ensures num1 + num2 == 0 ==> lines == [EmptyLine]
    ensures num1 + num2 < 0 ==> lines == []
    ensures num1 + num2 > 0 ==>
              |lines| == (num1 + num2) / 10 + (if (num1 + num2) % 10 > 0 then 1 else 0)
              && (forall i :: 0 <= i < (num1 + num2) / 10 ==> lines[i].TenBlock? && |lines[i].segments| == 10)
              && Colours(lines) == Repeat(FirstColour, Min(Max0(num1), num1 + num2))
                                   + Repeat(SecondColour, num1 + num2 - Min(Max0(num1), num1 + num2))
    ensures num1 >= 0 && num2 >= 0 && num1 + num2 > 0 ==>
              Colours(lines) == Repeat(FirstColour, num1) + Repeat(SecondColour, num2)
  {
    var total := num1 + num2;
    if total == 0 {
      lines := [EmptyLine];
    } else if total < 0 {
      lines := [];
    } else {
      lines := PositiveTotalBlocks(num1, num2);
    }
  }

  // ---------------------------------------------------------------- the number line

  /** The marker interval: fives for steps of five or more, ones otherwise. */
  function Interval(stepSize: int): (r: int)
    ensures r == 1 || r == 5
    ensures r == 5 <==> stepSize >= 5
  {
    if stepSize >= 5 then 5 else 1
  }

  /**
   * The markers from `from` up to `endNum` by `interval`: the progression `from`,
   * `from + interval`, ... for as long as it stays within `endNum`.
   */
  function Markers(from: int, endNum: int, interval: int): (r: seq<int>)
    requires interval > 0
    ensures |r| > 0 <==> from <= endNum
    ensures |r| > 0 ==> r[0] == from && r[|r| - 1] + interval > endNum
    ensures forall i :: 0 <= i < |r| ==> from <= r[i] <= endNum
    ensures forall i :: 0 <= i < |r| - 1 ==> r[i + 1] == r[i] + interval
    decreases if from > endNum then 0 else endNum - from + 1
  {
    if from > endNum then [] else [from] + Markers(from + interval, endNum, interval)
  }

  function SeqMin(s: seq<int>): (m: int)
    requires |s| > 0
    ensures m in s && forall i :: 0 <= i < |s| ==> m <= s[i]
  {
    if |s| == 1 then s[0] else Min(s[0], SeqMin(s[1..]))
  }

  function SeqMax(s: seq<int>): (m: int)
    requires |s| > 0
    ensures m in s && forall i :: 0 <= i < |s| ==> s[i] <= m
  {
    if |s| == 1 then s[0] else (var t := SeqMax(s[1..]); if s[0] >= t then s[0] else t)
  }

  /** An arc from one term to the next; `midY` 20 bends it above the line, 80 below. */
  datatype Arrow = Arrow(from: int, to: int, midY: int)

  datatype NumberLineView = NumberLineView(startNum: int, endNum: int, interval: int, markers: seq<int>, arrows: seq<Arrow>)

  /**
   * The markers of a line from `startNum` to `endNum`: from the multiple of the interval at or
   * below the start, every interval, up to the end.
   */
  function LineMarkers(startNum: nat, endNum: int, interval: int): (markers: seq<int>)
    requires interval == 1 || interval == 5
    ensures |markers| > 0 <==> (startNum / interval) * interval <= endNum
    ensures startNum <= endNum ==> |markers| > 0
    ensures |markers| > 0 ==>
              markers[0] <= startNum < markers[0] + interval && markers[|markers| - 1] + interval > endNum
    ensures forall i :: 0 <= i < |markers| ==> markers[i] % interval == 0 && markers[i] <= endNum
    ensures forall i :: 0 <= i < |markers| - 1 ==> markers[i + 1] == markers[i] + interval
  {
    var first := (startNum / interval) * interval;
    FloorToMultiple(startNum, interval);
    MarkersAligned(first, endNum, interval);
    Markers(first, endNum, interval)
  }

  /** One arc from each term to the next, above the line when ascending and below it otherwise. */
  function Arrows(sequence: seq<int>, isAscending: bool): (arrows: seq<Arrow>)
    ensures |arrows| == if |sequence| == 0 then 0 else |sequence| - 1
    ensures forall i :: 0 <= i < |arrows| ==>
              arrows[i].from == sequence[i] && arrows[i].to == sequence[i + 1]
              && (arrows[i].midY == 20 <==> isAscending)
  {
    if |sequence| == 0 then []
    else seq(|sequence| - 1, i requires 0 <= i < |sequence| - 1 =>
               Arrow(sequence[i], sequence[i + 1], if isAscending then 20 else 80))
  }

  /** `max - min` of a non-empty sequence. */
  function Spread(s: seq<int>): (r: nat)
    requires |s| > 0
    ensures r == SeqMax(s) - SeqMin(s)
  {
    assert SeqMin(s) <= s[0] <= SeqMax(s);
    SeqMax(s) - SeqMin(s)
  }

  /**
   * `Math.ceil(range * 0.2)` for a whole, non-negative range: the least whole number whose five
   * times covers the range.
   */
  function Padding(range: nat): (p: nat)
    ensures 5 * p >= range && (p > 0 ==> 5 * (p - 1) < range)
  {
    (range + 4) / 5
  }

  /**
   * `renderNumberLine`: the line runs from the smallest term less a fifth of the spread (rounded
   * up; never below 0) to the largest term plus as much; markers start at the multiple of the
   * interval at or below the start; one arc joins each term to the next, above the line for an
   * ascending sequence and below it otherwise. An empty sequence (whose minimum is Infinity)
   * draws no marker and no arc.
   */
  function RenderNumberLine(sequence: seq<int>, stepSize: int, isAscending: bool): (v: NumberLineView)
    ensures |sequence| == 0 ==> v.markers == []
    ensures |sequence| > 0 ==>
              var lo, hi := SeqMin(sequence), SeqMax(sequence);
              var pad := Padding(Spread(sequence));
              && v.startNum == (if lo - pad > 0 then lo - pad else 0) && v.endNum == hi + pad
              && v.interval == Interval(stepSize)
              && (lo >= 0 ==> v.startNum <= lo) && hi <= v.endNum
              && v.markers == LineMarkers(v.startNum, v.endNum, v.interval)
    ensures v.arrows == Arrows(sequence, isAscending)
  {
    if |sequence| == 0 then NumberLineView(0, 0, Interval(stepSize), [], [])
    else
      var lo := SeqMin(sequence);
      var hi := SeqMax(sequence);
      var padding := Padding(Spread(sequence));
      var startNum := Max0(lo - padding);
      var endNum := hi + padding;
      var interval := Interval(stepSize);
      NumberLineView(startNum, endNum, interval, LineMarkers(startNum, endNum, interval), Arrows(sequence, isAscending))
  }

  /** Rounding down to a multiple of the interval lands at most one interval below. */
  lemma FloorToMultiple(x: nat, interval: int)
    requires interval == 1 || interval == 5
    ensures var f := (x / interval) * interval;
            0 <= f <= x < f + interval && f % interval == 0
  {
    if interval == 5 {
      var q := x / 5;
      assert x == 5 * q + x % 5;
      assert (q * 5) % 5 == 0 by { assert q * 5 == 5 * q + 0; }
    }
  }

  /** A step of the interval keeps the remainder by the interval. */
  lemma ModStep(x: int, interval: int)
    requires interval == 1 || interval == 5
    ensures (x + interval) % interval == x % interval
  {
    if interval == 5 {
      assert x + 5 == 5 * (x / 5 + 1) + x % 5;
    }
  }

  /** The difference of two multiples of the interval is a multiple of it. */
  lemma ModDiff(x: int, y: int, interval: int)
    requires interval == 1 || interval == 5
    requires x % interval == 0 && y % interval == 0
    ensures (x - y) % interval == 0
  {
    if interval == 5 {
      assert x - y == 5 * (x / 5 - y / 5);
    }
  }

  /** Markers starting at a multiple of the interval are all multiples of it. */
  lemma {:induction false} MarkersAligned(from: int, endNum: int, interval: int)
    requires interval == 1 || interval == 5
    requires from % interval == 0
    ensures forall i :: 0 <= i < |Markers(from, endNum, interval)| ==> Markers(from, endNum, interval)[i] % interval == 0
    decreases if from > endNum then 0 else endNum - from + 1
  {
    if from <= endNum {
      var r := Markers(from, endNum, interval);
      var rest := Markers(from + interval, endNum, interval);
      ModStep(from, interval);
      MarkersAligned(from + interval, endNum, interval);
      assert r == [from] + rest;
      forall i | 0 < i < |r| ensures r[i] % interval == 0 {
        assert r[i] == rest[i - 1];
      }
    }
  }

  /** A value within the line that the interval's steps reach from `from` is a marker. */
  lemma MarkerAt(from: int, endNum: int, interval: int, t: int)
    requires interval == 1 || interval == 5
    requires from <= t <= endNum && (t - from) % interval == 0
    ensures t in Markers(from, endNum, interval)
  {
    if interval == 1 {
      MarkerAtOnes(from, endNum, t);
    } else {
      MarkerAtFives(from, endNum, t);
    }
  }

  lemma {:induction false} MarkerAtOnes(from: int, endNum: int, t: int)
    requires from <= t <= endNum
    ensures t in Markers(from, endNum, 1)
    decreases t - from
  {
    if t != from {
      MarkerAtOnes(from + 1, endNum, t);
      assert Markers(from, endNum, 1) == [from] + Markers(from + 1, endNum, 1);
    }
  }

  lemma {:induction false} MarkerAtFives(from: int, endNum: int, t: int)
    requires from <= t <= endNum && (t - from) % 5 == 0
    ensures t in Markers(from, endNum, 5)
    decreases t - from
  {
    if t != from {
      MarkerAtFives(from + 5, endNum, t);
      assert Markers(from, endNum, 5) == [from] + Markers(from + 5, endNum, 5);
    }
  }

  /** Every multiple of the interval between the line's ends is one of its markers. */
  lemma MultipleIsMarker(startNum: nat, endNum: int, interval: int, t: int)
    requires interval == 1 || interval == 5
    requires startNum <= t <= endNum && t % interval == 0
    ensures t in LineMarkers(startNum, endNum, interval)
  {
    var first := (startNum / interval) * interval;
    FloorToMultiple(startNum, interval);
    ModDiff(t, first, interval);
    MarkerAt(first, endNum, interval, t);
  }

  /** Every term of a sequence that is not negative and is a multiple of the interval lies on a marker. */
  lemma TermsOnMarkers(sequence: seq<int>, stepSize: int, isAscending: bool)
    requires forall i :: 0 <= i < |sequence| ==> sequence[i] >= 0 && sequence[i] % Interval(stepSize) == 0
    ensures var v := RenderNumberLine(sequence, stepSize, isAscending);
            forall i :: 0 <= i < |sequence| ==> sequence[i] in v.markers
  {
    var v := RenderNumberLine(sequence, stepSize, isAscending);
    forall i | 0 <= i < |sequence| ensures sequence[i] in v.markers {
      assert SeqMin(sequence) <= sequence[i] <= SeqMax(sequence);
      MultipleIsMarker(v.startNum, v.endNum, v.interval, sequence[i]);
    }
  }

  /** A multiple of a counting step is a multiple of the interval its number line is marked in. */
  lemma StepMultipleOnInterval(x: int, m: int)
    requires MgLevels.Multiple(m) && x % m == 0
    ensures x % Interval(m) == 0
  {
    if m == 10 {
      var q := x / 10;
      assert x == 5 * (2 * q) + 0;
    }
  }

  /**
   * On a counting sequence's number line every term falls on a marker: steps of 1 and 2 are
   * marked in ones, steps of 5 and 10 in fives.
   */
  lemma CountingTermsOnMarkers(m: int, isAscending: bool, k: int)
    requires MgLevels.Multiple(m) && 0 <= k < MgLevels.Limit / m - MgLevels.Len
    ensures var s := MgLevels.CountingSequence(m, isAscending, k).visual.sequence;
            var v := RenderNumberLine(s, m, isAscending);
            forall i :: 0 <= i < |s| ==> s[i] in v.markers
  {
    var s := MgLevels.CountingSequence(m, isAscending, k).visual.sequence;
    MgLevels.CountingSequenceMultiples(m, isAscending, k);
    forall i | 0 <= i < |s| ensures s[i] >= 0 && s[i] % Interval(m) == 0 {
      StepMultipleOnInterval(s[i], m);
    }
    TermsOnMarkers(s, m, isAscending);
  }

  // ---------------------------------------------------------------- the update dispatch

  datatype View = View(
    numberLineShown: bool,
    blocksShown: bool,
    numberLine: NumberLineView,
    firstBlocks: seq<Line>,
    secondBlocks: seq<Line>,
    totalBlocks: seq<Line>)

  /**
   * `update`: both views are hidden; a problem without a visualization, or with one of a kind
   * never drawn, leaves it at that; a number line or blocks are drawn and only their view is
   * shown. Blocks redraw both numbers, and the total only when it is given.
   */
  method Update(v: View, visual: Option<MgLevels.Visual>) returns (r: View)
    ensures visual.None? || visual.value.Undrawn? ==> r == v.(numberLineShown := false, blocksShown := false)
    ensures visual.Some? && visual.value.NumberLine? ==>
              r.numberLineShown && !r.blocksShown
              && r.numberLine == RenderNumberLine(visual.value.sequence, visual.value.stepSize, visual.value.isAscending)
              && r.firstBlocks == v.firstBlocks && r.secondBlocks == v.secondBlocks && r.totalBlocks == v.totalBlocks
    ensures visual.Some? && visual.value.Blocks? ==>
              r.blocksShown && !r.numberLineShown && r.numberLine == v.numberLine
              && r.firstBlocks == CreateBlocks(visual.value.num1, true)
              && r.secondBlocks == CreateBlocks(visual.value.num2, false)
              && (visual.value.total.None? ==> r.totalBlocks == [])
              && (visual.value.total.Some? && visual.value.num1 >= 0 && visual.value.num2 >= 0
                  && visual.value.num1 + visual.value.num2 > 0 ==>
                    Colours(r.totalBlocks) == Repeat(FirstColour, visual.value.num1) + Repeat(SecondColour, visual.value.num2))
  {
    r := v.(numberLineShown := false, blocksShown := false);
    match visual {
      case None =>
      case Some(vis) =>
        match vis {
          case NumberLine(sequence, stepSize, isAscending) =>
            r := r.(numberLine := RenderNumberLine(sequence, stepSize, isAscending), numberLineShown := true);
          case Blocks(num1, num2, total) =>
            var totalLines := [];
            if total.Some? {
              totalLines := CreateTotalBlocks(num1, num2);
            }
            r := r.(firstBlocks := CreateBlocks(num1, true), secondBlocks := CreateBlocks(num2, false),
                    totalBlocks := totalLines, blocksShown := true);
          case Undrawn(_, _) =>
        }
    }
  }

  /** A number bond's total display shows the missing part and the known part in the question's order. */
  method NumberBondTotal(total: int, known: int, isFirstNumber: bool) returns (lines: seq<Line>)
    requires (total == 10 || total == 20) && 0 <= known <= total
    ensures var v := MgLevels.NumberBond(total, known, isFirstNumber).visual;
            Colours(lines) == Repeat(FirstColour, v.num1) + Repeat(SecondColour, v.num2)
            && |Colours(lines)| == total
  {
    var v := MgLevels.NumberBond(total, known, isFirstNumber).visual;
    MgLevels.NumberBondParts(total, known, isFirstNumber);
    lines := CreateTotalBlocks(v.num1, v.num2);
  }
}
