/**
 * The quiz's progress tracker: running totals, the best challenge time per difficulty, a
 * history capped at the fifty most recent games, and four achievements each awarded once.
 * The clock is a parameter and the saved copy in local storage is left to the caller.
 */
module QuizProgress {
  import opened Wrappers

  datatype Mode = Challenge | Practice

  datatype Achievement = SpeedDemon | PerfectScore | PracticeMaster | Persistent

  datatype HistoryEntry = HistoryEntry(timestamp: int, mode: Mode, difficulty: string, correct: int, total: int, time: int)

  datatype Progress = Progress(
    totalSolved: int,
    correctAnswers: int,
    practiceProblems: int,
    challengesCompleted: int,
    bestTimes: map<string, int>,
    history: seq<HistoryEntry>,
    achievements: seq<Achievement>,
    lastUpdate: int)

  /** What `endGame` reports about a finished game. */
  datatype GameData = GameData(mode: Mode, difficulty: string, correct: int, total: int, time: int, skipped: bool)

  const MaxHistory: nat := 50
  const RecentCount: nat := 10

  /** The tracker's state when nothing is saved: all counts zero, nothing recorded. */
  function InitialProgress(now: int): (p: Progress)
    ensures p.totalSolved == 0 && p.correctAnswers == 0 && p.practiceProblems == 0 && p.challengesCompleted == 0
    ensures p.bestTimes == map[] && p.history == [] && p.achievements == [] && p.lastUpdate == now
  {
    Progress(0, 0, 0, 0, map[], [], [], now)
  }

  /** `loadProgress`: the saved progress, or the initial one when nothing is saved. */
  function LoadProgress(saved: Option<Progress>, now: int): (p: Progress)
    ensures saved.Some? ==> p == saved.value
    ensures saved.None? ==> p == InitialProgress(now)
  {
    match saved
    case Some(q) => q
    case None => InitialProgress(now)
  }

  predicate NoDuplicates<T(==)>(xs: seq<T>)
  {
    forall i, j :: 0 <= i < j < |xs| ==> xs[i] != xs[j]
  }

  /** `awardAchievement`: appended when not yet held, otherwise the list is unchanged. */
  function Award(held: seq<Achievement>, a: Achievement): (r: seq<Achievement>)
    ensures a in r
    ensures a in held ==> r == held
    ensures a !in held ==> r == held + [a]
  {
    if a in held then held else held + [a]
  }

  /** Awarding never duplicates an achievement and never loses one. */
  lemma AwardKeepsSet(held: seq<Achievement>, a: Achievement)
    requires NoDuplicates(held)
    ensures NoDuplicates(Award(held, a))
    ensures held <= Award(held, a)
    ensures forall b :: b in Award(held, a) <==> b in held || b == a
  {
  }

  /** The condition under which each achievement is earned by a game, judged after the counts are updated. */
  predicate Earned(a: Achievement, g: GameData, practiceProblems: int)
  {
    match a
    case SpeedDemon => g.mode == Challenge && g.time < 120
    case PerfectScore => g.mode == Challenge && g.correct == g.total
    case PracticeMaster => practiceProblems >= 100
    case Persistent => g.mode == Challenge && !g.skipped
  }

  /** One check of `checkAchievements`: award `a` when this game earned it. */
  function AwardIfEarned(held: seq<Achievement>, a: Achievement, g: GameData, practiceProblems: int): (r: seq<Achievement>)
    ensures Earned(a, g, practiceProblems) ==> r == Award(held, a)
    ensures !Earned(a, g, practiceProblems) ==> r == held
  {
    if Earned(a, g, practiceProblems) then Award(held, a) else held
  }

  /** One check keeps the list free of duplicates and adds `a` exactly when it is earned. */
  lemma AwardIfEarnedExact(held: seq<Achievement>, a: Achievement, g: GameData, practiceProblems: int)
    requires NoDuplicates(held)
    ensures var r := AwardIfEarned(held, a, g, practiceProblems);
            NoDuplicates(r) && held <= r
            && forall b :: b in r <==> b in held || (b == a && Earned(a, g, practiceProblems))
  {
    AwardKeepsSet(held, a);
  }

  /** `checkAchievements`: the four checks in their order, each awarding when earned. */
  function CheckAchievements(held: seq<Achievement>, g: GameData, practiceProblems: int): (r: seq<Achievement>)
    ensures held <= r
  {
    var a1 := AwardIfEarned(held, SpeedDemon, g, practiceProblems);
    var a2 := AwardIfEarned(a1, PerfectScore, g, practiceProblems);
    var a3 := AwardIfEarned(a2, PracticeMaster, g, practiceProblems);
    AwardIfEarned(a3, Persistent, g, practiceProblems)
  }

  /**
   * After the checks an achievement is held exactly when it was held before or this game earned
   * it; the list stays free of duplicates and keeps the old ones in front.
   */
  lemma CheckAchievementsExact(held: seq<Achievement>, g: GameData, practiceProblems: int)
    requires NoDuplicates(held)
    ensures var r := CheckAchievements(held, g, practiceProblems);
            NoDuplicates(r) && held <= r
            && forall a :: a in r <==> a in held || Earned(a, g, practiceProblems)
  {
    var a1 := AwardIfEarned(held, SpeedDemon, g, practiceProblems);
    AwardIfEarnedExact(held, SpeedDemon, g, practiceProblems);
    var a2 := AwardIfEarned(a1, PerfectScore, g, practiceProblems);
    AwardIfEarnedExact(a1, PerfectScore, g, practiceProblems);
    var a3 := AwardIfEarned(a2, PracticeMaster, g, practiceProblems);
    AwardIfEarnedExact(a2, PracticeMaster, g, practiceProblems);
    AwardIfEarnedExact(a3, Persistent, g, practiceProblems);
    var r := AwardIfEarned(a3, Persistent, g, practiceProblems);
    forall a ensures a in r <==> a in held || Earned(a, g, practiceProblems) {
    }
  }

  /** The last `n` elements (`slice(-n)`), or all of them when there are fewer. */
  function Last<T>(xs: seq<T>, n: nat): (r: seq<T>)
    ensures |r| == if |xs| < n then |xs| else n
    ensures r == xs[|xs| - |r|..]
  {
    if |xs| <= n then xs else xs[|xs| - n..]
  }

  /**
   * `bestTimes[difficulty]` after a challenge: replaced when missing or zero (both falsy) or
   * when the new time is strictly smaller.
   */
  function BestTimes(best: map<string, int>, difficulty: string, time: int): (r: map<string, int>)
    ensures difficulty in r
    ensures forall d :: d != difficulty ==> (d in r <==> d in best) && (d in best ==> r[d] == best[d])
  {
    if difficulty !in best || best[difficulty] == 0 || time < best[difficulty] then best[difficulty := time] else best
  }

  /**
   * An empty (missing or zero) slot takes the new time; a set slot keeps the smaller of the old
   * best and the new time.
   */
  lemma BestTimeIsMinimum(best: map<string, int>, difficulty: string, time: int)
    ensures var r := BestTimes(best, difficulty, time);
            (difficulty !in best || best[difficulty] == 0 ==> r[difficulty] == time)
            && (difficulty in best && best[difficulty] != 0 ==>
                  r[difficulty] <= time && r[difficulty] <= best[difficulty]
                  && (r[difficulty] == time || r[difficulty] == best[difficulty]))
  {
  }

  /**
   * `history.push(entry)` followed by `slice(-50)`: the history ends with the new entry, never
   * holds more than fifty entries once it held at most fifty, and loses only its oldest entry
   * when full.
   */
  function PushHistory(history: seq<HistoryEntry>, entry: HistoryEntry): (r: seq<HistoryEntry>)
    ensures r == Last(history + [entry], MaxHistory)
    ensures |history| <= MaxHistory ==>
              |r| <= MaxHistory && r[|r| - 1] == entry
              && (|history| < MaxHistory ==> r[..|r| - 1] == history)
              && (|history| == MaxHistory ==> r[..|r| - 1] == history[1..])
  {
    if |history| <= MaxHistory then
      LastPush(history, entry, MaxHistory);
      Last(history + [entry], MaxHistory)
    else
      Last(history + [entry], MaxHistory)
  }

  /**
   * `updateStats`: the totals grow by the game's problems and correct answers; a practice game
   * adds its problems to the practice count, a challenge counts as completed and may improve
   * the best time; the game joins the history, which keeps its last fifty entries; then the
   * achievements are checked against the updated counts, so valid progress stays valid and
   * afterwards holds exactly the achievements it held or this game earned.
   */
  function UpdateStats(p: Progress, g: GameData, now: int): (r: Progress)
    ensures r.totalSolved == p.totalSolved + g.total && r.correctAnswers == p.correctAnswers + g.correct
    ensures g.mode == Practice ==> r.practiceProblems == p.practiceProblems + g.total
                                   && r.challengesCompleted == p.challengesCompleted && r.bestTimes == p.bestTimes
    ensures g.mode == Challenge ==> r.practiceProblems == p.practiceProblems
                                    && r.challengesCompleted == p.challengesCompleted + 1
                                    && r.bestTimes == BestTimes(p.bestTimes, g.difficulty, g.time)
    ensures r.history == PushHistory(p.history, HistoryEntry(now, g.mode, g.difficulty, g.correct, g.total, g.time))
    ensures r.achievements == CheckAchievements(p.achievements, g, r.practiceProblems)
    ensures r.lastUpdate == p.lastUpdate
    ensures Valid(p) ==> Valid(r) && p.achievements <= r.achievements
    ensures Valid(p) ==> forall a :: a in r.achievements <==> a in p.achievements || Earned(a, g, r.practiceProblems)
  {
    var counted := p.(totalSolved := p.totalSolved + g.total, correctAnswers := p.correctAnswers + g.correct);
    var byMode := if g.mode == Practice then counted.(practiceProblems := counted.practiceProblems + g.total)
                  else counted.(challengesCompleted := counted.challengesCompleted + 1,
                                bestTimes := BestTimes(counted.bestTimes, g.difficulty, g.time));
    var history := PushHistory(p.history, HistoryEntry(now, g.mode, g.difficulty, g.correct, g.total, g.time));
    var checked := CheckAchievements(p.achievements, g, byMode.practiceProblems);
    assert NoDuplicates(p.achievements) ==>
             NoDuplicates(checked)
             && forall a :: a in checked <==> a in p.achievements || Earned(a, g, byMode.practiceProblems) by {
      if NoDuplicates(p.achievements) {
        CheckAchievementsExact(p.achievements, g, byMode.practiceProblems);
      }
    }
    byMode.(history := history, achievements := checked)
  }

  /** Pushing onto a list of at most `n` and keeping the last `n` drops at most the oldest element. */
  lemma LastPush<T>(xs: seq<T>, e: T, n: nat)
    requires 0 < n && |xs| <= n
    ensures var h := Last(xs + [e], n);
            |h| <= n && |h| > 0 && h[|h| - 1] == e
            && (|xs| < n ==> h[..|h| - 1] == xs)
            && (|xs| == n ==> h[..|h| - 1] == xs[1..])
  {
    var h := Last(xs + [e], n);
    if |xs| == n {
      assert h == (xs + [e])[1..];
      assert h[..|h| - 1] == xs[1..];
    } else {
      assert h == xs + [e];
      assert h[..|h| - 1] == xs;
    }
  }

  /** Valid progress: the achievement list has no duplicates and the history is within its cap. */
  predicate Valid(p: Progress)
  {
    NoDuplicates(p.achievements) && |p.history| <= MaxHistory
  }

  /** Persistent is held after recording a game exactly when it was held or the game was a challenge without a skip. */
  lemma PersistentAfterGame(p: Progress, g: GameData, now: int)
    requires Valid(p)
    ensures Persistent in UpdateStats(p, g, now).achievements
            <==> Persistent in p.achievements || (g.mode == Challenge && !g.skipped)
  {
    assert Earned(Persistent, g, UpdateStats(p, g, now).practiceProblems) <==> g.mode == Challenge && !g.skipped;
  }

  /**
   * A problem solved in practice mode, as the Practice Master achievement evidently expects it
   * to be counted: the practice count grows by one, and Practice Master is awarded once it
   * reaches a hundred. Nothing else changes.
   */
  function SolvePractice(p: Progress): (r: Progress)
    ensures r.practiceProblems == p.practiceProblems + 1
    ensures forall a :: a in r.achievements <==> a in p.achievements || (a == PracticeMaster && p.practiceProblems + 1 >= 100)
    ensures p.achievements <= r.achievements
    ensures r.(practiceProblems := p.practiceProblems, achievements := p.achievements) == p
  {
    var n := p.practiceProblems + 1;
    p.(practiceProblems := n, achievements := if n >= 100 then Award(p.achievements, PracticeMaster) else p.achievements)
  }

  /** `k` practice problems solved one after another. */
  function Repeatedly(p: Progress, k: nat): (r: Progress)
    ensures r.practiceProblems == p.practiceProblems + k
    ensures p.achievements <= r.achievements
    decreases k
  {
    if k == 0 then p else Repeatedly(SolvePractice(p), k - 1)
  }

  /**
   * Solving practice problems until the count reaches a hundred earns Practice Master, whatever
   * the count was below a hundred.
   */
  lemma {:induction false} HundredPracticeSolves(p: Progress, k: nat)
    requires p.practiceProblems < 100 <= p.practiceProblems + k
    ensures PracticeMaster in Repeatedly(p, k).achievements
    decreases k
  {
    if k > 0 {
      var q := SolvePractice(p);
      if p.practiceProblems + 1 >= 100 {
        KeepsMaster(q, k - 1);
      } else {
        HundredPracticeSolves(q, k - 1);
      }
    }
  }

  /** Practice Master, once held, stays held. */
  lemma {:induction false} KeepsMaster(p: Progress, k: nat)
    requires PracticeMaster in p.achievements
    ensures PracticeMaster in Repeatedly(p, k).achievements
    decreases k
  {
    if k > 0 {
      KeepsMaster(SolvePractice(p), k - 1);
    }
  }

  /**
   * The accuracy `getStats` reports: 0 when nothing is solved, otherwise the percentage of
   * correct answers rounded half up, `Math.round(correct / total * 100)`.
   */
  function Accuracy(p: Progress): (a: int)
    ensures p.totalSolved == 0 ==> a == 0
    ensures p.totalSolved > 0 ==>
              2 * p.totalSolved * a <= 200 * p.correctAnswers + p.totalSolved < 2 * p.totalSolved * a + 2 * p.totalSolved
  {
    if p.totalSolved == 0 then 0
    else if p.totalSolved > 0 then (200 * p.correctAnswers + p.totalSolved) / (2 * p.totalSolved)
    else (-200 * p.correctAnswers - p.totalSolved) / (-2 * p.totalSolved)
  }

  /** Accuracy of a record whose correct answers lie within its total is a percentage. */
  lemma AccuracyIsPercentage(p: Progress)
    requires 0 <= p.correctAnswers <= p.totalSolved
    ensures 0 <= Accuracy(p) <= 100
  {
    if p.totalSolved > 0 {
      PercentBound(p.correctAnswers, p.totalSolved, Accuracy(p));
    }
  }

  /** A rounded percentage of a part within its whole lies between 0 and 100. */
  lemma PercentBound(c: int, t: int, a: int)
    requires t > 0 && 0 <= c <= t
    requires 2 * t * a <= 200 * c + t < 2 * t * a + 2 * t
    ensures 0 <= a <= 100
  {
    if a > 100 {
      MulMono(2 * t, 101, a);
      assert false;
    }
    if a < 0 {
      MulMono(2 * t, a + 1, 0);
      assert false;
    }
  }

  lemma MulMono(k: int, x: int, y: int)
    requires k > 0 && x <= y
    ensures k * x <= k * y
  {
    assert k * y - k * x == k * (y - x);
  }

  /** `recentHistory`: the last ten games, or all of them when there are fewer. */
  function RecentHistory(p: Progress): (r: seq<HistoryEntry>)
    ensures |r| <= RecentCount && |r| <= |p.history| && r == p.history[|p.history| - |r|..]
    ensures |p.history| <= RecentCount ==> r == p.history
  {
    Last(p.history, RecentCount)
  }
}
