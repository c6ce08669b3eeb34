/**
 * The quiz's challenge rankings: per difficulty, a list of results kept sorted by correct
 * answers (most first) and then by time (fastest first), cut to the best twenty. The list is
 * re-sorted with a stable sort after every push, so results that tie keep their arrival order.
 */
module QuizRankings {
  import opened Seqs

  datatype RankEntry = RankEntry(correct: int, time: int, date: string)

  /** Difficulty to its ranking list. */
  type Rankings = map<string, seq<RankEntry>>

  const MaxRankings: nat := 20

  /**
   * `a` may stay ahead of `b`: the comparator `b.correct - a.correct`, then `a.time - b.time`,
   * is not positive.
   */
  predicate NotWorse(a: RankEntry, b: RankEntry)
  {
    a.correct > b.correct || (a.correct == b.correct && a.time <= b.time)
  }

  predicate Ranked(xs: seq<RankEntry>)
  {
    forall i, j :: 0 <= i < j < |xs| ==> NotWorse(xs[i], xs[j])
  }

  /** How many entries of `xs` may stay ahead of `e`. */
  function CountNotWorse(xs: seq<RankEntry>, e: RankEntry): (n: nat)
    ensures n <= |xs|
  {
    if |xs| == 0 then 0 else (if NotWorse(xs[0], e) then 1 else 0) + CountNotWorse(xs[1..], e)
  }

  /** One step of a stable insertion sort: `e` goes after every entry that may stay ahead of it. */
  function Insert(l: seq<RankEntry>, e: RankEntry): (r: seq<RankEntry>)
    ensures |r| == |l| + 1
  {
    if |l| == 0 then [e]
    else if NotWorse(l[0], e) then [l[0]] + Insert(l[1..], e)
    else [e] + l
  }

  lemma {:induction false} InsertMultiset(l: seq<RankEntry>, e: RankEntry)
    ensures multiset(Insert(l, e)) == multiset(l) + multiset{e}
  {
    if |l| > 0 && NotWorse(l[0], e) {
      InsertMultiset(l[1..], e);
      assert l == [l[0]] + l[1..];
    }
  }

  /** Inserting into a ranked list keeps it ranked; the head is the old head or the new entry. */
  lemma {:induction false} InsertRanked(l: seq<RankEntry>, e: RankEntry)
    requires Ranked(l)
    ensures Ranked(Insert(l, e))
    ensures Insert(l, e)[0] == e || (|l| > 0 && Insert(l, e)[0] == l[0])
  {
    var r := Insert(l, e);
    if |l| > 0 && NotWorse(l[0], e) {
      var t := Insert(l[1..], e);
      InsertRanked(l[1..], e);
      assert r == [l[0]] + t;
      assert NotWorse(l[0], t[0]) by {
        if t[0] != e { assert t[0] == l[1]; }
      }
      forall a, b | 0 <= a < b < |r| ensures NotWorse(r[a], r[b]) {
        assert r[b] == t[b - 1];
        if a > 0 { assert r[a] == t[a - 1]; } else { assert NotWorse(t[0], t[b - 1]) || b == 1; }
      }
    } else if |l| > 0 {
      assert r == [e] + l;
      forall a, b | 0 <= a < b < |r| ensures NotWorse(r[a], r[b]) {
        assert r[b] == l[b - 1];
        if a > 0 { assert r[a] == l[a - 1]; } else { assert NotWorse(l[0], l[b - 1]) || b == 1; }
      }
    }
  }

  /**
   * The stable sort by the rankings comparator: the insertion sort that adds the entries one by
   * one in list order.
   */
  function Sort(xs: seq<RankEntry>): (r: seq<RankEntry>)
    ensures |r| == |xs| && Ranked(r)
    ensures multiset(r) == multiset(xs)
  {
    if |xs| == 0 then []
    else
      var front := xs[..|xs| - 1];
      var last := xs[|xs| - 1];
      var sorted := Sort(front);
      assert xs == front + [last];
      InsertStep(sorted, front, last);
      Insert(sorted, last)
  }

  /** One step of the sort: inserting the next entry into the ranked front ranks the longer list. */
  lemma InsertStep(sorted: seq<RankEntry>, front: seq<RankEntry>, last: RankEntry)
    requires Ranked(sorted) && multiset(sorted) == multiset(front)
    ensures Ranked(Insert(sorted, last))
    ensures multiset(Insert(sorted, last)) == multiset(front + [last])
  {
    InsertRanked(sorted, last);
    InsertMultiset(sorted, last);
  }

  /** In a ranked list the entries that may stay ahead of `e` come first, and `e` goes right after them. */
  lemma {:induction false} InsertPosition(l: seq<RankEntry>, e: RankEntry)
    requires Ranked(l)
    ensures var k := CountNotWorse(l, e);
            Insert(l, e) == l[..k] + [e] + l[k..]
  {
    if |l| > 0 {
      if NotWorse(l[0], e) {
        var t := l[1..];
        InsertPosition(t, e);
        var k := CountNotWorse(t, e);
        assert Insert(l, e) == [l[0]] + (t[..k] + [e] + t[k..]);
        assert l == [l[0]] + t;
        ConsSplit(l[0], t, e, k);
      } else {
        CountBehind(l, e);
        assert l[..0] + [e] + l[0..] == [e] + l;
      }
    }
  }

  /** Putting `x` in front of a list split at `k` splits the longer list at `k + 1`. */
  lemma ConsSplit<T>(x: T, t: seq<T>, e: T, k: nat)
    requires k <= |t|
    ensures [x] + (t[..k] + [e] + t[k..]) == ([x] + t)[..k + 1] + [e] + ([x] + t)[k + 1..]
  {
    assert ([x] + t)[..k + 1] == [x] + t[..k];
    assert ([x] + t)[k + 1..] == t[k..];
  }

  /** When the head of a ranked list ranks below `e`, so does everything after it. */
  lemma {:induction false} CountBehind(l: seq<RankEntry>, e: RankEntry)
    requires Ranked(l) && |l| > 0 && !NotWorse(l[0], e)
    ensures CountNotWorse(l, e) == 0
  {
    if |l| > 1 {
      assert NotWorse(l[0], l[1]);
      CountBehind(l[1..], e);
    }
  }

  lemma {:induction false} CountInsert(l: seq<RankEntry>, x: RankEntry, e: RankEntry)
    ensures CountNotWorse(Insert(l, x), e) == CountNotWorse(l, e) + (if NotWorse(x, e) then 1 else 0)
  {
    if |l| > 0 && NotWorse(l[0], x) {
      CountInsert(l[1..], x, e);
      assert Insert(l, x)[1..] == Insert(l[1..], x);
    } else if |l| > 0 {
      assert Insert(l, x)[1..] == l;
    }
  }

  lemma {:induction false} CountAppend(xs: seq<RankEntry>, x: RankEntry, e: RankEntry)
    ensures CountNotWorse(xs + [x], e) == CountNotWorse(xs, e) + (if NotWorse(x, e) then 1 else 0)
  {
    if |xs| > 0 {
      assert (xs + [x])[1..] == xs[1..] + [x];
      CountAppend(xs[1..], x, e);
    }
  }

  /** Sorting does not change how many entries may stay ahead of `e`. */
  lemma {:induction false} CountSort(xs: seq<RankEntry>, e: RankEntry)
    ensures CountNotWorse(Sort(xs), e) == CountNotWorse(xs, e)
  {
    if |xs| > 0 {
      var front := xs[..|xs| - 1];
      var last := xs[|xs| - 1];
      var d := if NotWorse(last, e) then 1 else 0;
      var sorted := Sort(front);
      assert CountNotWorse(sorted, e) == CountNotWorse(front, e) by { CountSort(front, e); }
      assert CountNotWorse(Insert(sorted, last), e) == CountNotWorse(sorted, e) + d by { CountInsert(sorted, last, e); }
      assert CountNotWorse(xs, e) == CountNotWorse(front, e) + d by {
        CountAppend(front, last, e);
        assert xs == front + [last];
      }
      assert Sort(xs) == Insert(sorted, last);
    }
  }

  /**
   * A result pushed last lands right after every earlier result that may stay ahead of it:
   * the earlier of two tied results keeps the higher place.
   */
  lemma NewEntryPosition(prior: seq<RankEntry>, e: RankEntry)
    ensures var k := CountNotWorse(prior, e);
            Sort(prior + [e]) == Sort(prior)[..k] + [e] + Sort(prior)[k..]
  {
    assert (prior + [e])[..|prior|] == prior;
    CountSort(prior, e);
    InsertPosition(Sort(prior), e);
  }

  lemma TakeMultiset(xs: seq<RankEntry>, n: nat)
    ensures multiset(Take(xs, n)) <= multiset(xs)
    ensures Ranked(xs) ==> Ranked(Take(xs, n))
  {
    var k := |Take(xs, n)|;
    assert xs == xs[..k] + xs[k..];
    assert multiset(xs) == multiset(xs[..k]) + multiset(xs[k..]);
  }

  /** `getRankingsForDifficulty`: the list stored for the difficulty, `[]` when there is none. */
  function GetRankings(rankings: Rankings, difficulty: string): (r: seq<RankEntry>)
    ensures difficulty !in rankings ==> r == []
    ensures difficulty in rankings ==> r == rankings[difficulty]
  {
    if difficulty in rankings then rankings[difficulty] else []
  }

  /**
   * `updateRankings`: the result is pushed onto the difficulty's list (created empty when
   * missing), the list is sorted and cut to the best twenty; other difficulties are untouched.
   */
  function UpdateRankings(rankings: Rankings, difficulty: string, correct: int, time: int, date: string): (r: Rankings)
    ensures difficulty in r
    ensures Ranked(r[difficulty]) && |r[difficulty]| <= MaxRankings
    ensures multiset(r[difficulty]) <= multiset(GetRankings(rankings, difficulty)) + multiset{RankEntry(correct, time, date)}
    ensures |r[difficulty]| == if |GetRankings(rankings, difficulty)| < MaxRankings then |GetRankings(rankings, difficulty)| + 1 else MaxRankings
    ensures forall d :: d != difficulty ==> (d in r <==> d in rankings) && (d in rankings ==> r[d] == rankings[d])
  {
    var pushed := GetRankings(rankings, difficulty) + [RankEntry(correct, time, date)];
    var sorted := Sort(pushed);
    var kept := Take(sorted, MaxRankings);
    TakeMultiset(sorted, MaxRankings);
    rankings[difficulty := kept]
  }

  /**
   * The new result is kept exactly when fewer than twenty earlier results may stay ahead of it,
   * and it then sits right after them.
   */
  lemma NewResultKept(rankings: Rankings, difficulty: string, correct: int, time: int, date: string)
    ensures var e := RankEntry(correct, time, date);
            var k := CountNotWorse(GetRankings(rankings, difficulty), e);
            var list := UpdateRankings(rankings, difficulty, correct, time, date)[difficulty];
            (k < MaxRankings ==> list[k] == e)
            && (k >= MaxRankings ==> list == Sort(GetRankings(rankings, difficulty))[..MaxRankings])
  {
    var e := RankEntry(correct, time, date);
    var prior := GetRankings(rankings, difficulty);
    NewEntryPosition(prior, e);
  }
}
