/**
 * The snake game's persistent data over a string-to-string key/value store: the high score, the
 * ten best scores and the settings, each under its own key derived from a prefix.
 */
module SnakeStorage {
  import opened Wrappers
  import opened Text
  import opened Json
  import opened Seqs

  /** The browser's local storage: string keys to string values. */
  type Store = map<string, string>

  datatype Keys = Keys(highScore: string, scores: string, settings: string)

  const DefaultPrefix: string := "slither-clone"

  /** The three keys the storage object derives from its prefix. */
  function KeysFor(prefix: string): (k: Keys)
    ensures k.highScore == prefix + "-highscore"
    ensures k.scores == prefix + "-scores"
    ensures k.settings == prefix + "-settings"
  {
    Keys(prefix + "-highscore", prefix + "-scores", prefix + "-settings")
  }

  /** The three keys never collide, whatever the prefix. */
  lemma KeysDistinct(prefix: string)
    ensures KeysFor(prefix).highScore != KeysFor(prefix).scores
    ensures KeysFor(prefix).highScore != KeysFor(prefix).settings
    ensures KeysFor(prefix).scores != KeysFor(prefix).settings
  {
    var k := KeysFor(prefix);
    var n := |prefix|;
    assert k.highScore[n + 1] == 'h' && k.scores[n + 1] == 's' && k.settings[n + 1] == 's';
    assert k.scores[n + 2] == 'c' && k.settings[n + 2] == 'e';
  }

  /** `localStorage.getItem`: `null` (here `None`) for a missing key. */
  function GetItem(store: Store, key: string): (r: Option<string>)
    ensures r.Some? <==> key in store
    ensures r.Some? ==> r.value == store[key]
  {
    if key in store then Some(store[key]) else None
  }

  // ---------------------------------------------------------------- high score

  /**
   * `getHighScore`: 0 when nothing (or the empty string) is stored, otherwise `parseInt` of the
   * stored text; `None` stands for NaN.
   */
  function GetHighScore(store: Store, k: Keys): (r: Option<int>)
    ensures k.highScore !in store ==> r == Some(0)
    ensures k.highScore in store && store[k.highScore] != "" ==> r == ParseInt(store[k.highScore])
  {
    match GetItem(store, k.highScore)
    case None => Some(0)
    case Some(v) => if v == "" then Some(0) else ParseInt(v)
  }

  /** `score > currentHighScore`, where a comparison with NaN is false. */
  predicate Beats(score: int, high: Option<int>)
  {
    high.Some? && score > high.value
  }

  /** A stored score reads back as the same number. */
  lemma HighScoreRoundTrip(store: Store, k: Keys, score: nat)
    ensures GetHighScore(store[k.highScore := NatToString(score)], k) == Some(score)
  {
    ParseNatToString(score);
  }

  // ---------------------------------------------------------------- score table

  datatype ScoreEntry = ScoreEntry(score: int, date: string)

  predicate SortedDesc(xs: seq<ScoreEntry>)
  {
    forall i, j :: 0 <= i < j < |xs| ==> xs[i].score >= xs[j].score
  }

  /** How many entries score at least `s`. */
  function CountAtLeast(xs: seq<ScoreEntry>, s: int): (n: nat)
    ensures n <= |xs|
  {
    if |xs| == 0 then 0 else (if xs[0].score >= s then 1 else 0) + CountAtLeast(xs[1..], s)
  }

  /**
   * Places `e` after every entry scoring at least as much: one step of a stable insertion sort
   * by descending score.
   */
  function Insert(l: seq<ScoreEntry>, e: ScoreEntry): (r: seq<ScoreEntry>)
    ensures |r| == |l| + 1
  {
    if |l| == 0 then [e]
    else if l[0].score >= e.score then [l[0]] + Insert(l[1..], e)
    else [e] + l
  }

  /** Inserting adds exactly the one entry. */
  lemma {:induction false} InsertMultiset(l: seq<ScoreEntry>, e: ScoreEntry)
    ensures multiset(Insert(l, e)) == multiset(l) + multiset{e}
  {
    if |l| > 0 && l[0].score >= e.score {
      InsertMultiset(l[1..], e);
      assert l == [l[0]] + l[1..];
    }
  }

  /** Inserting into a sorted list keeps it sorted; the head is the old head or the new entry. */
  lemma {:induction false} InsertSorted(l: seq<ScoreEntry>, e: ScoreEntry)
    requires SortedDesc(l)
    ensures SortedDesc(Insert(l, e))
    ensures Insert(l, e)[0] == e || (|l| > 0 && Insert(l, e)[0] == l[0])
  {
    var r := Insert(l, e);
    if |l| > 0 && l[0].score >= e.score {
      var t := Insert(l[1..], e);
      InsertSorted(l[1..], e);
      assert r == [l[0]] + t;
      assert l[0].score >= t[0].score by {
        if t[0] != e { assert t[0] == l[1]; }
      }
      forall a, b | 0 <= a < b < |r| ensures r[a].score >= r[b].score {
        assert r[b] == t[b - 1];
        if a > 0 { assert r[a] == t[a - 1]; } else { assert t[0].score >= t[b - 1].score || b == 1; }
      }
    } else if |l| > 0 {
      assert r == [e] + l;
      forall a, b | 0 <= a < b < |r| ensures r[a].score >= r[b].score {
        assert r[b] == l[b - 1];
        if a > 0 { assert r[a] == l[a - 1]; } else { assert l[0].score >= l[b - 1].score || b == 1; }
      }
    }
  }

  /**
   * `scores.sort((a, b) => b.score - a.score)`: the sort is stable, so entries of equal score keep
   * their order; this is the insertion sort that adds the entries one by one in list order.
   */
  function SortDesc(xs: seq<ScoreEntry>): (r: seq<ScoreEntry>)
    ensures |r| == |xs| && SortedDesc(r)
    ensures multiset(r) == multiset(xs)
  {
    if |xs| == 0 then []
    else
      var front := xs[..|xs| - 1];
      var last := xs[|xs| - 1];
      var sorted := SortDesc(front);
      assert xs == front + [last];
      InsertStep(sorted, front, last);
      Insert(sorted, last)
  }

  /** One step of the sort: inserting the next entry into the sorted front sorts the longer list. */
  lemma InsertStep(sorted: seq<ScoreEntry>, front: seq<ScoreEntry>, last: ScoreEntry)
    requires SortedDesc(sorted) && multiset(sorted) == multiset(front)
    ensures SortedDesc(Insert(sorted, last))
    ensures multiset(Insert(sorted, last)) == multiset(front + [last])
  {
    InsertSorted(sorted, last);
    InsertMultiset(sorted, last);
  }

  /** In a list sorted by descending score, the entries scoring at least `s` come first. */
  lemma {:induction false} InsertPosition(l: seq<ScoreEntry>, e: ScoreEntry)
    requires SortedDesc(l)
    ensures var k := CountAtLeast(l, e.score);
            Insert(l, e) == l[..k] + [e] + l[k..]
  {
    if |l| > 0 {
      if l[0].score >= e.score {
        var t := l[1..];
        InsertPosition(t, e);
        var k := CountAtLeast(t, e.score);
        assert Insert(l, e) == [l[0]] + (t[..k] + [e] + t[k..]);
        assert l == [l[0]] + t;
        ConsSplit(l[0], t, e, k);
      } else {
        CountBelow(l, e.score);
        assert l[..0] + [e] + l[0..] == [e] + l;
      }
    }
  }

  /** Putting `x` in front of a list split at `k` splits the longer list at `k + 1`. */
  lemma ConsSplit<T>(x: T, t: seq<T>, e: T, k: nat)
    requires k <= |t|
    ensures [x] + (t[..k] + [e] + t[k..]) == ([x] + t)[..k + 1] + [e] + ([x] + t)[k + 1..]
  {
    assert ([x] + t)[..k + 1] == [x] + t[..k];
    assert ([x] + t)[k + 1..] == t[k..];
  }

  /** When the head of a sorted list scores below `s`, nothing in it reaches `s`. */
  lemma {:induction false} CountBelow(l: seq<ScoreEntry>, s: int)
    requires SortedDesc(l) && |l| > 0 && l[0].score < s
    ensures CountAtLeast(l, s) == 0
  {
    if |l| > 1 {
      assert l[1].score <= l[0].score;
      CountBelow(l[1..], s);
    }
  }

  /** How many entries reach a score depends only on which entries there are. */
  lemma {:induction false} CountInsert(l: seq<ScoreEntry>, e: ScoreEntry, s: int)
    ensures CountAtLeast(Insert(l, e), s) == CountAtLeast(l, s) + (if e.score >= s then 1 else 0)
  {
    if |l| > 0 && l[0].score >= e.score {
      CountInsert(l[1..], e, s);
      assert Insert(l, e)[1..] == Insert(l[1..], e);
    } else if |l| > 0 {
      assert Insert(l, e)[1..] == l;
    }
  }

  lemma {:induction false} CountSort(xs: seq<ScoreEntry>, s: int)
    ensures CountAtLeast(SortDesc(xs), s) == CountAtLeast(xs, s)
  {
    if |xs| > 0 {
      var front := xs[..|xs| - 1];
      var last := xs[|xs| - 1];
      var d := if last.score >= s then 1 else 0;
      var sorted := SortDesc(front);
      assert CountAtLeast(sorted, s) == CountAtLeast(front, s) by { CountSort(front, s); }
      assert CountAtLeast(Insert(sorted, last), s) == CountAtLeast(sorted, s) + d by { CountInsert(sorted, last, s); }
      assert CountAtLeast(xs, s) == CountAtLeast(front, s) + d by {
        CountAppend(front, last, s);
        assert xs == front + [last];
      }
      assert SortDesc(xs) == Insert(sorted, last);
    }
  }

  lemma {:induction false} CountAppend(xs: seq<ScoreEntry>, e: ScoreEntry, s: int)
    ensures CountAtLeast(xs + [e], s) == CountAtLeast(xs, s) + (if e.score >= s then 1 else 0)
  {
    if |xs| > 0 {
      assert (xs + [e])[1..] == xs[1..] + [e];
      CountAppend(xs[1..], e, s);
    }
  }

  /**
   * The score pushed last lands right after every older entry that scores at least as much:
   * that is the stability of the sort.
   */
  lemma NewEntryPosition(prior: seq<ScoreEntry>, e: ScoreEntry)
    ensures var k := CountAtLeast(prior, e.score);
            SortDesc(prior + [e]) == SortDesc(prior)[..k] + [e] + SortDesc(prior)[k..]
  {
    assert (prior + [e])[..|prior|] == prior;
    CountSort(prior, e.score);
    InsertPosition(SortDesc(prior), e);
  }

  const MaxScores: nat := 10

  /** `getScores`: the parsed list, `[]` when nothing is stored, and a syntax error for bad text. */
  function GetScores(store: Store, k: Keys, parse: string -> Option<seq<ScoreEntry>>): (r: Result<seq<ScoreEntry>, string>)
    ensures k.scores !in store || store[k.scores] == "" ==> r == Success([])
    ensures k.scores in store && store[k.scores] != "" ==>
              (r.Success? <==> parse(store[k.scores]).Some?)
              && (r.Success? ==> r.value == parse(store[k.scores]).value)
  {
    match GetItem(store, k.scores)
    case None => Success([])
    case Some(v) =>
      if v == "" then Success([])
      else match parse(v)
           case None => Failure("SyntaxError: JSON.parse: unexpected character")
           case Some(xs) => Success(xs)
  }

  /**
   * The list `saveScore` writes: the stored entries with the new one pushed last, sorted by
   * descending score and cut to ten. It keeps the new entry whenever fewer than ten older
   * entries score at least as much.
   */
  function TopScores(prior: seq<ScoreEntry>, e: ScoreEntry): (w: seq<ScoreEntry>)
    ensures SortedDesc(w)
    ensures |w| == (if |prior| + 1 < MaxScores then |prior| + 1 else MaxScores)
    ensures multiset(w) <= multiset(prior) + multiset{e}
    ensures CountAtLeast(prior, e.score) < MaxScores ==> e in w
  {
    var sorted := SortDesc(prior + [e]);
    TakeSorted(sorted, MaxScores);
    TopKeepsNewEntry(prior, e);
    Take(sorted, MaxScores)
  }

  /** A prefix of a sorted list is sorted and holds only entries of the list. */
  lemma TakeSorted(xs: seq<ScoreEntry>, n: nat)
    requires SortedDesc(xs)
    ensures SortedDesc(Take(xs, n)) && multiset(Take(xs, n)) <= multiset(xs)
  {
    var top := Take(xs, n);
    assert xs == top + xs[|top|..];
    forall i, j | 0 <= i < j < |top| ensures top[i].score >= top[j].score {
      assert top[i] == xs[i] && top[j] == xs[j];
    }
  }

  /** The first step of `saveScore`: the high score is written only when the new score beats it. */
  function RaiseHighScore(store: Store, k: Keys, score: int): (r: Store)
    ensures Beats(score, GetHighScore(store, k)) ==> GetItem(r, k.highScore) == Some(IntToString(score))
    ensures !Beats(score, GetHighScore(store, k)) ==> r == store
    ensures forall key :: key != k.highScore ==> GetItem(r, key) == GetItem(store, key)
  {
    if Beats(score, GetHighScore(store, k)) then store[k.highScore := IntToString(score)] else store
  }

  /** What `saveScore` leaves behind: the store, and the list it wrote or the error it raised. */
  datatype Saved = Saved(store: Store, written: Result<seq<ScoreEntry>, string>)

  /** The second step of `saveScore`: read the list, rank the new entry into it and write it back. */
  function WriteTopScores(store: Store, k: Keys, e: ScoreEntry,
                          parse: string -> Option<seq<ScoreEntry>>, encode: seq<ScoreEntry> -> string): (r: Saved)
    ensures r.written.Success? <==> GetScores(store, k, parse).Success?
    ensures r.written.Success? ==>
              r.written.value == TopScores(GetScores(store, k, parse).value, e)
              && GetItem(r.store, k.scores) == Some(encode(r.written.value))
    ensures r.written.Failure? ==> r.store == store
    ensures forall key :: key != k.scores ==> GetItem(r.store, key) == GetItem(store, key)
  {
    match GetScores(store, k, parse)
    case Failure(err) => Saved(store, Failure(err))
    case Success(prior) =>
      var top := TopScores(prior, e);
      Saved(store[k.scores := encode(top)], Success(top))
  }

  /** Reading the list depends on nothing but what the scores key holds. */
  lemma ScoresReadOwnKey(a: Store, b: Store, k: Keys, parse: string -> Option<seq<ScoreEntry>>)
    requires GetItem(a, k.scores) == GetItem(b, k.scores)
    ensures GetScores(a, k, parse) == GetScores(b, k, parse)
  {
  }

  /**
   * `saveScore`: the high score is raised first when the new score beats it; then the new entry
   * joins the stored list, which is ranked by `TopScores` and written back. A stored list that
   * does not parse raises after the high score was written.
   */
  function SaveScore(store: Store, k: Keys, score: int, date: string,
                     parse: string -> Option<seq<ScoreEntry>>, encode: seq<ScoreEntry> -> string): (r: Saved)
    requires k.highScore != k.scores
    ensures GetItem(r.store, k.highScore) == GetItem(RaiseHighScore(store, k, score), k.highScore)
    ensures r.written.Success? <==> GetScores(store, k, parse).Success?
    ensures r.written.Success? ==>
              r.written.value == TopScores(GetScores(store, k, parse).value, ScoreEntry(score, date))
              && GetItem(r.store, k.scores) == Some(encode(r.written.value))
    ensures r.written.Failure? ==> GetItem(r.store, k.scores) == GetItem(store, k.scores)
    ensures forall key :: key != k.highScore && key != k.scores ==> GetItem(r.store, key) == GetItem(store, key)
  {
    var raised := RaiseHighScore(store, k, score);
    ScoresReadOwnKey(raised, store, k, parse);
    WriteTopScores(raised, k, ScoreEntry(score, date), parse, encode)
  }

  /** An entry ranking among the first ten survives the cut. */
  lemma TopKeepsNewEntry(prior: seq<ScoreEntry>, e: ScoreEntry)
    ensures CountAtLeast(prior, e.score) < MaxScores ==> e in Take(SortDesc(prior + [e]), MaxScores)
  {
    var sorted := SortDesc(prior + [e]);
    var top := Take(sorted, MaxScores);
    var k := CountAtLeast(prior, e.score);
    if k < MaxScores {
      NewEntryPosition(prior, e);
      CountSort(prior, e.score);
      assert sorted[k] == e;
      assert top[k] == e;
    }
  }

  // ---------------------------------------------------------------- settings

  const DefaultSettings: seq<Member> := [
    Member("sound", JBool(true)),
    Member("vibration", JBool(true)),
    Member("difficulty", JStr("normal"))
  ]

  /** `obj[key] = v` on an object: an existing property keeps its place, a new one goes last. */
  function Put(ms: seq<Member>, key: string, v: Json): (r: seq<Member>)
    ensures Lookup(r, key) == Some(v)
    ensures forall other :: other != key ==> Lookup(r, other) == Lookup(ms, other)
  {
    if |ms| == 0 then [Member(key, v)]
    else if ms[0].key == key then [Member(key, v)] + ms[1..]
    else
      var t := Put(ms[1..], key, v);
      assert forall other :: other != ms[0].key ==> Lookup([ms[0]] + t, other) == Lookup(t, other);
      [ms[0]] + t
  }

  /** The value of the last member named `key`, which is the one a spread leaves in force. */
  function LookupLast(ms: seq<Member>, key: string): (r: Option<Json>)
    ensures r.None? <==> Lookup(ms, key).None?
  {
    if |ms| == 0 then None
    else
      var t := LookupLast(ms[..|ms| - 1], key);
      if ms[|ms| - 1].key == key then Some(ms[|ms| - 1].value)
      else
        assert Lookup(ms, key).None? <==> Lookup(ms[..|ms| - 1], key).None?;
        t
  }

  /** `{...target, ...src}`: the members of `src` assigned one after another. */
  function Spread(target: seq<Member>, src: seq<Member>): seq<Member>
    decreases |src|
  {
    if |src| == 0 then target
    else Put(Spread(target, src[..|src| - 1]), src[|src| - 1].key, src[|src| - 1].value)
  }

  /** A spread overrides field by field: the source's value where it has the key, the target's elsewhere. */
  lemma {:induction false} SpreadOverrides(target: seq<Member>, src: seq<Member>, key: string)
    ensures Lookup(Spread(target, src), key) ==
              (if LookupLast(src, key).Some? then LookupLast(src, key) else Lookup(target, key))
  {
    if |src| > 0 {
      SpreadOverrides(target, src[..|src| - 1], key);
    }
  }

  /** The own enumerable properties a spread copies from a parsed value. */
  function SpreadMembers(v: Json): (ms: seq<Member>)
    ensures v.JObj? ==> ms == v.members
    ensures v.JNull? || v.JBool? || v.JNum? ==> ms == []
  {
    match v
    case JObj(ms) => ms
    case JArr(items) => seq(|items|, i requires 0 <= i < |items| => Member(NatToString(i), items[i]))
    case JStr(s) => seq(|s|, i requires 0 <= i < |s| => Member(NatToString(i), JStr([s[i]])))
    case JNull => []
    case JBool(_) => []
    case JNum(_) => []
  }

  /**
   * `getSettings`: the defaults, overridden field by field by whatever is stored; a stored text
   * that does not parse raises a syntax error.
   */
  function GetSettings(store: Store, k: Keys, parse: string -> Option<Json>): (r: Result<seq<Member>, string>)
    ensures k.settings !in store || store[k.settings] == "" ==> r == Success(DefaultSettings)
    ensures k.settings in store && store[k.settings] != "" ==>
              (r.Success? <==> parse(store[k.settings]).Some?)
              && (r.Success? ==> r.value == Spread(DefaultSettings, SpreadMembers(parse(store[k.settings]).value)))
  {
    match GetItem(store, k.settings)
    case None => Success(DefaultSettings)
    case Some(v) =>
      if v == "" then Success(DefaultSettings)
      else match parse(v)
           case None => Failure("SyntaxError: JSON.parse: unexpected character")
           case Some(j) => Success(Spread(DefaultSettings, SpreadMembers(j)))
  }

  /** Every setting reads as the stored value when one is stored, and as the default otherwise. */
  lemma SettingsMerge(store: Store, k: Keys, parse: string -> Option<Json>, key: string)
    requires GetSettings(store, k, parse).Success?
    ensures var stored := if k.settings in store && store[k.settings] != ""
                          then SpreadMembers(parse(store[k.settings]).value) else [];
            Lookup(GetSettings(store, k, parse).value, key) ==
              (if LookupLast(stored, key).Some? then LookupLast(stored, key) else Lookup(DefaultSettings, key))
  {
    if k.settings in store && store[k.settings] != "" {
      SpreadOverrides(DefaultSettings, SpreadMembers(parse(store[k.settings]).value), key);
    }
  }

  /** `saveSettings`: the settings object is serialised under the settings key. */
  function SaveSettings(store: Store, k: Keys, settings: seq<Member>, stringify: Json -> string): (r: Store)
    ensures GetItem(r, k.settings) == Some(stringify(JObj(settings)))
    ensures forall key :: key != k.settings ==> GetItem(r, key) == GetItem(store, key)
  {
    store[k.settings := stringify(JObj(settings))]
  }

  /** `clearData`: the three keys are removed and every other key is kept. */
  function ClearData(store: Store, k: Keys): (r: Store)
    ensures k.highScore !in r && k.scores !in r && k.settings !in r
    ensures forall key :: key != k.highScore && key != k.scores && key != k.settings ==> GetItem(r, key) == GetItem(store, key)
  {
    store - {k.highScore, k.scores, k.settings}
  }

  /** After `clearData` every reader reports its default. */
  lemma ClearedReadsDefaults(store: Store, k: Keys, scoresParse: string -> Option<seq<ScoreEntry>>,
                             settingsParse: string -> Option<Json>)
    ensures GetHighScore(ClearData(store, k), k) == Some(0)
    ensures GetScores(ClearData(store, k), k, scoresParse) == Success([])
    ensures GetSettings(ClearData(store, k), k, settingsParse) == Success(DefaultSettings)
  {
  }
}
