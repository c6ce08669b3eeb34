/**
 * The JavaScript string operations the modelled programs rely on, written out so that their
 * edge cases are explicit: white space as `\s` and `trim` define it, `indexOf`/`includes`,
 * `replace` with a string pattern (first occurrence only, with `$`-patterns expanded in the
 * replacement), `split(/\s+/)`, decimal number formatting and `parseInt`.
 */
module Text {
  import opened Wrappers

  /** JavaScript's WhiteSpace and LineTerminator code points: what `\s` matches and `trim` removes. */
  predicate IsSpace(c: char)
  {
    c == '\t' || c == '\n' || c == '\U{000B}' || c == '\U{000C}' || c == '\r' || c == ' '
    || c == '\U{00A0}' || c == '\U{1680}' || ('\U{2000}' <= c <= '\U{200A}')
    || c == '\U{2028}' || c == '\U{2029}' || c == '\U{202F}' || c == '\U{205F}'
    || c == '\U{3000}' || c == '\U{FEFF}'
  }

  predicate NoSpace(s: string)
  {
    forall i :: 0 <= i < |s| ==> !IsSpace(s[i])
  }

  predicate AllSpace(s: string)
  {
    forall i :: 0 <= i < |s| ==> IsSpace(s[i])
  }

  predicate IsDigit(c: char)
  {
    '0' <= c <= '9'
  }

  predicate AllDigits(s: string)
  {
    forall i :: 0 <= i < |s| ==> IsDigit(s[i])
  }

  // ---------------------------------------------------------------- trimming

  /** `s.trimStart()`: the suffix of `s` left after dropping leading white space. */
  function TrimStart(s: string): (r: string)
    ensures |r| <= |s| && r == s[|s| - |r|..]
    ensures AllSpace(s[..|s| - |r|])
    ensures r == [] || !IsSpace(r[0])
  {
    if |s| > 0 && IsSpace(s[0]) then TrimStart(s[1..]) else s
  }

  /** `s.trimEnd()`: the prefix of `s` left after dropping trailing white space. */
  function TrimEnd(s: string): (r: string)
    ensures |r| <= |s| && r == s[..|r|]
    ensures AllSpace(s[|r|..])
    ensures r == [] || !IsSpace(r[|r| - 1])
  {
    if |s| > 0 && IsSpace(s[|s| - 1]) then
      var r := TrimEnd(s[..|s| - 1]);
      assert s[|r|..] == s[..|s| - 1][|r|..] + [s[|s| - 1]];
      r
    else s
  }

  /** `s.trim()`: `s` without white space at either end. */
  function Trim(s: string): (r: string)
    ensures r == [] || (!IsSpace(r[0]) && !IsSpace(r[|r| - 1]))
    ensures |r| <= |s|
  {
    var t := TrimStart(s);
    var r := TrimEnd(t);
    assert r != [] ==> r[0] == t[0];
    r
  }

  /** Trimming empties exactly the strings made only of white space. */
  lemma TrimEmpty(s: string)
    ensures Trim(s) == [] <==> AllSpace(s)
  {
    var t := TrimStart(s);
    var r := TrimEnd(t);
    assert s == s[..|s| - |t|] + t;
    if r == [] {
      assert t[|r|..] == t;
      assert t == [];
      forall i | 0 <= i < |s| ensures IsSpace(s[i]) {
        assert s[i] == s[..|s| - |t|][i];
      }
    } else {
      assert r[0] == t[0];
      assert s[|s| - |t|] == t[0];
    }
  }

  /** Trimming leaves a string that already has no white space at its ends as it is. */
  lemma TrimNoEdgeSpace(s: string)
    requires s == [] || (!IsSpace(s[0]) && !IsSpace(s[|s| - 1]))
    ensures Trim(s) == s
  {
  }

  // ---------------------------------------------------------------- search and replace

  predicate OccursAt(s: string, pat: string, i: int)
  {
    0 <= i && i + |pat| <= |s| && s[i..i + |pat|] == pat
  }

  /** The first index at or after `from` where `pat` occurs in `s`. */
  function IndexOfFrom(s: string, pat: string, from: nat): (r: Option<nat>)
    decreases |s| - from
    ensures r.Some? ==> from <= r.value && OccursAt(s, pat, r.value)
    ensures r.Some? ==> forall j :: from <= j < r.value ==> !OccursAt(s, pat, j)
    ensures r.None? ==> forall j :: from <= j ==> !OccursAt(s, pat, j)
  {
    if from + |pat| > |s| then None
    else if s[from..from + |pat|] == pat then Some(from)
    else IndexOfFrom(s, pat, from + 1)
  }

  /** `s.indexOf(pat)`, with -1 read as `None`. */
  function IndexOf(s: string, pat: string): (r: Option<nat>)
    ensures r.Some? ==> OccursAt(s, pat, r.value) && forall j :: 0 <= j < r.value ==> !OccursAt(s, pat, j)
    ensures r.None? ==> forall j :: !OccursAt(s, pat, j)
  {
    IndexOfFrom(s, pat, 0)
  }

  /** `s.includes(pat)`. */
  predicate Contains(s: string, pat: string)
  {
    IndexOf(s, pat).Some?
  }

  lemma ContainsAt(s: string, pat: string, i: int)
    requires OccursAt(s, pat, i)
    ensures Contains(s, pat)
  {
  }

  /** A string without the character `pat[0]` does not contain `pat`. */
  lemma NotContainsFirstChar(s: string, pat: string)
    requires |pat| > 0 && pat[0] !in s
    ensures !Contains(s, pat)
  {
    forall j | 0 <= j && j + |pat| <= |s| ensures !OccursAt(s, pat, j) {
      assert s[j..j + |pat|][0] == s[j];
    }
  }

  /**
   * The replacement text `String.prototype.replace` inserts for one match (GetSubstitution in
   * ECMAScript with no capture groups): `$$` stands for `$`, `$&` for the matched text, `` $` ``
   * for the text before the match and `$'` for the text after it; everything else is literal.
   */
  function Expand(rep: string, matched: string, before: string, after: string): (r: string)
    ensures '$' !in rep ==> r == rep
  {
    if |rep| == 0 then ""
    else if rep[0] == '$' && |rep| >= 2 && rep[1] == '$' then "$" + Expand(rep[2..], matched, before, after)
    else if rep[0] == '$' && |rep| >= 2 && rep[1] == '&' then matched + Expand(rep[2..], matched, before, after)
    else if rep[0] == '$' && |rep| >= 2 && rep[1] == '`' then before + Expand(rep[2..], matched, before, after)
    else if rep[0] == '$' && |rep| >= 2 && rep[1] == '\'' then after + Expand(rep[2..], matched, before, after)
    else [rep[0]] + Expand(rep[1..], matched, before, after)
  }

  /** `s.replace(pat, rep)` with a string pattern: only the first occurrence is replaced. */
  function ReplaceFirst(s: string, pat: string, rep: string): (r: string)
    ensures !Contains(s, pat) ==> r == s
  {
    match IndexOf(s, pat)
    case None => s
    case Some(i) => s[..i] + Expand(rep, pat, s[..i], s[i + |pat|..]) + s[i + |pat|..]
  }

  /**
   * When the replacement holds no `$`, replacing the first occurrence splices `rep` in at the
   * first index where `pat` occurs, and keeps the text around it.
   */
  lemma ReplaceFirstLiteral(s: string, pat: string, rep: string)
    requires Contains(s, pat) && '$' !in rep
    ensures var i := IndexOf(s, pat).value;
            ReplaceFirst(s, pat, rep) == s[..i] + rep + s[i + |pat|..]
  {
  }

  /** `s.replace(/c/g, rep)`: every occurrence of the character `c` becomes `rep`. */
  function ReplaceEveryChar(s: string, c: char, rep: string): (r: string)
    ensures c !in rep ==> c !in r
    ensures c !in s ==> r == s
  {
    if |s| == 0 then ""
    else (if s[0] == c then rep else [s[0]]) + ReplaceEveryChar(s[1..], c, rep)
  }

  lemma ReplaceEveryCharAppend(a: string, b: string, c: char, rep: string)
    ensures ReplaceEveryChar(a + b, c, rep) == ReplaceEveryChar(a, c, rep) + ReplaceEveryChar(b, c, rep)
  {
    if |a| > 0 {
      assert (a + b)[1..] == a[1..] + b;
      ReplaceEveryCharAppend(a[1..], b, c, rep);
    } else {
      assert a + b == b;
    }
  }

  // ---------------------------------------------------------------- splitting and joining

  /** The index of the first white-space character of `s`, or `|s|` when there is none. */
  function FirstSpace(s: string): (k: nat)
    ensures k <= |s| && NoSpace(s[..k])
    ensures k < |s| ==> IsSpace(s[k])
  {
    if |s| == 0 || IsSpace(s[0]) then 0
    else
      var k := 1 + FirstSpace(s[1..]);
      assert s[..k] == [s[0]] + s[1..][..k - 1];
      k
  }

  /**
   * `s.split(/\s+/)`: the pieces of `s` between maximal runs of white space, with an empty
   * piece before a leading run and after a trailing one.
   */
  function SplitSpaces(s: string): (r: seq<string>)
    decreases |s|
    ensures |r| >= 1
    ensures forall i :: 0 <= i < |r| ==> NoSpace(r[i])
  {
    var k := FirstSpace(s);
    if k == |s| then [s] else [s[..k]] + SplitSpaces(TrimStart(s[k..]))
  }

  /** `words.join(sep)`. */
  function Join(words: seq<string>, sep: string): (r: string)
    ensures |words| == 1 ==> r == words[0]
  {
    if |words| == 0 then ""
    else if |words| == 1 then words[0]
    else words[0] + sep + Join(words[1..], sep)
  }

  lemma JoinNoSpace(words: seq<string>, sep: string)
    requires NoSpace(sep) && forall i :: 0 <= i < |words| ==> NoSpace(words[i])
    ensures NoSpace(Join(words, sep))
  {
    if |words| > 1 {
      JoinNoSpace(words[1..], sep);
    }
  }

  /** `s.replace(/\s+/g, rep)`: each maximal white-space run becomes one `rep`. */
  function ReplaceSpaceRuns(s: string, rep: string): string
  {
    Join(SplitSpaces(s), rep)
  }

  /** Replacing every white-space run by a replacement without white space leaves none. */
  lemma ReplaceSpaceRunsNoSpace(s: string, rep: string)
    requires NoSpace(rep)
    ensures NoSpace(ReplaceSpaceRuns(s, rep))
  {
    JoinNoSpace(SplitSpaces(s), rep);
  }

  /** A string without white space has no run to replace. */
  lemma ReplaceSpaceRunsIdentity(s: string, rep: string)
    requires NoSpace(s)
    ensures ReplaceSpaceRuns(s, rep) == s
  {
    assert FirstSpace(s) == |s|;
  }

  /** The number of maximal non-white-space runs in `s`, counted left to right. */
  function RunsFrom(s: string, inWord: bool): nat
  {
    if |s| == 0 then 0
    else (if !IsSpace(s[0]) && !inWord then 1 else 0) + RunsFrom(s[1..], !IsSpace(s[0]))
  }

  function WordRuns(s: string): nat
  {
    RunsFrom(s, false)
  }

  /** The number of non-empty pieces among `parts`. */
  function NonEmptyCount(parts: seq<string>): nat
  {
    if |parts| == 0 then 0 else (if parts[0] != "" then 1 else 0) + NonEmptyCount(parts[1..])
  }

  lemma {:induction false} RunsSkipSpaces(s: string, inWord: bool)
    requires |s| > 0 && IsSpace(s[0])
    ensures RunsFrom(s, inWord) == RunsFrom(TrimStart(s), false)
    decreases |s|
  {
    if |s[1..]| > 0 && IsSpace(s[1..][0]) {
      RunsSkipSpaces(s[1..], false);
    }
  }

  lemma {:induction false} RunsWord(w: string, rest: string, inWord: bool)
    requires NoSpace(w) && |w| > 0
    ensures RunsFrom(w + rest, inWord) == (if inWord then 0 else 1) + RunsFrom(rest, true)
    decreases |w|
  {
    assert (w + rest)[0] == w[0];
    assert (w + rest)[1..] == w[1..] + rest;
    if |w| > 1 {
      RunsWord(w[1..], rest, true);
    } else {
      assert w[1..] + rest == rest;
    }
  }

  /** Counting the non-empty pieces of `split(/\s+/)` counts the words of `s`. */
  lemma {:induction false} SplitCountsWords(s: string)
    ensures NonEmptyCount(SplitSpaces(s)) == WordRuns(s)
    decreases |s|
  {
    var k := FirstSpace(s);
    if k == |s| {
      if |s| > 0 {
        RunsWord(s, "", false);
        assert s + "" == s;
      }
    } else {
      var w := s[..k];
      var sp := s[k..];
      var rest := TrimStart(sp);
      var parts := SplitSpaces(rest);
      assert SplitSpaces(s) == [w] + parts;
      assert NonEmptyCount(SplitSpaces(s)) == (if w != "" then 1 else 0) + NonEmptyCount(parts) by {
        assert ([w] + parts)[1..] == parts;
      }
      assert NonEmptyCount(parts) == WordRuns(rest) by { SplitCountsWords(rest); }
      assert RunsFrom(sp, true) == RunsFrom(rest, false) by { RunsSkipSpaces(sp, true); }
      assert RunsFrom(sp, false) == RunsFrom(rest, false) by { RunsSkipSpaces(sp, false); }
      if k > 0 {
        assert WordRuns(s) == 1 + RunsFrom(sp, true) by {
          RunsWord(w, sp, false);
          assert s == w + sp;
        }
      } else {
        assert s == sp;
      }
    }
  }

  lemma {:induction false} RunsTrailingSpaces(w: string, sp: string, inWord: bool)
    requires AllSpace(sp)
    ensures RunsFrom(w + sp, inWord) == RunsFrom(w, inWord)
    decreases |w|
  {
    if |w| == 0 {
      assert w + sp == sp;
      RunsAllSpace(sp, inWord);
    } else {
      assert (w + sp)[1..] == w[1..] + sp;
      RunsTrailingSpaces(w[1..], sp, !IsSpace(w[0]));
    }
  }

  lemma {:induction false} RunsAllSpace(sp: string, inWord: bool)
    requires AllSpace(sp)
    ensures RunsFrom(sp, inWord) == 0
    decreases |sp|
  {
    if |sp| > 0 {
      RunsAllSpace(sp[1..], false);
    }
  }

  lemma {:induction false} RunsLeadingSpaces(sp: string, w: string)
    requires AllSpace(sp)
    ensures RunsFrom(sp + w, false) == RunsFrom(w, false)
    decreases |sp|
  {
    if |sp| > 0 {
      assert (sp + w)[1..] == sp[1..] + w;
      RunsLeadingSpaces(sp[1..], w);
    } else {
      assert sp + w == w;
    }
  }

  /** White space around `s` does not change how many words it holds. */
  lemma TrimKeepsWords(s: string)
    ensures WordRuns(Trim(s)) == WordRuns(s)
  {
    TrimStartKeepsWords(s);
    TrimEndKeepsWords(TrimStart(s));
  }

  lemma TrimStartKeepsWords(s: string)
    ensures WordRuns(TrimStart(s)) == WordRuns(s)
  {
    var t := TrimStart(s);
    var lead := s[..|s| - |t|];
    assert s == lead + t;
    RunsLeadingSpaces(lead, t);
  }

  lemma TrimEndKeepsWords(t: string)
    ensures WordRuns(TrimEnd(t)) == WordRuns(t)
  {
    var r := TrimEnd(t);
    var trail := t[|r|..];
    assert t == r + trail;
    RunsTrailingSpaces(r, trail, false);
  }

  // ---------------------------------------------------------------- ASCII case mapping

  function LowerChar(c: char): (r: char)
    ensures ('A' <= c <= 'Z') ==> 'a' <= r <= 'z'
    ensures !('A' <= c <= 'Z') ==> r == c
  {
    if 'A' <= c <= 'Z' then (c as int + 32) as char else c
  }

  function UpperChar(c: char): (r: char)
    ensures ('a' <= c <= 'z') ==> 'A' <= r <= 'Z'
    ensures !('a' <= c <= 'z') ==> r == c
  {
    if 'a' <= c <= 'z' then (c as int - 32) as char else c
  }

  /** `s.toLowerCase()` on the ASCII letters. */
  function Lower(s: string): (r: string)
    ensures |r| == |s| && forall i :: 0 <= i < |s| ==> r[i] == LowerChar(s[i])
  {
    if |s| == 0 then "" else [LowerChar(s[0])] + Lower(s[1..])
  }

  /** `s.toUpperCase()` on the ASCII letters. */
  function Upper(s: string): (r: string)
    ensures |r| == |s| && forall i :: 0 <= i < |s| ==> r[i] == UpperChar(s[i])
  {
    if |s| == 0 then "" else [UpperChar(s[0])] + Upper(s[1..])
  }

  // ---------------------------------------------------------------- numbers

  function DigitChar(d: nat): (c: char)
    requires d < 10
    ensures IsDigit(c) && c as int - '0' as int == d
  {
    ('0' as int + d) as char
  }

  function DigitValue(c: char): (d: nat)
    requires IsDigit(c)
    ensures d < 10
  {
    c as int - '0' as int
  }

  /** The value of a string of decimal digits. */
  function DigitsValue(s: string): nat
    requires AllDigits(s)
  {
    if |s| == 0 then 0 else 10 * DigitsValue(s[..|s| - 1]) + DigitValue(s[|s| - 1])
  }

  /** `String(n)` for a non-negative integer: its decimal digits, without leading zeros. */
  function NatToString(n: nat): (r: string)
    ensures |r| >= 1 && AllDigits(r)
    ensures |r| > 1 ==> r[0] != '0'
    ensures AllDigits(r) && DigitsValue(r) == n
  {
    if n < 10 then [DigitChar(n)]
    else
      var r := NatToString(n / 10) + [DigitChar(n % 10)];
      assert r[..|r| - 1] == NatToString(n / 10);
      r
  }

  /** `String(i)` for an integer. */
  function IntToString(i: int): (r: string)
    ensures |r| >= 1
  {
    if i < 0 then "-" + NatToString(-i) else NatToString(i)
  }

  /** A string of digits with a `,` between groups of three, counted from the right. */
  function GroupDigits(s: string): (r: string)
    ensures |s| > 0 ==> |r| > 0 && r[0] == s[0]
  {
    if |s| <= 3 then s else GroupDigits(s[..|s| - 3]) + "," + s[|s| - 3..]
  }

  /** `n.toLocaleString()` in the `en-US` locale: the decimal digits, grouped in threes. */
  function GroupThousands(n: nat): string
  {
    GroupDigits(NatToString(n))
  }

  /** `s` with its commas taken out. */
  function WithoutCommas(s: string): (r: string)
  {
    if |s| == 0 then "" else (if s[0] == ',' then "" else [s[0]]) + WithoutCommas(s[1..])
  }

  lemma {:induction false} WithoutCommasAppend(a: string, b: string)
    ensures WithoutCommas(a + b) == WithoutCommas(a) + WithoutCommas(b)
    decreases |a|
  {
    if |a| > 0 {
      assert (a + b)[1..] == a[1..] + b;
      assert (a + b)[0] == a[0];
      WithoutCommasAppend(a[1..], b);
    } else {
      assert a + b == b;
    }
  }

  lemma {:induction false} DigitsHaveNoCommas(s: string)
    requires AllDigits(s)
    ensures WithoutCommas(s) == s
    decreases |s|
  {
    if |s| > 0 {
      DigitsHaveNoCommas(s[1..]);
    }
  }

  /** Taking the commas out of grouped digits gives the digits back. */
  lemma {:induction false} UngroupDigits(s: string)
    requires AllDigits(s)
    ensures WithoutCommas(GroupDigits(s)) == s
    decreases |s|
  {
    if |s| <= 3 {
      DigitsHaveNoCommas(s);
    } else {
      var h, t := s[..|s| - 3], s[|s| - 3..];
      UngroupDigits(h);
      WithoutCommasAppend(GroupDigits(h) + ",", t);
      WithoutCommasAppend(GroupDigits(h), ",");
      assert WithoutCommas(",") == "";
      DigitsHaveNoCommas(t);
      assert h + t == s;
    }
  }

  /**
   * Grouped digits: a character is a comma exactly when it stands a multiple of four places
   * from the end, and every other character is a digit.
   */
  predicate CommaGrouped(r: string)
  {
    forall i :: 0 <= i < |r| ==> (r[i] == ',' <==> (|r| - i) % 4 == 0) && (r[i] != ',' ==> IsDigit(r[i]))
  }

  /** Grouping a string of digits puts its commas where `CommaGrouped` says. */
  lemma {:induction false} GroupedCommas(s: string)
    requires AllDigits(s)
    ensures CommaGrouped(GroupDigits(s))
    decreases |s|
  {
    var r := GroupDigits(s);
    if |s| <= 3 {
      assert r == s;
      forall i | 0 <= i < |r|
        ensures (r[i] == ',' <==> (|r| - i) % 4 == 0) && (r[i] != ',' ==> IsDigit(r[i]))
      {
        assert IsDigit(s[i]) && 0 < |r| - i < 4;
      }
    } else {
      var q := GroupDigits(s[..|s| - 3]);
      var d := s[|s| - 3..];
      GroupedCommas(s[..|s| - 3]);
      assert r == q + "," + d;
      forall i | 0 <= i < |r|
        ensures (r[i] == ',' <==> (|r| - i) % 4 == 0) && (r[i] != ',' ==> IsDigit(r[i]))
      {
        if i < |q| {
          assert r[i] == q[i];
          assert |r| - i == (|q| - i) + 4;
          assert (|r| - i) % 4 == (|q| - i) % 4;
        } else if i == |q| {
          assert r[i] == ',' && |r| - i == 4;
        } else {
          assert r[i] == d[i - |q| - 1] == s[|s| - 3 + (i - |q| - 1)];
          assert 0 < |r| - i < 4;
        }
      }
    }
  }

  /** A grouped number: its commas stand every four places from the end, and without them it is the number's digits. */
  lemma GroupedNumber(n: nat)
    ensures var r := GroupThousands(n);
            && WithoutCommas(r) == NatToString(n)
            && |r| > 0 && r[0] != ','
            && CommaGrouped(r)
  {
    UngroupDigits(NatToString(n));
    GroupedCommas(NatToString(n));
  }

  /** The first `|a|` characters of `a + b` are `a`. */
  lemma PrefixOfConcat(a: string, b: string)
    ensures |a| <= |a + b| && (a + b)[..|a|] == a
  {
  }

  /** `s.padStart(2, '0')`. */
  function Pad2(s: string): (r: string)
    ensures |s| >= 2 ==> r == s
    ensures |s| < 2 ==> |r| == 2 && r[2 - |s|..] == s
  {
    if |s| >= 2 then s else seq(2 - |s|, _ => '0') + s
  }

  /** The longest prefix of `s` made of decimal digits. */
  function LeadingDigits(s: string): (r: string)
    ensures AllDigits(r) && |r| <= |s| && r == s[..|r|]
    ensures |r| < |s| ==> !IsDigit(s[|r|])
  {
    if |s| > 0 && IsDigit(s[0]) then
      var t := LeadingDigits(s[1..]);
      assert [s[0]] + t == s[..1 + |t|];
      [s[0]] + t
    else ""
  }

  /** The digits read from digits followed by a non-digit are those digits. */
  lemma {:induction false} LeadingDigitsAppend(d: string, rest: string)
    requires AllDigits(d) && |rest| > 0 && !IsDigit(rest[0])
    ensures LeadingDigits(d + rest) == d
  {
    if |d| > 0 {
      assert (d + rest)[1..] == d[1..] + rest;
      LeadingDigitsAppend(d[1..], rest);
    }
  }

  predicate IsHexDigit(c: char)
  {
    IsDigit(c) || 'a' <= c <= 'f' || 'A' <= c <= 'F'
  }

  function HexValue(c: char): nat
    requires IsHexDigit(c)
  {
    if IsDigit(c) then DigitValue(c)
    else if 'a' <= c <= 'f' then c as int - 'a' as int + 10
    else c as int - 'A' as int + 10
  }

  /** The value of the longest hexadecimal prefix of `s`, with its length. */
  function LeadingHex(s: string, acc: nat): (r: (nat, nat))
  {
    if |s| > 0 && IsHexDigit(s[0]) then
      var t := LeadingHex(s[1..], 16 * acc + HexValue(s[0]));
      (t.0, t.1 + 1)
    else (acc, 0)
  }

  /** The number a `parseInt` reads after the sign: hexadecimal after `0x`, decimal otherwise. */
  function ParseMagnitude(u: string): Option<nat>
  {
    if |u| >= 2 && u[0] == '0' && (u[1] == 'x' || u[1] == 'X') then
      var h := LeadingHex(u[2..], 0);
      if h.1 == 0 then None else Some(h.0)
    else
      var d := LeadingDigits(u);
      if |d| == 0 then None else Some(DigitsValue(d))
  }

  /**
   * `parseInt(s)` with no radix: leading white space and a sign are skipped, a `0x` prefix
   * selects base 16, and the longest run of digits that follows is read; `None` stands for NaN.
   */
  function ParseInt(s: string): Option<int>
  {
    var t := TrimStart(s);
    if |t| > 0 && t[0] == '-' then
      var r: Option<int> := match ParseMagnitude(t[1..]) case None => None case Some(m) => Some(0 - m);
      r
    else if |t| > 0 && t[0] == '+' then
      match ParseMagnitude(t[1..])
      case None => None
      case Some(m) => Some(m)
    else
      match ParseMagnitude(t)
      case None => None
      case Some(m) => Some(m)
  }

  /** `parseInt("")` is NaN. */
  lemma EmptyIsNaN()
    ensures ParseInt("").None?
  {
    assert TrimStart("") == "";
    assert LeadingDigits("") == "";
  }

  /** `parseInt` reads a non-empty string of decimal digits as its decimal value. */
  lemma ParseDigits(s: string)
    requires AllDigits(s) && |s| > 0
    ensures ParseInt(s) == Some(DigitsValue(s))
  {
    DigitNotSpace(s[0]);
    assert TrimStart(s) == s;
    assert !(|s| >= 2 && s[0] == '0' && (s[1] == 'x' || s[1] == 'X')) by {
      if |s| >= 2 { assert IsDigit(s[1]); }
    }
    AllDigitsLeading(s);
    assert ParseMagnitude(s) == Some(DigitsValue(s));
  }

  lemma DigitNotSpace(c: char)
    requires IsDigit(c)
    ensures !IsSpace(c)
  {
  }

  lemma {:induction false} AllDigitsLeading(s: string)
    requires AllDigits(s)
    ensures LeadingDigits(s) == s
  {
    if |s| > 0 {
      AllDigitsLeading(s[1..]);
    }
  }

  /** Reading back a formatted number gives the number. */
  lemma ParseNatToString(n: nat)
    ensures ParseInt(NatToString(n)) == Some(n)
  {
    ParseDigits(NatToString(n));
  }
}
