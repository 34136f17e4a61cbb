/**
 * The Python string built-ins the board processor relies on: `str.isspace`,
 * `str.lower`, the substring test `kw in s`, `str.startswith`, `str.replace`,
 * `str.split()` without a separator, `' '.join` and `str(n)` for a natural number.
 */
module Strings {

  /** Python's `str.isspace` for one character: the code points `str.split()` splits on. */
  predicate IsSpace(c: char) {
    c == ' ' || ('\t' <= c <= '\r') || ('\U{1C}' <= c <= '\U{1F}')
    || c == '\U{85}' || c == '\U{A0}' || c == '\U{1680}'
    || ('\U{2000}' <= c <= '\U{200A}') || c == '\U{2028}' || c == '\U{2029}'
    || c == '\U{202F}' || c == '\U{205F}' || c == '\U{3000}'
  }

  predicate IsUpper(c: char) {
    'A' <= c <= 'Z'
  }

  function LowerChar(c: char): (r: char)
    ensures !IsUpper(r)
    ensures IsUpper(c) ==> r as int == c as int + 32
    ensures !IsUpper(c) ==> r == c
  {
    if IsUpper(c) then (c as int + 32) as char else c
  }

  /** `s.lower()`, for the ASCII letters. */
  function Lower(s: string): (r: string)
    ensures |r| == |s|
    ensures forall i :: 0 <= i < |s| ==> r[i] == LowerChar(s[i])
  {
    if s == [] then [] else [LowerChar(s[0])] + Lower(s[1..])
  }

  /** `s.startswith(prefix)`. */
  predicate StartsWith(s: string, prefix: string) {
    |prefix| <= |s| && s[..|prefix|] == prefix
  }

  /** Python's `sub in s`: `sub` occurs somewhere in `s` (the empty string occurs everywhere). */
  predicate Contains(s: string, sub: string)
    decreases |s|
  {
    StartsWith(s, sub) || (s != [] && Contains(s[1..], sub))
  }

  /** The declarative reading of `sub in s`: an index at which `sub` starts. */
  ghost predicate OccursAt(s: string, sub: string, i: int) {
    0 <= i && i + |sub| <= |s| && s[i..i + |sub|] == sub
  }

  /** An occurrence at index `i` is found by the substring test. */
  lemma {:induction false} OccursContains(s: string, sub: string, i: int)
    requires OccursAt(s, sub, i)
    ensures Contains(s, sub)
    decreases i
  {
    if i > 0 {
      assert s[1..][i - 1..i - 1 + |sub|] == s[i..i + |sub|];
      OccursContains(s[1..], sub, i - 1);
    }
  }

  /** The substring test finds an occurrence: the index it matched at. */
  lemma {:induction false} ContainsWitness(s: string, sub: string) returns (i: int)
    requires Contains(s, sub)
    ensures OccursAt(s, sub, i)
    decreases |s|
  {
    if StartsWith(s, sub) {
      i := 0;
    } else {
      var j := ContainsWitness(s[1..], sub);
      assert s[j + 1..j + 1 + |sub|] == s[1..][j..j + |sub|];
      i := j + 1;
    }
  }

  lemma ContainsIff(s: string, sub: string)
    ensures Contains(s, sub) <==> exists i :: OccursAt(s, sub, i)
  {
    if Contains(s, sub) {
      var i := ContainsWitness(s, sub);
    }
    forall i | OccursAt(s, sub, i) ensures Contains(s, sub) {
      OccursContains(s, sub, i);
    }
  }

  /** A keyword containing an upper-case letter never occurs in a lowercased name. */
  lemma UppercaseNeverInLower(name: string, kw: string, j: int)
    requires 0 <= j < |kw| && IsUpper(kw[j])
    ensures !Contains(Lower(name), kw)
  {
    var s := Lower(name);
    forall i | 0 <= i && i + |kw| <= |s| ensures !OccursAt(s, kw, i) {
      assert s[i..i + |kw|][j] == s[i + j];
    }
    ContainsIff(s, kw);
  }
  /** A text without the first letter of a pattern does not contain it. */
  lemma LacksFirstLetter(s: string, sub: string)
    requires sub != [] && forall i :: 0 <= i < |s| ==> s[i] != sub[0]
    ensures !Contains(s, sub)
  {
    ContainsIff(s, sub);
    forall i ensures !OccursAt(s, sub, i) {
      if 0 <= i && i + |sub| <= |s| {
        assert s[i..i + |sub|][0] == s[i];
      }
    }
  }
  /** A leading pattern that does not occur again is the only thing removed. */
  lemma DropLeading(pat: string, rest: string)
    requires pat != [] && !Contains(rest, pat)
    ensures ReplaceAll(pat + rest, pat, "") == rest
  {
    ContainsIff([] + pat[..|pat| - 1], pat);
    ReplaceFirst([], pat, rest, "");
    assert [] + pat + rest == pat + rest;
    ReplaceAbsent(rest, pat, "");
  }
  /** Lowercasing leaves a text without upper-case letters as it is. */
  lemma LowerKeeps(s: string)
    requires forall i :: 0 <= i < |s| ==> !IsUpper(s[i])
    ensures Lower(s) == s
  {
  }
  /** A keyword matching the lowercased letters of a name at some position is contained in the lowercased name. */
  lemma LowerMatchAt(name: string, kw: string, i: int)
    requires 0 <= i && i + |kw| <= |name|
    requires forall k :: 0 <= k < |kw| ==> LowerChar(name[i + k]) == kw[k]
    ensures Contains(Lower(name), kw)
  {
    assert Lower(name)[i..i + |kw|] == kw;
    OccursContains(Lower(name), kw, i);
  }

  /** `s.replace(pat, rep)`: scans left to right, replacing non-overlapping occurrences. */
  function ReplaceAll(s: string, pat: string, rep: string): string
    requires pat != []
    decreases |s|
  {
    if s == [] then []
    else if StartsWith(s, pat) then rep + ReplaceAll(s[|pat|..], pat, rep)
    else [s[0]] + ReplaceAll(s[1..], pat, rep)
  }

  /** A string without the pattern comes back unchanged. */
  lemma {:induction false} ReplaceAbsent(s: string, pat: string, rep: string)
    requires pat != []
    requires !Contains(s, pat)
    ensures ReplaceAll(s, pat, rep) == s
    decreases |s|
  {
    if s != [] {
      ReplaceAbsent(s[1..], pat, rep);
    }
  }

  /**
   * The leftmost occurrence is the one replaced: when `pat` first occurs right
   * after `a`, the result is `a`, then `rep`, then the replacement of what follows.
   * Together with ReplaceAbsent this determines `replace` completely.
   */
  lemma {:induction false} ReplaceFirst(a: string, pat: string, b: string, rep: string)
    requires pat != []
    requires !Contains(a + pat[..|pat| - 1], pat)
    ensures ReplaceAll(a + pat + b, pat, rep) == a + rep + ReplaceAll(b, pat, rep)
    decreases |a|
  {
    var s := a + pat + b;
    if a == [] {
      assert s == pat + b;
      assert StartsWith(s, pat);
      assert s[|pat|..] == b;
    } else {
      var front := a + pat[..|pat| - 1];
      assert s[..|pat|] == front[..|pat|];
      assert front[1..] == a[1..] + pat[..|pat| - 1];
      ReplaceFirst(a[1..], pat, b, rep);
      assert s[1..] == a[1..] + pat + b;
      assert [a[0]] + (a[1..] + rep + ReplaceAll(b, pat, rep)) == a + rep + ReplaceAll(b, pat, rep);
    }
  }

  /** A longer replacement never gives a shorter result. */
  lemma {:induction false} ReplaceLengthMono(s: string, pat: string, r1: string, r2: string)
    requires pat != [] && |r1| <= |r2|
    ensures |ReplaceAll(s, pat, r1)| <= |ReplaceAll(s, pat, r2)|
    decreases |s|
  {
    if s != [] {
      if StartsWith(s, pat) {
        ReplaceLengthMono(s[|pat|..], pat, r1, r2);
      } else {
        ReplaceLengthMono(s[1..], pat, r1, r2);
      }
    }
  }

  /** In a text that contains the pattern, different replacements give different results. */
  lemma {:induction false} ReplaceInjective(s: string, pat: string, r1: string, r2: string)
    requires pat != [] && Contains(s, pat) && r1 != r2
    ensures ReplaceAll(s, pat, r1) != ReplaceAll(s, pat, r2)
    decreases |s|
  {
    var x1, x2 := ReplaceAll(s, pat, r1), ReplaceAll(s, pat, r2);
    if StartsWith(s, pat) {
      var t := s[|pat|..];
      var y1, y2 := ReplaceAll(t, pat, r1), ReplaceAll(t, pat, r2);
      if |r1| == |r2| {
        assert x1[..|r1|] == r1 && x2[..|r2|] == r2;
      } else if |r1| < |r2| {
        ReplaceLengthMono(t, pat, r1, r2);
      } else {
        ReplaceLengthMono(t, pat, r2, r1);
      }
    } else {
      ReplaceInjective(s[1..], pat, r1, r2);
      assert x1[1..] == ReplaceAll(s[1..], pat, r1) && x2[1..] == ReplaceAll(s[1..], pat, r2);
    }
  }

  // ----- split() and ' '.join -----

  /** A word of `str.split()`: non-empty and without whitespace. */
  predicate IsWord(w: string) {
    w != [] && forall i :: 0 <= i < |w| ==> !IsSpace(w[i])
  }

  /** `s.split()`: the maximal runs of non-whitespace characters, in order. */
  function Words(s: string): (r: seq<string>)
    ensures forall i :: 0 <= i < |r| ==> IsWord(r[i])
    ensures s != [] && !IsSpace(s[0]) ==> r != [] && r[0] != [] && r[0][0] == s[0]
    decreases |s|
  {
    if s == [] then []
    else if IsSpace(s[0]) then Words(s[1..])
    else
      var rest := Words(s[1..]);
      if |s| > 1 && !IsSpace(s[1]) then [[s[0]] + rest[0]] + rest[1..]
      else [[s[0]]] + rest
  }

  /** `sep.join(parts)`. */
  function Join(sep: string, parts: seq<string>): string {
    if parts == [] then []
    else if |parts| == 1 then parts[0]
    else parts[0] + sep + Join(sep, parts[1..])
  }

  /** `' '.join(s.split())`: whitespace trimmed at both ends and every run collapsed to one space. */
  function Collapse(s: string): string {
    Join(" ", Words(s))
  }

  /** No whitespace at either end, none besides `' '`, and never two whitespace characters in a row. */
  ghost predicate IsCollapsed(s: string) {
    (s != [] ==> !IsSpace(s[0]) && !IsSpace(s[|s| - 1]))
    && (forall i :: 0 <= i < |s| && IsSpace(s[i]) ==> s[i] == ' ')
    && (forall i :: 0 < i < |s| && IsSpace(s[i]) ==> !IsSpace(s[i - 1]))
  }

  /** The characters of `s` that are not whitespace, in order. */
  function NonSpace(s: string): string {
    if s == [] then []
    else if IsSpace(s[0]) then NonSpace(s[1..])
    else [s[0]] + NonSpace(s[1..])
  }

  function Concat(ws: seq<string>): string {
    if ws == [] then [] else ws[0] + Concat(ws[1..])
  }

  /** Splitting loses exactly the whitespace. */
  lemma {:induction false} WordsKeepContent(s: string)
    ensures Concat(Words(s)) == NonSpace(s)
    decreases |s|
  {
    if s != [] {
      WordsKeepContent(s[1..]);
      if !IsSpace(s[0]) {
        var rest := Words(s[1..]);
        if |s| > 1 && !IsSpace(s[1]) {
          calc {
            Concat(Words(s));
            ([s[0]] + rest[0]) + Concat(rest[1..]);
            [s[0]] + (rest[0] + Concat(rest[1..]));
            [s[0]] + Concat(rest);
          }
        }
      }
    }
  }

  /** A word followed by nothing or by whitespace splits off as the first word. */
  lemma {:induction false} WordsOfWordThen(w: string, t: string)
    requires IsWord(w)
    requires t == [] || IsSpace(t[0])
    ensures Words(w + t) == [w] + Words(t)
    decreases |w|
  {
    var s := w + t;
    assert s[1..] == w[1..] + t;
    if |w| == 1 {
      assert s[1..] == t && w == [s[0]];
    } else {
      WordsOfWordThen(w[1..], t);
      assert s[1] == w[1];
      assert [s[0]] + w[1..] == w;
    }
  }

  /** `split()` undoes `' '.join` of words. */
  lemma {:induction false} WordsOfJoin(ws: seq<string>)
    requires forall i :: 0 <= i < |ws| ==> IsWord(ws[i])
    ensures Words(Join(" ", ws)) == ws
  {
    if |ws| == 1 {
      WordsOfWordThen(ws[0], []);
      assert ws[0] + [] == ws[0];
    } else if |ws| > 1 {
      var tail := " " + Join(" ", ws[1..]);
      WordsOfJoin(ws[1..]);
      WordsOfWordThen(ws[0], tail);
      assert tail[1..] == Join(" ", ws[1..]);
      assert ws[0] + " " + Join(" ", ws[1..]) == ws[0] + tail;
    }
  }

  /** Joining words with single spaces gives a collapsed string. */
  lemma {:induction false} JoinCollapsed(ws: seq<string>)
    requires forall i :: 0 <= i < |ws| ==> IsWord(ws[i])
    ensures IsCollapsed(Join(" ", ws))
  {
    if |ws| > 1 {
      var w, j := ws[0], Join(" ", ws[1..]);
      JoinCollapsed(ws[1..]);
      JoinNonEmpty(ws[1..]);
      var s := w + " " + j;
      assert s == Join(" ", ws);
      forall i | 0 <= i < |s| && IsSpace(s[i])
        ensures s[i] == ' '
        ensures i > 0 ==> !IsSpace(s[i - 1])
      {
        if i > |w| {
          assert s[i] == j[i - |w| - 1];
          if i - 1 > |w| {
            assert s[i - 1] == j[i - |w| - 2];
          }
        }
      }
    }
  }

  lemma JoinNonEmpty(ws: seq<string>)
    requires ws != [] && forall i :: 0 <= i < |ws| ==> IsWord(ws[i])
    ensures Join(" ", ws) != []
  {
  }

  /** The characters of a join of words are the words' characters. */
  lemma {:induction false} JoinKeepsContent(ws: seq<string>)
    requires forall i :: 0 <= i < |ws| ==> IsWord(ws[i])
    ensures NonSpace(Join(" ", ws)) == Concat(ws)
  {
    if ws != [] {
      WordNonSpace(ws[0]);
      if |ws| > 1 {
        JoinKeepsContent(ws[1..]);
        NonSpaceAppend(ws[0] + " ", Join(" ", ws[1..]));
        NonSpaceAppend(ws[0], " ");
      } else {
        assert Concat(ws) == ws[0] + Concat([]);
      }
    }
  }

  lemma {:induction false} WordNonSpace(w: string)
    requires forall i :: 0 <= i < |w| ==> !IsSpace(w[i])
    ensures NonSpace(w) == w
  {
    if w != [] {
      WordNonSpace(w[1..]);
    }
  }

  lemma {:induction false} NonSpaceAppend(a: string, b: string)
    ensures NonSpace(a + b) == NonSpace(a) + NonSpace(b)
  {
    if a != [] {
      assert (a + b)[1..] == a[1..] + b;
      NonSpaceAppend(a[1..], b);
    } else {
      assert a + b == b;
    }
  }

  /** What `' '.join(s.split())` promises: a collapsed string with the same non-whitespace characters. */
  lemma CollapseSpec(s: string)
    ensures IsCollapsed(Collapse(s))
    ensures NonSpace(Collapse(s)) == NonSpace(s)
  {
    JoinCollapsed(Words(s));
    JoinKeepsContent(Words(s));
    WordsKeepContent(s);
  }

  /** Collapsing twice is collapsing once. */
  lemma CollapseIdempotent(s: string)
    ensures Collapse(Collapse(s)) == Collapse(s)
  {
    WordsOfJoin(Words(s));
  }

  // ----- str(n) -----

  function DigitChar(d: nat): (c: char)
    requires d < 10
  {
    ('0' as int + d) as char
  }

  predicate IsDigit(c: char) {
    '0' <= c <= '9'
  }

  /** `str(n)` for a natural number: decimal digits, no leading zero. */
  function NatToString(n: nat): (r: string)
    ensures r != [] && (forall i :: 0 <= i < |r| ==> IsDigit(r[i]))
    ensures r[0] == '0' ==> n == 0
  {
    if n < 10 then [DigitChar(n)] else NatToString(n / 10) + [DigitChar(n % 10)]
  }

  /** The value of a string of decimal digits (Python's `int(s)`). */
  function DecimalValue(s: string): nat
    requires forall i :: 0 <= i < |s| ==> IsDigit(s[i])
  {
    if s == [] then 0
    else assert IsDigit(s[|s| - 1]); DecimalValue(s[..|s| - 1]) * 10 + (s[|s| - 1] as int - '0' as int)
  }

  /** `int(str(n)) == n`: distinct page numbers print differently. */
  lemma {:induction false} NatToStringRoundTrip(n: nat)
    ensures DecimalValue(NatToString(n)) == n
  {
    if n >= 10 {
      NatToStringRoundTrip(n / 10);
      var s := NatToString(n);
      assert s[..|s| - 1] == NatToString(n / 10);
    }
  }
}
