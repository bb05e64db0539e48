/**
 * The string operations of Python's `str` that the collectors and the schema
 * rely on: whitespace (`isspace`), `strip`, `split()`, `split(',')`, `lower`,
 * substring search (`in`), `str(int)` and a `re.search` for a fixed prefix
 * followed by a run of digits.
 */
module Text {
  import opened Wrappers

  /** The code points for which Python's `str.isspace()` holds. */
  predicate IsSpace(c: char) {
    || c == ' '
    || ('\t' <= c <= '\r')
    || ('\U{1c}' <= c <= '\U{1f}')
    || c == '\U{85}' || c == '\U{a0}' || c == '\U{1680}'
    || ('\U{2000}' <= c <= '\U{200a}')
    || c == '\U{2028}' || c == '\U{2029}' || c == '\U{202f}' || c == '\U{205f}' || c == '\U{3000}'
  }

  predicate IsDigit(c: char) {
    '0' <= c <= '9'
  }

  predicate AllSpace(s: string) {
    forall i :: 0 <= i < |s| ==> IsSpace(s[i])
  }

  predicate NoSpace(s: string) {
    forall i :: 0 <= i < |s| ==> !IsSpace(s[i])
  }

  /** `s.lstrip()`: drops the leading whitespace. */
  function StripLeft(s: string): (r: string)
  {
    if s != [] && IsSpace(s[0]) then StripLeft(s[1..]) else s
  }

  /** `s.rstrip()`: drops the trailing whitespace. */
  function StripRight(s: string): (r: string)
  {
    if s != [] && IsSpace(s[|s| - 1]) then StripRight(s[..|s| - 1]) else s
  }

  /** `s.strip()`. */
  function Strip(s: string): (r: string)
    ensures |r| <= |s|
  {
    StripLeftShape(s);
    StripRightShape(StripLeft(s));
    StripRight(StripLeft(s))
  }

  lemma {:induction false} StripLeftShape(s: string)
    ensures |StripLeft(s)| <= |s| && StripLeft(s) == s[|s| - |StripLeft(s)|..]
  {
    if s != [] && IsSpace(s[0]) {
      StripLeftShape(s[1..]);
    }
  }

  lemma {:induction false} StripRightShape(s: string)
    ensures |StripRight(s)| <= |s| && StripRight(s) == s[..|StripRight(s)|]
  {
    if s != [] && IsSpace(s[|s| - 1]) {
      StripRightShape(s[..|s| - 1]);
    }
  }

  lemma {:induction false} StripLeftEnds(s: string)
    ensures StripLeft(s) == [] || !IsSpace(StripLeft(s)[0])
    ensures StripLeft(s) == [] <==> AllSpace(s)
  {
    if s != [] && IsSpace(s[0]) {
      StripLeftEnds(s[1..]);
      AllSpaceTail(s);
    }
  }

  lemma {:induction false} StripRightEnds(s: string)
    ensures StripRight(s) == [] || !IsSpace(StripRight(s)[|StripRight(s)| - 1])
    ensures StripRight(s) == [] <==> AllSpace(s)
  {
    if s != [] && IsSpace(s[|s| - 1]) {
      var p := s[..|s| - 1];
      StripRightEnds(p);
      assert AllSpace(p) ==> AllSpace(s) by {
        if AllSpace(p) {
          forall i | 0 <= i < |s| ensures IsSpace(s[i]) {
            if i < |s| - 1 { assert s[i] == p[i]; }
          }
        }
      }
    }
  }

  /** A stripped string neither starts nor ends with whitespace, and is empty exactly for blank input. */
  lemma StripEnds(s: string)
    ensures Strip(s) == [] || (!IsSpace(Strip(s)[0]) && !IsSpace(Strip(s)[|Strip(s)| - 1]))
    ensures Strip(s) == [] <==> AllSpace(s)
  {
    var l := StripLeft(s);
    StripLeftEnds(s);
    StripRightEnds(l);
    assert l != [] ==> !AllSpace(l);
    var r := StripRight(l);
    StripRightShape(l);
    assert r != [] ==> r[0] == l[0];
  }

  /** Number of leading characters of `s` that are not whitespace. */
  function TokenLength(s: string): (n: nat)
    ensures n <= |s| && NoSpace(s[..n])
    ensures n == |s| || IsSpace(s[n])
  {
    if s == [] || IsSpace(s[0]) then 0 else 1 + TokenLength(s[1..])
  }

  lemma AllSpaceTail(s: string)
    requires s != [] && IsSpace(s[0])
    ensures AllSpace(s) <==> AllSpace(s[1..])
  {
    if AllSpace(s[1..]) {
      forall i | 0 <= i < |s| ensures IsSpace(s[i]) {
        if i > 0 { assert s[i] == s[1..][i - 1]; }
      }
    }
  }

  /** `s.split()`: the maximal runs of non-whitespace characters, in order. */
  function Words(s: string): (ws: seq<string>)
    ensures forall k :: 0 <= k < |ws| ==> ws[k] != [] && NoSpace(ws[k])
    ensures ws == [] <==> AllSpace(s)
    decreases |s|
  {
    if s == [] then []
    else if IsSpace(s[0]) then
      AllSpaceTail(s);
      Words(s[1..])
    else
      var n := TokenLength(s);
      var rest := Words(s[n..]);
      var ws := [s[..n]] + rest;
      assert forall k :: 1 <= k < |ws| ==> ws[k] == rest[k - 1];
      ws
  }

  /** The characters of `s` that are not whitespace, in order. */
  function NonSpace(s: string): string {
    if s == [] then [] else (if IsSpace(s[0]) then [] else [s[0]]) + NonSpace(s[1..])
  }

  function Concat(ws: seq<string>): string {
    if ws == [] then [] else ws[0] + Concat(ws[1..])
  }

  lemma {:induction false} NonSpaceAppend(a: string, b: string)
    ensures NonSpace(a + b) == NonSpace(a) + NonSpace(b)
    decreases |a|
  {
    if a != [] {
      var head := if IsSpace(a[0]) then [] else [a[0]];
      assert (a + b)[0] == a[0];
      assert (a + b)[1..] == a[1..] + b;
      NonSpaceAppend(a[1..], b);
      calc {
        NonSpace(a + b);
        head + NonSpace(a[1..] + b);
        head + (NonSpace(a[1..]) + NonSpace(b));
        (head + NonSpace(a[1..])) + NonSpace(b);
        NonSpace(a) + NonSpace(b);
      }
    } else {
      assert a + b == b;
    }
  }

  lemma {:induction false} NonSpaceOfSpaces(s: string)
    requires AllSpace(s)
    ensures NonSpace(s) == []
    decreases |s|
  {
    if s != [] {
      NonSpaceOfSpaces(s[1..]);
    }
  }

  lemma {:induction false} NonSpaceOfToken(s: string)
    requires NoSpace(s)
    ensures NonSpace(s) == s
    decreases |s|
  {
    if s != [] {
      NonSpaceOfToken(s[1..]);
    }
  }

  /** `split()` loses exactly the whitespace: its words put together are the non-space characters. */
  lemma {:induction false} WordsKeepNonSpace(s: string)
    ensures Concat(Words(s)) == NonSpace(s)
    decreases |s|
  {
    if s != [] {
      if IsSpace(s[0]) {
        WordsKeepNonSpace(s[1..]);
      } else {
        var n := TokenLength(s);
        assert s == s[..n] + s[n..];
        NonSpaceAppend(s[..n], s[n..]);
        NonSpaceOfToken(s[..n]);
        WordsKeepNonSpace(s[n..]);
        assert Words(s)[1..] == Words(s[n..]);
      }
    }
  }

  /** Number of occurrences of `c` in `s`. */
  function Occurrences(s: string, c: char): nat {
    if s == [] then 0 else (if s[0] == c then 1 else 0) + Occurrences(s[1..], c)
  }

  /** `s.split(sep)` for a one-character separator: the pieces between separators. */
  function Split(s: string, sep: char): (parts: seq<string>)
    ensures |parts| == Occurrences(s, sep) + 1
    ensures forall k :: 0 <= k < |parts| ==> sep !in parts[k]
  {
    if s == [] then [[]]
    else
      var rest := Split(s[1..], sep);
      if s[0] == sep then [[]] + rest else [[s[0]] + rest[0]] + rest[1..]
  }

  /** `sep.join(parts)`. */
  function Join(parts: seq<string>, sep: char): string {
    if parts == [] then []
    else if |parts| == 1 then parts[0]
    else parts[0] + [sep] + Join(parts[1..], sep)
  }

  /** Joining the pieces of a split with the same separator gives back the string. */
  lemma {:induction false} JoinSplit(s: string, sep: char)
    ensures Join(Split(s, sep), sep) == s
  {
    if s != [] {
      var rest := Split(s[1..], sep);
      JoinSplit(s[1..], sep);
      if s[0] == sep {
        assert Split(s, sep) == [[]] + rest;
      } else {
        var parts := Split(s, sep);
        assert parts == [[s[0]] + rest[0]] + rest[1..];
        if |rest| == 1 {
          assert parts == [[s[0]] + rest[0]];
        } else {
          assert parts[1..] == rest[1..];
          assert Join(rest, sep) == rest[0] + [sep] + Join(rest[1..], sep);
        }
      }
    }
  }

  /** `s.startswith(p)`. */
  predicate StartsWith(s: string, p: string) {
    |p| <= |s| && s[..|p|] == p
  }

  /** `p in s`. */
  predicate Contains(s: string, p: string) {
    exists i :: 0 <= i <= |s| && StartsWith(s[i..], p)
  }

  /** Whenever `s` contains `p`, it contains every suffix of `p`. */
  lemma ContainsSuffix(s: string, p: string, k: nat)
    requires Contains(s, p) && k <= |p|
    ensures Contains(s, p[k..])
  {
    var i :| 0 <= i <= |s| && StartsWith(s[i..], p);
    assert s[i + k..][..|p| - k] == p[k..];
    assert StartsWith(s[i + k..], p[k..]);
  }

  /** `strip` only removes characters: every character it keeps was in `s`. */
  lemma StripWithin(s: string)
    ensures forall c :: c in Strip(s) ==> c in s
  {
    var l := StripLeft(s);
    StripLeftShape(s);
    StripRightShape(l);
    forall c | c in Strip(s) ensures c in s {
      var j :| 0 <= j < |Strip(s)| && Strip(s)[j] == c;
      assert c == s[|s| - |l| + j];
    }
  }

  /** Whenever `s` contains `p`, it contains every prefix of `p`. */
  lemma ContainsPrefix(s: string, p: string, k: nat)
    requires Contains(s, p) && k <= |p|
    ensures Contains(s, p[..k])
  {
    var i :| 0 <= i <= |s| && StartsWith(s[i..], p);
    assert s[i..][..k] == p[..k];
  }

  /** Python's `str.lower()` restricted to ASCII letters. */
  function LowerChar(c: char): (d: char)
    ensures 'A' <= c <= 'Z' ==> 'a' <= d <= 'z'
    ensures !('A' <= c <= 'Z') ==> d == c
  {
    if 'A' <= c <= 'Z' then (c as int + 32) as char else c
  }

  function Lower(s: string): (r: string)
    ensures |r| == |s| && forall i :: 0 <= i < |s| ==> r[i] == LowerChar(s[i])
  {
    seq(|s|, i requires 0 <= i < |s| => LowerChar(s[i]))
  }

  /** `str(n)` for a natural number: its decimal digits. */
  function DecimalString(n: nat): (r: string)
    ensures |r| >= 1 && forall i :: 0 <= i < |r| ==> IsDigit(r[i])
    ensures n >= 10 <==> |r| >= 2
  {
    if n < 10 then [('0' as int + n) as char]
    else DecimalString(n / 10) + [('0' as int + n % 10) as char]
  }

  /** Different numbers are written differently. */
  lemma {:induction false} DecimalStringInjective(m: nat, n: nat)
    requires DecimalString(m) == DecimalString(n)
    ensures m == n
  {
    var r := DecimalString(m);
    if m >= 10 && n >= 10 {
      assert r[..|r| - 1] == DecimalString(m / 10);
      assert DecimalString(n)[..|r| - 1] == DecimalString(n / 10);
      DecimalStringInjective(m / 10, n / 10);
      assert r[|r| - 1] == ('0' as int + m % 10) as char;
    }
  }

  /** A character that `\d` (or `[\d\-]` when `withDash`) matches, ASCII digits only. */
  predicate RunChar(c: char, withDash: bool) {
    IsDigit(c) || (withDash && c == '-')
  }

  /** Length of the longest prefix of `s` made of run characters. */
  function RunLength(s: string, withDash: bool): (n: nat)
    ensures n <= |s| && (n == |s| || !RunChar(s[n], withDash))
    ensures forall i :: 0 <= i < n ==> RunChar(s[i], withDash)
  {
    if s == [] || !RunChar(s[0], withDash) then 0 else 1 + RunLength(s[1..], withDash)
  }

  /** `prefix` occurs at the start of `s` followed by at least one run character. */
  predicate MatchesAt(s: string, prefix: string, withDash: bool) {
    |prefix| < |s| && s[..|prefix|] == prefix && RunChar(s[|prefix|], withDash)
  }

  /**
   * `re.search(prefix + r'(\d+)', s).group(1)` (with `[\d\-]+` when `withDash`):
   * the leftmost occurrence of the prefix that is followed by a run character,
   * and the longest run there.
   */
  function SearchRun(s: string, prefix: string, withDash: bool): (r: Option<string>)
    ensures r.None? <==> forall i :: 0 <= i <= |s| ==> !MatchesAt(s[i..], prefix, withDash)
    ensures r.Some? ==> r.value != [] && forall i :: 0 <= i < |r.value| ==> RunChar(r.value[i], withDash)
    ensures r.Some? ==> Contains(s, prefix + r.value)
    decreases |s|
  {
    if MatchesAt(s, prefix, withDash) then
      var run := s[|prefix|..];
      var found := s[|prefix|..|prefix| + RunLength(run, withDash)];
      assert s[..|prefix| + |found|] == prefix + found;
      assert StartsWith(s[0..], prefix + found);
      Some(found)
    else if s == [] then
      None
    else
      var r := SearchRun(s[1..], prefix, withDash);
      assert forall i :: 1 <= i <= |s| ==> s[i..] == s[1..][i - 1..];
      if r.Some? then
        assert Contains(s, prefix + r.value) by {
          var i :| 0 <= i <= |s[1..]| && StartsWith(s[1..][i..], prefix + r.value);
          assert s[1..][i..] == s[i + 1..];
        }
        r
      else
        r
  }

  /** A match at the start is the one found. */
  lemma SearchRunHere(s: string, prefix: string, withDash: bool)
    requires MatchesAt(s, prefix, withDash)
    ensures SearchRun(s, prefix, withDash) == Some(s[|prefix|..][..RunLength(s[|prefix|..], withDash)])
  {
    var run := s[|prefix|..];
    var n := RunLength(run, withDash);
    var r := SearchRun(s, prefix, withDash);
    assert r.Some?;
    assert r.value == s[|prefix|..|prefix| + n];
    assert s[|prefix|..|prefix| + n] == run[..n];
  }

  /** Without a match at the start, the search goes on from the next character. */
  lemma SearchRunSkip(s: string, prefix: string, withDash: bool)
    requires s != [] && !MatchesAt(s, prefix, withDash)
    ensures SearchRun(s, prefix, withDash) == SearchRun(s[1..], prefix, withDash)
  {
  }

  /** With no match in `s[j..i]`, searching from `j` finds what searching from `i` finds. */
  lemma {:induction false} SearchRunSkipTo(s: string, prefix: string, withDash: bool, j: nat, i: nat)
    requires j <= i <= |s|
    requires forall k :: j <= k < i ==> !MatchesAt(s[k..], prefix, withDash)
    ensures SearchRun(s[j..], prefix, withDash) == SearchRun(s[i..], prefix, withDash)
    decreases i - j
  {
    if j < i {
      SearchRunSkip(s[j..], prefix, withDash);
      assert s[j..][1..] == s[j + 1..];
      SearchRunSkipTo(s, prefix, withDash, j + 1, i);
    }
  }

  /**
   * The run found is the one after the leftmost match, and it is the
   * longest run there: `re.search` scans from the left and `+` is greedy.
   */
  lemma SearchRunAtFirstMatch(s: string, prefix: string, withDash: bool, i: nat)
    requires i < |s| && MatchesAt(s[i..], prefix, withDash)
    requires forall j :: 0 <= j < i ==> !MatchesAt(s[j..], prefix, withDash)
    ensures i + |prefix| < |s|
    ensures SearchRun(s, prefix, withDash) == Some(s[i + |prefix|..][..RunLength(s[i + |prefix|..], withDash)])
  {
    SearchRunSkipTo(s, prefix, withDash, 0, i);
    assert s[0..] == s;
    SearchRunHere(s[i..], prefix, withDash);
    assert s[i..][|prefix|..] == s[i + |prefix|..];
  }
}
