/** The JavaScript string operations the application relies on, over `string`
    (a sequence of Unicode scalar values): `trim`, `toLowerCase`, `split` by a
    character and by the pattern `\r?\n`, quote removal, the prefix, suffix and
    substring tests, and `Number.prototype.toString` for the non-negative integers
    that `Date.now()` produces. */
module Text {
  import Seqs

  /** ECMAScript's WhiteSpace and LineTerminator characters: the ones `trim` removes. */
  predicate IsWhitespace(c: char) {
    || c == ' ' || c == '\t' || c == '\n' || c == '\r'
    || c == '\U{000B}' || c == '\U{000C}' || c == '\U{00A0}' || c == '\U{1680}'
    || ('\U{2000}' <= c <= '\U{200A}')
    || c == '\U{2028}' || c == '\U{2029}' || c == '\U{202F}' || c == '\U{205F}'
    || c == '\U{3000}' || c == '\U{FEFF}'
  }

  /** The index of the first non-whitespace character of `s` at or after `i`, or
      `|s|` when there is none. */
  function TrimStartIndex(s: string, i: nat): (a: nat)
    requires i <= |s|
    ensures i <= a <= |s|
    ensures forall k :: i <= k < a ==> IsWhitespace(s[k])
    ensures a == |s| || !IsWhitespace(s[a])
    decreases |s| - i
  {
    if i < |s| && IsWhitespace(s[i]) then TrimStartIndex(s, i + 1) else i
  }

  /** The end of `s[a..j]` once its trailing whitespace is removed. */
  function TrimEndIndex(s: string, a: nat, j: nat): (b: nat)
    requires a <= j <= |s|
    ensures a <= b <= j
    ensures forall k :: b <= k < j ==> IsWhitespace(s[k])
    ensures b == a || !IsWhitespace(s[b - 1])
    decreases j - a
  {
    if a < j && IsWhitespace(s[j - 1]) then TrimEndIndex(s, a, j - 1) else j
  }

  /** `r` is the slice of `s` at offset `a`, and everything around it is whitespace. */
  ghost predicate TrimmedAt(s: string, r: string, a: int) {
    && 0 <= a <= |s| - |r| && r == s[a..a + |r|]
    && (forall k :: 0 <= k < a ==> IsWhitespace(s[k]))
    && (forall k :: a + |r| <= k < |s| ==> IsWhitespace(s[k]))
  }

  /** JavaScript's `String.prototype.trim`: the slice of `s` between its leading and
      its trailing whitespace. */
  function Trim(s: string): (r: string)
    ensures |r| <= |s|
    ensures r == [] || (!IsWhitespace(r[0]) && !IsWhitespace(r[|r| - 1]))
    ensures (forall k :: 0 <= k < |s| ==> IsWhitespace(s[k])) <==> r == []
    ensures exists a :: TrimmedAt(s, r, a)
  {
    var a := TrimStartIndex(s, 0);
    var b := TrimEndIndex(s, a, |s|);
    var r := s[a..b];
    assert TrimmedAt(s, r, a);
    assert r != [] ==> r[0] == s[a] && r[|r| - 1] == s[b - 1];
    r
  }

  /** A string without leading or trailing whitespace is its own trim. */
  lemma TrimOfTrimmed(s: string)
    requires s == [] || (!IsWhitespace(s[0]) && !IsWhitespace(s[|s| - 1]))
    ensures Trim(s) == s
  {
  }

  /** Trimming twice is trimming once. */
  lemma TrimIdempotent(s: string)
    ensures Trim(Trim(s)) == Trim(s)
  {
    TrimOfTrimmed(Trim(s));
  }

  /** `toLowerCase` on one character; only the ASCII letters are mapped. */
  function ToLowerChar(c: char): (r: char)
    ensures 'A' <= c <= 'Z' ==> r as int == c as int + 32
    ensures !('A' <= c <= 'Z') ==> r == c
  {
    if 'A' <= c <= 'Z' then (c as int + 32) as char else c
  }

  /** JavaScript's `String.prototype.toLowerCase`, for the ASCII letters. */
  function Lower(s: string): (r: string)
    ensures |r| == |s|
    ensures forall i :: 0 <= i < |s| ==> r[i] == ToLowerChar(s[i])
  {
    seq(|s|, i requires 0 <= i < |s| => ToLowerChar(s[i]))
  }

  /** The pieces of a split joined back together with the separator. */
  function Join(pieces: seq<string>, sep: char): string
    requires |pieces| >= 1
    decreases |pieces|
  {
    if |pieces| == 1 then pieces[0] else pieces[0] + [sep] + Join(pieces[1..], sep)
  }

  /** `s.split(sep)` for a one-character separator: the maximal runs between the
      separators, so there is always one piece more than there are separators
      ("" gives [""], "a," gives ["a", ""]). Joining the pieces gives `s` back. */
  function SplitOn(s: string, sep: char): (r: seq<string>)
    ensures |r| >= 1
    ensures forall i :: 0 <= i < |r| ==> sep !in r[i]
    ensures Join(r, sep) == s
    decreases |s|
  {
    if s == [] then [[]]
    else
      var rest := SplitOn(s[1..], sep);
      if s[0] == sep then
        assert Join([[]] + rest, sep) == [] + [sep] + Join(rest, sep);
        [[]] + rest
      else
        var r := [[s[0]] + rest[0]] + rest[1..];
        assert |rest| > 1 ==> Join(r, sep) == [s[0]] + rest[0] + [sep] + Join(rest[1..], sep);
        r
  }

  /** The first piece of a split is what precedes the first separator. */
  lemma {:induction false} SplitFirstPiece(a: string, sep: char, b: string)
    requires sep !in a
    ensures SplitOn(a + [sep] + b, sep)[0] == a
    decreases |a|
  {
    var s := a + [sep] + b;
    if a == [] {
      assert s[0] == sep;
    } else {
      assert s[0] == a[0] && s[1..] == a[1..] + [sep] + b;
      SplitFirstPiece(a[1..], sep, b);
    }
  }

  /** A piece of a `\n` split with one trailing carriage return removed. */
  function DropCr(p: string): (r: string)
    ensures p != [] && p[|p| - 1] == '\r' ==> p == r + ['\r']
    ensures !(p != [] && p[|p| - 1] == '\r') ==> r == p
  {
    if p != [] && p[|p| - 1] == '\r' then p[..|p| - 1] else p
  }

  /** `text.split(/\r?\n/)`: split at every line feed, and a carriage return just
      before a line feed belongs to the separator. The last piece is followed by
      no line feed, so a carriage return ending it stays. */
  function SplitLines(s: string): (r: seq<string>)
    ensures |r| == |SplitOn(s, '\n')|
    ensures forall i :: 0 <= i < |r| ==> '\n' !in r[i]
    ensures r[|r| - 1] == SplitOn(s, '\n')[|r| - 1]
  {
    var pieces := SplitOn(s, '\n');
    seq(|pieces|, i requires 0 <= i < |pieces| =>
      if i < |pieces| - 1 then DropCr(pieces[i]) else pieces[i])
  }

  /** Every line but the last is its `\n` piece with one final carriage return
      dropped, and the last line is its piece unchanged. */
  lemma SplitLinesPieces(s: string)
    ensures forall i :: 0 <= i < |SplitLines(s)| - 1 ==>
      SplitLines(s)[i] == DropCr(SplitOn(s, '\n')[i])
    ensures SplitLines(s)[|SplitLines(s)| - 1] == SplitOn(s, '\n')[|SplitLines(s)| - 1]
  {
  }

  /** Without carriage returns, splitting on `\r?\n` is splitting on `\n`. */
  lemma SplitLinesWithoutCr(s: string)
    requires '\r' !in s
    ensures SplitLines(s) == SplitOn(s, '\n')
  {
    var pieces := SplitOn(s, '\n');
    forall i | 0 <= i < |pieces| - 1 ensures DropCr(pieces[i]) == pieces[i] {
      PieceOfSplit(s, '\n', i, '\r');
    }
  }

  /** A character that is not in `s` is in none of its pieces. */
  lemma {:induction false} PieceOfSplit(s: string, sep: char, i: nat, c: char)
    requires c !in s
    requires i < |SplitOn(s, sep)|
    ensures c !in SplitOn(s, sep)[i]
    decreases |s|
  {
    if s != [] {
      var rest := SplitOn(s[1..], sep);
      assert c !in s[1..] by {
        assert forall k :: 0 <= k < |s[1..]| ==> s[1..][k] == s[k + 1];
      }
      if s[0] == sep {
        if i > 0 { PieceOfSplit(s[1..], sep, i - 1, c); }
      } else {
        PieceOfSplit(s[1..], sep, i, c);
      }
    }
  }

  predicate IsQuote(c: char) { c == '\'' || c == '"' }

  /** `s.replace(/['"]/g, '')`: every single and double quote removed, the
      other characters kept in order. */
  function RemoveQuotes(s: string): (r: string)
    ensures |r| <= |s|
    ensures forall i :: 0 <= i < |r| ==> !IsQuote(r[i]) && r[i] in s
    ensures forall i :: 0 <= i < |s| && !IsQuote(s[i]) ==> s[i] in r
    ensures Seqs.IsSubsequence(r, s)
    ensures forall c :: multiset(r)[c] == if IsQuote(c) then 0 else multiset(s)[c]
  {
    var keep := c => !IsQuote(c);
    Seqs.FilterIsSubsequence(s, keep);
    Seqs.FilterCounts(s, keep);
    Seqs.Filter(s, keep)
  }

  /** `s.startsWith(prefix)`. */
  predicate StartsWith(s: string, prefix: string) {
    |prefix| <= |s| && s[..|prefix|] == prefix
  }

  /** `s.endsWith(suffix)`. */
  predicate EndsWith(s: string, suffix: string) {
    |suffix| <= |s| && s[|s| - |suffix|..] == suffix
  }

  /** `sub` occurs in `s` starting at index `i`. */
  predicate OccursAt(s: string, sub: string, i: nat) {
    i + |sub| <= |s| && s[i..i + |sub|] == sub
  }

  /** `s.includes(sub)`. */
  predicate Contains(s: string, sub: string) {
    exists i: nat :: i <= |s| && OccursAt(s, sub, i)
  }

  /** The decimal digit for `d`. */
  function DigitChar(d: nat): (c: char)
    requires d < 10
    ensures '0' <= c <= '9' && c as int - '0' as int == d
  {
    (d + '0' as int) as char
  }

  /** The number a string of decimal digits denotes, most significant first. */
  function DigitsValue(s: string): int
    decreases |s|
  {
    if s == [] then 0 else DigitsValue(s[..|s| - 1]) * 10 + (s[|s| - 1] as int - '0' as int)
  }

  /** `n.toString()` for a non-negative integer: decimal digits without leading
      zeros that denote `n`. */
  function NatToString(n: nat): (r: string)
    ensures |r| >= 1
    ensures forall i :: 0 <= i < |r| ==> '0' <= r[i] <= '9'
    ensures n < 10 <==> |r| == 1
    ensures |r| > 1 ==> r[0] != '0'
    ensures DigitsValue(r) == n
    decreases n
  {
    if n < 10 then
      assert [DigitChar(n)][..0] == [];
      [DigitChar(n)]
    else
      var r := NatToString(n / 10) + [DigitChar(n % 10)];
      assert r[..|r| - 1] == NatToString(n / 10);
      r
  }

  /** Different numbers have different decimal forms: each denotes its number. */
  lemma NatToStringInjective(m: nat, n: nat)
    requires NatToString(m) == NatToString(n)
    ensures m == n
  {
  }
}
