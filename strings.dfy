/** String primitives with the semantics of the JavaScript operations the
    generator relies on: the `\s` and `\w` character classes, `trim`,
    `split` on one character, `join`, `startsWith`/`endsWith`/`includes`,
    a global `replace` of a literal pattern, and ASCII `toLowerCase`. */
module Strings {
  import opened Wrappers

  /** ECMAScript WhiteSpace and LineTerminator code points: the set `\s`
      matches and `String.prototype.trim` removes. */
  predicate IsSpace(c: char) {
    c == ' ' || c == '\t' || c == '\n' || c == '\r' || c == '\U{000B}' || c == '\U{000C}'
    || c == '\U{00A0}' || c == '\U{1680}' || ('\U{2000}' <= c <= '\U{200A}')
    || c == '\U{2028}' || c == '\U{2029}' || c == '\U{202F}' || c == '\U{205F}'
    || c == '\U{3000}' || c == '\U{FEFF}'
  }

  /** The code points `.` does not match without the `s` flag. */
  predicate IsLineTerminator(c: char) {
    c == '\n' || c == '\r' || c == '\U{2028}' || c == '\U{2029}'
  }

  /** The class `.`. */
  predicate IsNotLineTerminator(c: char) { !IsLineTerminator(c) }

  /** The class `[^)]`. */
  predicate IsNotCloseParen(c: char) { c != ')' }

  predicate IsAsciiUpper(c: char) { 'A' <= c <= 'Z' }

  predicate IsAsciiLower(c: char) { 'a' <= c <= 'z' }

  predicate IsDigit(c: char) { '0' <= c <= '9' }

  /** The class `\w` = `[A-Za-z0-9_]`. */
  predicate IsWordChar(c: char) {
    IsAsciiUpper(c) || IsAsciiLower(c) || IsDigit(c) || c == '_'
  }

  predicate IsWord(s: string) {
    |s| > 0 && forall k :: 0 <= k < |s| ==> IsWordChar(s[k])
  }

  /** No word character is white space. */
  lemma WordCharNotSpace(c: char)
    requires IsWordChar(c)
    ensures !IsSpace(c)
  {
  }

  predicate AllSpace(s: string) {
    forall k :: 0 <= k < |s| ==> IsSpace(s[k])
  }

  /** The end of the longest run of characters satisfying `p` that starts at
      `i`: how a greedy `p*` that is followed by a token `p` rejects matches. */
  function SpanWhile(s: string, i: nat, p: char -> bool): (j: nat)
    requires i <= |s|
    ensures i <= j <= |s|
    ensures forall k :: i <= k < j ==> p(s[k])
    ensures j == |s| || !p(s[j])
    decreases |s| - i
  {
    if i < |s| && p(s[i]) then SpanWhile(s, i + 1, p) else i
  }

  /** A run of `p` characters followed by one that is not is the maximal
      run. */
  lemma {:induction false} SpanTo(s: string, i: nat, j: nat, p: char -> bool)
    requires i <= j <= |s|
    requires forall k :: i <= k < j ==> p(s[k])
    requires j == |s| || !p(s[j])
    ensures SpanWhile(s, i, p) == j
    decreases j - i
  {
    if i < j {
      SpanTo(s, i + 1, j, p);
    }
  }

  lemma SpanOver(a: string, b: string, p: char -> bool)
    requires forall k :: 0 <= k < |a| ==> p(a[k])
    requires b != [] ==> !p(b[0])
    ensures SpanWhile(a + b, 0, p) == |a|
  {
    SpanTo(a + b, 0, |a|, p);
  }

  /** A span over a suffix of a concatenation is a span over the suffix. */
  lemma {:induction false} SpanShift(x: string, y: string, i: nat, p: char -> bool)
    requires i <= |y|
    ensures SpanWhile(x + y, |x| + i, p) == |x| + SpanWhile(y, i, p)
    decreases |y| - i
  {
    if i < |y| && p(y[i]) {
      SpanShift(x, y, i + 1, p);
    }
  }

  /** A slice of the second part of a concatenation. */
  lemma SliceShift<T>(x: seq<T>, y: seq<T>, i: nat, j: nat)
    requires i <= j <= |y|
    ensures (x + y)[|x| + i..|x| + j] == y[i..j]
  {
  }

  /** Moving one element across a concatenation. */
  lemma AppendShift<T>(a: seq<T>, x: T, b: seq<T>)
    ensures (a + [x]) + b == a + ([x] + b)
  {
  }

  /** `lit` occurs in `s` at position `i`. */
  predicate LitAt(s: string, i: nat, lit: string) {
    i + |lit| <= |s| && s[i..i + |lit|] == lit
  }

  /** An occurrence inside a slice is an occurrence in the whole string. */
  lemma LitAtSlice(s: string, a: nat, b: nat, q: nat, lit: string)
    requires a <= b <= |s| && LitAt(s[a..b], q, lit)
    ensures a + q + |lit| <= b && LitAt(s, a + q, lit)
  {
    var t := s[a..b];
    var x, y := s[a + q..a + q + |lit|], t[q..q + |lit|];
    forall k | 0 <= k < |lit| ensures x[k] == y[k] {
      assert t[q + k] == s[a + q + k];
    }
    assert x == y;
  }

  /** An occurrence of `x + y` is an occurrence of `x` followed by one of `y`. */
  lemma LitAtSplit(s: string, i: nat, x: string, y: string)
    requires LitAt(s, i, x + y)
    ensures LitAt(s, i, x) && LitAt(s, i + |x|, y)
  {
    assert s[i..i + |x|] == (x + y)[..|x|];
    assert s[i + |x|..i + |x| + |y|] == (x + y)[|x|..];
  }

  /** An occurrence of `x` followed by one of `y` is an occurrence of `x + y`. */
  lemma LitAtJoin(s: string, i: nat, x: string, y: string)
    requires LitAt(s, i, x) && LitAt(s, i + |x|, y)
    ensures LitAt(s, i, x + y)
  {
    assert s[i..i + |x| + |y|] == s[i..i + |x|] + s[i + |x|..i + |x| + |y|];
  }

  /** Five occurrences in a row are one occurrence of their concatenation. */
  lemma LitAtJoin5(s: string, i: nat, x1: string, x2: string, x3: string, x4: string, x5: string)
    requires LitAt(s, i, x1) && LitAt(s, i + |x1|, x2) && LitAt(s, i + |x1| + |x2|, x3)
    requires LitAt(s, i + |x1| + |x2| + |x3|, x4) && LitAt(s, i + |x1| + |x2| + |x3| + |x4|, x5)
    ensures LitAt(s, i, x1 + x2 + x3 + x4 + x5)
  {
    LitAtJoin(s, i, x1, x2);
    LitAtJoin(s, i, x1 + x2, x3);
    LitAtJoin(s, i, x1 + x2 + x3, x4);
    LitAtJoin(s, i, x1 + x2 + x3 + x4, x5);
  }

  /** An occurrence of a five-part concatenation is five occurrences in a row. */
  lemma LitAtSplit5(s: string, i: nat, x1: string, x2: string, x3: string, x4: string, x5: string)
    requires LitAt(s, i, x1 + x2 + x3 + x4 + x5)
    ensures LitAt(s, i, x1) && LitAt(s, i + |x1|, x2) && LitAt(s, i + |x1| + |x2|, x3)
    ensures LitAt(s, i + |x1| + |x2| + |x3|, x4) && LitAt(s, i + |x1| + |x2| + |x3| + |x4|, x5)
  {
    LitAtSplit(s, i, x1 + x2 + x3 + x4, x5);
    LitAtSplit(s, i, x1 + x2 + x3, x4);
    LitAtSplit(s, i, x1 + x2, x3);
    LitAtSplit(s, i, x1, x2);
  }

  /** The characters of an occurrence. */
  lemma LitAtChars(s: string, i: nat, lit: string)
    requires LitAt(s, i, lit)
    ensures forall k :: i <= k < i + |lit| ==> s[k] == lit[k - i]
  {
    forall k | i <= k < i + |lit| ensures s[k] == lit[k - i] {
      assert s[i..i + |lit|][k - i] == s[k];
    }
  }

  predicate StartsWith(s: string, prefix: string) {
    |prefix| <= |s| && s[..|prefix|] == prefix
  }

  predicate EndsWith(s: string, suffix: string) {
    |suffix| <= |s| && s[|s| - |suffix|..] == suffix
  }

  /** `s.includes(sub)`. */
  predicate Contains(s: string, sub: string)
    decreases |s|
  {
    StartsWith(s, sub) || (|s| > 0 && Contains(s[1..], sub))
  }

  lemma {:induction false} ContainsAt(s: string, sub: string, i: nat)
    requires LitAt(s, i, sub)
    ensures Contains(s, sub)
    decreases i
  {
    if i == 0 {
      assert s[..|sub|] == sub;
    } else {
      assert s[1..][i - 1..i - 1 + |sub|] == s[i..i + |sub|];
      ContainsAt(s[1..], sub, i - 1);
    }
  }

  /** An occurrence of `s.includes(sub)` at some position. */
  lemma {:induction false} ContainsLitAt(s: string, sub: string) returns (i: nat)
    requires Contains(s, sub)
    ensures LitAt(s, i, sub)
    decreases |s|
  {
    if StartsWith(s, sub) {
      i := 0;
    } else {
      var j := ContainsLitAt(s[1..], sub);
      assert s[1..][j..j + |sub|] == s[j + 1..j + 1 + |sub|];
      i := j + 1;
    }
  }

  /** A text contains whatever a text it contains contains. */
  lemma ContainsTrans(s: string, t: string, u: string)
    requires Contains(s, t) && Contains(t, u)
    ensures Contains(s, u)
  {
    var i := ContainsLitAt(s, t);
    var j := ContainsLitAt(t, u);
    LitAtChars(s, i, t);
    LitAtChars(t, j, u);
    assert s[i + j..i + j + |u|] == u;
    ContainsAt(s, u, i + j);
  }

  lemma {:induction false} ContainsExtend(a: string, s: string, b: string, sub: string)
    requires Contains(s, sub)
    ensures Contains(a + s + b, sub)
    decreases |s|
  {
    if StartsWith(s, sub) {
      assert (a + s + b)[|a|..|a| + |sub|] == s[..|sub|];
      ContainsAt(a + s + b, sub, |a|);
    } else {
      assert a + s + b == (a + [s[0]]) + s[1..] + b;
      ContainsExtend(a + [s[0]], s[1..], b, sub);
    }
  }

  /** Text added on either side keeps an occurrence. */
  lemma ContainsBefore(s: string, b: string, sub: string)
    requires Contains(s, sub)
    ensures Contains(s + b, sub)
  {
    ContainsExtend([], s, b, sub);
    assert [] + s + b == s + b;
  }

  lemma ContainsAfter(a: string, s: string, sub: string)
    requires Contains(s, sub)
    ensures Contains(a + s, sub)
  {
    ContainsExtend(a, s, [], sub);
    assert a + s + [] == a + s;
  }

  /** A text built around `sub` contains it. */
  lemma ContainsMiddle(a: string, sub: string, b: string)
    ensures Contains(a + sub + b, sub)
  {
    assert (a + sub + b)[|a|..|a| + |sub|] == sub;
    ContainsAt(a + sub + b, sub, |a|);
  }

  /** Whoever contains a text contains each of its prefixes. */
  lemma {:induction false} ContainsPrefixOf(s: string, sub: string, pre: string)
    requires Contains(s, sub) && StartsWith(sub, pre)
    ensures Contains(s, pre)
    decreases |s|
  {
    if StartsWith(s, sub) {
      assert s[..|pre|] == sub[..|pre|];
    } else {
      ContainsPrefixOf(s[1..], sub, pre);
    }
  }

  /** `s.split(sep)`: the maximal separator-free pieces, always at least one. */
  function Split(s: string, sep: char): (parts: seq<string>)
    ensures |parts| >= 1
    decreases |s|
  {
    if s == [] then [[]]
    else
      var rest := Split(s[1..], sep);
      if s[0] == sep then [[]] + rest else [[s[0]] + rest[0]] + rest[1..]
  }

  /** `parts.join(sep)`. */
  function Join(parts: seq<string>, sep: string): string
    decreases |parts|
  {
    if |parts| == 0 then []
    else if |parts| == 1 then parts[0]
    else parts[0] + sep + Join(parts[1..], sep)
  }

  /** Every piece of a join occurs in the joined text. */
  lemma {:induction false} JoinContains(parts: seq<string>, sep: string, k: nat)
    requires k < |parts|
    ensures Contains(Join(parts, sep), parts[k])
    decreases |parts|
  {
    if |parts| == 1 {
      ContainsMiddle([], parts[0], []);
      assert [] + parts[0] + [] == parts[0];
    } else if k == 0 {
      ContainsMiddle([], parts[0], sep + Join(parts[1..], sep));
      assert [] + parts[0] + (sep + Join(parts[1..], sep)) == parts[0] + sep + Join(parts[1..], sep);
    } else {
      JoinContains(parts[1..], sep, k - 1);
      ContainsAfter(parts[0] + sep, Join(parts[1..], sep), parts[k]);
    }
  }

  lemma {:induction false} SplitPiecesHaveNoSeparator(s: string, sep: char)
    ensures forall k :: 0 <= k < |Split(s, sep)| ==> sep !in Split(s, sep)[k]
    decreases |s|
  {
    if s != [] {
      SplitPiecesHaveNoSeparator(s[1..], sep);
    }
  }

  /** Joining the pieces of a split gives back the text. */
  lemma {:induction false} JoinSplit(s: string, sep: char)
    ensures Join(Split(s, sep), [sep]) == s
    decreases |s|
  {
    if s != [] {
      var rest := Split(s[1..], sep);
      JoinSplit(s[1..], sep);
      if s[0] == sep {
        assert Split(s, sep) == [[]] + rest;
      } else if |rest| == 1 {
        assert Split(s, sep) == [[s[0]] + rest[0]];
      } else {
        assert Split(s, sep) == [[s[0]] + rest[0]] + rest[1..];
        assert Join(rest, [sep]) == rest[0] + [sep] + Join(rest[1..], [sep]);
        assert ([[s[0]] + rest[0]] + rest[1..])[1..] == rest[1..];
      }
    }
  }

  lemma {:induction false} SplitNoSeparator(a: string, sep: char)
    requires sep !in a
    ensures Split(a, sep) == [a]
    decreases |a|
  {
    if a != [] {
      SplitNoSeparator(a[1..], sep);
      assert [a[0]] + a[1..] == a;
    }
  }

  lemma {:induction false} SplitAfterPiece(a: string, sep: char, b: string)
    requires sep !in a
    ensures Split(a + [sep] + b, sep) == [a] + Split(b, sep)
    decreases |a|
  {
    if a == [] {
      assert a + [sep] + b == [sep] + b;
      assert ([sep] + b)[1..] == b;
    } else {
      assert (a + [sep] + b)[1..] == a[1..] + [sep] + b;
      SplitAfterPiece(a[1..], sep, b);
      assert [a[0]] + a[1..] == a;
    }
  }

  /** Splitting a join of separator-free pieces gives back the pieces. */
  lemma {:induction false} SplitJoin(parts: seq<string>, sep: char)
    requires |parts| >= 1
    requires forall k :: 0 <= k < |parts| ==> sep !in parts[k]
    ensures Split(Join(parts, [sep]), sep) == parts
    decreases |parts|
  {
    if |parts| == 1 {
      SplitNoSeparator(parts[0], sep);
    } else {
      SplitJoin(parts[1..], sep);
      SplitAfterPiece(parts[0], sep, Join(parts[1..], [sep]));
      assert [parts[0]] + parts[1..] == parts;
    }
  }

  function TrimStart(s: string): (r: string)
    decreases |s|
  {
    if s != [] && IsSpace(s[0]) then TrimStart(s[1..]) else s
  }

  function TrimEnd(s: string): (r: string)
    decreases |s|
  {
    if s != [] && IsSpace(s[|s| - 1]) then TrimEnd(s[..|s| - 1]) else s
  }

  /** `s.trim()`. */
  function Trim(s: string): string {
    TrimEnd(TrimStart(s))
  }

  lemma {:induction false} TrimStartBlank(s: string)
    ensures TrimStart(s) == [] <==> AllSpace(s)
    decreases |s|
  {
    if s != [] && IsSpace(s[0]) {
      TrimStartBlank(s[1..]);
      assert AllSpace(s) <==> AllSpace(s[1..]);
    }
  }

  lemma {:induction false} TrimEndBlank(s: string)
    ensures TrimEnd(s) == [] <==> AllSpace(s)
    decreases |s|
  {
    if s != [] && IsSpace(s[|s| - 1]) {
      TrimEndBlank(s[..|s| - 1]);
      assert AllSpace(s) <==> AllSpace(s[..|s| - 1]);
    }
  }

  lemma {:induction false} TrimStartSuffix(s: string)
    ensures |TrimStart(s)| <= |s| && TrimStart(s) == s[|s| - |TrimStart(s)|..]
    ensures TrimStart(s) != [] ==> !IsSpace(TrimStart(s)[0])
    decreases |s|
  {
    if s != [] && IsSpace(s[0]) {
      TrimStartSuffix(s[1..]);
    }
  }

  lemma {:induction false} TrimEndPrefix(s: string)
    ensures |TrimEnd(s)| <= |s| && TrimEnd(s) == s[..|TrimEnd(s)|]
    ensures TrimEnd(s) != [] ==> !IsSpace(TrimEnd(s)[|TrimEnd(s)| - 1])
    decreases |s|
  {
    if s != [] && IsSpace(s[|s| - 1]) {
      TrimEndPrefix(s[..|s| - 1]);
    }
  }

  /** Leading white space is what `trimStart` removes. */
  lemma {:induction false} TrimStartSpaces(indent: string, s: string)
    requires AllSpace(indent)
    ensures TrimStart(indent + s) == TrimStart(s)
    decreases |indent|
  {
    if indent != [] {
      assert (indent + s)[1..] == indent[1..] + s;
      TrimStartSpaces(indent[1..], s);
    } else {
      assert indent + s == s;
    }
  }

  /** Indenting a trimmed text does not change what `trim` gives back. */
  lemma TrimIndented(indent: string, s: string)
    requires AllSpace(indent) && s != [] && !IsSpace(s[0]) && !IsSpace(s[|s| - 1])
    ensures Trim(indent + s) == s
  {
    TrimStartSpaces(indent, s);
    TrimmedIff(s);
  }

  /** A text is blank after trimming exactly when every character is space. */
  lemma TrimBlank(s: string)
    ensures Trim(s) == [] <==> AllSpace(s)
  {
    TrimStartBlank(s);
    TrimEndBlank(TrimStart(s));
    TrimStartSuffix(s);
  }

  /** `s === s.trim()` exactly when `s` neither starts nor ends with space. */
  lemma TrimmedIff(s: string)
    ensures Trim(s) == s <==> (s == [] || (!IsSpace(s[0]) && !IsSpace(s[|s| - 1])))
  {
    TrimStartSuffix(s);
    TrimEndPrefix(TrimStart(s));
    if s != [] && IsSpace(s[0]) {
      assert |TrimStart(s)| < |s|;
    } else if s != [] && IsSpace(s[|s| - 1]) {
      assert TrimStart(s) == s;
      assert |TrimEnd(s)| < |s|;
    }
  }

  function AsciiLowerChar(c: char): char {
    if IsAsciiUpper(c) then (c as int + 32) as char else c
  }

  /** `toLowerCase` restricted to ASCII letters. */
  function ToLower(s: string): (r: string)
    ensures |r| == |s|
    ensures forall k :: 0 <= k < |s| ==> r[k] == AsciiLowerChar(s[k])
  {
    seq(|s|, k requires 0 <= k < |s| => AsciiLowerChar(s[k]))
  }

  /** Lower-casing leaves no ASCII capital. */
  lemma ToLowerHasNoUpper(s: string)
    ensures forall k :: 0 <= k < |ToLower(s)| ==> !IsAsciiUpper(ToLower(s)[k])
  {
  }

  /** Lower-casing a text without ASCII capitals changes nothing. */
  lemma ToLowerOfLower(s: string)
    requires forall k :: 0 <= k < |s| ==> !IsAsciiUpper(s[k])
    ensures ToLower(s) == s
  {
  }

  /** `s.indexOf(sub, from)`: the leftmost occurrence at or after `from`. */
  function IndexOf(s: string, sub: string, from: nat): (r: Option<nat>)
    requires from <= |s|
    ensures r.Some? ==> from <= r.value <= |s| && LitAt(s, r.value, sub)
    ensures r.Some? ==> forall p :: from <= p < r.value ==> !LitAt(s, p, sub)
    ensures r.None? ==> forall p :: from <= p <= |s| ==> !LitAt(s, p, sub)
    decreases |s| - from
  {
    if LitAt(s, from, sub) then Some(from)
    else if from == |s| then None
    else IndexOf(s, sub, from + 1)
  }

  /** The search finds an occurrence when there is none before it. */
  lemma IndexOfFirst(s: string, sub: string, from: nat, e: nat)
    requires from <= e <= |s| && LitAt(s, e, sub)
    requires forall p :: from <= p < e ==> !LitAt(s, p, sub)
    ensures IndexOf(s, sub, from) == Some(e)
  {
    var r := IndexOf(s, sub, from);
    assert r.Some?;
    assert !(r.value < e);
  }

  /** Global `replace` of the literal, non-empty pattern `pat`: leftmost
      occurrences, left to right, the scan resuming after each replaced
      occurrence, so inserted text is never rescanned. */
  function ReplaceAll(s: string, pat: string, rep: string): string
    requires pat != []
    decreases |s|
  {
    if StartsWith(s, pat) then rep + ReplaceAll(s[|pat|..], pat, rep)
    else if s == [] then []
    else [s[0]] + ReplaceAll(s[1..], pat, rep)
  }

  /** A text without the pattern is left as it is. */
  lemma {:induction false} ReplaceAllAbsent(s: string, pat: string, rep: string)
    requires pat != [] && !Contains(s, pat)
    ensures ReplaceAll(s, pat, rep) == s
    decreases |s|
  {
    if s != [] {
      ReplaceAllAbsent(s[1..], pat, rep);
      assert [s[0]] + s[1..] == s;
    }
  }

  /** An occurrence in the tail of a string is an occurrence one position
      later in the string. */
  lemma LitAtTail(s: string, p: nat, lit: string)
    requires s != []
    ensures LitAt(s[1..], p, lit) <==> LitAt(s, p + 1, lit)
  {
    if p + |lit| <= |s| - 1 {
      assert s[1..][p..p + |lit|] == s[p + 1..p + 1 + |lit|];
    }
  }

  /** Where the pattern does not start, the first character is kept. */
  lemma ReplaceAllSkip(s: string, pat: string, rep: string)
    requires pat != [] && s != [] && !LitAt(s, 0, pat)
    ensures ReplaceAll(s, pat, rep) == [s[0]] + ReplaceAll(s[1..], pat, rep)
  {
    if |pat| <= |s| {
      assert s[..|pat|] == s[0..|pat|];
    }
  }

  /** With its leftmost occurrence at `i`, the pattern is replaced there and
      the scan goes on after it: the text before it is kept as it is. */
  lemma {:induction false} ReplaceAllAt(s: string, pat: string, rep: string, i: nat)
    requires pat != [] && LitAt(s, i, pat)
    requires forall p :: 0 <= p < i ==> !LitAt(s, p, pat)
    ensures ReplaceAll(s, pat, rep) == s[..i] + rep + ReplaceAll(s[i + |pat|..], pat, rep)
    decreases i
  {
    if i == 0 {
      assert s[..|pat|] == s[0..|pat|];
      assert s[..0] == [];
    } else {
      var t := s[1..];
      ReplaceAllSkip(s, pat, rep);
      LitAtTail(s, i - 1, pat);
      forall p | 0 <= p < i - 1 ensures !LitAt(t, p, pat) {
        LitAtTail(s, p, pat);
      }
      ReplaceAllAt(t, pat, rep, i - 1);
      assert t[i - 1 + |pat|..] == s[i + |pat|..];
      ConsAssoc(s, t[..i - 1], rep, ReplaceAll(s[i + |pat|..], pat, rep), i);
    }
  }

  /** The regrouping the induction step of `ReplaceAllAt` needs. */
  lemma ConsAssoc(s: string, a: string, b: string, c: string, i: nat)
    requires 0 < i <= |s| && a == s[1..i]
    ensures [s[0]] + (a + b + c) == s[..i] + b + c
  {
    assert [s[0]] + a == s[..i];
  }

  /** A single pass: text inserted for an occurrence is not scanned again. */
  lemma ReplaceAllOnce(pat: string, rep: string)
    requires pat != []
    ensures ReplaceAll(pat, pat, rep) == rep
  {
    ReplaceAllAt(pat, pat, rep, 0);
    assert pat[|pat|..] == [];
  }

  /** Replacing a pattern by itself changes nothing. */
  lemma {:induction false} ReplaceAllSelf(s: string, pat: string)
    requires pat != []
    ensures ReplaceAll(s, pat, pat) == s
    decreases |s|
  {
    if StartsWith(s, pat) {
      ReplaceAllSelf(s[|pat|..], pat);
      assert pat + s[|pat|..] == s;
    } else if s != [] {
      ReplaceAllSelf(s[1..], pat);
      assert [s[0]] + s[1..] == s;
    }
  }
}
