/** `fixUpdatedAtFields`: the script that appends `.$onUpdate(() => new
    Date())` to every `updatedAt` timestamp column of a generated Drizzle
    schema that does not have it yet, and counts the columns it changed. */
module FixUpdatedAt {
  import opened Wrappers
  import opened Strings
  import opened Fs
  import Seqs

  const Field := "updatedAt:"
  const Timestamp := "timestamp("
  const NotNull := ").notNull()"
  /** The text the negative lookahead refuses. */
  const OnUpdate := ".$onUpdate"
  /** What a replacement appends to the matched text. */
  const OnUpdateCall := ".$onUpdate(() => new Date())"

  /** The end of a match at `p` of the pattern without its lookahead,
      `\s+updatedAt:\s*timestamp\([^)]+\)\.notNull\(\)`. Each greedy run is
      followed by a character it cannot match, so backtracking never makes a
      shorter run succeed: the pattern matches deterministically. */
  function Candidate(s: string, p: nat): (r: Option<nat>)
    ensures r.Some? ==> p < r.value <= |s|
  {
    if p < |s| && IsSpace(s[p]) then AfterSpaces(s, SpanWhile(s, p, IsSpace)) else None
  }

  /** The rest of a match after `\s+`: `updatedAt:\s*` at `q`. */
  function AfterSpaces(s: string, q: nat): (r: Option<nat>)
    requires q <= |s|
    ensures r.Some? ==> q < r.value <= |s|
  {
    if LitAt(s, q, Field) then AfterField(s, SpanWhile(s, q + |Field|, IsSpace)) else None
  }

  /** The rest after `updatedAt:\s*`: `timestamp(` at `r`. */
  function AfterField(s: string, r: nat): (x: Option<nat>)
    requires r <= |s|
    ensures x.Some? ==> r < x.value <= |s|
  {
    if LitAt(s, r, Timestamp) then Arguments(s, r + |Timestamp|) else None
  }

  /** The rest after `timestamp(`: `[^)]+` from `a`, then `).notNull()`. */
  function Arguments(s: string, a: nat): (r: Option<nat>)
    requires a <= |s|
    ensures r.Some? ==> a < r.value <= |s|
  {
    var t := SpanWhile(s, a, IsNotCloseParen);
    if a < t && LitAt(s, t, NotNull) then Some(t + |NotNull|) else None
  }

  /** A match of the whole pattern at `p`: the lookahead `(?!\.\$onUpdate)`
      refuses a column that already has the call. */
  function MatchAt(s: string, p: nat): (r: Option<nat>)
    ensures r.Some? ==> p < r.value <= |s|
  {
    match Candidate(s, p)
    case None => None
    case Some(e) => if LitAt(s, e, OnUpdate) then None else Some(e)
  }

  /** A regular expression with the global flag, as the end of its match at
      each position of one text. */
  type Matcher = (string, nat) -> Option<nat>

  /** Every match of `m` in `s` ends after it starts and inside the text. */
  predicate Advances(m: Matcher, s: string) {
    forall p: nat :: p <= |s| && m(s, p).Some? ==> p < m(s, p).value <= |s|
  }

  /** The `updatedAt` pattern as a matcher. */
  const Pattern: Matcher := (t: string, p: nat) => MatchAt(t, p)

  lemma PatternAdvances(s: string)
    ensures Advances(Pattern, s)
  {
    forall p: nat | p <= |s| && Pattern(s, p).Some?
      ensures p < Pattern(s, p).value <= |s|
    {
      assert Pattern(s, p) == MatchAt(s, p);
    }
  }

  /** `String.prototype.replace` with a global pattern and a callback that
      appends `rep` to each match, from position `from` on: the new text and
      the number of times the callback ran. The scan tries each position in
      turn and resumes where a match ends. */
  function ReplaceMatches(s: string, from: nat, m: Matcher, rep: string): (string, nat)
    requires from <= |s| && Advances(m, s)
    decreases |s| - from
  {
    if from == |s| then ([], 0)
    else match m(s, from)
      case Some(e) =>
        var rest := ReplaceMatches(s, e, m, rep);
        (s[from..e] + rep + rest.0, rest.1 + 1)
      case None =>
        var rest := ReplaceMatches(s, from + 1, m, rep);
        ([s[from]] + rest.0, rest.1)
  }

  /** The rewrite of a whole schema: the fixed text and the number of
      columns changed. */
  function Fix(s: string): (string, nat) {
    PatternAdvances(s);
    ReplaceMatches(s, 0, Pattern, OnUpdateCall)
  }

  /** `replace` with a global pattern and a counting callback, as the
      regular-expression engine's scan over the text. */
  method ReplaceGlobal(content: string, m: Matcher, rep: string) returns (fixed: string, changesCount: nat)
    requires Advances(m, content)
    ensures (fixed, changesCount) == ReplaceMatches(content, 0, m, rep)
  {
    fixed, changesCount := [], 0;
    var i := 0;
    assert [] + ReplaceMatches(content, 0, m, rep).0 == ReplaceMatches(content, 0, m, rep).0;
    while i < |content|
      invariant i <= |content|
      invariant ReplaceMatches(content, 0, m, rep).0 == fixed + ReplaceMatches(content, i, m, rep).0
      invariant ReplaceMatches(content, 0, m, rep).1 == changesCount + ReplaceMatches(content, i, m, rep).1
      decreases |content| - i
    {
      var found := m(content, i);
      if found.Some? {
        var e := found.value;
        ReplaceAtMatch(content, i, m, rep);
        Seqs.AppendAssoc(fixed, content[i..e] + rep, ReplaceMatches(content, e, m, rep).0);
        fixed := fixed + (content[i..e] + rep);
        changesCount := changesCount + 1;
        i := e;
      } else {
        Seqs.AppendAssoc(fixed, [content[i]], ReplaceMatches(content, i + 1, m, rep).0);
        fixed := fixed + [content[i]];
        i := i + 1;
      }
    }
    assert ReplaceMatches(content, i, m, rep) == ([], 0);
    assert fixed + [] == fixed;
  }

  /** `fixUpdatedAtFields` on the schema text: the rewritten text and the
      number of columns changed. */
  method FixUpdatedAtFields(content: string) returns (fixed: string, changesCount: nat)
    ensures (fixed, changesCount) == Fix(content)
  {
    PatternAdvances(content);
    fixed, changesCount := ReplaceGlobal(content, Pattern, OnUpdateCall);
  }

  /** The script: read the schema, rewrite it, write it back. A read error
      ends the script with its message. */
  method FixSchemaFile(schemaPath: string, read: Result<string, string>)
    returns (r: Result<(FsOp, nat), string>)
    ensures read.Failure? ==> r == Failure(read.error)
    ensures read.Success? ==>
      r == Success((WriteFile(schemaPath, Fix(read.value).0), Fix(read.value).1))
  {
    if read.Failure? {
      return Failure(read.error);
    }
    var schemaContent, changesCount := FixUpdatedAtFields(read.value);
    return Success((WriteFile(schemaPath, schemaContent), changesCount));
  }

  // ---------------------------------------------------------------------
  // Properties
  // ---------------------------------------------------------------------

  /** A match is replaced by the matched text followed by `rep`. */
  lemma ReplaceAtMatch(s: string, from: nat, m: Matcher, rep: string)
    requires from < |s| && Advances(m, s) && m(s, from).Some?
    ensures var e := m(s, from).value;
      ReplaceMatches(s, from, m, rep).0 == (s[from..e] + rep) + ReplaceMatches(s, e, m, rep).0 &&
      ReplaceMatches(s, from, m, rep).1 == ReplaceMatches(s, e, m, rep).1 + 1
  {
  }

  /** The replacement only inserts: the text grows by one `rep` per match. */
  lemma {:induction false} ReplaceLength(s: string, from: nat, m: Matcher, rep: string)
    requires from <= |s| && Advances(m, s)
    ensures |ReplaceMatches(s, from, m, rep).0| == |s| - from + |rep| * ReplaceMatches(s, from, m, rep).1
    decreases |s| - from
  {
    if from < |s| {
      match m(s, from)
      case Some(e) =>
        ReplaceLength(s, e, m, rep);
        var n := ReplaceMatches(s, e, m, rep).1;
        assert |rep| * (n + 1) == |rep| * n + |rep|;
      case None =>
        ReplaceLength(s, from + 1, m, rep);
    }
  }

  /** A text without a match is kept as it is, with no change counted. */
  lemma {:induction false} ReplaceWithoutMatch(s: string, from: nat, m: Matcher, rep: string)
    requires from <= |s| && Advances(m, s)
    requires forall p :: from <= p < |s| ==> m(s, p).None?
    ensures ReplaceMatches(s, from, m, rep) == (s[from..], 0)
    decreases |s| - from
  {
    if from < |s| {
      ReplaceWithoutMatch(s, from + 1, m, rep);
      assert [s[from]] + s[from + 1..] == s[from..];
    }
  }

  /** Spans `(start, end)` that lie in `[lo, hi]`, each after the one
      before it and none empty. */
  predicate Ascending(lo: nat, spans: seq<(nat, nat)>, hi: nat)
    decreases |spans|
  {
    spans == [] ||
    (lo <= spans[0].0 < spans[0].1 <= hi && Ascending(spans[0].1, spans[1..], hi))
  }

  /** The matches the scan from `from` finds, in order. */
  function Matches(s: string, from: nat, m: Matcher): (r: seq<(nat, nat)>)
    requires from <= |s| && Advances(m, s)
    ensures Ascending(from, r, |s|)
    ensures forall i :: 0 <= i < |r| ==> m(s, r[i].0) == Some(r[i].1)
    decreases |s| - from
  {
    if from == |s| then []
    else match m(s, from)
      case Some(e) => [(from, e)] + Matches(s, e, m)
      case None => Matches(s, from + 1, m)
  }

  /** `s` from `lo` on with `rep` inserted after each span. */
  function InsertAfter(s: string, lo: nat, spans: seq<(nat, nat)>, rep: string): string
    requires lo <= |s| && Ascending(lo, spans, |s|)
    decreases |spans|
  {
    if spans == [] then s[lo..]
    else s[lo..spans[0].1] + rep + InsertAfter(s, spans[0].1, spans[1..], rep)
  }

  /** The replacement keeps the text outside the matches: it is the text
      with `rep` inserted after each match the scan finds, and the count is
      the number of those matches. */
  lemma {:induction false} ReplaceInserts(s: string, from: nat, m: Matcher, rep: string)
    requires from <= |s| && Advances(m, s)
    ensures ReplaceMatches(s, from, m, rep) == (InsertAfter(s, from, Matches(s, from, m), rep), |Matches(s, from, m)|)
    decreases |s| - from
  {
    if from < |s| {
      match m(s, from)
      case Some(e) =>
        ReplaceInserts(s, e, m, rep);
        assert Matches(s, from, m)[1..] == Matches(s, e, m);
      case None =>
        ReplaceInserts(s, from + 1, m, rep);
        InsertAfterStep(s, from, Matches(s, from + 1, m), rep);
    }
  }

  /** The first character before every span comes through unchanged. */
  lemma InsertAfterStep(s: string, lo: nat, spans: seq<(nat, nat)>, rep: string)
    requires lo < |s| && Ascending(lo + 1, spans, |s|)
    ensures Ascending(lo, spans, |s|)
    ensures InsertAfter(s, lo, spans, rep) == [s[lo]] + InsertAfter(s, lo + 1, spans, rep)
  {
    if spans == [] {
      assert s[lo..] == [s[lo]] + s[lo + 1..];
    } else {
      var e := spans[0].1;
      assert Ascending(e, spans[1..], |s|);
      var rest := InsertAfter(s, e, spans[1..], rep);
      assert InsertAfter(s, lo + 1, spans, rep) == s[lo + 1..e] + rep + rest;
      assert InsertAfter(s, lo, spans, rep) == s[lo..e] + rep + rest;
      assert s[lo..e] == [s[lo]] + s[lo + 1..e];
    }
  }

  /** `fixUpdatedAtFields` changes nothing but the columns it counts: the
      new schema is the old one with `.$onUpdate(() => new Date())` inserted
      after each match, and `changesCount` is the number of matches. */
  lemma FixInserts(s: string)
    ensures Advances(Pattern, s)
    ensures Fix(s) == (InsertAfter(s, 0, Matches(s, 0, Pattern), OnUpdateCall), |Matches(s, 0, Pattern)|)
  {
    PatternAdvances(s);
    ReplaceInserts(s, 0, Pattern, OnUpdateCall);
  }

  /** Every match is an `updatedAt` column of the pattern's shape that
      lacked the call. */
  lemma FixMatchIsColumn(s: string, ms: seq<(nat, nat)>, i: nat)
    requires Advances(Pattern, s) && ms == Matches(s, 0, Pattern) && i < |ms|
    ensures (exists q, r, t :: ColumnShape(s, ms[i].0, q, r, t, ms[i].1)) && !LitAt(s, ms[i].1, OnUpdate)
  {
    PatternMatch(s, ms[i].0, ms[i].1);
  }

  lemma PatternMatch(s: string, p: nat, e: nat)
    requires Pattern(s, p) == Some(e)
    ensures (exists q, r, t :: ColumnShape(s, p, q, r, t, e)) && !LitAt(s, e, OnUpdate)
  {
    MatchAtSpec(s, p, e);
  }

  /** The schema grows by one `$onUpdate` call per changed column. */
  lemma FixLength(s: string)
    ensures |Fix(s).0| == |s| + |OnUpdateCall| * Fix(s).1
  {
    PatternAdvances(s);
    ReplaceLength(s, 0, Pattern, OnUpdateCall);
  }

  /** A schema without an `updatedAt` column that lacks the call is written
      back unchanged, and no change is counted. */
  lemma FixWithoutMatch(s: string)
    requires forall p :: 0 <= p < |s| ==> MatchAt(s, p).None?
    ensures Fix(s) == (s, 0)
  {
    PatternAdvances(s);
    forall p | 0 <= p < |s| ensures Pattern(s, p).None? {
      assert Pattern(s, p) == MatchAt(s, p);
    }
    ReplaceWithoutMatch(s, 0, Pattern, OnUpdateCall);
  }

  /** The first character of an occurrence. */
  lemma LitAtFirst(s: string, i: nat, lit: string)
    requires LitAt(s, i, lit) && |lit| > 0
    ensures i < |s| && s[i] == lit[0]
  {
    assert s[i..i + |lit|][0] == s[i];
  }

  /** The pattern `\s+updatedAt:\s*timestamp\([^)]+\)\.notNull\(\)` read
      at `p` with its groups bounded by `q`, `r` and `t`: spaces on `[p, q)`,
      `updatedAt:` at `q`, spaces up to `r`, `timestamp(` at `r`, a non-empty
      run without `)` up to `t`, and `).notNull()` at `t`, ending at `e`. */
  predicate ColumnShape(s: string, p: nat, q: nat, r: nat, t: nat, e: nat) {
    p < q && LitAt(s, q, Field) && (forall k :: p <= k < q ==> IsSpace(s[k])) &&
    q + |Field| <= r && LitAt(s, r, Timestamp) && (forall k :: q + |Field| <= k < r ==> IsSpace(s[k])) &&
    r + |Timestamp| < t && LitAt(s, t, NotNull) && (forall k :: r + |Timestamp| <= k < t ==> s[k] != ')') &&
    e == t + |NotNull|
  }

  /** The scan is the pattern: a candidate ends at `e` exactly when the text
      from `p` to `e` has the pattern's shape, so the greedy runs never need
      to backtrack. */
  lemma CandidateSpec(s: string, p: nat, e: nat)
    ensures Candidate(s, p) == Some(e) <==> exists q, r, t :: ColumnShape(s, p, q, r, t, e)
  {
    if Candidate(s, p) == Some(e) {
      var q := SpanWhile(s, p, IsSpace);
      assert AfterSpaces(s, q) == Some(e);
      var r := SpanWhile(s, q + |Field|, IsSpace);
      assert AfterField(s, r) == Some(e);
      var t := SpanWhile(s, r + |Timestamp|, IsNotCloseParen);
      assert ColumnShape(s, p, q, r, t, e);
    }
    if exists q, r, t :: ColumnShape(s, p, q, r, t, e) {
      var q, r, t :| ColumnShape(s, p, q, r, t, e);
      ShapeSpans(s, p, q, r, t, e);
    }
  }

  /** The groups of a shape are the greedy runs. */
  lemma ShapeSpans(s: string, p: nat, q: nat, r: nat, t: nat, e: nat)
    requires ColumnShape(s, p, q, r, t, e)
    ensures Candidate(s, p) == Some(e)
  {
    RunBefore(s, r + |Timestamp|, t, NotNull, IsNotCloseParen);
    assert AfterField(s, r) == Some(e);
    RunBefore(s, q + |Field|, r, Timestamp, IsSpace);
    assert AfterSpaces(s, q) == Some(e);
    RunBefore(s, p, q, Field, IsSpace);
  }

  /** A run of `f` characters that a literal ends is the greedy run, when
      the literal's first character fails `f`. */
  lemma RunBefore(s: string, i: nat, j: nat, lit: string, f: char -> bool)
    requires i <= j && LitAt(s, j, lit) && |lit| > 0 && !f(lit[0])
    requires forall k :: i <= k < j ==> f(s[k])
    ensures SpanWhile(s, i, f) == j
  {
    LitAtFirst(s, j, lit);
    SpanTo(s, i, j, f);
  }

  /** A match is a column of that shape that is not already followed by
      `.$onUpdate`; one that is, is left alone. */
  lemma MatchAtSpec(s: string, p: nat, e: nat)
    ensures MatchAt(s, p) == Some(e) <==>
      (exists q, r, t :: ColumnShape(s, p, q, r, t, e)) && !LitAt(s, e, OnUpdate)
  {
    CandidateSpec(s, p, e);
  }
}
