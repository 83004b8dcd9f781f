/** Reading a column declaration back: the column pattern recovers the
    name, type and modifier chain of any indented declaration written in
    the table DSL's own syntax. */
module DrizzleColumnText {
  import opened Wrappers
  import opened Strings
  import opened DrizzleParser


  /** The text of a column declaration: `name:<gap>t.type(args)` followed
      by its modifier chain. */
  function ColumnText(name: string, gap: string, typeName: string, args: string, modifiers: string): string {
    name + (":" + (gap + ("t." + (typeName + ("(" + (args + (")" + modifiers)))))))
  }

  /** An indented column declaration is read as the column it declares:
      the name, the type, and the flags of its modifier chain. */
  lemma ColumnLineRoundTrip(indent: string, name: string, gap: string, typeName: string, args: string, modifiers: string)
    requires AllSpace(indent) && IsWord(name) && AllSpace(gap) && IsWord(typeName) && ')' !in args
    requires forall k :: 0 <= k < |modifiers| ==> !IsLineTerminator(modifiers[k])
    ensures var line := indent + ColumnText(name, gap, typeName, args, modifiers);
      FindColumn(line, 0) == Some(ColumnMatch(name, typeName, modifiers))
  {
    var text := ColumnText(name, gap, typeName, args, modifiers);
    var line := indent + text;
    assert text[0] == name[0];
    ColumnTextMatch(indent, name, gap, typeName, args, modifiers);
    FindColumnAfter(line, 0, |indent|, ColumnMatch(name, typeName, modifiers));
  }

  /** One column declaration line of a table object: its indentation, the
      gap after the colon, the argument text and the modifier chain. */
  datatype ColumnDecl = ColumnDecl(
    indent: string, name: string, gap: string, typeName: string, args: string, modifiers: string)

  /** What the round trip needs of a declaration. */
  predicate ValidDecl(d: ColumnDecl) {
    AllSpace(d.indent) && IsWord(d.name) && AllSpace(d.gap) && IsWord(d.typeName) && ')' !in d.args &&
    forall k :: 0 <= k < |d.modifiers| ==> !IsLineTerminator(d.modifiers[k])
  }

  function DeclLine(d: ColumnDecl): string {
    d.indent + ColumnText(d.name, d.gap, d.typeName, d.args, d.modifiers)
  }

  /** The column a declaration declares. */
  function DeclColumn(d: ColumnDecl): DrizzleColumn {
    ColumnOf(ColumnMatch(d.name, d.typeName, d.modifiers))
  }

  function DeclLines(ds: seq<ColumnDecl>): (r: seq<string>)
    ensures |r| == |ds|
  {
    if ds == [] then [] else DeclLines(ds[..|ds| - 1]) + [DeclLine(ds[|ds| - 1])]
  }

  function DeclColumns(ds: seq<ColumnDecl>): (r: seq<DrizzleColumn>)
    ensures |r| == |ds|
  {
    if ds == [] then [] else DeclColumns(ds[..|ds| - 1]) + [DeclColumn(ds[|ds| - 1])]
  }

  /** The column loop reads a block of declarations back as the columns
      they declare, one per line and in order. */
  lemma {:induction false} DeclLinesColumns(ds: seq<ColumnDecl>)
    requires forall i :: 0 <= i < |ds| ==> ValidDecl(ds[i])
    ensures ColumnsOfLines(DeclLines(ds)) == DeclColumns(ds)
  {
    if ds != [] {
      var init, d := ds[..|ds| - 1], ds[|ds| - 1];
      var lines := DeclLines(ds);
      DeclLinesColumns(init);
      assert lines[..|lines| - 1] == DeclLines(init);
      ColumnLineRoundTrip(d.indent, d.name, d.gap, d.typeName, d.args, d.modifiers);
    }
  }

  /** Positions holding no word character start no match of the column
      pattern, so the search passes over them to the first match. */
  lemma {:induction false} FindColumnAfter(line: string, from: nat, at: nat, m: ColumnMatch)
    requires from <= at < |line|
    requires forall k :: from <= k < at ==> !IsWordChar(line[k])
    requires MatchColumnAt(line, at) == Some(m)
    ensures FindColumn(line, from) == Some(m)
    decreases at - from
  {
    if from < at {
      NoColumnAt(line, from);
      FindColumnStep(line, from);
      FindColumnAfter(line, from + 1, at, m);
    }
  }

  /** Where the pattern does not match, the search moves on. */
  lemma FindColumnStep(line: string, from: nat)
    requires from < |line| && MatchColumnAt(line, from) == None
    ensures FindColumn(line, from) == FindColumn(line, from + 1)
  {
  }

  /** A name starts with a word character. */
  lemma NoColumnAt(line: string, i: nat)
    requires i < |line| && !IsWordChar(line[i])
    ensures MatchColumnAt(line, i) == None
  {
  }

  /** The column pattern matches an indented declaration where the
      declaration starts. */
  lemma ColumnTextMatch(indent: string, name: string, gap: string, typeName: string, args: string, modifiers: string)
    requires IsWord(name) && AllSpace(gap) && IsWord(typeName) && ')' !in args
    requires forall k :: 0 <= k < |modifiers| ==> !IsLineTerminator(modifiers[k])
    ensures var line := indent + ColumnText(name, gap, typeName, args, modifiers);
      |indent| <= |line| && MatchColumnAt(line, |indent|) == Some(ColumnMatch(name, typeName, modifiers))
  {
    var line := indent + ColumnText(name, gap, typeName, args, modifiers);
    var a := |indent| + |name|;
    var b := a + 1 + |gap|;
    var c := b + 2 + |typeName|;
    var d := c + 1 + |args|;
    IndentedNameSpan(indent, name, gap, typeName, args, modifiers, a);
    IndentedGapSpan(indent, name, gap, typeName, args, modifiers, a, b);
    IndentedTypeSpan(indent, name, gap, typeName, args, modifiers, b, c);
    IndentedArgsSpan(indent, name, gap, typeName, args, modifiers, c, d);
    IndentedModifiersSpan(indent, name, gap, typeName, args, modifiers, d);
    IndentedPieces(indent, name, gap, typeName, args, modifiers, a, b, c, d);
    MatchColumnAtSpans(line, |indent|, a, b, c, d);
  }

  /** The quantifier runs of an indented declaration, one lemma per run:
      the name ends at `a`, the gap at `b`, the type at `c`, the arguments
      at `d`, the modifier chain at the end of the line. */
  lemma IndentedNameSpan(indent: string, name: string, gap: string, typeName: string, args: string, modifiers: string,
                         a: nat)
    requires IsWord(name) && a == |indent| + |name|
    ensures SpanWhile(indent + ColumnText(name, gap, typeName, args, modifiers), |indent|, IsWordChar) == a
  {
    NameSpan(name, gap, typeName, args, modifiers);
    SpanShift(indent, ColumnText(name, gap, typeName, args, modifiers), 0, IsWordChar);
  }

  lemma IndentedGapSpan(indent: string, name: string, gap: string, typeName: string, args: string, modifiers: string,
                        a: nat, b: nat)
    requires AllSpace(gap) && a == |indent| + |name| && b == a + 1 + |gap|
    ensures var line := indent + ColumnText(name, gap, typeName, args, modifiers);
      a + 1 <= |line| && SpanWhile(line, a + 1, IsSpace) == b
  {
    GapSpan(name, gap, typeName, args, modifiers);
    SpanShift(indent, ColumnText(name, gap, typeName, args, modifiers), |name| + 1, IsSpace);
  }

  lemma IndentedTypeSpan(indent: string, name: string, gap: string, typeName: string, args: string, modifiers: string,
                         b: nat, c: nat)
    requires IsWord(typeName) && b == |indent| + |name| + 1 + |gap| && c == b + 2 + |typeName|
    ensures var line := indent + ColumnText(name, gap, typeName, args, modifiers);
      b + 2 <= |line| && SpanWhile(line, b + 2, IsWordChar) == c
  {
    TypeSpan(name, gap, typeName, args, modifiers);
    SpanShift(indent, ColumnText(name, gap, typeName, args, modifiers), |name| + |gap| + 3, IsWordChar);
  }

  lemma IndentedArgsSpan(indent: string, name: string, gap: string, typeName: string, args: string, modifiers: string,
                         c: nat, d: nat)
    requires ')' !in args && c == |indent| + |name| + |gap| + |typeName| + 3 && d == c + 1 + |args|
    ensures var line := indent + ColumnText(name, gap, typeName, args, modifiers);
      c + 1 <= |line| && SpanWhile(line, c + 1, IsNotCloseParen) == d
  {
    ArgsSpan(name, gap, typeName, args, modifiers);
    SpanShift(indent, ColumnText(name, gap, typeName, args, modifiers), |name| + |gap| + |typeName| + 4, IsNotCloseParen);
  }

  lemma IndentedModifiersSpan(indent: string, name: string, gap: string, typeName: string, args: string, modifiers: string,
                              d: nat)
    requires forall k :: 0 <= k < |modifiers| ==> !IsLineTerminator(modifiers[k])
    requires d == |indent| + |name| + |gap| + |typeName| + |args| + 4
    ensures var line := indent + ColumnText(name, gap, typeName, args, modifiers);
      d + 1 <= |line| && SpanWhile(line, d + 1, IsNotLineTerminator) == |line|
  {
    ModifiersSpan(name, gap, typeName, args, modifiers);
    SpanShift(indent, ColumnText(name, gap, typeName, args, modifiers), |name| + |gap| + |typeName| + |args| + 5, IsNotLineTerminator);
  }

  /** The tokens and captures of an indented declaration. */
  lemma IndentedPieces(indent: string, name: string, gap: string, typeName: string, args: string, modifiers: string,
                       a: nat, b: nat, c: nat, d: nat)
    requires a == |indent| + |name| && b == a + 1 + |gap| && c == b + 2 + |typeName| && d == c + 1 + |args|
    ensures var line := indent + ColumnText(name, gap, typeName, args, modifiers);
      d + 1 <= |line| &&
      LitAt(line, a, ":") && LitAt(line, b, "t.") && LitAt(line, c, "(") && LitAt(line, d, ")") &&
      line[|indent|..a] == name && line[b + 2..c] == typeName && line[d + 1..] == modifiers
  {
    var text := ColumnText(name, gap, typeName, args, modifiers);
    var n := |indent|;
    ColonToken(name, gap, typeName, args, modifiers);
    DotToken(name, gap, typeName, args, modifiers);
    ParenTokens(name, gap, typeName, args, modifiers);
    NameCapture(name, gap, typeName, args, modifiers);
    TypeCapture(name, gap, typeName, args, modifiers);
    ModifiersCapture(name, gap, typeName, args, modifiers);
    SliceShift(indent, text, a - n, a - n + 1);
    SliceShift(indent, text, b - n, b - n + 2);
    SliceShift(indent, text, c - n, c - n + 1);
    SliceShift(indent, text, d - n, d - n + 1);
    SliceShift(indent, text, 0, a - n);
    SliceShift(indent, text, b - n + 2, c - n);
    SliceShift(indent, text, d - n + 1, |text|);
  }

  /** The column pattern in terms of the positions where its quantifiers
      stop, one lemma per stage of the pattern. */
  lemma MatchColumnAtSpans(line: string, i: nat, a: nat, b: nat, c: nat, d: nat)
    requires i < a <= |line| && SpanWhile(line, i, IsWordChar) == a && LitAt(line, a, ":")
    requires SpanWhile(line, a + 1, IsSpace) == b && LitAt(line, b, "t.")
    requires b + 2 < c && SpanWhile(line, b + 2, IsWordChar) == c && LitAt(line, c, "(")
    requires SpanWhile(line, c + 1, IsNotCloseParen) == d && LitAt(line, d, ")")
    requires SpanWhile(line, d + 1, IsNotLineTerminator) == |line|
    ensures MatchColumnAt(line, i) == Some(ColumnMatch(line[i..a], line[b + 2..c], line[d + 1..]))
  {
    var name, typeName := line[i..a], line[b + 2..c];
    MatchNameStage(line, i, a);
    MatchColonStage(line, name, a, b);
    MatchDotStage(line, name, b, c);
    MatchParenStage(line, name, typeName, c, d);
    MatchCloseStage(line, name, typeName, d);
  }

  lemma MatchNameStage(line: string, i: nat, a: nat)
    requires i < a <= |line| && SpanWhile(line, i, IsWordChar) == a
    ensures MatchColumnAt(line, i) == MatchColumnColon(line, line[i..a], a)
  {
  }

  lemma MatchColonStage(line: string, name: string, a: nat, b: nat)
    requires a < |line| && LitAt(line, a, ":") && SpanWhile(line, a + 1, IsSpace) == b
    ensures MatchColumnColon(line, name, a) == MatchColumnDot(line, name, b)
  {
  }

  lemma MatchDotStage(line: string, name: string, b: nat, c: nat)
    requires LitAt(line, b, "t.") && b + 2 < c && SpanWhile(line, b + 2, IsWordChar) == c
    ensures MatchColumnDot(line, name, b) == MatchColumnParen(line, name, line[b + 2..c], c)
  {
  }

  lemma MatchParenStage(line: string, name: string, typeName: string, c: nat, d: nat)
    requires LitAt(line, c, "(") && SpanWhile(line, c + 1, IsNotCloseParen) == d
    ensures MatchColumnParen(line, name, typeName, c) == MatchColumnClose(line, name, typeName, d)
  {
  }

  lemma MatchCloseStage(line: string, name: string, typeName: string, d: nat)
    requires LitAt(line, d, ")") && SpanWhile(line, d + 1, IsNotLineTerminator) == |line|
    ensures MatchColumnClose(line, name, typeName, d) == Some(ColumnMatch(name, typeName, line[d + 1..]))
  {
    assert line[d + 1..SpanWhile(line, d + 1, IsNotLineTerminator)] == line[d + 1..];
  }

  /** The declaration's text after the type: `(args)modifiers`. */
  function ColumnTail(args: string, modifiers: string): string {
    "(" + (args + (")" + modifiers))
  }

  /** The declaration's text is its head `name:<gap>t.type` followed by its
      tail. */
  function ColumnHead(name: string, gap: string, typeName: string, tail: string): string {
    name + (":" + (gap + ("t." + (typeName + tail))))
  }

  lemma ColumnTextHead(name: string, gap: string, typeName: string, args: string, modifiers: string)
    ensures ColumnText(name, gap, typeName, args, modifiers) == ColumnHead(name, gap, typeName, ColumnTail(args, modifiers))
  {
  }

  /** A run that starts in the tail is a run of the tail. */
  lemma HeadSpanShift(name: string, gap: string, typeName: string, tail: string, i: nat, p: char -> bool)
    requires i <= |tail|
    ensures var h := |name| + |gap| + |typeName| + 3;
      SpanWhile(ColumnHead(name, gap, typeName, tail), h + i, p) == h + SpanWhile(tail, i, p)
  {
    var r3 := "t." + (typeName + tail);
    var r2 := gap + r3;
    SpanShift(typeName, tail, i, p);
    SpanShift("t.", typeName + tail, |typeName| + i, p);
    SpanShift(gap, r3, |typeName| + 2 + i, p);
    SpanShift(":", r2, |gap| + |typeName| + 2 + i, p);
    SpanShift(name, ":" + r2, |gap| + |typeName| + 3 + i, p);
  }

  /** A slice of the tail is a slice of the declaration. */
  lemma HeadSliceShift(name: string, gap: string, typeName: string, tail: string, i: nat, e: nat)
    requires i <= e <= |tail|
    ensures var h := |name| + |gap| + |typeName| + 3;
      h + e <= |ColumnHead(name, gap, typeName, tail)| &&
      ColumnHead(name, gap, typeName, tail)[h + i..h + e] == tail[i..e]
  {
    var r3 := "t." + (typeName + tail);
    var r2 := gap + r3;
    SliceShift(typeName, tail, i, e);
    SliceShift("t.", typeName + tail, |typeName| + i, |typeName| + e);
    SliceShift(gap, r3, |typeName| + 2 + i, |typeName| + 2 + e);
    SliceShift(":", r2, |gap| + |typeName| + 2 + i, |gap| + |typeName| + 2 + e);
    SliceShift(name, ":" + r2, |gap| + |typeName| + 3 + i, |gap| + |typeName| + 3 + e);
  }

  lemma NameSpan(name: string, gap: string, typeName: string, args: string, modifiers: string)
    requires IsWord(name)
    ensures SpanWhile(ColumnText(name, gap, typeName, args, modifiers), 0, IsWordChar) == |name|
  {
    SpanOver(name, ":" + (gap + ("t." + (typeName + ("(" + (args + (")" + modifiers)))))), IsWordChar);
  }

  lemma GapSpan(name: string, gap: string, typeName: string, args: string, modifiers: string)
    requires AllSpace(gap)
    ensures SpanWhile(ColumnText(name, gap, typeName, args, modifiers), |name| + 1, IsSpace) == |name| + 1 + |gap|
  {
    var r3 := "t." + (typeName + ("(" + (args + (")" + modifiers))));
    var r2 := gap + r3;
    SpanOver(gap, r3, IsSpace);
    SpanShift(":", r2, 0, IsSpace);
    SpanShift(name, ":" + r2, 1, IsSpace);
  }

  lemma TypeSpan(name: string, gap: string, typeName: string, args: string, modifiers: string)
    requires IsWord(typeName)
    ensures SpanWhile(ColumnText(name, gap, typeName, args, modifiers), |name| + |gap| + 3, IsWordChar)
         == |name| + |gap| + 3 + |typeName|
  {
    var r5 := ColumnTail(args, modifiers);
    var r4 := typeName + r5;
    var r3 := "t." + r4;
    var r2 := gap + r3;
    SpanOver(typeName, r5, IsWordChar);
    SpanShift("t.", r4, 0, IsWordChar);
    SpanShift(gap, r3, 2, IsWordChar);
    SpanShift(":", r2, |gap| + 2, IsWordChar);
    SpanShift(name, ":" + r2, |gap| + 3, IsWordChar);
  }

  lemma ArgsSpan(name: string, gap: string, typeName: string, args: string, modifiers: string)
    requires ')' !in args
    ensures SpanWhile(ColumnText(name, gap, typeName, args, modifiers), |name| + |gap| + |typeName| + 4, IsNotCloseParen)
         == |name| + |gap| + |typeName| + 4 + |args|
  {
    var tail := ColumnTail(args, modifiers);
    SpanOver(args, ")" + modifiers, IsNotCloseParen);
    SpanShift("(", args + (")" + modifiers), 0, IsNotCloseParen);
    ColumnTextHead(name, gap, typeName, args, modifiers);
    HeadSpanShift(name, gap, typeName, tail, 1, IsNotCloseParen);
  }

  lemma ModifiersSpan(name: string, gap: string, typeName: string, args: string, modifiers: string)
    requires forall k :: 0 <= k < |modifiers| ==> !IsLineTerminator(modifiers[k])
    ensures var text := ColumnText(name, gap, typeName, args, modifiers);
      |name| + |gap| + |typeName| + |args| + 5 <= |text| &&
      SpanWhile(text, |name| + |gap| + |typeName| + |args| + 5, IsNotLineTerminator) == |text|
  {
    var tail := ColumnTail(args, modifiers);
    SpanTo(modifiers, 0, |modifiers|, IsNotLineTerminator);
    SpanShift("(" + (args + ")"), modifiers, 0, IsNotLineTerminator);
    assert tail == ("(" + (args + ")")) + modifiers;
    ColumnTextHead(name, gap, typeName, args, modifiers);
    HeadSpanShift(name, gap, typeName, tail, |args| + 2, IsNotLineTerminator);
  }

  /** The literal tokens of a declaration, one lemma per token. */
  lemma ColonToken(name: string, gap: string, typeName: string, args: string, modifiers: string)
    ensures LitAt(ColumnText(name, gap, typeName, args, modifiers), |name|, ":")
  {
    var r1 := ":" + (gap + ("t." + (typeName + ColumnTail(args, modifiers))));
    SliceShift(name, r1, 0, 1);
  }

  lemma DotToken(name: string, gap: string, typeName: string, args: string, modifiers: string)
    ensures LitAt(ColumnText(name, gap, typeName, args, modifiers), |name| + 1 + |gap|, "t.")
  {
    var r3 := "t." + (typeName + ColumnTail(args, modifiers));
    var r2 := gap + r3;
    SliceShift(gap, r3, 0, 2);
    SliceShift(":", r2, |gap|, |gap| + 2);
    SliceShift(name, ":" + r2, |gap| + 1, |gap| + 3);
  }

  lemma ParenTokens(name: string, gap: string, typeName: string, args: string, modifiers: string)
    ensures var text := ColumnText(name, gap, typeName, args, modifiers);
      var h := |name| + |gap| + |typeName| + 3;
      LitAt(text, h, "(") && LitAt(text, h + 1 + |args|, ")")
  {
    var tail := ColumnTail(args, modifiers);
    SliceShift(args, ")" + modifiers, 0, 1);
    SliceShift("(", args + (")" + modifiers), |args|, |args| + 1);
    ColumnTextHead(name, gap, typeName, args, modifiers);
    HeadSliceShift(name, gap, typeName, tail, 0, 1);
    HeadSliceShift(name, gap, typeName, tail, 1 + |args|, 2 + |args|);
  }

  /** The captured texts of a declaration. */
  lemma NameCapture(name: string, gap: string, typeName: string, args: string, modifiers: string)
    ensures ColumnText(name, gap, typeName, args, modifiers)[..|name|] == name
  {
  }

  lemma TypeCapture(name: string, gap: string, typeName: string, args: string, modifiers: string)
    ensures var text := ColumnText(name, gap, typeName, args, modifiers);
      |name| + |gap| + |typeName| + 3 <= |text| && text[|name| + |gap| + 3..|name| + |gap| + |typeName| + 3] == typeName
  {
    var r4 := typeName + ColumnTail(args, modifiers);
    var r3 := "t." + r4;
    var r2 := gap + r3;
    assert r4[..|typeName|] == typeName;
    SliceShift("t.", r4, 0, |typeName|);
    SliceShift(gap, r3, 2, |typeName| + 2);
    SliceShift(":", r2, |gap| + 2, |gap| + |typeName| + 2);
    SliceShift(name, ":" + r2, |gap| + 3, |gap| + |typeName| + 3);
  }

  lemma ModifiersCapture(name: string, gap: string, typeName: string, args: string, modifiers: string)
    ensures var text := ColumnText(name, gap, typeName, args, modifiers);
      var m := |name| + |gap| + |typeName| + |args| + 5;
      m <= |text| && text[m..] == modifiers
  {
    var tail := ColumnTail(args, modifiers);
    assert tail == ("(" + (args + ")")) + modifiers;
    SliceShift("(" + (args + ")"), modifiers, 0, |modifiers|);
    ColumnTextHead(name, gap, typeName, args, modifiers);
    HeadSliceShift(name, gap, typeName, tail, |args| + 2, |tail|);
  }
}
