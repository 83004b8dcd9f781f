/** The table-DSL parser: finds every
      export const X = pgTable("x", (t) => ({ ...columns... }))
    declaration in a schema text and reads each column line of its block,
    deriving the column flags from the modifier chain. */
module DrizzleParser {
  import opened Wrappers
  import opened Strings
  import opened Seqs

  datatype DrizzleColumn = DrizzleColumn(
    name: string,
    typeName: string,
    isPrimaryKey: bool,
    isNotNull: bool,
    hasDefault: bool,
    isUnique: bool)

  datatype DrizzleTable = DrizzleTable(name: string, columns: seq<DrizzleColumn>)

  datatype FileReadError = FileReadError(message: string, path: string)

  /** One match of the table pattern: where it starts and ends, and its
      three capture groups (export binding, literal table name, column block). */
  datatype TableMatch = TableMatch(
    start: nat, end: nat, exportName: string, tableName: string, columnsStr: string)

  /** One match of the column pattern: its three capture groups. */
  datatype ColumnMatch = ColumnMatch(name: string, typeName: string, modifiers: string)

  predicate IsQuote(c: char) { c == '"' || c == '\'' }

  predicate IsNotCloseBrace(c: char) { c != '}' }

  /** `\s*lit` (or `\s+lit` when `needSpace`) at `i`: the position after `lit`. */
  function SpacesThen(s: string, i: nat, needSpace: bool, lit: string): (r: Option<nat>)
    requires i <= |s|
    ensures r.Some? ==> i + |lit| <= r.value <= |s|
  {
    var j := SpanWhile(s, i, IsSpace);
    if (needSpace && j == i) || !LitAt(s, j, lit) then None else Some(j + |lit|)
  }

  /** `export\s+const\s+(\w+)\s+=\s+pgTable\s*\(` at `i`: the bounds of
      the export name and the position after the parenthesis. */
  function MatchHead(s: string, i: nat): (r: Option<(nat, nat, nat)>)
    requires i <= |s|
    ensures r.Some? ==> i < r.value.0 < r.value.1 < r.value.2 <= |s|
    ensures r.Some? ==> IsWord(s[r.value.0..r.value.1])
  {
    if !LitAt(s, i, "export") then None else
    match SpacesThen(s, i + 6, true, "const")
    case None => None
    case Some(a) =>
      var b := SpanWhile(s, a, IsSpace);
      var c := SpanWhile(s, b, IsWordChar);
      if b == a || c == b then None else
      match SpacesThen(s, c, true, "=")
      case None => None
      case Some(d) =>
        match SpacesThen(s, d, true, "pgTable")
        case None => None
        case Some(e) =>
          match SpacesThen(s, e, false, "(")
          case None => None
          case Some(f) => Some((b, c, f))
  }

  /** `\s*["'](\w+)["']` at `i`: the bounds of the table name and the
      position after the closing quote. */
  function MatchQuotedName(s: string, i: nat): (r: Option<(nat, nat, nat)>)
    requires i <= |s|
    ensures r.Some? ==> i < r.value.0 < r.value.1 < r.value.2 <= |s|
    ensures r.Some? ==> IsWord(s[r.value.0..r.value.1])
  {
    var g := SpanWhile(s, i, IsSpace);
    if !(g < |s| && IsQuote(s[g])) then None else
    var h := SpanWhile(s, g + 1, IsWordChar);
    if h == g + 1 || !(h < |s| && IsQuote(s[h])) then None else
    Some((g + 1, h, h + 1))
  }

  /** `\s*,\s*\(t\)\s*=>\s*\(\{([^}]+)\}\)\)` at `i`: the bounds of the
      column block and the end of the match. */
  function MatchColumnsBlock(s: string, i: nat): (r: Option<(nat, nat, nat)>)
    requires i <= |s|
    ensures r.Some? ==> i < r.value.0 < r.value.1 < r.value.2 <= |s|
    ensures r.Some? ==> '}' !in s[r.value.0..r.value.1]
  {
    match SpacesThen(s, i, false, ",")
    case None => None
    case Some(j) =>
      match SpacesThen(s, j, false, "(t)")
      case None => None
      case Some(k) =>
        match SpacesThen(s, k, false, "=>")
        case None => None
        case Some(l) =>
          match SpacesThen(s, l, false, "({")
          case None => None
          case Some(m) =>
            var n := SpanWhile(s, m, IsNotCloseBrace);
            if n == m || !LitAt(s, n, "}))") then None else Some((m, n, n + 3))
  }

  /** The table pattern
        export\s+const\s+(\w+)\s+=\s+pgTable\s*\(\s*["'](\w+)["']\s*,\s*\(t\)\s*=>\s*\(\{([^}]+)\}\)\)
      tried at position `i`. Every quantifier in it is followed by a token
      it cannot consume, so each one takes its maximal run and no
      backtracking can produce another match. */
  function MatchTableAt(s: string, i: nat): (r: Option<TableMatch>)
    requires i <= |s|
    ensures r.Some? ==> r.value.start == i < r.value.end <= |s|
  {
    match MatchHead(s, i)
    case None => None
    case Some((b, c, f)) =>
      match MatchQuotedName(s, f)
      case None => None
      case Some((g, h, j)) =>
        match MatchColumnsBlock(s, j)
        case None => None
        case Some((m, n, e)) => Some(TableMatch(i, e, s[b..c], s[g..h], s[m..n]))
  }

  /** The capture groups of a table match: both names are words, and the
      column block is non-empty and holds no `}`, so a block containing one
      is not recognised as a table. */
  lemma MatchTableAtGroups(s: string, i: nat)
    requires i <= |s|
    ensures var r := MatchTableAt(s, i);
      r.Some? ==> (IsWord(r.value.exportName) && IsWord(r.value.tableName) &&
        |r.value.columnsStr| > 0 && '}' !in r.value.columnsStr)
  {
  }

  /** The positions where a match of the table pattern starts. */
  function TableStarts(s: string): nat -> bool {
    (k: nat) => k <= |s| && MatchTableAt(s, k).Some?
  }

  /** No match of the table pattern starts at a position in [from, to). */
  predicate NoTableIn(s: string, from: nat, to: nat) {
    NoneIn(TableStarts(s), from, to)
  }

  /** What one `exec` of the global table pattern returns when it starts
      searching at `from`: the leftmost match at or after `from`. */
  function FindTable(s: string, from: nat): (r: Option<TableMatch>)
    requires from <= |s|
    ensures r.Some? ==> from <= r.value.start <= |s| && MatchTableAt(s, r.value.start) == r
    ensures r.Some? ==> NoTableIn(s, from, r.value.start)
    ensures r.None? ==> NoTableIn(s, from, |s| + 1)
    decreases |s| - from
  {
    var m := MatchTableAt(s, from);
    if m.Some? then m
    else if from == |s| then None
    else FindTable(s, from + 1)
  }

  /** All matches of the global table pattern from `from` on, as successive
      `exec` calls produce them (each resumes where the previous one ended). */
  function ScanTables(s: string, from: nat): seq<TableMatch>
    requires from <= |s|
    decreases |s| - from
  {
    match FindTable(s, from)
    case None => []
    case Some(m) => [m] + ScanTables(s, m.end)
  }

  /** With no match before it, the search from `from` finds the match at
      `p`. */
  lemma FindTableAt(s: string, from: nat, p: nat)
    requires from <= p <= |s| && TableStarts(s)(p)
    requires NoTableIn(s, from, p)
    ensures FindTable(s, from) == MatchTableAt(s, p)
  {
    var r := FindTable(s, from);
    var f := TableStarts(s);
    NoneInAt(f, from, |s| + 1, p);
    NoneInFirst(f, from, r.value.start, p);
  }

  /** The scan from `from` returns the first match after it, then goes on
      after that match's end: matches come in text order. */
  lemma ScanTablesAt(s: string, from: nat, m: TableMatch)
    requires from <= m.start <= |s| && MatchTableAt(s, m.start) == Some(m)
    requires NoTableIn(s, from, m.start)
    ensures ScanTables(s, from) == [m] + ScanTables(s, m.end)
  {
    FindTableAt(s, from, m.start);
  }

  /** The column pattern `(\w+):\s*t\.(\w+)\([^)]*\)(.*)` tried at `i`.
      Each quantifier but the trailing `(.*)` is followed by a token it
      cannot consume, so each takes its maximal run. The trailing `(.*)` can
      succeed at any length and takes the maximal run up to a line
      terminator, the one tried first. The stages below check the token at
      the end of one run and take the next. `\w+` needs a word character
      where the match starts. */
  function MatchColumnAt(line: string, i: nat): (r: Option<ColumnMatch>)
    requires i <= |line|
    ensures r.Some? ==> IsWord(r.value.name) && IsWord(r.value.typeName)
  {
    if i == |line| || !IsWordChar(line[i]) then None else
    var a := SpanWhile(line, i, IsWordChar);
    MatchColumnColon(line, line[i..a], a)
  }

  /** `:\s*` after the name. */
  function MatchColumnColon(line: string, name: string, a: nat): (r: Option<ColumnMatch>)
    requires a <= |line|
    ensures r.Some? ==> r.value.name == name && IsWord(r.value.typeName)
  {
    if !LitAt(line, a, ":") then None else
    MatchColumnDot(line, name, SpanWhile(line, a + 1, IsSpace))
  }

  /** `t\.(\w+)` after the gap. */
  function MatchColumnDot(line: string, name: string, b: nat): (r: Option<ColumnMatch>)
    requires b <= |line|
    ensures r.Some? ==> r.value.name == name && IsWord(r.value.typeName)
  {
    if !LitAt(line, b, "t.") then None else
    var c := SpanWhile(line, b + 2, IsWordChar);
    if c == b + 2 then None else MatchColumnParen(line, name, line[b + 2..c], c)
  }

  /** `\([^)]*` after the type. */
  function MatchColumnParen(line: string, name: string, typeName: string, c: nat): (r: Option<ColumnMatch>)
    requires c <= |line|
    ensures r.Some? ==> r.value.name == name && r.value.typeName == typeName
  {
    if !LitAt(line, c, "(") then None else
    MatchColumnClose(line, name, typeName, SpanWhile(line, c + 1, IsNotCloseParen))
  }

  /** `\)(.*)` after the arguments. */
  function MatchColumnClose(line: string, name: string, typeName: string, d: nat): (r: Option<ColumnMatch>)
    requires d <= |line|
    ensures r.Some? ==> r.value.name == name && r.value.typeName == typeName
  {
    if !LitAt(line, d, ")") then None else
    Some(ColumnMatch(name, typeName, line[d + 1..SpanWhile(line, d + 1, IsNotLineTerminator)]))
  }

  /** `line.match(COLUMN_REGEX)`: the leftmost match, the pattern being unanchored. */
  function FindColumn(line: string, from: nat): Option<ColumnMatch>
    requires from <= |line|
    decreases |line| - from
  {
    var m := MatchColumnAt(line, from);
    if m.Some? then m
    else if from == |line| then None
    else FindColumn(line, from + 1)
  }

  /** The flags come from substring tests on the modifier chain. */
  function ColumnOf(m: ColumnMatch): DrizzleColumn {
    DrizzleColumn(
      m.name,
      m.typeName,
      Contains(m.modifiers, ".primaryKey()"),
      Contains(m.modifiers, ".notNull()"),
      Contains(m.modifiers, ".default") || Contains(m.modifiers, ".$defaultFn"),
      Contains(m.modifiers, ".unique()"))
  }

  /** A line that is not blank after trimming. */
  predicate NotBlank(line: string) {
    Trim(line) != []
  }

  /** The lines the parser looks at: those not blank after trimming. */
  function NonBlank(lines: seq<string>): seq<string> {
    Filter(NotBlank, lines)
  }

  /** The columns of a list of lines: one per line the column pattern
      matches, in line order; other lines are skipped. */
  function ColumnsOfLines(lines: seq<string>): (r: seq<DrizzleColumn>)
    ensures |r| <= |lines|
    decreases |lines|
  {
    if lines == [] then []
    else
      var last := lines[|lines| - 1];
      ColumnsOfLines(lines[..|lines| - 1]) + (match FindColumn(last, 0) case Some(m) => [ColumnOf(m)] case None => [])
  }

  function ColumnsOf(columnsStr: string): seq<DrizzleColumn> {
    ColumnsOfLines(NonBlank(Split(columnsStr, '\n')))
  }

  /** A table is named by `exportName || tableName || ''`. */
  function TableOf(m: TableMatch): DrizzleTable {
    DrizzleTable(
      if m.exportName != [] then m.exportName else if m.tableName != [] then m.tableName else [],
      ColumnsOf(m.columnsStr))
  }

  function TablesOfMatches(ms: seq<TableMatch>): (r: seq<DrizzleTable>)
    ensures |r| == |ms|
    decreases |ms|
  {
    if ms == [] then [] else [TableOf(ms[0])] + TablesOfMatches(ms[1..])
  }

  /** The tables of a schema text. */
  function Tables(content: string): seq<DrizzleTable> {
    TablesOfMatches(ScanTables(content, 0))
  }

  /** One more line of the column object. */
  lemma ColumnsOfLinesSnoc(lines: seq<string>, idx: nat)
    requires idx < |lines|
    ensures ColumnsOfLines(lines[..idx + 1]) ==
      ColumnsOfLines(lines[..idx]) + match FindColumn(lines[idx], 0) case Some(m) => [ColumnOf(m)] case None => []
  {
    assert lines[..idx + 1][..idx] == lines[..idx];
  }

  /** The loop body's step, for the match it computed. */
  lemma ColumnsOfLinesPush(lines: seq<string>, idx: nat, m: Option<ColumnMatch>)
    requires idx < |lines| && m == FindColumn(lines[idx], 0)
    ensures ColumnsOfLines(lines[..idx + 1]) ==
      ColumnsOfLines(lines[..idx]) + if m.Some? then [ColumnOf(m.value)] else []
  {
    ColumnsOfLinesSnoc(lines, idx);
  }

  /** `parseColumns`: a loop over the non-blank lines that pushes one column
      per line the column pattern matches. */
  method ParseColumns(columnsStr: string) returns (columns: seq<DrizzleColumn>)
    ensures columns == ColumnsOf(columnsStr)
  {
    var columnLines := NonBlank(Split(columnsStr, '\n'));
    columns := PushColumns(columnLines);
  }

  /** The loop of `parseColumns`: one column per line the pattern matches. */
  method PushColumns(columnLines: seq<string>) returns (columns: seq<DrizzleColumn>)
    ensures columns == ColumnsOfLines(columnLines)
  {
    columns := [];
    for idx := 0 to |columnLines|
      invariant columns == ColumnsOfLines(columnLines[..idx])
    {
      var columnMatch := FindColumn(columnLines[idx], 0);
      ColumnsOfLinesPush(columnLines, idx, columnMatch);
      if columnMatch.None? {
        continue;
      }
      columns := columns + [ColumnOf(columnMatch.value)];
    }
    assert columnLines[..|columnLines|] == columnLines;
  }

  /** The scan of `parseDrizzleSchema`: `exec` the global table pattern
      until it returns no match, pushing one table per match. */
  method ParseTables(content: string) returns (tables: seq<DrizzleTable>)
    ensures tables == Tables(content)
  {
    tables := [];
    var lastIndex := 0;
    var found := FindTable(content, lastIndex);
    while found.Some?
      invariant lastIndex <= |content|
      invariant found == FindTable(content, lastIndex)
      invariant tables + TablesOfMatches(ScanTables(content, lastIndex)) == Tables(content)
      decreases |content| - lastIndex
    {
      var m := found.value;
      var columns := ParseColumns(m.columnsStr);
      var name := if m.exportName != [] then m.exportName else if m.tableName != [] then m.tableName else [];
      ghost var rest := ScanTables(content, m.end);
      assert ScanTables(content, lastIndex) == [m] + rest;
      assert ([m] + rest)[1..] == rest;
      assert TablesOfMatches([m] + rest) == [TableOf(m)] + TablesOfMatches(rest);
      assert DrizzleTable(name, columns) == TableOf(m);
      ghost var before := tables;
      tables := tables + [DrizzleTable(name, columns)];
      AppendShift(before, TableOf(m), TablesOfMatches(rest));
      lastIndex := m.end;
      found := FindTable(content, lastIndex);
    }
  }

  // ---------------------------------------------------------------------
  // Properties of the table scan
  // ---------------------------------------------------------------------

  lemma ScanTablesCons(s: string, from: nat)
    requires from <= |s|
    ensures var ms := ScanTables(s, from);
      ms != [] ==> ms[0].end <= |s| && ms == [ms[0]] + ScanTables(s, ms[0].end)
  {
  }

  /** Every match of the scan is a match of the table pattern at its own
      start, at or after where the scan began. */
  lemma {:induction false} ScanTablesMatchAt(s: string, from: nat, k: nat)
    requires from <= |s| && k < |ScanTables(s, from)|
    ensures var m := ScanTables(s, from)[k];
      from <= m.start <= |s| && MatchTableAt(s, m.start) == Some(m)
    decreases k
  {
    var ms := ScanTables(s, from);
    var f := FindTable(s, from);
    assert f.Some?;
    var m := f.value;
    if k > 0 {
      var rest := ScanTables(s, m.end);
      assert ms == [m] + rest;
      ScanTablesMatchAt(s, m.end, k - 1);
      assert ms[k] == rest[k - 1];
    }
  }

  /** The matches come in the order of the text: each starts after the
      previous one ends, and no declaration is skipped in between. */
  lemma {:induction false} ScanTablesGaps(s: string, from: nat)
    requires from <= |s|
    ensures var ms := ScanTables(s, from);
      forall k :: 0 < k < |ms| ==>
        ms[k - 1].end <= ms[k].start <= |s| && NoTableIn(s, ms[k - 1].end, ms[k].start)
    decreases |s| - from
  {
    var ms := ScanTables(s, from);
    if ms != [] {
      ScanTablesCons(s, from);
      var m, rest := ms[0], ScanTables(s, ms[0].end);
      ScanTablesGaps(s, m.end);
      forall k | 0 < k < |ms|
        ensures ms[k - 1].end <= ms[k].start <= |s| && NoTableIn(s, ms[k - 1].end, ms[k].start)
      {
        assert ms[k] == rest[k - 1];
        if k > 1 {
          assert ms[k - 1] == rest[k - 2];
        }
      }
    }
  }

  /** The first match is the leftmost declaration at or after the start. */
  lemma ScanTablesFirst(s: string, from: nat)
    requires from <= |s|
    ensures var ms := ScanTables(s, from);
      (ms == [] ==> NoTableIn(s, from, |s| + 1)) && (ms != [] ==> NoTableIn(s, from, ms[0].start))
  {
  }

  lemma {:induction false} TablesOfMatchesAt(ms: seq<TableMatch>, k: nat)
    requires k < |ms|
    ensures TablesOfMatches(ms)[k] == TableOf(ms[k])
    decreases k
  {
    if k > 0 {
      TablesOfMatchesAt(ms[1..], k - 1);
    }
  }

  /** Table `k` is the `k`-th declaration of the text. It is named by the
      export binding, which the pattern never leaves empty, so the fallback to
      the literal table name never applies; its columns are read from that
      declaration's block. */
  lemma TablesAt(content: string, k: nat)
    requires k < |Tables(content)|
    ensures var m := ScanTables(content, 0)[k];
      Tables(content)[k] == DrizzleTable(m.exportName, ColumnsOf(m.columnsStr)) && m.exportName != []
  {
    var ms := ScanTables(content, 0);
    ScanTablesMatchAt(content, 0, k);
    MatchTableAtGroups(content, ms[k].start);
    TablesOfMatchesAt(ms, k);
  }

  /** The default test is a substring test for `.default`, so every
      `.default...` call counts, `.defaultNow()` included. */
  lemma DefaultCallCounts(m: ColumnMatch, call: string)
    requires Contains(m.modifiers, ".default" + call)
    ensures ColumnOf(m).hasDefault
  {
    ContainsMiddle([], ".default", call);
    assert [] + ".default" + call == ".default" + call;
    ContainsTrans(m.modifiers, ".default" + call, ".default");
  }

  // ---------------------------------------------------------------------
  // Properties of the column reader
  // ---------------------------------------------------------------------

  /** A line the column pattern matches somewhere. */
  predicate HasColumn(line: string) {
    FindColumn(line, 0).Some?
  }

  /** The column such a line declares. */
  function LineColumn(line: string): DrizzleColumn {
    match FindColumn(line, 0)
    case Some(m) => ColumnOf(m)
    case None => ColumnOf(ColumnMatch([], [], []))
  }

  /** The columns are those of the matching lines, one per line, in line
      order: the other lines are dropped without an error. */
  lemma {:induction false} ColumnsOfLinesFilter(lines: seq<string>)
    ensures ColumnsOfLines(lines) == Map(LineColumn, Filter(HasColumn, lines))
    decreases |lines|
  {
    if lines != [] {
      var init, last := lines[..|lines| - 1], lines[|lines| - 1];
      ColumnsOfLinesFilter(init);
      var kept := if HasColumn(last) then [last] else [];
      assert Filter(HasColumn, lines) == Filter(HasColumn, init) + kept;
      MapAppend(LineColumn, Filter(HasColumn, init), kept);
      if HasColumn(last) {
        assert Map(LineColumn, kept) == [LineColumn(last)] by {
          assert kept[..0] == [];
        }
      }
    }
  }

  /** Hence a column block yields at most one column per non-blank line. */
  lemma ColumnsOfBound(columnsStr: string)
    ensures |ColumnsOf(columnsStr)| <= |NonBlank(Split(columnsStr, '\n'))|
    ensures forall c :: c in ColumnsOf(columnsStr) ==>
      exists line :: line in NonBlank(Split(columnsStr, '\n')) && HasColumn(line) && c == LineColumn(line)
  {
    var lines := NonBlank(Split(columnsStr, '\n'));
    ColumnsOfLinesFilter(lines);
    var kept := Filter(HasColumn, lines);
    forall c | c in ColumnsOf(columnsStr)
      ensures exists line :: line in lines && HasColumn(line) && c == LineColumn(line)
    {
      var k :| 0 <= k < |kept| && Map(LineColumn, kept)[k] == c;
      MapAt(LineColumn, kept, k);
      assert kept[k] in kept;
    }
  }

  /** `parseDrizzleSchema`: the file read is a parameter; a failed read
      becomes a `FileReadError` carrying its message and the schema path. */
  method ParseDrizzleSchema(schemaPath: string, read: Result<string, string>)
    returns (r: Result<seq<DrizzleTable>, FileReadError>)
    ensures read.Failure? ==> r == Failure(FileReadError(read.error, schemaPath))
    ensures read.Success? ==> r == Success(Tables(read.value))
  {
    if read.Failure? {
      return Failure(FileReadError(read.error, schemaPath));
    }
    var tables := ParseTables(read.value);
    return Success(tables);
  }
}
