/** The database package's `generate-effect-schemas` script: it scans the
    generated Drizzle schema for `pgTable` exports, reads each table's
    column object, classifies its columns, and writes three Effect files
    per table (schemas, types and form schemas). */
module EffectSchemas {
  import opened Wrappers
  import opened Strings
  import opened Seqs
  import opened Fs
  import opened Templates

  /** The fixed configuration of the script. */
  const SchemaFilePath := "./src/generated/drizzle/schema.ts"
  const OutputDir := "./src/generated/effect"

  // ---------------------------------------------------------------------
  // Table names: the global pattern `export const (\w+) = pgTable\(`
  // ---------------------------------------------------------------------

  const ExportHead := "export const "
  const ExportTail := " = pgTable("

  /** One match of the export pattern: where it starts and ends, and its
      capture group. */
  datatype ExportMatch = ExportMatch(start: nat, end: nat, name: string)

  /** The export pattern tried at `i`. `\w+` is followed by a space, which
      it cannot consume, so it takes its maximal run. */
  function MatchExportAt(s: string, i: nat): (r: Option<ExportMatch>)
    requires i <= |s|
    ensures r.Some? ==> r.value.start == i < r.value.end <= |s|
    ensures r.Some? ==> IsWord(r.value.name)
    ensures r.Some? ==> r.value.end == i + |ExportHead + r.value.name + ExportTail|
    ensures r.Some? ==> LitAt(s, i, ExportHead + r.value.name + ExportTail)
  {
    if !LitAt(s, i, ExportHead) then None else
    var a := i + |ExportHead|;
    var b := SpanWhile(s, a, IsWordChar);
    if b == a || !LitAt(s, b, ExportTail) then None
    else
      assert s[i..b + |ExportTail|] == s[i..a] + s[a..b] + s[b..b + |ExportTail|];
      Some(ExportMatch(i, b + |ExportTail|, s[a..b]))
  }

  /** The converse: wherever the export text of a word occurs, the pattern
      matches there and captures that word. */
  lemma MatchExportAtComplete(s: string, i: nat, w: string)
    requires i <= |s| && IsWord(w) && LitAt(s, i, ExportHead + w + ExportTail)
    ensures MatchExportAt(s, i) == Some(ExportMatch(i, i + |ExportHead + w + ExportTail|, w))
  {
    var a := i + |ExportHead|;
    var b := a + |w|;
    LitAtSplit(s, i, ExportHead + w, ExportTail);
    LitAtSplit(s, i, ExportHead, w);
    LitAtChars(s, a, w);
    LitAtChars(s, b, ExportTail);
    SpanTo(s, a, b, IsWordChar);
    MatchExportAtOf(s, i, b);
  }

  /** The export pattern in terms of where its `\w+` stops. */
  lemma MatchExportAtOf(s: string, i: nat, b: nat)
    requires LitAt(s, i, ExportHead) && i + |ExportHead| < b
    requires SpanWhile(s, i + |ExportHead|, IsWordChar) == b && LitAt(s, b, ExportTail)
    ensures MatchExportAt(s, i) == Some(ExportMatch(i, b + |ExportTail|, s[i + |ExportHead|..b]))
  {
  }

  /** No match of the export pattern starts at a position in [from, to). */
  predicate NoExportIn(s: string, from: nat, to: nat)
    requires to <= |s| + 1
    decreases if from < to then to - from else 0
  {
    from >= to || (MatchExportAt(s, from).None? && NoExportIn(s, from + 1, to))
  }

  /** One `exec` of the global pattern whose `lastIndex` is `from`: the
      leftmost match that starts at or after `from`. */
  function FindExport(s: string, from: nat): (r: Option<ExportMatch>)
    requires from <= |s|
    ensures r.Some? ==> from <= r.value.start < r.value.end <= |s| && r.value.name != []
    decreases |s| - from
  {
    var m := MatchExportAt(s, from);
    if m.Some? then m
    else if from == |s| then None
    else FindExport(s, from + 1)
  }

  /** The match found is the leftmost one at or after `from`. */
  lemma {:induction false} FindExportLeftmost(s: string, from: nat)
    requires from <= |s|
    ensures var r := FindExport(s, from);
      (r.Some? ==> MatchExportAt(s, r.value.start) == r && NoExportIn(s, from, r.value.start))
      && (r.None? ==> NoExportIn(s, from, |s| + 1))
    decreases |s| - from
  {
    if MatchExportAt(s, from).None? && from < |s| {
      FindExportLeftmost(s, from + 1);
    }
  }

  /** The matches successive `exec` calls return, each resuming at the end
      of the previous match, until one returns `null`. */
  function ScanExports(s: string, from: nat): seq<ExportMatch>
    requires from <= |s|
    decreases |s| - from
  {
    match FindExport(s, from)
    case None => []
    case Some(m) => [m] + ScanExports(s, m.end)
  }

  function NamesOf(ms: seq<ExportMatch>): (r: seq<string>)
    ensures |r| == |ms|
    ensures forall k :: 0 <= k < |ms| ==> r[k] == ms[k].name
    decreases |ms|
  {
    if ms == [] then [] else [ms[0].name] + NamesOf(ms[1..])
  }

  /** The table names the script finds, in the order of the exports. */
  function TableNames(s: string): seq<string> {
    NamesOf(ScanExports(s, 0))
  }

  /** A scan is its first match followed by the scan from that match's end. */
  lemma ScanExportsCons(s: string, from: nat)
    requires from <= |s|
    ensures var ms := ScanExports(s, from);
      ms != [] ==> ms[0].end <= |s| && ms == [ms[0]] + ScanExports(s, ms[0].end)
  {
  }

  /** The first match of a scan is the leftmost one at or after its start. */
  lemma ScanExportsFirst(s: string, from: nat)
    requires from <= |s|
    ensures var ms := ScanExports(s, from);
      |ms| > 0 ==>
        (from <= ms[0].start <= |s| && MatchExportAt(s, ms[0].start) == Some(ms[0])
         && NoExportIn(s, from, ms[0].start))
  {
    FindExportLeftmost(s, from);
  }

  /** Every element of a scan is a match at its own start. */
  lemma {:induction false} ScanExportsMatch(s: string, from: nat)
    requires from <= |s|
    ensures var ms := ScanExports(s, from);
      forall k :: 0 <= k < |ms| ==> ms[k].start <= |s| && MatchExportAt(s, ms[k].start) == Some(ms[k])
    decreases |s| - from
  {
    var ms := ScanExports(s, from);
    if ms != [] {
      ScanExportsFirst(s, from);
      ScanExportsCons(s, from);
      var rest := ScanExports(s, ms[0].end);
      ScanExportsMatch(s, ms[0].end);
      forall k | 0 < k < |ms| ensures ms[k].start <= |s| && MatchExportAt(s, ms[k].start) == Some(ms[k]) {
        assert ms[k] == rest[k - 1];
      }
    }
  }

  /** Nothing matches between the end of one match and the start of the
      next. */
  lemma {:induction false} ScanExportsGaps(s: string, from: nat)
    requires from <= |s|
    ensures var ms := ScanExports(s, from);
      forall k :: 0 < k < |ms| ==>
        ms[k].start <= |s| && ms[k - 1].end <= ms[k].start && NoExportIn(s, ms[k - 1].end, ms[k].start)
    decreases |s| - from
  {
    var ms := ScanExports(s, from);
    if ms != [] {
      ScanExportsCons(s, from);
      var m, rest := ms[0], ScanExports(s, ms[0].end);
      ScanExportsFirst(s, m.end);
      ScanExportsGaps(s, m.end);
      forall k | 0 < k < |ms|
        ensures ms[k].start <= |s| && ms[k - 1].end <= ms[k].start && NoExportIn(s, ms[k - 1].end, ms[k].start)
      {
        assert ms[k] == rest[k - 1];
        if k > 1 {
          assert ms[k - 1] == rest[k - 2];
        }
      }
    }
  }

  /** Nothing matches after the end of the last match. */
  lemma {:induction false} ScanExportsLast(s: string, from: nat)
    requires from <= |s|
    ensures var ms := ScanExports(s, from);
      NoExportIn(s, if |ms| == 0 then from else ms[|ms| - 1].end, |s| + 1)
    decreases |s| - from
  {
    var ms := ScanExports(s, from);
    FindExportLeftmost(s, from);
    if ms != [] {
      ScanExportsCons(s, from);
      var rest := ScanExports(s, ms[0].end);
      ScanExportsLast(s, ms[0].end);
      if rest != [] {
        assert ms[|ms| - 1] == rest[|rest| - 1];
      }
    }
  }

  /** The scan is the sequence of leftmost matches: each one is a match,
      nothing matches between the end of one and the start of the next,
      and nothing matches after the last. */
  lemma ScanExportsLeftmost(s: string, from: nat)
    requires from <= |s|
    ensures var ms := ScanExports(s, from);
      (forall k :: 0 <= k < |ms| ==> ms[k].start <= |s| && MatchExportAt(s, ms[k].start) == Some(ms[k]))
      && (forall k :: 0 < k < |ms| ==> ms[k - 1].end <= ms[k].start && NoExportIn(s, ms[k - 1].end, ms[k].start))
      && (|ms| > 0 ==> from <= ms[0].start && NoExportIn(s, from, ms[0].start))
      && NoExportIn(s, if |ms| == 0 then from else ms[|ms| - 1].end, |s| + 1)
  {
    FindExportLeftmost(s, from);
    ScanExportsFirst(s, from);
    ScanExportsMatch(s, from);
    ScanExportsGaps(s, from);
    ScanExportsLast(s, from);
  }

  /** Every name found is a word whose export declaration occurs in the
      text. */
  lemma {:induction false} TableNamesDeclared(s: string)
    ensures forall k :: 0 <= k < |TableNames(s)| ==>
      IsWord(TableNames(s)[k]) && Contains(s, ExportHead + TableNames(s)[k] + ExportTail)
  {
    ScanExportsLeftmost(s, 0);
    var ms := ScanExports(s, 0);
    forall k | 0 <= k < |ms|
      ensures IsWord(ms[k].name) && Contains(s, ExportHead + ms[k].name + ExportTail)
    {
      assert MatchExportAt(s, ms[k].start) == Some(ms[k]);
      ContainsAt(s, ExportHead + ms[k].name + ExportTail, ms[k].start);
    }
  }

  /** `extractTableNames`: `exec` the global pattern until it returns
      `null`, pushing each non-empty capture. */
  method ExtractTableNames(schemaContent: string) returns (tableNames: seq<string>)
    ensures tableNames == TableNames(schemaContent)
  {
    tableNames := [];
    var lastIndex := 0;
    var found := FindExport(schemaContent, lastIndex);
    while found.Some?
      invariant lastIndex <= |schemaContent|
      invariant found == FindExport(schemaContent, lastIndex)
      invariant tableNames + NamesOf(ScanExports(schemaContent, lastIndex)) == TableNames(schemaContent)
      decreases |schemaContent| - lastIndex
    {
      var m := found.value;
      ghost var rest := ScanExports(schemaContent, m.end);
      assert ScanExports(schemaContent, lastIndex) == [m] + rest;
      assert ([m] + rest)[1..] == rest;
      assert NamesOf([m] + rest) == [m.name] + NamesOf(rest);
      ghost var before := tableNames;
      if m.name != [] {
        tableNames := tableNames + [m.name];
      }
      AppendShift(before, m.name, NamesOf(rest));
      lastIndex := m.end;
      found := FindExport(schemaContent, lastIndex);
    }
    assert ScanExports(schemaContent, lastIndex) == [];
  }

  // ---------------------------------------------------------------------
  // Table information
  // ---------------------------------------------------------------------

  /** The column types the script distinguishes. */
  datatype ColumnKind =
    | TextColumn | IntegerColumn | BooleanColumn | TimestampColumn
    | EnumColumn | ArrayColumn | DoublePrecisionColumn

  datatype ColumnInfo = ColumnInfo(name: string, kind: ColumnKind, isOptional: bool, isArray: bool)

  datatype TableInfo = TableInfo(name: string, columns: seq<ColumnInfo>)

  /** The head of the per-table pattern
        export const <tableName> = pgTable\('\w+', \{([\s\S]*?)\}, \(
      where the table name is spliced into the pattern as it is. */
  function DefinitionHead(tableName: string): string {
    "export const " + tableName + " = pgTable('"
  }

  const ObjectOpen := "', {"
  const ObjectClose := "}, ("

  /** The per-table pattern tried at `i`: its capture group. `\w+` is
      followed by a quote, so it takes its maximal run; the lazy
      `[\s\S]*?` stops at the first `}, (` after the object opens. */
  function MatchDefinitionAt(s: string, tableName: string, i: nat): Option<string>
    requires i <= |s|
  {
    var head := DefinitionHead(tableName);
    if !LitAt(s, i, head) then None else
    var a := i + |head|;
    var b := SpanWhile(s, a, IsWordChar);
    if b == a || !LitAt(s, b, ObjectOpen) then None else
    match IndexOf(s, ObjectClose, b + |ObjectOpen|)
    case None => None
    case Some(p) => Some(s[b + |ObjectOpen|..p])
  }

  /** A definition match is the head of the pattern, a word, `', {`, the
      captured column object and `}, (`, with no `}, (` before that one:
      the capture stops at the first `}, (` after the object opens. */
  lemma MatchDefinitionAtSpec(s: string, tableName: string, i: nat)
    requires i <= |s|
    ensures var r := MatchDefinitionAt(s, tableName, i);
      r.Some? ==>
        && (exists w :: DefinitionText(s, tableName, i, w, r.value))
        && forall q :: 0 <= q < |r.value| ==> !LitAt(r.value, q, ObjectClose)
  {
    var head := DefinitionHead(tableName);
    if LitAt(s, i, head) {
      var a := i + |head|;
      var b := SpanWhile(s, a, IsWordChar);
      if b != a && LitAt(s, b, ObjectOpen) {
        var start := b + |ObjectOpen|;
        var found := IndexOf(s, ObjectClose, start);
        if found.Some? {
          var body := s[start..found.value];
          assert MatchDefinitionAt(s, tableName, i) == Some(body);
          CaptureHasNoClose(s, start, found.value);
          DefinitionTextOf(s, tableName, i, s[a..b], start, found.value);
          assert DefinitionText(s, tableName, i, s[a..b], body);
        }
      }
    }
  }

  /** Text that holds no `}, (` in `s` holds none on its own. */
  lemma CaptureHasNoClose(s: string, start: nat, p: nat)
    requires start <= p <= |s|
    requires forall q :: start <= q < p ==> !LitAt(s, q, ObjectClose)
    ensures forall q :: 0 <= q < |s[start..p]| ==> !LitAt(s[start..p], q, ObjectClose)
  {
    var body := s[start..p];
    forall q | 0 <= q < |body| ensures !LitAt(body, q, ObjectClose) {
      if LitAt(body, q, ObjectClose) {
        LitAtSlice(s, start, p, q, ObjectClose);
      }
    }
  }

  /** The pieces of a definition text, found one after another. */
  lemma DefinitionTextOf(s: string, tableName: string, i: nat, w: string, start: nat, p: nat)
    requires IsWord(w) && LitAt(s, i, DefinitionHead(tableName))
    requires LitAt(s, i + |DefinitionHead(tableName)|, w)
    requires LitAt(s, i + |DefinitionHead(tableName)| + |w|, ObjectOpen)
    requires start == i + |DefinitionHead(tableName)| + |w| + |ObjectOpen|
    requires start <= p && LitAt(s, p, ObjectClose)
    requires forall q :: start <= q < p ==> !LitAt(s, q, ObjectClose)
    ensures DefinitionText(s, tableName, i, w, s[start..p])
  {
    var body := s[start..p];
    assert LitAt(s, start, body);
    LitAtJoin5(s, i, DefinitionHead(tableName), w, ObjectOpen, body, ObjectClose);
  }

  /** At `i` stand the head of the pattern, the word `w`, `', {`, `body`
      and `}, (`, and no `}, (` starts inside `body`. */
  predicate DefinitionText(s: string, tableName: string, i: nat, w: string, body: string) {
    var start := i + |DefinitionHead(tableName)| + |w| + |ObjectOpen|;
    && IsWord(w)
    && LitAt(s, i, DefinitionHead(tableName) + w + ObjectOpen + body + ObjectClose)
    && forall p :: start <= p < start + |body| ==> !LitAt(s, p, ObjectClose)
  }

  /** The converse: where such a text stands, the pattern matches there and
      captures exactly its column object. */
  lemma MatchDefinitionAtText(s: string, tableName: string, i: nat, w: string, body: string)
    requires i <= |s| && DefinitionText(s, tableName, i, w, body)
    ensures MatchDefinitionAt(s, tableName, i) == Some(body)
  {
    var head := DefinitionHead(tableName);
    var a := i + |head|;
    var start := a + |w| + |ObjectOpen|;
    LitAtSplit5(s, i, head, w, ObjectOpen, body, ObjectClose);
    LitAtChars(s, a, w);
    LitAtChars(s, a + |w|, ObjectOpen);
    SpanTo(s, a, a + |w|, IsWordChar);
    IndexOfFirst(s, ObjectClose, start, start + |body|);
  }

  /** The pattern matches wherever its head, a word and `', {` stand with
      some `}, (` after them. */
  lemma MatchDefinitionAtSome(s: string, tableName: string, i: nat, w: string, p: nat)
    requires i <= |s| && IsWord(w) && LitAt(s, i, DefinitionHead(tableName) + w + ObjectOpen)
    requires i + |DefinitionHead(tableName)| + |w| + |ObjectOpen| <= p && LitAt(s, p, ObjectClose)
    ensures MatchDefinitionAt(s, tableName, i).Some?
  {
    var head := DefinitionHead(tableName);
    var a := i + |head|;
    LitAtSplit(s, i, head + w, ObjectOpen);
    LitAtSplit(s, i, head, w);
    LitAtChars(s, a, w);
    LitAtChars(s, a + |w|, ObjectOpen);
    SpanTo(s, a, a + |w|, IsWordChar);
    var found := IndexOf(s, ObjectClose, a + |w| + |ObjectOpen|);
    assert found.Some?;
  }

  /** The first `exec` of the per-table pattern: the leftmost match. */
  function FindDefinition(s: string, tableName: string, from: nat): Option<string>
    requires from <= |s|
    decreases |s| - from
  {
    var m := MatchDefinitionAt(s, tableName, from);
    if m.Some? then m
    else if from == |s| then None
    else FindDefinition(s, tableName, from + 1)
  }

  /** The pattern matches at no position in `from..to`. */
  predicate NoDefinitionIn(s: string, tableName: string, from: nat, to: nat) {
    forall j :: from <= j < to && j <= |s| ==> MatchDefinitionAt(s, tableName, j).None?
  }

  /** The definition found is the match at the leftmost position where the
      pattern matches, and none is found only when it matches nowhere. */
  lemma {:induction false} FindDefinitionLeftmost(s: string, tableName: string, from: nat)
    requires from <= |s|
    ensures var r := FindDefinition(s, tableName, from);
      (r.Some? ==> exists i :: from <= i <= |s| && MatchDefinitionAt(s, tableName, i) == r && NoDefinitionIn(s, tableName, from, i))
      && (r.None? ==> forall i :: from <= i <= |s| ==> MatchDefinitionAt(s, tableName, i).None?)
    decreases |s| - from
  {
    if MatchDefinitionAt(s, tableName, from).Some? {
      assert MatchDefinitionAt(s, tableName, from) == FindDefinition(s, tableName, from);
    } else if from < |s| {
      FindDefinitionLeftmost(s, tableName, from + 1);
      var r := FindDefinition(s, tableName, from);
      if r.Some? {
        var i :| from + 1 <= i <= |s| && MatchDefinitionAt(s, tableName, i) == r && NoDefinitionIn(s, tableName, from + 1, i);
        assert NoDefinitionIn(s, tableName, from, i);
      }
    }
  }

  /** The classification of a column: the first rule that applies wins. */
  function ColumnKindOf(typeName: string, isArray: bool): (k: ColumnKind)
    ensures isArray <==> k == ArrayColumn
    ensures !isArray && typeName == "integer" ==> k == IntegerColumn
    ensures !isArray && typeName == "boolean" ==> k == BooleanColumn
    ensures !isArray && typeName == "timestamp" ==> k == TimestampColumn
    ensures !isArray && typeName == "doublePrecision" ==> k == DoublePrecisionColumn
    ensures k == EnumColumn <==>
      !isArray && typeName !in {"integer", "boolean", "timestamp", "doublePrecision"}
      && (EndsWith(typeName, "Status") || EndsWith(typeName, "Type") || EndsWith(typeName, "Role"))
    ensures k == TextColumn <==>
      !isArray && typeName !in {"integer", "boolean", "timestamp", "doublePrecision"}
      && !(EndsWith(typeName, "Status") || EndsWith(typeName, "Type") || EndsWith(typeName, "Role"))
  {
    if isArray then ArrayColumn
    else if typeName == "integer" then IntegerColumn
    else if typeName == "boolean" then BooleanColumn
    else if typeName == "timestamp" then TimestampColumn
    else if typeName == "doublePrecision" then DoublePrecisionColumn
    else if EndsWith(typeName, "Status") || EndsWith(typeName, "Type") || EndsWith(typeName, "Role") then EnumColumn
    else TextColumn
  }

  /** One match of the column pattern: its three capture groups. */
  datatype ColumnMatch = ColumnMatch(name: string, typeName: string, modifiers: string)

  /** The anchored column pattern `^(\w+):\s*(\w+)\([^)]*\)(.*)` on a
      trimmed line. Each quantifier but the last is followed by a token it
      cannot consume, so each takes its maximal run. The trailing `(.*)` can
      succeed at any length; its maximal run up to a line terminator is the
      one tried first, so it is the one taken. */
  function MatchColumnLine(line: string): (r: Option<ColumnMatch>)
    ensures r.Some? ==> IsWord(r.value.name) && IsWord(r.value.typeName)
  {
    var a := SpanWhile(line, 0, IsWordChar);
    if a == 0 || !LitAt(line, a, ":") then None else
    var b := SpanWhile(line, a + 1, IsSpace);
    var c := SpanWhile(line, b, IsWordChar);
    if c == b || !LitAt(line, c, "(") then None else
    var d := SpanWhile(line, c + 1, IsNotCloseParen);
    if !LitAt(line, d, ")") then None else
    var e := SpanWhile(line, d + 1, IsNotLineTerminator);
    Some(ColumnMatch(line[..a], line[b..c], line[d + 1..e]))
  }

  /** A column's flags come from substring tests on its modifier chain. */
  function ColumnInfoOf(m: ColumnMatch): (c: ColumnInfo)
    ensures c.name == m.name
    ensures c.isArray <==> c.kind == ArrayColumn
    ensures c.isArray <==> Contains(m.modifiers, ".array()")
    ensures !Contains(m.modifiers, ".notNull()") ==> c.isOptional
    ensures c.isArray && Contains(m.modifiers, ".default(") ==> c.isOptional
    ensures c.isOptional && !c.isArray ==> !Contains(m.modifiers, ".notNull()")
    ensures c.isOptional && c.isArray && Contains(m.modifiers, ".notNull()") ==> Contains(m.modifiers, ".default(")
    ensures c.kind == ColumnKindOf(m.typeName, c.isArray)
  {
    var isArray := Contains(m.modifiers, ".array()");
    var hasDefault := Contains(m.modifiers, ".default(");
    var isOptional := !Contains(m.modifiers, ".notNull()") || (isArray && hasDefault);
    ColumnInfo(m.name, ColumnKindOf(m.typeName, isArray), isOptional, isArray)
  }

  /** A line of the column object yields a column unless it is blank, a
      `//` comment, or does not match the column pattern once trimmed. */
  function ColumnOfLine(line: string): (r: Option<ColumnInfo>)
    ensures r.Some? ==> IsWord(r.value.name)
    ensures Trim(line) == [] || StartsWith(Trim(line), "//") ==> r.None?
  {
    var trimmedLine := Trim(line);
    if trimmedLine == [] || StartsWith(trimmedLine, "//") then None
    else
      match MatchColumnLine(trimmedLine)
      case None => None
      case Some(m) => Some(ColumnInfoOf(m))
  }

  function ColumnsOfLines(lines: seq<string>): (r: seq<ColumnInfo>)
    ensures |r| <= |lines|
    decreases |lines|
  {
    if lines == [] then []
    else
      ColumnsOfLines(lines[..|lines| - 1])
      + (match ColumnOfLine(lines[|lines| - 1]) case Some(c) => [c] case None => [])
  }

  function DefinitionNotFound(tableName: string): string {
    "Could not find table definition for " + tableName
  }

  /** `extractTableInfo`: a table whose definition is missing, or whose
      column object is empty, is an error. */
  function TableInfoOf(s: string, tableName: string): (r: Result<TableInfo, string>)
    ensures r.Failure? <==>
      FindDefinition(s, tableName, 0).None? || FindDefinition(s, tableName, 0).value == []
    ensures r.Failure? ==> r.error == DefinitionNotFound(tableName)
    ensures r.Success? ==>
      && r.value.name == tableName
      && r.value.columns == ColumnsOfLines(Split(FindDefinition(s, tableName, 0).value, '\n'))
  {
    match FindDefinition(s, tableName, 0)
    case None => Failure(DefinitionNotFound(tableName))
    case Some(body) =>
      if body == [] then Failure(DefinitionNotFound(tableName))
      else Success(TableInfo(tableName, ColumnsOfLines(Split(body, '\n'))))
  }

  /** `extractTableInfo` with its loop over the lines of the column object. */
  method ExtractTableInfo(schemaContent: string, tableName: string) returns (r: Result<TableInfo, string>)
    ensures r == TableInfoOf(schemaContent, tableName)
  {
    var found := FindDefinition(schemaContent, tableName, 0);
    if found.None? || found.value == [] {
      return Failure(DefinitionNotFound(tableName));
    }
    var lines := Split(found.value, '\n');
    var columns := [];
    for idx := 0 to |lines|
      invariant columns == ColumnsOfLines(lines[..idx])
    {
      assert lines[..idx + 1][..idx] == lines[..idx];
      var trimmedLine := Trim(lines[idx]);
      if trimmedLine == [] || StartsWith(trimmedLine, "//") {
        continue;
      }
      var columnMatch := MatchColumnLine(trimmedLine);
      if columnMatch.None? {
        continue;
      }
      var m := columnMatch.value;
      var isArray := Contains(m.modifiers, ".array()");
      var hasDefault := Contains(m.modifiers, ".default(");
      var isOptional := !Contains(m.modifiers, ".notNull()") || (isArray && hasDefault);
      var columnType := TextColumn;
      if isArray {
        columnType := ArrayColumn;
      } else if m.typeName == "integer" {
        columnType := IntegerColumn;
      } else if m.typeName == "boolean" {
        columnType := BooleanColumn;
      } else if m.typeName == "timestamp" {
        columnType := TimestampColumn;
      } else if m.typeName == "doublePrecision" {
        columnType := DoublePrecisionColumn;
      } else if EndsWith(m.typeName, "Status") || EndsWith(m.typeName, "Type") || EndsWith(m.typeName, "Role") {
        columnType := EnumColumn;
      }
      columns := columns + [ColumnInfo(m.name, columnType, isOptional, isArray)];
    }
    assert lines[..|lines|] == lines;
    return Success(TableInfo(tableName, columns));
  }

  /** The text of a column declaration: `name: type(args)` followed by
      its modifier chain. */
  function ColumnDecl(name: string, typeName: string, args: string, modifiers: string): string {
    name + (": " + (typeName + ("(" + (args + (")" + modifiers)))))
  }

  /** A column declaration, indented and followed by its modifier chain,
      is read back as the column it declares. */
  lemma ColumnLineRoundTrip(indent: string, name: string, typeName: string, args: string, modifiers: string)
    requires AllSpace(indent) && IsWord(name) && IsWord(typeName)
    requires ')' !in args
    requires forall k :: 0 <= k < |modifiers| ==> !IsLineTerminator(modifiers[k])
    requires modifiers == [] || !IsSpace(modifiers[|modifiers| - 1])
    ensures ColumnOfLine(indent + ColumnDecl(name, typeName, args, modifiers))
         == Some(ColumnInfoOf(ColumnMatch(name, typeName, modifiers)))
  {
    var decl := ColumnDecl(name, typeName, args, modifiers);
    assert decl[0] == name[0];
    assert decl[|decl| - 1] == if modifiers == [] then ')' else modifiers[|modifiers| - 1];
    TrimIndented(indent, decl);
    assert !StartsWith(decl, "//") by {
      assert decl[0] == name[0];
    }
    ColumnMatchOf(name, typeName, args, modifiers);
  }

  /** The column pattern captures the name, the type and the modifier
      chain of a declaration. */
  lemma ColumnMatchOf(name: string, typeName: string, args: string, modifiers: string)
    requires IsWord(name) && IsWord(typeName) && ')' !in args
    requires forall k :: 0 <= k < |modifiers| ==> !IsLineTerminator(modifiers[k])
    ensures MatchColumnLine(ColumnDecl(name, typeName, args, modifiers))
         == Some(ColumnMatch(name, typeName, modifiers))
  {
    var decl := ColumnDecl(name, typeName, args, modifiers);
    var a, b, c, d := |name|, |name| + 2, |name| + 2 + |typeName|, |name| + 3 + |typeName| + |args|;
    DeclSpans(name, typeName, args, modifiers, decl, a, b, c, d);
    DeclPieces(name, typeName, args, modifiers, decl, a, b, c, d);
    MatchColumnLineAt(decl, a, b, c, d);
  }

  /** Where the quantifiers of the column pattern stop in a declaration. */
  lemma DeclSpans(name: string, typeName: string, args: string, modifiers: string,
                  decl: string, a: nat, b: nat, c: nat, d: nat)
    requires IsWord(name) && IsWord(typeName) && ')' !in args
    requires forall k :: 0 <= k < |modifiers| ==> !IsLineTerminator(modifiers[k])
    requires decl == ColumnDecl(name, typeName, args, modifiers)
    requires a == |name| && b == a + 2 && c == b + |typeName| && d == c + 1 + |args|
    ensures SpanWhile(decl, 0, IsWordChar) == a
    ensures SpanWhile(decl, a + 1, IsSpace) == b
    ensures SpanWhile(decl, b, IsWordChar) == c
    ensures SpanWhile(decl, c + 1, IsNotCloseParen) == d
    ensures SpanWhile(decl, d + 1, IsNotLineTerminator) == |decl|
  {
    DeclNameSpan(name, typeName, args, modifiers);
    DeclGapSpan(name, typeName, args, modifiers);
    DeclTypeSpan(name, typeName, args, modifiers);
    DeclArgsSpan(name, typeName, args, modifiers);
    DeclModifiersSpan(name, typeName, args, modifiers);
  }

  /** The literal tokens and the captured texts of a declaration. */
  lemma DeclPieces(name: string, typeName: string, args: string, modifiers: string,
                   decl: string, a: nat, b: nat, c: nat, d: nat)
    requires decl == ColumnDecl(name, typeName, args, modifiers)
    requires a == |name| && b == a + 2 && c == b + |typeName| && d == c + 1 + |args|
    ensures LitAt(decl, a, ":") && LitAt(decl, c, "(") && LitAt(decl, d, ")")
    ensures decl[..a] == name && decl[b..c] == typeName && decl[d + 1..] == modifiers
  {
    DeclTokens(name, typeName, args, modifiers);
    DeclCaptures(name, typeName, args, modifiers);
  }

  lemma DeclNameSpan(name: string, typeName: string, args: string, modifiers: string)
    requires IsWord(name)
    ensures SpanWhile(ColumnDecl(name, typeName, args, modifiers), 0, IsWordChar) == |name|
  {
    SpanOver(name, ": " + (typeName + ("(" + (args + (")" + modifiers)))), IsWordChar);
  }

  lemma DeclGapSpan(name: string, typeName: string, args: string, modifiers: string)
    requires IsWord(typeName)
    ensures SpanWhile(ColumnDecl(name, typeName, args, modifiers), |name| + 1, IsSpace) == |name| + 2
  {
    var r1 := ": " + (typeName + ("(" + (args + (")" + modifiers))));
    assert r1[1] == ' ' && r1[2] == typeName[0];
    WordCharNotSpace(typeName[0]);
    assert SpanWhile(r1, 2, IsSpace) == 2;
    SpanShift(name, r1, 1, IsSpace);
  }

  lemma DeclTypeSpan(name: string, typeName: string, args: string, modifiers: string)
    requires IsWord(typeName)
    ensures SpanWhile(ColumnDecl(name, typeName, args, modifiers), |name| + 2, IsWordChar) == |name| + 2 + |typeName|
  {
    var r3 := "(" + (args + (")" + modifiers));
    var r2 := typeName + r3;
    var r1 := ": " + r2;
    assert r3[0] == '(';
    SpanOver(typeName, r3, IsWordChar);
    SpanShift(": ", r2, 0, IsWordChar);
    assert SpanWhile(r1, 2, IsWordChar) == 2 + |typeName|;
    SpanShift(name, r1, 2, IsWordChar);
  }

  lemma DeclArgsSpan(name: string, typeName: string, args: string, modifiers: string)
    requires ')' !in args
    ensures SpanWhile(ColumnDecl(name, typeName, args, modifiers), |name| + 3 + |typeName|, IsNotCloseParen)
         == |name| + 3 + |typeName| + |args|
  {
    var r5 := ")" + modifiers;
    var r3 := "(" + (args + r5);
    SpanShift(name, ": " + (typeName + r3), 3 + |typeName|, IsNotCloseParen);
    SpanShift(": ", typeName + r3, 1 + |typeName|, IsNotCloseParen);
    SpanShift(typeName, r3, 1, IsNotCloseParen);
    SpanShift("(", args + r5, 0, IsNotCloseParen);
    SpanOver(args, r5, IsNotCloseParen);
  }

  lemma DeclModifiersSpan(name: string, typeName: string, args: string, modifiers: string)
    requires forall k :: 0 <= k < |modifiers| ==> !IsLineTerminator(modifiers[k])
    ensures var decl := ColumnDecl(name, typeName, args, modifiers);
      SpanWhile(decl, |name| + 4 + |typeName| + |args|, IsNotLineTerminator) == |decl|
  {
    var r5 := ")" + modifiers;
    var r4 := args + r5;
    var r3 := "(" + r4;
    var k := 4 + |typeName| + |args|;
    SpanShift(name, ": " + (typeName + r3), k, IsNotLineTerminator);
    SpanShift(": ", typeName + r3, k - 2, IsNotLineTerminator);
    SpanShift(typeName, r3, k - 2 - |typeName|, IsNotLineTerminator);
    SpanShift("(", r4, 1 + |args|, IsNotLineTerminator);
    SpanShift(args, r5, 1, IsNotLineTerminator);
    SpanShift(")", modifiers, 0, IsNotLineTerminator);
    SpanTo(modifiers, 0, |modifiers|, IsNotLineTerminator);
  }

  lemma DeclTokens(name: string, typeName: string, args: string, modifiers: string)
    ensures var decl := ColumnDecl(name, typeName, args, modifiers);
      LitAt(decl, |name|, ":") && LitAt(decl, |name| + 2 + |typeName|, "(")
      && LitAt(decl, |name| + 3 + |typeName| + |args|, ")")
  {
    var r5 := ")" + modifiers;
    var r4 := args + r5;
    var r3 := "(" + r4;
    var r2 := typeName + r3;
    var r1 := ": " + r2;
    var k := 3 + |typeName| + |args|;
    SliceShift(name, r1, 2 + |typeName|, 3 + |typeName|);
    SliceShift(": ", r2, |typeName|, |typeName| + 1);
    SliceShift(typeName, r3, 0, 1);
    SliceShift(name, r1, k, k + 1);
    SliceShift(": ", r2, k - 2, k - 1);
    SliceShift(typeName, r3, k - 2 - |typeName|, k - 1 - |typeName|);
    SliceShift("(", r4, |args|, |args| + 1);
    SliceShift(args, r5, 0, 1);
  }

  lemma DeclCaptures(name: string, typeName: string, args: string, modifiers: string)
    ensures var decl := ColumnDecl(name, typeName, args, modifiers);
      decl[..|name|] == name && decl[|name| + 2..|name| + 2 + |typeName|] == typeName
      && decl[|name| + 4 + |typeName| + |args|..] == modifiers
  {
    var r5 := ")" + modifiers;
    var r4 := args + r5;
    var r3 := "(" + r4;
    var r2 := typeName + r3;
    var r1 := ": " + r2;
    var k := 4 + |typeName| + |args|;
    SliceShift(name, r1, 2, 2 + |typeName|);
    SliceShift(": ", r2, 0, |typeName|);
    assert r2[..|typeName|] == typeName;
    SliceShift(name, r1, k, |r1|);
    SliceShift(": ", r2, k - 2, |r2|);
    SliceShift(typeName, r3, k - 2 - |typeName|, |r3|);
    SliceShift("(", r4, 1 + |args|, |r4|);
    SliceShift(args, r5, 1, |r5|);
  }

  /** The column pattern in terms of the positions where its quantifiers
      stop. */
  lemma MatchColumnLineAt(line: string, a: nat, b: nat, c: nat, d: nat)
    requires 0 < a && SpanWhile(line, 0, IsWordChar) == a && LitAt(line, a, ":")
    requires SpanWhile(line, a + 1, IsSpace) == b
    requires b < c && SpanWhile(line, b, IsWordChar) == c && LitAt(line, c, "(")
    requires SpanWhile(line, c + 1, IsNotCloseParen) == d && LitAt(line, d, ")")
    requires SpanWhile(line, d + 1, IsNotLineTerminator) == |line|
    ensures MatchColumnLine(line) == Some(ColumnMatch(line[..a], line[b..c], line[d + 1..]))
  {
    assert MatchColumnLine(line).Some?;
    assert MatchColumnLine(line).value.name == line[..a];
    assert MatchColumnLine(line).value.typeName == line[b..c];
    assert MatchColumnLine(line).value.modifiers == line[d + 1..];
  }

  // ---------------------------------------------------------------------
  // File names
  // ---------------------------------------------------------------------

  /** One step of the global replace `/([a-z])([A-Z])/g` by `'$1-$2'`: a
      lower-case letter directly followed by a capital gets a hyphen
      between them, and the scan resumes after the capital. */
  function KebabInsert(s: string): string
    decreases |s|
  {
    if |s| >= 2 && IsAsciiLower(s[0]) && IsAsciiUpper(s[1]) then [s[0], '-', s[1]] + KebabInsert(s[2..])
    else if s == [] then []
    else [s[0]] + KebabInsert(s[1..])
  }

  /** `toKebabCase`. */
  function ToKebabCase(s: string): string {
    ToLower(KebabInsert(s))
  }

  /** The replace only adds hyphens. */
  lemma {:induction false} KebabInsertChars(s: string)
    ensures forall k :: 0 <= k < |KebabInsert(s)| ==> KebabInsert(s)[k] in s || KebabInsert(s)[k] == '-'
    decreases |s|
  {
    if |s| >= 2 && IsAsciiLower(s[0]) && IsAsciiUpper(s[1]) {
      KebabInsertChars(s[2..]);
    } else if s != [] {
      KebabInsertChars(s[1..]);
    }
  }

  /** With no capital to split at, the replace changes nothing. */
  lemma {:induction false} KebabInsertNoUpper(s: string)
    requires forall k :: 0 <= k < |s| ==> !IsAsciiUpper(s[k])
    ensures KebabInsert(s) == s
    decreases |s|
  {
    if s != [] {
      KebabInsertNoUpper(s[1..]);
      assert [s[0]] + s[1..] == s;
    }
  }

  /** A kebab-case name has no capitals, and converting it again changes
      nothing. */
  lemma ToKebabCaseIdempotent(s: string)
    ensures forall k :: 0 <= k < |ToKebabCase(s)| ==> !IsAsciiUpper(ToKebabCase(s)[k])
    ensures ToKebabCase(ToKebabCase(s)) == ToKebabCase(s)
  {
    var t := ToKebabCase(s);
    ToLowerHasNoUpper(KebabInsert(s));
    KebabInsertNoUpper(t);
    ToLowerOfLower(t);
  }

  /** Kebab-casing adds no `/`, so a file named after a table stays in the
      output directory. */
  lemma ToKebabCaseNoSlash(s: string)
    requires '/' !in s
    ensures '/' !in ToKebabCase(s)
  {
    KebabInsertChars(s);
  }

  // ---------------------------------------------------------------------
  // Generated files
  // ---------------------------------------------------------------------

  /** The values the templates are filled with. */
  datatype EffectHole = TableName | Overrides | Kebab

  /** `generateSchemaFile` when no column is an array. */
  const PlainSchemaTemplate: seq<Piece<EffectHole>> := [
    Text("import { createInsertSchema, createSelectSchema } from '@handfish/drizzle-effect'\n"),
    Text("\n"),
    Text("import { "), Hole(TableName), Text(" } from '../drizzle/schema'\n"),
    Text("\n"),
    Text("export const insert"), Hole(TableName), Text("Schema = createInsertSchema("), Hole(TableName), Text(")\n"),
    Text("export const select"), Hole(TableName), Text("Schema = createSelectSchema("), Hole(TableName), Text(")\n")
  ]

  /** `generateSchemaFile` otherwise: array columns override the derived
      fields in both schemas. */
  const OverrideSchemaTemplate: seq<Piece<EffectHole>> := [
    Text("import { createInsertSchema, createSelectSchema } from '@handfish/drizzle-effect'\n"),
    Text("import { Schema } from 'effect'\n"),
    Text("\n"),
    Text("import { "), Hole(TableName), Text(" } from '../drizzle/schema'\n"),
    Text("\n"),
    Text("const base"), Hole(TableName), Text("InsertSchema = createInsertSchema("), Hole(TableName), Text(")\n"),
    Text("const base"), Hole(TableName), Text("SelectSchema = createSelectSchema("), Hole(TableName), Text(")\n"),
    Text("\n"),
    Text("export const insert"), Hole(TableName), Text("Schema = Schema.Struct({\n"),
    Text("\t...base"), Hole(TableName), Text("InsertSchema.fields,\n"),
    Hole(Overrides), Text("\n"),
    Text("})\n"),
    Text("\n"),
    Text("export const select"), Hole(TableName), Text("Schema = Schema.Struct({\n"),
    Text("\t...base"), Hole(TableName), Text("SelectSchema.fields,\n"),
    Hole(Overrides), Text("\n"),
    Text("})\n")
  ]

  /** `generateFormSchemaFile`. */
  const FormSchemaTemplate: seq<Piece<EffectHole>> := [
    Text("import { Schema } from 'effect'\n"),
    Text("\n"),
    Text("import { insert"), Hole(TableName), Text("Schema, select"), Hole(TableName), Text("Schema } from './"), Hole(Kebab), Text("-schemas'\n"),
    Text("\n"),
    Text("export const insert"), Hole(TableName), Text("FormSchema = Schema.typeSchema(insert"), Hole(TableName), Text("Schema)\n"),
    Text("export const select"), Hole(TableName), Text("FormSchema = Schema.typeSchema(select"), Hole(TableName), Text("Schema)\n")
  ]

  /** `generateTypesFile`. */
  const TypesTemplate: seq<Piece<EffectHole>> := [
    Text("import type { insert"), Hole(TableName), Text("Schema, select"), Hole(TableName), Text("Schema } from './"), Hole(Kebab), Text("-schemas'\n"),
    Text("\n"),
    Text("export type Insert"), Hole(TableName), Text(" = typeof insert"), Hole(TableName), Text("Schema.Type\n"),
    Text("export type Select"), Hole(TableName), Text(" = typeof select"), Hole(TableName), Text("Schema.Type\n"),
    Text("\n"),
    Text("export type Insert"), Hole(TableName), Text("Encoded = typeof insert"), Hole(TableName), Text("Schema.Encoded\n"),
    Text("export type Select"), Hole(TableName), Text("Encoded = typeof select"), Hole(TableName), Text("Schema.Encoded\n")
  ]

  predicate IsArrayColumn(c: ColumnInfo) { c.isArray }

  /** The override of one array column in the struct of either schema. */
  function OverrideLine(c: ColumnInfo): string {
    "\t" + c.name + ": "
    + (if c.isOptional then "Schema.optional(Schema.Array(Schema.String))" else "Schema.Array(Schema.String)")
    + ","
  }

  /** The override lines of the array columns, in column order. */
  function ArrayOverrides(columns: seq<ColumnInfo>): string {
    Join(Map(OverrideLine, Filter(IsArrayColumn, columns)), "\n")
  }

  function Fill(info: TableInfo): EffectHole -> string {
    (h: EffectHole) => match h
      case TableName => info.name
      case Overrides => ArrayOverrides(info.columns)
      case Kebab => ToKebabCase(info.name)
  }

  /** `generateSchemaFile`. */
  function SchemaFileOf(info: TableInfo): string {
    if !Any(IsArrayColumn, info.columns) then Render(PlainSchemaTemplate, Fill(info))
    else Render(OverrideSchemaTemplate, Fill(info))
  }

  /** `generateFormSchemaFile`. */
  function FormSchemaFileOf(info: TableInfo): string {
    Render(FormSchemaTemplate, Fill(info))
  }

  /** `generateTypesFile`. */
  function TypesFileOf(info: TableInfo): string {
    Render(TypesTemplate, Fill(info))
  }

  /** When a table has array columns, the insert schema spreads the derived
      fields and then overrides every array column. */
  lemma InsertSchemaOverridesArrays(info: TableInfo)
    requires Any(IsArrayColumn, info.columns)
    ensures Contains(SchemaFileOf(info),
      "\t...base" + info.name + "InsertSchema.fields,\n" + ArrayOverrides(info.columns) + "\n")
  {
    RenderRun5(OverrideSchemaTemplate, Fill(info), 21, "\t...base", TableName, "InsertSchema.fields,\n", Overrides, "\n");
  }

  /** So does the select schema. */
  lemma SelectSchemaOverridesArrays(info: TableInfo)
    requires Any(IsArrayColumn, info.columns)
    ensures Contains(SchemaFileOf(info),
      "\t...base" + info.name + "SelectSchema.fields,\n" + ArrayOverrides(info.columns) + "\n")
  {
    RenderRun5(OverrideSchemaTemplate, Fill(info), 31, "\t...base", TableName, "SelectSchema.fields,\n", Overrides, "\n");
  }

  /** Every array column's override line is in the schema file. */
  lemma SchemaFileOverridesColumn(info: TableInfo, k: nat)
    requires k < |info.columns| && info.columns[k].isArray
    ensures Contains(SchemaFileOf(info), OverrideLine(info.columns[k]))
  {
    var c := info.columns[k];
    assert Any(IsArrayColumn, info.columns);
    var arrays := Filter(IsArrayColumn, info.columns);
    assert c in arrays;
    var j :| 0 <= j < |arrays| && arrays[j] == c;
    MapAt(OverrideLine, arrays, j);
    JoinContains(Map(OverrideLine, arrays), "\n", j);
    InsertSchemaOverridesArrays(info);
    var spread := "\t...base" + info.name + "InsertSchema.fields,\n";
    ContainsMiddle(spread, ArrayOverrides(info.columns), "\n");
    ContainsTrans(SchemaFileOf(info), spread + ArrayOverrides(info.columns) + "\n", ArrayOverrides(info.columns));
    ContainsTrans(SchemaFileOf(info), ArrayOverrides(info.columns), OverrideLine(c));
  }

  /** The types file imports from the schema module written for the same
      table. */
  lemma TypesFileImportsSchemas(info: TableInfo)
    ensures Contains(TypesFileOf(info), "Schema } from './" + ToKebabCase(info.name) + "-schemas'\n")
  {
    var f := Fill(info);
    assert f(Kebab) == ToKebabCase(info.name);
    assert TypesTemplate[4] == Text("Schema } from './") && TypesTemplate[5] == Hole(Kebab) && TypesTemplate[6] == Text("-schemas'\n");
    RenderRun3(TypesTemplate, f, 4, "Schema } from './", Kebab, "-schemas'\n");
  }

  /** So does the form-schema file. */
  lemma FormSchemaFileImportsSchemas(info: TableInfo)
    ensures Contains(FormSchemaFileOf(info), "Schema } from './" + ToKebabCase(info.name) + "-schemas'\n")
  {
    var f := Fill(info);
    assert f(Kebab) == ToKebabCase(info.name);
    assert FormSchemaTemplate[6] == Text("Schema } from './") && FormSchemaTemplate[7] == Hole(Kebab) && FormSchemaTemplate[8] == Text("-schemas'\n");
    RenderRun3(FormSchemaTemplate, f, 6, "Schema } from './", Kebab, "-schemas'\n");
  }

  // ---------------------------------------------------------------------
  // Writing the files
  // ---------------------------------------------------------------------

  /** `path.lastIndexOf('/')`. */
  function LastSlash(s: string): (r: int)
    ensures -1 <= r < |s|
    decreases |s|
  {
    if s == [] then -1
    else if s[|s| - 1] == '/' then |s| - 1
    else LastSlash(s[..|s| - 1])
  }

  /** The position found holds a `/` and no later position does. */
  lemma {:induction false} LastSlashIsLast(s: string)
    ensures LastSlash(s) >= 0 ==> s[LastSlash(s)] == '/'
    ensures forall k :: LastSlash(s) < k < |s| ==> s[k] != '/'
    decreases |s|
  {
    if s != [] && s[|s| - 1] != '/' {
      LastSlashIsLast(s[..|s| - 1]);
    }
  }

  /** `path.substring(0, path.lastIndexOf('/'))`: a negative end counts as 0. */
  function DirName(path: string): string {
    var r := LastSlash(path);
    if r < 0 then [] else path[..r]
  }

  lemma DirNameOfJoin(dir: string, entry: string)
    requires '/' !in entry
    ensures DirName(PathJoin(dir, entry)) == dir
  {
    var path := PathJoin(dir, entry);
    LastSlashIsLast(path);
    assert path[|dir|] == '/';
    assert path[..|dir|] == dir;
  }

  /** `writeSchemaFile`: the directory of the path is created first if it
      does not exist yet. */
  function WriteStep(dirs: set<string>, path: string, content: string): (seq<FsOp>, set<string>) {
    var dir := DirName(path);
    ((if dir in dirs then [] else [MakeDir(dir)]) + [WriteFile(path, content)], dirs + {dir})
  }

  /** The three files of a table, in the order they are written. */
  function TableFiles(kebab: string, schema: string, types: string, form: string): seq<(string, string)> {
    [ (PathJoin(OutputDir, kebab + "-schemas.ts"), schema),
      (PathJoin(OutputDir, kebab + "-types.ts"), types),
      (PathJoin(OutputDir, kebab + "-form-schemas.ts"), form) ]
  }

  function TableOutputs(info: TableInfo): seq<(string, string)> {
    TableFiles(ToKebabCase(info.name), SchemaFileOf(info), TypesFileOf(info), FormSchemaFileOf(info))
  }

  /** The state of a run: what has been done so far, the directories known
      to exist, and the error that stopped it, if any. */
  datatype RunState = RunState(ops: seq<FsOp>, dirs: set<string>, error: Option<string>)

  function WriteOutputs(st: RunState, files: seq<(string, string)>): (r: RunState)
    ensures r.error == st.error
    ensures |r.ops| >= |st.ops| && r.ops[..|st.ops|] == st.ops
    decreases |files|
  {
    if files == [] then st
    else
      var prev := WriteOutputs(st, files[..|files| - 1]);
      var (ops, dirs) := WriteStep(prev.dirs, files[|files| - 1].0, files[|files| - 1].1);
      RunState(prev.ops + ops, dirs, prev.error)
  }

  /** What is to be done for one table: the files to write, or the error
      that stops the run. */
  type Plan = Result<seq<(string, string)>, string>

  function PlanOf(lookup: Result<TableInfo, string>): Plan {
    match lookup
    case Failure(e) => Failure(e)
    case Success(info) => Success(TableOutputs(info))
  }

  /** The plan of each table, in table order. */
  function TablePlans(content: string, names: seq<string>): (r: seq<Plan>)
    ensures |r| == |names|
    decreases |names|
  {
    if names == [] then []
    else TablePlans(content, names[..|names| - 1]) + [PlanOf(TableInfoOf(content, names[|names| - 1]))]
  }

  lemma {:induction false} TablePlansAt(content: string, names: seq<string>, k: nat)
    requires k < |names|
    ensures TablePlans(content, names)[k] == PlanOf(TableInfoOf(content, names[k]))
    decreases |names|
  {
    if k < |names| - 1 {
      TablePlansAt(content, names[..|names| - 1], k);
    }
  }

  /** One iteration of the loop of `main`: a table whose definition is not
      found stops the run with that error; otherwise its files are written. */
  function RunStep(st: RunState, plan: Plan): RunState {
    if st.error.Some? then st
    else match plan
      case Failure(e) => st.(error := Some(e))
      case Success(files) => WriteOutputs(st, files)
  }

  /** The loop of `main` over the plans of the tables. */
  function RunPlans(plans: seq<Plan>, dirs: set<string>): RunState
    decreases |plans|
  {
    if plans == [] then RunState([], dirs, None)
    else RunStep(RunPlans(plans[..|plans| - 1], dirs), plans[|plans| - 1])
  }

  function RunTables(content: string, names: seq<string>, dirs: set<string>): RunState {
    RunPlans(TablePlans(content, names), dirs)
  }

  const NoTablesMessage := "No tables found in schema file"

  function ReadErrorMessage(error: string): string {
    "Failed to read schema file: " + error
  }

  /** `main`: read the schema, find the tables, and write their files. */
  function Generate(read: Result<string, string>, dirs: set<string>): RunState {
    match read
    case Failure(e) => RunState([], dirs, Some(ReadErrorMessage(e)))
    case Success(content) =>
      var names := TableNames(content);
      if names == [] then RunState([], dirs, Some(NoTablesMessage))
      else RunTables(content, names, dirs)
  }

  /** `writeSchemaFile` on the file-system state of a run. */
  method WriteSchemaFile(ops: seq<FsOp>, dirs: set<string>, path: string, content: string)
    returns (ops': seq<FsOp>, dirs': set<string>)
    ensures ops' == ops + WriteStep(dirs, path, content).0
    ensures dirs' == WriteStep(dirs, path, content).1
  {
    var dir := DirName(path);
    ops', dirs' := ops, dirs;
    if dir !in dirs {
      ops' := ops' + [MakeDir(dir)];
      dirs' := dirs' + {dir};
    }
    ops' := ops' + [WriteFile(path, content)];
    dirs' := dirs + {dir};
  }

  /** Planning one more table extends the plans by one. */
  lemma TablePlansSnoc(content: string, names: seq<string>, i: nat)
    requires i < |names|
    ensures TablePlans(content, names[..i + 1]) == TablePlans(content, names[..i]) + [PlanOf(TableInfoOf(content, names[i]))]
  {
    assert names[..i + 1][..i] == names[..i];
  }

  /** The plans of a prefix of the tables are a prefix of the plans. */
  lemma TablePlansPrefix(content: string, names: seq<string>, i: nat)
    requires i <= |names|
    ensures TablePlans(content, names[..i]) == TablePlans(content, names)[..i]
  {
    forall k | 0 <= k < i ensures TablePlans(content, names[..i])[k] == TablePlans(content, names)[k] {
      TablePlansAt(content, names[..i], k);
      TablePlansAt(content, names, k);
    }
  }

  /** Once a run has stopped, later tables change nothing. */
  lemma {:induction false} RunPlansStopped(plans: seq<Plan>, dirs: set<string>, i: nat)
    requires i <= |plans| && RunPlans(plans[..i], dirs).error.Some?
    ensures RunPlans(plans, dirs) == RunPlans(plans[..i], dirs)
    decreases |plans| - i
  {
    if i < |plans| {
      var init := plans[..|plans| - 1];
      assert init[..i] == plans[..i];
      RunPlansStopped(init, dirs, i);
    } else {
      assert plans[..i] == plans;
    }
  }

  /** One more iteration of the loop of `main`. */
  lemma RunTablesNext(content: string, names: seq<string>, dirs: set<string>, i: nat)
    requires i < |names|
    ensures RunTables(content, names[..i + 1], dirs) ==
      RunStep(RunTables(content, names[..i], dirs), PlanOf(TableInfoOf(content, names[i])))
  {
    TablePlansSnoc(content, names, i);
    var plans := TablePlans(content, names[..i + 1]);
    RunPlansSnoc(plans, dirs);
    assert plans[..|plans| - 1] == TablePlans(content, names[..i]);
  }

  /** Once the loop of `main` has stopped, the later tables change nothing. */
  lemma RunTablesStopped(content: string, names: seq<string>, dirs: set<string>, i: nat)
    requires i <= |names| && RunTables(content, names[..i], dirs).error.Some?
    ensures RunTables(content, names, dirs) == RunTables(content, names[..i], dirs)
  {
    TablePlansPrefix(content, names, i);
    RunPlansStopped(TablePlans(content, names), dirs, i);
  }

  /** `main` with the schema read and the set of existing directories as
      parameters; it returns what it did and the error it stopped on. */
  method GenerateEffectSchemas(read: Result<string, string>, existingDirs: set<string>)
    returns (ops: seq<FsOp>, error: Option<string>)
    ensures ops == Generate(read, existingDirs).ops
    ensures error == Generate(read, existingDirs).error
  {
    if read.Failure? {
      return [], Some(ReadErrorMessage(read.error));
    }
    var schemaContent := read.value;
    var tableNames := ExtractTableNames(schemaContent);
    if |tableNames| == 0 {
      return [], Some(NoTablesMessage);
    }
    ops, error := WriteTables(schemaContent, tableNames, existingDirs);
  }

  /** The loop of `main` over the table names, which stops at the first
      table whose definition is not found. */
  method WriteTables(schemaContent: string, tableNames: seq<string>, existingDirs: set<string>)
    returns (ops: seq<FsOp>, error: Option<string>)
    ensures ops == RunTables(schemaContent, tableNames, existingDirs).ops
    ensures error == RunTables(schemaContent, tableNames, existingDirs).error
  {
    ops := [];
    var dirs := existingDirs;
    for i := 0 to |tableNames|
      invariant RunTables(schemaContent, tableNames[..i], existingDirs) == RunState(ops, dirs, None)
    {
      RunTablesNext(schemaContent, tableNames, existingDirs, i);
      var tableInfo := ExtractTableInfo(schemaContent, tableNames[i]);
      if tableInfo.Failure? {
        RunTablesStopped(schemaContent, tableNames, existingDirs, i + 1);
        return ops, Some(tableInfo.error);
      }
      ops, dirs := WriteTableFiles(ops, dirs, tableInfo.value);
    }
    assert tableNames[..|tableNames|] == tableNames;
    return ops, None;
  }

  /** The body of the loop of `main` for a table whose definition is found:
      its schema, types and form-schema files, written in that order. */
  method WriteTableFiles(ops: seq<FsOp>, dirs: set<string>, info: TableInfo)
    returns (ops': seq<FsOp>, dirs': set<string>)
    ensures RunState(ops', dirs', None) == WriteOutputs(RunState(ops, dirs, None), TableOutputs(info))
  {
    var kebabName := ToKebabCase(info.name);
    ops', dirs' := WriteSchemaFile(ops, dirs, PathJoin(OutputDir, kebabName + "-schemas.ts"), SchemaFileOf(info));
    ops', dirs' := WriteSchemaFile(ops', dirs', PathJoin(OutputDir, kebabName + "-types.ts"), TypesFileOf(info));
    ops', dirs' := WriteSchemaFile(ops', dirs', PathJoin(OutputDir, kebabName + "-form-schemas.ts"), FormSchemaFileOf(info));
    WriteOutputsThree(RunState(ops, dirs, None), TableOutputs(info));
  }

  /** `WriteOutputs` on three files, one write step after another. */
  lemma WriteOutputsThree(st: RunState, files: seq<(string, string)>)
    requires |files| == 3
    ensures WriteOutputs(st, files) ==
      var (o1, d1) := WriteStep(st.dirs, files[0].0, files[0].1);
      var (o2, d2) := WriteStep(d1, files[1].0, files[1].1);
      var (o3, d3) := WriteStep(d2, files[2].0, files[2].1);
      RunState(st.ops + o1 + o2 + o3, d3, st.error)
  {
    var (o1, d1) := WriteStep(st.dirs, files[0].0, files[0].1);
    var (o2, d2) := WriteStep(d1, files[1].0, files[1].1);
    assert files[..1][..0] == [];
    assert WriteOutputs(st, files[..1]) == RunState(st.ops + o1, d1, st.error);
    assert files[..2][..1] == files[..1];
    assert WriteOutputs(st, files[..2]) == RunState(st.ops + o1 + o2, d2, st.error);
    assert files[..3] == files;
  }

  /** Files written one after another, as write operations. */
  function FileWrites(files: seq<(string, string)>): (r: seq<FsOp>)
    ensures |r| == |files|
    ensures forall i :: 0 <= i < |files| ==> r[i] == WriteFile(files[i].0, files[i].1)
    decreases |files|
  {
    if files == [] then [] else FileWrites(files[..|files| - 1]) + [WriteFile(files[|files| - 1].0, files[|files| - 1].1)]
  }

  /** Writing files that all lie in one directory creates that directory
      once, before the first file, if it does not exist yet. */
  lemma {:induction false} WriteOutputsInDir(st: RunState, files: seq<(string, string)>, dir: string)
    requires files != []
    requires forall i :: 0 <= i < |files| ==> DirName(files[i].0) == dir
    ensures WriteOutputs(st, files) ==
      RunState(st.ops + (if dir in st.dirs then [] else [MakeDir(dir)]) + FileWrites(files), st.dirs + {dir}, st.error)
    decreases |files|
  {
    var init, last := files[..|files| - 1], files[|files| - 1];
    assert DirName(last.0) == dir;
    if init == [] {
      assert FileWrites(files) == [WriteFile(last.0, last.1)];
    } else {
      WriteOutputsInDir(st, init, dir);
      WriteOutputsInDirStep(st, init, last, dir);
      assert init + [last] == files;
    }
  }

  /** One more file in the directory, once it has been created. */
  lemma WriteOutputsInDirStep(st: RunState, init: seq<(string, string)>, last: (string, string), dir: string)
    requires DirName(last.0) == dir
    requires WriteOutputs(st, init) ==
      RunState(st.ops + (if dir in st.dirs then [] else [MakeDir(dir)]) + FileWrites(init), st.dirs + {dir}, st.error)
    ensures WriteOutputs(st, init + [last]) ==
      RunState(st.ops + (if dir in st.dirs then [] else [MakeDir(dir)]) + FileWrites(init + [last]), st.dirs + {dir}, st.error)
  {
    var made := if dir in st.dirs then [] else [MakeDir(dir)];
    var prev := WriteOutputs(st, init);
    var w := WriteFile(last.0, last.1);
    WriteOutputsSnoc(st, init, last);
    WriteStepKnownDir(prev.dirs, last.0, last.1);
    assert WriteOutputs(st, init + [last]) == RunState(prev.ops + [w], prev.dirs, prev.error);
    FileWritesSnoc(init, last);
    AppendLast(st.ops + made, FileWrites(init), w);
  }

  /** Appending one element regroups a concatenation. */
  lemma AppendLast<T>(a: seq<T>, b: seq<T>, x: T)
    ensures (a + b) + [x] == a + (b + [x])
  {
  }

  /** The last file is written after the others. */
  lemma WriteOutputsSnoc(st: RunState, init: seq<(string, string)>, last: (string, string))
    ensures var prev := WriteOutputs(st, init);
      WriteOutputs(st, init + [last]) ==
        RunState(prev.ops + WriteStep(prev.dirs, last.0, last.1).0, WriteStep(prev.dirs, last.0, last.1).1, prev.error)
  {
    assert (init + [last])[..|init|] == init;
  }

  /** Writing into an existing directory creates nothing. */
  lemma WriteStepKnownDir(dirs: set<string>, path: string, content: string)
    requires DirName(path) in dirs
    ensures WriteStep(dirs, path, content) == ([WriteFile(path, content)], dirs)
  {
    var dir := DirName(path);
    assert dirs + {dir} == dirs;
    assert (if dir in dirs then [] else [MakeDir(dir)]) + [WriteFile(path, content)] == [WriteFile(path, content)];
  }

  /** The writes of one more file. */
  lemma FileWritesSnoc(init: seq<(string, string)>, last: (string, string))
    ensures FileWrites(init + [last]) == FileWrites(init) + [WriteFile(last.0, last.1)]
  {
    assert (init + [last])[..|init|] == init;
  }

  // ---------------------------------------------------------------------
  // The outcome of a run
  // ---------------------------------------------------------------------

  /** A table whose definition could not be extracted. */
  predicate Stops(plan: Plan) {
    plan.Failure?
  }

  /** The files written for the tables whose definition is found. */
  function OutputWrites(plans: seq<Plan>): seq<FsOp>
    decreases |plans|
  {
    if plans == [] then []
    else
      OutputWrites(plans[..|plans| - 1]) +
      match plans[|plans| - 1]
      case Success(files) => FileWrites(files)
      case Failure(_) => []
  }

  /** The output directory is created once, before the first file, unless it
      exists. */
  function MakeOutputDir(dirs: set<string>, plans: seq<Plan>): seq<FsOp> {
    if plans != [] && OutputDir !in dirs then [MakeDir(OutputDir)] else []
  }

  /** Every table's plan writes at least one file, and all into the output
      directory. */
  predicate WithinOutputDir(plans: seq<Plan>) {
    forall k :: 0 <= k < |plans| && plans[k].Success? ==>
      plans[k].value != [] && forall i :: 0 <= i < |plans[k].value| ==> DirName(plans[k].value[i].0) == OutputDir
  }

  /** A file named after a table lies in the output directory. */
  lemma OutputPathInOutputDir(kebab: string, suffix: string)
    requires '/' !in kebab && '/' !in suffix
    ensures DirName(PathJoin(OutputDir, kebab + suffix)) == OutputDir
  {
    DirNameOfJoin(OutputDir, kebab + suffix);
  }

  /** The three files of a table lie in the output directory. */
  lemma TableFilesInOutputDir(kebab: string, schema: string, types: string, form: string)
    requires '/' !in kebab
    ensures |TableFiles(kebab, schema, types, form)| == 3
    ensures forall i :: 0 <= i < 3 ==> DirName(TableFiles(kebab, schema, types, form)[i].0) == OutputDir
  {
    OutputPathInOutputDir(kebab, "-schemas.ts");
    OutputPathInOutputDir(kebab, "-types.ts");
    OutputPathInOutputDir(kebab, "-form-schemas.ts");
  }

  /** The error a run stops on is the error of the first table whose
      definition is missing; without one, the run has no error. */
  lemma {:induction false} RunPlansError(plans: seq<Plan>, dirs: set<string>)
    ensures RunPlans(plans, dirs).error ==
      match FirstIndex(Stops, plans)
      case None => None
      case Some(k) => Some(plans[k].error)
    decreases |plans|
  {
    if plans != [] {
      var init, last := plans[..|plans| - 1], plans[|plans| - 1];
      assert plans == init + [last];
      RunPlansError(init, dirs);
      FirstIndexSnoc(Stops, init, last);
    }
  }

  /** A prefix of plans that write into the output directory does too. */
  lemma WithinOutputDirPrefix(plans: seq<Plan>, n: nat)
    requires n <= |plans| && WithinOutputDir(plans)
    ensures WithinOutputDir(plans[..n])
  {
    assert forall k :: 0 <= k < n ==> plans[..n][k] == plans[k];
  }

  /** The run over the last plan continues the run over the others. */
  lemma RunPlansSnoc(plans: seq<Plan>, dirs: set<string>)
    requires plans != []
    ensures RunPlans(plans, dirs) == RunStep(RunPlans(plans[..|plans| - 1], dirs), plans[|plans| - 1])
  {
  }

  /** A run in which every definition is found creates the output directory
      at most once, before anything else, and writes the files of every
      table, in table order. */
  lemma {:induction false} RunPlansWrites(plans: seq<Plan>, dirs: set<string>)
    requires FirstIndex(Stops, plans).None?
    requires WithinOutputDir(plans)
    ensures RunPlans(plans, dirs) ==
      RunState(MakeOutputDir(dirs, plans) + OutputWrites(plans),
               if plans == [] then dirs else dirs + {OutputDir}, None)
    decreases |plans|
  {
    if plans != [] {
      var init, last := plans[..|plans| - 1], plans[|plans| - 1];
      assert plans == init + [last];
      FirstIndexSnoc(Stops, init, last);
      WithinOutputDirPrefix(plans, |plans| - 1);
      RunPlansWrites(init, dirs);
      RunPlansWritesSnoc(init, last, dirs);
    }
  }

  /** The induction step of `RunPlansWrites`: one more table whose files all
      lie in the output directory. */
  lemma RunPlansWritesSnoc(init: seq<Plan>, last: Plan, dirs: set<string>)
    requires RunPlans(init, dirs) ==
      RunState(MakeOutputDir(dirs, init) + OutputWrites(init), if init == [] then dirs else dirs + {OutputDir}, None)
    requires last.Success? && last.value != []
    requires forall i :: 0 <= i < |last.value| ==> DirName(last.value[i].0) == OutputDir
    ensures RunPlans(init + [last], dirs) ==
      RunState(MakeOutputDir(dirs, init + [last]) + OutputWrites(init + [last]), dirs + {OutputDir}, None)
  {
    var plans := init + [last];
    assert plans[..|plans| - 1] == init;
    var prev := RunPlans(init, dirs);
    RunPlansSnoc(plans, dirs);
    var fw := FileWrites(last.value);
    assert OutputWrites(plans) == OutputWrites(init) + fw;
    var mk := MakeOutputDir(dirs, plans);
    WriteOutputsInDir(prev, last.value, OutputDir);
    var after := WriteOutputs(prev, last.value);
    assert RunPlans(plans, dirs) == after;
    if init == [] {
      assert prev == RunState([], dirs, None);
      assert OutputWrites(plans) == fw;
      assert after.ops == [] + mk + fw;
    } else {
      assert OutputDir in prev.dirs;
      assert MakeOutputDir(dirs, init) == mk;
      assert after.ops == mk + OutputWrites(init) + [] + fw;
      AppendAssoc(mk, OutputWrites(init), fw);
    }
  }

  /** A run that stops at a missing definition has written exactly the files
      of the tables before it. */
  lemma RunPlansStopsAt(plans: seq<Plan>, dirs: set<string>, k: nat)
    requires FirstIndex(Stops, plans) == Some(k)
    requires WithinOutputDir(plans)
    ensures RunPlans(plans, dirs) ==
      RunState(MakeOutputDir(dirs, plans[..k]) + OutputWrites(plans[..k]),
               if k == 0 then dirs else dirs + {OutputDir}, Some(plans[k].error))
  {
    FirstIndexPrefix(Stops, plans, k);
    WithinOutputDirPrefix(plans, k);
    RunPlansWrites(plans[..k], dirs);
    RunPlansFailStep(plans, dirs, k);
    RunPlansStopped(plans, dirs, k + 1);
  }

  /** The plan of a table whose definition is missing records its error and
      nothing else. */
  lemma RunPlansFailStep(plans: seq<Plan>, dirs: set<string>, k: nat)
    requires k < |plans| && plans[k].Failure?
    requires RunPlans(plans[..k], dirs).error.None?
    ensures RunPlans(plans[..k + 1], dirs) == RunPlans(plans[..k], dirs).(error := Some(plans[k].error))
  {
    var p := plans[..k + 1];
    assert p[..k] == plans[..k];
    RunPlansSnoc(p, dirs);
  }

  /** The plan of a table whose name has no `/` writes only into the output
      directory, and it stops exactly when the definition is missing, with
      the not-found message. */
  lemma TablePlanFacts(content: string, names: seq<string>, k: nat)
    requires k < |names| && '/' !in names[k]
    ensures var plan := TablePlans(content, names)[k];
      (plan.Success? ==> plan.value != [] && forall i :: 0 <= i < |plan.value| ==> DirName(plan.value[i].0) == OutputDir) &&
      (plan.Failure? ==> plan.error == DefinitionNotFound(names[k]))
  {
    TablePlansAt(content, names, k);
    var lookup := TableInfoOf(content, names[k]);
    if lookup.Success? {
      var info := lookup.value;
      ToKebabCaseNoSlash(info.name);
      TableFilesInOutputDir(ToKebabCase(info.name), SchemaFileOf(info), TypesFileOf(info), FormSchemaFileOf(info));
    }
  }

  /** The plans of the tables found in a schema write only into the output
      directory, and a plan stops exactly when the definition is missing,
      with its not-found message. */
  lemma TablePlansOfNames(content: string)
    ensures WithinOutputDir(TablePlans(content, TableNames(content)))
    ensures forall k :: 0 <= k < |TableNames(content)| && Stops(TablePlans(content, TableNames(content))[k]) ==>
      TablePlans(content, TableNames(content))[k].error == DefinitionNotFound(TableNames(content)[k])
  {
    var names := TableNames(content);
    TableNamesDeclared(content);
    var plans := TablePlans(content, names);
    forall k | 0 <= k < |names|
      ensures plans[k].Success? ==>
        plans[k].value != [] && forall i :: 0 <= i < |plans[k].value| ==> DirName(plans[k].value[i].0) == OutputDir
      ensures plans[k].Failure? ==> plans[k].error == DefinitionNotFound(names[k])
    {
      assert IsWord(names[k]);
      TablePlanFacts(content, names, k);
    }
  }

  /** What `main` does for a schema it could read: it reports that there are
      no tables, or stops at the first table whose definition is missing
      after writing the files of the tables before it, or writes the files
      of every table. */
  lemma GenerateOutcome(content: string, dirs: set<string>)
    ensures var names := TableNames(content);
      var plans := TablePlans(content, names);
      var r := Generate(Success(content), dirs);
      if names == [] then r == RunState([], dirs, Some(NoTablesMessage))
      else match FirstIndex(Stops, plans)
        case None =>
          r.error.None? && r.ops == MakeOutputDir(dirs, plans) + OutputWrites(plans)
        case Some(k) =>
          r.error == Some(DefinitionNotFound(names[k])) &&
          r.ops == MakeOutputDir(dirs, plans[..k]) + OutputWrites(plans[..k])
  {
    var plans := TablePlans(content, TableNames(content));
    TablePlansOfNames(content);
    match FirstIndex(Stops, plans)
    case None =>
      RunPlansWrites(plans, dirs);
    case Some(k) =>
      RunPlansStopsAt(plans, dirs, k);
  }

  /** A schema that cannot be read stops the run before anything is done. */
  lemma GenerateReadFailure(e: string, dirs: set<string>)
    ensures Generate(Failure(e), dirs) == RunState([], dirs, Some("Failed to read schema file: " + e))
  {
  }
}
