/** Reading a table declaration back: the table pattern recognises every
      export const X = pgTable("x", (t) => ({ block }))
    written with any white space the pattern allows, and captures exactly
    its export binding, its table name and its column block. */
module DrizzleTableText {
  import opened Wrappers
  import opened Strings
  import opened DrizzleParser

  /** One table declaration: the white-space runs between its tokens (the
      first four are the pattern's `\s+`, the rest its `\s*`), its two
      quotes, its names and its column block. */
  datatype TableDecl = TableDecl(
    afterExport: string, afterConst: string, exportName: string, beforeEq: string, afterEq: string,
    afterPgTable: string, afterParen: string, openQuote: char, tableName: string, closeQuote: char,
    beforeComma: string, afterComma: string, afterParam: string, afterArrow: string, block: string)

  /** What the pattern demands of a declaration. */
  predicate ValidTableDecl(d: TableDecl) {
    AllSpace(d.afterExport) && AllSpace(d.afterConst) && AllSpace(d.beforeEq) && AllSpace(d.afterEq) &&
    |d.afterExport| > 0 && |d.afterConst| > 0 && |d.beforeEq| > 0 && |d.afterEq| > 0 &&
    AllSpace(d.afterPgTable) && AllSpace(d.afterParen) && AllSpace(d.beforeComma) &&
    AllSpace(d.afterComma) && AllSpace(d.afterParam) && AllSpace(d.afterArrow) &&
    IsWord(d.exportName) && IsWord(d.tableName) && IsQuote(d.openQuote) && IsQuote(d.closeQuote) &&
    |d.block| > 0 && '}' !in d.block
  }

  /** The text of a declaration, token by token:
      `export\s+const\s+X\s+=\s+pgTable\s*(\s*"x"\s*,\s*(t)\s*=>\s*({block}))`. */
  function TableText(d: TableDecl): string {
    "export" + (d.afterExport + ("const" + (d.afterConst + (d.exportName + EqText(d)))))
  }

  /** The text after the export name: `\s+=\s+pgTable\s*(` and the rest. */
  function EqText(d: TableDecl): string {
    d.beforeEq + ("=" + (d.afterEq + ("pgTable" + (d.afterPgTable + ("(" + NameText(d))))))
  }

  /** The text after `pgTable(`: `\s*"x"` and the rest. */
  function NameText(d: TableDecl): string {
    d.afterParen + ([d.openQuote] + (d.tableName + ([d.closeQuote] + BlockText(d))))
  }

  /** The text after the quoted name: `\s*,\s*(t)\s*=>\s*({block}))`. */
  function BlockText(d: TableDecl): string {
    d.beforeComma + ("," + (d.afterComma + ("(t)" + (d.afterParam + ("=>" + (d.afterArrow +
      ("({" + (d.block + "}))"))))))))
  }

  /** The match a declaration at `i` gives. */
  function DeclMatch(d: TableDecl, i: nat): TableMatch {
    TableMatch(i, i + |TableText(d)|, d.exportName, d.tableName, d.block)
  }

  /** A declaration at `i` is matched there, with exactly its captures. */
  lemma MatchTableAtDecl(s: string, i: nat, d: TableDecl)
    requires ValidTableDecl(d) && LitAt(s, i, TableText(d))
    ensures MatchTableAt(s, i) == Some(DeclMatch(d, i))
  {
    var b, c, f := HeadOfDecl(s, i, d);
    var g, h, j := NameOfDecl(s, f, d);
    var m, n, e := BlockOfDecl(s, j, d);
    assert e == i + |TableText(d)|;
    MatchTableAtParts(s, i, b, c, f, g, h, j, m, n, e);
    assert TableMatch(i, e, s[b..c], s[g..h], s[m..n]) == DeclMatch(d, i);
  }

  /** The table pattern from the bounds its three parts give. */
  lemma MatchTableAtParts(s: string, i: nat, b: nat, c: nat, f: nat, g: nat, h: nat, j: nat,
                          m: nat, n: nat, e: nat)
    requires i <= |s|
    requires MatchHead(s, i) == Some((b, c, f))
    requires MatchQuotedName(s, f) == Some((g, h, j))
    requires MatchColumnsBlock(s, j) == Some((m, n, e))
    ensures MatchTableAt(s, i) == Some(TableMatch(i, e, s[b..c], s[g..h], s[m..n]))
  {
  }

  /** The head of a declaration matches `export\s+const\s+(\w+)\s+=\s+pgTable\s*\(`. */
  lemma HeadOfDecl(s: string, i: nat, d: TableDecl) returns (b: nat, c: nat, f: nat)
    requires ValidTableDecl(d) && LitAt(s, i, TableText(d))
    ensures MatchHead(s, i) == Some((b, c, f)) && s[b..c] == d.exportName
    ensures LitAt(s, f, NameText(d)) && f + |NameText(d)| == i + |TableText(d)|
  {
    var a, e, f0;
    a, b, c := ExportOfDecl(s, i, d);
    e, f0, f := PgTableOfDecl(s, c, d);
    MatchHeadAt(s, i, a, b, c, e, f0, f);
  }

  /** The steps `export\s+const\s+(\w+)` of a declaration: where `const`
      ends and the bounds of the export name. */
  lemma ExportOfDecl(s: string, i: nat, d: TableDecl) returns (a: nat, b: nat, c: nat)
    requires ValidTableDecl(d) && LitAt(s, i, TableText(d))
    ensures LitAt(s, i, "export") && SpacesThen(s, i + 6, true, "const") == Some(a)
    ensures SpanWhile(s, a, IsSpace) == b && b != a
    ensures SpanWhile(s, b, IsWordChar) == c && c != b && s[b..c] == d.exportName
    ensures LitAt(s, c, EqText(d)) && c + |EqText(d)| == i + |TableText(d)|
  {
    var rest := d.afterExport + ("const" + (d.afterConst + (d.exportName + EqText(d))));
    LitAtSplit(s, i, "export", rest);
    a := TokenAt(s, i + 6, true, d.afterExport, "const", d.afterConst + (d.exportName + EqText(d)));
    var e0 := d.afterEq + ("pgTable" + (d.afterPgTable + ("(" + NameText(d))));
    b, c := WordAt(s, a, d.afterConst, d.exportName, d.beforeEq, "=" + e0);
  }

  /** The steps `\s+=\s+pgTable\s*\(` of a declaration: where each ends. */
  lemma PgTableOfDecl(s: string, c: nat, d: TableDecl) returns (e: nat, f0: nat, f: nat)
    requires ValidTableDecl(d) && LitAt(s, c, EqText(d))
    ensures SpacesThen(s, c, true, "=") == Some(e)
    ensures SpacesThen(s, e, true, "pgTable") == Some(f0)
    ensures SpacesThen(s, f0, false, "(") == Some(f)
    ensures LitAt(s, f, NameText(d)) && f + |NameText(d)| == c + |EqText(d)|
  {
    var e0 := d.afterEq + ("pgTable" + (d.afterPgTable + ("(" + NameText(d))));
    e := TokenAt(s, c, true, d.beforeEq, "=", e0);
    f0 := TokenAt(s, e, true, d.afterEq, "pgTable", d.afterPgTable + ("(" + NameText(d)));
    f := TokenAt(s, f0, false, d.afterPgTable, "(", NameText(d));
  }

  /** The quoted name of a declaration matches `\s*["'](\w+)["']`. */
  lemma NameOfDecl(s: string, f: nat, d: TableDecl) returns (g: nat, h: nat, j: nat)
    requires ValidTableDecl(d) && LitAt(s, f, NameText(d))
    ensures MatchQuotedName(s, f) == Some((g, h, j)) && s[g..h] == d.tableName
    ensures LitAt(s, j, BlockText(d)) && j + |BlockText(d)| == f + |NameText(d)|
  {
    g, h, j := QuotedAt(s, f, d.afterParen, d.openQuote, d.tableName, d.closeQuote, BlockText(d));
  }

  /** The rest of a declaration matches `\s*,\s*\(t\)\s*=>\s*\(\{([^}]+)\}\)\)`. */
  lemma BlockOfDecl(s: string, j: nat, d: TableDecl) returns (m: nat, n: nat, e: nat)
    requires ValidTableDecl(d) && LitAt(s, j, BlockText(d))
    ensures MatchColumnsBlock(s, j) == Some((m, n, e)) && s[m..n] == d.block
    ensures e == j + |BlockText(d)|
  {
    var a, b, c;
    a, b, c, m := ArrowOfDecl(s, j, d);
    n := BlockBodyAt(s, m, d.block);
    e := n + 3;
    MatchColumnsBlockAt(s, j, a, b, c, m, n, e);
  }

  /** The steps `\s*,\s*\(t\)\s*=>\s*\(\{` of a declaration's rest: where
      each ends, the last one where the column block begins. */
  lemma ArrowOfDecl(s: string, j: nat, d: TableDecl) returns (a: nat, b: nat, c: nat, m: nat)
    requires ValidTableDecl(d) && LitAt(s, j, BlockText(d))
    ensures SpacesThen(s, j, false, ",") == Some(a)
    ensures SpacesThen(s, a, false, "(t)") == Some(b)
    ensures SpacesThen(s, b, false, "=>") == Some(c)
    ensures SpacesThen(s, c, false, "({") == Some(m)
    ensures LitAt(s, m, d.block + "}))") && m + |d.block + "}))"| == j + |BlockText(d)|
  {
    var r3 := d.afterArrow + ("({" + (d.block + "}))"));
    var r2 := d.afterParam + ("=>" + r3);
    a, b := ParamOfDecl(s, j, d);
    c := TokenAt(s, b, false, d.afterParam, "=>", r3);
    m := TokenAt(s, c, false, d.afterArrow, "({", d.block + "}))");
  }

  /** The steps `\s*,\s*\(t\)` of a declaration's rest. */
  lemma ParamOfDecl(s: string, j: nat, d: TableDecl) returns (a: nat, b: nat)
    requires ValidTableDecl(d) && LitAt(s, j, BlockText(d))
    ensures SpacesThen(s, j, false, ",") == Some(a)
    ensures SpacesThen(s, a, false, "(t)") == Some(b)
    ensures LitAt(s, b, d.afterParam + ("=>" + (d.afterArrow + ("({" + (d.block + "}))")))))
    ensures b + |d.afterParam + ("=>" + (d.afterArrow + ("({" + (d.block + "}))"))))| == j + |BlockText(d)|
  {
    var r2 := d.afterParam + ("=>" + (d.afterArrow + ("({" + (d.block + "}))"))));
    var r1 := d.afterComma + ("(t)" + r2);
    a := TokenAt(s, j, false, d.beforeComma, ",", r1);
    b := TokenAt(s, a, false, d.afterComma, "(t)", r2);
  }

  /** The head pattern from the positions its steps end at: after `const`,
      the bounds of the name, after `=`, after `pgTable` and after `(`. */
  lemma MatchHeadAt(s: string, i: nat, a: nat, b: nat, c: nat, e: nat, f: nat, g: nat)
    requires LitAt(s, i, "export")
    requires SpacesThen(s, i + 6, true, "const") == Some(a)
    requires SpanWhile(s, a, IsSpace) == b && b != a
    requires SpanWhile(s, b, IsWordChar) == c && c != b
    requires SpacesThen(s, c, true, "=") == Some(e)
    requires SpacesThen(s, e, true, "pgTable") == Some(f)
    requires SpacesThen(s, f, false, "(") == Some(g)
    ensures MatchHead(s, i) == Some((b, c, g))
  {
  }

  /** The block pattern from the positions its steps end at: after `,`,
      `(t)`, `=>` and `({`, and the end of the block. */
  lemma MatchColumnsBlockAt(s: string, j: nat, a: nat, b: nat, c: nat, e: nat, n: nat, t: nat)
    requires j <= |s| && t == n + 3
    requires SpacesThen(s, j, false, ",") == Some(a)
    requires SpacesThen(s, a, false, "(t)") == Some(b)
    requires SpacesThen(s, b, false, "=>") == Some(c)
    requires SpacesThen(s, c, false, "({") == Some(e)
    requires SpanWhile(s, e, IsNotCloseBrace) == n && n != e && LitAt(s, n, "}))")
    ensures MatchColumnsBlock(s, j) == Some((e, n, t))
  {
  }

  /** `\s*lit` over a white-space run `w` followed by `lit`: the step ends
      after the literal, where the rest of the text begins. */
  lemma TokenAt(s: string, p: nat, needSpace: bool, w: string, lit: string, rest: string)
    returns (q: nat)
    requires AllSpace(w) && (needSpace ==> |w| > 0) && |lit| > 0 && !IsSpace(lit[0])
    requires LitAt(s, p, w + (lit + rest))
    ensures SpacesThen(s, p, needSpace, lit) == Some(q)
    ensures LitAt(s, q, rest) && q + |rest| == p + |w + (lit + rest)|
  {
    LitAtSplit(s, p, w, lit + rest);
    LitAtSplit(s, p + |w|, lit, rest);
    LitAtFirst(s, p + |w|, lit);
    RunAt(s, p, w, IsSpace);
    q := p + |w| + |lit|;
  }

  /** `\s+(\w+)` over a white-space run, a word and a white-space run: the
      bounds of the word. */
  lemma WordAt(s: string, p: nat, w: string, x: string, w2: string, rest: string)
    returns (b: nat, c: nat)
    requires AllSpace(w) && |w| > 0 && IsWord(x) && AllSpace(w2) && |w2| > 0
    requires LitAt(s, p, w + (x + (w2 + rest)))
    ensures SpanWhile(s, p, IsSpace) == b && b != p
    ensures SpanWhile(s, b, IsWordChar) == c && c != b && s[b..c] == x
    ensures LitAt(s, c, w2 + rest) && c + |w2 + rest| == p + |w + (x + (w2 + rest))|
  {
    LitAtSplit(s, p, w, x + (w2 + rest));
    LitAtSplit(s, p + |w|, x, w2 + rest);
    LitAtFirst(s, p + |w|, x);
    WordCharNotSpace(x[0]);
    RunAt(s, p, w, IsSpace);
    LitAtFirst(s, p + |w| + |x|, w2 + rest);
    SpaceNotWordChar(w2[0]);
    RunAt(s, p + |w|, x, IsWordChar);
    b, c := p + |w|, p + |w| + |x|;
  }

  /** `\s*["'](\w+)["']` over a white-space run, a quote, a word and a
      quote: the bounds of the word. */
  lemma QuotedAt(s: string, p: nat, w: string, q1: char, x: string, q2: char, rest: string)
    returns (g: nat, h: nat, j: nat)
    requires AllSpace(w) && IsQuote(q1) && IsWord(x) && IsQuote(q2)
    requires LitAt(s, p, w + ([q1] + (x + ([q2] + rest))))
    ensures MatchQuotedName(s, p) == Some((g, h, j)) && s[g..h] == x
    ensures LitAt(s, j, rest) && j + |rest| == p + |w + ([q1] + (x + ([q2] + rest)))|
  {
    var q := SpaceRunAt(s, p, w, [q1] + (x + ([q2] + rest)));
    g := CharAt(s, q, q1, x + ([q2] + rest));
    h := WordRunAt(s, g, x, [q2] + rest);
    j := CharAt(s, h, q2, rest);
    MatchQuotedNameAt(s, p, q, g, h, j);
  }

  /** The quoted-name pattern from the positions of its two quotes. */
  lemma MatchQuotedNameAt(s: string, p: nat, q: nat, g: nat, h: nat, j: nat)
    requires p <= q < h < |s| && g == q + 1 && j == h + 1
    requires SpanWhile(s, p, IsSpace) == q && IsQuote(s[q])
    requires SpanWhile(s, g, IsWordChar) == h && h != g && IsQuote(s[h])
    ensures MatchQuotedName(s, p) == Some((g, h, j))
  {
  }

  /** A white-space run followed by a character that is not white space. */
  lemma SpaceRunAt(s: string, p: nat, w: string, rest: string) returns (q: nat)
    requires AllSpace(w) && |rest| > 0 && !IsSpace(rest[0]) && LitAt(s, p, w + rest)
    ensures SpanWhile(s, p, IsSpace) == q && LitAt(s, q, rest) && q + |rest| == p + |w + rest|
  {
    LitAtSplit(s, p, w, rest);
    LitAtFirst(s, p + |w|, rest);
    RunAt(s, p, w, IsSpace);
    q := p + |w|;
  }

  /** A word followed by a character that is not a word character. */
  lemma WordRunAt(s: string, p: nat, x: string, rest: string) returns (h: nat)
    requires IsWord(x) && |rest| > 0 && !IsWordChar(rest[0]) && LitAt(s, p, x + rest)
    ensures SpanWhile(s, p, IsWordChar) == h && h != p && s[p..h] == x
    ensures LitAt(s, h, rest) && h + |rest| == p + |x + rest|
  {
    LitAtSplit(s, p, x, rest);
    LitAtFirst(s, p + |x|, rest);
    RunAt(s, p, x, IsWordChar);
    h := p + |x|;
  }

  /** One character. */
  lemma CharAt(s: string, q: nat, c: char, rest: string) returns (g: nat)
    requires LitAt(s, q, [c] + rest)
    ensures q < |s| && s[q] == c && g == q + 1 && LitAt(s, g, rest) && g + |rest| == q + |[c] + rest|
  {
    LitAtSplit(s, q, [c], rest);
    LitAtFirst(s, q, [c]);
    g := q + 1;
  }

  /** `([^}]+)\}\)\)` over a block without `}` followed by `}))`: the end
      of the block. */
  lemma BlockBodyAt(s: string, p: nat, x: string) returns (n: nat)
    requires |x| > 0 && '}' !in x && LitAt(s, p, x + "}))")
    ensures SpanWhile(s, p, IsNotCloseBrace) == n && n != p && LitAt(s, n, "}))")
    ensures s[p..n] == x && n + 3 == p + |x + "}))"|
  {
    LitAtSplit(s, p, x, "}))");
    LitAtFirst(s, p + |x|, "}))");
    RunAt(s, p, x, IsNotCloseBrace);
    n := p + |x|;
  }

  /** The first character of an occurrence. */
  lemma LitAtFirst(s: string, i: nat, lit: string)
    requires LitAt(s, i, lit) && lit != []
    ensures i < |s| && s[i] == lit[0]
  {
    assert s[i..i + |lit|][0] == s[i];
  }

  /** An occurrence of a run of `p` characters followed by none is the
      maximal run. */
  lemma RunAt(s: string, i: nat, w: string, p: char -> bool)
    requires LitAt(s, i, w) && forall k :: 0 <= k < |w| ==> p(w[k])
    requires i + |w| == |s| || !p(s[i + |w|])
    ensures SpanWhile(s, i, p) == i + |w|
  {
    LitAtChars(s, i, w);
    forall k | i <= k < i + |w| ensures p(s[k]) {
      assert s[k] == w[k - i];
    }
    SpanTo(s, i, i + |w|, p);
  }

  /** White space is not a word character. */
  lemma SpaceNotWordChar(c: char)
    requires IsSpace(c)
    ensures !IsWordChar(c)
  {
    if IsWordChar(c) {
      WordCharNotSpace(c);
    }
  }
}
