/** `copyTemplates`: the template tree is copied into the new project
    directory, entry by entry, with a `.template` suffix dropped from names
    and the project's variables substituted in every file. */
module CopyTemplates {
  import opened Strings
  import opened Seqs
  import opened Fs
  import TemplateVariables

  /** A template-tree entry, as `readdirSync` and `statSync` see it; a
      directory's children are in listing order. */
  datatype Entry = File(name: string, content: string) | Dir(name: string, children: seq<Entry>)

  const TemplateExtension := ".template"
  const WorkspaceFile := "pnpm-workspace.yaml"

  /** `shouldSkipFile`: the workspace file is only for pnpm projects. */
  predicate ShouldSkipFile(entry: string, packageManager: string) {
    entry == WorkspaceFile && packageManager != "pnpm"
  }

  /** The entries the copy does not skip. */
  function Copied(packageManager: string): Entry -> bool {
    (e: Entry) => !ShouldSkipFile(e.name, packageManager)
  }

  /** Where an entry is copied to: `join(destination, entry)` with a final
      `.template` removed. */
  function DestinationPath(destination: string, entry: string): string {
    var destPath := PathJoin(destination, entry);
    if EndsWith(entry, TemplateExtension) then destPath[..|destPath| - |TemplateExtension|] else destPath
  }

  /** The variables object, in its key order. */
  function Variables(projectName: string, packageManager: string): TemplateVariables.Variables {
    [("projectName", TemplateVariables.Str(projectName)), ("packageManager", TemplateVariables.Str(packageManager))]
  }

  /** The cleanup handed to `replaceVariables`. There is no `skipHusky`
      variable, so it never runs. */
  function NoCleanup(s: string): string { s }

  /** The content written for a template file. */
  function Processed(content: string, projectName: string, packageManager: string): string {
    TemplateVariables.Substitute(content, Variables(projectName, packageManager), NoCleanup)
  }

  function Processor(projectName: string, packageManager: string): string -> string {
    c => Processed(c, projectName, packageManager)
  }

  /** The operations copying one entry into `destination`. */
  function CopyEntry(e: Entry, destination: string, projectName: string, packageManager: string): seq<FsOp>
    decreases e
  {
    if ShouldSkipFile(e.name, packageManager) then []
    else
      var destPath := DestinationPath(destination, e.name);
      match e
      case File(_, content) => [WriteFile(destPath, Processed(content, projectName, packageManager))]
      case Dir(_, children) => [MakeDir(destPath)] + CopyEntries(children, destPath, projectName, packageManager)
  }

  /** The operations copying a directory listing into `destination`, in
      order. */
  function CopyEntries(es: seq<Entry>, destination: string, projectName: string, packageManager: string): seq<FsOp>
    decreases es
  {
    if es == [] then []
    else
      CopyEntries(es[..|es| - 1], destination, projectName, packageManager) +
      CopyEntry(es[|es| - 1], destination, projectName, packageManager)
  }

  /** `copyDirectorySync`: the destination is created first. */
  function CopyDirectory(es: seq<Entry>, destination: string, projectName: string, packageManager: string): seq<FsOp> {
    [MakeDir(destination)] + CopyEntries(es, destination, projectName, packageManager)
  }

  /** `copyDirectorySync`, appending its file-system operations to `ops`. */
  method CopyDirectorySync(source: seq<Entry>, destination: string, projectName: string, packageManager: string,
                           ops: seq<FsOp>)
    returns (ops': seq<FsOp>)
    ensures ops' == ops + CopyDirectory(source, destination, projectName, packageManager)
    decreases source, 1
  {
    var mkdir := [MakeDir(destination)];
    ops' := ops + mkdir;
    for i := 0 to |source|
      invariant ops' == ops + mkdir + CopyEntries(source[..i], destination, projectName, packageManager)
    {
      CopyEntriesPrefix(source, i, destination, projectName, packageManager);
      ghost var done := CopyEntries(source[..i], destination, projectName, packageManager);
      ops' := CopyEntrySync(source[i], destination, projectName, packageManager, ops');
      AppendAssoc(ops + mkdir, done, CopyEntry(source[i], destination, projectName, packageManager));
    }
    assert source[..|source|] == source;
  }

  /** The operations for one more entry of a listing. */
  lemma CopyEntriesPrefix(es: seq<Entry>, i: nat, destination: string, projectName: string, packageManager: string)
    requires i < |es|
    ensures CopyEntries(es[..i + 1], destination, projectName, packageManager) ==
      CopyEntries(es[..i], destination, projectName, packageManager) + CopyEntry(es[i], destination, projectName, packageManager)
  {
    assert es[..i + 1][..i] == es[..i];
  }

  /** One iteration of the loop of `copyDirectorySync`. */
  method CopyEntrySync(entry: Entry, destination: string, projectName: string, packageManager: string,
                       ops: seq<FsOp>)
    returns (ops': seq<FsOp>)
    ensures ops' == ops + CopyEntry(entry, destination, projectName, packageManager)
    decreases entry, 0
  {
    if ShouldSkipFile(entry.name, packageManager) {
      return ops;
    }
    var destPath := PathJoin(destination, entry.name);
    if EndsWith(entry.name, TemplateExtension) {
      destPath := destPath[..|destPath| - |TemplateExtension|];
    }
    assert destPath == DestinationPath(destination, entry.name);
    if entry.Dir? {
      ops' := CopyDirectorySync(entry.children, destPath, projectName, packageManager, ops);
    } else {
      var processed := TemplateVariables.ReplaceVariables(entry.content, Variables(projectName, packageManager), NoCleanup);
      ops' := ops + [WriteFile(destPath, processed)];
    }
  }

  /** `copyTemplates`: the template tree into the target directory. */
  method CopyTemplates(projectName: string, targetPath: string, packageManager: string, templates: seq<Entry>)
    returns (ops: seq<FsOp>)
    ensures ops == CopyDirectory(templates, targetPath, projectName, packageManager)
  {
    ops := CopyDirectorySync(templates, targetPath, projectName, packageManager, []);
  }

  // ---------------------------------------------------------------------
  // Properties
  // ---------------------------------------------------------------------

  /** The contents of the files written, in order. */
  function WrittenContents(ops: seq<FsOp>): seq<string>
    decreases |ops|
  {
    if ops == [] then []
    else
      WrittenContents(ops[..|ops| - 1]) +
      match ops[|ops| - 1]
      case WriteFile(_, content) => [content]
      case MakeDir(_) => []
  }

  lemma {:induction false} WrittenContentsAppend(a: seq<FsOp>, b: seq<FsOp>)
    ensures WrittenContents(a + b) == WrittenContents(a) + WrittenContents(b)
    decreases |b|
  {
    if b == [] {
      assert a + b == a;
    } else {
      assert (a + b)[..|a + b| - 1] == a + b[..|b| - 1];
      WrittenContentsAppend(a, b[..|b| - 1]);
    }
  }

  /** The contents of the template files the copy does not skip, in the
      order a depth-first walk of the listing meets them. */
  function EntryFiles(e: Entry, packageManager: string): seq<string>
    decreases e
  {
    if ShouldSkipFile(e.name, packageManager) then []
    else match e
      case File(_, content) => [content]
      case Dir(_, children) => TreeFiles(children, packageManager)
  }

  function TreeFiles(es: seq<Entry>, packageManager: string): seq<string>
    decreases es
  {
    if es == [] then []
    else TreeFiles(es[..|es| - 1], packageManager) + EntryFiles(es[|es| - 1], packageManager)
  }

  /** Every file the copy writes is a template file with the variables
      substituted, one write per file that is not skipped, in walk order. */
  lemma {:induction false} CopyEntryWrites(e: Entry, destination: string, projectName: string, packageManager: string)
    ensures WrittenContents(CopyEntry(e, destination, projectName, packageManager)) ==
      Map(Processor(projectName, packageManager), EntryFiles(e, packageManager))
    decreases e
  {
    var f := Processor(projectName, packageManager);
    if !ShouldSkipFile(e.name, packageManager) {
      var destPath := DestinationPath(destination, e.name);
      match e
      case File(_, content) =>
        assert [WriteFile(destPath, Processed(content, projectName, packageManager))][..0] == [];
        assert [content][..0] == [];
      case Dir(_, children) =>
        CopyEntriesWrites(children, destPath, projectName, packageManager);
        WrittenContentsAppend([MakeDir(destPath)], CopyEntries(children, destPath, projectName, packageManager));
        assert [MakeDir(destPath)][..0] == [];
    }
  }

  lemma {:induction false} CopyEntriesWrites(es: seq<Entry>, destination: string, projectName: string, packageManager: string)
    ensures WrittenContents(CopyEntries(es, destination, projectName, packageManager)) ==
      Map(Processor(projectName, packageManager), TreeFiles(es, packageManager))
    decreases es
  {
    if es != [] {
      var init, last := es[..|es| - 1], es[|es| - 1];
      var f := Processor(projectName, packageManager);
      CopyEntriesWrites(init, destination, projectName, packageManager);
      CopyEntryWrites(last, destination, projectName, packageManager);
      WrittenContentsAppend(CopyEntries(init, destination, projectName, packageManager),
                            CopyEntry(last, destination, projectName, packageManager));
      MapAppend(f, TreeFiles(init, packageManager), EntryFiles(last, packageManager));
    }
  }

  /** Copying a directory writes exactly its template files, processed. */
  lemma CopyDirectoryWrites(es: seq<Entry>, destination: string, projectName: string, packageManager: string)
    ensures WrittenContents(CopyDirectory(es, destination, projectName, packageManager)) ==
      Map(Processor(projectName, packageManager), TreeFiles(es, packageManager))
  {
    CopyEntriesWrites(es, destination, projectName, packageManager);
    WrittenContentsAppend([MakeDir(destination)], CopyEntries(es, destination, projectName, packageManager));
    assert [MakeDir(destination)][..0] == [];
  }

  /** A skipped entry contributes nothing; any other entry contributes at
      least the directory it creates or the file it writes. */
  lemma CopyEntryEmpty(e: Entry, destination: string, projectName: string, packageManager: string)
    ensures CopyEntry(e, destination, projectName, packageManager) == [] <==> ShouldSkipFile(e.name, packageManager)
  {
  }

  /** Skipping is filtering: copying a listing copies the entries the filter
      keeps, in their order. */
  lemma {:induction false} CopyEntriesFiltered(es: seq<Entry>, destination: string, projectName: string, packageManager: string)
    ensures CopyEntries(es, destination, projectName, packageManager) ==
      CopyEntries(Filter(Copied(packageManager), es), destination, projectName, packageManager)
    decreases |es|
  {
    if es != [] {
      var init, last := es[..|es| - 1], es[|es| - 1];
      var p := Copied(packageManager);
      var kept := Filter(p, init);
      assert Filter(p, es) == kept + (if p(last) then [last] else []);
      CopyEntriesFiltered(init, destination, projectName, packageManager);
      if p(last) {
        var ks := kept + [last];
        assert ks[..|ks| - 1] == kept && ks[|ks| - 1] == last;
        assert CopyEntries(ks, destination, projectName, packageManager) ==
          CopyEntries(kept, destination, projectName, packageManager) +
          CopyEntry(last, destination, projectName, packageManager);
      } else {
        CopyEntryEmpty(last, destination, projectName, packageManager);
        assert kept + [] == kept;
      }
    }
  }

  /** With pnpm nothing is skipped. */
  lemma PnpmKeepsEverything(es: seq<Entry>)
    ensures Filter(Copied("pnpm"), es) == es
  {
    FilterAll(Copied("pnpm"), es);
  }

  /** Every other package manager skips exactly the workspace file. */
  lemma OthersSkipWorkspace(es: seq<Entry>, packageManager: string)
    requires packageManager != "pnpm"
    ensures forall e :: e in Filter(Copied(packageManager), es) <==> e in es && e.name != WorkspaceFile
  {
  }

  /** The destination of an entry: a final `.template` is dropped from the
      name, and nothing else changes. */
  lemma DestinationStripsExtension(destination: string, entry: string)
    ensures EndsWith(entry, TemplateExtension) ==>
      DestinationPath(destination, entry) + TemplateExtension == PathJoin(destination, entry) &&
      DestinationPath(destination, entry) == PathJoin(destination, entry[..|entry| - |TemplateExtension|])
    ensures !EndsWith(entry, TemplateExtension) ==> DestinationPath(destination, entry) == PathJoin(destination, entry)
  {
    if EndsWith(entry, TemplateExtension) {
      var destPath := PathJoin(destination, entry);
      var n := |destPath| - |TemplateExtension|;
      assert destPath[n..] == entry[|entry| - |TemplateExtension|..];
      assert destPath[..n] + destPath[n..] == destPath;
      assert destPath[..n] == destination + "/" + entry[..|entry| - |TemplateExtension|];
    }
  }

  /** Every path the copy creates or writes starts with the destination
      and a slash. A file named exactly `.template` is written to
      `destination + "/"` itself. */
  lemma {:induction false} CopyEntryInside(e: Entry, destination: string, projectName: string, packageManager: string)
    ensures forall k :: 0 <= k < |CopyEntry(e, destination, projectName, packageManager)| ==>
      StartsWith(CopyEntry(e, destination, projectName, packageManager)[k].path, destination + "/")
    decreases e
  {
    if !ShouldSkipFile(e.name, packageManager) {
      var destPath := DestinationPath(destination, e.name);
      var prefix := destination + "/";
      assert StartsWith(destPath, prefix) by {
        assert |prefix| <= |destPath|;
        assert destPath[..|prefix|] == prefix;
      }
      match e
      case File(_, content) =>
      case Dir(_, children) =>
        var rest := CopyEntries(children, destPath, projectName, packageManager);
        CopyEntriesInside(children, destPath, projectName, packageManager);
        forall k | 0 <= k < |rest| ensures StartsWith(rest[k].path, prefix) {
          StartsWithTrans(rest[k].path, destPath + "/", prefix);
        }
        assert CopyEntry(e, destination, projectName, packageManager) == [MakeDir(destPath)] + rest;
    }
  }

  lemma {:induction false} CopyEntriesInside(es: seq<Entry>, destination: string, projectName: string, packageManager: string)
    ensures forall k :: 0 <= k < |CopyEntries(es, destination, projectName, packageManager)| ==>
      StartsWith(CopyEntries(es, destination, projectName, packageManager)[k].path, destination + "/")
    decreases es
  {
    if es != [] {
      var init, last := es[..|es| - 1], es[|es| - 1];
      CopyEntriesInside(init, destination, projectName, packageManager);
      CopyEntryInside(last, destination, projectName, packageManager);
    }
  }

  /** A prefix of a prefix is a prefix. */
  lemma StartsWithTrans(s: string, t: string, u: string)
    requires StartsWith(s, t) && StartsWith(t, u)
    ensures StartsWith(s, u)
  {
    assert s[..|u|] == s[..|t|][..|u|];
  }

  /** A file without `{{` is copied as it is. */
  lemma ProcessedWithoutBraces(content: string, projectName: string, packageManager: string)
    requires !Contains(content, "{{")
    ensures Processed(content, projectName, packageManager) == content
  {
    TemplateVariables.SubstituteWithoutBraces(content, Variables(projectName, packageManager), NoCleanup);
  }

  /** `{{projectName}}` is written as the project name, whatever the
      package manager, for a name without `{{`. */
  lemma ProjectNamePlaceholder(projectName: string, packageManager: string)
    requires !Contains(projectName, "{{")
    ensures Processed(TemplateVariables.Placeholder("projectName"), projectName, packageManager) == projectName
  {
    var vars := Variables(projectName, packageManager);
    var p := TemplateVariables.Placeholder("projectName");
    assert vars[..1][..0] == [];
    assert vars[..1] == [vars[0]];
    var v1 := vars[..1];
    assert TemplateVariables.Substitute(p, v1[..0], NoCleanup) == p;
    var s1 := TemplateVariables.Substitute(p, v1, NoCleanup);
    assert s1 == TemplateVariables.ReplaceEntry(p, "projectName", vars[0].1, NoCleanup);
    TemplateVariables.OtherStringEntry("projectName", projectName, p, NoCleanup);
    TemplateVariables.EntryWithoutBraces(projectName, "packageManager", vars[1].1, NoCleanup);
  }
}
