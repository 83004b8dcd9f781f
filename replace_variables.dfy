/** `replaceVariables`: the `{{name}}` placeholders of a template file are
    replaced, variable by variable, in the order of the variables. */
module TemplateVariables {
  import opened Wrappers
  import opened Strings

  /** A variable's value: a string or a flag. */
  datatype Value = Str(s: string) | Flag(b: bool)

  /** The variables in the order `Object.entries` lists them. */
  type Variables = seq<(string, Value)>

  /** The pinned version of each package manager. */
  function Version(packageManager: string): Option<string> {
    match packageManager
    case "bun" => Some("1.3.0")
    case "pnpm" => Some("10.18.3")
    case "npm" => Some("11.6.2")
    case _ => None
  }

  /** The command that runs a package binary without installing it. */
  function ExecutableCommand(packageManager: string): Option<string> {
    match packageManager
    case "bun" => Some("bun x")
    case "pnpm" => Some("pnpx")
    case "npm" => Some("npx")
    case _ => None
  }

  /** The install command. */
  function InstallCommand(packageManager: string): Option<string> {
    match packageManager
    case "bun" => Some("bun install")
    case "pnpm" => Some("pnpm install")
    case "npm" => Some("npm install")
    case _ => None
  }

  /** A missing table entry is `undefined`, which both a template literal and
      `replace` turn into the text `undefined`. */
  function OrUndefined(o: Option<string>): string {
    match o
    case Some(v) => v
    case None => "undefined"
  }

  function Placeholder(key: string): string {
    "{{" + key + "}}"
  }

  const PackageManagerKey := "packageManager"
  const SkipHuskyKey := "skipHusky"
  const ExecutablePlaceholder := "{{packageManagerExecutable}}"
  const InstallPlaceholder := "{{packageManagerInstall}}"
  /** The husky placeholder is replaced together with its quotes. */
  const HuskyPlaceholder := "\"{{huskyPrepareScript}}\""
  const HuskyPrepareScript := "\"prepare\": \"husky\""

  /** One iteration of the loop over the variables. `cleanup` stands for the
      regular-expression rewrites that strip the husky and commitlint
      dependencies when `skipHusky` is true. */
  function ReplaceEntry(result: string, key: string, value: Value, cleanup: string -> string): string {
    if key == PackageManagerKey && value.Str? then
      var pm := value.s;
      var r1 := ReplaceAll(result, Placeholder(key), pm + "@" + OrUndefined(Version(pm)));
      var r2 := ReplaceAll(r1, ExecutablePlaceholder, OrUndefined(ExecutableCommand(pm)));
      ReplaceAll(r2, InstallPlaceholder, OrUndefined(InstallCommand(pm)))
    else if key == SkipHuskyKey then
      var r := ReplaceAll(result, HuskyPlaceholder, if value == Flag(true) then "" else HuskyPrepareScript);
      if value == Flag(true) then cleanup(r) else r
    else if value.Str? then
      ReplaceAll(result, Placeholder(key), value.s)
    else result
  }

  /** The content after the loop over `variables`. */
  function Substitute(content: string, variables: Variables, cleanup: string -> string): string
    decreases |variables|
  {
    if variables == [] then content
    else
      var last := variables[|variables| - 1];
      ReplaceEntry(Substitute(content, variables[..|variables| - 1], cleanup), last.0, last.1, cleanup)
  }

  /** `replaceVariables`: `result` is reassigned once per variable. */
  method ReplaceVariables(content: string, variables: Variables, cleanup: string -> string)
    returns (result: string)
    ensures result == Substitute(content, variables, cleanup)
  {
    result := content;
    for i := 0 to |variables|
      invariant result == Substitute(content, variables[..i], cleanup)
    {
      assert variables[..i + 1][..i] == variables[..i];
      var (key, value) := variables[i];
      if key == PackageManagerKey && value.Str? {
        var version := OrUndefined(Version(value.s));
        var executable := OrUndefined(ExecutableCommand(value.s));
        var install := OrUndefined(InstallCommand(value.s));
        result := ReplaceAll(result, Placeholder(key), value.s + "@" + version);
        result := ReplaceAll(result, ExecutablePlaceholder, executable);
        result := ReplaceAll(result, InstallPlaceholder, install);
      } else if key == SkipHuskyKey {
        var huskyPrepareScript := if value == Flag(true) then "" else HuskyPrepareScript;
        result := ReplaceAll(result, HuskyPlaceholder, huskyPrepareScript);
        if value == Flag(true) {
          result := cleanup(result);
        }
      } else if value.Str? {
        result := ReplaceAll(result, Placeholder(key), value.s);
      }
    }
    assert variables[..|variables|] == variables;
  }

  // ---------------------------------------------------------------------
  // Properties
  // ---------------------------------------------------------------------

  /** The three package-manager placeholders are distinct: none occurs in
      another, so each is replaced by its own value, for any package manager
      whose name holds no `{`. */
  lemma PackageManagerPlaceholders(pm: string, cleanup: string -> string)
    requires '{' !in pm
    ensures ReplaceEntry(Placeholder(PackageManagerKey), PackageManagerKey, Str(pm), cleanup) ==
      pm + "@" + OrUndefined(Version(pm))
    ensures ReplaceEntry(ExecutablePlaceholder, PackageManagerKey, Str(pm), cleanup) ==
      OrUndefined(ExecutableCommand(pm))
    ensures ReplaceEntry(InstallPlaceholder, PackageManagerKey, Str(pm), cleanup) ==
      OrUndefined(InstallCommand(pm))
  {
    var p0, p1, p2 := Placeholder(PackageManagerKey), ExecutablePlaceholder, InstallPlaceholder;
    var v, e, n := pm + "@" + OrUndefined(Version(pm)), OrUndefined(ExecutableCommand(pm)), OrUndefined(InstallCommand(pm));
    TableValuesWithoutBraces(pm);
    assert '{' !in v;
    PackageManagerEntry(p0, pm, cleanup);
    ReplaceFirstOfThree(p0, p1, p2, v, e, n);
    ExecutableLacksPackageManager();
    PackageManagerEntry(p1, pm, cleanup);
    ReplaceSecondOfThree(p0, p1, p2, v, e, n);
    InstallLacksPackageManager();
    InstallLacksExecutable();
    PackageManagerEntry(p2, pm, cleanup);
    ReplaceThirdOfThree(p0, p1, p2, v, e, n);
  }

  /** A `packageManager` entry runs its three replacements in turn. */
  lemma PackageManagerEntry(result: string, pm: string, cleanup: string -> string)
    ensures ReplaceEntry(result, PackageManagerKey, Str(pm), cleanup) ==
      ReplaceAll(ReplaceAll(ReplaceAll(result, Placeholder(PackageManagerKey), pm + "@" + OrUndefined(Version(pm))),
        ExecutablePlaceholder, OrUndefined(ExecutableCommand(pm))), InstallPlaceholder, OrUndefined(InstallCommand(pm)))
  {
  }

  /** Three replacements in turn, each inserting text without `{` and each
      pattern after the first starting with `{`: the first pattern alone
      becomes its replacement. */
  lemma ReplaceFirstOfThree(p0: string, p1: string, p2: string, v: string, e: string, n: string)
    requires p0 != [] && p1 != [] && p2 != [] && p1[0] == '{' && p2[0] == '{' && '{' !in v
    ensures ReplaceAll(ReplaceAll(ReplaceAll(p0, p0, v), p1, e), p2, n) == v
  {
    ReplaceAllOnce(p0, v);
    NoPlaceholderIn(v, p1);
    ReplaceAllAbsent(v, p1, e);
    NoPlaceholderIn(v, p2);
    ReplaceAllAbsent(v, p2, n);
  }

  /** The second pattern, which does not contain the first, becomes its
      replacement. */
  lemma ReplaceSecondOfThree(p0: string, p1: string, p2: string, v: string, e: string, n: string)
    requires p0 != [] && p1 != [] && p2 != [] && p2[0] == '{' && '{' !in e && !Contains(p1, p0)
    ensures ReplaceAll(ReplaceAll(ReplaceAll(p1, p0, v), p1, e), p2, n) == e
  {
    ReplaceAllAbsent(p1, p0, v);
    ReplaceAllOnce(p1, e);
    NoPlaceholderIn(e, p2);
    ReplaceAllAbsent(e, p2, n);
  }

  /** The third pattern, which contains neither of the others, becomes its
      replacement. */
  lemma ReplaceThirdOfThree(p0: string, p1: string, p2: string, v: string, e: string, n: string)
    requires p0 != [] && p1 != [] && p2 != [] && !Contains(p2, p0) && !Contains(p2, p1)
    ensures ReplaceAll(ReplaceAll(ReplaceAll(p2, p0, v), p1, e), p2, n) == n
  {
    ReplaceAllAbsent(p2, p0, v);
    ReplaceAllAbsent(p2, p1, e);
    ReplaceAllOnce(p2, n);
  }

  /** The version and command tables hold no `{`. */
  lemma TableValuesWithoutBraces(pm: string)
    ensures '{' !in OrUndefined(Version(pm))
    ensures '{' !in OrUndefined(ExecutableCommand(pm))
    ensures '{' !in OrUndefined(InstallCommand(pm))
  {
  }

  /** `{{packageManager}}` is not a prefix of the executable placeholder. */
  lemma ExecutableLacksPackageManager()
    ensures !Contains(ExecutablePlaceholder, Placeholder(PackageManagerKey))
  {
    assert Placeholder(PackageManagerKey)[16] == '}';
    assert ExecutablePlaceholder[16] == 'E';
    OnlyLeadingBraces(ExecutablePlaceholder, Placeholder(PackageManagerKey));
  }

  /** Nor of the install placeholder. */
  lemma InstallLacksPackageManager()
    ensures !Contains(InstallPlaceholder, Placeholder(PackageManagerKey))
  {
    assert Placeholder(PackageManagerKey)[16] == '}';
    assert InstallPlaceholder[16] == 'I';
    OnlyLeadingBraces(InstallPlaceholder, Placeholder(PackageManagerKey));
  }

  /** The executable placeholder is longer than the install one. */
  lemma InstallLacksExecutable()
    ensures !Contains(InstallPlaceholder, ExecutablePlaceholder)
  {
    if Contains(InstallPlaceholder, ExecutablePlaceholder) {
      var i := ContainsLitAt(InstallPlaceholder, ExecutablePlaceholder);
    }
  }

  /** A placeholder occurs in a text whose only `{` are its first two
      characters only as a prefix of it. */
  lemma OnlyLeadingBraces(s: string, pat: string)
    requires |pat| >= 2 && pat[0] == '{' && pat[1] == '{'
    requires forall k :: 2 <= k < |s| ==> s[k] != '{'
    requires |pat| <= |s| ==> s[..|pat|] != pat
    ensures !Contains(s, pat)
  {
    if Contains(s, pat) {
      var i := ContainsLitAt(s, pat);
      LitAtChars(s, i, pat);
    }
  }

  /** A text without `{` holds no placeholder. */
  lemma NoPlaceholderIn(s: string, pat: string)
    requires '{' !in s && pat != [] && pat[0] == '{'
    ensures !Contains(s, pat)
  {
    if Contains(s, pat) {
      var i := ContainsLitAt(s, pat);
    }
  }

  /** Any other string variable replaces every occurrence of its
      placeholder, from left to right; the value put in is not scanned again,
      even when it contains the placeholder itself. */
  lemma OtherStringEntry(key: string, v: string, result: string, cleanup: string -> string)
    requires key != PackageManagerKey && key != SkipHuskyKey
    ensures ReplaceEntry(result, key, Str(v), cleanup) == ReplaceAll(result, Placeholder(key), v)
    ensures ReplaceEntry(Placeholder(key), key, Str(v), cleanup) == v
  {
    ReplaceAllOnce(Placeholder(key), v);
  }

  /** A flag for any key but `skipHusky` changes nothing. */
  lemma FlagEntryUnchanged(key: string, b: bool, result: string, cleanup: string -> string)
    requires key != SkipHuskyKey
    ensures ReplaceEntry(result, key, Flag(b), cleanup) == result
  {
  }

  /** The husky placeholder, quotes included, becomes the `prepare` script
      unless `skipHusky` is true, in which case it is removed and the cleanup
      runs on what is left. A text without the placeholder keeps its content:
      only the cleanup, when `skipHusky` is true, can change it. */
  lemma SkipHuskyEntry(value: Value, result: string, cleanup: string -> string)
    ensures value == Flag(true) ==>
      ReplaceEntry(HuskyPlaceholder, SkipHuskyKey, value, cleanup) == cleanup("")
    ensures value != Flag(true) ==>
      ReplaceEntry(HuskyPlaceholder, SkipHuskyKey, value, cleanup) == HuskyPrepareScript
    ensures !Contains(result, HuskyPlaceholder) && value == Flag(true) ==>
      ReplaceEntry(result, SkipHuskyKey, value, cleanup) == cleanup(result)
    ensures !Contains(result, HuskyPlaceholder) && value != Flag(true) ==>
      ReplaceEntry(result, SkipHuskyKey, value, cleanup) == result
  {
    ReplaceAllOnce(HuskyPlaceholder, "");
    ReplaceAllOnce(HuskyPlaceholder, HuskyPrepareScript);
    if !Contains(result, HuskyPlaceholder) {
      ReplaceAllAbsent(result, HuskyPlaceholder, "");
      ReplaceAllAbsent(result, HuskyPlaceholder, HuskyPrepareScript);
    }
  }

  /** Every placeholder starts with `{{`. */
  lemma EntryWithoutBraces(result: string, key: string, value: Value, cleanup: string -> string)
    requires key != SkipHuskyKey && !Contains(result, "{{")
    ensures ReplaceEntry(result, key, value, cleanup) == result
  {
    var braces := "{{";
    forall pat | pat == Placeholder(key) || pat == ExecutablePlaceholder || pat == InstallPlaceholder
      ensures !Contains(result, pat)
    {
      assert pat[..2] == braces;
      ContainsAt(pat, braces, 0);
      if Contains(result, pat) {
        ContainsTrans(result, pat, braces);
      }
    }
    if key == PackageManagerKey && value.Str? {
      var pm := value.s;
      ReplaceAllAbsent(result, Placeholder(key), pm + "@" + OrUndefined(Version(pm)));
      ReplaceAllAbsent(result, ExecutablePlaceholder, OrUndefined(ExecutableCommand(pm)));
      ReplaceAllAbsent(result, InstallPlaceholder, OrUndefined(InstallCommand(pm)));
    } else if value.Str? {
      ReplaceAllAbsent(result, Placeholder(key), value.s);
    }
  }

  /** Without a `skipHusky` variable, a text with no `{{` is returned as it
      is. */
  lemma {:induction false} SubstituteWithoutBraces(content: string, variables: Variables, cleanup: string -> string)
    requires !Contains(content, "{{")
    requires forall k :: 0 <= k < |variables| ==> variables[k].0 != SkipHuskyKey
    ensures Substitute(content, variables, cleanup) == content
    decreases |variables|
  {
    if variables != [] {
      var init := variables[..|variables| - 1];
      assert forall k :: 0 <= k < |init| ==> init[k].0 != SkipHuskyKey by {
        forall k | 0 <= k < |init| ensures init[k].0 != SkipHuskyKey {
          assert init[k] == variables[k];
        }
      }
      SubstituteWithoutBraces(content, init, cleanup);
      var last := variables[|variables| - 1];
      EntryWithoutBraces(content, last.0, last.1, cleanup);
    }
  }

  /** Without a `skipHusky` variable the cleanup is never run. */
  lemma {:induction false} SubstituteIgnoresCleanup(content: string, variables: Variables, f: string -> string, g: string -> string)
    requires forall k :: 0 <= k < |variables| ==> variables[k].0 != SkipHuskyKey
    ensures Substitute(content, variables, f) == Substitute(content, variables, g)
    decreases |variables|
  {
    if variables != [] {
      var init := variables[..|variables| - 1];
      assert forall k :: 0 <= k < |init| ==> init[k].0 != SkipHuskyKey by {
        forall k | 0 <= k < |init| ensures init[k].0 != SkipHuskyKey {
          assert init[k] == variables[k];
        }
      }
      SubstituteIgnoresCleanup(content, init, f, g);
    }
  }
}
