/** `validateProjectName`: the project-name schema of the scaffolder, whose
    refinements run in order and report the first one that fails, followed
    by the check that no file of that name exists yet. */
module ProjectNames {
  import opened Wrappers
  import opened Strings

  /** Why a name is refused. */
  datatype NameError =
    | EmptyName
    | NotTrimmed
    | InvalidCharacters
    | ReservedName
    | InvalidName
    | ProjectAlreadyExists(projectName: string)

  /** The message of each refinement that names one; `trimmed` reports the
      schema library's own message, and the existing project is a tagged
      error carrying the name. */
  function Message(e: NameError): Option<string> {
    match e
    case EmptyName => Some("Project name cannot be empty")
    case NotTrimmed => None
    case InvalidCharacters => Some("Project name contains invalid characters. Avoid special characters like <>:\"/\\|?*")
    case ReservedName => Some("Project name cannot be a reserved directory name")
    case InvalidName => Some("Project name can only contain letters, numbers, hyphens, and underscores")
    case ProjectAlreadyExists(_) => None
  }

  /** The class `[<>:"/\\|?*]`. */
  predicate IsInvalidChar(c: char) {
    c == '<' || c == '>' || c == ':' || c == '"' || c == '/' || c == '\\' || c == '|' || c == '?' || c == '*'
  }

  /** The class `[a-z0-9-_]` under the `i` flag. */
  predicate IsNameChar(c: char) {
    IsAsciiLower(c) || IsAsciiUpper(c) || IsDigit(c) || c == '-' || c == '_'
  }

  const ReservedNames: seq<string> := ["node_modules", "dist", "build", ".git", ".next"]

  /** Decoding with `ProjectNameSchema`. */
  function DecodeProjectName(name: string): Result<string, NameError> {
    if name == [] then Failure(EmptyName)
    else if Trim(name) != name then Failure(NotTrimmed)
    else if exists k :: 0 <= k < |name| && IsInvalidChar(name[k]) then Failure(InvalidCharacters)
    else if ToLower(name) in ReservedNames then Failure(ReservedName)
    else if !(forall k :: 0 <= k < |name| ==> IsNameChar(name[k])) then Failure(InvalidName)
    else Success(name)
  }

  /** `validateProjectName`, with `pathExists` standing for `fs.exists`. */
  function ValidateProjectName(projectName: string, pathExists: string -> bool): (r: Result<string, NameError>)
    ensures r.Success? <==> DecodeProjectName(projectName).Success? && !pathExists(projectName)
    ensures r.Success? ==> r.value == projectName
    ensures r == Failure(ProjectAlreadyExists(projectName)) <==>
      DecodeProjectName(projectName).Success? && pathExists(projectName)
    ensures r.Failure? && !r.error.ProjectAlreadyExists? ==> r == DecodeProjectName(projectName)
  {
    match DecodeProjectName(projectName)
    case Failure(e) => Failure(e)
    case Success(validatedName) =>
      if pathExists(validatedName) then Failure(ProjectAlreadyExists(validatedName)) else Success(validatedName)
  }

  // ---------------------------------------------------------------------
  // Properties
  // ---------------------------------------------------------------------

  /** A text without whitespace is its own trim. */
  lemma TrimWithoutSpace(s: string)
    requires forall k :: 0 <= k < |s| ==> !IsSpace(s[k])
    ensures Trim(s) == s
  {
    assert TrimStart(s) == s;
  }

  /** A name is accepted exactly when it is a non-empty run of letters,
      digits, hyphens and underscores that is not, ignoring case, a reserved
      directory name; the accepted name is returned unchanged. */
  lemma DecodeAccepts(name: string)
    ensures DecodeProjectName(name).Success? <==>
      name != [] && (forall k :: 0 <= k < |name| ==> IsNameChar(name[k])) && ToLower(name) !in ReservedNames
    ensures DecodeProjectName(name).Success? ==> DecodeProjectName(name).value == name
  {
    if name != [] && forall k :: 0 <= k < |name| ==> IsNameChar(name[k]) {
      TrimWithoutSpace(name);
    }
  }

  /** An accepted name is a single path segment: no separator, and neither
      `.` nor `..`. */
  lemma AcceptedIsSegment(name: string)
    requires DecodeProjectName(name).Success?
    ensures '/' !in name && '\\' !in name
    ensures name != "." && name != ".."
  {
    DecodeAccepts(name);
    assert !IsNameChar('.');
    assert IsNameChar(name[0]);
  }

  /** The reserved check ignores case: `NODE_MODULES` is refused as
      reserved. */
  lemma ReservedIgnoresCase()
    ensures DecodeProjectName("NODE_MODULES") == Failure(ReservedName)
  {
    var upper, lower := "NODE_MODULES", "node_modules";
    assert forall k :: 0 <= k < |upper| ==> !IsSpace(upper[k]) && !IsInvalidChar(upper[k]);
    TrimWithoutSpace(upper);
    forall k | 0 <= k < |upper| ensures ToLower(upper)[k] == lower[k] {
    }
    assert ToLower(upper) == lower;
  }

  /** The refinements report the first failure in their order: `.git` holds
      a dot, which no name may hold, but is refused as reserved first. */
  lemma ReservedBeforePattern()
    ensures DecodeProjectName(".git") == Failure(ReservedName)
  {
    var git := ".git";
    assert forall k :: 0 <= k < |git| ==> !IsSpace(git[k]) && !IsInvalidChar(git[k]);
    TrimWithoutSpace(git);
    assert ToLower(git) == ".git";
  }

  /** A leading space is refused by trimming; an inner space passes trimming
      and the character filter and is refused by the name pattern. */
  lemma SpacesRefused()
    ensures DecodeProjectName(" app") == Failure(NotTrimmed)
    ensures DecodeProjectName("my app") == Failure(InvalidName)
  {
    var spaced, leading := "my app", " app";
    assert TrimStart(spaced) == spaced;
    assert TrimEnd(spaced) == spaced;
    assert forall k :: 0 <= k < |spaced| ==> !IsInvalidChar(spaced[k]);
    assert ToLower(spaced) == "my app";
    assert !IsNameChar(spaced[2]);
    assert TrimStart(leading) == "app" by {
      assert leading[1..] == "app";
    }
  }

  /** A path separator is refused by the character filter. */
  lemma SeparatorRefused()
    ensures DecodeProjectName("a/b") == Failure(InvalidCharacters)
  {
    var slashed := "a/b";
    assert forall k :: 0 <= k < |slashed| ==> !IsSpace(slashed[k]);
    TrimWithoutSpace(slashed);
    assert IsInvalidChar(slashed[1]);
  }
}
