/** How the generator commands locate their schema file: a path given on the
    command line, or else the first of a few conventional locations that
    exists, and then a check that the chosen file is there. */
module SchemaSearch {
  import opened Wrappers
  import opened Seqs

  /** Why no schema file could be used. */
  datatype SchemaError = SchemaNotFound | SchemaFileMissing(path: string)

  /** The message of each error, for a schema of the given kind
      (`Drizzle`, `Prisma`). */
  function Message(e: SchemaError, kind: string): string {
    match e
    case SchemaNotFound => kind + " schema not found"
    case SchemaFileMissing(path) => "Schema file does not exist: " + path
  }

  /** Whether a candidate, once resolved, exists. */
  function ExistsResolved(resolve: string -> string, pathExists: string -> bool): string -> bool {
    p => pathExists(resolve(p))
  }

  /** The resolved form of the first candidate that exists. */
  function FirstExisting(paths: seq<string>, resolve: string -> string, pathExists: string -> bool): Option<string> {
    match FirstIndex(ExistsResolved(resolve, pathExists), paths)
    case None => None
    case Some(i) => Some(resolve(paths[i]))
  }

  /** The candidates are tried in order: the result is the first one that
      exists, and there is none exactly when no candidate exists. */
  lemma FirstExistingSpec(paths: seq<string>, resolve: string -> string, pathExists: string -> bool)
    ensures FirstExisting(paths, resolve, pathExists).None? <==>
      forall j :: 0 <= j < |paths| ==> !pathExists(resolve(paths[j]))
    ensures FirstExisting(paths, resolve, pathExists).Some? ==>
      exists i :: 0 <= i < |paths| && FirstExisting(paths, resolve, pathExists) == Some(resolve(paths[i])) &&
        pathExists(resolve(paths[i])) && forall j :: 0 <= j < i ==> !pathExists(resolve(paths[j]))
  {
    var p := ExistsResolved(resolve, pathExists);
    match FirstIndex(p, paths)
    case None =>
      assert forall j :: 0 <= j < |paths| ==> !p(paths[j]);
    case Some(i) =>
      assert p(paths[i]);
      assert forall j :: 0 <= j < i ==> !p(paths[j]);
  }

  /** `findDrizzleSchema` / `findPrismaSchema`: the loop over the candidate
      paths with an early return. */
  method FindSchema(paths: seq<string>, resolve: string -> string, pathExists: string -> bool)
    returns (r: Option<string>)
    ensures r == FirstExisting(paths, resolve, pathExists)
  {
    for i := 0 to |paths|
      invariant forall j :: 0 <= j < i ==> !ExistsResolved(resolve, pathExists)(paths[j])
    {
      var resolvedPath := resolve(paths[i]);
      if pathExists(resolvedPath) {
        assert ExistsResolved(resolve, pathExists)(paths[i]);
        return Some(resolvedPath);
      }
    }
    return None;
  }

  /** `providedSchemaPath || find()`, with `!schemaPath` turning null and
      the empty string alike into "no path". */
  function ChooseSchemaPath(provided: Option<string>, found: Option<string>): (r: Option<string>)
    ensures r.Some? ==> r.value != ""
    ensures provided.Some? && provided.value != "" ==> r == provided
    ensures (provided.None? || provided.value == "") ==>
      (r.Some? <==> found.Some? && found.value != "") && (r.Some? ==> r == found)
  {
    if provided.Some? && provided.value != "" then provided
    else if found.Some? && found.value != "" then found
    else None
  }

  /** The schema path a command goes on with, or why it stops. */
  function LocateSchema(provided: Option<string>, candidates: seq<string>, resolve: string -> string,
                        pathExists: string -> bool): Result<string, SchemaError>
  {
    match ChooseSchemaPath(provided, FirstExisting(candidates, resolve, pathExists))
    case None => Failure(SchemaNotFound)
    case Some(schemaPath) => if pathExists(schemaPath) then Success(schemaPath) else Failure(SchemaFileMissing(schemaPath))
  }

  /** The command's first steps: the candidates are searched only when no
      usable path was given. */
  method LocateSchemaPath(provided: Option<string>, candidates: seq<string>, resolve: string -> string,
                          pathExists: string -> bool)
    returns (r: Result<string, SchemaError>)
    ensures r == LocateSchema(provided, candidates, resolve, pathExists)
  {
    var schemaPath: Option<string>;
    if provided.Some? && provided.value != "" {
      schemaPath := provided;
    } else {
      schemaPath := FindSchema(candidates, resolve, pathExists);
    }
    if schemaPath.None? || schemaPath.value == "" {
      return Failure(SchemaNotFound);
    }
    if !pathExists(schemaPath.value) {
      return Failure(SchemaFileMissing(schemaPath.value));
    }
    return Success(schemaPath.value);
  }

  /** What the location step promises: a located path exists and is the
      given one when a non-empty one was given; a given empty path counts as
      none; without a usable path the search decides. */
  lemma LocateSchemaSpec(provided: Option<string>, candidates: seq<string>, resolve: string -> string,
                         pathExists: string -> bool)
    ensures var r := LocateSchema(provided, candidates, resolve, pathExists);
      (r.Success? ==> r.value != "" && pathExists(r.value)) &&
      (provided.Some? && provided.value != "" ==>
        r == if pathExists(provided.value) then Success(provided.value) else Failure(SchemaFileMissing(provided.value))) &&
      (provided == Some("") ==> r == LocateSchema(None, candidates, resolve, pathExists))
    ensures provided.None? ==>
      (LocateSchema(provided, candidates, resolve, pathExists) == Failure(SchemaNotFound) <==>
        match FirstExisting(candidates, resolve, pathExists)
        case None => true
        case Some(p) => p == "")
  {
  }
}
