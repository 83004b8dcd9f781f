/** `generateDrizzle`: the command that locates a Drizzle schema, parses its
    tables and hands them to the service generator. */
module GenerateDrizzleCommand {
  import opened Wrappers
  import opened Strings
  import opened Fs
  import opened SchemaSearch
  import opened DrizzleParser
  import opened DrizzleGenerator

  /** The decoded command-line options. `all` is accepted and unused. */
  datatype Options = Options(
    schemaPath: Option<string>,
    outputDir: Option<string>,
    servicesDir: Option<string>,
    all: Option<bool>)

  datatype DrizzleError = LocateFailed(error: SchemaError) | ReadFailed(readError: FileReadError)

  /** What a run does once the schema has been read: warn that there is
      nothing to generate, or generate the services of the parsed tables
      into the two directories. */
  datatype Outcome =
    | NoTables(schemaPath: string)
    | Generated(schemaPath: string, outputDir: string, servicesDir: string, tables: seq<DrizzleTable>)

  const DrizzleCandidates: seq<string> := ["./src/schema.ts", "./packages/database/src/schema.ts", "../database/src/schema.ts"]

  /** A schema in the monorepo's database package. */
  predicate InDatabasePackage(schemaPath: string) {
    Contains(schemaPath, "packages/database")
  }

  function DefaultOutputDir(schemaPath: string, resolve: string -> string): string {
    if InDatabasePackage(schemaPath) then resolve("./packages/database/src/generated/effect")
    else resolve("./src/generated/effect")
  }

  function DefaultServicesDir(schemaPath: string, resolve: string -> string): string {
    if InDatabasePackage(schemaPath) then resolve("./packages/api/src/services")
    else resolve("./src/services")
  }

  /** An option given on the command line is resolved; otherwise the
      default for the schema's location is used. */
  function ChosenDir(option: Option<string>, default: string, resolve: string -> string): string {
    if option.Some? then resolve(option.value) else default
  }

  /** The whole command, from its options and the file system (`resolve`,
      `existsSync`, reading the schema file) to its outcome. */
  function GenerateDrizzleOutcome(options: Options, resolve: string -> string, pathExists: string -> bool,
                                  readFile: string -> Result<string, string>): Result<Outcome, DrizzleError>
  {
    match LocateSchema(options.schemaPath, DrizzleCandidates, resolve, pathExists)
    case Failure(e) => Failure(LocateFailed(e))
    case Success(schemaPath) =>
      var outputDir := ChosenDir(options.outputDir, DefaultOutputDir(schemaPath, resolve), resolve);
      var servicesDir := ChosenDir(options.servicesDir, DefaultServicesDir(schemaPath, resolve), resolve);
      match readFile(schemaPath)
      case Failure(message) => Failure(ReadFailed(FileReadError(message, schemaPath)))
      case Success(content) =>
        var tables := Tables(content);
        if |tables| == 0 then Success(NoTables(schemaPath))
        else Success(Generated(schemaPath, outputDir, servicesDir, tables))
  }

  /** The files a run writes: those of `generateDrizzleServices` when it
      generates, and none otherwise. */
  function OutcomeFiles(r: Result<Outcome, DrizzleError>): seq<FsOp> {
    if r.Success? && r.value.Generated? then
      [MakeDir(PathJoin(r.value.outputDir, "schemas")), MakeDir(r.value.servicesDir)] +
        TablesFiles(r.value.outputDir, r.value.servicesDir, r.value.tables)
    else []
  }

  /** `findDrizzleSchema`. */
  method FindDrizzleSchema(resolve: string -> string, pathExists: string -> bool) returns (r: Option<string>)
    ensures r == FirstExisting(DrizzleCandidates, resolve, pathExists)
  {
    r := FindSchema(DrizzleCandidates, resolve, pathExists);
  }

  /** `generateDrizzle`: the file operations are those of
      `generateDrizzleServices` on the parsed tables. */
  method GenerateDrizzle(options: Options, resolve: string -> string, pathExists: string -> bool,
                         readFile: string -> Result<string, string>)
    returns (r: Result<Outcome, DrizzleError>, ops: seq<FsOp>)
    ensures r == GenerateDrizzleOutcome(options, resolve, pathExists, readFile)
    ensures ops == OutcomeFiles(r)
  {
    r := PrepareDrizzle(options, resolve, pathExists, readFile);
    if r.Success? && r.value.Generated? {
      ops := GenerateDrizzleServices(r.value.tables, r.value.outputDir, r.value.servicesDir);
    } else {
      ops := [];
    }
  }

  /** The steps of `generateDrizzle` before the generator runs: locating
      the schema, choosing the directories, parsing the tables. */
  method PrepareDrizzle(options: Options, resolve: string -> string, pathExists: string -> bool,
                        readFile: string -> Result<string, string>)
    returns (r: Result<Outcome, DrizzleError>)
    ensures r == GenerateDrizzleOutcome(options, resolve, pathExists, readFile)
  {
    var located := LocateSchemaPath(options.schemaPath, DrizzleCandidates, resolve, pathExists);
    if located.Failure? {
      return Failure(LocateFailed(located.error));
    }
    var schemaPath := located.value;
    var outputDir := if options.outputDir.Some? then resolve(options.outputDir.value) else DefaultOutputDir(schemaPath, resolve);
    var servicesDir := if options.servicesDir.Some? then resolve(options.servicesDir.value) else DefaultServicesDir(schemaPath, resolve);
    var parsed := ParseDrizzleSchema(schemaPath, readFile(schemaPath));
    if parsed.Failure? {
      return Failure(ReadFailed(parsed.error));
    }
    var tables := parsed.value;
    if |tables| == 0 {
      return Success(NoTables(schemaPath));
    }
    return Success(Generated(schemaPath, outputDir, servicesDir, tables));
  }

  // ---------------------------------------------------------------------
  // Properties
  // ---------------------------------------------------------------------

  /** A run that generates used an existing schema file with at least one
      table, and generated the files of exactly the tables parsed from it,
      into the chosen directories. */
  lemma GeneratedSpec(options: Options, resolve: string -> string, pathExists: string -> bool,
                      readFile: string -> Result<string, string>)
    ensures var r := GenerateDrizzleOutcome(options, resolve, pathExists, readFile);
      r.Success? && r.value.Generated? ==>
        var o := r.value;
        pathExists(o.schemaPath) && readFile(o.schemaPath).Success? &&
        |Tables(readFile(o.schemaPath).value)| > 0 &&
        o.outputDir == ChosenDir(options.outputDir, DefaultOutputDir(o.schemaPath, resolve), resolve) &&
        o.servicesDir == ChosenDir(options.servicesDir, DefaultServicesDir(o.schemaPath, resolve), resolve) &&
        o.tables == Tables(readFile(o.schemaPath).value)
  {
    LocateSchemaSpec(options.schemaPath, DrizzleCandidates, resolve, pathExists);
  }

  /** A schema without tables generates nothing; a schema that cannot be
      read fails with the reader's message and the path. */
  lemma NothingGeneratedSpec(options: Options, resolve: string -> string, pathExists: string -> bool,
                             readFile: string -> Result<string, string>, schemaPath: string)
    requires LocateSchema(options.schemaPath, DrizzleCandidates, resolve, pathExists) == Success(schemaPath)
    ensures readFile(schemaPath).Success? && Tables(readFile(schemaPath).value) == [] ==>
      GenerateDrizzleOutcome(options, resolve, pathExists, readFile) == Success(NoTables(schemaPath))
    ensures readFile(schemaPath).Failure? ==>
      GenerateDrizzleOutcome(options, resolve, pathExists, readFile) ==
        Failure(ReadFailed(FileReadError(readFile(schemaPath).error, schemaPath)))
  {
  }

  /** The defaults follow the schema: a schema in the database package
      generates into that package and the API package, any other into `src`.
      An explicit option always wins. */
  lemma DefaultDirs(schemaPath: string, resolve: string -> string, option: Option<string>)
    ensures InDatabasePackage(schemaPath) ==>
      DefaultOutputDir(schemaPath, resolve) == resolve("./packages/database/src/generated/effect") &&
      DefaultServicesDir(schemaPath, resolve) == resolve("./packages/api/src/services")
    ensures !InDatabasePackage(schemaPath) ==>
      DefaultOutputDir(schemaPath, resolve) == resolve("./src/generated/effect") &&
      DefaultServicesDir(schemaPath, resolve) == resolve("./src/services")
    ensures option.Some? ==> ChosenDir(option, DefaultOutputDir(schemaPath, resolve), resolve) == resolve(option.value)
  {
  }

  /** An empty `--schema-path` is treated as if none were given. */
  lemma EmptySchemaPathIgnored(options: Options, resolve: string -> string, pathExists: string -> bool,
                               readFile: string -> Result<string, string>)
    requires options.schemaPath == Some("")
    ensures GenerateDrizzleOutcome(options, resolve, pathExists, readFile) ==
      GenerateDrizzleOutcome(options.(schemaPath := None), resolve, pathExists, readFile)
  {
    LocateSchemaSpec(options.schemaPath, DrizzleCandidates, resolve, pathExists);
  }
}
